/** The recursive removal of search-result provenance from an artifact (legal_rag/chat_artifacts.py). */
module LegacyShapes {
  import opened Common
  import opened Json

  /** Exactly a schema version and a search result that is an object. */
  predicate IsEnvelope(fields: map<Key, Json>, keys: set<Key>) {
    keys == {ArtifactSchemaVersion, SearchResultField} && SearchResultField in fields && fields[SearchResultField].JObject?
  }

  /** drop says that the value itself is the search result of an envelope, so it loses its provenance first. */
  function Strip(j: Json, drop: bool): Json {
    match j
    case JArray(items) => JArray(seq(|items|, i requires 0 <= i < |items| => Strip(items[i], false)))
    case JObject(fields) =>
      var kept := fields.Keys - if drop then {ProvenanceField} else {};
      var envelope := IsEnvelope(fields, kept);
      JObject(map k | k in kept :: Strip(fields[k], envelope && k == SearchResultField))
    case _ => j
  }

  predicate HasEnvelope(j: Json) {
    match j
    case JArray(items) => exists i | 0 <= i < |items| :: HasEnvelope(items[i])
    case JObject(fields) => IsEnvelope(fields, fields.Keys) || exists k | k in fields :: HasEnvelope(fields[k])
    case _ => false
  }

  function KeptKeys(fields: map<Key, Json>, drop: bool): set<Key> {
    fields.Keys - if drop then {ProvenanceField} else {}
  }

  lemma StripOf(fields: map<Key, Json>, drop: bool)
    ensures Strip(JObject(fields), drop).JObject?
    ensures Strip(JObject(fields), drop).fields.Keys == KeptKeys(fields, drop)
    ensures forall k | k in KeptKeys(fields, drop) ::
              Strip(JObject(fields), drop).fields[k] == Strip(fields[k], IsEnvelope(fields, KeptKeys(fields, drop)) && k == SearchResultField)
  {
  }

  lemma StripOfObject(fields: map<Key, Json>)
    ensures Strip(JObject(fields), false).JObject? && Strip(JObject(fields), false).fields.Keys == fields.Keys
    ensures forall k | k in fields ::
              Strip(JObject(fields), false).fields[k] == Strip(fields[k], IsEnvelope(fields, fields.Keys) && k == SearchResultField)
  {
    hide Strip, IsEnvelope;
    StripOf(fields, false);
    assert KeptKeys(fields, false) == fields.Keys;
  }

  lemma SameFields(a: map<Key, Json>, b: map<Key, Json>)
    requires a.Keys == b.Keys && forall k | k in a :: a[k] == b[k]
    ensures a == b
  {
  }

  lemma {:induction false} StripKeeps(j: Json)
    requires !HasEnvelope(j)
    ensures Strip(j, false) == j
  {
    match j
    case JArray(items) =>
      forall i | 0 <= i < |items| ensures Strip(items[i], false) == items[i] {
        StripKeeps(items[i]);
      }
    case JObject(fields) =>
      forall k | k in fields ensures Strip(fields[k], false) == fields[k] {
        StripKeeps(fields[k]);
      }
      hide Strip;
      StripOfObject(fields);
      SameFields(Strip(j, false).fields, fields);
    case _ =>
  }

  lemma EnvelopeStays(fields: map<Key, Json>)
    requires IsEnvelope(fields, fields.Keys)
    ensures HasEnvelope(Strip(JObject(fields), false))
  {
    hide Strip;
    StripOfObject(fields);
    StripStaysObject(fields[SearchResultField], true);
    var stripped := Strip(JObject(fields), false).fields;
    assert IsEnvelope(stripped, stripped.Keys);
  }

  lemma FieldShowsEnvelope(fields: map<Key, Json>, k: Key)
    requires k in fields && HasEnvelope(fields[k])
    ensures HasEnvelope(JObject(fields))
  {
  }

  lemma {:induction false} StripKeepsEnvelopes(j: Json)
    requires HasEnvelope(j)
    ensures HasEnvelope(Strip(j, false))
  {
    match j
    case JArray(items) =>
      var i :| 0 <= i < |items| && HasEnvelope(items[i]);
      StripKeepsEnvelopes(items[i]);
      assert Strip(j, false).items[i] == Strip(items[i], false);
    case JObject(fields) =>
      if IsEnvelope(fields, fields.Keys) {
        EnvelopeStays(fields);
      } else {
        var k :| k in fields && HasEnvelope(fields[k]);
        StripKeepsEnvelopes(fields[k]);
        hide Strip, HasEnvelope;
        StripOfObject(fields);
        FieldShowsEnvelope(Strip(j, false).fields, k);
      }
    case _ =>
  }

  lemma StripKeepsShape(fields: map<Key, Json>, drop: bool)
    ensures var f, keys := Strip(JObject(fields), drop).fields, KeptKeys(fields, drop);
            KeptKeys(f, drop) == keys && IsEnvelope(f, keys) == IsEnvelope(fields, keys)
  {
    hide Strip;
    StripOf(fields, drop);
    forall k, d | k in fields ensures Strip(fields[k], d).JObject? <==> fields[k].JObject? {
      StripStaysObject(fields[k], d);
    }
  }

  lemma StripStaysObject(j: Json, drop: bool)
    ensures j.JObject? <==> Strip(j, drop).JObject?
  {
  }

  /** Stripping once is enough. */
  lemma {:induction false} StripTwice(j: Json, drop: bool)
    ensures Strip(Strip(j, drop), drop) == Strip(j, drop)
  {
    match j
    case JArray(items) =>
      forall i | 0 <= i < |items| ensures Strip(Strip(items[i], false), false) == Strip(items[i], false) {
        StripTwice(items[i], false);
      }
      assert Strip(Strip(j, drop), drop).items == Strip(j, drop).items;
    case JObject(fields) =>
      forall k, d | k in fields ensures Strip(Strip(fields[k], d), d) == Strip(fields[k], d) {
        StripTwice(fields[k], d);
      }
      hide Strip;
      StripOf(fields, drop);
      var f, keys := Strip(j, drop).fields, KeptKeys(fields, drop);
      StripOf(f, drop);
      StripKeepsShape(fields, drop);
      hide KeptKeys, IsEnvelope;
      SameFields(Strip(JObject(f), drop).fields, f);
    case _ =>
  }

  /** A value without envelopes is the only one that strips to what it strips to. */
  lemma StripIsInjective(j: Json, other: Json)
    requires !HasEnvelope(j) && Strip(other, false) == Strip(j, false)
    ensures other == j
  {
    hide HasEnvelope, Strip;
    StripKeeps(j);
    if HasEnvelope(other) {
      StripKeepsEnvelopes(other);
    } else {
      StripKeeps(other);
    }
  }

  /** Another value in place of a search result's provenance. */
  function Reprovenanced(f: map<Key, Json>): map<Key, Json> {
    f[ProvenanceField := if ProvenanceField in f && f[ProvenanceField] == JNull then JBool(true) else JNull]
  }

  /** Fields that strip alike one by one, under keys that agree on being an envelope. */
  lemma StripAlike(f: map<Key, Json>, g: map<Key, Json>, drop: bool)
    requires KeptKeys(f, drop) == KeptKeys(g, drop) && IsEnvelope(f, KeptKeys(f, drop)) == IsEnvelope(g, KeptKeys(f, drop))
    requires forall k | k in KeptKeys(f, drop) ::
               var d := IsEnvelope(f, KeptKeys(f, drop)) && k == SearchResultField;
               Strip(f[k], d) == Strip(g[k], d)
    ensures Strip(JObject(f), drop) == Strip(JObject(g), drop)
  {
    hide Strip, IsEnvelope;
    StripOf(f, drop);
    StripOf(g, drop);
    hide KeptKeys;
    SameFields(Strip(JObject(f), drop).fields, Strip(JObject(g), drop).fields);
  }

  lemma ReprovenancedDiffers(f: map<Key, Json>)
    ensures Reprovenanced(f) != f
    ensures Strip(JObject(Reprovenanced(f)), true) == Strip(JObject(f), true)
    ensures Strict(JObject(f)) ==> Strict(JObject(Reprovenanced(f)))
  {
    hide Strip, Strict;
    var g := Reprovenanced(f);
    if Strict(JObject(f)) { ReprovenancedStrict(f); }
    assert g != f by { assert ProvenanceField in f ==> g[ProvenanceField] != f[ProvenanceField]; }
    var keys := KeptKeys(f, true);
    assert KeptKeys(g, true) == keys && forall k | k in keys :: g[k] == f[k];
    assert IsEnvelope(g, keys) == IsEnvelope(f, keys);
    hide Reprovenanced, IsEnvelope, KeptKeys;
    StripAlike(g, f, true);
  }

  lemma ReprovenancedStrict(f: map<Key, Json>)
    requires Strict(JObject(f))
    ensures Strict(JObject(Reprovenanced(f)))
  {
    var g := Reprovenanced(f);
    assert g[ProvenanceField].JBool? || g[ProvenanceField].JNull?;
    forall k | k in g ensures (k.Custom? ==> ValidUnicode(k.name)) && Strict(g[k]) {
      assert k != ProvenanceField ==> k in f && g[k] == f[k];
    }
  }

  lemma SameEnvelope(fields: map<Key, Json>, k: Key, value: Json)
    requires k in fields && (value.JObject? <==> fields[k].JObject?)
    ensures fields[k := value].Keys == fields.Keys
    ensures IsEnvelope(fields[k := value], fields.Keys) == IsEnvelope(fields, fields.Keys)
  {
    assert fields[k := value].Keys == fields.Keys;
  }

  /** Every outermost envelope under another provenance of its search result. */
  function Flip(j: Json): (flipped: Json)
    ensures flipped.JObject? <==> j.JObject?
  {
    match j
    case JArray(items) => JArray(seq(|items|, i requires 0 <= i < |items| => Flip(items[i])))
    case JObject(fields) =>
      if IsEnvelope(fields, fields.Keys) then Reissued(fields) else JObject(map k | k in fields :: Flip(fields[k]))
    case _ => j
  }

  function Reissued(fields: map<Key, Json>): Json
    requires IsEnvelope(fields, fields.Keys)
  {
    JObject(fields[SearchResultField := JObject(Reprovenanced(fields[SearchResultField].fields))])
  }

  /** The same below the top of an object. */
  function FlipFields(fields: map<Key, Json>): (flipped: map<Key, Json>)
    ensures flipped.Keys == fields.Keys
    ensures forall k | k in fields :: flipped[k] == Flip(fields[k])
  {
    map k | k in fields :: Flip(fields[k])
  }

  lemma FieldsStripAlikeFlipped(fields: map<Key, Json>, drop: bool)
    requires forall k, d | k in fields :: Strip(Flip(fields[k]), d) == Strip(fields[k], d)
    ensures Strip(JObject(FlipFields(fields)), drop) == Strip(JObject(fields), drop)
  {
    hide Strip, Flip;
    var flipped, keys := FlipFields(fields), KeptKeys(fields, drop);
    assert KeptKeys(flipped, drop) == keys && IsEnvelope(flipped, keys) == IsEnvelope(fields, keys);
    hide FlipFields, KeptKeys, IsEnvelope;
    StripAlike(flipped, fields, drop);
  }

  lemma ReissuedStripsAlike(fields: map<Key, Json>, drop: bool)
    requires IsEnvelope(fields, fields.Keys)
    ensures Strip(Reissued(fields), drop) == Strip(JObject(fields), drop)
  {
    hide Strip, Reprovenanced, Strict;
    var changed := Reissued(fields).fields;
    ReprovenancedDiffers(fields[SearchResultField].fields);
    SameEnvelope(fields, SearchResultField, changed[SearchResultField]);
    assert KeptKeys(fields, drop) == fields.Keys == KeptKeys(changed, drop);
    assert forall k | k in fields && k != SearchResultField :: changed[k] == fields[k];
    hide KeptKeys;
    StripAlike(changed, fields, drop);
  }

  /** Stripping forgets which provenance the envelopes had. */
  lemma {:induction false} FlipStripsAlike(j: Json, drop: bool)
    ensures Strip(Flip(j), drop) == Strip(j, drop)
  {
    match j
    case JArray(items) =>
      forall i | 0 <= i < |items| ensures Strip(Flip(items[i]), false) == Strip(items[i], false) {
        FlipStripsAlike(items[i], false);
      }
      assert Strip(Flip(j), drop).items == Strip(j, drop).items;
    case JObject(fields) =>
      forall k, d | k in fields ensures Strip(Flip(fields[k]), d) == Strip(fields[k], d) {
        FlipStripsAlike(fields[k], d);
      }
      hide Strip;
      if IsEnvelope(fields, fields.Keys) {
        ReissuedStripsAlike(fields, drop);
      } else {
        assert Flip(j).fields == FlipFields(fields);
        FieldsStripAlikeFlipped(fields, drop);
      }
    case _ =>
  }

  lemma FlipFieldsStripAlike(fields: map<Key, Json>, drop: bool)
    ensures Strip(JObject(FlipFields(fields)), drop) == Strip(JObject(fields), drop)
  {
    hide Strip, Flip;
    forall k, d | k in fields ensures Strip(Flip(fields[k]), d) == Strip(fields[k], d) {
      FlipStripsAlike(fields[k], d);
    }
    FieldsStripAlikeFlipped(fields, drop);
  }

  lemma {:induction false} FlipKeepsStrict(j: Json)
    requires Strict(j)
    ensures Strict(Flip(j))
  {
    match j
    case JArray(items) =>
      forall i | 0 <= i < |items| ensures Strict(Flip(items[i])) {
        FlipKeepsStrict(items[i]);
      }
    case JObject(fields) =>
      forall k | k in fields ensures Strict(Flip(fields[k])) {
        FlipKeepsStrict(fields[k]);
      }
      if IsEnvelope(fields, fields.Keys) {
        ReprovenancedDiffers(fields[SearchResultField].fields);
      }
      hide Reprovenanced;
    case _ =>
  }

  lemma FlipFieldsKeepStrict(fields: map<Key, Json>)
    requires Strict(JObject(fields))
    ensures Strict(JObject(FlipFields(fields)))
  {
    hide Flip;
    forall k | k in fields ensures Strict(Flip(fields[k])) {
      FlipKeepsStrict(fields[k]);
    }
  }

  /** Only values without envelopes stay as they are. */
  lemma {:induction false} FlipChangesIffEnvelope(j: Json)
    ensures Flip(j) != j <==> HasEnvelope(j)
  {
    match j
    case JArray(items) =>
      forall i | 0 <= i < |items| ensures Flip(items[i]) != items[i] <==> HasEnvelope(items[i]) {
        FlipChangesIffEnvelope(items[i]);
        assert Flip(j).items[i] == Flip(items[i]);
      }
      if !HasEnvelope(j) { assert Flip(j).items == items; }
    case JObject(fields) =>
      forall k | k in fields ensures Flip(fields[k]) != fields[k] <==> HasEnvelope(fields[k]) {
        FlipChangesIffEnvelope(fields[k]);
      }
      if IsEnvelope(fields, fields.Keys) {
        ReprovenancedDiffers(fields[SearchResultField].fields);
        assert Flip(j).fields[SearchResultField] != fields[SearchResultField];
      } else {
        assert Flip(j).fields == FlipFields(fields);
        if !HasEnvelope(j) { assert FlipFields(fields) == fields; }
      }
    case _ =>
  }

  ghost predicate Ambiguous(j: Json) {
    exists other :: other != j && Strip(other, false) == Strip(j, false)
  }

  /** Main theorem: stripping loses which value it was applied to exactly when there is an envelope in it. */
  lemma StripForgetsIffEnvelope(j: Json)
    ensures Ambiguous(j) <==> HasEnvelope(j)
  {
    hide HasEnvelope, Strip, Flip;
    FlipStripsAlike(j, false);
    FlipChangesIffEnvelope(j);
    if !HasEnvelope(j) && Ambiguous(j) {
      var other :| other != j && Strip(other, false) == Strip(j, false);
      StripIsInjective(j, other);
    }
  }
}
