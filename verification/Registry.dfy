/** Dataset registry loading (legal_rag/experiment_datasets.py). */
module Registry {
  // Registered datasets are loaded together with the parents they are derived from.

  import opened Common

  type DatasetId = string

  /** artifact is the canonical form of the whole case. */
  datatype Case = Case(id: string, artifact: string)

  datatype Dataset = Dataset(cases: seq<Case>)

  /** The registered parents, and what reading and checking each dataset's own file gives. */
  datatype Registered = Registered(parents: map<DatasetId, Option<DatasetId>>, files: map<DatasetId, Option<Dataset>>)

  predicate WellFormed(r: Registered) {
    r.parents.Keys == r.files.Keys
  }

  /** The cases by ID; a later case replaces an earlier one. */
  function ById(cases: seq<Case>): (m: map<string, Case>)
    ensures forall id | id in m :: m[id] in cases && m[id].id == id
  {
    if cases == [] then map[]
    else
      var last := cases[|cases| - 1];
      ById(cases[..|cases| - 1])[last.id := last]
  }

  /** _validate_derived_dataset */
  predicate Derives(child: Dataset, parent: Dataset) {
    var byId := ById(parent.cases);
    forall i | 0 <= i < |child.cases| :: child.cases[i].id in byId && byId[child.cases[i].id] == child.cases[i]
  }

  /** The check as a loop over the child's cases. */
  method ValidateDerived(child: Dataset, parent: Dataset) returns (ok: bool)
    ensures ok <==> Derives(child, parent)
  {
    hide ById;
    var byId := ById(parent.cases);
    for i := 0 to |child.cases|
      invariant forall k | 0 <= k < i :: child.cases[k].id in byId && byId[child.cases[k].id] == child.cases[k]
    {
      var c := child.cases[i];
      if c.id !in byId || byId[c.id] != c {
        return false;
      }
    }
    ok := true;
  }

  /** Everything one dataset needs besides the absence of cycles. */
  predicate Sound(r: Registered, id: DatasetId)
    requires WellFormed(r) && id in r.parents
  {
    && r.files[id].Some?
    && match r.parents[id]
       case None => true
       case Some(p) => p in r.parents && r.files[p].Some? && Derives(r.files[id].value, r.files[p].value)
  }

  /** The n-th ancestor. */
  function Ancestor(r: Registered, id: DatasetId, n: nat): Option<DatasetId> {
    if n == 0 then Some(id)
    else match Ancestor(r, id, n - 1)
      case None => None
      case Some(a) => if a in r.parents then r.parents[a] else None
  }

  ghost predicate Acyclic(r: Registered) {
    forall id, n: nat | id in r.parents && n > 0 :: Ancestor(r, id, n) != Some(id)
  }

  ghost predicate Reaches(r: Registered, x: DatasetId, id: DatasetId) {
    exists n: nat :: n > 0 && Ancestor(r, x, n) == Some(id)
  }

  ghost predicate AllSound(r: Registered)
    requires WellFormed(r)
  {
    forall id | id in r.parents :: Sound(r, id)
  }

  // ----- the loader -----

  predicate Distinct(ids: seq<DatasetId>) {
    forall i, j | 0 <= i < j < |ids| :: ids[i] != ids[j]
  }

  /** Every dataset of the list is sound and comes after its parent. */
  predicate ParentsFirst(r: Registered, order: seq<DatasetId>)
    requires WellFormed(r)
  {
    && (forall i | 0 <= i < |order| :: order[i] in r.parents && Sound(r, order[i]))
    && (forall i | 0 <= i < |order| && r.parents[order[i]].Some? :: exists j | 0 <= j < i :: order[j] == r.parents[order[i]].value)
  }

  class Loader {
    const registered: Registered
    /** The datasets loaded, and the order they were finished in. */
    var loaded: map<DatasetId, Dataset>
    var order: seq<DatasetId>
    var loading: set<DatasetId>
    /** Which files were read, in that order. */
    var filesRead: seq<DatasetId>

    ghost predicate Valid()
      reads this
    {
      && WellFormed(registered)
      && Distinct(order) && ParentsFirst(registered, order)
      && (forall id :: id in loaded <==> id in order)
      && (forall id | id in loaded :: id in registered.files && registered.files[id] == Some(loaded[id]))
      && loading <= registered.parents.Keys
      && (forall id | id in loading :: id !in order)
      && Distinct(filesRead) && (forall id :: id in filesRead <==> id in order || id in loading)
    }

    /** The datasets being loaded all lead to id. */
    ghost predicate LeadTo(id: DatasetId)
      reads this
    {
      forall x | x in loading :: Reaches(registered, x, id)
    }

    constructor (registered: Registered)
      requires WellFormed(registered)
      ensures Valid() && this.registered == registered && loading == {} && loaded == map[] && order == [] && filesRead == []
    {
      this.registered := registered;
      loaded, order, loading, filesRead := map[], [], {}, [];
    }

    /** load_one.  false stands for the error that abandons the registry. */
    method LoadOne(id: DatasetId) returns (ok: bool)
      requires Valid() && id in registered.parents && LeadTo(id)
      modifies this
      ensures ok ==> Valid() && loading == old(loading) && id in loaded
      ensures ok ==> old(order) <= order && old(filesRead) <= filesRead
      ensures !ok ==> !AllSound(registered) || !Acyclic(registered)
      decreases registered.parents.Keys - loading
    {
      hide Derives, Reaches;
      if id in loaded {
        return true;
      }
      if id in loading {
        ReachesItself(registered, id);
        return false;
      }
      StepUp(registered, id);
      ghost var loading0 := loading;
      assert forall x | x in loading0 :: Reaches(registered, x, id);
      loading := loading + {id};
      assert id !in filesRead;
      filesRead := filesRead + [id];
      var file := registered.files[id];
      if file.None? {
        assert !Sound(registered, id);
        return false;
      }
      var parent := registered.parents[id];
      if parent.Some? {
        if parent.value !in registered.parents {
          assert !Sound(registered, id);
          return false;
        }
        LeadsOn(id, parent.value);
        ok := LoadOne(parent.value);
        if !ok {
          return;
        }
        ok := ValidateDerived(file.value, loaded[parent.value]);
        if !ok {
          assert !Sound(registered, id);
          return;
        }
      }
      Finish(id, file.value, loading0);
      ok := true;
    }

    /** The last two statements: the dataset moves from loading to loaded. */
    method Finish(id: DatasetId, dataset: Dataset, ghost loading0: set<DatasetId>)
      requires Valid() && id in registered.parents && loading == loading0 + {id} && id !in loading0
      requires Sound(registered, id) && registered.files[id] == Some(dataset)
      requires registered.parents[id].Some? ==> registered.parents[id].value in order
      modifies this
      ensures Valid() && loading == loading0 && id in loaded && order == old(order) + [id] && filesRead == old(filesRead)
    {
      hide Sound, ParentsFirst;
      OneMore(registered, order, id);
      loading := loading - {id};
      loaded := loaded[id := dataset];
      order := order + [id];
    }

    lemma LeadsOn(id: DatasetId, parent: DatasetId)
      requires id in registered.parents && registered.parents[id] == Some(parent)
      requires forall x | x in loading :: x == id || Reaches(registered, x, id)
      ensures LeadTo(parent)
    {
      forall x | x in loading ensures Reaches(registered, x, parent) {
        if x == id {
          assert Ancestor(registered, x, 1) == Some(parent) by { assert Ancestor(registered, x, 0) == Some(id); }
        } else {
          var n: nat :| n > 0 && Ancestor(registered, x, n) == Some(id);
          assert Ancestor(registered, x, n + 1) == Some(parent);
        }
      }
    }

    /** The loop over all entries. */
    method LoadAll(ids: seq<DatasetId>) returns (ok: bool)
      requires Valid() && loading == {} && loaded == map[]
      requires forall id :: id in ids <==> id in registered.parents
      modifies this
      ensures ok <==> AllSound(registered) && Acyclic(registered)
      ensures ok ==> loaded.Keys == registered.parents.Keys && (forall id | id in loaded :: registered.files[id] == Some(loaded[id]))
      ensures ok ==> ParentsFirst(registered, order) && Distinct(order) && Distinct(filesRead) && |filesRead| == |order| == |registered.parents|
    {
      hide ParentsFirst, Acyclic, AllSound;
      var i := 0;
      while i < |ids|
        invariant i <= |ids| && Valid() && loading == {}
        invariant forall k | 0 <= k < i :: ids[k] in loaded
      {
        assert LeadTo(ids[i]);
        assert ids[i] in ids;
        ghost var before := order;
        ok := LoadOne(ids[i]);
        if !ok {
          return;
        }
        assert forall k | 0 <= k < i :: ids[k] in before;
        i := i + 1;
      }
      ok := true;
      EverythingLoaded(registered, order, ids);
      SameCount(filesRead, order, registered.parents.Keys);
    }
  }

  lemma OneMore(r: Registered, order: seq<DatasetId>, id: DatasetId)
    requires WellFormed(r) && ParentsFirst(r, order) && id in r.parents && Sound(r, id)
    requires r.parents[id].Some? ==> r.parents[id].value in order
    ensures ParentsFirst(r, order + [id])
  {
    hide Sound;
    var all := order + [id];
    forall i | 0 <= i < |all| && r.parents[all[i]].Some? ensures exists j | 0 <= j < i :: all[j] == r.parents[all[i]].value {
      if i < |order| {
        var j :| 0 <= j < i && order[j] == r.parents[order[i]].value;
        assert all[j] == r.parents[all[i]].value;
      } else {
        var j :| 0 <= j < |order| && order[j] == r.parents[id].value;
        assert all[j] == r.parents[all[i]].value;
      }
    }
  }

  lemma ReachesItself(r: Registered, id: DatasetId)
    requires id in r.parents && Reaches(r, id, id)
    ensures !Acyclic(r)
  {
  }

  lemma StepUp(r: Registered, id: DatasetId)
    ensures id in r.parents && r.parents[id].Some? ==> Ancestor(r, id, 1) == r.parents[id]
  {
    assert Ancestor(r, id, 0) == Some(id);
  }

  lemma {:induction false} CountDistinct(ids: seq<DatasetId>, all: set<DatasetId>)
    requires Distinct(ids) && forall id :: id in ids <==> id in all
    ensures |ids| == |all|
    decreases |ids|
  {
    if ids == [] {
      assert all == {};
    } else {
      var n := |ids| - 1;
      forall id ensures id in ids[..n] <==> id in all - {ids[n]} {
        if id in all - {ids[n]} {
          assert id in ids;
        }
      }
      CountDistinct(ids[..n], all - {ids[n]});
    }
  }

  lemma SameCount(filesRead: seq<DatasetId>, order: seq<DatasetId>, all: set<DatasetId>)
    requires Distinct(filesRead) && Distinct(order)
    requires (forall id :: id in filesRead <==> id in order) && forall id :: id in order <==> id in all
    ensures |filesRead| == |order| == |all|
  {
    CountDistinct(filesRead, all);
    CountDistinct(order, all);
  }

  // ----- parents first means no cycle -----

  /** Ancestors come earlier. */
  lemma {:induction false} AncestorsEarlier(r: Registered, order: seq<DatasetId>, i: nat, n: nat)
    requires WellFormed(r) && ParentsFirst(r, order) && i < |order| && n > 0
    ensures match Ancestor(r, order[i], n)
            case None => true
            case Some(a) => exists j | 0 <= j < i :: order[j] == a
  {
    hide Sound;
    if n == 1 {
      assert Ancestor(r, order[i], 0) == Some(order[i]);
    } else {
      AncestorsEarlier(r, order, i, n - 1);
      if Ancestor(r, order[i], n - 1).Some? {
        var j :| 0 <= j < i && order[j] == Ancestor(r, order[i], n - 1).value;
        if r.parents[order[j]].Some? {
          var k :| 0 <= k < j && order[k] == r.parents[order[j]].value;
        }
      }
    }
  }

  lemma EverythingLoaded(r: Registered, order: seq<DatasetId>, ids: seq<DatasetId>)
    requires WellFormed(r) && ParentsFirst(r, order) && Distinct(order)
    requires forall id :: id in ids <==> id in r.parents
    requires forall k | 0 <= k < |ids| :: ids[k] in order
    ensures AllSound(r) && Acyclic(r) && forall id :: id in order <==> id in r.parents
  {
    forall id | id in r.parents ensures id in order {
      assert id in ids;
    }
    hide Sound;
    forall id, n: nat | id in r.parents && n > 0 ensures Ancestor(r, id, n) != Some(id) {
      var i :| 0 <= i < |order| && order[i] == id;
      AncestorsEarlier(r, order, i, n);
    }
  }

  /** Main theorem: in a registry that loads, every case of a dataset is a case, unchanged, of each of its
      ancestors, however far up. */
  lemma {:induction false} CasesComeFromEveryAncestor(r: Registered, id: DatasetId, n: nat, c: Case)
    requires WellFormed(r) && AllSound(r) && id in r.parents && c in r.files[id].value.cases
    ensures match Ancestor(r, id, n)
            case None => true
            case Some(a) => a in r.parents && c in r.files[a].value.cases
  {
    if n > 0 {
      CasesComeFromEveryAncestor(r, id, n - 1, c);
      if Ancestor(r, id, n).Some? {
        var a, b := Ancestor(r, id, n - 1).value, Ancestor(r, id, n).value;
        assert Sound(r, a);
        var child, parent := r.files[a].value, r.files[b].value;
        var i :| 0 <= i < |child.cases| && child.cases[i] == c;
        assert child.cases[i].id in ById(parent.cases);
      }
    }
  }

  // ----- what derivation demands -----

  /** The j-th case is c, and the last one of its ID. */
  predicate LastIs(cases: seq<Case>, j: nat, c: Case) {
    j < |cases| && cases[j] == c && forall k | j < k < |cases| :: cases[k].id != c.id
  }

  ghost predicate StandsIn(cases: seq<Case>, c: Case) {
    exists j: nat :: LastIs(cases, j, c)
  }

  lemma StandsSnoc(init: seq<Case>, last: Case, c: Case)
    ensures StandsIn(init + [last], c) <==> if last.id == c.id then last == c else StandsIn(init, c)
  {
    var cases := init + [last];
    assert cases[|init|] == last && forall k | 0 <= k < |init| :: cases[k] == init[k];
    if last == c {
      assert LastIs(cases, |init|, c);
    }
    if StandsIn(cases, c) {
      var j: nat :| LastIs(cases, j, c);
      if last.id != c.id { assert LastIs(init, j, c); }
    }
    if last.id != c.id && StandsIn(init, c) {
      var j: nat :| LastIs(init, j, c);
      assert LastIs(cases, j, c);
    }
  }

  lemma {:induction false} ByIdMeans(cases: seq<Case>, c: Case)
    ensures c.id in ById(cases) && ById(cases)[c.id] == c <==> StandsIn(cases, c)
  {
    hide LastIs, StandsIn;
    if cases == [] {
      NothingStands(c);
    } else {
      var n := |cases| - 1;
      ByIdMeans(cases[..n], c);
      StandsSnoc(cases[..n], cases[n], c);
      assert cases == cases[..n] + [cases[n]];
    }
  }

  lemma NothingStands(c: Case)
    ensures !StandsIn([], c)
  {
  }

  /** Main theorem: a dataset derives from its parent exactly when every case of it stands unchanged in the parent,
      as the last one of its ID there. */
  lemma DerivesIff(child: Dataset, parent: Dataset)
    ensures Derives(child, parent) <==> forall c | c in child.cases :: StandsIn(parent.cases, c)
  {
    hide ById, StandsIn;
    forall c: Case ensures c.id in ById(parent.cases) && ById(parent.cases)[c.id] == c <==> StandsIn(parent.cases, c) {
      ByIdMeans(parent.cases, c);
    }
    if Derives(child, parent) {
      forall c | c in child.cases ensures StandsIn(parent.cases, c) {
        var i :| 0 <= i < |child.cases| && child.cases[i] == c;
      }
    }
    if forall c | c in child.cases :: StandsIn(parent.cases, c) {
      forall i | 0 <= i < |child.cases| ensures StandsIn(parent.cases, child.cases[i]) {
        assert child.cases[i] in child.cases;
      }
    }
  }
}
