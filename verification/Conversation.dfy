/** Conversation memory (legal_rag/chat.py). */
module Conversation {
  // Alternating turns kept under a message count and a token budget.

  import opened Common

  /** A role string: one of the two supported ones, or anything else a caller may send. */
  datatype Role = User | Assistant | Unsupported(name: string)

  datatype Message = Message(role: Role, content: Text)

  const MAX_MESSAGES := 8
  const STATE_SCHEMA_VERSION := 1

  // ----- token estimate -----

  predicate IsCjk(c: CodePoint) { 0x4E00 <= c <= 0x9FFF }

  predicate IsAsciiWord(c: CodePoint) { 48 <= c <= 57 || 65 <= c <= 90 || 97 <= c <= 122 }

  predicate IsOther(c: CodePoint) { !IsCjk(c) && !IsAsciiWord(c) && !IsSpace(c) }

  function CountCjk(t: Text): nat {
    if t == [] then 0 else (if IsCjk(t[0]) then 1 else 0) + CountCjk(t[1..])
  }

  function CountOther(t: Text): nat {
    if t == [] then 0 else (if IsOther(t[0]) then 1 else 0) + CountOther(t[1..])
  }

  /** Maximal runs of ASCII letters and digits; inRun says that the text continues a run already counted. */
  function CountWords(t: Text, inRun: bool): nat {
    if t == [] then 0
    else (if IsAsciiWord(t[0]) && !inRun then 1 else 0) + CountWords(t[1..], IsAsciiWord(t[0]))
  }

  function EstimateTokens(t: Text): nat {
    var n := CountCjk(t) + CountWords(t, false) + CountOther(t) / 2;
    if n < 1 then 1 else n
  }

  lemma {:induction false} WordsAfterRun(t: Text)
    ensures CountWords(t, true) <= CountWords(t, false) <= CountWords(t, true) + 1
  {
  }

  /** Dropping any prefix, even one that cuts an ASCII word in two, never raises the estimate. */
  lemma {:induction false} EstimateMonotone(t: Text, k: nat)
    requires k <= |t|
    ensures CountCjk(t[k..]) <= CountCjk(t) && CountOther(t[k..]) <= CountOther(t)
    ensures CountWords(t[k..], false) <= CountWords(t, false)
    ensures EstimateTokens(t[k..]) <= EstimateTokens(t)
  {
    if k == 0 {
      assert t[0..] == t;
    } else {
      WordsAfterRun(t[1..]);
      EstimateMonotone(t[1..], k - 1);
      assert t[1..][k - 1..] == t[k..];
    }
  }

  // ----- rendering -----

  function RoleName(role: Role): string {
    match role
    case User => "user"
    case Assistant => "assistant"
    case Unsupported(name) => name
  }

  function RenderLine(m: Message): Text {
    Encode(RoleName(m.role)) + Encode(": ") + m.content
  }

  function JoinLines(ms: seq<Message>): Text {
    if ms == [] then []
    else if |ms| == 1 then RenderLine(ms[0])
    else RenderLine(ms[0]) + [NEWLINE] + JoinLines(ms[1..])
  }

  function LastMessages(ms: seq<Message>): seq<Message> {
    if |ms| <= MAX_MESSAGES then ms else ms[|ms| - MAX_MESSAGES..]
  }

  function Render(ms: seq<Message>): Text {
    JoinLines(LastMessages(ms))
  }

  lemma {:induction false} JoinOfSuffix(ms: seq<Message>, k: nat) returns (cut: nat)
    requires k <= |ms|
    ensures cut <= |JoinLines(ms)| && JoinLines(ms[k..]) == JoinLines(ms)[cut..]
  {
    if k == 0 {
      assert ms[0..] == ms;
      cut := 0;
    } else if |ms| == 1 {
      cut := |JoinLines(ms)|;
    } else {
      var inner := JoinOfSuffix(ms[1..], k - 1);
      assert ms[1..][k - 1..] == ms[k..];
      cut := |RenderLine(ms[0])| + 1 + inner;
    }
  }

  lemma RenderedSuffixIsCheaper(ms: seq<Message>, k: nat)
    requires k <= |ms|
    ensures EstimateTokens(Render(ms[k..])) <= EstimateTokens(Render(ms))
  {
    var shown := LastMessages(ms);
    var hidden := |ms| - |shown|;
    var drop := if k <= hidden then 0 else k - hidden;
    assert LastMessages(ms[k..]) == shown[drop..];
    var cut := JoinOfSuffix(shown, drop);
    EstimateMonotone(JoinLines(shown), cut);
  }

  // ----- trimming -----

  predicate Fits(ms: seq<Message>, limit: int) {
    |ms| <= MAX_MESSAGES && EstimateTokens(Render(ms)) <= limit
  }

  function DropTurn(ms: seq<Message>): seq<Message> {
    if |ms| <= 2 then [] else ms[2..]
  }

  /** What _trim leaves of ms. */
  function Trimmed(ms: seq<Message>, limit: int): seq<Message>
    decreases |ms|
  {
    if |ms| > MAX_MESSAGES then Trimmed(DropTurn(ms), limit)
    else if EstimateTokens(Render(ms)) > limit && ms != [] then Trimmed(DropTurn(ms), limit)
    else ms
  }

  /** Trimming keeps a suffix of whole turns, and of those exactly the longest that fits: a suffix of
      whole turns fits if and only if it is not longer than what was kept. */
  lemma {:induction false} TrimKeepsLongestFittingSuffix(ms: seq<Message>, limit: int) returns (k: nat)
    requires limit >= 1 && |ms| % 2 == 0
    ensures k <= |ms| && k % 2 == 0 && Trimmed(ms, limit) == ms[k..]
    ensures forall j: nat | j <= |ms| && j % 2 == 0 :: Fits(ms[j..], limit) <==> j >= k
    decreases |ms|
  {
    EmptyCost();
    hide EstimateTokens, Render;
    assert ms[0..] == ms;
    if |ms| > MAX_MESSAGES || (EstimateTokens(Render(ms)) > limit && ms != []) {
      var rest := DropTurn(ms);
      var inner := TrimKeepsLongestFittingSuffix(rest, limit);
      k := inner + 2;
      assert rest == ms[2..] && rest[inner..] == ms[k..];
      forall j: nat | j <= |ms| && j % 2 == 0 ensures Fits(ms[j..], limit) <==> j >= k {
        if j >= 2 {
          assert ms[j..] == rest[j - 2..];
        }
      }
    } else {
      k := 0;
      forall j: nat | j <= |ms| && j % 2 == 0 ensures Fits(ms[j..], limit) {
        RenderedSuffixIsCheaper(ms, j);
      }
    }
  }

  // ----- states and operations as values -----

  datatype MemoryState = MemoryState(tokenLimit: int, messages: seq<Message>, revision: nat)

  datatype MemoryError =
    | BadTokenLimit | UnsupportedRole | BadUnicode | OutOfTurn | IncompleteConversation | StaleSnapshot
    | BadSchema | IncompatibleLimit | TooManyMessages | OddMessages | NotAlternating | OverBudget

  type Update = Result<MemoryState, MemoryError>

  function ExpectedRole(index: nat): Role {
    if index % 2 == 0 then User else Assistant
  }

  predicate KnownRole(role: Role) { !role.Unsupported? }

  function Added(m: MemoryState, role: Role, content: Text): Update {
    if !KnownRole(role) then Err(UnsupportedRole)
    else if !ValidUnicode(content) then Err(BadUnicode)
    else if role != ExpectedRole(|m.messages|) then Err(OutOfTurn)
    else
      var longer := m.messages + [Message(role, content)];
      Ok(m.(messages := if role == Assistant then Trimmed(longer, m.tokenLimit) else longer, revision := m.revision + 1))
  }

  function TurnAdded(m: MemoryState, user: Text, assistant: Text): Update {
    if |m.messages| % 2 == 1 then Err(IncompleteConversation)
    else if !ValidUnicode(user) || !ValidUnicode(assistant) then Err(BadUnicode)
    else
      var longer := m.messages + [Message(User, user), Message(Assistant, assistant)];
      Ok(m.(messages := Trimmed(longer, m.tokenLimit), revision := m.revision + 1))
  }

  function Cleared(m: MemoryState): MemoryState {
    m.(messages := [], revision := m.revision + 1)
  }

  /** A durable checkpoint as JSON carries it. */
  datatype Checkpoint = Checkpoint(schemaVersion: int, tokenLimit: int, messages: seq<Message>)

  function StateOf(m: MemoryState): Checkpoint {
    Checkpoint(STATE_SCHEMA_VERSION, m.tokenLimit, m.messages)
  }

  predicate UnicodeMessages(ms: seq<Message>) {
    forall i | 0 <= i < |ms| :: ValidUnicode(Encode(RoleName(ms[i].role))) && ValidUnicode(ms[i].content)
  }

  predicate Alternating(ms: seq<Message>) {
    forall i: nat | i < |ms| :: ms[i].role == ExpectedRole(i)
  }

  /** What is wrong with the first message, from the k-th on, that is not where its role belongs. */
  function RoleProblem(ms: seq<Message>, k: nat): (r: Option<MemoryError>)
    requires k <= |ms|
    ensures r.None? <==> forall i: nat | k <= i < |ms| :: ms[i].role == ExpectedRole(i)
    decreases |ms| - k
  {
    if k == |ms| then None
    else if !KnownRole(ms[k].role) then Some(UnsupportedRole)
    else if ms[k].role != ExpectedRole(k) then Some(NotAlternating)
    else RoleProblem(ms, k + 1)
  }

  /** The first reason _validated_state_messages finds to reject a checkpoint, in the code's order. */
  function CheckpointProblem(c: Checkpoint, tokenLimit: int): Option<MemoryError> {
    if !UnicodeMessages(c.messages) then Some(BadUnicode)
    else if c.schemaVersion != STATE_SCHEMA_VERSION then Some(BadSchema)
    else if c.tokenLimit != tokenLimit then Some(IncompatibleLimit)
    else if |c.messages| > MAX_MESSAGES then Some(TooManyMessages)
    else if |c.messages| % 2 == 1 then Some(OddMessages)
    else if RoleProblem(c.messages, 0).Some? then RoleProblem(c.messages, 0)
    else if EstimateTokens(Render(c.messages)) > tokenLimit then Some(OverBudget)
    else None
  }

  function Restored(m: MemoryState, c: Checkpoint): Update {
    match CheckpointProblem(c, m.tokenLimit)
    case Some(error) => Err(error)
    case None => Ok(m.(messages := c.messages, revision := m.revision + 1))
  }

  // ----- the invariant of every reachable memory -----

  predicate Complete(ms: seq<Message>) { |ms| % 2 == 0 }

  /** Whole turns present: all but a question still waiting for its answer. */
  function WholeTurns(ms: seq<Message>): seq<Message> {
    if Complete(ms) then ms else ms[..|ms| - 1]
  }

  predicate WellKept(m: MemoryState) {
    && m.tokenLimit >= 1
    && Alternating(m.messages)
    && UnicodeMessages(m.messages)
    && Fits(WholeTurns(m.messages), m.tokenLimit)
  }

  lemma RolesRepeat(i: nat, k: nat)
    requires k % 2 == 0
    ensures ExpectedRole(i + k) == ExpectedRole(i)
  {
  }

  lemma SuffixKeepsShape(ms: seq<Message>, k: nat)
    requires k <= |ms| && k % 2 == 0 && Alternating(ms) && UnicodeMessages(ms)
    ensures Alternating(ms[k..]) && UnicodeMessages(ms[k..])
  {
    hide Encode, ValidUnicode, ExpectedRole;
    var kept := ms[k..];
    forall i: nat | i < |kept| ensures kept[i].role == ExpectedRole(i) {
      RolesRepeat(i, k);
      assert kept[i] == ms[i + k];
    }
    assert forall i | 0 <= i < |kept| :: kept[i] == ms[i + k];
  }

  lemma TrimmedFits(longer: seq<Message>, limit: int) returns (k: nat)
    requires limit >= 1 && |longer| % 2 == 0
    ensures k <= |longer| && k % 2 == 0 && Trimmed(longer, limit) == longer[k..] && Fits(longer[k..], limit)
  {
    hide *;
    k := TrimKeepsLongestFittingSuffix(longer, limit);
  }

  lemma TrimmedTurnsWellKept(m: MemoryState, longer: seq<Message>)
    requires m.tokenLimit >= 1 && |longer| % 2 == 0 && Alternating(longer) && UnicodeMessages(longer)
    ensures WellKept(m.(messages := Trimmed(longer, m.tokenLimit)))
  {
    hide Fits, Alternating, UnicodeMessages, Trimmed;
    var k := TrimmedFits(longer, m.tokenLimit);
    SuffixKeepsShape(longer, k);
  }

  lemma ExtendKeepsShape(ms: seq<Message>, m: Message)
    requires Alternating(ms) && UnicodeMessages(ms)
    requires m.role == ExpectedRole(|ms|) && ValidUnicode(m.content)
    ensures Alternating(ms + [m]) && UnicodeMessages(ms + [m])
  {
    assert ValidUnicode(Encode(RoleName(m.role)));
  }

  /** Every operation keeps the memory alternating, within eight messages and within budget. */
  lemma OperationsKeepMemory(m: MemoryState, role: Role, content: Text, reply: Text, c: Checkpoint)
    requires WellKept(m)
    ensures Added(m, role, content).Ok? ==> WellKept(Added(m, role, content).value)
    ensures TurnAdded(m, content, reply).Ok? ==> WellKept(TurnAdded(m, content, reply).value)
    ensures WellKept(Cleared(m))
    ensures Restored(m, c).Ok? ==> WellKept(Restored(m, c).value)
  {
    hide EstimateTokens, Render, Encode, Trimmed, Alternating, UnicodeMessages, ValidUnicode;
    if Added(m, role, content).Ok? {
      var longer := m.messages + [Message(role, content)];
      ExtendKeepsShape(m.messages, Message(role, content));
      if role == Assistant {
        TrimmedTurnsWellKept(m.(revision := m.revision + 1), longer);
      } else {
        assert WholeTurns(longer) == m.messages;
      }
    }
    if TurnAdded(m, content, reply).Ok? {
      ExtendKeepsShape(m.messages, Message(User, content));
      ExtendKeepsShape(m.messages + [Message(User, content)], Message(Assistant, reply));
      var longer := m.messages + [Message(User, content), Message(Assistant, reply)];
      assert longer == m.messages + [Message(User, content)] + [Message(Assistant, reply)];
      TrimmedTurnsWellKept(m.(revision := m.revision + 1), longer);
    }
    assert WellKept(Cleared(m)) by { EmptyShape(); EmptyCost(); }
    CheckedShape(c, m.tokenLimit);
  }

  lemma ExportProblem(m: MemoryState)
    requires WellKept(m)
    ensures CheckpointProblem(StateOf(m), m.tokenLimit) ==
              if Complete(m.messages) then None
              else Some(if |m.messages| > MAX_MESSAGES then TooManyMessages else OddMessages)
  {
  }

  lemma EmptyShape()
    ensures Alternating([]) && UnicodeMessages([])
  {
  }

  lemma EmptyCost()
    ensures EstimateTokens(Render([])) == 1
  {
  }

  lemma CheckedShape(c: Checkpoint, limit: int)
    ensures CheckpointProblem(c, limit).None? ==>
              Alternating(c.messages) && UnicodeMessages(c.messages) && Complete(c.messages) && Fits(c.messages, limit)
  {
    hide EstimateTokens, Render, Encode, ValidUnicode;
  }

  /** Export fails exactly while a question waits for its answer; what it exports restores to the same
      messages in any memory with the same budget. */
  lemma ExportRestores(m: MemoryState, other: MemoryState)
    requires WellKept(m) && other.tokenLimit == m.tokenLimit
    ensures CheckpointProblem(StateOf(m), m.tokenLimit).None? <==> Complete(m.messages)
    ensures Complete(m.messages) ==>
              Restored(other, StateOf(m)) == Ok(MemoryState(m.tokenLimit, m.messages, other.revision + 1))
  {
  }

  /** Adding a question and then its answer is adding the turn, up to one extra revision. */
  lemma TurnIsTwoAdds(m: MemoryState, user: Text, assistant: Text)
    requires WellKept(m) && Complete(m.messages)
    requires ValidUnicode(user) && ValidUnicode(assistant)
    ensures Added(m, User, user).Ok?
    ensures Added(Added(m, User, user).value, Assistant, assistant)
            == Ok(TurnAdded(m, user, assistant).value.(revision := m.revision + 2))
  {
    assert m.messages + [Message(User, user)] + [Message(Assistant, assistant)]
        == m.messages + [Message(User, user), Message(Assistant, assistant)];
  }

  /** Feeding a list of messages to a memory one by one, as the constructor does. */
  function AddedAll(m: MemoryState, ms: seq<Message>): Update
    decreases |ms|
  {
    if ms == [] then Ok(m)
    else match Added(m, ms[0].role, ms[0].content)
      case Err(error) => Err(error)
      case Ok(next) => AddedAll(next, ms[1..])
  }

  // ----- the class -----

  class ConversationMemory {
    var tokenLimit: int
    var messages: seq<Message>
    var revision: nat

    function State(): MemoryState
      reads this
    {
      MemoryState(tokenLimit, messages, revision)
    }

    predicate Valid()
      reads this
    {
      WellKept(State())
    }

    constructor Empty(limit: int)
      requires limit >= 1
      ensures Valid() && State() == MemoryState(limit, [], 0)
    {
      tokenLimit := limit;
      messages := [];
      revision := 0;
    }

    /** The dataclass constructor: null stands for the ValueError it raises. */
    static method Create(limit: int, initial: seq<Message>) returns (memory: ConversationMemory?, error: Option<MemoryError>)
      ensures memory != null ==> fresh(memory) && memory.Valid()
      ensures limit < 1 ==> memory == null && error == Some(BadTokenLimit)
      ensures limit >= 1 ==>
                match AddedAll(MemoryState(limit, [], 0), initial)
                case Ok(state) => memory != null && memory.State() == state && error == None
                case Err(reason) => memory == null && error == Some(reason)
    {
      if limit < 1 {
        return null, Some(BadTokenLimit);
      }
      var built := new ConversationMemory.Empty(limit);
      var i := 0;
      while i < |initial|
        invariant i <= |initial| && built.Valid() && fresh(built)
        invariant AddedAll(MemoryState(limit, [], 0), initial) == AddedAll(built.State(), initial[i..])
      {
        var outcome := built.Add(initial[i].role, initial[i].content);
        if outcome.Some? {
          return null, outcome;
        }
        assert initial[i..][1..] == initial[i + 1..];
        i := i + 1;
      }
      return built, None;
    }

    method Trim()
      requires tokenLimit >= 1
      modifies this`messages
      ensures messages == Trimmed(old(messages), tokenLimit)
    {
      while |messages| > MAX_MESSAGES
        invariant Trimmed(messages, tokenLimit) == Trimmed(old(messages), tokenLimit)
        decreases |messages|
      {
        messages := DropTurn(messages);
      }
      while EstimateTokens(Render(messages)) > tokenLimit && messages != []
        invariant |messages| <= MAX_MESSAGES
        invariant Trimmed(messages, tokenLimit) == Trimmed(old(messages), tokenLimit)
        decreases |messages|
      {
        messages := DropTurn(messages);
      }
    }

    method Add(role: Role, content: Text) returns (error: Option<MemoryError>)
      requires Valid()
      modifies this
      ensures Valid()
      ensures match Added(old(State()), role, content)
              case Ok(next) => State() == next && error == None
              case Err(reason) => State() == old(State()) && error == Some(reason)
    {
      OperationsKeepMemory(State(), role, content, [], StateOf(State()));
      if !KnownRole(role) {
        return Some(UnsupportedRole);
      }
      if !ValidUnicode(content) {
        return Some(BadUnicode);
      }
      if role != (if |messages| % 2 == 0 then User else Assistant) {
        return Some(OutOfTurn);
      }
      messages := messages + [Message(role, content)];
      if role == Assistant {
        Trim();
      }
      revision := revision + 1;
      error := None;
    }

    method AddTurn(user: Text, assistant: Text) returns (error: Option<MemoryError>)
      requires Valid()
      modifies this
      ensures Valid()
      ensures match TurnAdded(old(State()), user, assistant)
              case Ok(next) => State() == next && error == None
              case Err(reason) => State() == old(State()) && error == Some(reason)
    {
      OperationsKeepMemory(State(), User, user, assistant, StateOf(State()));
      if |messages| % 2 == 1 {
        return Some(IncompleteConversation);
      }
      if !ValidUnicode(user) || !ValidUnicode(assistant) {
        return Some(BadUnicode);
      }
      messages := messages + [Message(User, user), Message(Assistant, assistant)];
      Trim();
      revision := revision + 1;
      error := None;
    }

    /** Reject a stale snapshot or append one complete turn, under the memory lock. */
    method CompareAndAddTurn(expectedRevision: int, expectedMessages: seq<Message>, expectedLimit: int,
                             user: Text, assistant: Text)
      returns (error: Option<MemoryError>)
      requires Valid()
      modifies this
      ensures Valid()
      ensures if old(State()) != MemoryState(expectedLimit, expectedMessages, old(revision)) || old(revision) != expectedRevision
              then State() == old(State()) && error == Some(StaleSnapshot)
              else match TurnAdded(old(State()), user, assistant)
                case Ok(next) => State() == next && error == None
                case Err(reason) => State() == old(State()) && error == Some(reason)
    {
      if revision != expectedRevision || messages != expectedMessages || tokenLimit != expectedLimit {
        return Some(StaleSnapshot);
      }
      error := AddTurn(user, assistant);
    }

    method Clear()
      requires Valid()
      modifies this
      ensures Valid() && State() == Cleared(old(State()))
    {
      messages := [];
      revision := revision + 1;
    }

    method ExportState() returns (exported: Result<Checkpoint, MemoryError>)
      requires Valid()
      ensures exported == 
                if Complete(messages) then Ok(StateOf(State()))
                else Err(if |messages| > MAX_MESSAGES then TooManyMessages else OddMessages)
    {
      ExportProblem(State());
      var problem := CheckpointProblem(StateOf(State()), tokenLimit);
      match problem
      case Some(error) => exported := Err(error);
      case None => exported := Ok(StateOf(State()));
    }

    method RestoreState(c: Checkpoint) returns (error: Option<MemoryError>)
      requires Valid()
      modifies this
      ensures Valid()
      ensures match Restored(old(State()), c)
              case Ok(next) => State() == next && error == None
              case Err(reason) => State() == old(State()) && error == Some(reason)
    {
      OperationsKeepMemory(State(), User, [], [], c);
      error := CheckpointProblem(c, tokenLimit);
      if error.None? {
        messages := c.messages;
        revision := revision + 1;
      }
    }

    /** The newest question, or the empty text. */
    method LastUserQuestion() returns (content: Text)
      ensures (forall i | 0 <= i < |messages| :: messages[i].role != User) ==> content == []
      ensures (exists i | 0 <= i < |messages| :: messages[i].role == User) ==>
                exists i | 0 <= i < |messages| ::
                  messages[i] == Message(User, content) && forall j | i < j < |messages| :: messages[j].role != User
    {
      var i := |messages|;
      while i > 0
        invariant 0 <= i <= |messages|
        invariant forall j | i <= j < |messages| :: messages[j].role != User
      {
        i := i - 1;
        if messages[i].role == User {
          return messages[i].content;
        }
      }
      content := [];
    }
  }
}
