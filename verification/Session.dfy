/** Staged turns and their optimistic commit (legal_rag/chat.py). */
module Session {
  // A turn is prepared from a snapshot, retrieved, generated and verified without any lock, and finally
  // compared against the current revisions and appended.

  import opened Common
  import opened Conversation
  import opened Turns
  import opened Json

  // ----- verify_turn -----

  datatype TurnError = BoundaryChanged | SnapshotsDiffer | BoundaryViolated | BrokenContract | UnsafeProgrammaticAnswer

  /** _validated_stage_results */
  function StageProblem(kit: Toolkit, retrieved: Retrieved): Option<TurnError> {
    if kit.boundary != retrieved.boundary then Some(BoundaryChanged)
    else if retrieved.adaptive.Some? && retrieved.adaptive.value.results != retrieved.results then Some(SnapshotsDiffer)
    else if !kit.matchesBoundary(retrieved.results, retrieved.boundary) then Some(BoundaryViolated)
    else None
  }

  /** _verify_programmatic_answer: the answer, or the safe answer of its mode, whichever passes first. */
  function VerifyProgrammatic(kit: Toolkit, answer: Answer, results: seq<SearchResult>, mode: Word,
                              evidence: Option<EvidenceCheck>, riskFlags: Option<seq<Text>>)
    : (r: Result<(Answer, Verification), TurnError>)
    ensures r.Ok? ==> r.value.1.passed && r.value.1 == kit.verify(r.value.0, results, mode, evidence, riskFlags)
  {
    var verification := kit.verify(answer, results, mode, evidence, riskFlags);
    if verification.passed then Ok((answer, verification))
    else
      var safe := kit.safeAnswer(mode);
      var safeVerification := kit.verify(safe, results, mode, evidence, riskFlags);
      if safeVerification.passed then Ok((safe, safeVerification)) else Err(UnsafeProgrammaticAnswer)
  }

  predicate GeneratedContract(kit: Toolkit, g: Generated) {
    var r := g.retrieved;
    var bare := g.generationError.None? && g.raw.NoResponse? && g.parserVersion.None?;
    if g.kind == RetrievalOnly then
      r.terminal == NO_TERMINAL && g.answer.None? && bare && g.expectedMode.None? && g.answerText == kit.retrievalOnlyText(r.results)
    else
      g.answer.Some? && g.expectedMode.Some? && g.answerText == g.answer.value.text &&
      if g.kind == PreRetrievalRefusal || g.kind == EvidenceLimited then
        r.terminal == TerminalContract(Some(g.kind), g.answer, g.expectedMode) && bare &&
        if g.kind == PreRetrievalRefusal then
          g.expectedMode.value == OutOfScope && r.adaptive.None? && r.results == [] && r.evidence.None?
        else
          r.adaptive.Some? && r.evidence.Some? && !r.evidence.value.sufficient
      else
        r.terminal == NO_TERMINAL && r.adaptive.Some? && r.evidence.Some? &&
        if g.kind == GenerationFailed then
          g.answer.value == kit.unavailableAnswer && g.generationError == Some(GenerationFailed) &&
          g.expectedMode.value == InsufficientEvidence && g.raw.NoResponse? && g.parserVersion.None?
        else
          g.kind == FromModel && g.generationError.None? && g.expectedMode.value == EvidenceAnswer &&
          g.parserVersion == Some(ParserVersion) && kit.parse(g.raw) == g.answer.value
  }

  function Plain(g: Generated, outcome: Result<(Answer, Verification), TurnError>): Result<Verified, TurnError> {
    match outcome
    case Err(error) => Err(error)
    case Ok((answer, verification)) => Ok(Verified(g, answer.text, Some(answer), Some(verification), None, None))
  }

  function VerifyTurn(kit: Toolkit, g: Generated): Result<Verified, TurnError> {
    var r := g.retrieved;
    if StageProblem(kit, r).Some? then Err(StageProblem(kit, r).value)
    else if !GeneratedContract(kit, g) then Err(BrokenContract)
    else if g.kind == RetrievalOnly then Ok(Verified(g, g.answerText, None, None, None, None))
    else
      var answer, mode := g.answer.value, g.expectedMode.value;
      if g.kind == PreRetrievalRefusal then
        Plain(g, VerifyProgrammatic(kit, answer, [], mode, None, Some(r.prepared.analysis.riskFlags)))
      else if g.kind == EvidenceLimited then
        Plain(g, VerifyProgrammatic(kit, answer, r.results, mode, r.evidence, Some(r.adaptive.value.analysis.riskFlags)))
      else if g.kind == GenerationFailed then
        Plain(g, VerifyProgrammatic(kit, answer, r.results, mode, None, None))
      else
        var verification := kit.verify(answer, r.results, mode, r.evidence, Some(r.adaptive.value.analysis.riskFlags));
        if verification.passed then Ok(Verified(g, answer.text, Some(answer), Some(verification), None, None))
        else
          match VerifyProgrammatic(kit, kit.fallbackAnswer(answer, verification, r.evidence.value), r.results,
                                   InsufficientEvidence, None, None)
          case Err(error) => Err(error)
          case Ok((safe, safeVerification)) =>
            Ok(Verified(g, safe.text, Some(safe), Some(safeVerification), Some(answer), Some(verification)))
  }

  /** Whatever leaves verification carries either no answer at all (retrieval only) or one whose own
      verification passed and whose text is the one shown; a rejected model draft is kept beside it
      exactly when the draft failed. */
  lemma VerifiedAnswersPassed(kit: Toolkit, g: Generated)
    requires VerifyTurn(kit, g).Ok?
    ensures var v := VerifyTurn(kit, g).value;
            && v.generated == g
            && (v.finalAnswer.None? <==> g.kind == RetrievalOnly)
            && (v.verification.None? <==> v.finalAnswer.None?)
            && (v.finalAnswer.Some? ==> v.verification.value.passed && v.answerText == v.finalAnswer.value.text)
            && (v.preFallbackAnswer.Some? <==> v.preFallbackVerification.Some?)
            && (v.preFallbackVerification.Some? ==>
                  g.kind == FromModel && v.preFallbackAnswer == g.answer && !v.preFallbackVerification.value.passed)
  {
  }

  // ----- what is shown, in terms of the verifier alone -----

  /** Nothing stands in the way of verification but the verifier. */
  predicate Verifiable(kit: Toolkit, g: Generated) {
    StageProblem(kit, g.retrieved).None? && GeneratedContract(kit, g)
  }

  /** Main theorem: a model's draft is shown exactly when it passes over the retrieved results, in mode
      EvidenceAnswer, beside the evidence check and the risk flags of the retrieval.  Otherwise it is kept with
      that verdict beside the fallback, or beside the safe answer when the fallback fails too, which passed over
      the same results in mode InsufficientEvidence; and nothing is shown exactly when both fail. */
  lemma ModelAnswerShown(kit: Toolkit, g: Generated)
    requires Verifiable(kit, g) && g.kind == FromModel
    ensures var r, draft := g.retrieved, g.answer.value;
            var verdict := kit.verify(draft, r.results, EvidenceAnswer, r.evidence, Some(r.adaptive.value.analysis.riskFlags));
            var fallback, safe := kit.fallbackAnswer(draft, verdict, r.evidence.value), kit.safeAnswer(InsufficientEvidence);
            var ofFallback := kit.verify(fallback, r.results, InsufficientEvidence, None, None);
            var ofSafe := kit.verify(safe, r.results, InsufficientEvidence, None, None);
            match VerifyTurn(kit, g)
            case Ok(v) =>
              && (v.finalAnswer == Some(draft) && v.verification == Some(verdict) && v.preFallbackAnswer.None? <==> verdict.passed)
              && (verdict.passed ==> v.preFallbackVerification.None?)
              && (!verdict.passed ==>
                    && v.preFallbackAnswer == Some(draft) && v.preFallbackVerification == Some(verdict) && v.verification.value.passed
                    && (if ofFallback.passed then v.finalAnswer == Some(fallback) && v.verification == Some(ofFallback)
                        else v.finalAnswer == Some(safe) && v.verification == Some(ofSafe)))
              && v.generated == g && v.answerText == v.finalAnswer.value.text
            case Err(error) => error == UnsafeProgrammaticAnswer && !verdict.passed && !ofFallback.passed && !ofSafe.passed
  {
  }

  /** Verification shows the answer if it passes over these results, in this mode and beside this evidence and
      these flags; otherwise the safe answer of the mode if that passes there; otherwise nothing. */
  predicate ShownOrSafe(kit: Toolkit, g: Generated, answer: Answer, results: seq<SearchResult>, mode: Word,
                        evidence: Option<EvidenceCheck>, riskFlags: Option<seq<Text>>)
  {
    var ofAnswer, ofSafe := kit.verify(answer, results, mode, evidence, riskFlags), kit.verify(kit.safeAnswer(mode), results, mode, evidence, riskFlags);
    match VerifyTurn(kit, g)
    case Ok(v) =>
      && v.generated == g && v.preFallbackAnswer.None? && v.preFallbackVerification.None?
      && (if ofAnswer.passed then v.finalAnswer == Some(answer) && v.verification == Some(ofAnswer) && v.answerText == answer.text
          else
            && v.finalAnswer == Some(kit.safeAnswer(mode)) && v.verification == Some(ofSafe) && v.answerText == kit.safeAnswer(mode).text
            && ofSafe.passed)
    case Err(error) => error == UnsafeProgrammaticAnswer && !ofAnswer.passed && !ofSafe.passed
  }

  /** What a programmatic answer of each kind is verified with: a refusal over nothing retrieved and beside the
      question's risk flags, a limited answer over the results beside the evidence check and the retrieval's
      risk flags, and the apology for a failed generation over the results alone. */
  lemma ProgrammaticAnswerShown(kit: Toolkit, g: Generated)
    requires Verifiable(kit, g) && g.kind != FromModel && g.kind != RetrievalOnly
    ensures var r, answer := g.retrieved, g.answer.value;
            || (g.kind == PreRetrievalRefusal &&
                ShownOrSafe(kit, g, answer, [], OutOfScope, None, Some(r.prepared.analysis.riskFlags)))
            || (g.kind == EvidenceLimited &&
                ShownOrSafe(kit, g, answer, r.results, g.expectedMode.value, r.evidence, Some(r.adaptive.value.analysis.riskFlags)))
            || (g.kind == GenerationFailed && ShownOrSafe(kit, g, answer, r.results, InsufficientEvidence, None, None))
  {
  }

  /** What ends verification before the verifier is asked. */
  lemma VerificationStops(kit: Toolkit, g: Generated)
    ensures !Verifiable(kit, g) ==> VerifyTurn(kit, g).Err? && VerifyTurn(kit, g).error != UnsafeProgrammaticAnswer
    ensures Verifiable(kit, g) && g.kind == RetrievalOnly ==>
              VerifyTurn(kit, g) == Ok(Verified(g, kit.retrievalOnlyText(g.retrieved.results), None, None, None, None))
    ensures StageProblem(kit, g.retrieved).None? <==>
              && g.retrieved.boundary == kit.boundary && kit.matchesBoundary(g.retrieved.results, kit.boundary)
              && (g.retrieved.adaptive.Some? ==> g.retrieved.adaptive.value.results == g.retrieved.results)
  {
  }

  // ----- the assistant's state -----

  /** The last_* fields, all replaced together. */
  datatype Observations = Cleared | Published(turn: Verified)

  datatype AssistantState = AssistantState(memory: MemoryState, sessionRevision: nat, observed: Observations)

  datatype SessionError =
    | BadSessionState(reason: MemoryError) | BadSessionSchema | NotCurrentState | BadQuestion | BadAnalysis
    | NotDeterministic | NotVerified(error: TurnError) | StaleTurn | NotAppended(reason: MemoryError)

  function CurrentCheckpoint(s: AssistantState): SessionCheckpoint {
    SessionCheckpoint(SESSION_SCHEMA_VERSION, StateOf(s.memory))
  }

  function PreparedWith(s: AssistantState, original: Text, standalone: Text, analysis: Analysis): Prepared {
    Prepared(original, standalone, analysis, Render(s.memory.messages), CurrentCheckpoint(s),
             s.memory.messages, s.memory.tokenLimit, s.memory.revision, s.sessionRevision)
  }

  function Prepare(kit: Toolkit, s: AssistantState, question: Text): Prepared {
    var standalone := kit.condense(question, s.memory.messages);
    PreparedWith(s, question, standalone, kit.analyze(standalone))
  }

  /** bind_prepared_question: a cached preparation is only good for the very state it came from. */
  function Bind(kit: Toolkit, s: AssistantState, original: Text, standalone: Text, analysis: Analysis,
                memoryText: Text, before: SessionCheckpoint): Result<Prepared, SessionError> {
    if !ValidUnicode(original) || !ValidUnicode(standalone) || !ValidUnicode(memoryText) then Err(BadQuestion)
    else if analysis.originalQuery != standalone || analysis != kit.analyze(standalone) then Err(BadAnalysis)
    else if !UnicodeMessages(before.memory.messages) then Err(BadSessionState(BadUnicode))
    else if before.schemaVersion != SESSION_SCHEMA_VERSION then Err(BadSessionSchema)
    else if CheckpointProblem(before.memory, s.memory.tokenLimit).Some?
      then Err(BadSessionState(CheckpointProblem(before.memory, s.memory.tokenLimit).value))
    else if before != CurrentCheckpoint(s) || memoryText != Render(s.memory.messages) then Err(NotCurrentState)
    else Ok(PreparedWith(s, original, standalone, analysis))
  }

  /** The comparison commit_turn makes under the locks. */
  predicate Fence(s: AssistantState, p: Prepared) {
    && s.sessionRevision == p.sessionRevision
    && s.memory.revision == p.memoryRevision
    && s.memory.messages == p.messagesBefore
    && s.memory.tokenLimit == p.tokenLimit
  }

  function CommitProblem(kit: Toolkit, v: Verified): Option<SessionError> {
    match VerifyTurn(kit, v.generated)
    case Err(error) => Some(NotVerified(error))
    case Ok(canonical) =>
      if v != canonical || (canonical.verification.Some? && !canonical.verification.value.passed)
      then Some(NotDeterministic) else None
  }

  function Commit(kit: Toolkit, s: AssistantState, v: Verified): Result<AssistantState, SessionError> {
    if CommitProblem(kit, v).Some? then Err(CommitProblem(kit, v).value)
    else if !Fence(s, v.generated.retrieved.prepared) then Err(StaleTurn)
    else match TurnAdded(s.memory, v.generated.retrieved.prepared.original, v.answerText)
      case Err(reason) => Err(NotAppended(reason))
      case Ok(memory) => Ok(AssistantState(memory, s.sessionRevision + 1, Published(v)))
  }

  function Reset(s: AssistantState): AssistantState {
    AssistantState(Conversation.Cleared(s.memory), s.sessionRevision + 1, Cleared)
  }

  function RestoreProblem(s: AssistantState, c: SessionCheckpoint): Option<SessionError> {
    if !UnicodeMessages(c.memory.messages) then Some(BadSessionState(BadUnicode))
    else if c.schemaVersion != SESSION_SCHEMA_VERSION then Some(BadSessionSchema)
    else match CheckpointProblem(c.memory, s.memory.tokenLimit)
      case Some(reason) => Some(BadSessionState(reason))
      case None => None
  }

  /** Restoring swaps in a new memory object, so the memory revision starts over at one. */
  function Restore(s: AssistantState, c: SessionCheckpoint): Result<AssistantState, SessionError> {
    if RestoreProblem(s, c).Some? then Err(RestoreProblem(s, c).value)
    else Ok(AssistantState(MemoryState(s.memory.tokenLimit, c.memory.messages, 1), s.sessionRevision + 1, Cleared))
  }

  // ----- runs -----

  /** Everything that can happen to an assistant between preparing a turn and committing it: session
      operations, and operations some caller applies to assistant.memory directly. */
  datatype Operation =
    | ResetSession
    | RestoreSession(checkpoint: SessionCheckpoint)
    | CommitTurn(turn: Verified)
    | AddMessage(role: Role, content: Text)
    | AddTurn(user: Text, assistant: Text)
    | ClearMemory
    | RestoreMemory(state: Checkpoint)

  /** The state after the operation, or None when it raised and changed nothing. */
  function Effect(kit: Toolkit, s: AssistantState, op: Operation): Option<AssistantState> {
    match op
    case ResetSession => Some(Reset(s))
    case RestoreSession(c) => (match Restore(s, c) case Ok(t) => Some(t) case Err(_) => None)
    case CommitTurn(v) => (match Commit(kit, s, v) case Ok(t) => Some(t) case Err(_) => None)
    case AddMessage(role, content) => WithMemory(s, Added(s.memory, role, content))
    case AddTurn(user, assistant) => WithMemory(s, TurnAdded(s.memory, user, assistant))
    case ClearMemory => Some(s.(memory := Conversation.Cleared(s.memory)))
    case RestoreMemory(c) => WithMemory(s, Restored(s.memory, c))
  }

  function WithMemory(s: AssistantState, update: Update): Option<AssistantState> {
    match update
    case Ok(memory) => Some(s.(memory := memory))
    case Err(_) => None
  }

  function Step(kit: Toolkit, s: AssistantState, op: Operation): AssistantState {
    match Effect(kit, s, op)
    case Some(t) => t
    case None => s
  }

  function After(kit: Toolkit, s: AssistantState, ops: seq<Operation>): AssistantState
    decreases |ops|
  {
    if ops == [] then s else After(kit, Step(kit, s, ops[0]), ops[1..])
  }

  /** No operation of the run took effect. */
  predicate Untouched(kit: Toolkit, s: AssistantState, ops: seq<Operation>)
    decreases |ops|
  {
    ops == [] || (Effect(kit, s, ops[0]).None? && Untouched(kit, s, ops[1..]))
  }

  /** Revisions never go back, in the order that compares the session revision first. */
  predicate NotBefore(s: AssistantState, t: AssistantState) {
    s.sessionRevision < t.sessionRevision ||
    (s.sessionRevision == t.sessionRevision && s.memory.revision <= t.memory.revision)
  }

  lemma StepAdvances(kit: Toolkit, s: AssistantState, op: Operation)
    ensures NotBefore(s, Step(kit, s, op))
    ensures match Effect(kit, s, op)
            case Some(t) => s.sessionRevision < t.sessionRevision ||
                            (s.sessionRevision == t.sessionRevision && s.memory.revision < t.memory.revision)
            case None => Step(kit, s, op) == s
  {
    hide Trimmed, VerifyTurn, CheckpointProblem, Fence;
  }

  lemma {:induction false} RunAdvances(kit: Toolkit, s: AssistantState, ops: seq<Operation>)
    ensures NotBefore(s, After(kit, s, ops))
    ensures Untouched(kit, s, ops) ==> After(kit, s, ops) == s
    ensures !Untouched(kit, s, ops) ==>
              (s.sessionRevision, s.memory.revision) != (After(kit, s, ops).sessionRevision, After(kit, s, ops).memory.revision)
    decreases |ops|
  {
    if ops != [] {
      StepAdvances(kit, s, ops[0]);
      RunAdvances(kit, Step(kit, s, ops[0]), ops[1..]);
    }
  }

  /** A preparation taken at s, by prepare_question or by binding a cached one. */
  predicate PreparedAt(s: AssistantState, p: Prepared) {
    p == PreparedWith(s, p.original, p.standalone, p.analysis)
  }

  /** The fence passes if and only if nothing took effect since the preparation. */
  lemma FencePassesIffUntouched(kit: Toolkit, s: AssistantState, p: Prepared, ops: seq<Operation>)
    requires PreparedAt(s, p)
    ensures Fence(After(kit, s, ops), p) <==> Untouched(kit, s, ops)
  {
    RunAdvances(kit, s, ops);
  }

  /** The two revision counters alone decide it: when both are as they were, so is the whole memory,
      even though restoring makes memory revisions repeat. */
  lemma RevisionsDetermineMemory(kit: Toolkit, s: AssistantState, ops: seq<Operation>)
    requires After(kit, s, ops).sessionRevision == s.sessionRevision
    requires After(kit, s, ops).memory.revision == s.memory.revision
    ensures After(kit, s, ops) == s
  {
    RunAdvances(kit, s, ops);
  }

  /** Without the session revision this fails: one restore brings the memory revision back with other messages. */
  lemma MemoryRevisionAloneRepeats(kit: Toolkit) returns (s: AssistantState, ops: seq<Operation>)
    ensures WellKept(s.memory)
    ensures After(kit, s, ops).memory.revision == s.memory.revision
    ensures After(kit, s, ops).memory.messages != s.memory.messages
  {
    s := AssistantState(MemoryState(100, [Message(User, [])], 1), 0, Cleared);
    ops := [RestoreSession(SessionCheckpoint(SESSION_SCHEMA_VERSION, Checkpoint(STATE_SCHEMA_VERSION, 100, [])))];
    EmptyCost();
    assert WholeTurns(s.memory.messages) == [];
    assert ops[1..] == [];
    assert After(kit, s, ops) == Step(kit, s, ops[0]);
  }

  /** Binding succeeds only against the state the cached checkpoint describes, and then gives the
      preparation this state itself would give. */
  lemma BindIsPrepare(kit: Toolkit, s: AssistantState, original: Text, standalone: Text, analysis: Analysis,
                      memoryText: Text, before: SessionCheckpoint)
    requires WellKept(s.memory)
    ensures Bind(kit, s, original, standalone, analysis, memoryText, before).Ok? <==>
              && Complete(s.memory.messages)
              && before == CurrentCheckpoint(s) && memoryText == Render(s.memory.messages)
              && analysis == kit.analyze(standalone) && analysis.originalQuery == standalone
              && ValidUnicode(original) && ValidUnicode(standalone) && ValidUnicode(memoryText)
    ensures Bind(kit, s, original, standalone, analysis, memoryText, before).Ok? ==>
              PreparedAt(s, Bind(kit, s, original, standalone, analysis, memoryText, before).value)
  {
    ExportProblem(s.memory);
  }

  /** A preparation keeps the question as asked, makes it stand alone by the whole memory, analyses that, and takes the
      snapshot the fence will compare. */
  lemma PrepareMeans(kit: Toolkit, s: AssistantState, question: Text)
    ensures var p := Prepare(kit, s, question);
            && p.original == question && p.standalone == kit.condense(question, s.memory.messages) && p.analysis == kit.analyze(p.standalone)
            && p.memoryText == Render(s.memory.messages) && p.stateBefore == SessionCheckpoint(1, Checkpoint(1, s.memory.tokenLimit, s.memory.messages))
            && PreparedAt(s, p) && Fence(s, p)
  {
    hide Render;
  }

  /** Both counters advance when memory is reset, and what was observed is gone. */
  lemma ResetMeans(s: AssistantState)
    ensures Reset(s) == AssistantState(MemoryState(s.memory.tokenLimit, [], s.memory.revision + 1), s.sessionRevision + 1, Cleared)
  {
  }

  /** A checkpoint is restored exactly when the session and the memory in it are of the present schema and the memory
      is accepted; then there is a new memory, which counts from one. */
  lemma RestoreMeans(s: AssistantState, c: SessionCheckpoint)
    ensures Restore(s, c).Ok? <==> c.schemaVersion == 1 && CheckpointProblem(c.memory, s.memory.tokenLimit).None?
    ensures Restore(s, c).Ok? ==>
              Restore(s, c).value == AssistantState(MemoryState(s.memory.tokenLimit, c.memory.messages, 1), s.sessionRevision + 1, Cleared)
    ensures Restore(s, c).Err? ==>
              Restore(s, c).error == if !UnicodeMessages(c.memory.messages) then BadSessionState(BadUnicode)
                                     else if c.schemaVersion != 1 then BadSessionSchema
                                     else BadSessionState(CheckpointProblem(c.memory, s.memory.tokenLimit).value)
  {
    hide Render, EstimateTokens, Encode, ValidUnicode, RoleProblem;
  }

  /** Why a cached preparation is refused: of several reasons, the first in this order. */
  lemma BindFault(kit: Toolkit, s: AssistantState, original: Text, standalone: Text, analysis: Analysis, memoryText: Text, before: SessionCheckpoint)
    ensures var bound := Bind(kit, s, original, standalone, analysis, memoryText, before);
            var texts := ValidUnicode(original) && ValidUnicode(standalone) && ValidUnicode(memoryText);
            var fitting := texts && analysis.originalQuery == standalone && analysis == kit.analyze(standalone);
            && (bound == Err(BadQuestion) <==> !texts)
            && (bound == Err(BadAnalysis) <==> texts && !fitting)
            && (bound == Err(BadSessionSchema) <==> fitting && UnicodeMessages(before.memory.messages) && before.schemaVersion != 1)
            && (bound == Err(NotCurrentState) ==> fitting && (before != CurrentCheckpoint(s) || memoryText != Render(s.memory.messages)))
            && (fitting && CheckpointProblem(before.memory, s.memory.tokenLimit).Some? && (before.schemaVersion == 1 || !UnicodeMessages(before.memory.messages)) ==>
                  bound == Err(BadSessionState(CheckpointProblem(before.memory, s.memory.tokenLimit).value)))
  {
    hide Render, EstimateTokens, Encode, ValidUnicode, RoleProblem;
  }

  /** A turn this assistant verified from a preparation taken at s. */
  predicate StagedFrom(kit: Toolkit, s: AssistantState, v: Verified) {
    PreparedAt(s, v.generated.retrieved.prepared) && VerifyTurn(kit, v.generated) == Ok(v)
  }

  /** Main theorem: a turn prepared at s, verified, and committed after any run goes through exactly when
      nothing took effect in between, the conversation is at a turn boundary and both texts are valid
      Unicode.  It then extends exactly the memory it was prepared from, publishes all its
      observations at once, and shows a text whose verification passed. */
  lemma CommitIffUntouched(kit: Toolkit, s: AssistantState, v: Verified, ops: seq<Operation>)
    requires StagedFrom(kit, s, v)
    ensures var p := v.generated.retrieved.prepared;
            var t := After(kit, s, ops);
            && (Commit(kit, t, v).Ok? <==>
                  Untouched(kit, s, ops) && Complete(s.memory.messages) && ValidUnicode(p.original) && ValidUnicode(v.answerText))
            && (Commit(kit, t, v).Ok? ==>
                  && t == s
                  && TurnAdded(s.memory, p.original, v.answerText).Ok?
                  && Commit(kit, t, v).value == AssistantState(TurnAdded(s.memory, p.original, v.answerText).value,
                                                                s.sessionRevision + 1, Published(v)))
  {
    hide Trimmed, VerifyTurn, Render;
    FencePassesIffUntouched(kit, s, v.generated.retrieved.prepared, ops);
    VerifiedTurnsCommittable(kit, v);
  }

  lemma VerifiedTurnsCommittable(kit: Toolkit, v: Verified)
    requires VerifyTurn(kit, v.generated) == Ok(v)
    ensures CommitProblem(kit, v).None?
  {
    VerifiedAnswersPassed(kit, v.generated);
    hide VerifyTurn;
  }

  /** What commits at all, prepared here or not: exactly what this assistant verifies to the very same turn, over the
      memory and the revisions it was prepared with, at a turn boundary and in valid Unicode. */
  lemma CommitsIff(kit: Toolkit, s: AssistantState, v: Verified)
    ensures var p := v.generated.retrieved.prepared;
            Commit(kit, s, v).Ok? <==>
              && VerifyTurn(kit, v.generated) == Ok(v)
              && s.sessionRevision == p.sessionRevision && s.memory == MemoryState(p.tokenLimit, p.messagesBefore, p.memoryRevision)
              && |p.messagesBefore| % 2 == 0 && ValidUnicode(p.original) && ValidUnicode(v.answerText)
    ensures Commit(kit, s, v).Err? ==>
              (Commit(kit, s, v).error == StaleTurn <==> VerifyTurn(kit, v.generated) == Ok(v) && !Fence(s, v.generated.retrieved.prepared))
  {
    hide Trimmed, VerifyTurn, Render;
    if VerifyTurn(kit, v.generated) == Ok(v) {
      VerifiedTurnsCommittable(kit, v);
    }
  }

  /** One snapshot commits at most once: after a commit, however the run goes on, no turn prepared at the
      same state commits again. */
  lemma OneSnapshotCommitsOnce(kit: Toolkit, s: AssistantState, first: Verified, before: seq<Operation>,
                               between: seq<Operation>, second: Verified)
    requires PreparedAt(s, first.generated.retrieved.prepared) && PreparedAt(s, second.generated.retrieved.prepared)
    requires Commit(kit, After(kit, s, before), first).Ok?
    ensures Commit(kit, After(kit, Commit(kit, After(kit, s, before), first).value, between), second).Err?
  {
    hide Trimmed, VerifyTurn, Render;
    FencePassesIffUntouched(kit, s, first.generated.retrieved.prepared, before);
    RunAdvances(kit, s, before);
    var committed := Commit(kit, s, first).value;
    RunAdvances(kit, committed, between);
  }

  /** Every operation keeps the memory invariant, so it holds throughout every run. */
  lemma {:induction false} RunsKeepMemory(kit: Toolkit, s: AssistantState, ops: seq<Operation>)
    requires WellKept(s.memory)
    ensures WellKept(After(kit, s, ops).memory) && After(kit, s, ops).memory.tokenLimit == s.memory.tokenLimit
    decreases |ops|
  {
    if ops != [] {
      StepKeepsMemory(kit, s, ops[0]);
      RunsKeepMemory(kit, Step(kit, s, ops[0]), ops[1..]);
    }
  }

  lemma StepKeepsMemory(kit: Toolkit, s: AssistantState, op: Operation)
    requires WellKept(s.memory)
    ensures WellKept(Step(kit, s, op).memory) && Step(kit, s, op).memory.tokenLimit == s.memory.tokenLimit
  {
    hide WellKept, Trimmed, VerifyTurn, CheckpointProblem, Fence;
    match op
    case ResetSession => OperationsKeepMemory(s.memory, User, [], [], StateOf(s.memory));
    case RestoreSession(c) => if RestoreProblem(s, c).None? { RestartKeeps(s.memory, c.memory); }
    case CommitTurn(v) =>
      OperationsKeepMemory(s.memory, User, v.generated.retrieved.prepared.original, v.answerText, StateOf(s.memory));
    case AddMessage(role, content) => OperationsKeepMemory(s.memory, role, content, [], StateOf(s.memory));
    case AddTurn(user, assistant) => OperationsKeepMemory(s.memory, User, user, assistant, StateOf(s.memory));
    case ClearMemory => OperationsKeepMemory(s.memory, User, [], [], StateOf(s.memory));
    case RestoreMemory(c) => OperationsKeepMemory(s.memory, User, [], [], c);
  }

  lemma RestartKeeps(m: MemoryState, c: Checkpoint)
    requires WellKept(m) && CheckpointProblem(c, m.tokenLimit).None?
    ensures WellKept(MemoryState(m.tokenLimit, c.messages, 1))
  {
    CheckedShape(c, m.tokenLimit);
    hide EstimateTokens, Render, Encode, CheckpointProblem;
  }

  // ----- the class -----

  class LegalChatAssistant {
    const kit: Toolkit
    var memory: ConversationMemory
    var sessionRevision: nat
    var observed: Observations

    function State(): AssistantState
      reads this, memory
    {
      AssistantState(memory.State(), sessionRevision, observed)
    }

    predicate Valid()
      reads this, memory
    {
      memory.Valid()
    }

    constructor (kit: Toolkit, memoryTokenLimit: int)
      requires memoryTokenLimit >= 1
      ensures Valid() && fresh(memory) && this.kit == kit
      ensures State() == AssistantState(MemoryState(memoryTokenLimit, [], 0), 0, Cleared)
    {
      this.kit := kit;
      memory := new ConversationMemory.Empty(memoryTokenLimit);
      sessionRevision := 0;
      observed := Cleared;
    }

    method PrepareQuestion(question: Text) returns (p: Prepared)
      requires Valid()
      ensures p == Prepare(kit, State(), question)
      ensures PreparedAt(State(), p)
    {
      var standalone := kit.condense(question, memory.messages);
      p := Prepared(question, standalone, kit.analyze(standalone), Render(memory.messages),
                    SessionCheckpoint(SESSION_SCHEMA_VERSION, StateOf(memory.State())),
                    memory.messages, memory.tokenLimit, memory.revision, sessionRevision);
    }

    method ResetMemory()
      requires Valid()
      modifies this`sessionRevision, this`observed, memory
      ensures Valid() && State() == Reset(old(State()))
    {
      memory.Clear();
      observed := Cleared;
      sessionRevision := sessionRevision + 1;
    }

    /** A rejected checkpoint changes nothing; an accepted one swaps in a new memory object and leaves
        the old one, which a caller may still hold, as it was. */
    method RestoreSessionState(c: SessionCheckpoint) returns (error: Option<SessionError>)
      requires Valid()
      modifies this
      ensures Valid()
      ensures match Restore(old(State()), c)
              case Ok(next) => State() == next && error == None && fresh(memory)
              case Err(reason) => State() == old(State()) && memory == old(memory) && error == Some(reason)
    {
      hide CheckpointProblem, WellKept;
      if !UnicodeMessages(c.memory.messages) {
        return Some(BadSessionState(BadUnicode));
      }
      if c.schemaVersion != SESSION_SCHEMA_VERSION {
        return Some(BadSessionSchema);
      }
      var restored := new ConversationMemory.Empty(LimitOf(memory));
      var problem := restored.RestoreState(c.memory);
      if problem.Some? {
        return Some(BadSessionState(problem.value));
      }
      memory := restored;
      observed := Cleared;
      sessionRevision := sessionRevision + 1;
      error := None;
    }

    method CommitTurn(v: Verified) returns (error: Option<SessionError>)
      requires Valid()
      modifies this`sessionRevision, this`observed, memory
      ensures Valid()
      ensures match Commit(kit, old(State()), v)
              case Ok(next) => State() == next && error == None
              case Err(reason) => State() == old(State()) && error == Some(reason)
    {
      hide VerifyTurn, WellKept;
      var problem := CommitProblem(kit, v);
      if problem.Some? {
        return problem;
      }
      var p := v.generated.retrieved.prepared;
      if sessionRevision != p.sessionRevision {
        return Some(StaleTurn);
      }
      var rejected := memory.CompareAndAddTurn(p.memoryRevision, p.messagesBefore, p.tokenLimit, p.original, v.answerText);
      if rejected.Some? {
        return if rejected.value == StaleSnapshot then Some(StaleTurn) else Some(NotAppended(rejected.value));
      }
      observed := Published(v);
      sessionRevision := sessionRevision + 1;
      error := None;
    }
  }

  function LimitOf(memory: ConversationMemory): (limit: int)
    requires memory.Valid()
    reads memory
    ensures limit >= 1 && limit == memory.State().tokenLimit
  {
    memory.tokenLimit
  }
}
