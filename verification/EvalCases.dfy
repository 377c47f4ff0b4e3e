/** Evaluation cases and their individual validity (legal_rag/models.py, legal_rag/evaluation_contracts.py). */
module EvalCases {
  import opened Common

  datatype Mode = EvidenceAnswer | InsufficientEvidence | NeedsClarification | OutOfScope | UnknownMode(name: string)

  predicate Allowed(mode: Mode) { !mode.UnknownMode? }

  /** behavior is None for the empty string, which asks for the legacy mapping from the case type. */
  datatype EvalCase = EvalCase(
    caseId: string, question: string, caseType: string, expectedLaw: string, expectedArticles: seq<string>,
    keywords: seq<string>, behavior: Option<Mode>, sessionGroup: Option<string>, turnIndex: int, schemaVersion: int)

  predicate NonBlank(s: string) {
    exists i | 0 <= i < |s| :: !IsSpace(s[i] as int)
  }

  function ResolvedBehavior(c: EvalCase): Mode {
    match c.behavior
    case Some(mode) => mode
    case None => if c.caseType == "refusal" then OutOfScope else EvidenceAnswer
  }

  /** validate_eval_case */
  predicate ValidCase(c: EvalCase) {
    && NonBlank(c.caseId) && NonBlank(c.question) && NonBlank(c.caseType)
    && Allowed(ResolvedBehavior(c))
    && c.turnIndex >= 0 && c.schemaVersion >= 1
    && match c.sessionGroup
       case None => c.turnIndex == 0
       case Some(group) => NonBlank(group)
  }
}
