# Legal RAG assistant: a Dafny model

This project models the parts of a Chinese legal question-answering assistant where a
wrong step is hard to see: publishing experiment results by several processes that may
crash, committing a chat turn that was prepared without a lock, scoring an evaluated case
so that an independently written decoder accepts it, folding an audit that is recomputed
from published rows, chaining stage artifacts by hash, merging ranked results, and cutting
statute text into articles and chunks. Functions give each operation as a value, classes
and methods with loops follow the code where it updates state, and lemmas state what the
operations are for.

Check everything with `dafny verify dfyconfig.toml` (Dafny 4.11).

## Files

| file | models |
|---|---|
| `Publication.dfy` | immutable publication: interleaved, crash-prone publishers over one directory |
| `Conversation.dfy`, `MemoryText.dfy`, `Turns.dfy`, `Session.dfy`, `Staging.dfy`, `Stageable.dfy` | conversation memory, staged turns, the optimistic commit; retrieving and generating a turn, when it can be written, and which turns can arise |
| `EvalCases.dfy`, `Scoring.dfy`, `Outcomes.dfy`, `ScoredMetrics.dfy` | scorer and record decoder, which outcomes and records they accept, and what a scored record says |
| `Audit.dfy`, `AuditAmounts.dfy`, `AuditTotals.dfy`, `Aggregation.dfy`, `Verdicts.dfy` | the attempt audit, its amounts and totals, the trust rule, the unit loop, recomputing the audit, and which case gets which status |
| `Json.dfy`, `Codecs.dfy`, `Canonical.dfy`, `SourceMaps.dfy`, `LegacyShapes.dfy`, `ArtifactChain.dfy`, `LegacyHashes.dfy`, `LegacyTwins.dfy`, `ResultChecks.dfy`, `LegacySample.dfy` | stage artifacts and exactly which are decoded, their hash chain, and what its older hashes identify |
| `MergePlans.dfy`, `FollowupMerge.dfy`, `MergedResults.dfy` | multi-plan merging, the one follow-up round, and what both return |
| `Strings.dfy`, `ArticleNumbers.dfy`, `ArticleGrammar.dfy`, `Evidence.dfy`, `EvidenceFindings.dfy` | article-number codec and its grammar, the evidence check that relies on it and what it reports |
| `LawParsing.dfy`, `ParsedArticles.dfy`, `Chunking.dfy` | statute files into articles, articles into chunks |
| `EvalSequence.dfy`, `Registry.dfy`, `Embeddings.dfy`, `Statistics.dfy` | session-ordered evaluation, dataset registry, embedding responses, percentiles and bootstrap |

## How the outside world appears

SHA-256 and the canonical hash are terms that hold what was hashed, so they are injective.
Strings that the chat code compares with constants (turn kinds, answer modes, roles, artifact
kinds) are values of `Json.Word`, with one case for every other string.
Regular expressions, Unicode normalization, query analysis, the answer parser, the verifier,
the retriever, the experiment store, the runner's history validation, the embedding provider
and random draws are parameters; where a property needs a fact about one of them it is a
named predicate (`LawParsing.Regular`, `Aggregation.StoreContract`,
`Aggregation.RunnerContract`, `EvalSequence.OnlyAddsOwnTurn`,
`EvalSequence.KeepsTurns`, `ArticleNumbers.Normalizer`, `ResultChecks.ChecksUnbound`,
`ResultChecks.ShowsTexts`, `LegacyTwins.SeesNoProvenance`, `Staging.Settled`,
`Staging.Reports`). Every locked section and every create-if-absent link is one
atomic step. Numbers that the code keeps as floating point are reals.

## Findings

* The recursive removal of search-result provenance, which the oldest accepted hash of a
  retrieved turn is computed after, also reaches objects of the same shape inside chunks,
  traces and planning details. Under the checks the decoder makes of results without
  provenance, the oldest hash of a turn is that of a turn with another artifact exactly when
  such an object hides in a result, in the merge trace or in the planning details
  (`ResultChecks.OldestHashIsSharedIffHidden`); a generated artifact that carries it is then
  accepted beside both (`ResultChecks.HiddenEnvelopesConfuse`), and
  `LegacySample.OneArtifactBesideTwoTurns` gives such turns. The hash without a boundary
  identifies the artifact of any turn with results (`LegacyTwins.BoundaryFreeHashAnswers`).
* Splitting long text does not terminate when the overlap reaches the limit and a sentence is
  longer than the limit, or when the limit is negative, and a negative overlap skips text
  (`Chunking.CuttingEndsIff`, `Chunking.CoversIff`); a neighbour stride beyond the window
  loses articles (`Chunking.WindowsHoldAllIff`).
* Merging follow-up results, unlike merging plans, depends on the order of the hits exactly
  when two hits that tie for a chunk's best score have different ranks
  (`FollowupMerge.RankingIgnoresOrderIff`, `FollowupMerge.ResultsIgnoreOrderIff`, and
  `FollowupMerge.FollowupOrderMatters` for an input).
* A negative batch size makes document encoding return no vectors instead of failing
  (`Embeddings.Encoder.EncodeDocuments`).
* The claim that a valid outcome always scores to an acceptable record holds exactly when the
  answer modes and the semantic state are known and every result rank is at least 1
  (`Scoring.ScorerSatisfiesDecoder`); `Scoring.ValidOutcomeMayNotScore` gives an outcome that
  passes the outcome validator and fails to score.
* Retrieval numbers results one by one only as long as they come that way: a turn whose
  results carry other ranks is answered but cannot be written (`Staging.StagedAcceptedIff`).
  A turn whose results are all filtered away or missing although its evidence counts as
  sufficient passes the checks of its artifacts and fails in `verify_turn`
  (`Staging.StagedGenerates`). A verified turn cannot be written when a terminal answer
  failed and the safe answer is shown in its place, or when the apology for a failed
  generation passes and differs from the safe answer (`Staging.VerifiedAcceptedIff`). Beyond
  what stages make, the checks of a verified artifact accept only a verdict on a rejected
  draft that disagrees with the draft about its schema (`Stageable.VerifiedAcceptedMeans`).
* Memory exported while a question waits for its answer is refused
  (`Conversation.ExportRestores`).

## Model

| member | source | states |
|---|---|---|
| `Publication.PublishedFilesNeverChange` | legal_rag/experiment_lifecycle.py:916-952 | in every interleaving of any number of publishers, with crashes anywhere and at every point of the run, a file once published never changes and an existing marker means that every file it lists is there with exactly the listed bytes |
| `Publication.ReturnedPublishersAgree` | legal_rag/experiment_lifecycle.py:962-1045 | any two publishers that return normally, at whatever times, published the same identity and the same bytes |
| `Publication.RerunRecovers` | legal_rag/experiment_lifecycle.py:990-1031 | from any directory left by crashed or running publishers of one bundle, another run of it can only end by returning, with all four files and the marker in place |
| `Publication.RivalsNeverAllFail` | legal_rag/experiment_lifecycle.py:1007-1031 | from an empty directory and without crashes, publishers of different bytes can never all fail |
| `Publication.MarkerDeterminesFiles` | legal_rag/experiment_lifecycle.py:955-959 | equal markers list equal files |
| `Publication.SuccessIsComplete` | legal_rag/experiment_lifecycle.py:962-1045 | what a success leaves behind, whatever was there before: all files of the bundle, nothing else changed |
| `Publication.NoConflictMeansCanPublish` | legal_rag/experiment_lifecycle.py:990-1031 | without a marker, a publisher alone succeeds exactly when no file already present conflicts |
| `Publication.AggregationDirectory.WriteImmutable` | legal_rag/experiment_lifecycle.py:916-952 | a missing file is created, an equal one accepted, a different one refused, and nothing else changes |
| `Publication.AggregationDirectory.PublishAggregation` | legal_rag/experiment_lifecycle.py:962-1045 | the directory afterwards and whether it succeeded, as a function of the directory before |
| `Publication.MethodIsSoloRun` | legal_rag/experiment_lifecycle.py:962-1045 | the method does exactly what the step system does when one publisher runs alone |
| `Conversation.EstimateMonotone` | legal_rag/chat.py:1388-1397 | dropping any prefix of a text, even one that cuts a word in two, never raises its token estimate |
| `Conversation.RenderedSuffixIsCheaper` | legal_rag/chat.py:284-295 | rendering fewer of the newest messages never costs more tokens |
| `Conversation.TrimKeepsLongestFittingSuffix` | legal_rag/chat.py:290-295 | trimming keeps a suffix of whole turns, and a suffix of whole turns fits exactly when it is not longer than the kept one |
| `Conversation.OperationsKeepMemory` | legal_rag/chat.py:86-160 | adds, turns, clears and restores keep roles alternating, at most eight messages in whole turns, within budget |
| `Conversation.ExportRestores` | legal_rag/chat.py:185-221 | export fails exactly while a question waits for its answer, and what it exports restores to the same messages |
| `Conversation.ExportProblem` | legal_rag/chat.py:223-281 | which error an export of a well-kept memory meets |
| `Conversation.TurnIsTwoAdds` | legal_rag/chat.py:98-160 | adding a turn is adding its two messages, up to one revision |
| `MemoryText.EstimateMeans` | legal_rag/chat.py:1388-1397 | the estimate is the number of CJK characters, of ASCII words and of pairs of other characters that are not white space, and at least one |
| `MemoryText.RenderMeans` | legal_rag/chat.py:284-288 | memory is rendered line by line, the newest eight messages, each behind its role |
| `MemoryText.AddedMeans` | legal_rag/chat.py:98-114 | a message is added exactly when its role is known, its turn has come and its text is valid; a question stays as it is, and after an answer the longest fitting row of whole turns is left |
| `MemoryText.TurnAddedMeans` | legal_rag/chat.py:142-160 | the same for a turn |
| `MemoryText.CheckpointMeans` | legal_rag/chat.py:223-281 | a checkpoint is accepted exactly when it has the schema and the budget, at most eight messages in whole turns, question and answer in turn, in valid Unicode, and fits the budget when rendered |
| `MemoryText.CheckpointFault` | legal_rag/chat.py:223-281 | of several faults of a checkpoint, which one is reported |
| `MemoryText.AddedAllMeans` | legal_rag/chat.py:86-96 | messages are accepted at construction exactly when they go on in turn and are valid; each counts as one revision, and what is left of them are the latest turns |
| `Conversation.ConversationMemory.Create` | legal_rag/chat.py:86-96 | construction is adding the given messages one by one to an empty memory, or the first error |
| `Conversation.ConversationMemory.Trim` | legal_rag/chat.py:290-295 | the loop drops turns from the front until the rendered memory fits |
| `Conversation.ConversationMemory.Add` | legal_rag/chat.py:98-114 | one message: new messages and revision, or the error and no change |
| `Conversation.ConversationMemory.AddTurn` | legal_rag/chat.py:116-160 | one turn: new messages and revision, or the error and no change |
| `Conversation.ConversationMemory.CompareAndAddTurn` | legal_rag/chat.py:122-140 | appends exactly when revision, messages and budget are as expected |
| `Conversation.ConversationMemory.Clear` | legal_rag/chat.py:180-183 | empties the memory and advances the revision |
| `Conversation.ConversationMemory.ExportState` | legal_rag/chat.py:185-191 | the checkpoint, or the error of validating it; nothing changes |
| `Conversation.ConversationMemory.RestoreState` | legal_rag/chat.py:215-221 | replaces the messages only after every check passed |
| `Conversation.ConversationMemory.LastUserQuestion` | legal_rag/chat.py:166-171 | the newest question, or the empty text |
| `Session.FencePassesIffUntouched` | legal_rag/chat.py:116-160 | over all runs of session and memory operations, the commit fence passes exactly when nothing took effect since the preparation |
| `Session.RevisionsDetermineMemory` | legal_rag/chat.py:404-451 | equal revision counters imply equal memory, so comparing messages is implied |
| `Session.MemoryRevisionAloneRepeats` | legal_rag/chat.py:430-451 | without the session revision the fence would pass after a restore that changed the messages |
| `Session.BindIsPrepare` | legal_rag/chat.py:495-563 | binding a cached preparation succeeds only against the state it describes and gives the preparation of that state |
| `Session.BindFault` | legal_rag/chat.py:495-563 | why a cached preparation is refused: of several reasons, the first |
| `Session.PrepareMeans` | legal_rag/chat.py:472-493 | a preparation keeps the question as asked, makes it stand alone by the whole memory, analyses that and takes the snapshot the fence compares |
| `Session.RestoreMeans` | legal_rag/chat.py:430-451 | a checkpoint is restored exactly when session and memory are of the present schema and the memory is accepted, to a new memory that counts from one; or which error |
| `Session.ResetMeans` | legal_rag/chat.py:399-407 | a reset empties memory and observations and advances both counters |
| `Session.CommitIffUntouched` | legal_rag/chat.py:1042-1114 | a verified turn commits exactly when nothing happened since its preparation and the turn can be appended, onto exactly the memory it was prepared from |
| `Session.CommitsIff` | legal_rag/chat.py:1042-1114 | a turn, prepared here or not, commits exactly when this assistant verifies it to the very same turn, over the memory and the revisions it was prepared with, at a turn boundary and in valid Unicode |
| `Session.OneSnapshotCommitsOnce` | legal_rag/chat.py:1042-1114 | after a commit no turn prepared at the same snapshot ever commits |
| `Session.RunsKeepMemory` | legal_rag/chat.py:399-451 | every run keeps the memory invariant |
| `Session.VerifyProgrammatic` | legal_rag/chat.py:1116-1151 | a programmatic answer leaves only with a passing verification of itself |
| `Session.ModelAnswerShown` | legal_rag/chat.py:843-1014 | a model draft is shown exactly when it passes over the retrieved results in mode EvidenceAnswer beside evidence check and risk flags; otherwise the fallback or the safe answer, whichever passes first, with the draft and its verdict kept; nothing exactly when both fail |
| `Session.ProgrammaticAnswerShown` | legal_rag/chat.py:843-1014 | over which results, in which mode and beside which evidence and flags each kind of programmatic answer is verified, and what is shown instead when it fails |
| `Session.VerificationStops` | legal_rag/chat.py:1016-1040 | what ends verification before the verifier is asked, and what a retrieval-only turn shows |
| `Staging.FilterToContext` | legal_rag/verifier.py:510-560 | the two loops compute the filter |
| `Staging.StagedMeans` | legal_rag/chat.py:565-662 | a staged turn shows, in the order found and under new numbers, exactly the results that can be cited and may be shown, rejects the IDs of the others, has its evidence checked anew over the results shown exactly when something was rejected, and ends there when nothing is left or the evidence does not suffice |
| `Staging.StagedAcceptedIff` | legal_rag/chat.py:565-662 | the turn that retrieval stages satisfies the checks of its artifact exactly when the question is refused, or the results came numbered one by one and all may be shown, or they came with positive ranks and some were rejected |
| `Staging.StagedWrittenIff` | legal_rag/chat_artifacts.py:992-1036 | and it is written exactly then, once its question and its single results can be |
| `Staging.StagedGenerates` | legal_rag/chat.py:770-841 | what generation makes of a staged turn passes the checks of its artifact, and breaks the contract of verify_turn exactly when no result is left although the evidence counts as sufficient |
| `Staging.ContractsAgreeIff` | legal_rag/chat_artifacts.py:1224-1311 | the contract of verify_turn and the checks of the artifact agree on all turns over an accepted retrieval but that one |
| `Staging.VerifiedAcceptedIff` | legal_rag/chat_artifacts.py:1391-1435 | what verify_turn lets through satisfies the checks of its artifact exactly unless a terminal answer failed and was exchanged, or the apology for a failed generation passed and is not the safe answer |
| `Stageable.RetrievedAcceptedIff` | legal_rag/chat_artifacts.py:913-989 | the checks of its artifact, together with those every stage makes, accept a retrieved turn exactly when some retrieval would stage it |
| `Stageable.GeneratedAcceptedIff` | legal_rag/chat_artifacts.py:1224-1311 | over an accepted retrieved turn they accept a generated turn exactly when generating, or not generating, can make it |
| `Stageable.ContractMeans` | legal_rag/chat.py:843-967 | the contract of verify_turn is met by exactly what generating can make of a turn whose evidence fits its kind |
| `Stageable.VerifiedAcceptedMeans` | legal_rag/chat_artifacts.py:1391-1435 | over a generated turn that can be verified they accept exactly what some verifier and some rule for the fallback would let through unexchanged, except that the schema verdict on a rejected draft is not compared with the draft |
| `Session.LegalChatAssistant.PrepareQuestion` | legal_rag/chat.py:472-493 | the preparation of the present state; nothing changes |
| `Session.LegalChatAssistant.ResetMemory` | legal_rag/chat.py:399-407 | clears memory and observations and advances the session revision |
| `Session.LegalChatAssistant.RestoreSessionState` | legal_rag/chat.py:430-451 | a rejected checkpoint changes nothing; an accepted one swaps in a new memory object and leaves the old one alone |
| `Session.LegalChatAssistant.CommitTurn` | legal_rag/chat.py:1042-1114 | the new state of the assistant, or the error and no change |
| `Scoring.ScorerSatisfiesDecoder` | legal_rag/evaluation_scoring.py:605-814 | a valid outcome scores, to a record the decoder accepts, exactly when its answer modes and its semantic state are known and every result rank is at least 1 |
| `Scoring.UndeclaredModeIsNotScored` | legal_rag/evaluation_scoring.py:605-814 | any valid outcome of a generated answer, under an answer mode that is not declared, stays valid and fails to score |
| `Scoring.ValidOutcomeMayNotScore` | legal_rag/evaluation_scoring.py:605-814 | there is a valid outcome that fails to score |
| `Outcomes.OutcomeMeans` | legal_rag/evaluation_scoring.py:605-814 | a valid outcome has one of four endings, each with exactly the facts that belong to it: only retrieved, broken before anything was answered, broken in generation, or answered by the model or the program; and every outcome with one of them is valid |
| `Outcomes.UsageMeans` | legal_rag/evaluation_scoring.py:88-120 | a usage is valid exactly when some calls add up to it, each with at least as many tokens in all as in and out, and its latency is not negative |
| `Outcomes.JudgeMeans` | legal_rag/evaluation_scoring.py:771-814 | a judge result is valid exactly when it has three scores between 0 and 1, which decide whether the answer passed, or a stable code and a harmless message and no score |
| `Scoring.StagesTellTheOutcome` | legal_rag/evaluation_scoring.py:207-299 | the published stage statuses say exactly how the case ended |
| `Scoring.ExecutionAlwaysAccepted` | legal_rag/evaluation_artifacts.py:595-622 | the stage statuses of a scored outcome always pass the execution check |
| `Scoring.AttemptAcceptedIff` | legal_rag/evaluation_artifacts.py:683-733 | the generation attempt is accepted exactly when its modes are known |
| `Scoring.MetricsAcceptedIff` | legal_rag/evaluation_artifacts.py:625-680 | the canonical metrics of a scored outcome are accepted exactly when the semantic support status is known |
| `Scoring.MetricAlwaysExplained` | legal_rag/evaluation_scoring.py:164-171 | a missing metric always comes with a reason |
| `Scoring.RetrievalFieldsAgree` | legal_rag/evaluation_artifacts.py:740-834 | legacy retrieval fields and canonical metrics agree |
| `Scoring.VerificationFieldsAgree` | legal_rag/evaluation_artifacts.py:740-834 | legacy citation fields and canonical metrics agree, sentinels included |
| `Scoring.JudgeFieldsAgree` | legal_rag/evaluation_artifacts.py:740-834 | judge scores, sentinels and availability agree with the judge stage |
| `Scoring.StagesAndUsageAgree` | legal_rag/evaluation_artifacts.py:740-834 | the attempt goes with the generation stage, and calls and tokens of the three models add up |
| `Outcomes.MetricsDetermineFields` | legal_rag/evaluation_artifacts.py:740-834 | of two decoded records with the same metrics, every legacy field that has a metric is the same, the retrieval fields as far as their metric is available |
| `Outcomes.FieldsTell` | legal_rag/evaluation_artifacts.py:740-834 | of a decoded record, the fields hold what their names promise and -1 without a metric, the metrics of the judge are there exactly when it succeeded, and the counts of calls and tokens fit |
| `Outcomes.StagesTell` | legal_rag/evaluation_artifacts.py:595-733 | which stages, reasons and attempts a decoded record can have, and what stage and attempt of the generation say of each other |
| `Outcomes.MetricsTell` | legal_rag/evaluation_artifacts.py:625-680 | every metric of a decoded record is there, with a value of its kind and no reason, or with a reason and no value |
| `Scoring.RetrievalMetricsInRange` | legal_rag/evaluation_scoring.py:556-600 | every retrieval metric lies between 0 and 1 |
| `ScoredMetrics.NearestMeans` | legal_rag/evaluation_scoring.py:556-600 | published numbers are rounded to the nearest value, half to even |
| `ScoredMetrics.HitsMean` | legal_rag/evaluation_scoring.py:556-572 | the hit fields and metrics are 1 exactly when a result at one of the first three, first five or all positions answers the case |
| `ScoredMetrics.ReciprocalRankMeans` | legal_rag/evaluation_scoring.py:562-566 | the reciprocal of the rank of the first result that answers the case, rounded, or zero |
| `ScoredMetrics.TargetCoverageMeans` | legal_rag/evaluation_scoring.py:575-585 | the rounded share of the expected articles found under the expected law among the first topK results |
| `ScoredMetrics.KeywordCoverageMeans` | legal_rag/evaluation_scoring.py:598-602 | the rounded share of the non-empty keywords that occur in the answer |
| `ScoredMetrics.VerificationMetricsMean` | legal_rag/evaluation_scoring.py:302-363 | every finding of the verifier is published under its own name; without a verification all are withheld, for the reason there is none |
| `ScoredMetrics.RefusalMetricsMean` | legal_rag/evaluation_scoring.py:364-386 | whether the answer refuses is published as recall of refusals where the case expects one, as over-refusal where it expects an answer, and nowhere else |
| `ScoredMetrics.JudgeMetricsMean` | legal_rag/evaluation_scoring.py:451-468 | a judge that succeeded has each score published under its own name, any other has none, and its error is kept |
| `ScoredMetrics.EndingsMean` | legal_rag/evaluation_scoring.py:207-284 | stages and attempt of a scored case, ending by ending |
| `ScoredMetrics.RestOfRecordMeans` | legal_rag/evaluation_scoring.py:497-548 | who answered what with which configuration and at which cost |
| `ArticleNumbers.ReadNumeral` | legal_rag/article_numbers.py:46-74 | the loop over the characters computes what the numeral denotes, on strings of any length |
| `ArticleNumbers.ChineseNumberToInt` | legal_rag/article_numbers.py:46-74 | the number a stripped text denotes, or the error |
| `ArticleNumbers.IntToChineseNumber` | legal_rag/article_numbers.py:77-100 | the spelling of a number in range, or the error |
| `ArticleNumbers.SpellDenotes` | legal_rag/article_numbers.py:46-100 | reading a spelled number gives it back, for every number in range |
| `ArticleGrammar.SpellMeans` | legal_rag/article_numbers.py:77-100 | a number is spelled digit by digit with its units, zeros left out at the end and one standing for a row of them in between; from ten to nineteen without the first digit |
| `ArticleNumbers.ParseUndoesFormat` | legal_rag/article_numbers.py:115-144 | parsing undoes formatting, for every number and suffix in range |
| `ArticleNumbers.CanonicalIdempotent` | legal_rag/article_numbers.py:147-159 | canonicalization is idempotent on every string, parseable or not |
| `ArticleNumbers.CanonicalIdentifiesArticles` | legal_rag/article_numbers.py:153-159 | parseable labels have one canonical spelling exactly when they name one article, and never share it with a label that does not parse |
| `ArticleGrammar.DecimalMeans` | legal_rag/article_numbers.py:46-55 | digits in front count for their power of ten |
| `ArticleGrammar.DigitsMean` | legal_rag/article_numbers.py:46-74 | which characters are digits, and their values |
| `ArticleGrammar.UnitsMean` | legal_rag/article_numbers.py:46-74 | which characters are units, and their values |
| `ArticleGrammar.NumeralMeans` | legal_rag/article_numbers.py:46-74 | a numeral denotes a number exactly when it is a row of zeros and digits with units, then possibly one digit, that add up to it; only at its start a ten may stand without a digit |
| `ArticleGrammar.NumberMeans` | legal_rag/article_numbers.py:46-74 | a text denotes a number exactly when, normalized and trimmed, it is a row of ASCII digits or a Chinese numeral that does |
| `ArticleGrammar.SuffixMeans` | legal_rag/article_numbers.py:115-131 | what may stand behind the article number |
| `ArticleGrammar.LabelMeans` | legal_rag/article_numbers.py:115-131 | a label parses exactly when it has the form of an article number with an optional suffix, spaces allowed between the parts |
| `ArticleGrammar.ParsesIff` | legal_rag/article_numbers.py:115-131 | a label names an article and an insertion exactly when it reads as a label whose words denote them, both in range |
| `Evidence.CheckEvidenceSufficiency` | legal_rag/evidence.py:11-87 | the loops leave the verdict, the checked count and the covered laws and articles of the specification |
| `Evidence.RespellingChangesNothing` | legal_rag/evidence.py:43-87 | respelling required or covered articles changes nothing in the check but the spelling of the covered articles |
| `Evidence.SufficientMeans` | legal_rag/evidence.py:65-87 | when exactly evidence is sufficient, in plain terms |
| `Evidence.VerdictFromUnique` | legal_rag/evidence.py:65-87 | the verdict depends on the missing items only through their deduplicated list |
| `Evidence.CollectHints` | legal_rag/evidence.py:120-147 | the required laws and articles of analysis, normalized query and plans, deduplicated |
| `Evidence.CollectCovered` | legal_rag/evidence.py:30-41 | the covered laws and articles, deduplicated |
| `EvidenceFindings.LawCoveredMeans` | legal_rag/evidence.py:45-47 | a required law is covered by any retrieved law name that contains it or is contained in it |
| `EvidenceFindings.CoveredLabelsMean` | legal_rag/evidence.py:48-53 | an article is covered under the canonical spelling of any retrieved article |
| `EvidenceFindings.CoveredMean` | legal_rag/evidence.py:30-41 | the reported laws and articles are the non-empty ones of the retrieved chunks, once each |
| `EvidenceFindings.RequiredMeans` | legal_rag/evidence.py:120-147 | required are the laws and articles hinted at by the analysis, the normalized query or any plan |
| `EvidenceFindings.MissingSupportMeans` | legal_rag/evidence.py:27-53 | the missing support names exactly that nothing was retrieved, every required law that is not covered and every required article that is not, once each |
| `EvidenceFindings.MissingInOrder` | legal_rag/evidence.py:27-53 | laws are missed before articles |
| `EvidenceFindings.LowCoverageMeans` | legal_rag/evidence.py:55-63 | when exactly which complaint about coverage is made |
| `EvidenceFindings.StopReasonMeans` | legal_rag/evidence.py:70-76 | the stop reason, the missing facts and what a sufficient verdict goes with |
| `EvidenceFindings.FollowupsMean` | legal_rag/evidence.py:150-165 | the queries are the first ones, up to the limit, of those about missing laws and articles, or the question itself |
| `Strings.ComputeUnique` | legal_rag/evidence.py:167-175 | order-preserving deduplication without empty items |
| `Strings.UniqueMeans` | legal_rag/evidence.py:167-175 | every non-empty item once, in the order of first occurrences |
| `Strings.OccursMeans` | legal_rag/evidence.py:45-47 | what it means that one text is part of another |
| `Audit.AuditIgnoresOrder` | legal_rag/experiment_aggregation.py:455-575 | folding the same attempts in any order gives the same audit, or fails as well |
| `Audit.FoldFailsOnConflict` | legal_rag/experiment_aggregation.py:455-575 | folding fails exactly when one fingerprint names two environments, and otherwise keeps each environment |
| `Audit.FoldConserves` | legal_rag/experiment_aggregation.py:426-575 | before rounding, every total is the sum over cache modes and in every stage the origins sum to the trusted attempts |
| `Audit.BlankConserved` | legal_rag/experiment_aggregation.py:426-452 | the blank audit conserves its totals |
| `Audit.FoldCounts` | legal_rag/experiment_aggregation.py:455-575 | the audit counts its attempts |
| `AuditAmounts.AuditIsSum` | legal_rag/experiment_aggregation.py:455-575 | every number of a folded audit, by kind, role, status, failure code, mode, environment, stage and origin, is the sum over the attempts of what each contributes to it |
| `AuditAmounts.EntriesAreContributions` | legal_rag/experiment_aggregation.py:455-575 | what one attempt contributes to every number of the audit |
| `AuditTotals.EnvironmentsAddUp` | legal_rag/experiment_aggregation.py:528-552 | over the environments of an audit, attempts and times sum to those over the cache modes, and the attempts to the trusted attempts |
| `AuditTotals.FoldKeepsOrigins` | legal_rag/experiment_aggregation.py:554-575 | folding keeps the observations of every origin equal to the sum over all stages |
| `AuditTotals.BlankOriginsAddUp` | legal_rag/experiment_aggregation.py:426-452 | and they are equal in the blank audit |
| `Audit.AttemptAudit.AddAttempt` | legal_rag/experiment_aggregation.py:455-575 | the in-place increments leave exactly the ledger the specification adds, or the conflict error |
| `Audit.AttemptAudit.AddAttempts` | legal_rag/experiment_aggregation.py:1687-1735 | adding attempt after attempt is the fold |
| `Aggregation.TrustPrefix` | legal_rag/experiment_aggregation.py:786-829 | the longest prefix accepted case by case, and whether the full readable prefix was rejected |
| `Aggregation.TrustIsPrefixClosed` | legal_rag/experiment_aggregation.py:897-1157 | in a session, once a turn ends up corrupt for any cause, every later turn with attempts is corrupt and none of them publishes a scored record |
| `Aggregation.ScoredTurnsHaveCleanPredecessors` | legal_rag/experiment_aggregation.py:1028-1157 | a scored record needs a trusted turn and no corrupt earlier turn in its session |
| `Verdicts.TrustedLengthMeans` | legal_rag/experiment_aggregation.py:786-829 | the trusted prefix is the whole readable one if the runner accepts that, and otherwise the longest one of which it accepts every prefix |
| `Verdicts.ScoredIff` | legal_rag/experiment_aggregation.py:1028-1157 | a case is published as succeeded, with a valid marker and the decoded record, exactly when its attempts are vouched for, the latest succeeded and decodes to a record of this case, the store counts it as succeeded, its completion marker matches and no earlier turn of its session is corrupt |
| `Verdicts.OtherStatusIff` | legal_rag/experiment_aggregation.py:937-1157 | when exactly a case is pending, never run, or failed, interrupted or exhausted; every other one that is not scored is corrupt |
| `Verdicts.RecordsOfTheLoop` | legal_rag/experiment_aggregation.py:937-1157 | after the loop exactly those cases have a scored record, theirs |
| `Verdicts.ProblemMeans` | legal_rag/experiment_aggregation.py:1028-1135 | a vouched-for case reports the first check it fails, and is corrupt exactly when it fails one |
| `Verdicts.UntrustedProblemMeans` | legal_rag/experiment_aggregation.py:937-1027 | what makes every other case with attempts corrupt |
| `Aggregation.RowsAreAccepted` | legal_rag/experiment_aggregation.py:1438-1613 | every published row satisfies the status rules of the bundle validator, pending rows included, and its count rule exactly when all attempt files of the case were read |
| `Aggregation.UnitAccountsForAttempts` | legal_rag/experiment_aggregation.py:897-1013 | every attempt read from a unit is folded or counted untrusted, once |
| `Aggregation.UnitOutcome` | legal_rag/experiment_aggregation.py:937-1157 | what one round of the unit loop leaves: audit, untrusted count, rows and records |
| `Aggregation.AggregationOutcome` | legal_rag/experiment_aggregation.py:937-1157 | the whole loop fails exactly when trusted attempts disagree about an environment, and otherwise leaves the fold of all trusted attempts, the untrusted count and the rows and records of the trust rule |
| `Aggregation.AggregationAccountsForAttempts` | legal_rag/experiment_aggregation.py:925-1013 | an aggregation that starts with the files of unreadable histories as untrusted ends with trusted plus untrusted attempts equal to the persisted files exactly when the readable histories gave as many attempts as they have files |
| `Aggregation.AcceptedRowsBalance` | legal_rag/experiment_aggregation.py:1640-1665 | when every row satisfies the validator, its equation of trusted, untrusted and persisted attempts holds |
| `Aggregation.RecomputedAuditAgrees` | legal_rag/experiment_aggregation.py:1640-1735 | rows of the folded attempts, in any order, recompute to the same audit |
| `Aggregation.PublishedRowsRecompute` | legal_rag/experiment_aggregation.py:1640-1735 | the published rows, listed in any order of cases, and the published environment catalog recompute to exactly the audit built during aggregation |
| `Aggregation.RecomputeAudit` | legal_rag/experiment_aggregation.py:1687-1735 | the validator loop computes the recomputed audit or fails |
| `Aggregation.Aggregator.SetCorrupt` | legal_rag/experiment_aggregation.py:770-783 | one row becomes corrupt, unscored and unmarked |
| `Aggregation.Aggregator.SettleSuffix` | legal_rag/experiment_aggregation.py:945-981 | cases behind the trusted prefix are corrupted and counted |
| `Aggregation.Aggregator.SettleTrusted` | legal_rag/experiment_aggregation.py:983-1135 | one trusted case: attempts into row and audit, then its verdict |
| `Aggregation.Aggregator.WithdrawFollowers` | legal_rag/experiment_aggregation.py:1137-1157 | every turn behind a corrupt one is withdrawn |
| `Aggregation.Aggregator.ProcessUnit` | legal_rag/experiment_aggregation.py:937-1157 | one work unit as a function of the state before |
| `Aggregation.Aggregator.Aggregate` | legal_rag/experiment_aggregation.py:937-1157 | all work units as a function of the state before |
| `Aggregation.AggregateExperiment` | legal_rag/experiment_aggregation.py:925-1157 | the aggregation from blank rows and audit on: when it raises, the audit, rows and records it leaves, and balanced counts when all files were read |
| `Codecs.ResultRoundTrip` | legal_rag/evaluation_artifacts.py:486-592 | a search result that passes the checks decodes back from its artifact |
| `Codecs.AdaptiveRoundTrip` | legal_rag/chat_artifacts.py:623-689 | adaptive results decode back |
| `Codecs.AnswerRoundTrip` | legal_rag/chat_artifacts.py:390-470 | structured answers decode back |
| `Codecs.CheckpointRoundTrip` | legal_rag/chat_artifacts.py:692-738 | session checkpoints decode back |
| `Codecs.RawRoundTrip` | legal_rag/chat_artifacts.py:1189-1221 | raw responses decode back |
| `Canonical.ResultDecodedIff` | legal_rag/evaluation_artifacts.py:486-592 | exactly the spellings of a valid result are decoded to it: as it is written, with its score as any JSON number, or without the field for a provenance it does not have |
| `Canonical.AnswerBack` | legal_rag/chat_artifacts.py:390-470 | a structured answer is decoded from exactly the JSON it is written to |
| `Canonical.CheckpointBack` | legal_rag/chat_artifacts.py:692-738 | the same for session checkpoints |
| `SourceMaps.UnfilteredMeans` | legal_rag/chat_artifacts.py:863-910 | without rejected evidence, the mapping check accepts exactly distinct ranks, the order-preserving source map and the renumbered results |
| `SourceMaps.ScopeFilteredMeans` | legal_rag/chat_artifacts.py:797-860 | with rejected evidence, it accepts exactly one renumbering of distinct unrejected IDs, recorded in every trace |
| `SourceMaps.ValidateUnfiltered` | legal_rag/chat_artifacts.py:863-910 | the loop decides the mapping check |
| `SourceMaps.SourceIdInjective` | legal_rag/chat_artifacts.py:58 | different ranks have different source IDs |
| `ArtifactChain.OpenedIffWrapped` | legal_rag/chat_artifacts.py:147-168 | opening an envelope is the exact inverse of wrapping a payload |
| `ArtifactChain.PreparedForgetsRevisions` | legal_rag/chat_artifacts.py:692-742 | two preparations have one artifact exactly when only their revisions differ |
| `ArtifactChain.PreparedRebinds` | legal_rag/chat_artifacts.py:745-780 | a prepared artifact is accepted exactly by an assistant in the state it came from, and gets its revisions |
| `Canonical.PreparedDecodedIff` | legal_rag/chat_artifacts.py:745-780 | an artifact is decoded to a preparation exactly when that is what the assistant would prepare now and the artifact is the one it is written to |
| `ArtifactChain.RetrievedRoundTrip` | legal_rag/chat_artifacts.py:992-1124 | retrieved turns decode back to equal values |
| `ArtifactChain.RetrievedDecodesOnlyAgainstItsQuestion` | legal_rag/chat_artifacts.py:1039-1124 | decoding succeeds exactly beside a question with the hashed artifact |
| `Canonical.RetrievedDecodedIff` | legal_rag/chat_artifacts.py:1039-1124 | beside a question, exactly those artifacts are decoded that spell a valid and accepted turn over it and carry the hash of its artifact |
| `ArtifactChain.RetrievedArtifactIdentifies` | legal_rag/chat_artifacts.py:992-1036 | turns with one artifact differ only in the revisions of their question |
| `ArtifactChain.LegacyHashesOnlyWhenUnbound` | legal_rag/chat_artifacts.py:1158-1174 | the two older hashes are candidates exactly when the turn has no boundary and no provenance |
| `ArtifactChain.BoundaryFreeArtifactDecodes` | legal_rag/chat_artifacts.py:1045-1139 | an artifact without the boundary field decodes to its turn |
| `ArtifactChain.CurrentHashIdentifies` | legal_rag/chat_artifacts.py:1158-1174 | the current hash of one turn is a candidate of another exactly when their artifacts are equal |
| `ArtifactChain.GeneratedRoundTrip` | legal_rag/chat_artifacts.py:1314-1378 | generated turns decode back to equal values |
| `ArtifactChain.GeneratedDecodesOnlyAgainstItsEvidence` | legal_rag/chat_artifacts.py:1340-1378 | decoding succeeds exactly beside a retrieved turn with the hashed artifact |
| `Canonical.GeneratedDecodedIff` | legal_rag/chat_artifacts.py:1340-1378 | beside a retrieved turn, exactly those artifacts are decoded that some generated turn over it is written to under a hash it answers to, to that turn |
| `ArtifactChain.LegacyChainIffUnbound` | legal_rag/chat_artifacts.py:1142-1174 | beside its own turn, a generated artifact carrying an older hash of it is accepted exactly when the turn is unbound |
| `ArtifactChain.CollectGeneratedHashes` | legal_rag/chat_artifacts.py:1470-1477 | the loop collects exactly the candidate hashes |
| `ArtifactChain.GeneratedHashIdentifies` | legal_rag/chat_artifacts.py:1470-1477 | the current hash of one generated turn is a candidate of another exactly when their artifacts are equal |
| `ArtifactChain.VerifiedRoundTrip` | legal_rag/chat_artifacts.py:1438-1525 | verified turns decode back to equal values |
| `ArtifactChain.VerifiedDecodesOnlyAgainstItsDraft` | legal_rag/chat_artifacts.py:1480-1525 | decoding succeeds exactly beside a generated turn with the hashed artifact |
| `Canonical.VerifiedDecodedIff` | legal_rag/chat_artifacts.py:1480-1525 | the same for verified artifacts beside a generated turn |
| `ArtifactChain.ChainRoundTrip` | legal_rag/chat_artifacts.py:992-1525 | the three artifacts of a turn read back in a row, each against what the one before gave |
| `LegacyShapes.StripIsInjective` | legal_rag/chat_artifacts.py:1142-1155 | a value without search-result envelopes is the only one that strips to it |
| `LegacyShapes.StripForgetsIffEnvelope` | legal_rag/chat_artifacts.py:1142-1155 | stripping is ambiguous exactly when the value contains an envelope |
| `LegacyHashes.OldestHashIdentifiesPlainTurns` | legal_rag/chat_artifacts.py:1158-1174 | the oldest hash of a turn that hides no envelope belongs to no turn with another artifact |
| `LegacyTwins.OldestHashIsSharedIffEnvelopeHidden` | legal_rag/chat_artifacts.py:1142-1174 | the oldest hash is shared with a turn of another artifact exactly when an envelope hides in a result, the merge trace or the planning details |
| `LegacyTwins.HiddenEnvelopesCollide` | legal_rag/chat_artifacts.py:1142-1174 | a turn that hides an envelope and its twin, with other provenance inside, are both written, with one oldest shape and two artifacts |
| `LegacyTwins.OldestHashAnswers` | legal_rag/chat_artifacts.py:1158-1174 | the oldest hash of a turn is a candidate of another exactly when that one is unbound and has the same oldest shape |
| `LegacyTwins.BoundaryFreeIdentifies` | legal_rag/chat_artifacts.py:1171-1172 | turns share the shape without a boundary exactly when they share their artifact |
| `LegacyTwins.BoundaryFreeHashAnswers` | legal_rag/chat_artifacts.py:1158-1174 | the hash of the shape without a boundary is, for a turn with results, a candidate of exactly the turns with the same artifact |
| `LegacyTwins.OldestChainIff` | legal_rag/chat_artifacts.py:1340-1380 | a generated artifact with the oldest hash is accepted exactly beside unbound turns of the same oldest shape that its answer fits |
| `LegacyTwins.BoundaryFreeChainIff` | legal_rag/chat_artifacts.py:1340-1380 | a generated artifact with the boundary-free hash is accepted exactly beside turns with the same artifact and, without results, beside turns whose oldest shape it is and that its answer fits |
| `LegacyTwins.HiddenEnvelopesConfuseDecoder` | legal_rag/chat_artifacts.py:1340-1380 | when its turn hides an envelope, a generated artifact with the oldest hash is accepted beside two turns with different artifacts |
| `LegacyTwins.VerifiedOverHashIff` | legal_rag/chat_artifacts.py:1470-1525 | a verified artifact over any retrieved hash is accepted exactly beside the same generated turn on top of evidence that answers to that hash |
| `LegacyTwins.OldestVerifiedIff` | legal_rag/chat_artifacts.py:1470-1525 | a verified artifact over the oldest hash is accepted exactly beside the same generated turn on unbound evidence of the same oldest shape |
| `LegacyTwins.BoundaryFreeVerifiedIff` | legal_rag/chat_artifacts.py:1470-1525 | the same over the boundary-free hash: evidence with the same artifact or, without results, with that oldest shape |
| `ResultChecks.UnboundCheckSeesNoProvenance` | legal_rag/evaluation_artifacts.py:520-580 | the checks on chunk fields and boundary markers of a result without provenance see nothing that stripping removes |
| `ResultChecks.OldestHashIsSharedIffHidden` | legal_rag/chat_artifacts.py:1142-1174 | under these checks, the oldest hash of an unbound turn is shared with another artifact exactly when the turn hides an envelope |
| `ResultChecks.HiddenEnvelopesConfuse` | legal_rag/chat_artifacts.py:1340-1380 | under these checks, a generated artifact of any kind that carries the oldest hash of such a turn is accepted beside two turns with different artifacts |
| `LegacySample.OneArtifactBesideTwoTurns` | legal_rag/chat_artifacts.py:1142-1174 | such turns and such an artifact exist: a planner trace that quotes a search result |
| `MergePlans.RetrieveAndMergePlans` | legal_rag/adaptive.py:165-245 | the nested loops compute the merge, or the error |
| `MergePlans.TableMeans` | legal_rag/adaptive.py:176-206 | the tables exist exactly when no chunk ID has two payloads, and hold each chunk's first best hit and all its sources |
| `MergePlans.MergeFailsIff` | legal_rag/adaptive.py:165-245 | merging fails exactly on a bad limit, a plan outside the boundary or one chunk ID with two payloads |
| `MergePlans.MergeIsTopK` | legal_rag/adaptive.py:208-245 | the results are the first k chunks under smallest source rank, best score, ID, with maximum scores and ranks 1 to n |
| `MergePlans.MergedIdsDiffer` | legal_rag/adaptive.py:208-245 | no two results are one chunk |
| `MergePlans.MergeIgnoresPlanOrder` | legal_rag/adaptive.py:165-245 | permuting the plans changes neither failure nor chunks, payloads, scores and ranks |
| `MergePlans.MergedStaysInBounds` | legal_rag/adaptive.py:237 | the boundary check of the merged results never fires |
| `MergePlans.ResultsMatchBoundary` | legal_rag/retrieval.py:58-91 | the loop over the results decides that all are well formed and admitted and that no rank is used twice |
| `MergePlans.BestSourceRankMeans` | legal_rag/adaptive.py:356-360 | the smallest non-zero source rank, or the default |
| `MergedResults.RetrievedMeans` | legal_rag/adaptive.py:165-180 | what is merged are the hits of every plan under its number, in order |
| `MergedResults.SourcesMean` | legal_rag/adaptive.py:181-206 | the sources kept of a chunk are those of every hit of it, in order |
| `MergedResults.MergedHitsMean` | legal_rag/adaptive.py:208-245 | each result is the first best hit on its chunk, under its place, its retriever marked, with all sources of the chunk and their best rank in its trace |
| `MergePlans.OrderIsUnique` | legal_rag/adaptive.py:208-215 | keys can be put in order in one way only |
| `FollowupMerge.MergeFollowupResults` | legal_rag/adaptive.py:312-349 | the loop computes the merge, or the error |
| `FollowupMerge.FollowupIsTopK` | legal_rag/adaptive.py:312-349 | the results are the first k chunks under best score, rank of the first hit with it, ID; failure exactly on a bad limit or conflicting payloads |
| `FollowupMerge.FollowupOrderMatters` | legal_rag/adaptive.py:312-349 | results of two follow-up queries whose order decides which chunk is returned |
| `FollowupMerge.RankingIgnoresOrderIff` | legal_rag/adaptive.py:312-349 | the ranking is the same for every order of the hits exactly when hits that tie for the best score of a chunk share their rank |
| `FollowupMerge.ResultsIgnoreOrderIff` | legal_rag/adaptive.py:312-349 | as long as some limit reaches all chunks, the results or the error are the same for every order and split of the hits exactly under that condition, or when payloads conflict anyway |
| `FollowupMerge.RunBoundedFollowup` | legal_rag/adaptive.py:248-309 | the method computes its specification |
| `FollowupMerge.RoundOutcome` | legal_rag/adaptive.py:248-309 | there is at most one round, exactly when it is needed, allowed and has queries; otherwise nothing but the stop reason changes |
| `MergedResults.GatheredMeans` | legal_rag/adaptive.py:284-295 | the hits of a round are those of its queries, in query order |
| `MergedResults.RoundResults` | legal_rag/adaptive.py:248-309 | a round returns and checks the first k chunks of the initial hits followed by those of every query, with one count per query |
| `MergedResults.FollowupsInOrder` | legal_rag/adaptive.py:312-349 | results come with the best score first, then by the rank they were found with, then by ID |
| `MergedResults.FollowupsLeftOut` | legal_rag/adaptive.py:312-349 | a hit is left out only for one at least as good on its chunk, or when the limit is reached by results at least as good |
| `MergedResults.NoRoundReason` | legal_rag/adaptive.py:248-283 | when no round is asked, which stop reason is given |
| `FollowupMerge.FollowupStaysInBounds` | legal_rag/adaptive.py:297 | the boundary check of the merged results never fires |
| `Chunking.SentencesTile` | legal_rag/chunking.py:155-157 | the sentences joined are the text |
| `Chunking.SplitLongText` | legal_rag/chunking.py:154-174 | the loops return the trimmed texts of the pieces |
| `Chunking.SplitIsWellCut` | legal_rag/chunking.py:154-174 | pieces run from start to end without gaps, have at most limit characters, repeat at most overlap, add new text each, and end at a sentence that would not fit or inside one that is too long |
| `Chunking.SplitLosesNothing` | legal_rag/chunking.py:154-174 | the new text of each piece, joined, is the text |
| `Chunking.ProgressIff` | legal_rag/chunking.py:168-171 | the inner loop makes progress exactly when the overlap is smaller than the limit |
| `Chunking.CuttingEndsIff` | legal_rag/chunking.py:168-171 | for any limit and overlap the inner loop ends exactly when there is nothing to cut, or the limit is not negative and the overlap smaller |
| `Chunking.CoversIff` | legal_rag/chunking.py:154-174 | no text is skipped exactly when the overlap is not negative or no sentence is too long |
| `Chunking.NeighborWindows` | legal_rag/chunking.py:41-76 | which articles of one file, in line order, each chunk joins, or the error |
| `Chunking.FixedParts` | legal_rag/chunking.py:112-151 | the parts of the joined text of one file, or the error |
| `Chunking.WindowsHoldAllIff` | legal_rag/chunking.py:60-61 | windows hold every position exactly when the step is not larger than the size or one window is enough |
| `Chunking.WindowsMean` | legal_rag/chunking.py:41-76 | there is one window for each multiple of the step below n, starting there and as long as the size or as what is left |
| `Chunking.PartsMean` | legal_rag/chunking.py:112-151 | the parts are, under ascending numbers, the trimmed cuts at the multiples of the step that hold more than white space |
| `LawParsing.FindArticleHeaders` | legal_rag/data.py:89-104 | the loop computes the headers |
| `LawParsing.HeadersOrdered` | legal_rag/data.py:89-104 | header spans are increasing and disjoint |
| `LawParsing.BuildWithLawSegments` | legal_rag/data.py:107-125 | the segments between matches |
| `LawParsing.BuildWithoutLawSegments` | legal_rag/data.py:128-147 | the segments between headers |
| `LawParsing.SplitLineIntoArticles` | legal_rag/data.py:62-80 | leading text and segments of a line |
| `LawParsing.SplitTiles` | legal_rag/data.py:62-147 | leading text and segments hold the line, up to white space and dropped decoration |
| `LawParsing.DroppedIsDecoration` | legal_rag/data.py:71-78 | only decoration is dropped |
| `LawParsing.ParseLawFile` | legal_rag/data.py:157-248 | the loop computes the articles |
| `LawParsing.ParsingConservesText` | legal_rag/data.py:157-248 | the articles' raw texts, in order, are the kept lines, in order, up to white space |
| `LawParsing.UnmatchedOnlyFirst` | legal_rag/data.py:157-248 | only the first article of a file can be unmatched |
| `ParsedArticles.HeadersMean` | legal_rag/data.py:89-104 | the headers of a line are the match that opens it and those behind a sentence end that do not begin inside it |
| `ParsedArticles.ArticlesMean` | legal_rag/data.py:157-248 | one article for each header of the kept lines, in order, with the law, number and line of that header; its body is its raw text behind the header; only text before the first header makes one more |
| `ParsedArticles.BodyMeans` | legal_rag/data.py:51-59 | a line counts, without the white space around it and up to a title at its end, exactly when it is neither blank nor itself a title |
| `ParsedArticles.OpeningMeans` | legal_rag/data.py:157-248 | the first line that counts opens the first article; without a header, under the law of the file |
| `ParsedArticles.RawTextsMean` | legal_rag/data.py:157-248 | the raw texts of the articles, joined with line breaks, are exactly the pieces of the kept lines, joined with line breaks |
| `ParsedArticles.ArticlesGrow` | legal_rag/data.py:157-248 | whatever follows the segment an article began with is added to its raw text and to its body alike |
| `ParsedArticles.PiecesTrimmed` | legal_rag/data.py:62-147 | segments have no white space around them, and text before the first one is only kept when there is some, before a plain header when it is not mere decoration |
| `EvalSequence.ValidateEvalCases` | legal_rag/evaluation.py:86-122 | the loop accepts exactly the accepted lists |
| `EvalSequence.AcceptedIffBlocks` | legal_rag/evaluation.py:86-122 | accepted exactly when every case is valid, IDs are unique and every group is one block with turns 0 to n - 1 |
| `EvalSequence.EvaluateCases` | legal_rag/evaluation.py:247-261 | the memories the reset rule leaves |
| `EvalSequence.MemoryStaysInRun` | legal_rag/evaluation.py:254-261 | on any list, memory holds turns of the unbroken run of a group, and turns the caller brought along only when preserved, within the first run |
| `EvalSequence.MemoryIsOwnGroup` | legal_rag/evaluation.py:247-261 | on accepted lists, memory holds only earlier turns of the case's own group, which directly precede it, and preserved turns only up to the end of the opening group |
| `EvalSequence.MemoryIsWholeGroup` | legal_rag/evaluation.py:247-261 | when answering keeps all turns, memory on accepted lists holds exactly the earlier turns of the case's group, and what the caller asked to preserve exactly through the first group |
| `EvalSequence.NewRunStartsEmpty` | legal_rag/evaluation.py:254-261 | between groups, and before every case without one, memory is empty |
| `Registry.ValidateDerived` | legal_rag/experiment_datasets.py:736-754 | the loop decides whether every case is an unchanged parent case |
| `Registry.Loader.LoadOne` | legal_rag/experiment_datasets.py:300-323 | one dataset and its parents are loaded, parents first, each file once, or there is a fault or a cycle |
| `Registry.Loader.LoadAll` | legal_rag/experiment_datasets.py:300-329 | loading succeeds exactly when every dataset is sound with a registered parent and no cycle exists; then each was read once, after its parent |
| `Registry.AncestorsEarlier` | legal_rag/experiment_datasets.py:300-323 | parents first means that ancestors come earlier, so there is no cycle |
| `Registry.CasesComeFromEveryAncestor` | legal_rag/experiment_datasets.py:736-754 | every case is unchanged in every transitive ancestor |
| `Registry.DerivesIff` | legal_rag/experiment_datasets.py:736-754 | a dataset derives from its parent exactly when each of its cases stands unchanged in the parent, as the last one of its ID there |
| `Embeddings.DecodeEmbeddingResponse` | legal_rag/embeddings.py:373-410 | succeeds exactly on a permutation of the indexes with valid vectors of one, the expected, dimension, and places each vector at its index |
| `Embeddings.NoIndexMissing` | legal_rag/embeddings.py:408-409 | the check for a missing index can never fire |
| `Embeddings.DecodesMeans` | legal_rag/embeddings.py:373-410 | a response is decoded to these vectors exactly when it sends each of them under its place, one for each text, and they have one dimension, not zero and the expected one |
| `Embeddings.StartDimension` | legal_rag/embeddings.py:184-217 | which configurations are refused and with which dimension an encoder starts |
| `Embeddings.Encoder.CreateEmbeddings` | legal_rag/embeddings.py:301-341 | a known dimension is kept and every vector has it, over the encoder's lifetime |
| `Embeddings.Encoder.EncodeDocuments` | legal_rag/embeddings.py:267-283 | succeeds exactly when every batch decodes under the dimension known by then; the vectors are in the order of the texts, batch by batch |
| `Embeddings.EncodedMeans` | legal_rag/embeddings.py:267-283 | the vector of the i-th text is the one sent with index i % size by call number i / size, which asks for the texts of that batch |
| `Embeddings.AllDecodeMeans` | legal_rag/embeddings.py:267-341 | encoding succeeds exactly when every call answers for its batch, in the dimension given or that of the first call |
| `Statistics.PercentileInRange` | legal_rag/evaluation.py:663-675 | between smallest and largest value, reaching them at 0 and 1 |
| `Statistics.PercentileMonotone` | legal_rag/evaluation.py:663-675 | a larger quantile never gives less |
| `Statistics.PercentileIgnoresOrder` | legal_rag/evaluation.py:663-675 | the order of the values plays no part |
| `Statistics.PercentileIsLinear` | legal_rag/evaluation.py:663-675 | the straight line between the two sorted values around position (n - 1) q |
| `Statistics.BootstrapIndexes` | legal_rag/evaluation.py:458-461 | both indexes are in range and ordered |
| `Statistics.BootstrapWithinData` | legal_rag/evaluation.py:438-462 | before rounding, the bounds are ordered and within the range of the data |
| `Statistics.BootstrapBounds` | legal_rag/evaluation.py:438-462 | of the sorted means of the resamples, the bounds are the ones at a share of (1 - confidence) / 2 from either end |

## Left out

- Floating-point rounding, the order floating-point sums are added in, and non-finite scores: reals stand for them; rounding of published scores is modelled in `Scoring.dfy` only.
- `_finish_audit`: sorting, rounding and means of an already folded audit; conservation is stated before rounding.
- Symbolic links, path safety, temporary-file names, fsync, permissions: a publisher's link-if-absent is one step.
- Lock scheduling, threads and asynchronous calls inside one process.
- Type errors: values have the types the code checks for, so the errors for a wrong type do not appear, except where JSON is decoded.
- Python equality between `True` and `1` or `1` and `1.0` inside nested JSON; JSON values here are equal only when identical.
- Lone surrogates in the modules that use Dafny strings; the chat modules use code points and do treat them.
- The remaining fields of query analyses, evidence checks, verifications, adaptive results and provenances: each is carried as one JSON value (`detail`) that encoders and decoders copy, without the per-field type checks.
- The consistency of a provenance with its chunk, when a search result is decoded: part of the predicate `Codecs.ResultCheck`.
- `_strip_search_result_provenance` pops keys in place; `LegacyShapes.Strip` builds the value it leaves.
- Decoded evaluation records are built as values; rewriting their dictionaries in place, and redaction and trace records, are not modelled.
- `verify_answer`, `parse_structured_answer`, `analyze_query`, retrieval, prompts and rendered answers: parameters of the model. Of the verifier only what `Staging.Reports` says is used.
- The stage identity and usage checks between an output and the runner's history are part of one decoding result per case (`Aggregation.Proof`).
- Which attempt files an unreadable history holds: only their number counts.
- `long_split_chunks`, `find_related_articles`, chunk metadata and stable IDs: easy once the loops they sit beside are modelled; article IDs are kept as the terms they are hashed from.
- `load_articles` deduplication and reading files from disk; a law file is its list of lines.
- The 4300-digit limit of Python's `int()` on article numbers written in digits.
- `merge_followup_turn`, streaming, the web service, task queues and databases, reports, CSV and Markdown rendering, configuration, corpus fetching.
- Writes to `memory.messages` that bypass the methods, which would leave the memory revision unchanged.
- The validator's rules on the spelling of hashes, timestamps and latest cache modes, and on the lists of case IDs: easy beside the rules on statuses and counts.
- Chunking.SplitLongText: the limit is not negative, because with a negative one the loop never ends (`Chunking.CuttingEndsIff`).
- Chunking.NeighborWindows: grouping articles by file and sorting them by line come before it and are not modelled.
- Chunking.FixedParts: the same, and the articles a part is related to are not modelled.
- Scoring.ScorerSatisfiesDecoder: of the decoding of search results only the rule on ranks is part of it.
- Codecs.ResultRoundTrip: the checks of chunk fields, boundary markers and provenance are one parameter; for results without provenance `ResultChecks.UnboundResult` writes them out.
- Codecs.AdaptiveRoundTrip: plans, normalized query, planner trace and follow-up trace are one JSON value.
- ArtifactChain.LegacyChainIffUnbound: speaks of the turn's own evidence; for other turns see `LegacyTwins.OldestChainIff` and `LegacyTwins.BoundaryFreeChainIff`, and for verified artifacts `LegacyTwins.OldestVerifiedIff`.
- LegacyTwins.OldestHashIsSharedIffEnvelopeHidden: the query analysis and the evidence check hold no envelope, being records of texts and flags, and of a result without provenance the checks look at chunk and trace only where stripping leaves them alone; `ResultChecks.UnboundCheckSeesNoProvenance` shows that of the source's checks.
- LegacyTwins.HiddenEnvelopesConfuseDecoder: for retrieval-only turns the rendered text must be that of the twin; `ResultChecks.HiddenEnvelopesConfuse` needs only that it shows ranks and chunk texts, as the source's rendering does.
- FollowupMerge.ResultsIgnoreOrderIff: when there are more chunks than the largest limit, ties below it cannot show; `FollowupMerge.RankingIgnoresOrderIff` has no such bound.
- SourceMaps.SourceIdInjective: ranks are natural numbers; results that can be written have ranks from 1 on, and a negative rank counts as 0.
