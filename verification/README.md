# CAOS server: verified model

A Dafny model of the logic-heavy parts of the CAOS server (`caos/server`), with proofs of the properties those parts
exist for. `dafny verify dfyconfig.toml` checks the whole project.

## What is modelled

**The C3 alert pipeline.** An observation of a signal is claimed once per tenant and observation key, evaluated against
one rule version, and a match is materialized as one event, one context and one delivery intent per approved sink; a
delivery worker then leases intents, renders outside storage, and finishes in a second transaction.

- `Json` gives canonical JSON values and their byte size; `Evaluation` is rule evaluation with its two stages of
  evidence truncation; `Materialization` is the check that re-derives the decision from the stored row.
- `Schedule` and `Delivery` are the two lease protocols, one row and one guarded atomic statement at a time, with
  arbitrary clock readings; `ScheduleTable` and `DeliveryTable` are the classes whose methods update the tables.
- `Pipeline` states every transaction over the shared tables, `ExactlyOnce` proves what holds over all interleavings of
  scheduled workers, completed-run triggers, replays, operator edits, lost leases, rollbacks and crashes (a crash is a
  transaction that did not happen), and `AlertDatabase` runs the same transactions step by step with rollback.
  `CommittedAlerts` states what a commit writes, column by column, and for which rules; `AlertExamples` holds concrete
  environments and runs.
- `Base64` and `Replay` are the reconciliation cursor and the keyset paging over completed runs.

**The debt engine.** `Calendar` is the month arithmetic of reporting dates. `DebtEngine` is one instrument-period row over
real numbers: every node can be overridden by a number or by null, and the circular PIK close is solved in closed form.
`DebtSchedule` is the whole calculation with its nested loops, its period totals, its gaps and its status, and
`DebtReadiness` says exactly when it is ready and what every figure is then.

**The model workbook.** `FormulaGraph` is the iterative depth-first search for circular references; `SheetText` is the
apostrophe guard for text cells; `DebtSheet` is the debt sheet's export and its regrouping on import.

**Lineage.** `ContextLineage` is the canonical merge of artifact references, `Lineage` one reconciliation pass over fixed
domain rows and its convergence, `LineageLedger` the loops that compute the pass.

**Text and facts.** `ChunkWindows` and `Chunker` are the token-bounded chunker (`Strings` holds the string operations it
shares with the sheets); `FactCollapse` compares the pairwise fact comparator with the SQL window that replaced it.

## Findings

Properties that the code does not have in the form one might expect. Each comes with an input that shows it and with the
condition under which it holds, which is exact unless said otherwise.

- The materializer refuses its own evaluator's candidate when the full detail equals its own omission marker
  (`Materialization.CheckerAcceptsProducer`); `AlertExamples.OwnMarkerRefused` is such an observation for a hash that
  returns a constant. Whether SHA-256 itself has such a detail is open.
- A match is refused with a collision error exactly when a matched row has its observation key already
  (`ExactlyOnce.CreatedOutcome`). That row is another tenant's and hashes alike without being alike
  (`ExactlyOnce.TakenMeansHashCollision`), and `AlertExamples.MatchCommitsAndTwinCollides` reaches the error. No result
  assumes that the hash is injective.
- A dispatched claim is not always finished: `dispatch_once` hands a refused render on to completion, because `rendered`
  is already assigned when the validation raises. Finished in time, the row stays leased if and only if the render is
  not a sink intent, does not revalidate or does not answer the lease, whatever other workers do in between
  (`DeliveryTable.LeasedIffRefused`).
- The second `apply` pass of the lineage reconciliation can still have work: a manifest that only a report names is
  expanded one pass later (`Lineage.SecondPassCanWork`, exactly when in `Lineage.SecondPassIdleIff`).
- The third pass is idle if and only if no kept edge has a damaged row, one that holds the edge's idempotency key but not
  its columns (`Lineage.ThirdPassIsIdle`). Such an edge is proposed, and counted as applied, by every pass
  (`Lineage.DamagedForever`, `Lineage.DamagedReport`).
- `_shift_months` composes only for the dates named in `Calendar.ShiftComposes`; 30 January one month on and back is
  31 January.
- The fact window and the pairwise comparator agree in every order exactly when one fact of the top tier is strictly
  newest (`FactCollapse.WindowIsFold`); missing or tied dates make some order disagree.
- A debt sheet comes back unchanged exactly under the conditions of `DebtSheet.RoundTripIff`: among others, an
  instrument without periods is lost, and an undated authority picks up the importer's default date.
- A cursor comes back exactly when its run identifier has 1 to 255 characters and its payload at most 1536 bytes, which
  is where the decoder's limit of 2048 characters lies (`Replay.CursorRoundTrip`).
- The circular-reference scan can leave out a cell on a cycle: `FormulaGraph.SearchCanMiss` is a search of four cells
  that does. It reports exactly the cells on cycles, in every order of roots and targets, when no reference lies on two
  different cycles (`FormulaGraph.ApartReportsAll`). That condition is sufficient and not necessary: three cells that all
  refer to each other share references and are always reported.

## Parameters

SHA-256 is any function into 64 hexadecimal digits. Identifiers from `uuid4` are fresh. The
ISO timestamp parser, JSON text conversion, the token counter, the period-alias normalizer, the reference visibility
check, the outcome of triggering a run, the ranges of a debt period and the clocks are parameters. Validated records stand for what Pydantic accepts.

## Model

| member | source | states |
|---|---|---|
| Json.StringListSize | caos/server/alert_dispatch.py:189-212 | a list of n texts of at most L characters takes between 3n+1 and (6L+3)n+1 canonical bytes, the bounds the marker check assumes |
| Evaluation.BoundedEvidenceFits | caos/server/alert_evaluation.py:150-170 | for every valid observation the truncated evidence is at most 65536 canonical bytes |
| Evaluation.BoundEvidence | caos/server/alert_evaluation.py:150-170 | rewriting the evidence field by field gives the full, detail-omitted or all-omitted shape, and it fits |
| Evaluation.MatchedCandidateValid | caos/server/alert_evaluation.py:173-251 | every matched decision satisfies all bounds of the candidate contract, whatever the observation and truncation |
| Evaluation.AllOmittedHasRefs | caos/server/alert_evaluation.py:150-170 | references are only omitted when there are some, so the counted marker is never empty |
| Evaluation.NumericDecision | caos/server/alert_evaluation.py:94-107 | a numeric rule with a threshold matches when the value is greater, at least, less, at most or equal, as its operator says, and is ignored otherwise |
| Evaluation.CategoricalDecision | caos/server/alert_evaluation.py:110-125 | a categorical `eq` matches exactly the same text or the same number, and ignores another of its kind |
| Evaluation.PresentDecision | caos/server/alert_evaluation.py:94-112 | `present` always matches a categorical signal, and a numeric one exactly when it carries a number |
| Evaluation.RejectedIff | caos/server/alert_evaluation.py:173-213 | each of the six rejections, exactly when it is given |
| Evaluation.MatchCarries | caos/server/alert_evaluation.py:214-251 | a match carries the columns of its observation and its rule unchanged, and the run that the last run field of the detail names |
| Evaluation.MatchShows | caos/server/alert_evaluation.py:150-170 | the evidence is the whole observation if and only if that fits 65536 bytes, and the authority names rule, version, source and key |
| Materialization.MarkerSizeOfCounted | caos/server/alert_dispatch.py:189-212 | the producer's counted marker is always well formed and gives back the size it replaced |
| Materialization.RecoveredFromProduced | caos/server/alert_dispatch.py:223-309 | what the checker recovers from the producer's evidence in each of the three shapes |
| Materialization.CheckerAcceptsProducer | caos/server/alert_dispatch.py:312-380 | the candidate of a match is accepted on its stored evaluation if and only if it is not a full-shape detail equal to its own omission marker |
| AlertExamples.OwnMarkerRefused | caos/server/alert_dispatch.py:244-264 | a valid observation, matched in full shape, whose candidate the materializer refuses |
| Materialization.AcceptedIsRerun | caos/server/alert_dispatch.py:312-380 | an accepted candidate equals the re-run decision, up to the two markers when references were omitted |
| Materialization.AcceptedIdentity | caos/server/alert_dispatch.py:312-380 | an accepted candidate, its row and its version agree on every column of identity, and the row is not decided otherwise |
| Materialization.AcceptedObservation | caos/server/alert_dispatch.py:283-309 | what is rebuilt for an accepted candidate is a valid observation of the stored row |
| Materialization.AcceptedEvidence | caos/server/alert_dispatch.py:223-309 | accepted evidence is about the stored observation and truncated no further than its size made it |
| Materialization.MarkerSizeIff | caos/server/alert_dispatch.py:189-212 | exactly the markers with 1 to 64 references, a size possible for them and a hash are taken for one |
| Schedule.ElapsedExact | caos/server/alert_triggers.py:419-437 | splitting an elapsed time into days, seconds and microseconds is exact and unique |
| Schedule.NextSlotLeast | caos/server/alert_triggers.py:419-437 | the next slot is the base plus the least number of intervals that is after now; none exactly when no representable time is such a slot |
| Schedule.ClaimWrites | caos/server/alert_triggers.py:324-359 | a claim moves a row exactly when it is active, due, free and below five attempts; it leases it for five minutes as the next attempt and changes nothing else |
| Schedule.ReapWrites | caos/server/alert_triggers.py:249-290 | a reap moves exactly an active row whose fifth lease has expired, and pauses it |
| Schedule.CompleteWrites | caos/server/alert_triggers.py:475-499 | a completion moves exactly the row it holds, when a slot after now is representable: to the first such slot, free and with no attempts |
| Schedule.FailWrites | caos/server/alert_triggers.py:502-534 | a failure moves exactly the row it holds: to one, two, four or eight minutes later, or paused after the fifth |
| Schedule.EditRefused | caos/server/watch_rules.py:443-530 | an edit is refused exactly for an impossible schedule or the schedule of a leased rule |
| Schedule.EditWrites | caos/server/watch_rules.py:521-580 | an accepted edit writes the patch and the next version, and resets the attempts exactly on resuming after a fifth or on leaving the schedule |
| Schedule.StepKeepsLive | caos/server/alert_triggers.py:235-290 | claim, reap, complete, fail and operator update each keep the table constraints and "attempt five is leased or paused" |
| ScheduleTable.FirstExists | caos/server/alert_triggers.py:264-271 | ordering by time and identifier picks one row, and only one |
| ScheduleTable.ClaimsEarliest | caos/server/alert_triggers.py:306-345 | the claimed rule can be claimed and is due before every other that can, by time and then identifier; none is claimed exactly when none can be |
| ScheduleTable.ReapsEarliest | caos/server/alert_triggers.py:260-290 | the same of the reaped rule, by expiry |
| Schedule.NeverWedged | caos/server/alert_triggers.py:324-393 | after any run, an enabled unpaused scheduled rule has a due time and, its times passed, is claimable or reapable and exactly one of the two |
| Schedule.AtMostFiveClaims | caos/server/alert_triggers.py:324-359 | between resets the attempt count counts the claims, so at most five happen |
| Schedule.LostLeaseIsInert | caos/server/alert_triggers.py:440-534 | once a row no longer carries a lease's token, nothing under that lease has an effect again |
| ScheduleTable.WatchRules.ReapExpiredFifthClaim | caos/server/alert_triggers.py:249-303 | pauses exactly the first rule, by expiry and identifier, with an expired fifth lease, and nothing else |
| ScheduleTable.WatchRules.TryClaim | caos/server/alert_triggers.py:306-359 | leases exactly the first due rule, by time and identifier, and describes that lease, or nothing is due |
| ScheduleTable.WatchRules.ClaimScheduledRule | caos/server/alert_triggers.py:362-393 | a reap then a claim in one transaction; a reap for one rule claims nothing, an unrepresentable expiry rolls both back |
| ScheduleTable.WatchRules.CompleteScheduledRule | caos/server/alert_triggers.py:475-499 | true exactly for the owner; moves the row as the protocol's completion step, raises exactly without a next slot |
| ScheduleTable.WatchRules.FailScheduledRule | caos/server/alert_triggers.py:502-534 | true exactly for the owner; moves the row as the protocol's failure step |
| ScheduleTable.WatchRules.FinishScheduleFailure | caos/server/alert_triggers.py:537-553 | settles exactly when the lease is owned or a lost fifth lease has expired, and touches no other rule |
| Delivery.StepFacts | caos/server/alert_dispatch.py:676-823 | every statement keeps the constraints, spends the measure if it has an effect, and leaves terminal rows alone |
| Delivery.ClaimWrites | caos/server/alert_dispatch.py:708-736 | a claim moves exactly a due row with attempts left, leases it for five minutes and clears what was stored |
| Delivery.ExhaustWrites | caos/server/alert_dispatch.py:807-823 | a sweep ends exactly a due row whose attempts are used up |
| Delivery.CompleteWrites | caos/server/alert_dispatch.py:739-774 | a completion moves exactly the row held under its lease, for a well-formed result of that row, and stores the result word for word |
| Delivery.FailWrites | caos/server/alert_dispatch.py:777-804 | a failure moves exactly the row it holds: back for 30, 60, 120, 240 or 300 seconds, or ended after its last attempt |
| Delivery.SafeClass | caos/server/alert_dispatch.py:1018-1023 | a stored error class is short and harmless, and unchanged if it was |
| Delivery.IdempotencyKeyIff | caos/server/alert_dispatch.py:864-909 | two deliveries have one idempotency key under every hash exactly when context, channel and destination agree |
| Delivery.ClosedOnce | caos/server/alert_dispatch.py:753-823 | in any run that closes a row, one step closed it and the row holds to the end the payload or reason that step carried |
| Delivery.OldLeaseIsInert | caos/server/alert_dispatch.py:739-804 | once the row was re-claimed, failed, completed or exhausted, the old lease can never change it, in any run and with any clocks |
| Delivery.RunFacts | caos/server/alert_dispatch.py:676-823 | over any run: attempts count claims, effective statements are bounded by the measure, at most one terminal transition, identity never changes |
| Delivery.FreshIntentBounds | caos/server/alert_dispatch.py:618-646 | a materialized intent sees at most max claims, 2·max effective statements and one terminal transition |
| Delivery.NeverStuck | caos/server/alert_dispatch.py:676-735 | a live row whose times have passed can be claimed or exhausted, exactly one of the two |
| DeliveryTable.FirstCandidate | caos/server/alert_dispatch.py:689-705 | ordering by availability, creation and identifier picks one row, and only one |
| DeliveryTable.ClaimsOldest | caos/server/alert_dispatch.py:689-705 | the leased row can be claimed and comes before every other that can, by availability, creation and identifier |
| DeliveryTable.Intents.ClaimDeliveryIntent | caos/server/alert_dispatch.py:912-941 | exhausted rows become terminal, then exactly the first claimable row is leased |
| DeliveryTable.Intents.CompleteDeliveryIntent | caos/server/alert_dispatch.py:978-1015 | stores the result exactly for a current, agreeing lease; false when the lease is gone; raises when they disagree |
| DeliveryTable.Intents.RecordDeliveryFailure | caos/server/alert_dispatch.py:1026-1042 | true exactly for the owner; releases the row to retry or to its terminal state |
| DeliveryTable.Intents.DispatchOnce | caos/server/alert_dispatch.py:1052-1113 | the claim, then any interference, then exactly the reported finish for every kind of render; in time, leased afterwards if and only if the render was refused |
| DeliveryTable.OthersKeepTheLease | caos/server/alert_dispatch.py:739-750 | while a lease lasts, no statements of other workers move its row, in any number and order |
| DeliveryTable.LeasedIffRefused | caos/server/alert_dispatch.py:1073-1096 | with any interference, a dispatch finished in time raises and leaves the row leased if and only if its render is refused |
| DeliveryTable.RefusedRenderHoldsTheLease | caos/server/alert_dispatch.py:1073-1096 | after a refused render, with any interference, nothing is stored and no other worker can move the row before the lease expires |
| DeliveryTable.AcceptedRenderIsStored | caos/server/alert_dispatch.py:1073-1106 | with any interference, a render that is not refused is stored in time with its status, and every other row is as the others left it |
| ExactlyOnce.CreatedKeyIsNew | caos/server/alert_evaluation.py:296-374 | a claim that creates a row does so under a key no row of its tenant has |
| Pipeline.ClaimAcceptedIff | caos/server/alert_evaluation.py:254-331 | a claim is accepted exactly for a valid observation under an enabled, unpaused rule of its tenant that watches its signal and subject in a version it has reached, and a trigger that agrees with it |
| Pipeline.ClaimRefusals | caos/server/alert_evaluation.py:254-281 | what each refusal of a claim says is so |
| Pipeline.ClaimLeaves | caos/server/alert_evaluation.py:328-374 | an accepted claim finds the row of its key, or adds one row with the columns of the rule version and the observation |
| Pipeline.SameKeyIff | caos/server/alert_evaluation.py:69-87 | two observations share their key exactly when rule, version, signal, subject and source agree, or two different values hash alike |
| CommittedAlerts.OnlyWatchedEvaluations | caos/server/alert_triggers.py:609-663 | an action of any run that changes the evaluations does so under a rule enabled and unpaused before it that watches the observation, and a scheduled one under a lease held at start and end |
| CommittedAlerts.FirstEvaluationWrites | caos/server/alert_dispatch.py:560-667 | a first evaluation records the rule's decision, and a match writes its event, its context and its two deliveries with these columns |
| CommittedAlerts.MaterializedAgrees | caos/server/alert_dispatch.py:535-673 | on any tables a materialization that succeeds leaves the candidate's own event, context and deliveries, written or found; rows that differ in a compared column make it fail |
| ExactlyOnce.MaterializeFresh | caos/server/alert_dispatch.py:535-673 | the four outcomes of materializing a fresh match: marker refused, run out of scope, key taken by a matched row, or exactly one new event, context and intent per sink |
| ExactlyOnce.CreatedOutcome | caos/server/alert_triggers.py:609-663 | the whole transaction after a created claim: each error exactly when it arises, and otherwise exactly the new tables |
| ExactlyOnce.TakenMeansHashCollision | caos/server/alert_evaluation.py:69-87 | a taken key belongs to another tenant's row whose identity differs and hashes alike |
| ExactlyOnce.EvaluateFacts | caos/server/alert_triggers.py:609-663 | one evaluation transaction on settled tables fails only by a refused claim, a refused run scope, a self-referential detail or a taken key; the source's RuntimeErrors are unreachable |
| ExactlyOnce.RunSettles | caos/server/alert_triggers.py:609-720 | over every interleaving of all actions the tables stay settled and nothing committed is undone |
| ExactlyOnce.OneEffectPerObservation | caos/server/alert_triggers.py:985-1039 | in every reachable state an evaluation is the only one of its tenant and key, and the only matched one of its key; it is never left observed, and matched exactly when it has its one context, one event and one intent per sink |
| AlertExamples.MatchCommitsAndTwinCollides | caos/server/alert_triggers.py:985-1039 | a run from empty tables that commits a match, after which another tenant's match under the same hash is refused |
| ExactlyOnce.FirstCommitWins | caos/server/alert_evaluation.py:283-374 | after any run, repeating a recorded observation changes nothing and reports the recorded outcome, or is refused |
| AlertDatabase.SettledIsConstrained | caos/server/alert_dispatch.py:118-142 | reachable tables satisfy the unique columns that the upserts rely on |
| AlertDatabase.Database.ClaimRuleEvaluation | caos/server/alert_evaluation.py:296-374 | the claim step by step is the claim of the exactly-once results |
| AlertDatabase.Database.InsertIntentRows | caos/server/alert_dispatch.py:624-667 | the loop over the sinks is the sink insertion of the exactly-once results, collision included |
| AlertDatabase.Database.MaterializeAlert | caos/server/alert_dispatch.py:535-673 | the materialization step by step is the one of the exactly-once results, with the same error in every failing case |
| AlertDatabase.Database.RunEvaluation | caos/server/alert_triggers.py:985-1039 | the triggers' transaction is that step, and a failure restores all tables |
| AlertDatabase.Database.RunScheduledEvaluation | caos/server/alert_triggers.py:609-663 | the scheduled transaction is the same step between two checks of the lease, and a lost lease restores all tables |
| Base64.RoundTrip | caos/server/alert_triggers.py:175-203 | every byte string survives the unpadded URL-safe codec |
| Base64.EncodedSize | caos/server/alert_triggers.py:175-203 | n bytes encode to ceil(4n/3) characters |
| Base64.AlphabetOrder | caos/server/alert_triggers.py:175-185 | the characters are those of RFC 4648, section 5, in their order |
| Base64.GroupIsNumber | caos/server/alert_triggers.py:175-185 | four characters read as one number are their three bytes |
| Base64.DecodesIff | caos/server/alert_triggers.py:188-198 | exactly the texts that are well padded once padded are decoded |
| Base64.StandardAlphabetAccepted | caos/server/alert_triggers.py:192-198 | the decoder also reads '+' and '/', so two texts can decode alike |
| Replay.CursorRoundTrip | caos/server/alert_triggers.py:175-214 | decoding an encoded cursor gives it back if and only if its identifier and payload are within the limits, and is refused otherwise |
| Replay.DecodesIff | caos/server/alert_triggers.py:188-214 | a text is taken for a cursor exactly when it spells a payload of version 1 with a bounded identifier and a time and nothing else |
| Replay.AfterIff | caos/server/alert_triggers.py:1128-1143 | seeking past a cursor leaves exactly the runs completed later, or then with a greater identifier |
| Replay.CursorsFitIff | caos/server/alert_triggers.py:175-214 | every cursor of a replay survives if and only if every run's identifier and payload are within the limits |
| Replay.ReconcileCompletedRuns | caos/server/alert_triggers.py:1107-1197 | refuses exactly bad limits and cursors; otherwise visits exactly the page, sums the outcomes, and returns a cursor only after a clean page with more behind it |
| Replay.ReplayVisitsAll | caos/server/alert_triggers.py:1107-1197 | however attempts fail and are retried, clean pages visit the runs in order, each once and none skipped, and finish exactly when the pages cover them |
| Replay.AttemptMoves | caos/server/alert_triggers.py:1107-1197 | an attempt gets past its page exactly when every run on it is clean, and otherwise moves nothing |
| Replay.ReplayFinishes | caos/server/alert_triggers.py:1107-1197 | without failures a replay visits all runs in as many attempts as there are pages |
| Replay.PagesNeeded | caos/server/alert_triggers.py:1107-1197 | no more pages than needed: a finished replay took max(1, ceil(n/limit)) |
| Calendar.ShiftComposes | caos/server/model_engine_v2.py:91-100 | the exact condition under which month shifts compose |
| Calendar.MonthEndReturns | caos/server/model_engine_v2.py:91-100 | a month end shifted there and back is itself |
| Calendar.ThirtiethOfJanuary | caos/server/model_engine_v2.py:91-100 | the counterexample for other days |
| Calendar.ContiguousChain | caos/server/model_engine_v2.py:798-814 | contiguous reporting dates ending on a month end cover the sum of their lengths |
| Calendar.ContiguousIff | caos/server/model_engine_v2.py:798-814 | two dates are contiguous over a length exactly when so many months lie between them and the day of the month is the same |
| DebtEngine.RowOpens | caos/server/model_engine_v2.py:798-835 | a forecast dated its length after its predecessor opens at that one's close, and any other row as sourced |
| DebtEngine.ClosedForm | caos/server/model_engine_v2.py:903-960 | the closed form is the unique solution of the circular PIK equation |
| DebtEngine.CandidateIsClose | caos/server/model_engine_v2.py:903-1025 | in all sixteen patterns of overriding closing, expected, PIK and average, the forecast close is the guessed candidate or absent |
| DebtEngine.CircularCloseSolved | caos/server/model_engine_v2.py:903-1025 | without those overrides the close is the unique solution with zero residual, exactly when it and the average are not negative |
| DebtEngine.GaplessRowIsSound | caos/server/model_engine_v2.py:1034-1239 | a row without gaps is complete, non-negative, tied out within a cent and tied to its predecessor |
| DebtReadiness.RowReadyIff | caos/server/model_engine_v2.py:836-1239 | a row has no gap exactly when its inputs and nodes are given, its balance can be rolled forward and it ties out |
| DebtReadiness.ReadyRowFigures | caos/server/model_engine_v2.py:836-1239 | every figure of a ready row is its override or the stated mean, sum or charge of the others |
| DebtReadiness.EveryInputReads | caos/server/model_engine_v2.py:836-870 | the inputs of every row, ready or not, are those supplied, balances only where not negative, with a floor of zero and conversion at par by default |
| DebtReadiness.NegativeInputRecorded | caos/server/model_engine_v2.py:836-870 | a negative balance among the inputs of a row is among its gaps |
| DebtReadiness.EveryBalanceReads | caos/server/model_engine_v2.py:903-1091 | the balances of every row: there exactly when what they are made of is, and then the stated sum |
| DebtReadiness.EveryChargeReads | caos/server/model_engine_v2.py:1093-1150 | the interest of every row: there exactly when its balance and rate are, and then their charge over the period |
| DebtReadiness.EveryConversionReads | caos/server/model_engine_v2.py:1152-1215 | fees, conversion effect, cash interest and reporting debt of every row, by what is known of it |
| DebtSchedule.CalculatePeriod | caos/server/model_engine_v2.py:739-1267 | one period's loop gives the rows in order under the balances carried in, and carries their closes out |
| DebtSchedule.ArrangedFacts | caos/server/model_engine_v2.py:743-746 | sorting by priority and identifier keeps the instruments and gives one order |
| DebtSchedule.Calculate | caos/server/model_engine_v2.py:621-1459 | the nested loops compute rows by priority, totals with leverage and coverage, gaps and status as the recursive definitions |
| DebtSchedule.RowsAreHistories | caos/server/model_engine_v2.py:798-830 | instruments do not interfere: each gets the rows it would get if calculated alone |
| DebtSchedule.TieOut | caos/server/model_engine_v2.py:798-841 | over contiguous gapless rows the last close is the first opening plus all flows, within the summed tolerances |
| DebtSchedule.SlackBound | caos/server/model_engine_v2.py:1034-1091 | those tolerances are at most (2n-1) cents, and zero over forecasts alone |
| DebtSchedule.ReadyIsSound | caos/server/model_engine_v2.py:600-613 | ready implies every instrument scheduled, every row sound, EBITDA and cash interest positive, each other total and the coverage present unless a null override targets it, and leverage present exactly over twelve months and a known debt |
| DebtSchedule.ReadyTiesOut | caos/server/model_engine_v2.py:600-613 | ready implies every instrument has a row in every period and every contiguous stretch of them ties out |
| DebtReadiness.SumsAdd | caos/server/model_engine_v2.py:1262-1263 | a schedule's total is nothing for no rows, a row's own figure, and the sum of two parts |
| DebtReadiness.PeriodReadyIff | caos/server/model_engine_v2.py:711-1431 | a period has no gap exactly when every instrument has a ready row, its totals are known and earnings and interest are positive |
| DebtReadiness.ReadyIff | caos/server/model_engine_v2.py:600-613 | a calculation is ready exactly when it has periods and all are ready, and then every total is its override or the stated sum, difference or ratio |
| DebtReadiness.EveryTotalReads | caos/server/model_engine_v2.py:1262-1431 | the totals of every period, ready or not, by what is known of it |
| DebtReadiness.PartialIff | caos/server/model_engine_v2.py:600-613 | short of ready it is partial exactly when some earnings, debt or net debt is known |
| FormulaGraph.CycleReported | caos/server/model_workbook.py:1039-1079 | when all cells are finished, every cycle has a reference that closed a cycle reported whole |
| FormulaGraph.BackReferenceCloses | caos/server/model_workbook.py:1066-1068 | a reference back into the path closes a simple cycle of exactly the reported segment |
| FormulaGraph.SearchReports | caos/server/model_workbook.py:1039-1079 | every search, in any order of roots and targets, reports whole cycles only, breaks every cycle, and reports something if and only if there is one |
| FormulaGraph.ApartReportsAll | caos/server/model_workbook.py:1039-1079 | when no reference lies on two different cycles, every search reports exactly the cells on cycles |
| FormulaGraph.SearchCanMiss | caos/server/model_workbook.py:1039-1079 | a search of four cells that leaves out a cell on a cycle |
| FormulaGraph.CircularCells | caos/server/model_workbook.py:1039-1079 | the loops terminate on every finite graph and are such a search, with all it guarantees |
| SheetText.KeptIff | caos/server/model_workbook.py:585-601 | a text survives the guard and the read if and only if it is kept: the exact condition on spaces, apostrophes, emptiness and length |
| SheetText.ReadOnceKept | caos/server/model_workbook.py:585-601 | whatever was read once survives every later export and import |
| SheetText.GuardWorks | caos/server/model_workbook.py:585-590 | no guarded text opens a formula with =, +, - or @ behind spaces; a text that would gets an apostrophe and any other is unchanged |
| DebtSheet.ExportIsHarmless | caos/server/model_workbook.py:677-680 | no text cell of an export opens a formula |
| DebtSheet.Render | caos/server/model_workbook.py:805-829 | the sheet is one row per instrument and period in payload order |
| DebtSheet.Regroup | caos/server/model_workbook.py:1667-1727 | the dictionary loop computes the grouping and its issues |
| DebtSheet.RowReadableIff | caos/server/model_workbook.py:1667-1706 | a row is taken in exactly when it names an instrument and a known period and its priority, sources, authority, numbers and unit can be read |
| DebtSheet.RowReadsAs | caos/server/model_workbook.py:1667-1720 | what a row is taken in as, with the defaults for a missing authority |
| DebtSheet.NoIssueIff | caos/server/model_workbook.py:1667-1706 | a row raises no issue exactly when it is readable and, strictly, carries its stable key |
| DebtSheet.AcceptedIff | caos/server/model_engine_v2.py:291-325 | the instruments the constructor accepts |
| DebtSheet.ImportDebt | caos/server/model_workbook.py:1667-1736 | regrouping and constructing compute the import |
| DebtSheet.ImportOfExport | caos/server/model_workbook.py:1667-1736 | importing an exported sheet returns, in order, every instrument with a period whose header reads back acceptably |
| DebtSheet.RoundTripIff | caos/server/model_workbook.py:805-829 | the import returns the exported instruments if and only if each has a period, kept texts and a settled authority date |
| DebtSheet.RoundTripUnblocked | caos/server/model_workbook.py:1667-1736 | and then the import records no blocking issue |
| ContextLineage.BeforeTotal | caos/server/context_lineage.py:30-31 | the key order is total and the key determines the reference |
| ContextLineage.BeforeIff | caos/server/context_lineage.py:30-31 | references are ordered by the stored name of their kind, by identifier and by version, a missing one first |
| ContextLineage.TypedRefsIff | caos/server/context_lineage.py:69-83 | the typed references, and an unversioned one for exactly the scalars nothing typed stands for |
| ContextLineage.CanonicalUnique | caos/server/context_lineage.py:34-66 | a set of references has one canonical list |
| ContextLineage.MergeArtifactRefs | caos/server/context_lineage.py:34-66 | merging gives the canonical list of the union |
| ContextLineage.MergeConverges | caos/server/context_lineage.py:45-66 | merging in either order, together or again gives the same list |
| ContextLineage.AdaptersOnce | caos/server/context_lineage.py:69-83 | legacy stand-ins are never added twice |
| Lineage.PassOnlyAdds | caos/server/lineage_reconciliation.py:427-504 | a pass only adds, adds only what checks out, joins only stored references, and adds exactly its proposal |
| Lineage.EdgesFromIff | caos/server/lineage_reconciliation.py:341-414 | the edges a pass collects are exactly the relations that manifests, checkpoints, reports and insights prove |
| Lineage.PassProposes | caos/server/lineage_reconciliation.py:341-470 | of an authorized context a pass proposes exactly the visible references it has to do with and the proved relations between them that are not recorded yet |
| Lineage.ThirdPassIsIdle | caos/server/lineage_reconciliation.py:272-504 | two passes reach a state no later pass changes; what the third proposes are exactly the kept edges with a damaged row, so it is idle if and only if there are none |
| Lineage.DamagedForever | caos/server/lineage_service.py:140-147 | a kept edge with a damaged row is proposed by every pass |
| Lineage.DamagedReport | caos/server/lineage_reconciliation.py:392-400 | a report whose edge has a damaged row, proposed by every pass |
| Lineage.SecondPassIdleIff | caos/server/lineage_reconciliation.py:341-414 | the second pass is idle if and only if the newly reached manifests are already recorded file by file |
| Lineage.SecondPassCanWork | caos/server/lineage_reconciliation.py:392-414 | a manifest named only by a report gives the second pass work |
| LineageLedger.Collect | caos/server/lineage_reconciliation.py:341-437 | the collecting loops compute the pass's references and edges |
| LineageLedger.ContextLedger.StoreEdges | caos/server/lineage_reconciliation.py:471-491 | the edge loop counts and, in apply mode, stores exactly the missing edges |
| LineageLedger.ContextLedger.Reconcile | caos/server/lineage_reconciliation.py:272-504 | apply mode makes exactly the pass a dry run proposes, a dry run changes nothing, and the counters count it |
| Strings.JoinSplit | caos/server/ingest.py:432-470 | joining what was split gives the text back |
| Strings.SplitIsComplete | caos/server/ingest.py:432-470 | no part of a split text holds the separator |
| Chunker.BlocksKeepInk | caos/server/ingest.py:432-470 | the blocks hold every non-space character of the text, in order |
| Chunker.BlocksSized | caos/server/ingest.py:432-470 | a block is within 512 tokens or is a single word that is not |
| Chunker.KeptWhole | caos/server/ingest.py:435-450 | a paragraph within 512 tokens stays one block, and so does a line of a longer one |
| Chunker.LongLineFilled | caos/server/ingest.py:451-470 | the words of a longer line go into blocks none of which had room for the next word |
| Chunker.KeepOverlap | caos/server/ingest.py:481-491 | the overlap is the longest run of trailing blocks within 64 tokens |
| Chunker.Pack | caos/server/ingest.py:472-503 | the packing loop returns the texts of the complete greedy packing |
| Chunker.ChunkText | caos/server/ingest.py:413-505 | the returned chunks are the packed windows of the text's blocks, stripped, without the blank ones, and hold the text |
| Chunker.ChunksUnique | caos/server/ingest.py:413-505 | that specification leaves one possible list of chunks for a text and a token counter |
| Chunker.ChunksHoldTheText | caos/server/ingest.py:413-505 | without overlaps the windows hold all non-space text in order, and each is within 576 tokens or an overlap and one long word |
| Chunker.ChunksHold | caos/server/ingest.py:413-505 | the same of the returned chunks: each is a trimmed window, and stripping and dropping blank ones loses no non-space character |
| ChunkWindows.WindowBound | caos/server/ingest.py:472-503 | a window is within 512 tokens or an overlap of at most 64 followed by one block |
| ChunkWindows.WindowFull | caos/server/ingest.py:477-503 | a window is cut only before a block that does not fit 512 tokens, and starts with the longest overlap within 64 |
| ChunkWindows.AddedIsAll | caos/server/ingest.py:472-503 | dropping overlaps gives back the blocks in order |
| ChunkWindows.PackingUnique | caos/server/ingest.py:472-503 | the token counts determine the windows |
| FactCollapse.WindowIsFold | caos/server/nlquery.py:380-398 | the fold agrees with the window in every order if and only if one top-tier fact is strictly newest |
| FactCollapse.DistinctDatesAgree | caos/server/nlquery.py:431-459 | with dates present and distinct within a tier the two agree |
| FactCollapse.RowOneIff | caos/server/nlquery.py:431-459 | the kept row is a run's or fixture's where there is one, and the newest and last entered of its kind |
| FactCollapse.RowOneExists | caos/server/nlquery.py:431-459 | the window always has a first row |

## Left out

- Sink lists: `_deduplicated_sinks` is not modelled; the materializer is modelled for the approved trigger sinks.
- The run-scope and visibility queries are a yes or no; which rows a query skips because another worker holds them is
  not modelled.
- Delivery times are unbounded integers in seconds; schedule times are bounded microseconds.
- JSON values are canonical; number normalization by the database's JSON column is not modelled.
- Engine values are real numbers: rounding to 28 digits and to floats, and the finite-range gaps, are not modelled.
- DebtSchedule.Calculate: warnings, node lists and fingerprints are not modelled; they feed neither gaps nor status.
- Schedule cursors are taken to be within their 512 bytes.
- Period keys are a datatype; parsing them, and years outside 1 to 9999, are not modelled.
- DebtSheet.RoundTripIff: the workbook dimension limits are not modelled, and source lists are taken to survive their
  JSON text.
- DebtSheet.ImportDebt: the ranges of a debt period are a parameter, and the ledger's limit on issues is not modelled.
- FormulaGraph.ApartReportsAll: one way only, because whether a cell is left out depends on the order in which sets are
  iterated.
- FormulaGraph.CircularCells: the audit entries and the blocking codes of circular cells are not modelled.
- LineageLedger.ContextLedger.Reconcile: the counters of unresolved relationships and of damaged stored edges, and the
  paging over contexts, are not modelled.
- Identifiers with a colon or control characters, which the reference constructor refuses, are excluded from collected
  references.
- Chunker.ChunkText: the tokenizer is any counter; nothing relates the count of a joined text to its parts.
- Replay.ReconcileCompletedRuns: what triggering a run does inside is the subject of `ExactlyOnce`, not of the page loop.
- `watch_rules.py` enters only through the operator's update of a rule row.
- Freshness, sector logic, market workbooks, sink rendering, routes, identity and storage are not modelled.
