# Durable saga engine, modelled and proved in Dafny

A saga is a frozen blueprint of steps and bounded loops that a Postgres-backed engine runs
one committed transaction at a time. This project models that engine as a transition system
and proves what holds over whole runs: how statuses fit together, that event-driven loop
execution is a plain do-while interpreter, that compensation is last-in first-out, that
commands in flight are in the outbox, and that terminal sagas stay terminal. Around it stand
the worker command protocol, the wake-up of joins, operator idempotency, spawning, prompt
freezing and tool aliases.

| files | content |
|---|---|
| `SagaTypes`, `SagaSpec` | vocabulary; every handler and operator call as a function on one saga's rows |
| `Interpreter`, `ForwardPath`, `ForwardSteps`, `Scheduling` | the reference interpreter and the proof that scheduling follows it |
| `Compensation` | the compensation walk and its order |
| `SagaInvariant`, `SagaRuns`, `SagaTheorems` | the inductive invariant, its preservation, the results on runs |
| `Walks`, `Outcomes`, `Departures`, `Effects` | what each transaction does, exactly, told from the frozen steps, the payloads and the answers of the oracles |
| `SagaReplay`, `HoldOrCompensate` | redelivery; hold against automatic compensation |
| `HumanRetries`, `HumanAnswers`, `HumanDesk`, `HumanRuns` | when a human's retry, approval or rejection takes effect; how they are queued; which held steps nobody can answer |
| `ChildWakeup`, `JoinSuccess`, `SpawnWakeup`, `SagaLimits` | when a child's end overtakes compensation, or fails to wake it; what the handlers do not guard |
| `Decimals`, `LabelKeys`, `RowFrames`, `RowKeys` | idempotency keys as text; what transactions leave alone on rows; keys are unique |
| `Outbox`, `OutboxRuns` | the transactional outbox |
| `EngineTrack`, `SagaEngine` | the engine as an object updated in place, each method proved against `SagaSpec` |
| `ClaimProtocol`, `ClaimDelivery`, `ClaimStore` | one worker command under at-least-once delivery; what the status of its row tells; the tables behind it |
| `JoinWakeup`, `ChildSagas` | parent and child transactions; spawning and summing up |
| `RecoveryIdempotency`, `Prompts`, `PromptText`, `ToolNames`, `ToolWords` | recovery tokens, prompt includes, tool aliases |

`dafny verify dfyconfig.toml` checks everything.

## What the hypotheses are

* Each transaction, and each event handled under the saga row lock, is one atomic step.
* `when`, `until`, parameter resolution, policy gates and output schemas are arbitrary pure
  functions of what they read (`Rules`); spawn and join outcomes, "all children terminal" and
  whether an undo command validates are arbitrary per transaction (`Env`). Hashes are
  injective, spans and tokens are fresh.
* Blueprints are as hydration leaves them (`Accepted`): loop bodies are non-empty and hold
  worker steps, `max_iterations` is at least 1, ids are unique. What is joined to ids keeps
  them apart (`KeysApart`): otherwise two rows get one idempotency key, the unique column
  (common/models.py:137) refuses the second, and that transaction is rolled back.
  `WellFormed` is both; `LabelKeys.KeysDistinctExactly` shows that it is exactly what is needed
  for forward rows and the undos of spawn rows. All other keys hold a fresh random part.
* Runs are in order (`InOrder`): STEP_FAILED is about a row that was started and is not done,
  COMPENSATION_FAILED names an undo in flight, SAGA_COMPLETED comes from the outbox, and a
  child's end does not overtake the walk (`WakeSafe`, told from the stored rows). The handlers
  do not check these themselves; `SagaLimits` shows for each of them what goes wrong otherwise,
  and exactly when. Everything else may arrive in any order and any number of times.

## Where the code and its documentation differ

* The documentation promises LIFO compensation (docs/concepts/durable-execution.md:60-64).
  `maybe_resume_spawn_compensation` takes the highest spawn row without looking at the walk
  (engine/child_sagas.py:614-648), so a join that fails because all children failed can
  end COMPENSATED with an undo in flight, although every child had ended when compensation
  began: `SagaLimits.OvertakenUndo`; the exact condition is `ChildWakeup.JoinOvertakesExact`, and
  for any child's end `SagaLimits.ChildTerminalExact`.
* `hitl_max_retries` is documented as the number of retries (docs/guides/manifests/saga-manifests.md:466),
  but the ingest key of HUMAN_RETRY is per span and never cleared. The first one has an effect,
  if it is delivered while the step is held, and no other: `HumanRetries.HumanRetryExact`,
  `HumanRuns.LimitReachable`, `HumanRuns.RetriesRefused`.
* A held saga is documented to wait until an operator approves, rejects or retries
  (docs/guides/api/hitl.md:9). Approvals and rejections are taken once per span, too, and share
  one outbox key per span (engine/hitl_decisions.py:50-51), so a step that comes back to its
  review after a decision can be neither approved nor rejected, and once its retry is spent
  nobody can move it: `HumanAnswers.ApprovalExact`, `HumanAnswers.RejectionExact`,
  `HumanDesk.HeldStepAnswerable`, `HumanDesk.HeldForGood`, `HumanRuns.ApprovalRefused`.
* Compensation is documented to wait at a spawn until its children have ended and then to go on
  (docs/guides/manifests/child-sagas.md:108). The end of a child looks at the highest started
  spawn row only, so a wait at a lower one never ends: `SpawnWakeup.ParkedWalkWakes`,
  `SpawnWakeup.OverlookedForGood`, `SpawnWakeup.SpawnWakeupLost`.
* Step and loop ids may contain hyphens (docs/guides/manifests/saga-manifests.md:38) and only
  have to be distinct (common/schemas/saga.py:753-768), but they are joined with hyphens into
  keys that have to be unique. A step `poll-check-1` beside a loop `check` over `poll` cannot
  even start, and a loop `b-c` over `a` before a loop `c` over `a-b` can never be left:
  `LabelKeys.StartCollides`, `LabelKeys.LoopsCollide`.
* Beside a spawn `s`, a step named `s:spawn-compensate` is accepted, and the saga runs. When it
  compensates, the undo row of `s` gets the key of that step (engine/child_sagas.py:575), and the
  insert is refused each time: `LabelKeys.SpawnUndoCollides`.
* A repeated recovery token is documented to replay the stored response
  (docs/guides/api/recovery.md:43). Overlapping calls that both missed the record get one
  answer and one error: `RecoveryIdempotency.TwinGetsError`, `RecoveryIdempotency.ReplayExact`.
* A human retry deletes the worker's claim even after it has emitted, so one key can emit two
  successes: `ClaimProtocol.TwoSuccesses`, `ClaimProtocol.HitlReleaseExact`.

## Model

| member | source | states |
|---|---|---|
| `SagaTheorems.StartInv` | engine/api/saga_start.py:124-213 | the saga as it is started satisfies the whole inductive invariant, for every well-formed blueprint |
| `SagaRuns.StepInv` | engine/logic.py:463-563 | every ingest, operator call or child wake-up, delivered in order, keeps that invariant |
| `SagaTheorems.Reachable` | engine/logic.py:463-563 | so it holds after any in-order run of any well-formed blueprint, and the blueprint stays frozen |
| `SagaTheorems.StatusesCoupled` | engine/logic.py:2201-2410 | RUNNING has exactly one IN_PROGRESS row, AWAITING_HUMAN one held row, AWAITING_RECOVERY one failed row, each with only finished rows below and PENDING rows above; compensating and terminal sagas have no active row |
| `SagaTheorems.RowsContiguous` | engine/step_materialize.py:195-226 | forward rows always carry forward_seq 0..n-1 with equal order_index, whatever was minted when |
| `SagaTheorems.WalkMeetsNoGap` | engine/logic.py:2707-2718 | undo rows and the compensation window stay inside 0..n-1, so the missing-row branch of the walk is never taken |
| `SagaTheorems.RowsAreUnrolled` | engine/loop_control.py:246-345 | the forward rows are exactly the blueprint unrolled by its loop counters, and no loop has begun more than max_iterations passes |
| `SagaTheorems.RefinesInterpreter` | engine/loop_control.py:246-345 | in every live state the outputs recorded on the rows bring a plain recursive do-while interpreter to the same row and context; a COMPLETED saga is a complete interpretation, trace and all |
| `SagaTheorems.GivenUpIsStuck` | engine/loop_control.py:198-243 | after any run: a saga with an exhausted loop is winding down, and the interpreter, fed with what the rows recorded until then, is stuck at that point in the same context and with the same trace |
| `ForwardSteps.BrokenSticks` | engine/loop_control.py:198-243 | the step behind it: where a boundary gives a loop up, the interpreter is stuck too, with the same trace |
| `ForwardSteps.CrossingDescends` | engine/logic.py:173-286 | every loop boundary lowers (blueprint entries left, passes left) or adds no row: the measure by which one transaction of scheduling ends even if every step is skipped |
| `SagaTheorems.ContextLatestWins` | engine/logic.py:776-805 | each context entry agrees with the highest completed or loop-skipped row of that id; an entry is missing only for the one row an operator is retrying, and never without operator retries |
| `SagaTheorems.CompensationIsLifo` | engine/logic.py:2699-2778 | undo rows are created strictly downwards, only the newest can be open, each is for a row inside the window that was started and whose frozen step is a spawn or a worker step declaring an undo, in whichever loop pass or none; COMPENSATED means each such row has its one finished undo |
| `SagaTheorems.CompensatedUndoesAllRisk` | engine/logic.py:1689-1788 | in a COMPENSATED saga a row has exactly one undo, and a finished one, if its frozen step is a spawn or a worker step declaring an undo, in any loop pass or none, and the row completed, timed out or crashed; otherwise it has none, so a clean failure is not undone |
| `SagaTheorems.TerminalAbsorbs` | engine/logic.py:1868-1923 | COMPLETED and COMPENSATED sagas are never left, FAILED only by retry-compensation: any other run changes nothing but the ingested keys |
| `SagaTheorems.EndsAreAnnounced` | engine/logic.py:1868-1923 | over any run, in order or not, an ended saga has announced its end, COMPLETED, COMPENSATED or FAILED as the case may be |
| `SagaRuns.StepNotices` | engine/logic.py:1868-1923 | the joint invariant behind it: a SAGA_COMPLETED row in the outbox implies the saga is COMPLETED |
| `Compensation.UnwindLifo` | engine/logic.py:2699-2778 | a walk from a state where all above is undone ends in LIFO order: parked, one undo in flight, failed, or complete |
| `Walks.UnwindWalks` | common/compensation.py:13-33 | where the walk comes to rest, told from the frozen steps alone: every declared undo of a started row on the way down was finished already or is the recorded undo of a spawn whose children have ended; the row it stops at is the first that is still owed one, and its undo is in flight, waited for, sent off, or cannot be built |
| `Compensation.UnwindFrame` | engine/logic.py:2699-2778 | a walk changes forward rows only to SKIPPED or FAILED and only adds undo rows and undo commands under fresh keys |
| `Compensation.StepCompensatedLifo` | engine/logic.py:1689-1788 | a reply to an undo continues the walk without breaking the order |
| `Compensation.ScheduleLifo` | engine/logic.py:2549-2696 | sending off the undo of the next row down, or failing because it cannot be built, leaves the undo rows in LIFO order |
| `Compensation.ConcludeLifo` | engine/logic.py:2413-2457 | a walk that has come below row 0 concludes with every row of the window that needs an undo undone |
| `Compensation.RetryCompensationLifo` | engine/recovery.py:455-535 | retry-compensation reopens only the newest undo |
| `HoldOrCompensate.HoldMatchesAutomatic` | engine/recovery.py:706-790 | holding and then starting compensation ends in the same saga and window as auto_compensate if and only if failure and recorded details agree on whether the worker crashed |
| `HoldOrCompensate.HoldIsSafe` | engine/logic.py:1527-1615 | in every reachable running or held saga they agree, so the two paths are interchangeable |
| `Effects.CompletionExact` | engine/logic.py:1021-1090 | STEP_COMPLETED counts if and only if the row is running and it is the first since its keys were cleared. An output the schema, or for a reason step the policy, objects to fails the row with that objection; a reviewed reason step is held with the output; otherwise the row is COMPLETED with exactly the data that came in, the empty object only if there is none, and the context tells that data with its facts |
| `Effects.FailureExact` | engine/logic.py:1619-1686 | an in-order STEP_FAILED counts if and only if the row is running or held and the key is new; then the row carries the reported details and the saga is held, or undone from the row itself after a timeout or a crash and from the row below otherwise |
| `Effects.ApprovalEffect` | engine/logic.py:1094-1273 | what an approval does: a held commit goes out under its key with the arguments it was held with; any other row is recorded with the output the human gave, or the held one if none was given, and the schema is asked about that very output |
| `Effects.RejectionEffect` | engine/logic.py:1277-1330 | a rejection that counts fails the row with the reasons given, and the saga goes where a failure takes it |
| `Effects.HumanRetryEffect` | engine/logic.py:1334-1438 | a human retry that counts rotates the key, clears what the row held, counts one retry, and starts the row with arguments resolved under the guidance that was given |
| `Effects.RetryStepExact` | engine/recovery.py:272-415 | when an operator's retry of a step takes effect, exactly: the running row of a running saga; a spawn or join is run again in place; a worker's step needs no forced commit without leave and no active claim, and has its command queued again if the outbox still has it or is started over under a new key; every refusal leaves the saga unchanged |
| `Effects.RetryForwardExact` | engine/recovery.py:591-666 | retry-forward starts the row over if and only if the saga is held, the row is the failed one, a timed-out or crashed row or a forced commit has leave for destructive calls, and no claim is active; otherwise the saga is unchanged |
| `Effects.StartCompensationExact` | engine/recovery.py:706-790 | start-compensation acts if and only if the saga is held and the row is the failed one, and walks down from the row itself after a timeout or a crash, from the row below otherwise |
| `Effects.RetryCompensationExact` | engine/recovery.py:455-535 | retry-compensation reopens an undo if and only if the saga is compensating or FAILED, the undo is unfinished, no claim is active, and its command is still queued or can be built again; otherwise the saga is unchanged |
| `Effects.UndoReplyExact` | engine/logic.py:1690-1788 | STEP_COMPENSATED counts if and only if the undo is in flight and the key is new; then that undo is finished and the walk goes on at the row below |
| `Effects.UndoFailureExact` | engine/logic.py:1792-1865 | COMPENSATION_FAILED about the undo in flight fails that undo and the saga, and announces it |
| `Effects.ChildEndExact` | engine/child_sagas.py:464-508 | a child's end runs a parked join again, what that starts is started rightly, and then the walk resumes below the highest started spawn if and only if its children have all ended and its undo was not yet recorded |
| `Effects.StartExact` | engine/logic.py:728-763 | SAGA_STARTED takes a saga out of PENDING if and only if it is the first, and never does anything else |
| `Departures.RowsDepartRightly` | engine/logic.py:2201-2410 | whatever a transaction starts it starts rightly: a row that leaves PENDING was let through by its `when`; a running one has arguments resolved in this very context and, for a commit, one tool and a policy that passed; a held commit is held with those arguments; a finished spawn or join has the output its children gave; a failed one names the gate, parameters, policy or children that refused it |
| `SagaReplay.RedeliveryIsHarmless` | engine/logic.py:485-506 | removing every delivery whose dedup key was ingested and not cleared by a retry leaves the final state of any run unchanged |
| `SagaReplay.SameEventExact` | engine/logic.py:485-506 | two deliveries count as one event if and only if they are of one kind and, unless about the saga as a whole, of one span, whatever else they say |
| `SagaReplay.SecondDeliveryIgnored` | engine/logic.py:485-506 | a second delivery is a no-op however far apart, unless a retry of that span came in between |
| `HumanRetries.HumanRetryExact` | engine/logic.py:1334-1438 | in every reachable state a HUMAN_RETRY runs the row again and is counted if and only if the row is held, within its limit, and no HUMAN_RETRY of its span was ever ingested; otherwise it leaves only its key |
| `HumanRetries.OneHumanRetry` | engine/logic.py:696-723 | over any run, in order or not, no row counts more than one human retry |
| `HumanAnswers.ApprovalExact` | engine/logic.py:1094-1273 | in every reachable state an approval ends the hold of a row, and sends the held commit to its worker, if and only if the row is held, there is something to approve (any commit; a stored or given output), and it is the first approval of that span ingested; otherwise it leaves only its key |
| `HumanAnswers.RejectionExact` | engine/logic.py:1277-1330 | a rejection ends the hold of a row if and only if the row is held and it is the first rejection of that span; otherwise it leaves only its key |
| `HumanAnswers.AnswersCountOnce` | engine/logic.py:485-506 | over any run, the later of two approvals, two rejections or two retries of one span is a no-op, whatever was retried in between |
| `HumanDesk.NewDecisionExact` | engine/hitl_decisions.py:177-225 | a call to approve or reject a step is queued if and only if the step is held and no decision, of either kind, was ever queued for its span; delivered as it was given, it ends the hold |
| `HumanDesk.NewRetryExact` | engine/hitl_decisions.py:228-300 | a call to retry is queued if and only if the step is held, below its limit, and the request is new; what is delivered then carries the guidance that was given |
| `HumanDesk.OneDecision` | engine/hitl_decisions.py:50-51 | over any run of the desk no step is both approved and rejected |
| `HumanDesk.HeldStepAnswerable` | engine/hitl_decisions.py:177-300 | in every state that calls, deliveries and transactions can reach: humans can still move a held step, by whatever sequence of calls and deliveries, if and only if no decision was taken for it or its one retry is allowed and unspent |
| `HumanDesk.HeldForGood` | engine/hitl_decisions.py:177-300 | if both are spent, nothing but a reported failure of that row ever moves the saga: no answer, operator call, worker reply or child |
| `HumanRuns.RetriesRefused` | engine/hitl_decisions.py:228-300 | runs that end with a held step below its limit whose every further retry is ignored: after one retry, and after none if a queued retry is delivered behind a queued approval and the step comes back to its review |
| `HumanRuns.ApprovalRefused` | engine/hitl_decisions.py:177-225 | a run in which a commit, approved, failed and taken forward again by an operator, is held with a retry left by its count, and no human can move it any more |
| `HumanRuns.LimitReachable` | common/hitl_retry.py:22-36 | a limit of hitl_max_retries can be used up if and only if it is 0 or 1 |
| `SagaReplay.HumanRetryOnce` | engine/logic.py:696-723 | HUMAN_RETRY clears only worker-result keys, so a second HUMAN_RETRY on one span never has an effect |
| `SagaRuns.RejectedInv` | engine/logic.py:1277-1330 | a rejection keeps the invariant: the held row fails, and the saga is held for recovery, compensated or failed |
| `SagaLimits.FailureMustNameLiveRow` | engine/logic.py:1663-1684 | a STEP_FAILED is not refused for other rows; statuses stay coupled if and only if it names the live row, or the walk it starts reaches the live row first and cannot build its undo |
| `SagaLimits.LateFailureLeavesCompleted` | engine/logic.py:1663-1684 | any late STEP_FAILED takes a COMPLETED saga to AWAITING_RECOVERY, compensation or FAILED |
| `SagaLimits.CompletionMustBeAnnounced` | engine/logic.py:1882-1888 | SAGA_COMPLETED completes a saga in any status; statuses stay coupled if and only if every row finished cleanly or was not begun |
| `SagaLimits.CompensationFailureCoupled` | engine/logic.py:1792-1864 | COMPENSATION_FAILED fails a saga in any status; statuses stay coupled if and only if no row but the one it names is running or held |
| `SagaLimits.EndedSagaFails` | engine/logic.py:1792-1864 | a COMPLETED or COMPENSATED saga keeps its status if and only if that COMPENSATION_FAILED was ingested before |
| `SagaRuns.UndoFailedInv` | engine/logic.py:1792-1864 | a failure that names the undo in flight keeps the invariant: the undo is the newest and open, the saga FAILED |
| `SagaLimits.CompensationFailureMustNameUndo` | engine/logic.py:1792-1864 | with an undo in flight the invariant survives if and only if the failure names that undo |
| `SagaLimits.ChildTerminalExact` | engine/child_sagas.py:464-508 | a child wake-up keeps the invariant if and only if the stored rows say so beforehand (WakeSafe): in a compensating saga no undo is in flight and the spawn row may have left effects; in a running one the parked join does not break down into a walk that is overtaken |
| `ChildWakeup.WakeSafeExact` | engine/child_sagas.py:605-648 | that condition is the one the resume meets inside the transaction |
| `ChildWakeup.JoinOvertakesExact` | engine/child_sagas.py:605-648 | a parked join that fails is overtaken if and only if it leads to compensation, the children of the highest spawn row have all ended, and the first undo on the way down belongs to a completed step after that spawn |
| `JoinSuccess.JoinRunsOnExact` | engine/child_sagas.py:386-433 | a parked join that succeeds, whatever scheduling then runs through (loops, spawns, other joins, native steps): overtaken if and only if it breaks down where it comes to rest, by a failed step or an exhausted loop, and the rows as they stand there say that the first undo due lies above a spawn whose children have ended |
| `JoinSuccess.JoinSkipsExact` | engine/child_sagas.py:386-433 | told from the stored rows alone when the saga only skips on its way, through any number of loop passes, to a step that is no spawn or to the end of a loop |
| `JoinSuccess.JoinSucceedsExact` | engine/child_sagas.py:386-433 | told before the call when scheduling passes over gated steps outside loops to a worker step: overtaken if and only if that step fails on the spot (gate, arguments, tool count or policy), compensates, the children of the highest spawn row have all ended, and the first undo due lies above that spawn; at the end of the rows never |
| `SpawnWakeup.ParkedWalkWakes` | engine/child_sagas.py:605-648 | a compensation that waits for the children of a spawn row goes on when they have all ended if and only if no spawn row was started after it |
| `SpawnWakeup.OverlookedForGood` | engine/child_sagas.py:605-648 | otherwise it waits for ever: no in-order run of any kind changes the saga |
| `SpawnWakeup.SpawnWakeupLost` | engine/child_sagas.py:614-642 | a run with two spawns that ends in such a wait |
| `SagaLimits.OvertakenUndo` | engine/child_sagas.py:605-648 | a concrete run that ends COMPENSATED while an undo is still in flight |
| `OutboxRuns.StepOutboxed` | engine/logic.py:2385-2391 | every transaction keeps the outbox invariant; a commit command for a step under review is queued only by its approval |
| `OutboxRuns.InFlightIsQueued` | engine/logic.py:2634-2690 | each IN_PROGRESS worker row and each COMPENSATING undo has its command queued under its current key with its current arguments, across rotation, requeue, review and retries |
| `OutboxRuns.HeldIsNotQueued` | engine/logic.py:2019-2035 | a waiting row, or a commit held for review, has no command under its key |
| `OutboxRuns.CommitsArePermitted` | engine/logic.py:2038-2085 | every DO_COMMIT carries arguments on which the policy gate of its step passes |
| `OutboxRuns.ReviewedCommitsAsHeld` | engine/logic.py:1128-1202 | every DO_COMMIT ever queued was, when queued, for a step without review, or a first HUMAN_APPROVED of its span was ingested while exactly its arguments were held |
| `OutboxRuns.WorkersNeverResume` | engine/child_sagas.py:464-508 | without spawn and join steps a child wake-up does nothing, so the order results need no hypothesis on it |
| `LabelKeys.KeysDistinctExactly` | common/loops.py:289-301 | for every blueprint the schema accepts: the keys of forward rows and of the undos of spawn rows, as text, stay distinct however far its loops run, if and only if no step id outside a loop reads like a pass of a loop-body step or like the undo of a spawn step, and no two body steps of different loops read alike with their loop ids |
| `RowKeys.KeysNeverCollide` | common/models.py:137-137 | in every reachable state all rows of a saga, forward and undo rows, have pairwise different idempotency keys, the undo of a spawn with the suffixed key of its row, through loop passes, key rotation and every retry: no transaction breaks the unique column |
| `LabelKeys.StartCollides` | common/schemas/saga.py:750-768 | an accepted blueprint whose first two rows get one key |
| `LabelKeys.LoopsCollide` | common/schemas/saga.py:750-768 | an accepted blueprint whose two loops get one key, once the first has been left |
| `LabelKeys.SpawnUndoCollides` | engine/child_sagas.py:563-595 | an accepted blueprint whose rows have distinct keys, but the undo of its spawn gets the key of its second row |
| `SagaEngine.Engine.constructor` | engine/api/saga_start.py:124-213 | a new engine object holds the started saga |
| `SagaEngine.Engine.TakeNextSegment` | common/loops.py:145-182 | the loop over the blueprint yields the segment, cursor and active loop of the specification |
| `SagaEngine.Engine.MintBody` | common/loops.py:185-203 | the body of a pass, annotated with loop and iteration |
| `SagaEngine.Engine.LoopBodyStepIds` | common/loops.py:206-213 | the ids of the body in order |
| `SagaEngine.Engine.MaterializeExecutableSteps` | engine/step_materialize.py:195-226 | the minting loop appends PENDING rows with consecutive numbers, fresh spans and forward keys |
| `SagaEngine.Engine.MintAndSchedule` | engine/loop_control.py:48-69 | minting after the highest forward_seq, then scheduling from the first new row |
| `SagaEngine.Engine.FailSagaAfterSuccessfulBody` | engine/loop_control.py:72-109 | compensation that includes the row that ended the pass |
| `SagaEngine.Engine.ExitLoop` | engine/loop_control.py:112-163 | leaving a loop and scheduling on, in the next segment or after the row |
| `SagaEngine.Engine.ContinueLoop` | engine/loop_control.py:166-195 | minting the next pass and scheduling into it |
| `SagaEngine.Engine.HandlePossibleLoopBoundary` | engine/loop_control.py:246-345 | the test by last body id decides as the last row does; when it takes over, the whole transaction is that of the specification |
| `SagaEngine.Engine.ScheduleNextForwardStep` | engine/logic.py:173-286 | the candidate loop settles exactly where the recursive scheduler does |
| `SagaEngine.Engine.FinalizeStepOutputAndAdvance` | engine/logic.py:767-824 | output recorded, then boundary or next row |
| `SagaEngine.Engine.BuildForwardWorkerCommand` | engine/logic.py:2038-2198 | guard, gate, hold and command in the order of the code |
| `SagaEngine.Engine.RunNative` | engine/child_sagas.py:179-269 | spawn and join run in the same transaction: wait, fail or go on |
| `SagaEngine.Engine.TriggerStep` | engine/logic.py:2201-2410 | finished, running or held rows are left alone unless allowed; otherwise the row is run |
| `SagaEngine.Engine.ApplyStepFailureLifecycle` | engine/logic.py:1504-1615 | hold, fail or compensate from the right sequence number |
| `SagaEngine.Engine.AdvanceLifoCompensation` | engine/logic.py:2699-2778 | the while loop over forward_seq is the recursive walk |
| `SagaEngine.Engine.CompensateSpawnSagasForward` | engine/child_sagas.py:526-602 | a spawn undo is recorded once all children have ended, and the walk goes on |
| `SagaEngine.Engine.HandleSagaStarted` | engine/logic.py:728-763 | starts a PENDING saga only |
| `SagaEngine.Engine.HandleStepCompleted` | engine/logic.py:1021-1090 | stale replies ignored, then schema, policy, review, finish |
| `SagaEngine.Engine.HandleHitlApproved` | engine/logic.py:1094-1273 | approval of a held row |
| `SagaEngine.Engine.ReleaseCommit` | engine/logic.py:1128-1202 | the held commit goes out with its stored arguments |
| `SagaEngine.Engine.HandleHumanRetry` | engine/logic.py:1334-1438 | rotation of the key and a new run, within the limit |
| `SagaEngine.Engine.HandleStepFailed` | engine/logic.py:1619-1686 | which failures are dropped and which run the lifecycle |
| `SagaEngine.Engine.HandleCompensationCompleted` | engine/logic.py:1690-1788 | only an undo in flight is marked, then the walk goes on below it |
| `SagaEngine.Engine.ProcessSagaEvent` | engine/logic.py:464-563 | claim the dedup key, then handle: exactly one ingest of the specification |
| `SagaEngine.Engine.ExecuteStepRetry` | engine/recovery.py:272-415 | retry-step with its refusals, requeue and rotation |
| `SagaEngine.Engine.ExecuteRetryForward` | engine/recovery.py:591-666 | retry-forward from a hold |
| `SagaEngine.Engine.ExecuteStartCompensation` | engine/recovery.py:706-790 | start-compensation from a hold |
| `SagaEngine.Engine.ExecuteCompensationRetry` | engine/recovery.py:455-535 | retry-compensation |
| `SagaEngine.Engine.OnChildSagaTerminal` | engine/child_sagas.py:464-508 | wake the parked join, then try to resume a spawn undo |
| `SagaEngine.Engine.Transact` | engine/logic.py:463-563 | any transaction is the specified one, and the object stays valid unless it came out of order |
| `ForwardPath.OthersKept` | common/loops.py:267-286 | a change of the active loop's counter leaves the loops behind it left and those ahead untouched |
| `ForwardSteps.SkippedThrough` | engine/logic.py:116-150 | a skip, with the entry blanked inside a loop, is the step the interpreter takes: same trace, same context, latest-wins view kept |
| `SagaInvariant.FinishedInv` | engine/logic.py:1868-1923 | completion past the last row keeps the invariant: every row finished cleanly and the whole blueprint was interpreted |
| `EngineTrack.LastBodyStepIsLastRow` | common/loops.py:216-221 | on track, a row carries the last body id of its loop if and only if it is the last row |
| `EngineTrack.NumberedQueries` | engine/loop_control.py:35-45 | the query for the highest forward_seq and the lookup by forward_seq find what their position says |
| `ClaimProtocol.EmissionsAreFenced` | workers/logic.py:519-706 | over any interleaving of polls, claims, crashes, both reapers, redelivery, force release, and releases for a human retry made before a success or when the command is over, emissions are failures and then at most one success, under pairwise different tokens |
| `ClaimProtocol.EmittedUnderLiveToken` | common/processed_command_claim.py:76-125 | whatever is emitted is emitted under the token that owns the unfinished claim at that moment |
| `ClaimProtocol.EvictedTokenStaysDead` | common/processed_command_claim.py:76-125 | a token that has lost its claim never owns one again and nothing more is emitted under it, whatever happens later |
| `ClaimProtocol.EvictionKills` | common/processed_command_reap.py:42-56 | reaping, releasing or finishing a claim is what kills its token |
| `ClaimProtocol.CompletedStays` | common/messaging/postgres.py:380-391 | a COMPLETED outbox row never changes status |
| `ClaimProtocol.SuccessAndCompletionAreFinal` | common/outbox_reap.py:69-125 | from any point of a run, nothing follows a success and COMPLETED stays |
| `ClaimProtocol.HitlReleaseExact` | common/processed_command_reap.py:59-74 | after a success, the release for a human retry keeps the promise if and only if the row is COMPLETED and no handler is about to claim |
| `ClaimProtocol.HitlReleaseSafe` | common/processed_command_reap.py:59-74 | the release keeps the invariant if and only if no success was emitted |
| `ClaimProtocol.TwoSuccesses` | common/processed_command_reap.py:59-74 | a run in which one key emits two successes |
| `ClaimDelivery.CompletedIsAnswered` | common/messaging/postgres.py:393-422 | over any run, a row is COMPLETED only through the return of a handler that had reported under its token, its report emitted if it still owned the claim, or had found the key claimed; never through one that raised |
| `ClaimDelivery.RaisedIsFailed` | common/messaging/postgres.py:411-417 | a handler that raised emits nothing and leaves its IN_PROGRESS row FAILED |
| `ClaimDelivery.RedeliveryExact` | common/outbox_reap.py:69-125 | a command can reach a new handler again if and only if its row is not COMPLETED |
| `ClaimDelivery.FailedIsRedelivered` | engine/recovery.py:137-167 | a forced requeue and a poll deliver again a PENDING or FAILED row, and an IN_PROGRESS one exactly when it is stale |
| `ClaimDelivery.DeliveryExact` | workers/logic.py:275-312 | a delivered command is executed, under a token nobody has had, if and only if its key is free or its claim unfinished and stale; otherwise the handler returns and changes nothing |
| `ClaimDelivery.ReportCompletes` | workers/logic.py:519-706 | a report under the owned token is emitted, keeps the claim for good after a success and frees it after a failure, and the row completes |
| `ClaimDelivery.CrashIsRecovered` | common/outbox_reap.py:69-125 | a handler that crashes reports nothing, and as long as no success was emitted the reaper and the next poll bring its command to another handler under a token of its own |
| `ClaimDelivery.LostDeliveryIsReaped` | common/messaging/postgres.py:424-458 | a row taken by a poll that dies at once is found by no poll until the reaper has put it back |
| `ClaimDelivery.EvictedIsFenced` | common/processed_command_reap.py:42-97 | once its claim is evicted, by either reaper or by force, a worker's report of success or failure is lost and the key is free; a claim that has emitted is not evicted |
| `ClaimDelivery.HandlersGoOn` | workers/logic.py:275-312 | nobody else moves a handler, and each move of its own takes it further, so it tries to claim twice at most |
| `OutboxRuns.RunKeepsCommands` | common/messaging/postgres.py:133-178 | publishing never removes or replaces a command: over any in-order run each queued command stays under its key |
| `ClaimStore.Tables.ClaimIdempotencyKey` | workers/logic.py:275-312 | the two-attempt loop claims exactly when the key is free or its claim is stale and unfinished |
| `ClaimStore.Tables.FinalizeSuccess` | workers/logic.py:519-557 | mark, then emit only if the claim was still owned |
| `ClaimStore.Tables.FinalizeFailure` | workers/logic.py:646-706 | verify, emit, release |
| `ClaimStore.Tables.ReleaseCommandClaim` | workers/logic.py:1008-1022 | deletes the claim with this token only |
| `ClaimStore.Tables.PollRows` | common/messaging/postgres.py:424-458 | up to a batch of unlocked PENDING rows becomes IN_PROGRESS, older rows before younger ones; a short batch leaves none behind |
| `ClaimStore.Tables.ReapPairedWorkerCommandsOutbox` | common/outbox_reap.py:69-125 | each reaped row loses its unfinished claim and is PENDING again; emitted claims and other rows are untouched; a short run leaves no stale row |
| `ClaimStore.Tables.ReapStaleProcessedCommands` | common/processed_command_reap.py:77-97 | only stale unfinished claims are deleted |
| `ClaimStore.Tables.HandleActiveClaim` | engine/recovery.py:115-134 | refuses exactly on a young unfinished claim without force |
| `ClaimStore.Tables.RequeueWorkerOutbox` | engine/recovery.py:137-167 | reports whether the row is PENDING afterwards |
| `JoinWakeup.ParkedHasOpenChild` | engine/child_sagas.py:464-508 | no lost wake-up: in any interleaving of child and parent transactions a parked join has a child that has not ended |
| `JoinWakeup.LastChildWakes` | engine/child_sagas.py:386-433 | the end of a child commits its status, and in the same transaction completes a parked join if and only if no other child is open |
| `JoinWakeup.ParentDecides` | engine/child_sagas.py:436-461 | reaching the join, or retrying it, completes it if and only if no child is open, and otherwise leaves it parked |
| `JoinWakeup.OverMeansEnded` | engine/child_sagas.py:386-433 | over any run in which the parent does not drop its join, the join is over only if there was a moment at which every child had ended |
| `JoinWakeup.ReopenedIsWaitedFor` | engine/child_sagas.py:355-361 | a FAILED child that an operator opens again is waited for by a join reached after that, and a join that is over stays over |
| `JoinWakeup.AbortsLeaveNothing` | engine/child_sagas.py:464-508 | a child's or the parent's transaction that aborts, however far it has come, leaves nothing behind; a join the parent drops is over |
| `ChildSagas.ValidateSpawnItems` | common/child_sagas.py:56-84 | accepted exactly when 1 to max items all have a non-blank id; otherwise the first offence is named |
| `ChildSagas.SummarizeJoinChildren` | common/child_sagas.py:110-125 | the counts add up exactly when all children have ended, and no success is counted exactly when none completed |
| `ChildSagas.AllChildrenTerminal` | engine/child_sagas.py:355-361 | true exactly for a non-empty set of ended children |
| `ChildSagas.Spawner.SpawnOneChild` | engine/child_sagas.py:111-176 | the child of an item is started once and found again; refused exactly when the definition is gone, or the child is new and cannot be hydrated |
| `ChildSagas.Spawner.ExecuteSpawnSagas` | engine/child_sagas.py:179-269 | validation, then all children linked in one savepoint; succeeds exactly when the items are valid, the definition is active and every new child can be hydrated, otherwise nothing changed |
| `ChildSagas.SpawnIsIdempotent` | engine/child_sagas.py:111-176 | running a spawn again yields the same children and creates none; different ids have different children |
| `ChildSagas.SpawnsShareNothing` | engine/child_sagas.py:111-176 | spawns of different parents, or of different steps of one parent, have no child in common |
| `ChildSagas.TrimTakesBlanks` | common/child_sagas.py:56-84 | an item id loses the blanks at both ends and nothing else; it is blank if and only if nothing is left |
| `RecoveryIdempotency.AppliedAtMostOnce` | engine/recovery_idempotency.py:85-124 | over any interleaving the effect is committed at most once, every answer is the stored response, mismatching calls change nothing |
| `RecoveryIdempotency.ReplayExact` | engine/recovery_idempotency.py:75-82 | once a record exists, a matching call gets the stored response if and only if it had not looked before |
| `RecoveryIdempotency.FirstFinishApplies` | engine/recovery_idempotency.py:96-124 | of the calls that looked before there was a record, the first to finish takes effect, is recorded and answered, unless the recovery refuses; then nothing has changed |
| `RecoveryIdempotency.CallsGoOn` | engine/recovery_idempotency.py:85-124 | nobody else moves a call, each move of its own takes it further, and one that aborts leaves neither record nor effect |
| `RecoveryIdempotency.TwinGetsError` | engine/recovery_idempotency.py:111-124 | two matching calls that both looked first: one answer, one error |
| `RecoveryIdempotency.RecoveryTable.WithOperatorRecoveryIdempotency` | engine/recovery_idempotency.py:85-124 | one call on its own: replay, conflict, or apply and record |
| `Prompts.IncludeBlockSpan` | common/prompts.py:150-168 | finds where a bare include block ends, or that there is none |
| `Prompts.ScanIncludeBlockBody` | common/prompts.py:113-147 | one string, no modifier, a block end |
| `Prompts.ExpandPrompt` | common/prompts.py:183-206 | recursion with an index loop computes the expansion, and ends on every finite file set |
| `Prompts.FreezePromptDefinition` | common/prompts.py:171-208 | the frozen text is the full recursive substitution, if that ends, and only then |
| `Prompts.FrozenIffNoDeadEnd` | common/prompts.py:183-206 | accepted if and only if no chain of includes meets a cycle, a missing file or a malformed one |
| `Prompts.CycleReportedExactly` | common/prompts.py:184-186 | with all files present and valid, a cycle is reported if and only if one is reachable, and the trace is one |
| `Prompts.FreezeIsSubstitution` | common/prompts.py:171-208 | expansion with a stack equals plain substitution without one |
| `PromptText.IncludeBlockExact` | common/prompts.py:113-168 | a block is a bare include of a path if and only if its first word is `include` and one literal path, with only blanks around it, stands between that word and the block end; a block that is an include but not of that form, with a modifier for instance, is refused |
| `PromptText.TextIsKept` | common/prompts.py:196-206 | tokens outside include blocks come out as they are, in order |
| `PromptText.FirstIncludeReplaced` | common/prompts.py:196-206 | an include block is replaced by the expansion of its file, the text before it stays, and the rest is expanded in the same way; an include that is rejected rejects the whole |
| `PromptText.PlainFileStays` | common/prompts.py:188-195 | a file without includes is its own expansion |
| `PromptText.RejectionJustified` | common/prompts.py:183-206 | a rejection names a real offence: a chain of includes that leads back into itself, or to a file that is missing or malformed |
| `ToolNames.SanitizedIsSafe` | workers/tool_names.py:12-23 | 1 to 64 legal characters, no doubled and no leading underscore |
| `ToolNames.CleanStays` | workers/tool_names.py:12-23 | a name that is already as wanted is unchanged |
| `ToolWords.SanitizedIsItsWords` | workers/tool_names.py:12-23 | the sanitized name is the maximal runs of letters, digits and hyphens of the name, joined by single underscores, `tool` if there are none, cut to 64 characters |
| `ToolNames.SanitizeIdempotent` | workers/tool_names.py:12-23 | a second pass changes nothing if and only if cutting left no trailing underscore |
| `ToolNames.CandidatesDiffer` | workers/tool_names.py:32-39 | candidates for different indices differ, whatever is cut from the base |
| `ToolNames.CandidateLength` | workers/tool_names.py:32-39 | a candidate keeps within 64 characters if and only if its index has at most 63 digits |
| `ToolWords.CandidateReads` | workers/tool_names.py:32-39 | a candidate is a prefix of the base, an underscore and the index in decimal without leading zero |
| `ToolNames.AliasPool.AllocateUniqueSanitizedName` | workers/tool_names.py:26-39 | the loop ends after at most as many tries as names are used, at the first free candidate |
| `ToolNames.ResolveUniqueToolAliases` | workers/tool_names.py:42-49 | as many distinct aliases as names, each legal and leading back to its own name |

## Left out

- SagaTheorems.RefinesInterpreter: facts beside the output data are not stored on rows, so the interpreter's outputs are fixed by the rows up to their facts.
- SagaTheorems.CompensationIsLifo: the start of the window is a history variable of the model, set where compensation starts and read by no transition; CompensatedUndoesAllRisk says the same without it.
- ClaimProtocol.EmissionsAreFenced: verify and emit count as one atomic transaction.
- ClaimStore.Tables.PollRows: the row selection of one SQL statement is written as a loop.
- ChildSagas.Spawner.ExecuteSpawnSagas: whether `items_from` resolves and whether a child's input and steps can be hydrated are answers given from outside.
- JoinWakeup.ParkedHasOpenChild: only the statuses of the children, the join row and the parent's row lock are kept; that an open child ends some day is not claimed.
- Prompts.ExpandPrompt: a file whose template is rejected as a whole (parse errors, dynamic includes) is one oracle answer; the shortcut for files without includes is covered because token texts concatenate to the source.
- ToolNames.ResolveUniqueToolAliases: the 64-character bound is stated for fewer than 10^63 names, which is where the code keeps it.
- The 128 characters an idempotency key may have, and what a database does with a longer one.
- SAGA_STARTED in the outbox, audit hooks, error briefs, timing, usage and payload size checks: no effect on the state machine.
- The order in which queued human answers are delivered: they may be delivered in any order, any number of times, also after their outbox row failed and was queued again.
- The timeout reaper is not part of this model; its effect, a failure report with a timeout, is.
- Payload and argument building (JSONPath, schemas, Jinja rendering, tool coercion): oracles.
- Catalog hydration, tighten-only overrides, HTTP API, CLI, MCP and LLM adapters: no state properties of their own.
- Poll intervals, LISTEN/NOTIFY, wall-clock staleness and fairness: reapers may act on any unfinished row.
- Conflict answers of the recovery API: a refused call leaves the saga unchanged and returns nothing.
