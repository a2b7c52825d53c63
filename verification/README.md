# Autopilot orchestrator: a verified model

This project models the parts of the autopilot orchestrator whose guarantees only show over whole runs, and
proves those guarantees in Dafny. `dafny verify dfyconfig.toml` checks everything.

**How the source is rendered.** Code that changes state step by step is imperative here: a class with the same
fields, methods with loops and invariants, each proved equal to a specification function on the old state. The
properties are lemmas about those functions. Everything outside the program - the driver, the local model, the
human, the stop signal, the clock, the transcript, the git fingerprint - is a script of answers, so "for every
script" means "whatever the environment does". A script may end before the run does; the theorems cover such
cut-off runs too.

| module | models |
|---|---|
| `Text`, `TextFacts` | trimming, lower case, normalisation, numerals, word overlap; and what they mean in terms of words |
| `GuardPolicy` | the run guards and the stall detector |
| `RunModel`, `LoopState` | events, environment answers, and what both engine loops share |
| `Recovery`, `LadderFacts`, `RecoveryFacts` | the turn-recovery ladder, what it does attempt by attempt, and its promises |
| `Orchestrator`, `TraceShape` | `runSession` and the shape of every trace |
| `PassFacts`, `RunFacts` | what one pass of it does with each answer; where a run's turns come from and why it ends |
| `OpenCodeLoop`, `LockStep`, `StallReach`, `TamedRun` | `runOpenCodeSession`, its equivalence with `runSession`, and when the two differ |
| `Recorder`, `RecorderFacts` | events to rows, session by session |
| `RunRows`, `StoredRun` | the rows that recording whole runs leaves behind, column by column |
| `LiveSignals`, `EndToEnd`, `ReinjectedRun` | rows to mined corrections; loop to rows to corrections; a run that yields a false one |
| `WfDepth` | the memoised depth search over dependency graphs |
| `WindowLog`, `RateLimit` | sliding windows over a log; the limiter and the auth gate |
| `StreamJson`, `StreamFacts` | the incremental line parser |
| `Attach`, `AttachFacts` | attach-mode handling, its awaits interleaved |
| `Profiles`, `ProfileHistory` | versioned profiles, the eval gate, and every history of operations |
| `ExampleBank`, `Miner`, `MinerFacts` | merging, ranking and capping examples; mining them from sessions |
| `Automation`, `PlanKeys` | the automation planner and its duplicate keys |
| `Cascade`, `ChainCap`, `RuleCascades` | which cascades end, what the chain cap bounds, and rule lists that show both limits |
| `Schedule`, `Csv` | schedules, quiet hours, and the CSV export |

## What the proofs found

- The two engine loops are in lock step only up to one text: the "Continue as planned" option of a stall
  escalation has a longer rationale in src/orchestrator.ts:450 than in src/opencodeOrchestrator.ts:229. Their traces
  are equal word by word in every environment exactly when no stall can be escalated: the stall detector is off, its
  threshold is not below the turn limit, or the ping-pong guard lets no turn run. Up to that text the second engine
  does in every environment what the first does where no failure can be recovered from, limits and context are never
  looked at and there is no transcript.
- A turn the recovery ladder re-injected is recorded under the reconcile wrapper, which the miner compares with the
  brain's own prompt as if a human had written it. A run yields a correction exactly when some turn after the first
  was re-injected after a `continue` and the wrapped wording does not pass for the prompt; no other turn ever does.
  For every short prompt there is such a run.
- Retry-after counts from the oldest failure in the window. That is exact when the window is just full, which the
  auth gate ensures by asking before it records. With more failures in the window it is enough exactly when those in
  excess have left by then; two failures recorded without asking already make it too short.
- A daily schedule takes the instant 24 hours before today's boundary for yesterday's (src/policy/schedule.ts:32). On
  the day the clocks go back a session that was started at noon is therefore started again at midnight; when they go
  forward, a start still due from the day before is dropped if the session's last one, or its seed, lies in the hour
  before it was due. Schedules fire once in every interval between boundaries exactly when each boundary comes 24 hours
  after the one before or is the first instant of its day, as on a clock that is never set.
- Quiet hours look at the windows that started today and yesterday. With every weekday allowed that is right on any
  clock; with some weekdays only it is right exactly when no window reaches into the second day after its start. When
  the clocks go forward, the window from 23:59 to 23:58 does.
- Version listing uses SQLite's `LIKE`, which ignores ASCII case, so scopes that differ in case share one numbering:
  the first version of the second scope is not 1. A scope's versions are 1 to n exactly when no case variant of it
  has a version.
- The planner's duplicate keys join rule id (or target) and message with a colon. Notifications of two rules can
  collapse into one exactly when one rule id is the other followed by a colon, and messages to two sessions exactly
  when one session id is the other followed by a colon; the comment at src/policy/automation.ts:82-83
  promises that only exact duplicates do.
- The chain cap does not stop every cascade. Resuming after a usage limit, self-healing and releasing a dependent
  step start sessions without a generation (src/server/supervisor.ts:508, 568, 684), which resets them to 0 (:706).
  With at most `r` such restarts every cascade ends after a number of hops fixed beforehand; with one every `cap` hops
  it need never end. Cascades end from every state exactly when actions lead to no events, or the cap is on and the
  restarts are limited.
- Nor does the cap bound causal chains, even without restarts: a hop overwrites the generation of a session that is
  already running (src/server/supervisor.ts:1342, 1369, 1384), also downwards. From `p` root events with `b` events
  an action, chains are sure to stay within the cap exactly when `p` or `b` is 0, or the cap is 1, or there is one
  root and `b` is 1 or the cap is 2; in all other cases one or two rules make them pass it.
- The miner's global list stops counting once it holds 5000 examples: repeats of examples it holds are not counted
  either. It is complete exactly when it still had room when the last example came.
- Appending examples to a full bank in two batches is not appending them at once: what the first batch evicts loses its
  count.
- The CSV export quotes no carriage returns. A reader that also breaks rows at CRLF loses one exactly at the end of an
  unquoted last field; one that admits them in quotes only, as RFC 4180 does, fails on any in an unquoted field.
- A `pingPongThreshold` of zero or less stops every run at its first prompt.

## Model

| member | source | states |
|---|---|---|
| GuardPolicy.Guards.Check | src/policy/guards.ts:26-58 | the guard check counts the turn and then tests turn cap, wall clock and ping-pong window, in that order; the next row says what that amounts to |
| GuardPolicy.CheckPassesIff | src/policy/guards.ts:26-58 | for every history of prompts that passed: a check passes if and only if a turn is left, the wall-clock cap is not exceeded, the threshold is positive and the prompt does not complete a row of threshold-many that say the same; otherwise the reason is the first of these that fails |
| GuardPolicy.SamePromptIff | src/policy/guards.ts:20-23 | two prompts say the same if and only if they have the same words of letters and digits, up to case |
| GuardPolicy.PassExtendsHistory | src/policy/guards.ts:26-58 | when a check passes, the guard's window holds exactly the last prompts that passed, their number is within the turn cap, and no threshold-many of them in a row are the same |
| GuardPolicy.CheckKeepsEchoes | src/policy/guards.ts:41-55 | with blocked checks in between, which push their prompt onto the window too, no threshold-many prompts that passed one after another are the same |
| GuardPolicy.StuckDetector.Record | src/policy/stuck.ts:64-68 | recording a fingerprint extends or restarts the streak |
| GuardPolicy.StuckDetector.Reset | src/policy/stuck.ts:81-83 | resetting forgets the streak but not the last fingerprint |
| GuardPolicy.StuckMeansUnchanged | src/policy/stuck.ts:63-83 | over every sequence of records and resets: the detector fires if and only if the last `threshold` records all came after the last reset and each found the files as the record before it did |
| LoopState.LoopState.WaitsForBrain | src/orchestrator.ts:347-364 | the wait for the local model ends at the first healthy poll or the first stop, whichever comes first |
| LoopState.LoopState.AsksBrain | src/orchestrator.ts:426-489 | a brain decision becomes a prompt, a stop, a human request, or - when the files have stalled - an escalation instead of a continue |
| LoopState.LoopState.AsksHuman | src/orchestrator.ts:467-485 | an escalation asks the human exactly once and takes the answer; PassFacts.HumanIsObeyed and RunFacts.DecisionsAreDone say what follows from it |
| Recovery.ReinjectionIsNotVerbatim | src/orchestrator.ts:241-247 | the re-injected text is the prompt itself if and only if the prompt is a slash command |
| Recovery.GraceIsBounded | src/orchestrator.ts:281-302 | the grace loop makes at most 180 polls, whatever the transcript does |
| Recovery.ReconcileOnlyWhenQuiet | src/orchestrator.ts:275-303 | a turn is given up for reconciling only after a turn end without reply text, at the hard cap, or after two minutes in which no poll saw growth |
| Recovery.WaitOutGrace | src/orchestrator.ts:281-302 | the polling loop reaches the verdict of the recursive specification |
| Recovery.TryOnce | src/orchestrator.ts:253-306 | one attempt: respawn, triage of the transcript, then at most one send |
| Recovery.RunTurnRecovered | src/orchestrator.ts:248-324 | the retry loop computes the ladder: its events, what it did to the driver, and its outcome; the next row says what they are |
| LadderFacts.LadderIsItsAttempts | src/orchestrator.ts:248-324 | for every script: at most three attempts are made, each after one that failed with a timeout or a lost process while no stop was asked for; each respawns, sends and reports as its answers say, in order, is announced with the failure before it, and the last one made decides how the turn ends |
| RecoveryFacts.NeverRetried | src/orchestrator.ts:232-236 | when a start or a send fails with an auth, rate-limit, cwd or unknown failure, nothing more is done to the driver, and the outcome is that failure, or an operator stop if one was asked for |
| RecoveryFacts.RetriedTwice | src/orchestrator.ts:307-323 | when it fails with a timeout or a lost process and no stop was asked for, the recovery is announced and the driver respawned, unless stopped in the backoff; after the third attempt the outcome is that failure |
| RecoveryFacts.TriageReads | src/orchestrator.ts:264-281 | a respawn that finds no growth sends the prompt as it is due; one that finds the turn ended with a reply takes it; any other waits, with two minutes of quiet to go |
| RecoveryFacts.GraceTakesTheFirst | src/orchestrator.ts:281-302 | the first poll that finds the operator's stop, or the turn ended with the transcript at rest, settles the wait: as interrupted, with the reply, or to be reconciled |
| RecoveryFacts.QuietEndsTheWait | src/orchestrator.ts:277-289 | every poll comes within two minutes of the start or of a poll that saw the transcript grow |
| RecoveryFacts.SlashCommandIff | src/orchestrator.ts:241-243 | a prompt counts as a slash command if and only if its first character that is no white space is a slash |
| RecoveryFacts.AtMostThreeTurns | src/orchestrator.ts:230-324 | a sourced prompt costs at most three driver turns and at most two recovery events |
| RecoveryFacts.NeverBlindlyResent | src/orchestrator.ts:237-306 | each send carries the prompt verbatim if and only if no attempt so far saw the transcript grow, or the prompt is a slash command |
| RecoveryFacts.ReportedPrompt | src/orchestrator.ts:272-306 | the finished turn reports the sourced prompt, or its reconcile form when that was really sent |
| RecoveryFacts.NothingAfterTheLast | src/orchestrator.ts:232-236 | after an auth, rate-limit, cwd or unknown failure, an operator stop or a landed reply no further respawn or send happens |
| RecoveryFacts.LandedReplyIsReturned | src/orchestrator.ts:271-274 | a reply found finished in the transcript is the turn's result |
| RecoveryFacts.LandedReplyIsNotResent | src/orchestrator.ts:264-274 | ... and neither that attempt nor a later one sends anything |
| RecoveryFacts.StoppedIsNotResurrected | src/orchestrator.ts:257-261 | a session stopped during the backoff is never respawned |
| Orchestrator.Session.constructor | src/orchestrator.ts:184-218 | a run begins with its start event, no turns and fresh guards |
| Orchestrator.Session.Sources | src/orchestrator.ts:385-491 | the next prompt comes from the seed, the human, the goal or the brain, in the source's order |
| Orchestrator.Session.Executes | src/orchestrator.ts:495-517 | a sourced prompt is guarded, run through the ladder, and recorded as one turn event |
| Orchestrator.Session.Compacts | src/orchestrator.ts:519-536 | the compaction of a context, as specified |
| Orchestrator.Session.ChecksUsage | src/orchestrator.ts:333-345 | the reading of the limits, as specified; PassFacts.UsageDecides and the rows behind it say what it comes to |
| Orchestrator.Session.Raises | src/orchestrator.ts:541-563 | a failure ends the run with one error, or with rate_limited and stop |
| Orchestrator.RunSession | src/orchestrator.ts:184-567 | the whole run loop computes the run specified by its script of answers |
| PassFacts.CalledIsSourced | src/orchestrator.ts:385-491 | in every state of a run the prompt sourced is the seed, what the user typed, the goal of a fresh run, what the brain said unless the files have stalled, or what the human chose; each whenever it is called for |
| PassFacts.NothingElseRuns | src/orchestrator.ts:385-493 | a pass that calls for no prompt runs none and does nothing to the driver |
| PassFacts.RefusedPromptEndsTheRun | src/orchestrator.ts:496-500 | a prompt the guards refuse ends the run with their reason, and nothing is done to the driver |
| PassFacts.FinishedPromptIsATurn | src/orchestrator.ts:501-516 | one that passes and that the driver finishes is the next turn run and reported |
| PassFacts.QuietTurn | src/orchestrator.ts:501-540 | if nothing else is due, it leaves its own events and no others, its reply becomes the last one, and the run goes on |
| PassFacts.BrokenPromptEndsTheRun | src/orchestrator.ts:541-563 | one that the driver gives up on ends the run: with rate_limited and stop, with one error, or with the operator's stop |
| PassFacts.AskedOnce | src/orchestrator.ts:403-436 | the brain is asked exactly when it is its turn, and shown the last reply, or the transcript's if there is none |
| PassFacts.UnreachableBrainIsWaitedFor | src/orchestrator.ts:352-364 | if the model is unreachable the run waits, and the first poll with a stop before or after its pause, or with good health, decides: stopped in the first case, without a turn and asking again in the other |
| PassFacts.BrainEndsTheRun | src/orchestrator.ts:431-463 | a decision to stop is reported and ends the run with its reason; a brain call that fails for good ends it with the failure |
| PassFacts.HumanIsObeyed | src/orchestrator.ts:467-485 | when the brain escalates, or would continue although the files have stalled: the request is reported and put, a human's stop ends the run at once, and a chosen prompt goes to the guards and the driver as it is |
| PassFacts.StallOptions | src/orchestrator.ts:439-455 | the stall escalation names the streak and offers the brain's own prompt or a fixed other one |
| PassFacts.CompactionInOrder | src/orchestrator.ts:519-536 | handoff, /compact and resume prompt go to the driver in this order, and if all three finish the resume turn's reply becomes the last one |
| PassFacts.FailedCompactionEndsTheRun | src/orchestrator.ts:530-532 | the first of them that does not finish ends the run, and those after it are not run |
| PassFacts.UsageDecides | src/orchestrator.ts:333-345 | a spent limit is reported, announced and stops the run with its reason; one that is not is reported and the run goes on; none or one not due leaves everything as it is |
| PassFacts.SpentAtTheStart | src/orchestrator.ts:374-376 | a limit spent before the first turn: the run is over with exactly start, usage, limited and stop, and nothing was asked or done |
| PassFacts.SpentAfterATurn | src/orchestrator.ts:538-539 | one found spent after a turn and its compaction: the run is over with exactly usage, limited and stop behind them |
| RunFacts.EveryTurnHasItsPass | src/orchestrator.ts:376-516 | over every run, pass by pass: a turn is run if and only if a prompt is called for, a turn is left, the clock has not run out, it completes no row that says the same, and the driver finishes it; then it is that prompt's |
| RunFacts.SeedPromptComesFirst | src/orchestrator.ts:388-393 | a run that is given a prompt to begin with runs no other first, in whatever mode and whatever it is told |
| RunFacts.EveryStopHasItsCause | src/orchestrator.ts:326-563 | a final stop is the guard's or the operator's, or comes right behind what it repeats: a spent limit, a rate limit, the brain's decision to stop, the human's, or a model that stayed unreachable |
| RunFacts.CauseThenStop | src/orchestrator.ts:338-341 | and each of the first four is directly followed by that stop, which is the last event |
| RunFacts.DecisionsAreDone | src/orchestrator.ts:456-489 | the prompt of a continue decision, and that of an option the human chose, is the very prompt of the next turn, if there is one; a decision carries the number of turns before it, and an answer comes right behind its request |
| TraceShape.EveryRunIsWellFormed | src/orchestrator.ts:376-566 | every run, finished or cut off, has a well-formed trace; each turn reports its prompt or the reconcile form; and the final stop counts the turns run, and one more when the guard refused it |
| TraceShape.StartFirstEndLast | src/orchestrator.ts:218-566 | start occurs once and first; a stop or error occurs if and only if the run is over, once and last |
| TraceShape.LimitThenStop | src/orchestrator.ts:338-343 | limited and rate_limited are immediately followed by the final stop |
| TraceShape.TurnsAreNumbered | src/orchestrator.ts:496-514 | turn events are numbered 1 to k without gaps and k is at most maxTurns |
| TraceShape.NoPingPongRuns | src/policy/guards.ts:41-55 | no threshold-many consecutive turns were sourced from the same prompt; with no positive threshold no turn runs |
| OpenCodeLoop.RunOpenCodeSession | src/opencodeOrchestrator.ts:97-310 | the second engine refuses, fails to boot, or computes the run specified by its script |
| OpenCodeLoop.DriveOpenCode | src/opencodeOrchestrator.ts:176-304 | its loop computes the recursive specification |
| OpenCodeLoop.OpenExecutes | src/opencodeOrchestrator.ts:271-303 | one prompt is guarded, run once without recovery, and recorded |
| OpenCodeLoop.OpenSources | src/opencodeOrchestrator.ts:194-267 | the second engine's prompt sourcing |
| LockStep.EnginesRunInLockStep | src/opencodeOrchestrator.ts:186-304 | fed the same answers, with the usage and context guards off, no boot or other failure from anyone a rate limit, and no driver failure that the first engine would recover from or that a stop overtakes, both loops ask the brain the same questions and emit the same events up to option rationales; the raw traces are equal if and only if no stall was escalated |
| TamedRun.OpenCodeIsTheTamedEngine | src/opencodeOrchestrator.ts:176-310 | in every environment the second engine asks the same questions and emits the same events, up to option rationales, as the first in the environment with all failures unknown ones, limits and context not due and no transcript |
| TamedRun.RefusesIff | src/opencodeOrchestrator.ts:97-125 | it refuses to start, with one error and nothing else, if and only if provider or model is not named, the provider is not one of the local ones and paid ones are not allowed, or the server is not there |
| StallReach.TracesAgreeIff | src/opencodeOrchestrator.ts:226-238 | the raw traces are equal in every such environment if and only if the stall detector is off, or its threshold is not below the turn limit, or the ping-pong guard lets no turn run |
| StallReach.StallWithinReach | src/orchestrator.ts:439-455 | otherwise there is an environment in which a stall is escalated |
| Recorder.Recorder.Records | src/db/recorder.ts:19-130 | one event changes the tables and the three maps as specified; the rows of StoredRun say what is then stored |
| Recorder.Recorder.Ends | src/db/recorder.ts:106-135 | ending a run closes its row and forgets the session's run and turn |
| RecorderFacts.RowsAreOwnHistory | src/db/recorder.ts:19-135 | under any interleaving a session's stored rows are a function of its own events |
| RecorderFacts.SessionsDoNotInterfere | src/db/recorder.ts:19-135 | ... namely, up to row ids, the rows of recording its projection alone |
| RecorderFacts.EndedRowsAreFinal | src/db/recorder.ts:106-135 | an event changes a run row only from running to ended, only its own session's row, and only when it is an end event; an ended row never changes |
| RecorderFacts.DecisionHangsOnLatestTurn | src/db/recorder.ts:46-58 | a decision row is written if and only if its session has an open run with a turn, and hangs on the newest turn of that run |
| RunRows.RecordedRun | src/db/recorder.ts:19-58 | recording a run adds one row with one turn row for each turn event, under each exactly the decisions made after it, closed as the run's end event says |
| RunRows.EachRunEndsOnce | src/db/recorder.ts:106-135 | runs of a session recorded one after the other among other sessions' events: each run's row stays running until the run's own end event is recorded, and from then on carries that very end |
| StoredRun.TurnIsStored | src/db/recorder.ts:35-45 | for every run, under any interleaving: each turn's row has its number, the prompt it reported and its reply, and there are no others |
| StoredRun.DecisionIsStored | src/db/recorder.ts:46-56 | ... each decision made after it is stored under it as continue, stop or escalate, with its reason, and with a prompt exactly when it is to continue |
| StoredRun.EndIsStored | src/db/recorder.ts:106-126 | ... the run's row says with which stop and after how many turns, or with which error, it ended, or that it is running |
| StoredRun.RequestIsStored | src/db/recorder.ts:58-78 | ... and each request's row has its question, its options and the turn it followed, with "stop" or the chosen option's name if it was answered and nothing if not |
| LiveSignals.DeriveCorrections | src/learning/liveSignals.ts:26-83 | the loop over maps returns the first override of each hash in turn order, stamped with the end of the run or else with its last turn |
| LiveSignals.OverrideSays | src/learning/liveSignals.ts:68-79 | an override holds the reply before the turn and what was injected, cut to three hundred characters and hashed in full, and is seen once, at the given time |
| LiveSignals.CorrectionsHappenedThen | src/learning/liveSignals.ts:36-44 | all that is derived from a run carries the time of its end, or, if it has none, of its last turn |
| LiveSignals.MinedAreExactlyOverrides | src/learning/liveSignals.ts:46-82 | every item mined is an override, every override's hash is mined, and no hash twice |
| LiveSignals.EmptyIffNoOverride | src/learning/liveSignals.ts:46-82 | nothing is mined if and only if no turn overrode the brain |
| TextFacts.SameInstructionIff | src/learning/util.ts:30-53 | two instructions are the same if and only if neither is blank and they have the same words in lower case, or at least nine tenths of the longer words that occur in either occur in both |
| Text.NormalizeKeepsInk | src/learning/util.ts:8-11 | normalising a non-blank instruction never yields the empty string, so an instruction is always the same as itself |
| EndToEnd.RowsOfARecordedRun | src/db/recorder.ts:29-58 | the rows of the last recorded run are that run's turns and decisions, and the row is closed if and only if the run is over |
| EndToEnd.EveryRunCanBeRecorded | src/db/recorder.ts:19-58 | the situation these theorems speak of exists for every run: recording its own trace is one |
| EndToEnd.OverrideIff | src/learning/liveSignals.ts:48-80 | the miner takes a turn of a run for an override if and only if it was re-injected after a `continue`, with prompt and previous reply not blank, and its wrapper does not pass for the prompt |
| EndToEnd.CorrectionsIff | src/learning/liveSignals.ts:48-80 | for every run, under any interleaving with other sessions, the miner derives a correction if and only if some turn after the first is such a one |
| EndToEnd.NoSpuriousCorrections | src/learning/liveSignals.ts:48-80 | in particular none from a run none of whose turns was re-injected |
| ReinjectedRun.ReinjectionIsMined | src/orchestrator.ts:275-306 | for every short prompt that is not blank and no slash command there is a run that re-injects it after a `continue` and from whose rows the miner derives a correction |
| ReinjectedRun.OneLetterIsMined | src/orchestrator.ts:275-306 | "x" is such a prompt |
| ReinjectedRun.ShortPromptIsNotItsWrapper | src/learning/util.ts:36-53 | a short prompt is never taken for the same instruction as the wrapper around it |
| EndToEnd.CorrectionsAreReinjections | src/orchestrator.ts:303-306 | for every run, whatever is derived is the wrapper around a prompt the ladder re-injected |
| WfDepth.ChainDepthOf | src/policy/wfdepth.ts:30-45 | 0 for an unknown id; on any graph, cycles included, the exact length of some simple chain ending at the id, so between 1 and the number of ids; on an acyclic one of the longest chain |
| WfDepth.Search.Depth | src/policy/wfdepth.ts:34-43 | the memoised search terminates, expands no id twice, keeps every memo entry backed by a simple chain and, on acyclic graphs, exact |
| WfDepth.MaxChainDepth | src/policy/wfdepth.ts:48-52 | on acyclic graphs the length of the longest chain anywhere; 0 if and only if there are no nodes |
| WfDepth.DepthWithEdge | src/policy/wfdepth.ts:64-69 | for known distinct ends whose edge keeps the graph acyclic: the maximum of the old depth and the longest chain to `from` plus the longest chain from `to` |
| WfDepth.EdgeDepth | src/policy/wfdepth.ts:58-69 | adding an edge deepens a graph exactly to the longest chain through it, if that is longer |
| RateLimit.RateLimiter.Hit | src/server/rateLimit.ts:55-57 | on any clock: prunes the address's bucket, decides, and records the request if it is accepted |
| RateLimit.RateLimiter.AuthBlocked | src/server/rateLimit.ts:60-62 | on any clock: prunes and decides, and records nothing |
| RateLimit.RateLimiter.RecordAuthFailure | src/server/rateLimit.ts:65-68 | adds one failure to the address's bucket and looks at nothing |
| RateLimit.RateLimiter.ClearAuthFailures | src/server/rateLimit.ts:71-73 | forgets the failures of one address only |
| RateLimit.RateLimiter.MaybeSweep | src/server/rateLimit.ts:114-123 | at most once a minute, drops exactly the buckets that are empty or wholly older than the longer window |
| RateLimit.RateLimiter.DropExpired | src/server/rateLimit.ts:99-102 | the splice removes exactly the expired prefix |
| RateLimit.SweepDropsTheDead | src/server/rateLimit.ts:114-123 | after a sweep exactly the buckets remain, unchanged, whose last entry lies in one of the windows, and there is none within a minute of the last |
| RateLimit.HitAgrees | src/server/rateLimit.ts:82-111 | a request is accepted exactly when fewer than the maximum of all requests ever accepted from the address lie in the window |
| RateLimit.AskAgrees | src/server/rateLimit.ts:60-62 | the guard blocks exactly when at least the maximum of failures since the last clear lie in the auth window |
| RateLimit.LimiterNeverForgets | src/server/rateLimit.ts:54-123 | on a clock that does not run backwards a limiter that prunes and sweeps answers every sequence of calls as one that never forgets |
| WindowLog.SweepAgrees | src/server/rateLimit.ts:114-123 | a bucket dropped as stale had nothing live in either window |
| WindowLog.AnyWindowIsBounded | src/server/rateLimit.ts:88-111 | any window, not only those ending at a request, holds at most the maximum of accepted requests |
| WindowLog.WindowOpensIff | src/server/rateLimit.ts:97-111 | a window with `e` entries more than the maximum has room again, if nothing is added, exactly once its live entry number `e` has left |
| WindowLog.RetryAfterSufficesIff | src/server/rateLimit.ts:104-108 | retry-after never overshoots by a second or more, and is enough exactly when that entry has left by then |
| WindowLog.RefusalRetryAfterIsExact | src/server/rateLimit.ts:104-108 | where every entry found room, a request `r` seconds later passes and one at most `r - 1` seconds later is still refused |
| RateLimit.WaitingPaysOff | src/server/rateLimit.ts:104-108 | the same of the limiter itself: a client told to wait that sends nothing meanwhile, whatever other clients and the auth guard do in between |
| RateLimit.Gate | src/server/index.ts:278-299 | token first, then guard, then record, the clock being read again for the record |
| RateLimit.GateAgrees | src/server/index.ts:278-299 | as long as failures are recorded through the gate, it answers by the log of failures and keeps every window at most full |
| RateLimit.GateRetryAfterIsExact | src/server/index.ts:288-306 | so its retry-after is exact, in every history of gate requests and general hits, whatever other addresses do meanwhile |
| RateLimit.UngatedRetryAfterFails | src/server/rateLimit.ts:65-68 | without that order it can be too short: four calls with concrete times and answers |
| StreamJson.StreamJsonParser.Feed | src/session/headlessSession.ts:84-92 | a chunk consumes exactly the complete lines of buffer and chunk; the rest waits |
| StreamJson.StreamJsonParser.Flush | src/session/headlessSession.ts:95-98 | the end of the stream consumes the unterminated line |
| StreamJson.AbsorbAppend | src/session/headlessSession.ts:84-92 | feeding two texts one after the other is feeding their concatenation |
| StreamJson.ChunkingInvariance | src/session/headlessSession.ts:84-127 | for every split of a stream into chunks, feeding and flushing leaves the state of a fold over the stream's lines |
| StreamFacts.StreamIsItsLastWords | src/session/headlessSession.ts:105-126 | for each field the last line that says something of the kind decides: the last assistant text that is not empty, the last result's error flag, the last result text that is not blank, trimmed, and the last session id |
| StreamJson.ReadOutput | src/session/headlessSession.ts:76-127 | a parser fed chunk by chunk ends with the reply, result flag and error flag of the whole stream |
| Attach.AttachManager.Registers | src/attach/attachManager.ts:126-135 | registering again makes a new registration with fresh guards |
| Attach.AttachManager.Unregisters | src/attach/attachManager.ts:138-140 | detaching forgets the session; calls in flight keep their registration |
| Attach.AttachManager.Begins | src/attach/attachManager.ts:168-200 | the synchronous start of a hook call: the loop guard and the unattached case answer at once |
| Attach.AttachManager.ReadReturned | src/attach/attachManager.ts:200-209 | the call between its two awaits |
| Attach.AttachManager.BrainReturned | src/attach/attachManager.ts:211-240 | the call after the brain answered: decide, check, record and return |
| AttachFacts.AttachedIff | src/attach/attachManager.ts:126-145 | under any interleaving a session is attached if and only if it was registered and not unregistered since, and then as its last registration |
| AttachFacts.CallBegins | src/attach/attachManager.ts:168-189 | a call is answered at once if the stop hook is already active, or if its session is not attached, and otherwise waits for the transcript |
| AttachFacts.ReadReturnsToTheCall | src/attach/attachManager.ts:200-209 | a transcript that cannot be read lets the session stop, one that can has the brain asked about the turn after those counted by then |
| AttachFacts.BrainIsHeard | src/attach/attachManager.ts:211-236 | a stop carries the brain's reason, or a stock one, and whether the user is needed; a continue without a prompt is a stop; one with a prompt goes on, trimmed, if and only if the guards let it through |
| AttachFacts.BrainReturnsToTheCall | src/attach/attachManager.ts:191-240 | the reply answers the call, and its registration shows the decision, the need for input and one more turn if it is to go on; a brain that fails leaves no trace |
| AttachFacts.EveryCallIsAnsweredOnce | src/attach/attachManager.ts:168-241 | under any interleaving there is one answer for each call that is over, and none for a call that waits |
| Attach.ContinuesAreBounded | src/attach/attachManager.ts:168-241 | under any interleaving of concurrent calls with register and unregister, a registration's `turns` is the number of continues returned on it, at most maxTurns |
| Attach.ContinuesDoNotPingPong | src/attach/attachManager.ts:211-240 | under any interleaving no threshold-many consecutive continues of a registration say the same |
| Attach.ContinuesCarryPrompts | src/attach/attachManager.ts:222-236 | every continue ever returned belongs to a registration and carries a prompt that is not blank |
| Profiles.ProfileStore.NextVersion | src/learning/profileStore.ts:65-73 | one more than the greatest number listed for the scope |
| Profiles.ProfileStore.SaveVersionAndActivate | src/learning/profileStore.ts:76-82 | stores the body under the next number and points the scope at it, touching no other key |
| Profiles.ProfileStore.ActivateVersion | src/learning/profileStore.ts:85-89 | repoints to an existing version, and changes nothing when there is none |
| Profiles.LearningService.Approve | src/learning/service.ts:207-225 | promotes the draft, or refuses and changes nothing: no draft, or a regression under the gate without force |
| Profiles.LearningService.Reject | src/learning/service.ts:227-229 | drops the draft of the scope only |
| Profiles.LearningService.Revert | src/learning/service.ts:231-233 | repoints the scope to one of its versions |
| Profiles.LearningService.SaveDraft | src/learning/profileStore.ts:97-99 | keeps one pending draft per scope |
| Profiles.ListedVersion | src/db/store.ts:505-518 | a version row is listed for a scope if and only if its own scope equals it up to ASCII case, and then under its own number, even with '#' in scopes |
| Profiles.NextIsFresh | src/learning/profileStore.ts:65-73 | the next number exceeds every number its case class has used and no smaller one is free |
| ProfileHistory.EveryTableIsSound | src/learning/profileStore.ts:65-103 | after any sequence of proposals, approvals, rejections, reverts and bank writes every key fits its value, numbers are unique within a case class and have no gaps |
| ProfileHistory.SnapshotsNeverChange | src/learning/profileStore.ts:76-82 | a stored version is never rewritten or deleted |
| ProfileHistory.ActiveNamesAVersion | src/learning/profileStore.ts:85-89 | the active pointer of a scope always names an existing version of that scope |
| ProfileHistory.VersionsComeFromApprovals | src/learning/eval.ts:129-137 | only an approval creates a version, with the body of its draft; with the gate on and no force that had no evaluation, an empty one, or delta at least 0 |
| ProfileHistory.EveryVersionWasApproved | src/learning/service.ts:207-225 | every version in any later table goes back to an approval, at the time it carries, of a draft with its body, which the gate let through, was forced or was off |
| ProfileHistory.ApprovalPromotesIff | src/learning/service.ts:207-225 | an approval changes nothing at all or adds exactly one version and uses the draft up; the latter if and only if a draft is pending that is no measured regression, or is forced, or meets no gate |
| ProfileHistory.VersionsAreOneToN | src/learning/profileStore.ts:65-73 | a scope's versions are exactly 1 up to the last number given if and only if no case variant of it has a version |
| ProfileHistory.CaseVariantsShareNumbers | src/db/store.ts:508-513 | for every two scopes that differ in case only there is a history after which the second one's first version is number 2 |
| ExampleBank.MergeInto | src/learning/feedbackSignals.ts:91-101 | the loop computes the fold of merges, in insertion order |
| ExampleBank.Dedupe | src/learning/service.ts:42-52 | deduplication is merging into an empty accumulator |
| Miner.Upsert | src/learning/miner.ts:44-57 | upserting a mined item is merging it, on the list and on its index alike |
| Miner.MineSession | src/learning/miner.ts:123-150 | exactly the first `max` non-noise pairs of an assistant message and the user message right after it are merged, into the directory's list always and into the global one while it has room |
| MinerFacts.PairIff | src/learning/miner.ts:33-142 | an example is made exactly of a user message of three characters or more that is no markup and follows an assistant message; it holds both texts, cut to three hundred characters, and is seen once |
| MinerFacts.MinedIsTheFirst | src/learning/miner.ts:123-150 | a session's examples are those at its first `max` such messages, in order |
| Miner.MineExamples | src/learning/miner.ts:82-154 | one list for each directory with a readable session, merged from exactly that directory's pairs; a global one merged from all pairs while it had room; nothing when discovery fails |
| MinerFacts.AllPairsAre | src/learning/miner.ts:93-150 | the examples of a pass are exactly those of its readable sessions |
| Miner.RoomForAPrefix | src/learning/miner.ts:145-147 | the global list is the merge of a first part of the examples, all or as many as fill it, and never exceeds its cap |
| Miner.GlobalIsCompleteIff | src/learning/miner.ts:145-147 | it counts every mined example if and only if it still had room when the last one came |
| Miner.RepeatsAreNotCountedWhenFull | src/learning/miner.ts:145-147 | for every cap there are examples that fill the list and a repeat of one of them that it does not count |
| ExampleBank.MergeConserves | src/learning/feedbackSignals.ts:91-101 | exactly the hashes seen have an entry, with the sum of their counts and their latest sighting |
| ExampleBank.MergeTotal | src/learning/feedbackSignals.ts:91-101 | the total count after merging is the sum of both totals |
| ExampleBank.BatchingIsIrrelevant | src/learning/service.ts:42-52 | merging a deduplicated batch gives the same accumulator as merging the batch itself |
| ExampleBank.AppendExamples | src/learning/profileStore.ts:119-138 | appending merges, ranks and cuts; an empty batch changes nothing |
| ExampleBank.BankIsTopCap | src/learning/profileStore.ts:119-138 | the next bank is ranked by count and then recency, holds as many items as fit, loses nothing but evicted items, and no evicted item outranks a kept one; without anything new the bank stays as it is |
| ExampleBank.FirstPeersAreKept | src/learning/profileStore.ts:132-135 | of items of the same rank it keeps those that were merged first, in that order |
| ExampleBank.BatchesAgreeWithoutEviction | src/learning/profileStore.ts:119-138 | while everything fits, two batches leave the same examples as one, and the total count is conserved |
| ExampleBank.BatchesDisagreeWithEviction | src/learning/profileStore.ts:119-138 | with eviction they need not: three examples that a bank of one keeps differently at once and in two batches |
| Automation.PlanAutomations | src/policy/automation.ts:85-149 | the nested loops compute the keep-first selection of the eligible actions |
| Automation.PlanKeepsTheFirst | src/policy/automation.ts:85-149 | of the eligible actions the plan keeps, for each key, the first one, all keys, in their order, none twice |
| Automation.EligibleIsAsked | src/policy/automation.ts:50-147 | an action is eligible if and only if some rule asks for it that is not switched off, is for the event or for all, and each clause of whose filter fits the session; "$self" stands for that session, texts are trimmed, and nothing blank, without a target or starting the session itself is asked for |
| Automation.RulesTwiceSamePlan | src/policy/automation.ts:90-149 | listing the rules twice leaves the plan unchanged, and appending rules never changes what is already planned |
| Automation.PlansAreSafe | src/policy/automation.ts:79-83 | no plan starts the session that fired, names an empty or unresolved target, sends an empty message, or holds anything no rule asked for |
| PlanKeys.SharedKeyMeans | src/policy/automation.ts:100-146 | two different actions share a key only when they are notifications or messages whose rule ids or targets differ by a colon suffix |
| PlanKeys.OnlyDuplicatesCollapse | src/policy/automation.ts:82-83 | when no two names in use differ by a colon suffix, the plan drops exact duplicates and nothing else |
| PlanKeys.ClashingIdsLoseANotification | src/policy/automation.ts:99-105 | for two rule ids there are notifications of which only one is planned if and only if one id is the other, a colon, and a rest not starting with white space |
| PlanKeys.ClashingTargetsLoseAMessage | src/policy/automation.ts:130-138 | likewise for messages that are not blank to two sessions, whatever the rules' ids |
| Cascade.NextChainGen | src/policy/automation.ts:171-174 | a root, a non-number and anything below one count as generation zero; otherwise the next generation is one past the whole part |
| Cascade.HopsRunOut | src/policy/automation.ts:156-185 | with a positive cap and no restart every cascade ends after a number of hops that depends only on the cap, the branching and the pending events - for all rule sets, cyclic ones included, and although every hop may overwrite the generations of running sessions |
| Cascade.CascadesHalt | src/server/supervisor.ts:1302-1384 | the same with at most `r` restarts that reset a session's generation, as a function of `r` |
| Cascade.RestartsDefeatTheCap | src/server/supervisor.ts:702-706 | one restart every `cap` hops keeps a single causal chain going for any length, and one alone takes it past the cap |
| Cascade.CascadesHaltIff | src/policy/automation.ts:156-185 | cascades end from every state if and only if actions lead to no events, or the cap is on and the restarts are limited |
| ChainCap.ChainsStayWithinTheCapIff | src/server/supervisor.ts:1302-1384 | without restarts, causal chains from `p` roots with branching `b` are sure to have at most `cap` hops if and only if `p` or `b` is 0, or the cap is 1, or there is one root and `b` is 1 or the cap is 2 |
| ChainCap.ChainsOfEveryAllowedLength | src/policy/automation.ts:176-179 | chains of every length up to the cap occur, and with the cap off of every length |
| RuleCascades.OneRuleRunsOn | src/policy/automation.ts:85-149 | one rule, planned for every event and session, and one restart every `cap` hops keep a cascade going for any number of hops |
| RuleCascades.RulesPassTheCap | src/policy/automation.ts:85-149 | wherever chains are not sure to stay within the cap, one or two rules, planned for every event and session, make them pass it |
| Schedule.ParsesIff | src/policy/schedule.ts:13-21 | a text is a time of day if and only if it is one or two digits, a colon and two digits, with white space around, that name an hour and a minute there is |
| Schedule.ActiveIffItCanFire | src/policy/schedule.ts:60-64 | a schedule counts as active if and only if it can fire at some time, that is, it is not switched off and has an interval of a minute or more or a time of day |
| Schedule.LastDailyBoundaryIff | src/policy/schedule.ts:28-33 | on any wall clock: what the code computes is the latest instant at or before `now` that shows the time if and only if today's has passed or comes 24 hours after yesterday's |
| Schedule.DailyIsExactIff | src/policy/schedule.ts:40-60 | a daily schedule fires in every new interval between boundaries, and only there, if and only if every boundary comes 24 hours after the one before or starts its day |
| Schedule.DailyFiresIff | src/policy/schedule.ts:40-60 | on such a clock it fires at a tick if and only if the session is idle and neither the seed nor an earlier idle tick lies in the same interval or a later one |
| Schedule.EachSlotFiresOnce | src/server/supervisor.ts:379-391 | on such a clock, when it does not run backwards, every later interval with an idle tick fires exactly once, at its first idle tick |
| Schedule.LongDayFiresTwice | src/policy/schedule.ts:32-32 | whenever a boundary comes more than 24 hours after the one before, a session that fired at the earlier one fires again, in the same interval, at every idle tick of the later one's day in the 24 hours before it |
| Schedule.GoingBackFiresTwice | src/policy/schedule.ts:32-32 | when the clocks go back, a session scheduled for noon is started at noon and again at midnight |
| Schedule.ShortDayDropsAStart | src/policy/schedule.ts:32-32 | whenever a boundary comes less than 24 hours after the one before, no tick of its day before it fires if the last firing or the seed lies in the time by which the day is too short |
| Schedule.GoingForwardDropsAStart | src/policy/schedule.ts:32-32 | when the clocks go forward, a session scheduled for noon, last started at half past eleven and busy until midnight, is not started for that noon |
| Schedule.DailyOnAFixedClock | src/policy/schedule.ts:40-60 | on a clock that is never set a daily schedule fires at a tick if and only if the session is idle and neither the seed nor an earlier idle tick comes after the latest boundary |
| Schedule.IntervalIsKept | src/policy/schedule.ts:44-46 | two firings of an interval schedule are at least the interval apart, and an idle tick that far from the last firing fires |
| Schedule.QuietIffSomeWindow | src/policy/quiethours.ts:26-55 | looking at two windows is enough: it is quiet if and only if some window of any day contains the instant and started on an allowed weekday, provided every weekday is allowed or no window outlasts the next day |
| Schedule.QuietIsExactIff | src/policy/quiethours.ts:38-53 | ... and for all weekdays and instants if and only if no window outlasts the next day |
| Schedule.GoingForwardCutsAWindow | src/policy/quiethours.ts:38-53 | when the clocks go forward, it is not quiet at half past midnight although an allowed window that started at 23:59 two days earlier still runs |
| Schedule.SwappedWindowIsTheRest | src/policy/quiethours.ts:26-55 | the window from start to end and the one from end to start are complementary on days on which the clocks are not set |
| Schedule.SuppressesIff | src/policy/quiethours.ts:62-66 | a notification is suppressed if and only if some allowed window contains the instant and it is not an urgent error that may pass |
| Schedule.SuppressesOnAFixedClock | src/policy/quiethours.ts:62-66 | on a clock that is never set that holds for all weekdays |
| Csv.FieldReads | src/server/analytics.ts:160-163 | whatever a field holds, each reader of RFC 4180 reads its printed form as itself and stops right behind it, but for the carriage returns named |
| Csv.TableReads | src/server/analytics.ts:238-238 | what each reader makes of the whole export |
| Csv.CsvRoundTrip | src/server/analytics.ts:238-238 | the printed table reads back as itself if and only if it has a row, every row has a field, and no field holds a carriage return the reader does not take for text |
| Csv.CarriageReturnsAreLost | src/server/analytics.ts:160-163 | two tables of one field that readers of CRLF read as another table or not at all |
| Csv.PrintIsInjective | src/server/analytics.ts:238-238 | two such tables that print alike are equal |

## Left out

- Case mapping: `toLowerCase` is modelled on ASCII letters; other letters are their own lower case.
- Strings: JavaScript's UTF-16 units are Dafny characters; lengths of texts outside the basic plane are not modelled.
- Run events: elapsed minutes, durations, gate counts, diffs and git snapshots do not occur in the modelled events, and a wall-clock stop carries the limit but not the elapsed text.
- Dangerous gates: gate callbacks are resolved within the driver call that raised them.
- Turn results: drivers hand back the prompt they were given (src/session/headlessSession.ts:262-267), so an answer carries only the text.
- Decisions: a continue decision always has a prompt; `decision.prompt!` of an absent prompt is not modelled.
- Brain input: chat history, repository state and the rolling summary are part of the scripted answers; the questions logged hold the last reply and the turn count.
- Usage and context readings: parsing `/usage` and `/context` is replaced by scripted answers.
- Recorder: the append-only copy of raw events and the swallowing of database errors are not modelled; `ORDER BY n` is insertion order.
- Escalation choices, feedback ratings and the scans of recent runs around them: they merge examples by the same loops as `ExampleBank` and were not modelled again.
- Miner: discovering sessions and reading transcripts is a list of sessions whose messages may be unreadable; hashing is an arbitrary function.
- Profile bodies: only scope and guidance are kept, and JSON encoding is left out; a value that does not parse is not modelled.
- Profile listing: `listVersions`, `guidanceFor`, summaries and `synthesize` only read or call the language model.
- RateLimit.LimiterNeverForgets: not on a clock that runs backwards, where entries already pruned would have come back into the window.
- RateLimit.Gate: who is local and whether a token is right are inputs; the same call order in the whoami probe and the WebSocket upgrade is not modelled separately.
- StreamJson: JSON parsing and text extraction are an abstract line reader.
- Attach: the list shown on the dashboard, which only projects the registrations.
- WfDepth: `overDepthCap` is one comparison.
- Automation: executing a planned action is not modelled beyond the generation it writes; a rule's creation times and `countEnabled` are not modelled.
- Cascade: a person starting a session begins a new cascade; how many events a hit session fires is a bound given from outside, and which sessions restart themselves, and when, is arbitrary.
- Schedule: the calendar is arbitrary, as long as days follow one another, no three of them meet within 24 hours, and a day's times lie on that day. Short descriptions of schedules and quiet hours are presentation.
- Schedule.SwappedWindowIsTheRest: only on days on which the clocks are not set, for which the condition looks at today and yesterday; on others the two windows' lengths need not fill the day.
- Csv: formatting numbers and dates into fields.
- Percentiles, latency statistics, clamps and retry: each is settled by reading one short function.
- PTY screens, processes, HTTP, WebSocket, SQLite and git calls are environment.
