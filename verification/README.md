# NanoClaw: verified models of its stateful cores

NanoClaw routes chat messages to agents in containers, installs skills from annotated
Markdown, and keeps its state in SQL tables. Its correctness rests on a handful of small
protocols whose behaviour depends on interleaving, undo or history. This project models
those in Dafny 4.11 and proves what they promise. `dafny verify dfyconfig.toml` checks it.

## What is modelled, and how

Two shapes recur.

*Loops and classes.* Code that works step by step is written as Dafny methods with loops
over the same fields (`StateSqlite.Adapter`, `SkillEngine.Engine`, `Delivery.Deliverer`,
`HostSweep.SessionDbs`, `ContainerRegistry.Runner`, `SessionStore.Store`, and the loops of the lexer,
the parser, the linter, the policy, the version comparison and the two pollers). Each is
proved to compute a specification function; the theorems are about that function.

*Step machines.* Where several callers interleave, every `await` is a yield point and the
code between two awaits is one atomic step. A run is any sequence of enabled steps, and the
theorems hold of every run. The classes above are tied to the machines: a whole call, or any
interleaving of calls, is proved to be a run of the machine.

| file | covers |
|---|---|
| `Prelude`, `Text` | options; JavaScript's `trim`, `split('\n')` and the `.env` line pattern |
| `ChatTables`, `StateSqlite`, `ChatQueue`, `QueueRaces`, `LockProtocol` | the Chat-SDK state store: SQL statements on tables as maps, the adapter's methods, the queue as a bounded sequence, stale snapshots, lock exclusion |
| `SkillParse`, `SkillLint`, `SkillPolicy` | finding `nc:` fences, the static scope check, the static pause decision |
| `SkillModel`, `SkillEngine` | the apply engine, as functions on a state and as the object that runs |
| `SkillTurns`, `SkillRefresh` | what each handler leaves behind, what an install and a refresh start |
| `SkillUndo`, `SkillReapply`, `SkillHealth`, `SkillSecrets` | undo round trip, second install, run-health and accounting, secret independence |
| `ContainerRunner`, `ContainerRegistry` | wake, spawn, kill and finalize |
| `SessionManager`, `SessionStore` | the promise-chain lock and `resolveSession` |
| `Delivery` | two pollers draining one session |
| `HostSweep` | stuck detection and bounded retry |
| `Router` | engagement over message history |
| `SqlMask`, `Migrations`, `DeviceGrant` | the masking lexer, migration selection, device-grant polling (section 3.5 of RFC 8628) |

The outside world is a parameter: times are arguments that never go back, tokens and ids are
fresh, commands, prompts, event handlers, copied bytes and network replies are arbitrary
functions of the directive or poll they answer (`SkillModel.Host`, `DeviceGrant.Poll`,
`HostSweep.Sighting`). JSON is a datatype, with parsing and printing as host functions related by one
law (`SkillUndo.Lawful`: what was printed parses back). A file is the list of its lines;
`SkillModel.AddTextAppends` relates that to the text.

## Where the code does less than its prose

* The comment at src/delivery.ts:236-238 says exactly one row per session carries
  `firstDelivery`. A row given up on joins the delivered table too, and then there may be none
  (`Delivery.GivenUpTakesTheFlag`); `Delivery.FirstDeliveryIff` says exactly when the flag is
  given.
* `markDelivered` that throws sends the message again (`Delivery.LostWriteResends`); the
  bounds count such writes.
* An `afterStart` that throws forgets a running container, and a report that comes late, a
  second terminal event or the stop report of a dropped runtime, finalizes a live successor.
  `ContainerRunner.BreaksIff` says these are exactly the two kinds of step that break "one
  live container per session": after any other, timely events keep it, and after one of them
  timely events lead to two.
* A kill callback is dropped when its own runtime's start fails (`ContainerRunner.LostStepIff`),
  and a wake from one may join the spawn that is ending and start nothing
  (`ContainerRunner.WakeFromCallback`).
* Agent-shared and routed wirings of one agent lock different keys but see each other's rows, so
  concurrent callers of one key can get two sessions, or find one that none of them created.
  `SessionManager.SameSessionIff` and `CreatedExactlyOnceIff` say exactly when that cannot
  happen.
* A per-thread session for the empty thread id is stored under `""` and looked up as NULL, so
  it is never found again (`SessionManager.FindableIff`, `Router.EmptyThreadForgets`).
* The gate-ambiguity lint asks for two branch values, but one guarded directive after an
  unguarded operator is enough for the pause decision to be wrong
  (`SkillPolicy.WarningMissesOneBranch`, `SkillPolicy.DecisionWrongIff`).
* The lint counts on captures that no run binds: a token without `=`, which also loses its last
  character, a check, a step with a bare name, a run without a command
  (`SkillLint.DefinesBoundIff`, `SkillLint.UnboundCaptures`).
* The wait window of a device login is capped and its interval is not. Beyond 2147483 s
  `setTimeout` fires after a millisecond (`DeviceGrant.RegistryInReachIff`,
  `DeviceGrant.TooLongFloods`).
* Undo does not restore everything: a line break in an env value can leave lines behind
  (`SkillUndo.EnvUndoIff`), and a merged object with a non-scalar key stays
  (`SkillUndo.UnmergeRestoresIff`). Both lemmas give the exact condition.
* A secret that an env value puts after a line break is a `.env` line of its own and can set
  another key there, which the journal tells (`SkillSecrets.SpilledSecretShows`).
* A second install is not always a no-op: an env-set runs again exactly when a key it names is
  not set in the `.env` the first one left (`SkillReapply.ReapplyIsNoOpIff`). An assignment
  sets its key when the key is an identifier and the first line of the value is not blank and
  holds no other line terminator, or when a later line sets it (`SkillReapply.SetsItsKeyIff`).
* Editing a scheduled task rewrites `process_after`, so it can cut a retry's backoff short
  (`HostSweep.RescheduleCutsShort`).

## Model

| member | source | states |
|---|---|---|
| StateSqlite.Adapter.AcquireLock | src/state-sqlite.ts:126-143 | a lock is granted exactly when no unexpired row holds the key; the row then carries the new token and expiry, every other key is untouched |
| StateSqlite.Adapter.ReleaseLock | src/state-sqlite.ts:145-151 | only the row of that key with that token goes |
| StateSqlite.Adapter.ExtendLock | src/state-sqlite.ts:153-166 | succeeds exactly when the token still holds the row; table and returned lock carry the new expiry together |
| StateSqlite.Adapter.AppendToList | src/state-sqlite.ts:174-207 | one row after the largest index, then the trim to maxLength, as one transaction |
| StateSqlite.Adapter.Enqueue | src/state-sqlite.ts:221-228 | appends without expiry under the prefixed queue key and answers the number of rows there |
| StateSqlite.Adapter.Dequeue | src/state-sqlite.ts:230-252 | takes the row with the smallest index, None exactly when there is no row |
| StateSqlite.NamespacesIsolatedIff | src/state-sqlite.ts:42-44 | two named stores share no key exactly when neither prefix starts the other |
| StateSqlite.StoredKeys | src/state-sqlite.ts:42-44 | an empty namespace adds nothing; a queue is stored under `ns:queue:<thread>` |
| ChatTables.SweptIff | src/state-sqlite.ts:263-268 | cleanup drops exactly the rows whose expiry has passed |
| ChatQueue.EnqueueRefines | src/state-sqlite.ts:174-228 | the rows of a key stay one index interval and enqueue is "append, then keep the last maxSize", for every maxSize |
| ChatQueue.DequeueRefines | src/state-sqlite.ts:230-252 | dequeue is head removal and answers nothing exactly on the empty queue |
| ChatQueue.DepthRefines | src/state-sqlite.ts:254-259 | the row count is the length of the queue |
| ChatQueue.QueueRunRefines | src/state-sqlite.ts:174-268 | over every sequence of enqueues, dequeues and cleanups on any keys, a key's dequeues answer what a bounded sequence answers |
| ChatQueue.TrimBoundsRows | src/state-sqlite.ts:192-197 | with expiring rows the trim still leaves at most maxLength rows and always the newest |
| ChatQueue.TrimCanKeepFewer | src/state-sqlite.ts:192-197 | index gaps can make the trim keep fewer than maxLength |
| QueueRaces.RunKeepsInv | src/state-sqlite.ts:174-252 | with stale MAX and MIN snapshots every interleaving conserves the values and charges every retry to another commit |
| QueueRaces.NothingLostOrRepeated | src/state-sqlite.ts:230-252 | an appended value is in exactly one row or one answer; no two dequeues share an answer |
| QueueRaces.RetriesAreCharged | src/state-sqlite.ts:177-206 | an append retried at most once per other append that committed meanwhile, and succeeds when nobody overtook its snapshot |
| QueueRaces.AppendAlone | src/state-sqlite.ts:174-207 | an append that nobody disturbs goes after every row |
| QueueRaces.TakeAlone | src/state-sqlite.ts:230-242 | a dequeue that nobody disturbs takes the first row and answers its value |
| QueueRaces.ReadsTheEnds | src/state-sqlite.ts:181-241 | what a statement reads as the largest or smallest index is that |
| QueueRaces.LooksOn | src/state-sqlite.ts:244-251 | a dequeue that lost its row answers None exactly when no row is left, and otherwise tries again |
| QueueRaces.EmptyAnswerIsHonest | src/state-sqlite.ts:244-251 | whatever the interleaving, an empty answer was given at a moment when the queue was empty |
| LockProtocol.RunKeepsInv | src/state-sqlite.ts:126-170 | the lock invariant over every interleaving of single statements |
| LockProtocol.AcquireExcludes | src/state-sqlite.ts:126-143 | a successful acquire means every earlier lock on the key was released, force-released, or is past the expiry last written |
| LockProtocol.MutualExclusion | src/state-sqlite.ts:126-166 | of two grants on one key at least one is over |
| LockProtocol.SupersededForGood | src/state-sqlite.ts:145-166 | a token whose row is gone never holds the lock again |
| LockProtocol.SupersededIsHarmless | src/state-sqlite.ts:145-166 | a late release or extend with a superseded token changes no row |
| LockProtocol.AcquireIff | src/state-sqlite.ts:126-143 | from any state, an acquire gets the lock exactly when the key has no row or an expired one; the row is then its own |
| LockProtocol.HolderActs | src/state-sqlite.ts:145-166 | a live lock's release removes its row, its extend moves the expiry |
| LockProtocol.ExpiredIsTakenOver | src/state-sqlite.ts:126-143 | once the clock is past the expiry the next caller takes the lock over |
| LockProtocol.OthersAct | src/state-sqlite.ts:168-170 | a forced release ends whatever lock holds the key; a sweep drops every expired row |
| SkillParse.ParseDirectives | scripts/skill-directives.ts:125-162 | the nested loops compute Parse |
| SkillParse.ReadBody | scripts/skill-directives.ts:136-141 | the lines up to the next fence of any kind |
| SkillParse.ParseTokens | scripts/skill-directives.ts:143-150 | the loop computes Args and Attrs, which AttrToken and ArgToken read token by token |
| SkillParse.AttrToken | scripts/skill-directives.ts:146-148 | key:value, with anything but a colon in the key, sets that attribute to that value and is no argument |
| SkillParse.ArgToken | scripts/skill-directives.ts:149 | a token without a colon, or that begins with one, is an argument and sets nothing |
| SkillParse.FenceReadsBack | scripts/skill-directives.ts:128-158 | an info string written from a kind and words, with any white space between and after them, is read back: kind, words, body and line |
| SkillParse.FenceLines | scripts/skill-directives.ts:113-131 | which lines are fences; a bare one opens nothing |
| SkillParse.NcPrefix | scripts/skill-directives.ts:142 | which info strings are directives |
| SkillParse.CompactSnoc | scripts/skill-directives.ts:155 | the body is every line that is not blank, trimmed, in order |
| SkillParse.DirectivesAreTheOpenFences | scripts/skill-directives.ts:128-160 | read line by line, a line is a directive exactly when it is an `nc:` fence met outside every block |
| SkillParse.LinesIncrease | scripts/skill-directives.ts:151-159 | directives come in document order, one per line |
| SkillParse.ProseIsIgnored | scripts/skill-directives.ts:1-8 | rewriting prose outside the blocks changes no directive |
| SkillParse.BodyIsTrimmed | scripts/skill-directives.ts:155 | body lines are trimmed and not empty |
| SkillLint.Validate | scripts/skill-directives.ts:207-346 | the loop reports exactly the faults of Report, in order |
| SkillLint.ReportCleanIff | scripts/skill-directives.ts:207-335 | a clean report means: every known kind has its body, every merge an object with its key, every pattern compiles, every reference and guard is defined by an earlier directive |
| SkillLint.DefinesBoundIff | scripts/skill-directives.ts:174-180 | a successful run binds every name the lint counts on exactly when its kind captures and each token without `=` repeats a bound name, or the lint reads no name |
| SkillLint.UnboundCaptures | scripts/skill-apply.ts:726-768 | the four ways to fail that: a loose token, a check with a capture, a step with a bare one, a run without a command |
| SkillLint.PerformFramed | scripts/skill-apply.ts:602-623 | a handler binds only the names its directive captures and unbinds none |
| SkillLint.UndefinedStaysUnbound | scripts/skill-apply.ts:854-1018 | whatever happens, a run binds no name the lint did not see defined |
| SkillLint.RenderIff | scripts/skill-apply.ts:559-565 | substitution succeeds exactly when every reference is bound |
| SkillLint.NeverUnresolved | scripts/skill-directives.ts:312-335 | lint soundness: names bound once, prompts accepted, captures that bind and succeed; then every directive reached substitutes its whole body, whatever else bounced, if run-health held back no capturing run before it |
| SkillLint.NoGatedCapturesNeverUnresolved | scripts/skill-apply.ts:955-958 | in particular whenever no restart, step or wire run captures |
| SkillLint.GatedStepStrands | scripts/skill-apply.ts:955-958 | why that is asked: a clean document and a run in which one throwing operator handler holds a capturing step back, and the reference to its name is stuck |
| SkillLint.FlaggedNeverResolves | scripts/skill-directives.ts:314-316 | lint completeness: a flagged reference that is substituted is always unresolved |
| SkillPolicy.GatePolicy | scripts/skill-policy.ts:76-96 | a decision for every operator and nothing else, read off the first compatible directive and its effect, whatever its kind |
| SkillPolicy.StaticBarrierIff | scripts/skill-policy.ts:42-96 | the static barrier is the directive that runs next under all bindings where the operator ran, exactly when the barrier's guard is absent or on the operator's variable |
| SkillPolicy.DecisionWrongIff | scripts/skill-policy.ts:76-96 | the decision differs from that of the directive really running next, under some bindings, exactly when a directive that can be next judges otherwise |
| SkillPolicy.ReachesIff | scripts/skill-apply.ts:572-576 | which directives can run next after an operator, read off the guards alone, both ways |
| SkillPolicy.EngineSkipsTo | scripts/skill-apply.ts:877-880 | the engine changes no variable, file or trace on its way to that directive |
| SkillPolicy.ChainConfirmsOnce | scripts/skill-policy.ts:55-70 | in a maximal chain of unguarded operators only the last can confirm, and does exactly when neither a prompt nor the end follows |
| SkillPolicy.WarningMissesOneBranch | scripts/skill-directives.ts:389-409 | a document that lints clean, is not warned about, and whose decision is wrong in one mode |
| SkillModel.AddTextAppends | scripts/skill-apply.ts:684 | on the text: a line break when the file lacks one, the text, a line break |
| SkillModel.AppendAtMarker | scripts/skill-apply.ts:668-681 | one line more, just above the first line with the marker and indented like it; throws exactly when no line has it |
| SkillEngine.Engine.CopyFiles | scripts/skill-apply.ts:643-663 | files are written in order and journaled only when all were |
| SkillEngine.Engine.AppendLines | scripts/skill-apply.ts:664-689 | the lines appended one by one, each journaled |
| SkillEngine.Engine.CheckCommands | scripts/skill-apply.ts:726-729 | a check journals and binds nothing |
| SkillEngine.Engine.RunStep | scripts/skill-apply.ts:735-752 | a step binds the terminal block's fields and journals the unsubstituted command |
| SkillEngine.Engine.RunCommands | scripts/skill-apply.ts:753-768 | substitute, execute, capture, journal, per command |
| SkillEngine.Engine.SetEnvKeys | scripts/skill-apply.ts:771-786 | set-if-absent, entry by entry |
| SkillEngine.Engine.ApplySkill | scripts/skill-apply.ts:815-1022 | the loop, with every turn, handler and catch clause it runs, leaves the state that After gives; the theorems below are about that state |
| SkillEngine.Engine.RemoveSkill | scripts/skill-apply.ts:1025-1065 | the journal played backwards; throws exactly when a merged file no longer parses |
| SkillTurns.InstallStarts | scripts/skill-apply.ts:124-196 | in an install a handler starts exactly when its files, line, packages, keys or element are missing; runs always, but for those the caller owns and gated ones |
| SkillTurns.PromptReads | scripts/skill-apply.ts:881-916 | an input beats the resolver; the normalized value is tested and bound; a refused or missing answer is deferred and changes nothing else |
| SkillTurns.NormalizeReads | scripts/skill-apply.ts:527-538 | trim, strip trailing slashes, lower-case, or nothing |
| SkillTurns.FailReads | scripts/skill-apply.ts:1014-1016 | an error that says `unresolved {{` is deferred, any other bounces and blocks |
| SkillTurns.UnresolvedWaits | scripts/skill-apply.ts:559-563 | so an unbound reference is deferred |
| SkillTurns.BracketReads | scripts/skill-apply.ts:968-992 | start, handler, end with its verdict, entry; which of several errors counts |
| SkillTurns.OperatorReads | scripts/skill-apply.ts:918-943 | shown with its references substituted, or skipped after a bounce |
| SkillTurns.RenderConcat | scripts/skill-apply.ts:559-565 | substitution goes piece by piece and stops at the first unbound name |
| SkillTurns.RunReads | scripts/skill-apply.ts:753-768 | without a capture: commands go out in order, each journaled as written once it succeeded, with an undo only for effect:external; the first failure ends the run |
| SkillTurns.CapturedRun | scripts/skill-apply.ts:758-767 | the trimmed output is bound before the record is made |
| SkillTurns.BareCapture | scripts/skill-apply.ts:602-616 | the output is bound, not secret, when the pattern compiles and allows it |
| SkillTurns.PairsSnoc | scripts/skill-apply.ts:617-622 | a capture list binds its pairs from left to right, the last of a name winning |
| SkillTurns.PairsCapture | scripts/skill-apply.ts:617 | a capture list reads the output as JSON, and output that is none is an error |
| SkillTurns.CheckReads | scripts/skill-apply.ts:726-729 | a check sends its commands the same way, and journals and binds nothing |
| SkillTurns.StepReads | scripts/skill-apply.ts:735-752 | a step is one stream of all its lines; it binds and journals only when it completes |
| SkillTurns.JoinReads | scripts/skill-apply.ts:737-751 | the lines of a body are joined by line breaks, in the command and in the record |
| SkillTurns.DepReads | scripts/skill-apply.ts:690-708 | the add command is run, and journaled with the remove command as its undo |
| SkillTurns.CopyReads | scripts/skill-apply.ts:643-663 | copies in order, journaled together; after a failure exactly the files written so far are orphans |
| SkillTurns.AppendReads | scripts/skill-apply.ts:682-687 | without a marker all lines go to the end of the file, in order, each with its record; nothing else changes |
| SkillTurns.AppendSnoc | scripts/skill-apply.ts:668-687 | with one they go in one by one, up to the first that finds no marker |
| SkillTurns.MergeReads | scripts/skill-apply.ts:787-809 | a push, a refresh replacement of the first hit, or nothing, with the record of each |
| SkillTurns.MergeRefuses | scripts/skill-apply.ts:790-793 | a target that is no JSON array is an error and stays as it is |
| SkillTurns.HitReads | scripts/skill-apply.ts:795-797 | which elements a key finds, === on objects and arrays included |
| SkillTurns.UndoReads | scripts/skill-apply.ts:1030-1062 | one record undone touches one path |
| SkillTurns.DropsReads | scripts/skill-apply.ts:1033-1049 | the lines an undo removes: those that trim alike, those that start with KEY= |
| SkillTurns.KeepReads | scripts/skill-apply.ts:1030-1049 | an undo's filter keeps every other line where it was |
| SkillRefresh.RefreshSkips | scripts/skill-apply.ts:857-872 | in a refresh each prompt, operator block, env-set and run not marked refresh leaves one skipped entry and changes nothing else |
| SkillRefresh.RefreshStarts | scripts/skill-apply.ts:857-980 | copies, dependencies, appends, merges and runs marked refresh start unless their guard fails, the caller owns them or the line is there |
| SkillRefresh.RefreshLeavesAlone | scripts/update-skills.ts:165-190 | for every document, host and start a refresh binds no prompt, shows the operator nothing and sets no key |
| SkillUndo.UndoRestores | scripts/skill-apply.ts:1025-1065 | the round trip: for every host and start, undo never throws and restores every path no failed copy wrote, text up to the final newline and JSON as parsed values, when each directive that applies at its turn writes what is new there; what is in place already, such as a key that is set, is left alone and asked nothing |
| SkillUndo.InstallAndRemove | scripts/skill-apply.ts:815-1065 | the two loops run one after the other give the round trip |
| SkillUndo.RunKeeps | scripts/skill-apply.ts:627-813 | at every directive the journal so far restores every such path |
| SkillUndo.UnmergeRestores | scripts/skill-apply.ts:787-809 | undoing a push, or a refresh replacement, gives the array back |
| SkillUndo.UnmergeRestoresIff | scripts/skill-apply.ts:1050-1060 | undoing a push gives the array back exactly when the object's own key finds it |
| SkillUndo.EnvUndoIff | scripts/skill-apply.ts:1041-1049 | undoing a set-env restores the text exactly when every added line starts with KEY=; this is what UndoRestores asks of each entry that is written, at its turn |
| SkillUndo.OneLineIsClean | scripts/skill-apply.ts:771-785 | a one-line value always meets that |
| SkillUndo.KeepAllCommutes | scripts/skill-apply.ts:1030-1049 | the filters of different journal entries commute |
| SkillReapply.FirstRunSettles | scripts/skill-apply.ts:124-185 | after a fully applied install every directive that was reached is recognised as present, an env-set if at its turn its assignments stick |
| SkillReapply.SettledStays | scripts/skill-apply.ts:627-809 | a later directive that does not overwrite it keeps it recognised |
| SkillReapply.ReapplyIsNoOp | scripts/skill-apply.ts:124-185 | when each env-set's assignments stick at its turn, a second install with the same answers changes no file, journals nothing, starts no step and executes no command |
| SkillReapply.ReapplyIsNoOpIff | scripts/skill-apply.ts:124-185 | the same exactly when every key that a reached env-set names is set in the .env the first install left |
| SkillReapply.AssignmentSticksIff | scripts/skill-apply.ts:101-109 | an added assignment makes the next run skip its key exactly when one of its lines sets the key, for every value |
| SkillReapply.SetsItsKeyIff | scripts/skill-apply.ts:101-109 | which is so exactly when the key is an identifier and the value's first line is not blank and holds no other line terminator, or a later line sets the key |
| SkillHealth.VisitTurn | scripts/skill-apply.ts:854-1018 | one turn: at most one bracket or one operator event, a bounce only at its end, exactly one ledger entry |
| SkillHealth.NothingDangerousAfterABounce | scripts/skill-apply.ts:838-958 | past the first bounce no operator event, and no restart, step or wire run starts or executes |
| SkillHealth.StepEventsBalanced | scripts/skill-apply.ts:968-1013 | each step-start whose handler returned is closed by one step-end with only its commands between; each end closes a start |
| SkillHealth.EveryDirectiveOnce | scripts/skill-apply.ts:854-1018 | every directive ends as exactly one of bound, applied, skipped, deferred, agent task |
| SkillHealth.FullyAppliedIff | scripts/skill-apply.ts:325-327 | fully applied exactly when every directive was bound, applied or skipped |
| SkillSecrets.RenderAlike | scripts/skill-apply.ts:559-565 | the two runs get stuck on the same reference, or neither does |
| SkillSecrets.AssignmentAlike | scripts/skill-apply.ts:771-785 | different secrets write .env lines that set the same keys, if no line break comes before a secret in the value |
| SkillSecrets.VisitAlike | scripts/skill-apply.ts:854-1018 | one turn keeps the two runs alike |
| SkillSecrets.SecretsDoNotShow | scripts/skill-apply.ts:753-1021 | two applies that differ in accepted, non-blank, one-line secrets give identical journals, ledgers and reported variables; what is asked of the document is under Left out |
| SkillSecrets.SpilledSecretShows | scripts/skill-apply.ts:771-785 | a skill, and two secrets, whose journals differ: the value of an env-set has a line break before the secret, so the secret is a line of its own |
| SkillSecrets.AppendTellsSecret | scripts/skill-apply.ts:141-147 | an append into .env applies or skips depending on a secret there |
| ContainerRunner.RunKeepsInv | src/container-runner.ts:131-362 | registry, spawn phases, callbacks and finalization agree over every run |
| ContainerRunner.OneSpawnInFlight | src/container-runner.ts:131-152 | at most one spawn per session |
| ContainerRunner.FinalizedAtMostOnce | src/container-runner.ts:292-302 | each runtime finalizes at most once |
| ContainerRunner.AliveStepIff | src/container-runner.ts:226-362 | a session's running containers stay registered and unfinalized, except for exactly two kinds of step about that session |
| ContainerRunner.OneLiveRuntime | src/container-runner.ts:131-362 | a session never has two live containers when afterStart throws on none of its live containers and none of its reports reaches a live successor, whatever other sessions do |
| ContainerRunner.TimelyIsStraight | src/container-runner.ts:229-361 | so it is when its reports come before their runtime has left the registry |
| ContainerRunner.StaysOneIff | src/container-runner.ts:131-362 | from any state, every timely continuation keeps one container exactly when the session's running containers are registered and unfinalized |
| ContainerRunner.BreaksIff | src/container-runner.ts:226-362 | a step leaves two containers within timely reach exactly when it is one of the two kinds |
| ContainerRunner.ExitHandOff | src/container-runner.ts:304-362 | in every run each kill callback is lost exactly when its own runtime's start failed first, and otherwise has run exactly once, after its session left the registry, as soon as nothing of its own runtime is pending |
| ContainerRunner.LostStepIff | src/container-runner.ts:238-246 | the one step that loses a callback |
| ContainerRunner.WakeFromCallback | src/container-runner.ts:131-152 | a wake from an exit callback is never "already running"; it starts a container exactly when the dying runtime's spawn has been cleared, and otherwise joins that spawn, which starts nothing more |
| ContainerRunner.WakeJoinsDyingSpawn | src/container-runner.ts:136-140 | a run in which it joins |
| ContainerRunner.TwoContainersAfterRecordThrows | src/container-runner.ts:234-246 | a run with two live containers after afterStart threw |
| ContainerRunner.LateStopFinalizesSuccessor | src/container-runner.ts:238-296 | a run in which a late stop report finalizes a live successor |
| ContainerRunner.LateTerminalFinalizesSuccessor | src/container-runner.ts:229-295 | a run in which a second terminal event does |
| ContainerRegistry.Runner.Interleave | src/container-runner.ts:131-400 | the object, whatever order the event loop resumes its calls in, goes through a run of the machine; in its final state every kill callback is handed off, pending or lost to its own failed start, no runtime finalized twice, and a session of whose own events none goes astray has one container |
| SessionManager.ExclusiveAndFifo | src/session-manager.ts:76-91 | a caller is inside only after every earlier caller of its key has left |
| SessionManager.MutualExclusion | src/session-manager.ts:76-91 | two callers inside one key's lock are the same |
| SessionManager.KeyHeldIffBusy | src/session-manager.ts:79-90 | the map holds a key exactly while someone waits for it or holds it |
| SessionManager.RouteKeyInjective | src/session-manager.ts:93-101 | without NUL characters, equal route keys mean equal routes |
| SessionManager.FindReads | src/db/sessions.ts:36-80 | of several matching rows the agent-shared lookup takes the newest, the other the first |
| SessionManager.TaskStep | src/db/sessions.ts:63-73 | a scheduled task's row is found by no request |
| SessionManager.FindableIff | src/session-manager.ts:126-137 | the row a request creates answers its own lookup exactly when the group is not empty and a per-thread thread id is not the empty string |
| SessionManager.PrivateIff | src/session-manager.ts:93-134 | for ids without NUL, a key is private exactly when its requests are findable and see no row of the other kind (agent-shared beside routed) |
| SessionManager.SameSessionIff | src/session-manager.ts:112-168 | in every run and from every table all callers of a key get the same session, exactly when the key is private |
| SessionManager.CreatedExactlyOnceIff | src/session-manager.ts:112-168 | exactly one of them inserts it when there was none, and none otherwise, exactly when the key is private |
| SessionManager.AgentSharedBesideShared | src/db/sessions.ts:63-73 | one agent, an agent-shared and a shared wiring: a run whose two agent-shared callers get different sessions |
| SessionStore.Store.Interleave | src/session-manager.ts:74-168 | concurrent calls on the object, resumed in any order, are a run of the machine; the callers of a private key end with one session inserted at most once |
| Delivery.RunKeepsInv | src/delivery.ts:176-297 | guard, drains, attempts and the delivered table agree over every interleaving |
| Delivery.CallsNeverOverlap | src/delivery.ts:176-187 | at most one adapter call is outstanding |
| Delivery.CallsBounded | src/delivery.ts:232-292 | at most three calls per row, one more for each markDeliveryFailed of it that threw; its successes are its markDelivered that threw, and one more exactly when it stands delivered |
| Delivery.SentOnceIff | src/delivery.ts:232-292 | a row this process delivered was sent exactly once if and only if no markDelivered of it threw |
| Delivery.ThreeCallsOneSuccess | src/delivery.ts:232-292 | with no write for this row failing: three calls, one success, whatever happens to other rows |
| Delivery.NeverCalledAgain | src/delivery.ts:207-281 | a delivered or failed row keeps its mark and is never called again |
| Delivery.ThirdFailure | src/delivery.ts:270-291 | two failures are counted; the third marks the row failed and forgets the count, unless the mark throws |
| Delivery.SentInDueOrder | src/delivery.ts:204-232 | in every interleaving a drain sends rows of its due list that had no mark at its snapshot, in the order of that list, and all of them unless a failing markDeliveryFailed cuts it short |
| Delivery.EarlierSentFirst | src/delivery.ts:204-232 | of two sends of one drain the earlier event is the earlier row |
| Delivery.OneFirstDelivery | src/delivery.ts:236-240 | at most one row carries firstDelivery |
| Delivery.FirstDeliveryIff | src/delivery.ts:207-240 | the process's first delivered row carries the flag exactly when no row was marked before its drain's snapshot, and otherwise none ever does |
| Delivery.GivenUpTakesTheFlag | src/delivery.ts:236-281 | a run from an empty table in which a row given up on leaves the flag to none |
| Delivery.NoFirstDeliveryLater | src/delivery.ts:207-240 | a process that starts with any marked row gives it to none |
| Delivery.LostWriteResends | src/delivery.ts:234-291 | a run in which a markDelivered that throws sends a row twice |
| Delivery.Deliverer.Retry | src/delivery.ts:270-291 | the catch clause |
| Delivery.Deliverer.DeliverRow | src/delivery.ts:232-292 | one turn of the loop is a run of the machine |
| Delivery.Deliverer.DeliverSessionMessages | src/delivery.ts:176-297 | a whole call, re-entry included, is a run of the machine; it sends the unmarked due rows in order, all of them unless it throws |
| HostSweep.DecideStuckAction | src/host-sweep.ts:88-134 | the ceiling, else the first stuck claim, with the figures reported; ok exactly when neither |
| HostSweep.KillRules | src/host-sweep.ts:88-134 | in numbers: half an hour of silence, or a claim a minute old with no heartbeat since, either stretched by a declared Bash timeout |
| HostSweep.KillsIsMonotone | src/host-sweep.ts:88-134 | silence only gets worse with time, and only a later heartbeat or a longer declared timeout helps |
| HostSweep.SessionDbs.ResetStuckProcessingRows | src/host-sweep.ts:360-415 | the loop over claims, the claims kept when deleting them fails |
| HostSweep.RunKeepsInv | src/host-sweep.ts:360-415 | tries, process_after and the history of retries agree over every run |
| HostSweep.RetriesBounded | src/host-sweep.ts:373-395 | at most five retries, none before it is due: 5 s times 2^n after the one before, or when an edit of the task put it; also when claims are never deleted |
| HostSweep.RescheduleCutsShort | src/modules/scheduling/db.ts:118-160 | a run in which an edit brings two retries 1 ms apart |
| HostSweep.GivenUpAfter155Seconds | src/host-sweep.ts:378-388 | marked failed on the sixth effective reset, when that is due, 155 s or more after the first unless the task was rescheduled in between |
| HostSweep.ResetUsesOne | src/host-sweep.ts:369-396 | a reset leaves a due, claimed message exactly one fewer, however often it is claimed |
| HostSweep.NotBeforeBackoff | src/host-sweep.ts:373-376 | no reset touches a message before its backoff has passed |
| HostSweep.OnlyResetsRetry | src/host-sweep.ts:360-396 | nothing else moves tries |
| HostSweep.StatusReads | src/modules/scheduling/db.ts:71-101 | what an acknowledgement, a pause, a resume and a cancel make of a status, and that they change nothing else |
| HostSweep.SweepContainer | src/host-sweep.ts:221-254 | a tick that woke a container never kills it; claims are reset exactly when nothing is alive or the container was killed |
| Router.RouteInbound | src/router.ts:370-506 | per wiring: engaged exactly when both gates pass and the mode fires (pattern, mention, or mention-sticky by mention or session), stored exactly when the policy accumulates and the mode did not fire, and the session it goes to; dropped exactly when no wiring keeps the message; the first following wiring subscribes |
| Router.NeverEngages | src/router.ts:497-506 | in a direct chat only a mention engages a mention-sticky wiring; an unknown mode never engages |
| Router.FoundIff | src/router.ts:497-536 | a session is found exactly when an earlier message of that very thread left one |
| Router.StickyIff | src/router.ts:374-536 | under the drop policy an unmentioned message engages exactly when an earlier admitted mention belongs to the thread it looks up |
| Router.StickyInThread | src/router.ts:471-506 | the same with "the same effective thread", for any thread id but the empty string |
| Router.AccumulateIff | src/router.ts:423-432 | under the accumulate policy any earlier message of the thread counts, but for a refused mention |
| Router.EmptyThreadForgets | src/db/sessions.ts:42-60 | a mention in the empty thread id opens a session its follow-up does not find |
| SqlMask.MaskSqlNonCode | scripts/q.ts:44-110 | the scanner terminates and computes Mask |
| SqlMask.SkipQuoted | scripts/q.ts:77-91 | past the closing quote, doubled quotes skipped |
| SqlMask.MaskShadows | scripts/q.ts:44-110 | length and newlines are kept, every other character stays in place or becomes a space |
| SqlMask.MaskIdempotent | scripts/q.ts:44-110 | masking twice is masking once |
| SqlMask.MaskIsAllCode | scripts/q.ts:44-110 | nothing in a masked statement reads as a literal or comment |
| SqlMask.PrefixMasksAlike | scripts/q.ts:49-107 | two statements that agree up to a token boundary, and on the next character, mask alike up to there |
| SqlMask.ReplacedMask | scripts/q.ts:44-110 | exchanging one whole token for another with the same first character changes only the blanks in its place |
| SqlMask.HasWordSplits | scripts/q.ts:114-116 | a keyword lies wholly on one side of a gap |
| SqlMask.InsideIsIrrelevant | scripts/q.ts:112-117 | such an exchange never changes the verdict of isQuery |
| SqlMask.QuotedIsLiteral | scripts/q.ts:77-94 | any value with its quotes doubled, between quotes, is one whole token |
| SqlMask.BlockCommentIsLiteral | scripts/q.ts:60-66 | so is a block comment with no closer inside |
| SqlMask.LineCommentIsLiteral | scripts/q.ts:52-58 | so is a line comment with its line break |
| SqlMask.BracketedIsLiteral | scripts/q.ts:96-102 | so is a bracketed name with no bracket inside |
| SqlMask.DollarQuotedIsLiteral | scripts/q.ts:68-75 | and text between two dollar tags that does not hold the tag |
| SqlMask.QuotedValueIsIrrelevant | scripts/q.ts:112-117 | so the value between quotes never changes the verdict |
| SqlMask.IsQueryIff | scripts/q.ts:112-117 | a statement is a query exactly when its code begins with SELECT, PRAGMA, EXPLAIN or VALUES as a word, or with WITH while no INSERT, UPDATE or DELETE is a word of its code |
| SqlMask.HiddenIsNoCode | scripts/q.ts:44-110 | no position inside a literal, quoted name or comment is code |
| SqlMask.CodeIff | scripts/q.ts:49-107 | which characters open a token |
| SqlMask.UnclosedGoesOn | scripts/q.ts:52-102 | a comment, bracket or dollar quote that is never closed goes on to the end |
| SqlMask.UnclosedQuoteGoesOn | scripts/q.ts:77-94 | so does a quote |
| Migrations.CompareSemver | scripts/run-migrations.ts:6-14 | the loop returns the first difference |
| Migrations.CompareMeaning | scripts/run-migrations.ts:6-14 | zero exactly for equal zero-padded versions, negative exactly when smaller at the first difference |
| Migrations.ThreeParts | scripts/run-migrations.ts:6-14 | three numbers compare as numbers, the first one first |
| Migrations.NoNumberIsZero | scripts/run-migrations.ts:10 | a part that is missing or no number counts as zero |
| Migrations.CompareIsPreorder | scripts/run-migrations.ts:6-14 | reflexive, antisymmetric in sign, transitive |
| Migrations.SelectIsTheStableSort | scripts/run-migrations.ts:58-62 | the selected directories are the one sequence that is sorted by version and keeps ties in directory order |
| Migrations.TiesKeepDirectoryOrder | scripts/run-migrations.ts:58-62 | two directories of one version, such as 01.0.0 and 1.0.0, run in directory order |
| Migrations.StableSortUnique | scripts/run-migrations.ts:62 | two stable sorts of one list are equal |
| Migrations.SelectComposes | scripts/run-migrations.ts:58-62 | for a ≤ b ≤ c the directories of (a,c] are those of (a,b] followed by those of (b,c], ties included |
| DeviceGrant.PollForIdpToken | setup/registry-login.ts:715-842 | terminates; the first request comes no sooner than the interval asked for, or 5 s; none but the last after the window, 300 s when none is given and 900 s at most; later ones spaced by that interval plus 5 s per slow_down when setTimeout takes it; gives up exactly after eleven transport failures in a row |
| DeviceGrant.PollForToken | scripts/photon-setup.ts:194-252 | the same with 10 s per 429, spaced when InReach; transport failures never give up |
| DeviceGrant.GrownIs | setup/registry-login.ts:816-818 | the spacing adds 5 s for every slow_down so far, and for the twin 10 s for every 429 |
| DeviceGrant.SpacingIff | setup/registry-login.ts:779-842 | the spacing holds in every world exactly when the window ends before the interval can have grown past 2^31-1 ms |
| DeviceGrant.RegistryInReachIff | setup/registry-login.ts:717-781 | for the registry: exactly when the first interval is at most that, or there is no window |
| DeviceGrant.TooLongFloods | setup/registry-login.ts:718-788 | beyond it, one request every millisecond |
| DeviceGrant.RequestsAreLinear | setup/registry-login.ts:781-788 | the number of requests is linear in the window |
| DeviceGrant.SlowedRequestsAreFew | setup/registry-login.ts:816-818 | and grows with its square root when every reply is slow_down |
| DeviceGrant.AtMostTwentySlowed | setup/registry-login.ts:717-781 | at most twenty of them for the registry, whatever the window and any interval setTimeout takes |

## Left out

- SkillUndo.UndoRestores: asks of each directive that applies at its turn that a copy creates its files, that appended lines are trimmed and new, that a key which is written starts no line of the `.env` found and what is rendered adds only lines that start with KEY=, that the files json-merge writes are not text targets and that merged objects have a scalar key; the exact conditions per step are in UnmergeRestoresIff and EnvUndoIff. Empty directories that a copy made are not modelled.
- SkillLint.NeverUnresolved: asks that run-health held back no capturing run before the directive; GatedStepStrands is a run in which it did.
- SkillLint.Validate: leaves out the single-field rules, retired and renamed attributes, exact semver pins, required attributes, which name no variable.
- SkillParse and SkillModel: the reading of a parsed directive's attributes and body as an action is not modelled; the engine's theorems start from actions.
- SkillSecrets.SecretsDoNotShow: asks that no env-set which writes has a line break before a secret in its value (`PlainSecrets`; SpilledSecretShows is the failing input), that no guard tests a secret, and that nothing is appended or merged into `.env`: an append compares its line with the secrets there (AppendTellsSecret), and the message of a failed JSON.parse may quote them. Texts shown to the operator and commands sent out do contain secrets and are not compared.
- StateSqlite.Adapter.AppendToList: in one caller's run the unique constraint cannot fire; the retry is in QueueRaces.
- ContainerRegistry.Runner: runtime records are values under an id, not objects that alias each other; the driver and the event loop are the events of Interleave.
- Router.RouteInbound: sees the gates' verdicts per wiring; the order of awaits inside one message is not modelled, and every adapter is taken to offer subscribe.
- Router: agent-shared sessions, which are found by agent and not by thread, have no history theorem.
- ContainerRunner: a throw of markContainerRunning while adopting, which leaves the remaining sessions unadopted with their containers running.
- HostSweep.SweepContainer: recurrence, task-session closing and echo pruning of the same tick.
- DeviceGrant.PollForToken: the injectable sleep is taken to be setTimeout.
- Key-value entries, subscriptions and getList of the state store.
- Commands and files: what shell commands do to files is not modelled, so package.json belongs to the host, and git fetches are answers of the host; file-system refusals other than in copies.
- The labels and prose that the engine derives from headings, and the reference prose of a result.
- Plan mode, URL extraction and the reference-floor warning.
- Array elements in json-merge targets are taken to have no string-keyed properties, and objects no inherited ones.
- SqlMask.IsQueryIff: asks that no character of the code upper-cases to several characters or, beyond ASCII, to an ASCII letter.
- Regular expressions, lower-casing and JSON text are host functions; upper-casing in isQuery is any map of characters that keeps blanks.
- The SQL engine: each statement is one atomic function on a map.
- created_at order of sessions, database errors in resolveSession other than a thrown lookup or insert.
- Message hooks, typing indicators, fan-out and rendering, except as steps that may throw.
- Docker, gateways, image builds, the setup wizard, path containment and argument parsing.
