# otpylib: a verified model

otpylib brings Erlang/OTP processes to Python: processes with mailboxes, links and monitors on asyncio, supervisors,
gen_statem, a work-stealing scheduler, and the Erlang distribution protocol. This project models the parts of it with the
most state and branching in Dafny 4.11 and proves what they promise.

`dafny verify dfyconfig.toml` checks everything.

Where the library changes state step by step, the model is a class with the same fields and loops, and each method is
proved against a function or relation on values. What the library promises is then proved about those, over all inputs
and over whole runs.

| file | what it models |
|---|---|
| `ProcessTable.dfy`, `ExitPaths.dfy`, `Lifecycle.dfy`, `ExitLaws.dfy`, `Backend.dfy` | the asyncio backend's process table: links, monitors, and the exit cascade, a depth-first walk that deletes the links it walks on |
| `RemoteLinks.dfy` | the two tables of links to remote processes |
| `Bytes.dfy`, `Utf8.dfy`, `Terms.dfy`, `Etf.dfy`, `EtfForms.dfy`, `EtfRoundTrip.dfy`, `EtfLaws.dfy`, `EtfCodec.dfy` | the External Term Format encoder and decoder, form by form and as a whole |
| `ControlMessages.dfy`, `Framing.dfy`, `Pids.dfy` | distribution control messages, frames on a connection, pid allocation and the stand-alone pid codec |
| `TimerMap.dfy`, `TimingWheel.dfy` | the timing wheel, and the plain map of timers that it stands for |
| `Spam.dfy`, `SpamStealing.dfy`, `SpamScheduler.dfy` | the SPAM scheduler as a step protocol, work stealing and migration, and the scheduler object |
| `RestartWindow.dfy`, `Supervisor.dfy`, `DynamicSupervisor.dfy` | restart intensity, and the static and the dynamic supervisor |
| `RestartRefs.dfy`, `RestartRounds.dfy`, `Supervision.dfy` | the supervisors on top of the backend: the references it makes, and which of its DOWN tuples they act on |
| `GenStatem.dfy` | the gen_statem loop: actions, postponement, the state timeout |
| `AtomTable.dfy` | the atom table under every interleaving of threads, and its sequential methods |
| `Wrappers.dfy` | Option and Result |

What happens outside is an argument: clock readings, whether a process is alive when asked, how a start went, what a
callback returned, which timer fires. Times are integers. A failing call is an error value or a result, never a
precondition.

## What does not hold

Some promises are false of the code. The model keeps the code as it is, says exactly when each promise holds, and shows an
input on which it does not.

| promise | holds just when | fails on |
|---|---|---|
| an integer takes the shortest of its four forms | `EtfLaws.ShortestIntIff`: it is not from -255 to -1 | `EtfLaws.MinusOneIsNotShortest` |
| an exact clock returns a timer on tick d / tick_ms + 1 | `TimerMap.OnTimeIff`: there are two slots, or a part of a tick to wait, or less than one | `TimerMap.OneSlotFiresEarly` |
| an inserted timer can be found and cancelled | `TimingWheel.InsertSoundIff`: its reference was not live | `TimingWheel.SecondInsertHidesFirst` |
| the tables of remote links stay transposes when a process ends | `RemoteLinks.EndBreaksTranspose`: it had no remote link | `RemoteLinks.EndOfLinkedProcessBreaksTranspose` |
| demonitoring undoes monitoring | `Lifecycle.DemonitorUndoesMonitorIff`: the new reference was in use on neither side | `Lifecycle.DemonitorTakesAnother` |
| a DOWN finds the child it is about, after a restart | `RestartRefs.RestartFindsOwnIff`: the supervisor had no monitor under the next reference; for whole rounds `RestartRounds.RoundFindsOwnIff`, `RestartRounds.DynamicRoundFindsOwnIff` | `RestartRefs.SecondIsTaken` |
| a crash spares the crashed process | `Lifecycle.DyingRootIsHitToo`: it traps exits and has a mailbox, or all its neighbours trap exits | `Lifecycle.CrashHitsItsOwnRoot` |
| a process that traps exits hears once from a neighbour that crashes | `ExitLaws.CrashTellsIff`: the neighbour traps exits and has a mailbox, or all its own neighbours trap exits | `ExitLaws.CrashIsToldTwice`, reached by `ExitLaws.TrioIsReached` |
| a process that traps `exit` keeps its links, watchers and name | `Lifecycle.TrapperKeepsTiesIff`: the reason is a graceful one, or it had none | `Lifecycle.TrapperLosesItsLink` |
| a postponed event keeps its caller | `GenStatem.HandleConservesCallersIff`: the same actions reply to nobody else | `GenStatem.PostponedUnderAnotherCaller` |
| an inserted event is the next one | `GenStatem.NextEventIsNextIff`: nothing else is in the mailbox | any mailbox of two, by the same lemma |
| a state timeout does not outlive its state | `GenStatem.LateTimeoutIff`: none is in the mailbox, on its way, postponed or inserted | `GenStatem.PostponedTimeoutOutlivesItsState`, `GenStatem.FlyingTimeoutOutlivesItsState` |
| one failure restarts the failed child once | `DynamicSupervisor.RestartedTwiceIff`: not rest-for-one, or no ValueError comes first | `DynamicSupervisor.OneCrashTwoRestarts` |
| a refused addition changes nothing | `DynamicSupervisor.RefusedAddIff`: it is not an invalid spec under the id of a child | `DynamicSupervisor.InvalidSpecOrphans` |
| the lists of children agree with the table | `DynamicSupervisor.AddKeepsListedIff`, over runs `DynamicSupervisor.RunStaysListedIff`: no invalid spec has the id of a static child or of one that awaits its end | `DynamicSupervisor.InvalidSpecOrphans` |
| an old DOWN finds nobody | `DynamicSupervisor.StaleDownFinds`: it has four fields, or the round gave the child a new monitor | a round whose first start fails, by the same lemma |
| a child that is to stay is restarted when it ends | `Supervision.EndIsHeardIff`, `Supervision.EndIsHeardTooIff`: its id is not the empty string, the strategy is a known one, and the end does not come back to it through a neighbour | `Supervision.CrashedChildIsUnheard`, `Supervisor.NamelessIsNotRestarted`, `DynamicSupervisor.NamelessIsNotRestarted` |
| a child that is told to `exit` is restarted | never for the call (`Supervision.ExitIsNotHeard`), nor later once a notification has visited it (`Supervision.VisitedIsLost`) | `Supervision.ExitedChildIsUnheard` |
| a living process keeps its registered name | over an exit, `Lifecycle.NameKeptIff`: the reason is a graceful one, or no visited process was spawned under it | `Lifecycle.NamesakeLosesItsName` |
| a process that has stopped runs no more | `Spam.StoppedStepIff`, over runs `Spam.RunStaysStopped`: its slice does not end with a yield | `Spam.StoppedRunsAgain` |

The comment at `src/otpylib/gen_statem/core.py:575` puts an inserted event first, and the code puts it last; the code is
followed. An EXIT message is always sent as EXIT2 with a trace token.

## Model

| member | source | states |
|---|---|---|
| ProcessTable.ClosureIsLeast | src/otpylib/runtime/backends/asyncio_backend/backend.py:208-230 | what a walk visits is the least set that holds its root and is closed under links to processes that do not trap exits |
| ProcessTable.ClosureIsClosed | src/otpylib/runtime/backends/asyncio_backend/backend.py:220-234 | the visited set is closed: no visited process has an untouched neighbour that does not trap exits |
| Backend.WalkIsDone | src/otpylib/runtime/backends/asyncio_backend/backend.py:208-253 | a walk that has handled every link of every visited process, on links it deletes as it goes, has visited exactly the processes reachable in the table it started from, and left the full effect of a cascade over them |
| Backend.AsyncIOBackend.constructor | src/otpylib/runtime/backends/asyncio_backend/backend.py:56-87 | no processes, no names, no DOWN sent |
| Backend.AsyncIOBackend.Send | src/otpylib/runtime/backends/asyncio_backend/backend.py:743-747 | a message goes to the end of a local mailbox (`ExitLaws.SendAppends`), and is dropped when there is no process or no mailbox |
| Backend.AsyncIOBackend.NotifyExit | src/otpylib/runtime/backends/asyncio_backend/backend.py:208-253 | one exit notification: the processes reachable from the root through non-trapping ones, in the table at the start, lose their links, monitors and names; the non-trapping neighbours of them are cancelled; each trapping neighbour gets one EXIT per visited neighbour and each watcher one DOWN per monitor, and nothing else changes |
| Backend.AsyncIOBackend.ExitProcess | src/otpylib/runtime/backends/asyncio_backend/backend.py:160-206 | `exit`: not found without effect; a trapping target gets the EXIT, another is cancelled; KILLED always cancels; the cascade follows except for the two graceful reasons |
| Backend.AsyncIOBackend.HandleProcessExit | src/otpylib/runtime/backends/asyncio_backend/backend.py:1016-1109 | the end of a process: the casualties are those an abnormal exit brings down; every mailbox gets exactly one DOWN per monitor on the process or a casualty, with its reason, of five fields only for the process itself when it is no casualty, after what it had, and each process that traps exits gets exactly one EXIT from each casualty it was linked to, and one from the process itself if it was linked to that; after a normal end the others keep their links, their names and are not cancelled; nothing at all happens for KILLED |
| Backend.AsyncIOBackend.TakeDown | src/otpylib/runtime/backends/asyncio_backend/backend.py:1034-1053 | the loop over the links of a crashed process: EXIT to the trapping ones, `exit` on the others, in whatever order, brings down exactly the crash set, sends each DOWN and each EXIT they owe exactly once, besides the one EXIT to each trapping neighbour, and loses no mail |
| Backend.AsyncIOBackend.SendDowns | src/otpylib/runtime/backends/asyncio_backend/backend.py:1076-1081 | each entry of `monitored_by` sends one DOWN, of the given shape, to a watcher that is alive |
| Backend.AsyncIOBackend.SpawnProcess | src/otpylib/runtime/backends/asyncio_backend/backend.py:93-125 | a new process with no links, registered under its name, overwriting |
| Backend.AsyncIOBackend.LinkLocal | src/otpylib/runtime/backends/asyncio_backend/backend.py:283-295 | both link sets gain the other; refused when either process does not exist |
| Backend.AsyncIOBackend.UnlinkLocal | src/otpylib/runtime/backends/asyncio_backend/backend.py:340-350 | both link sets lose the other |
| Backend.AsyncIOBackend.MonitorLocal | src/otpylib/runtime/backends/asyncio_backend/backend.py:444-464 | both sides record the monitor under a reference made of the watcher and its number of monitors |
| Backend.AsyncIOBackend.DemonitorLocal | src/otpylib/runtime/backends/asyncio_backend/backend.py:517-539 | both sides drop the monitor, only if the watcher knows the reference |
| Backend.AsyncIOBackend.CleanupProcess | src/otpylib/runtime/backends/asyncio_backend/backend.py:1114-1131 | the process leaves the table, its name only if still its own, and the links and monitors that point to it go |
| Backend.AsyncIOBackend.ExitEvent | src/otpylib/runtime/backends/asyncio_backend/backend.py:160-206 | `exit` is the step of a run that the run theorems quantify over |
| Backend.AsyncIOBackend.EndEvent | src/otpylib/runtime/backends/asyncio_backend/backend.py:1016-1109 | so is the end of a process, mailboxes included |
| ExitPaths.CrashReachesClosure | src/otpylib/runtime/backends/asyncio_backend/backend.py:1036-1053 | an abnormal exit brings down the same closure as one exit notification, the dying root apart |
| ExitPaths.CrashStep | src/otpylib/runtime/backends/asyncio_backend/backend.py:1051-1053 | each further `exit` on a neighbour, on a table that earlier ones have already cut, adds exactly that neighbour's closure in the original table |
| ExitPaths.CascadeCancels | src/otpylib/runtime/backends/asyncio_backend/backend.py:220-234 | a cascade cancels exactly the live tasks it visits, its root apart |
| ExitPaths.LastWatchers | src/otpylib/runtime/backends/asyncio_backend/backend.py:1076-1087 | telling the remaining watchers of the process itself completes the end: every monitor on it or on a casualty is answered once, in the mailboxes, and gone on both sides |
| ExitPaths.CrashMail | src/otpylib/runtime/backends/asyncio_backend/backend.py:1051-1053 | each further `exit` on a neighbour delivers exactly the DOWN messages that neighbour's closure owed in the original table: none twice, none lost |
| ExitPaths.ExitReaches | src/otpylib/runtime/backends/asyncio_backend/backend.py:1043-1045 | a trapping neighbour of a crashed process gets the EXIT, exactly once more, and nobody else gets any, whatever was taken down before |
| ExitPaths.CrashExits | src/otpylib/runtime/backends/asyncio_backend/backend.py:1051-1053 | each further `exit` on a neighbour sends exactly the EXITs that the processes it brings down owed in the original table |
| Lifecycle.RunKeepsLinks | src/otpylib/runtime/backends/asyncio_backend/backend.py:283-350 | over every run of spawn, link, unlink, monitor, exit, end and cleanup, local links stay symmetric and never point to a removed process |
| Lifecycle.RunSendsOneDown | src/otpylib/runtime/backends/asyncio_backend/backend.py:236-250 | over every run, counted in the mailboxes, each time a monitor is set up pays for at most one DOWN message, whichever exit path sends it |
| Lifecycle.NextMails | src/otpylib/runtime/backends/asyncio_backend/backend.py:743-747 | what any event adds to the tally of DOWN messages is what it adds to the watcher's mailbox, on every path |
| Lifecycle.OneExitPerVisitedNeighbour | src/otpylib/runtime/backends/asyncio_backend/backend.py:220-247 | one notification sends a trapping process exactly one EXIT per visited neighbour, others none, and no surviving link leads to a visited process |
| Lifecycle.OneDownPerVisitedMonitor | src/otpylib/runtime/backends/asyncio_backend/backend.py:236-250 | one notification sends a watcher exactly one DOWN, of four fields, per monitor it has on a visited process |
| Lifecycle.UnlinkUndoesLinkIff | src/otpylib/runtime/backends/asyncio_backend/backend.py:283-350 | unlinking undoes linking just when the two were not linked before |
| Lifecycle.DemonitorUndoesMonitorIff | src/otpylib/runtime/backends/asyncio_backend/backend.py:444-539 | demonitoring undoes monitoring just when the new reference was in use on neither side |
| Lifecycle.DyingRootIsHitToo | src/otpylib/runtime/backends/asyncio_backend/backend.py:1049-1053 | the crashed process is itself cancelled just when it is not shielded (trapping exits, with a mailbox) and some neighbour does not trap exits |
| Lifecycle.CrashHitsItsOwnRoot | src/otpylib/runtime/backends/asyncio_backend/backend.py:1049-1053 | a linked pair, reached by `LinkedPairIsReached`, where it is |
| Lifecycle.EndShapeIff | src/otpylib/runtime/backends/asyncio_backend/backend.py:1034-1087 | when a process ends each watcher gets one DOWN: of five fields just when the end is normal, the process is shielded or all its neighbours trap exits, and else of four |
| Lifecycle.ExitShapeIff | src/otpylib/runtime/backends/asyncio_backend/backend.py:203-250 | `exit` answers a monitor just when its reason is not a graceful one and a notification visits the subject; the DOWN has four fields, never five |
| Lifecycle.AnsweredIsSilent | src/otpylib/runtime/backends/asyncio_backend/backend.py:236-250 | over every run, a monitor that was answered and is not set up again is never heard of again |
| Lifecycle.NameKeptIff | src/otpylib/runtime/backends/asyncio_backend/backend.py:252-253 | over an exit a process keeps its registered name just when the reason is a graceful one or no visited process was ever spawned under it |
| Lifecycle.NamesakeLosesItsName | src/otpylib/runtime/backends/asyncio_backend/backend.py:121-122 | two processes spawned under one name: the first is told to exit, and the name of the second goes while it lives |
| Lifecycle.ExitIsPossible | src/otpylib/runtime/backends/asyncio_backend/backend.py:160-206 | `exit` has an outcome from every state, so the theorems about it speak of something |
| Lifecycle.EndIsPossible | src/otpylib/runtime/backends/asyncio_backend/backend.py:1016-1109 | so has the end of a process, for every reason that a process returns |
| Lifecycle.LinkedPairIsReached | src/otpylib/runtime/backends/asyncio_backend/backend.py:283-295 | two linked processes are reached from nothing |
| Lifecycle.TrapperKeepsTiesIff | src/otpylib/runtime/backends/asyncio_backend/backend.py:181-206 | `exit` on a process that traps exits delivers the EXIT and does not cancel it; its links, watchers and name survive just when the reason is a graceful one or there were none |
| Lifecycle.TrapperLosesItsLink | src/otpylib/runtime/backends/asyncio_backend/backend.py:181-206 | a reached table on which a living process loses its link that way |
| Lifecycle.WatchesThreeIsReached | src/otpylib/runtime/backends/asyncio_backend/backend.py:444-539 | a process that has watched two others and given up the first is reached from nothing |
| Lifecycle.DemonitorTakesAnother | src/otpylib/runtime/backends/asyncio_backend/backend.py:444-539 | a reached table (`WatchesThreeIsReached`) on which monitoring and demonitoring takes the monitor of another process away |
| ExitLaws.NormalEndSparesOthers | src/otpylib/runtime/backends/asyncio_backend/backend.py:1032-1034 | when a process ends with NORMAL, SHUTDOWN or None every other keeps its links, its cancelled flag and its EXIT messages, and loses only its monitors on that process |
| ExitLaws.CrashCancelsIff | src/otpylib/runtime/backends/asyncio_backend/backend.py:1034-1053 | a living neighbour that does not trap exits is cancelled just when the reason is an error |
| ExitLaws.CrashTellsIff | src/otpylib/runtime/backends/asyncio_backend/backend.py:1034-1053 | the exact number of EXITs that a trapping process gets from one that ends: none unless it ends with an error and is linked; else one if the process traps exits with a mailbox or all its neighbours do, and two otherwise, since the crash then comes back to it |
| ExitLaws.CrashIsToldTwice | src/otpylib/runtime/backends/asyncio_backend/backend.py:1034-1053 | a crashed process with one trapping neighbour and one that does not trap: the former gets two EXITs from it |
| ExitLaws.TrioIsReached | src/otpylib/runtime/backends/asyncio_backend/backend.py:283-295 | three spawns and two links lead there from nothing |
| ExitLaws.CrashSpreads | src/otpylib/runtime/backends/asyncio_backend/backend.py:220-234 | from another process it gets one just when it was linked to that one and the crash reached that one |
| ExitLaws.ExitCancelsIff | src/otpylib/runtime/backends/asyncio_backend/backend.py:160-195 | the target of `exit` is cancelled just when it lives and the reason is KILLED or it does not trap exits with a mailbox |
| ExitLaws.ExitTellsIff | src/otpylib/runtime/backends/asyncio_backend/backend.py:181-190 | one that traps exits has exactly one EXIT more instead, except for KILLED |
| ExitLaws.ExitSpreadsIff | src/otpylib/runtime/backends/asyncio_backend/backend.py:203-234 | a living neighbour of the target that traps no exits is cancelled just when the reason is neither SHUTDOWN nor SUPERVISOR_SHUTDOWN |
| ExitLaws.ExitGoesOn | src/otpylib/runtime/backends/asyncio_backend/backend.py:220-234 | whoever is cancelled loses its links, and a living neighbour of it is cancelled just when it does not trap exits with a mailbox |
| ExitLaws.ExitComesFrom | src/otpylib/runtime/backends/asyncio_backend/backend.py:220-234 | whoever is cancelled has a neighbour that was reached and cut off, the target or one that does not trap exits |
| ExitLaws.CascadeCuts | src/otpylib/runtime/backends/asyncio_backend/backend.py:220-253 | the visited processes lose their links, both ways, and their watchers; every other link and every unanswered monitor stays |
| ExitLaws.SendAppends | src/otpylib/runtime/backends/asyncio_backend/backend.py:743-747 | delivery adds the message at the end of one mailbox, if there is one, and touches nothing else |
| ExitLaws.MailOnlyGrows | src/otpylib/runtime/backends/asyncio_backend/backend.py:743-747 | whatever happens a mailbox only grows at its end, except where its owner reads it |
| ExitLaws.RunOnlyAddsMail | src/otpylib/runtime/backends/asyncio_backend/backend.py:743-747 | the same over every run |
| ExitLaws.SpawnIsFresh | src/otpylib/runtime/backends/asyncio_backend/backend.py:93-125 | a new process has no mail, links, monitors or watchers, and runs; no other process changes |
| ExitLaws.CleanupCuts | src/otpylib/runtime/backends/asyncio_backend/backend.py:1114-1131 | after a cleanup no link leads to the process and its watchers' monitors on it are gone; nothing else changes |
| ExitLaws.LinkJoins | src/otpylib/runtime/backends/asyncio_backend/backend.py:283-350 | which links there are after a link or an unlink, for every pair |
| ExitLaws.MonitorJoins | src/otpylib/runtime/backends/asyncio_backend/backend.py:444-464 | what monitoring adds to either side, and to nobody else |
| ExitLaws.DemonitorParts | src/otpylib/runtime/backends/asyncio_backend/backend.py:517-539 | what demonitoring takes from either side, and from nobody else |
| RemoteLinks.EventsLink | src/otpylib/runtime/backends/asyncio_backend/backend.py:297-417 | which pairs either table holds after a link or unlink, made here or by the peer |
| RemoteLinks.RunIsConsistent | src/otpylib/runtime/backends/asyncio_backend/backend.py:297-417 | over every run of outgoing and incoming link and unlink, the two tables are transposes without empty entries, and hold exactly the linked pairs |
| RemoteLinks.EndBreaksTranspose | src/otpylib/runtime/backends/asyncio_backend/backend.py:1056-1072 | deleting only the forward entry at an exit keeps the tables transposed just when there was none |
| RemoteLinks.EndOfLinkedProcessBreaksTranspose | src/otpylib/runtime/backends/asyncio_backend/backend.py:1056-1072 | after one remote link from the start it does not |
| RemoteLinks.LinkTables.LinkRemote | src/otpylib/runtime/backends/asyncio_backend/backend.py:297-317 | a link is entered in both tables |
| RemoteLinks.LinkTables.UnlinkRemote | src/otpylib/runtime/backends/asyncio_backend/backend.py:352-374 | a link leaves both tables, and so do entries that become empty |
| RemoteLinks.LinkTables.LinkRemoteIncoming | src/otpylib/runtime/backends/asyncio_backend/backend.py:376-402 | the peer's link is taken only for a living local process |
| RemoteLinks.LinkTables.UnlinkRemoteIncoming | src/otpylib/runtime/backends/asyncio_backend/backend.py:404-417 | the peer's unlink undoes it |
| Bytes.DigitsTrip | src/otpylib/distribution/etf.py:289-290 | little-endian digits of any magnitude give the magnitude back and are (bit length + 7) // 8 bytes long |
| Bytes.DigitsAreShortest | src/otpylib/distribution/etf.py:289-290 | no shorter byte string gives the same magnitude |
| Bytes.I32Trip | src/otpylib/distribution/etf.py:95-96 | a signed 32-bit integer comes back from its four bytes |
| Utf8.CharForm | src/otpylib/distribution/etf.py:262-269 | each character takes the shortest of the four UTF-8 forms, and its code is spread over them as section 3 of RFC 3629 says; surrogates have none |
| Utf8.RoundTrip | src/otpylib/distribution/etf.py:262-269 | a name or string encodes to UTF-8 that decodes to it |
| Utf8.RoundTripBack | src/otpylib/distribution/etf.py:115-125 | accepted UTF-8 is the encoding of what it decodes to |
| EtfForms.FieldsAreBigEndian | src/otpylib/distribution/etf.py:89-96 | two-byte and four-byte fields have the most significant byte first, and the signed ones are in two's complement |
| EtfForms.StringReads | src/otpylib/distribution/etf.py:138-141 | STRING_EXT is the list of its bytes as integers, in order |
| EtfForms.LatinAtomReads | src/otpylib/distribution/etf.py:115-119 | ATOM_EXT is the atom whose characters have the codes of its bytes |
| EtfForms.AtomReads | src/otpylib/distribution/etf.py:115-119 | ATOM_UTF8_EXT is the atom of its UTF-8 text, or an error |
| EtfForms.SmallAtomReads | src/otpylib/distribution/etf.py:121-125 | so is SMALL_ATOM_UTF8_EXT |
| EtfForms.IntegerReads | src/otpylib/distribution/etf.py:101-105 | SMALL_INTEGER_EXT and INTEGER_EXT |
| EtfForms.BigReads | src/otpylib/distribution/etf.py:155-160 | SMALL_BIG_EXT: one more digit in front makes 256 times the number and that digit, with the sign of the sign byte |
| EtfForms.BigStarts | src/otpylib/distribution/etf.py:155-167 | no digits are zero, in both big forms |
| EtfForms.LargeBigReads | src/otpylib/distribution/etf.py:162-167 | LARGE_BIG_EXT goes on in the same way, counting in four bytes |
| EtfForms.BinaryReads | src/otpylib/distribution/etf.py:151-153 | BINARY_EXT is its bytes |
| EtfForms.DataReads | src/otpylib/distribution/etf.py:112-136 | NEW_FLOAT_EXT is its eight bytes, NIL_EXT the empty list |
| EtfForms.TupleForms | src/otpylib/distribution/etf.py:127-133 | SMALL_TUPLE_EXT: the parts come in order |
| EtfForms.LargeTupleForms | src/otpylib/distribution/etf.py:131-133 | LARGE_TUPLE_EXT: the same with a count of four bytes |
| EtfForms.ListForms | src/otpylib/distribution/etf.py:143-149 | LIST_EXT: the elements come in order |
| EtfForms.ListEnds | src/otpylib/distribution/etf.py:143-149 | and the tail after them is one more element unless it is the empty list |
| EtfForms.MapForms | src/otpylib/distribution/etf.py:169-171 | MAP_EXT: each further pair is put into the map of the pairs before it, so that the last value of a repeated key wins and the first place is kept; a key that cannot be hashed is an error |
| EtfForms.EmptyMapReads | src/otpylib/distribution/etf.py:169-171 | no pairs are the empty map |
| EtfForms.PidForms | src/otpylib/distribution/etf.py:173-185 | PID_EXT and NEW_PID_EXT: node, id, serial and a creation of one or four bytes; the node is an atom |
| EtfForms.PortForms | src/otpylib/distribution/etf.py:201-211 | PORT_EXT and NEW_PORT_EXT: node, id and creation |
| EtfForms.RefForms | src/otpylib/distribution/etf.py:187-199 | NEW_REFERENCE_EXT and NEWER_REFERENCE_EXT: the number of ids, node, creation, and the ids in order |
| EtfForms.UnknownTags | src/otpylib/distribution/etf.py:213-214 | every tag but these is an error, and so is no tag |
| EtfForms.VersionFirst | src/otpylib/distribution/etf.py:65-70 | the first byte is 131, or an error |
| EtfForms.WhatFits | src/otpylib/distribution/etf.py:247-355 | which terms can be written: text with UTF-8, and what the length fields and the 32-bit fields have room for |
| EtfForms.TagWritten | src/otpylib/distribution/etf.py:247-355 | which of the forms each term is written in |
| EtfForms.ComesBackAs | src/otpylib/distribution/etf.py:251-269 | None and booleans come back as the atoms nil, true and false, text as its bytes, everything else as it is, part by part |
| EtfRoundTrip.RoundTrip | src/otpylib/distribution/etf.py:247-355 | decoding the encoding of any encodable term, followed by any bytes, gives its normal form with the cursor exactly at the end of its bytes |
| EtfRoundTrip.IntReadsBack | src/otpylib/distribution/etf.py:279-298 | each of the four integer forms reads back with its sign and magnitude |
| EtfRoundTrip.MapReadsBack | src/otpylib/distribution/etf.py:333-338 | a map with distinct normal keys reads back entry by entry |
| EtfRoundTrip.ListReadsBack | src/otpylib/distribution/etf.py:323-331 | a proper list reads back, the empty one from NIL_EXT |
| EtfRoundTrip.TupleReadsBack | src/otpylib/distribution/etf.py:313-321 | a tuple reads back in its small and its large form |
| EtfLaws.PrefixFree | src/otpylib/distribution/etf.py:247-355 | no encoding is a proper prefix of another, and equal bytes mean terms equal up to normal form |
| EtfLaws.VersionedRoundTrip | src/otpylib/distribution/etf.py:223-227 | the same with the version byte in front |
| EtfLaws.NoTermStartsWithVersion | src/otpylib/runtime/backends/asyncio_backend/connection.py:308-312 | no term starts with byte 131, so stripping a leading 131 is safe |
| EtfLaws.DecodedIsNormal | src/otpylib/distribution/etf.py:98-214 | whatever bytes are accepted, the term is in normal form with distinct hashable keys in every map |
| EtfLaws.Canonicalisation | src/otpylib/distribution/etf.py:98-214 | decoding, encoding and decoding again gives the first result, for all accepted bytes whose term can be encoded |
| EtfLaws.ShortestIntIff | src/otpylib/distribution/etf.py:279-298 | the form chosen for an integer is the shortest of the four just when it is not between -255 and -1 |
| EtfLaws.MinusOneIsNotShortest | src/otpylib/distribution/etf.py:279-298 | -1 takes five bytes and four would do |
| EtfCodec.ETFEncoder.Encode | src/otpylib/distribution/etf.py:223-227 | the bytes of the specification, or an exception just when the term is not encodable |
| EtfCodec.ETFEncoder.EncodeTerm | src/otpylib/distribution/etf.py:247-355 | the buffer grows by exactly the specified encoding; an exception only for what is not encodable |
| EtfCodec.ETFEncoder.EncodeInt | src/otpylib/distribution/etf.py:279-298 | the integer branch |
| EtfCodec.ETFEncoder.EncodeMap | src/otpylib/distribution/etf.py:333-338 | the loop over the entries of a map |
| EtfCodec.ETFDecoder.Decode | src/otpylib/distribution/etf.py:65-70 | result, error and cursor agree with the specified decoding of the remaining bytes |
| EtfCodec.ETFDecoder.DecodeTerm | src/otpylib/distribution/etf.py:98-214 | the same for every tag, and the cursor only moves forward |
| EtfCodec.ETFDecoder.DecodeMany | src/otpylib/distribution/etf.py:127-149 | the loop that reads the elements of a tuple or list |
| EtfCodec.ETFDecoder.DecodePairs | src/otpylib/distribution/etf.py:169-171 | the loop that reads a map: later keys overwrite earlier ones in place |
| ControlMessages.ParseTrip | src/otpylib/runtime/backends/asyncio_backend/control_messages.py:45-67 | every control message's tuple, as it comes back from the wire, parses to the message in normal form |
| ControlMessages.ExitForms | src/otpylib/runtime/backends/asyncio_backend/control_messages.py:149-155 | EXIT and EXIT2 read alike, with and without a trace token |
| ControlMessages.WrittenAs | src/otpylib/runtime/backends/asyncio_backend/control_messages.py:25-345 | the operation number and the order of the fields of each message, as written |
| ControlMessages.ReadAs | src/otpylib/runtime/backends/asyncio_backend/control_messages.py:46-341 | and as read, with anything in an unused field and anything after the last one; too few fields and unknown numbers are errors |
| Framing.StreamRoundTrip | src/otpylib/runtime/backends/asyncio_backend/connection.py:325-384 | any sequence of messages, framed and concatenated, is received and parsed back in order, with the rest of the stream untouched |
| Framing.PacketOpens | src/otpylib/runtime/backends/asyncio_backend/connection.py:345-371 | a packet splits at the control term's end, found from the cursor less one |
| Framing.FrameIsReceived | src/otpylib/runtime/backends/asyncio_backend/connection.py:329-335 | the length prefix takes exactly one packet off the stream |
| Framing.VersionByteIsOptional | src/otpylib/runtime/backends/asyncio_backend/connection.py:308-312 | the frame is the same whether or not the caller left the version bytes in |
| Framing.FrameBytes | src/otpylib/runtime/backends/asyncio_backend/connection.py:296-322 | a frame is its length in four bytes, 131, 68, 0, and both terms without their version bytes |
| Framing.FrameIsCut | src/otpylib/runtime/backends/asyncio_backend/connection.py:325-340 | what comes in is cut by those four bytes; too little gives nothing |
| Framing.PlainOpens | src/otpylib/runtime/backends/asyncio_backend/connection.py:372-384 | a packet without the header bytes is one plain term, with or without its version byte |
| Framing.AsyncIOConnection.SendMessage | src/otpylib/runtime/backends/asyncio_backend/connection.py:296-322 | the frame of header, control and payload is written whole, or nothing if its length does not fit |
| Framing.AsyncIOConnection.SendRegSend | src/otpylib/runtime/backends/asyncio_backend/connection.py:243-269 | the frame of a REG_SEND from the node's own pid |
| Framing.AsyncIOConnection.SendToPid | src/otpylib/runtime/backends/asyncio_backend/connection.py:271-293 | the frame of a SEND to a pid |
| Framing.AsyncIOConnection.Receive | src/otpylib/runtime/backends/asyncio_backend/connection.py:325-384 | one message is taken off the input, or nothing for a short or malformed one |
| Pids.PidsRepeatIff | src/otpylib/runtime/backends/asyncio_backend/pid.py:93-133 | two allocations give the same pid just when they are a multiple of MAX_ID * 2^32 apart |
| Pids.PidsAreDistinct | src/otpylib/runtime/backends/asyncio_backend/pid.py:93-133 | any MAX_ID * 2^32 consecutive pids are distinct |
| Pids.FirstPid | src/otpylib/runtime/backends/asyncio_backend/pid.py:68-85 | the first pid has id 1 and serial 0 |
| Pids.NextPid | src/otpylib/runtime/backends/asyncio_backend/pid.py:93-133 | the next pid has the next id, up to MAX_ID; then id 1 and the next serial, and serial 0 after MAX_SERIAL |
| Pids.PidAllocator.Allocate | src/otpylib/runtime/backends/asyncio_backend/pid.py:93-133 | the n-th pid of `Pids.FirstPid` and `Pids.NextPid`; a wrap is counted when the last id was given out |
| Pids.EncodePid | src/otpylib/runtime/backends/asyncio_backend/pid.py:167-211 | byte for byte the encoder's own pid case, or the legacy form with one byte of creation |
| Pids.DecodePid | src/otpylib/runtime/backends/asyncio_backend/pid.py:214-273 | agrees with the term decoder at any offset, result and position |
| Pids.DecodeAtom | src/otpylib/distribution/etf.py:379-397 | agrees with the term decoder, except that a name cut short shows only in the position returned |
| Pids.PidRoundTrip | src/otpylib/runtime/backends/asyncio_backend/pid.py:167-273 | each form decodes back at any offset, the legacy one up to creation mod 256 |
| TimerMap.RunConserves | src/otpylib/runtime/backends/asyncio_backend/timing_wheel.py:124-272 | over every run each reference is fired once, cancelled or live for each time it was inserted |
| TimerMap.NeverEarly | src/otpylib/runtime/backends/asyncio_backend/timing_wheel.py:239-249 | no timer is returned before its expiry |
| TimerMap.FiresInTime | src/otpylib/runtime/backends/asyncio_backend/timing_wheel.py:151-272 | if each tick is at least a tick length on, a timer with delay d that is left alone is returned no later than tick d / tick_ms + 1 (one with a negative delay when its slot comes round) |
| TimerMap.FiresExactly | src/otpylib/runtime/backends/asyncio_backend/timing_wheel.py:151-272 | with an exact clock it is live for exactly FireTick - 1 ticks and returned on the next |
| TimerMap.ReadingCountsDown | src/otpylib/runtime/backends/asyncio_backend/timing_wheel.py:304-329 | over any run that leaves a timer alone what is read off it and the time passed make up its delay, until that is over; then it is 0. Right after the insertion it is the delay |
| TimerMap.ReadingAfterTicks | src/otpylib/runtime/backends/asyncio_backend/timing_wheel.py:304-329 | with an exact clock that is the delay less the ticks |
| TimerMap.OnTimeIff | src/otpylib/runtime/backends/asyncio_backend/timing_wheel.py:151-156 | that tick is d / tick_ms + 1 just when there are two slots or more, or less than one tick to wait, or a part of a tick |
| TimerMap.OneSlotFiresEarly | src/otpylib/runtime/backends/asyncio_backend/timing_wheel.py:151-156 | a run on a one-slot wheel that returns a timer one tick early |
| TimingWheel.ExpiredInOrder | src/otpylib/runtime/backends/asyncio_backend/timing_wheel.py:239-249 | what a tick returns comes in the order in which it was put into the slot |
| TimingWheel.StatsAddUp | src/otpylib/runtime/backends/asyncio_backend/timing_wheel.py:331-333 | total_inserted = total_fired + total_cancelled + current_active, and current_active is the size of the index |
| TimingWheel.InsertSoundIff | src/otpylib/runtime/backends/asyncio_backend/timing_wheel.py:124-180 | after an insertion wheel and index still stand for a plain map of timers just when the reference was not live |
| TimingWheel.SecondInsertHidesFirst | src/otpylib/runtime/backends/asyncio_backend/timing_wheel.py:167-180 | a reference put in twice and cancelled once: the first timer fires |
| TimingWheel.TimingWheel.constructor | src/otpylib/runtime/backends/asyncio_backend/timing_wheel.py:89-122 | an empty wheel stands for the empty map |
| TimingWheel.TimingWheel.InsertTimer | src/otpylib/runtime/backends/asyncio_backend/timing_wheel.py:124-180 | the timer goes to the end of its slot and the index leads to it; unless the reference was live, the wheel goes on standing for the plain map, with the timer added |
| TimingWheel.TimingWheel.CancelTimer | src/otpylib/runtime/backends/asyncio_backend/timing_wheel.py:182-215 | found just when live; the map loses it, and the wheel keeps it only as cancelled |
| TimingWheel.TimingWheel.TickWheel | src/otpylib/runtime/backends/asyncio_backend/timing_wheel.py:217-272 | returns exactly the due timers of the current slot, once each, in the order of the slot, and the index locates the others at their new places |
| TimingWheel.TimingWheel.PeekNext | src/otpylib/runtime/backends/asyncio_backend/timing_wheel.py:274-302 | some live timer with the earliest expiry, and its expiry less the clock, or 0 once that is reached |
| TimingWheel.TimingWheel.ReadTimer | src/otpylib/runtime/backends/asyncio_backend/timing_wheel.py:304-329 | for a live timer the reading and the clock make up its expiry, and the reading is 0 once that is reached; nothing for any other |
| TimingWheel.TimingWheel.GetActiveCount | src/otpylib/runtime/backends/asyncio_backend/timing_wheel.py:331-333 | the number of live timers |
| Spam.RunKeeps | src/otpylib/spam/core.py:165-195 | with stealing and migration off, in every state of every interleaving of spawns, sends, slices, messages, yields, preemptions, errors and terminations, each registered process that has not terminated is in exactly one place: its core's ready queue once, one outstanding slice, or waiting with an empty mailbox |
| Spam.ExactlyOnePlace | src/otpylib/spam/core.py:407-429 | the invariant behind it puts a registered process that has not terminated in exactly one place, and in no other core's queue |
| Spam.RunKeepsMailInOrder | src/otpylib/spam/scheduler.py:182-184 | over every run no message is lost, doubled or overtaken: what was in a mailbox and what came is what was handled, then what is left |
| Spam.RunKeepsTurns | src/otpylib/spam/core.py:165-429 | first in, first out: over every run what was in a core's ready queue and what spawns, wake-ups, yields and preemptions put in since, in that order, is what was taken off the front and what is left, but for terminated processes |
| Spam.RunKeepsAllTurns | src/otpylib/spam/core.py:165-429 | with nothing left out if nobody was terminated |
| Spam.NobodyIsOvertaken | src/otpylib/spam/core.py:165-429 | a process that was waiting before another was put into the queue is taken off before it, unless one of the two is terminated |
| Spam.StepKeepsTurns | src/otpylib/spam/core.py:407-429 | each step adds to a queue at its end only and takes from it at its front only, terminations aside |
| Spam.RemovedFirst | src/otpylib/spam/core.py:153-157 | `deque.remove` takes the first occurrence and keeps the others in order |
| Spam.StoppedStepIff | src/otpylib/spam/core.py:420-429 | a process whose handler has stopped it stays terminated over a step just when that is not the yield at the end of its slice |
| Spam.RunStaysStopped | src/otpylib/spam/core.py:407-435 | the same over every run |
| Spam.StoppedRunsAgain | src/otpylib/spam/core.py:420-429 | from the start: one process, two messages, the first of which stops it; it yields, is queued, and runs again |
| Spam.PopTakesFirst | src/otpylib/spam/core.py:165-174 | the next process is the first ready one in the queue, and all before it were stale |
| Spam.TerminatedIsGone | src/otpylib/spam/scheduler.py:149-169 | a terminated process is not registered, not active, and in no ready queue |
| Spam.SendKeeps | src/otpylib/spam/scheduler.py:171-199 | a message to a waiting process queues it once: no wake-up is lost and none doubled |
| Spam.NextKeeps | src/otpylib/spam/core.py:165-174 | taking the next process drops only stale entries |
| Spam.YieldKeeps | src/otpylib/spam/core.py:420-429 | a yield queues the process just when messages are left |
| Spam.PreemptKeeps | src/otpylib/spam/core.py:407-418 | a preempted process is queued once |
| Spam.TerminateKeeps | src/otpylib/spam/scheduler.py:149-169 | termination leaves every other process where it was |
| Spam.FreshIsSound | src/otpylib/spam/scheduler.py:33-51 | the invariant holds at the start |
| SpamStealing.RunKeepsPartition | src/otpylib/spam/scheduler.py:115-169 | over every run, with steals and migrations, the cores partition the registered processes as `current_core` says |
| SpamStealing.RunKeepsTurns | src/otpylib/spam/core.py:526-578 | the order of turns over every run with steals and migrations, which put a process at the end of its new core's queue: but for the processes that left the core, first in is first out |
| SpamStealing.StealIff | src/otpylib/spam/core.py:531-544 | something is stolen just when the victim's queue holds a process of its own that is ready or waiting, cheap to move, and has mail or was active; it comes to the end of the thief's queue, ready |
| SpamStealing.LoadCounts | src/otpylib/spam/data.py:284-288 | a spawn adds ten tenths of load, a yield with messages six, and an empty queue leaves four for each process |
| SpamStealing.StealMovesLoad | src/otpylib/spam/core.py:526-578 | a successful steal takes ten tenths of load from the victim to the thief and leaves every other core's load alone |
| SpamStealing.StealChangesPotential | src/otpylib/spam/core.py:526-578 | total load is conserved and the sum of squared loads changes by exactly -20 (victim - thief - 10) |
| SpamStealing.StealHelpsIff | src/otpylib/spam/core.py:484-502 | the potential falls just when the victim is more than 1.0 heavier, and the victim stays heavier just when it was more than 2.0 heavier |
| SpamStealing.StealsAreFew | src/otpylib/spam/core.py:484-557 | with a threshold of at least 1, consecutive steals are bounded by the potential they start from |
| SpamStealing.StealTakesLast | src/otpylib/spam/core.py:531-544 | the process stolen is the last in the victim's queue that can be |
| SpamStealing.MigrateMoves | src/otpylib/spam/scheduler.py:371-396 | a migration takes the process from one core's processes and queue to the other's, and keeps its mailbox |
| SpamStealing.MigrateKeepsPartition | src/otpylib/spam/scheduler.py:371-396 | a migration moves a registered process to the target core, and fails only for an unknown one |
| SpamScheduler.WorkStealingScheduler.SelectCore | src/otpylib/spam/scheduler.py:213-239 | round robin, or with stealing on the first of the least loaded cores, whatever the hash adds |
| SpamScheduler.WorkStealingScheduler.SpawnProcess | src/otpylib/spam/scheduler.py:115-147 | registered, active and queued on one core; a known pid is refused with nothing changed |
| SpamScheduler.WorkStealingScheduler.AddProcess | src/otpylib/spam/core.py:133-145 | refused when the core already holds the pid |
| SpamScheduler.WorkStealingScheduler.RemoveProcess | src/otpylib/spam/core.py:147-163 | on any core: leaves the core and its queue, marked terminated; false and nothing changed when that core does not hold it |
| SpamScheduler.WorkStealingScheduler.TerminateProcess | src/otpylib/spam/scheduler.py:149-169 | the Terminate step of the protocol |
| SpamScheduler.WorkStealingScheduler.SendMessage | src/otpylib/spam/scheduler.py:182-199 | the Send step of the protocol |
| SpamScheduler.WorkStealingScheduler.GetNextProcess | src/otpylib/spam/core.py:165-174 | the loop that pops stale entries, and the Next step of the protocol |
| SpamScheduler.WorkStealingScheduler.BeginSlice | src/otpylib/spam/core.py:35-40 | the Begin step of the protocol |
| SpamScheduler.WorkStealingScheduler.HandleMessage | src/otpylib/spam/core.py:207-215 | the Handle step of the protocol: messages leave the queue in order |
| SpamScheduler.WorkStealingScheduler.HandleVoluntaryYield | src/otpylib/spam/core.py:420-429 | the Yield step of the protocol, whose place in the order of turns `Spam.RunKeepsTurns` proves |
| SpamScheduler.WorkStealingScheduler.HandlePreemption | src/otpylib/spam/core.py:407-418 | the Preempt step of the protocol |
| SpamScheduler.WorkStealingScheduler.HandleProcessError | src/otpylib/spam/core.py:431-435 | the Crash step of the protocol |
| SpamScheduler.WorkStealingScheduler.GetLoadFactor | src/otpylib/spam/data.py:284-288 | 6 per queued and 4 per active process, in tenths |
| SpamScheduler.WorkStealingScheduler.CanSteal | src/otpylib/spam/data.py:140-147 | ready or waiting, cheap to migrate, and with messages or recently active |
| SpamScheduler.WorkStealingScheduler.FindStealable | src/otpylib/spam/core.py:531-544 | the last stealable process of the victim's queue |
| SpamScheduler.WorkStealingScheduler.PerformSteal | src/otpylib/spam/core.py:526-578 | the steal whose effect on loads and owners is proved |
| SpamScheduler.WorkStealingScheduler.MigrateProcess | src/otpylib/spam/scheduler.py:371-396 | the migration whose effect on owners is proved |
| RestartWindow.RecordRestart | src/otpylib/supervisor/core.py:98-108 | the queue gains the restart and loses the old ones; exceeded just when more than the limit are left |
| RestartWindow.RecordedIsWindow | src/otpylib/supervisor/core.py:98-108 | with a clock that does not go back the pruned queue is the part of the full history inside the window |
| RestartWindow.AdmittedIff | src/otpylib/supervisor/core.py:171-179 | every restart was let through just when no interval of max_seconds, wherever it starts, holds more than max_restarts of them |
| Supervisor.RunIsBounded | src/otpylib/supervisor/core.py:310-350 | over every run of the loop, no interval of max_seconds holds more than max_restarts restarts |
| Supervisor.RoundRestartsAPrefix | src/otpylib/supervisor/core.py:357-403 | a round restarts exactly a prefix of the victims, once each and in order, with pid, reference and count as their own start gave them; the rest stay down; no other child is touched; the prefix is all of them unless the limit is hit or a start fails |
| Supervisor.VictimsListed | src/otpylib/supervisor/core.py:374-394 | the victims are just the one child, the whole start order, or its suffix from the child on; none for an unknown strategy |
| Supervisor.RestartOneSound | src/otpylib/supervisor/core.py:171-179 | a restart is refused just when it would be one too many in the window that ends now |
| Supervisor.StaleDownsFindNobody | src/otpylib/supervisor/core.py:320-328 | after a round a DOWN for the old monitor of any victim matches no child, given fresh references |
| Supervisor.RoundKeepsRefsDistinct | src/otpylib/supervisor/core.py:162-165 | references stay distinct from round to round, given fresh ones |
| Supervisor.FindIsExact | src/otpylib/supervisor/core.py:320-325 | a DOWN finds the child that is monitored by its reference, and no other |
| Supervisor.SignalsReach | src/otpylib/supervisor/core.py:377-399 | told to exit are exactly the victims found alive |
| Supervisor.SignalsInOrder | src/otpylib/supervisor/core.py:377-384 | they are told in the order of the list |
| Supervisor.SignalsOne | src/otpylib/supervisor/core.py:377-384 | one child is told just when it has a pid and is found alive |
| Supervisor.RoundStops | src/otpylib/supervisor/core.py:374-394 | whom a round stops: nobody under one-for-one; the living of all children, or of those from the dead one on; nobody for a graceful reason |
| Supervisor.RoundLeaves | src/otpylib/supervisor/core.py:368-403 | what a round leaves of each child: pid and reference of its start and one restart more; neither, and one restart more, if the start failed; stopped, or as it was under one-for-one, if not reached |
| Supervisor.GracefulEnd | src/otpylib/supervisor/core.py:363-366 | after SHUTDOWN or SUPERVISOR_SHUTDOWN the child has no pid and no reference, and nothing else changes |
| Supervisor.DownPassedOver | src/otpylib/supervisor/core.py:319-333 | tuples of four fields, the reasons KILLED and SHUTDOWN, and nameless or unknown children change nothing |
| Supervisor.FindIsFirst | src/otpylib/supervisor/core.py:321-325 | of several children under one reference the first in start order is found |
| Supervisor.DownRestartsIff | src/otpylib/supervisor/core.py:319-366 | a DOWN restarts somebody, or is refused or fails in trying, just when it is the tuple of five fields, finds a child with a nonempty id, its reason is none of KILLED, SHUTDOWN and SUPERVISOR_SHUTDOWN, and the strategy is a known one |
| Supervisor.NamelessIsNotRestarted | src/otpylib/supervisor/core.py:327-333 | a child whose id is the empty string crashes and nothing happens |
| Supervisor.SupervisorLoop.constructor | src/otpylib/supervisor/core.py:290-296 | the children in start order, no restarts yet |
| Supervisor.SupervisorLoop.HandleDown | src/otpylib/supervisor/core.py:319-344 | the DOWN branch of the loop: tuples of four fields, unknown references, KILLED and SHUTDOWN are passed over |
| Supervisor.SupervisorLoop.HandleChildExit | src/otpylib/supervisor/core.py:357-403 | one round of the strategy |
| Supervisor.SupervisorLoop.RestartChild | src/otpylib/supervisor/core.py:171-179 | refused at the limit; else marked down, counted and started |
| Supervisor.SupervisorLoop.RestartChildren | src/otpylib/supervisor/core.py:386-403 | the loop over the victims, up to the first that is refused or fails to start |
| Supervisor.SupervisorLoop.StopChildren | src/otpylib/supervisor/core.py:377-384 | the living are told to exit and all are marked down |
| Supervisor.SupervisorLoop.StartChild | src/otpylib/supervisor/core.py:145-168 | pid and monitor are recorded only if the start succeeds |
| Supervisor.SupervisorLoop.MarkDown | src/otpylib/supervisor/core.py:111-122 | pid and monitor are forgotten |
| Supervisor.SupervisorLoop.FindChild | src/otpylib/supervisor/core.py:321-325 | the first child in order with the reference |
| Supervisor.SupervisorLoop.ShutdownChildren | src/otpylib/supervisor/core.py:135-142 | every child found alive is told to exit, in order |
| RestartRefs.RestartFindsOwnIff | src/otpylib/supervisor/core.py:145-179 | after a one-for-one restart every DOWN finds its own child just when the reference the backend makes next was not in use by the supervisor |
| RestartRefs.FirstRestartFindsOwnIff | src/otpylib/supervisor/core.py:145-179 | when a child of a supervisor whose children were started in order ends and is restarted, that is so just when it was the child started last |
| RestartRefs.WatchingIsNumbered | src/otpylib/runtime/backends/asyncio_backend/backend.py:444-464 | children monitored in turn get references numbered from 0 |
| RestartRefs.SecondIsTakenForFirst | src/otpylib/supervisor/core.py:320-328 | of two children the first ends and is restarted; from then on the DOWN of the second finds the first |
| RestartRefs.SecondIsTaken | src/otpylib/supervisor/core.py:320-328 | such an end and such a restart exist, with references as they are written |
| RestartRefs.WrittenIsInjective | src/otpylib/runtime/backends/asyncio_backend/backend.py:455 | different references are written differently |
| RestartRounds.RoundFindsOwnIff | src/otpylib/supervisor/core.py:368-403 | after a round of any strategy that restarted all its victims, every DOWN finds its own child just when none of the references but the last that the backend makes in turn was in use, and the last is no other child's |
| RestartRounds.DynamicRoundFindsOwnIff | src/otpylib/dynamic_supervisor/core.py:462-499 | the same for the dynamic supervisor |
| RestartRounds.StopsAt | src/otpylib/runtime/backends/asyncio_backend/backend.py:454-459 | references made in turn count on until one is in use, and then the next is the same one again |
| Supervision.EndIsHeardIff | src/otpylib/supervisor/core.py:319-333 | a child that ends is restarted, or its restart is refused or fails, just when its id is not empty, the strategy is a known one, the reason is neither KILLED nor SHUTDOWN, and the end is normal, or the child is shielded, or all its neighbours trap exits |
| Supervision.EndIsHeardTooIff | src/otpylib/dynamic_supervisor/core.py:288-460 | the same for the dynamic supervisor: the child must be one that stays, and an unknown strategy only notices an exceeded limit |
| Supervision.EndIsToldIff | src/otpylib/runtime/backends/asyncio_backend/backend.py:1076-1087 | which of the two DOWN tuples the supervisor of a process gets when it ends |
| Supervision.ExitIsNotHeard | src/otpylib/runtime/backends/asyncio_backend/backend.py:203-239 | no supervisor acts on what `exit` sends, about whichever child |
| Supervision.VisitedIsLost | src/otpylib/runtime/backends/asyncio_backend/backend.py:236-250 | a child that a notification has visited is never restarted later either, over any run that does not monitor it anew |
| Supervision.ExitedChildIsUnheard | src/otpylib/runtime/backends/asyncio_backend/backend.py:203-239 | a reached family in which a child is told to exit with an error, and its supervisor gets only the tuple it ignores |
| Supervision.CrashedChildIsUnheard | src/otpylib/runtime/backends/asyncio_backend/backend.py:1034-1081 | the same family: the child crashes by itself, linked to a process that does not trap exits |
| Supervision.FamilyIsReached | src/otpylib/runtime/backends/asyncio_backend/backend.py:283-464 | spawns, links and a monitor lead from nothing to that family |
| DynamicSupervisor.RunIsBounded | src/otpylib/dynamic_supervisor/core.py:451-460 | over every run of downs, additions, invalid ones too, and terminations, no child has more than max_restarts admitted failures in any interval of max_seconds, and every child is in its list |
| DynamicSupervisor.RunStaysListedIff | src/otpylib/dynamic_supervisor/core.py:506-528 | the lists and the table agree in every state of a run just when no addition of it is an invalid spec under the id of a static child or of one that awaits its end |
| DynamicSupervisor.AddKeepsListedIff | src/otpylib/dynamic_supervisor/core.py:506-528 | the same for one addition |
| DynamicSupervisor.RefusedAddIff | src/otpylib/dynamic_supervisor/core.py:506-528 | a refused addition changes nothing just when it is not an invalid spec under the id of a child, which is taken out |
| DynamicSupervisor.LostStaysLost | src/otpylib/dynamic_supervisor/core.py:523-528 | a static child that an invalid spec has taken out never comes back, in any run |
| DynamicSupervisor.InvalidSpecOrphans | src/otpylib/dynamic_supervisor/core.py:506-528 | from one static child an invalid spec under its id leads to a state in which its DOWN finds nobody |
| DynamicSupervisor.RoundRestartsInOrder | src/otpylib/dynamic_supervisor/core.py:462-503 | an admitted failure restarts exactly the victims, once each and in order, up to the first start that fails, and touches no other child; only rest-for-one after a ValueError starts the failed child once more |
| DynamicSupervisor.RestartedTwiceIff | src/otpylib/dynamic_supervisor/core.py:481-503 | one failure restarts the failed child twice just under rest-for-one, when the first start to fail raises a ValueError |
| DynamicSupervisor.OneCrashTwoRestarts | src/otpylib/dynamic_supervisor/core.py:481-503 | one crash of one child from the start, and it has been restarted twice |
| DynamicSupervisor.VictimsListed | src/otpylib/dynamic_supervisor/core.py:462-499 | the victims are just the one child, all the static and then the dynamic children, or the suffix of these from the child on; none for an unknown strategy |
| DynamicSupervisor.ExitKeepsBooks | src/otpylib/dynamic_supervisor/core.py:451-460 | a failure is refused just when it is one too many in the failed child's own window; no other child's window changes |
| DynamicSupervisor.KillsReach | src/otpylib/dynamic_supervisor/core.py:467-492 | killed are exactly the children gone through, but for the failed one, that are found alive |
| DynamicSupervisor.KillsInOrder | src/otpylib/dynamic_supervisor/core.py:467-471 | they are killed in the order of the list |
| DynamicSupervisor.KillsOne | src/otpylib/dynamic_supervisor/core.py:467-471 | one child is killed just when it is not spared, has a pid and is found alive |
| DynamicSupervisor.RoundKills | src/otpylib/dynamic_supervisor/core.py:462-499 | whom a round kills: all the other living children under one-for-all, the living ones after the failed child under rest-for-one, and else nobody |
| DynamicSupervisor.RoundLeaves | src/otpylib/dynamic_supervisor/core.py:462-480 | what one-for-one and one-for-all leave of each child: pid and reference of its start, or the old ones if that failed, and one restart more; the others as they were |
| DynamicSupervisor.GoneIs | src/otpylib/dynamic_supervisor/core.py:421-449 | a child that is not to stay: a dynamic one leaves the table and its list, a static one has neither pid nor reference; nothing else changes |
| DynamicSupervisor.AddedIsLast | src/otpylib/dynamic_supervisor/core.py:506-528 | an added child comes last, alive, with no restarts; a taken id or a failed start adds nobody |
| DynamicSupervisor.TerminationIsAnswered | src/otpylib/dynamic_supervisor/core.py:288-407 | whoever asked to terminate a living dynamic child is answered by the DOWN of its end, once, whatever its reason |
| DynamicSupervisor.DownPassedOver | src/otpylib/dynamic_supervisor/core.py:288-393 | tuples of four fields and nameless or unknown children change nothing and answer nobody |
| DynamicSupervisor.FindIsFirst | src/otpylib/dynamic_supervisor/core.py:288-393 | of several children under one reference the first is found, static ones first |
| DynamicSupervisor.DownRestartsIff | src/otpylib/dynamic_supervisor/core.py:288-460 | a DOWN restarts somebody, or is refused or fails in trying, just when it is the tuple of five fields and finds a child with a nonempty id that is to stay (not for the three shutdown reasons, nor when temporary, nor when transient and normal), and the strategy is a known one or the limit is exceeded |
| DynamicSupervisor.NamelessIsNotRestarted | src/otpylib/dynamic_supervisor/core.py:390-393 | a permanent child whose id is the empty string crashes and nothing happens |
| DynamicSupervisor.StaleDownFinds | src/otpylib/dynamic_supervisor/core.py:288-393 | after any round the DOWN of a child's old monitor is for nobody just when it has four fields or the round gave the child a new one, by a start before the first that fails or by the second start of the failed child; otherwise it is for that child |
| DynamicSupervisor.DynamicSupervisorLoop.HandleDown | src/otpylib/dynamic_supervisor/core.py:288-407 | a DOWN of five fields finds the first child of its reference, answers a caller that waits for its termination, and is handled; one of four is ignored |
| DynamicSupervisor.DynamicSupervisorLoop.HandleChildExit | src/otpylib/dynamic_supervisor/core.py:410-503 | forgotten or marked down, refused at the limit, or one round of the strategy |
| DynamicSupervisor.DynamicSupervisorLoop.ApplyStrategy | src/otpylib/dynamic_supervisor/core.py:462-503 | the round whose effect is proved |
| DynamicSupervisor.DynamicSupervisorLoop.RestartChildren | src/otpylib/dynamic_supervisor/core.py:474-479 | the loop over the victims, up to the first start that fails; ids not in the table are passed over |
| DynamicSupervisor.DynamicSupervisorLoop.RestartChild | src/otpylib/dynamic_supervisor/core.py:477-479 | counted first, then started |
| DynamicSupervisor.DynamicSupervisorLoop.KillChildren | src/otpylib/dynamic_supervisor/core.py:468-471 | the loop that kills the others |
| DynamicSupervisor.DynamicSupervisorLoop.Forget | src/otpylib/dynamic_supervisor/core.py:421-449 | a dynamic child is removed, a static one marked down |
| DynamicSupervisor.DynamicSupervisorLoop.AddChild | src/otpylib/dynamic_supervisor/core.py:506-528 | added at the end and started; a known id or a failed start leaves everything as it was; an invalid spec takes out whoever has its id, and one without an id is not answered |
| DynamicSupervisor.DynamicSupervisorLoop.TerminateChild | src/otpylib/dynamic_supervisor/core.py:531-547 | only a living dynamic child is told to exit, its caller answered later |
| GenStatem.RunConserves | src/otpylib/gen_statem/core.py:499-589 | over every run, arrived and inserted events are, as multisets, the handled ones, those in the mailbox and the postponed ones; by type and content always, and by caller too if postponed events keep theirs |
| GenStatem.HandledState | src/otpylib/gen_statem/core.py:519-576 | after an event the data is what NextState, KeepState or RepeatState gave, the name what NextState gave; any other result leaves both and ends the loop, and so does a reply to nobody |
| GenStatem.RunKeepsLastData | src/otpylib/gen_statem/core.py:519-548 | over every run the data is that of the last callback that returned some, or the initial one |
| GenStatem.RunKeepsLastName | src/otpylib/gen_statem/core.py:519-548 | and the name is that of the last NextState, or the initial one |
| GenStatem.InitialState | src/otpylib/gen_statem/core.py:488-497 | the initial ones are those of `init`, with nothing in the mailbox or postponed |
| GenStatem.EventsAre | src/otpylib/gen_statem/core.py:613-628 | which event each kind of message becomes: call with its caller, cast, state timeout, inserted, postponed, and info for any other |
| GenStatem.OneActionDoes | src/otpylib/gen_statem/core.py:556-589 | what each kind of action does to a machine that keeps its state, and what it leaves alone |
| GenStatem.TimerLands | src/otpylib/runtime/backends/asyncio_backend/backend.py:994-1006 | a timer that fires is on its way with its content, and lands at the end of the mailbox |
| GenStatem.HandleConservesCallersIff | src/otpylib/gen_statem/core.py:561-589 | one event conserves callers just when it is not postponed under another caller's name |
| GenStatem.PostponedUnderAnotherCaller | src/otpylib/gen_statem/core.py:561-589 | from the start, a call that is postponed as a call from somebody else |
| GenStatem.HandledOrder | src/otpylib/gen_statem/core.py:556-589 | what is left of the mailbox comes first, then the inserted events; then, only on NextState or RepeatState, everything that waits, in the order it was postponed; replies go out in order to the callers named |
| GenStatem.NextEventIsNextIff | src/otpylib/gen_statem/core.py:574-576 | an inserted event is the next one handled, as its comment says, just when nothing else is in the mailbox |
| GenStatem.ChangeReplaysInOrder | src/otpylib/gen_statem/core.py:578-589 | the first change of state after a stretch without one delivers again exactly the events postponed in it, in order |
| GenStatem.QuietRunOnlyWaits | src/otpylib/gen_statem/core.py:578-589 | without a change of state nothing postponed is delivered again |
| GenStatem.RunKeepsOneTimer | src/otpylib/gen_statem/core.py:549-569 | over every run at most one state timeout is live, and it is the one remembered |
| GenStatem.HandledTimers | src/otpylib/gen_statem/core.py:549-569 | after an event: the last timeout set by its actions, else none after a change of state and the old one otherwise |
| GenStatem.LateTimeoutIff | src/otpylib/gen_statem/core.py:549-589 | some run after a change of state, making no new timeout, still handles one just when the change left one: in the mailbox, fired but not yet sent, postponed, at hand and postponed by these actions, or inserted by them |
| GenStatem.CancelledTimersStaySilent | src/otpylib/gen_statem/core.py:549-554 | in every run after a change of state the timer it cancelled never fires or lands: old references that land had fired before |
| GenStatem.PostponedTimeoutOutlivesItsState | src/otpylib/gen_statem/core.py:578-589 | a run from the start in which a postponed timeout of state 0 is delivered in state 1 |
| GenStatem.FlyingTimeoutOutlivesItsState | src/otpylib/runtime/backends/asyncio_backend/backend.py:1003-1006 | a run from the start in which a timer of state 0 has fired, and its message comes in state 1 |
| GenStatem.InitialConserved | src/otpylib/gen_statem/core.py:488-497 | nothing is missing at the start |
| GenStatem.InitialTimers | src/otpylib/gen_statem/core.py:488-497 | at most one timeout at the start |
| GenStatem.GenStatemLoop.constructor | src/otpylib/gen_statem/core.py:488-497 | the start, with only state timeouts taken from the initial actions |
| GenStatem.GenStatemLoop.Send | src/otpylib/gen_statem/core.py:343-349 | a message arrives in the mailbox |
| GenStatem.GenStatemLoop.FireTimer | src/otpylib/runtime/backends/asyncio_backend/backend.py:994-1006 | a live timer leaves the wheel, and a task of its own is made to send its message |
| GenStatem.GenStatemLoop.LandTimer | src/otpylib/gen_statem/core.py:661-669 | that task puts the message into the mailbox |
| GenStatem.GenStatemLoop.EnterState | src/otpylib/gen_statem/core.py:519-554 | the data is what the callback returned, the name too if it named a state, and a change of state cancels the timeout |
| GenStatem.GenStatemLoop.ScheduleTimeout | src/otpylib/gen_statem/core.py:565-569 | the old timeout is cancelled before the new one is set |
| GenStatem.GenStatemLoop.CancelTimeout | src/otpylib/gen_statem/core.py:550-554 | the remembered timer is cancelled and forgotten |
| GenStatem.GenStatemLoop.DoActions | src/otpylib/gen_statem/core.py:556-576 | the loop over the actions, up to a reply without a caller |
| GenStatem.GenStatemLoop.Replay | src/otpylib/gen_statem/core.py:583-587 | every postponed event is sent again in order |
| GenStatem.GenStatemLoop.FinishEvent | src/otpylib/gen_statem/core.py:578-589 | the event is done with or postponed, and a change of state replays |
| GenStatem.GenStatemLoop.HandleNext | src/otpylib/gen_statem/core.py:499-589 | one turn of the loop is the step of the run theorems; `GenStatem.HandledState` says what it makes of name, data and loop |
| AtomTable.RunKeeps | src/otpylib/atom/table.py:20-82 | the invariant holds in every interleaving of any number of calls, one read or write at a time |
| AtomTable.EmptyIsSound | src/otpylib/atom/table.py:12-18 | the invariant holds at the start |
| AtomTable.EqualIffSameName | src/otpylib/atom/data.py:60-63 | atoms returned to any calls, at any two moments, are equal just when their names are |
| AtomTable.IdsWhenFree | src/otpylib/atom/table.py:34-38 | whenever the lock is free the ids are exactly 0 to counter - 1, one for each name |
| AtomTable.VisibleIsFiled | src/otpylib/atom/table.py:36-37 | at every moment a visible name is already in the id table, under its own id |
| AtomTable.RunAtomsStay | src/otpylib/atom/table.py:22-24 | an atom once visible is never replaced |
| AtomTable.DoneAnswersAll | src/otpylib/atom/table.py:56-82 | a finished call has answered every name it was asked for, as often as asked |
| AtomTable.EnsureReturnsItsName | src/otpylib/atom/table.py:20-40 | `ensure` returns one atom, of the name it was given |
| AtomTable.FoundInOrder | src/otpylib/atom/table.py:58-66 | found names and missing ones keep the order asked |
| AtomTable.FoundOne | src/otpylib/atom/table.py:58-66 | one name is found, as the atom it has, or left to be made |
| AtomTable.AnswersOnlyGrow | src/otpylib/atom/table.py:56-82 | under every interleaving a call's answers stay in the order given, and names are taken from the front |
| AtomTable.EnsuredAllKeeps | src/otpylib/atom/table.py:67-80 | making many names makes just those visible and replaces nothing |
| AtomTable.Table.Ensure | src/otpylib/atom/table.py:20-40 | the atom of the name, made under the next id if it was missing |
| AtomTable.Table.EnsureMany | src/otpylib/atom/table.py:56-82 | existing atoms first, then those made, each group in the order asked |
| AtomTable.Table.GetByName | src/otpylib/atom/table.py:42-44 | present just when visible, and filed under its id |
| AtomTable.Table.GetById | src/otpylib/atom/table.py:46-50 | present just for ids below the counter, and the atom its name gives |

## Left out

- Backend.AsyncIOBackend.HandleProcessExit: the reason SUPERVISOR_SHUTDOWN is excluded, because `Process.run` never
  returns it; with it, `exit` on the neighbours would not cascade.
- Lifecycle.RunSendsOneDown: counts by watcher, reference and subject; references are built from the number of monitors
  and repeat after a removal, so nothing is claimed about one reference alone.
- Supervisor.StaleDownsFindNobody: takes fresh monitor references as a hypothesis; `RestartRefs.RestartFindsOwnIff` says
  when the backend's are, for one restart.
- DynamicSupervisor.StaleDownFinds: likewise, with distinct references, and while the lists and the table agree.
- RestartRefs.FirstRestartFindsOwnIff: one-for-one, and an end that brings nobody else down; later restarts and other
  strategies are covered by `RestartRounds.RoundFindsOwnIff`, which takes the supervisor's monitors as they are.
- Pids.DecodeAtom: names that run past the end are accepted as the code accepts them; its callers' bounds checks then
  refuse, which is what `Pids.DecodePid` states.
- Spam.RunKeeps: pids are not reused, and stealing and migration are off; a stolen process is both queued and started,
  so slices are not exclusive then.
- SpamScheduler.WorkStealingScheduler.SpawnProcess: the branch that unregisters after a refused add is not there,
  because under the partition invariant the add cannot be refused.
- The atom table's `clear`, after which ids are given out again, and its copies and counts.
- Processes, timers, children and atoms are records in tables rather than objects; aliasing through references kept
  elsewhere is not modelled. The scheduler's cores are entries of two sequences.
- Arguments of calls are pids; resolving names first, and the name `system` as a sender, are one step before them.
- Log messages, statistics other than the wheel's, `last_active` and other timestamps, process info and metrics.
- `demonitor(flush=True)`, which looks for a field that does not exist.
- Cleanup scheduled with `call_soon` is an event that may come at any later time.
- Remote exits, remote monitors and what is sent to peers, apart from the link tables.
- Map keys and control numbers are compared as terms; Python's `1 == 1.0 == True` is not modelled.
- FLOAT_EXT, the old textual float, is a decoding error here; NEW_FLOAT_EXT is its eight bytes.
- Python's recursion limit, and memory.
- Sockets, the EPMD client, the handshake and its MD5 digest, the check for being connected. A connection's input is
  everything the peer will ever send, so waiting is not modelled.
- A packet's atom cache references are skipped without being read, as in the code.
- The wheel's background task, `sleep` and `clear`.
- SPAM loads are in integer tenths, so the rounding of 0.6 and 0.4 is not modelled. Message handlers are steps with an
  arbitrary outcome; state backup, hot reload, limits and statistics are left out, and so is cancellation at shutdown.
- Which victims a steal tries is arbitrary; the random order and the limit on attempts are covered by that.
- Static children that share an id, in either supervisor: the table would hold one of them, and the start order both.
- Supervisor handshakes, child names, restart types in the static supervisor (the code does not consult them), the
  queries of the dynamic one and its termination callback.
- The answers to queries during a round (is it alive, how did the start go) are given as lists, one answer per question.
- GenStatem.GenStatemLoop.DoActions: replies leave the machine; a reply addressed to the machine itself would come back
  into its own mailbox.
- gen_statem: the initial handshake, `call` and `cast` on the caller's side, callback dispatch by state name, and
  timeout lengths; the timing wheel is proved separately.
- gen_server, whose `call` drops unrelated messages, applications, module reflection, and the other backends.
