# DDT3 in Dafny

DDT3 is a remote debugger for Lua. A wxWidgets client talks over TCP to a daemon that runs the
Lua VM under hooks; a second, UDP channel carries the daemon's logs. This project models the
parts of both programs that have to agree with each other, and proves what they promise.
`dafny verify --verification-time-limit 0 dfyconfig.toml` checks everything.

| file | what it models |
|---|---|
| `Session.dfy` | client and daemon as two state machines joined by two FIFO channels; every choice of user, network and Lua is a parameter of an `Action`, so a step is a function |
| `SessionProofs.dfy` | the lockstep invariant and its preservation by every action |
| `SessionTheorems.dfy` | what follows in every reachable state, and two runs that show where the code relies on its callers |
| `TopFrame.dfy` | the client's event handlers in their own imperative form, each proved to take the step of `Session.dfy`, and a frame object driven through whole runs |
| `DaemonLoops.dfy` | the daemon's setup loop and listen loop in theirs, proved likewise |
| `Framing.dfy` | headers, the write loop, the daemon's and the client's read loops |
| `Link.dfy` | lockstep and framing together |
| `UdpLog.dfy` | log queue, timer, datagrams, splitter |
| `Stepping.dfy` | the step-over and step-out counters against a machine with a real call stack |
| `VarCollect.dfy`, `VarForest.dfy`, `VarView.dfy` | flattening a cyclic heap of tables, and the client's sort of the flat list |
| `Require.dfy` | project modules loaded through `require`, recursively |
| `Wrappers.dfy` | an optional value |
| `Decimal.dfy`, `Breakpoints.dfy`, `BreakpointHook.dfy` | breakpoints from the client's set to the line hook |
| `PaneBooks.dfy` | panes in three notebooks, indexed twice |
| `HexDump.dfy` | layout of the memory view |

Code that changes state in the program changes state here: classes with the program's fields,
methods with its loops. Each method is proved against a specification function (`Visit`, `Walk`,
`ReadSpec`, `ClientBody`, `StepOverHook`, `Live`, `Dispatch`, `ListenAll`, ...) or states its
result outright; the theorems are about those functions and about runs.

The steps that the two sides take in `Session.dfy` follow `Client/src/TopFrame.cpp`,
`Client/src/Client.cpp`, `Client/src/Controller.cpp`, `Client/src/TopNotebook.cpp`,
`Daemon/src/main.cpp`, `Daemon/src/Daemon.cpp` and `Daemon/src/LuaGlue.cpp`. The main thread takes
a user or timer event only when the events it posted to itself are drained; a modal box keeps the
user from everything else but lets timer and posted events pass. History fields
(`epoch`, `era`, `sinceAbort`, `overlap`, `assertFailed`) record what the theorems speak of.

## What came out

* The protocol keeps lockstep if step commands are given only when Lua is paused. The toolbar
  also offers them at CONNECTED, and there lockstep is lost in every case
  (`StepKeepsLockstepIff`), down to a state in which both sides wait for ever
  (`StepAtConnectedDeadlocks`).
* The box that asks whether to stop the session stays open while the session may end. Answering yes
  is safe if and only if the client's level is still that of a session (`AnswerStopIff`);
  `SessionEndsWhileAsked` is a run in which it is not.
* The client's synchronous reader limits each chunk to the size of the whole body. That is right
  if and only if nothing follows the body in the stream or the body has at most one byte
  (`ClampSafeIff`); lockstep guarantees the former (`SyncReadTakesExactlyTheReply`).
* The step-out counter stops at the right return if and only if no tail call happened before
  (`StepOutRightIff`), because it counts tail calls as returns.
* A step over stops at the end of a frame if and only if that frame was on top at the resume
  (`StepOverRightIff`); resumed inside `breakpoint()`, a C function, it stops one frame early.
* Saving breakpoints and loading them again reproduces the set if and only if no line number in it
  has leading zeros (`SaveAndLoad`).
* The hover cache is coherent within one connection and project. After a reconnect it can show a
  value of an earlier suspension if and only if it holds anything and no resume happened since it
  was last flushed (`ConnectStaleIff`); after a project reset, if and only if it holds anything
  (`ResetStaleIff`), because the tick comes by its old value again.
* The hex dump pads the last line by the size of the whole buffer modulo a line. When the buffer
  ends with a full line, a whole line of blanks is added, and the line fits the window if and only
  if there is room for it (`LineFitsIff`).
* A project module whose chunk returns `false` is looked for again at its next `require`, outside
  the project. Its name reaches the client a second time if and only if a file of that very name
  is found there (`RequireTwice`); every other project file is announced exactly
  once.
* A saved pane layout without any page cannot be loaded again: the loader stops at an assertion
  (`SaveThenLoad`).

## Model

| member | source | states |
|---|---|---|
| SessionProofs.StepKeeps | Client/src/TopFrame.cpp:1050-1268 | every step of client or daemon, whoever chose it, keeps the whole invariant: lockstep, posted events, hover cache, eras and daemon state |
| SessionProofs.ListenReadKeeps | Daemon/src/LuaGlue.cpp:446-517 | a turn of the listen loop keeps the invariant for every message that can be there, including resumes that unwind by longjmp |
| SessionProofs.SetupReadKeeps | Daemon/src/Daemon.cpp:124-263 | a turn of the setup loop keeps the invariant, whether the startup is accepted or refused |
| SessionProofs.EnterKeeps | Daemon/src/LuaGlue.cpp:735-857 | entering the debugger, for a hook, an error or a failed load, keeps the invariant; after an abort it does nothing |
| SessionProofs.TimerKeeps | Client/src/TopFrame.cpp:1188-1268 | the async-read timer keeps it, for any message or a lost connection |
| SessionProofs.SynthKeeps | Client/src/TopFrame.cpp:802-823 | waking up after a suspension keeps it, whichever panes ask for a reload |
| SessionTheorems.RunKeeps | Client/src/TopFrame.cpp:1050-1268 | every run of enabled, disciplined steps keeps the invariant |
| SessionTheorems.LockstepAlways | Client/src/TopFrame.cpp:1152-1268 | in every reachable state an active connected client has no async read outstanding and nothing in flight but its own synchronous request, with the daemon in or returning to a read loop; an async read is outstanding exactly in WAIT_REPLY, never two |
| SessionTheorems.OneAnswerInLine | Client/src/TopFrame.cpp:1188-1262 | while the client waits, only the last message in its channel changes its level, and nothing is sent against it |
| SessionTheorems.NoSurprise | Daemon/src/LuaGlue.cpp:430-442 | no reachable state has an UNEXPECTED message on the line, a failed session assertion, or a posted stop event outside a session |
| SessionTheorems.NoMutualBlocking | Daemon/src/LuaGlue.cpp:861-880 | client and daemon never both wait on empty channels |
| SessionTheorems.NextStepAdvances | Client/src/TopFrame.cpp:1188-1262 | while the client waits, some machine step brings an answer strictly nearer |
| SessionTheorems.Settles | Client/src/TopFrame.cpp:1188-1262 | builds a run of machine steps alone that ends the wait |
| SessionTheorems.NeverTrapped | Client/src/TopFrame.cpp:1152-1262 | from every reachable waiting state such a run exists |
| SessionTheorems.ReplyAnswersItsRequest | Client/src/Client.cpp:369-398 | a blocked RequestReply finds nothing, or exactly the reply to its own request computed in the current suspension; if nothing yet, the daemon's next read produces it |
| SessionTheorems.HoverShowsCurrentValue | Client/src/TopNotebook.cpp:1014-1062 | a cached value solved on this connection and project was solved in the suspension being looked at |
| SessionTheorems.LatchStep | Daemon/src/LuaGlue.cpp:358-395 | no step but a session reset clears an abort or starts a suspension after it |
| SessionTheorems.LatchHolds | Daemon/src/LuaGlue.cpp:741-745 | the same over any stretch of a run within the session |
| SessionTheorems.AbortIsFinal | Daemon/src/main.cpp:253-302 | after END_SESSION or ABORT at a suspension that is no load error: no further suspension, no failed entry lock, and at most one message, NOTIFY_SESSION_ENDED, sent by the time the session ends |
| SessionTheorems.ResumeAbortsIff | Daemon/src/LuaGlue.cpp:463-476 | a resume command at a suspension that is no load error sets the abort flag, and keeps the entry lock, if and only if it is ABORT or END_SESSION; Lua goes on in either case |
| SessionTheorems.LoadErrorIsFinal | Daemon/src/LuaGlue.cpp:466-471 | at a load error any resume command is the end: over every run of the daemon until its session loop comes round no Lua executes, nothing suspends, and at most NOTIFY_SESSION_ENDED is sent |
| SessionTheorems.StartButton | Client/src/TopFrame.cpp:1011-1036 | the start button at CONNECTED: two reads later the daemon loads the startup source, or has refused an incomplete request |
| SessionTheorems.StopButton | Client/src/TopFrame.cpp:1050-1088 | the stop button at a pause: two reads later the session is latched and the client waits |
| SessionTheorems.RunButton | Client/src/TopFrame.cpp:1038-1041 | the run button at a pause: after its posted event and two reads Lua runs without a latch, on a new tick |
| SessionTheorems.PaneIsReloaded | Client/src/TopFrame.cpp:802-823 | the wake-up after a suspension makes a visible pane ask, and the reply queued is for its request, from this suspension |
| SessionTheorems.ReloadIsAnswered | Client/src/VarViewCtrl.cpp:488-516 | a pane reloaded at a pause gets the reply to its own request, from this suspension |
| SessionTheorems.HoverIsAnswered | Client/src/TopNotebook.cpp:1014-1062 | hovering at a pause over a variable not asked for since the last resume shows, four steps later, its value of this suspension |
| SessionTheorems.LevelsOfMessages | Client/src/TopFrame.cpp:1298-1532 | a suspension with an error shows as fatal, one without as a pause; platform, failed sync and session end lead to CONNECTED; all other messages leave the level alone |
| SessionTheorems.StepKeepsLockstepIff | Client/src/Toolbar.cpp:1046-1048 | a step command keeps the invariant if and only if the client is not at CONNECTED |
| SessionTheorems.AnswerStopIff | Client/src/Controller.cpp:287-303 | answering yes to the stop box keeps the invariant and lets the assertion of the stop handler hold if and only if the client is still at a level of a session |
| SessionTheorems.SessionEndsWhileAsked | Client/src/TopFrame.cpp:1286-1290 | a reachable state in which the box is open and the session is over, so that answering yes fails that assertion |
| SessionTheorems.StepAtConnectedDeadlocks | Client/src/Toolbar.cpp:1018 | from every invariant state at CONNECTED, the daemon in or on its way to setup, a step leads to a state with both sides waiting that no machine step changes |
| SessionTheorems.StaleLaterIff | Client/src/TopNotebook.cpp:1014-1035 | when everything in the hover cache is old, some later run without a project reset shows an old value of a past suspension if and only if the cache is not empty and the tick has not passed that of the last flush |
| SessionTheorems.ConnectStaleIff | Client/src/TopFrame.cpp:889-924 | connecting leaves behind a value that can be shown stale if and only if the cache is not empty and no resume happened since its last flush |
| SessionTheorems.ResetStaleIff | Client/src/Controller.cpp:563-570 | resetting the project does so if and only if the cache is not empty |
| SessionTheorems.StaleAfterReconnect | Client/src/Controller.cpp:175-183 | a reachable state after a reconnect in which a hover shows a value of an earlier suspension |
| TopFrame.TopFrame.CheckConnection | Client/src/TopFrame.cpp:847-873 | drops the level exactly when the socket is found closed |
| TopFrame.TopFrame.ResumeExecution | Client/src/TopFrame.cpp:1050-1088 | sends breakpoints then the command, steps the tick and waits, or does nothing on each early exit: cut link, inactive client, disabled start/run tool for a command that does not terminate |
| TopFrame.TopFrame.OnToolStartRun | Client/src/TopFrame.cpp:999-1046 | nothing with unsaved sources or an incomplete startup; else start at CONNECTED, posted resume when resumable, nothing otherwise |
| TopFrame.TopFrame.OnToolConnection | Client/src/TopFrame.cpp:877-934 | disconnects, or connects if the project has scripts, the remote is configured and the handshake succeeds; otherwise nothing changes |
| TopFrame.TopFrame.DispatchMessage | Client/src/TopFrame.cpp:1298-1532 | every daemon message changes level, posted events and hover cache as specified, and nothing else |
| TopFrame.TopFrame.ProcessCustomQueue | Client/src/TopFrame.cpp:1137-1148 | false exactly on an empty queue; otherwise the first message is dispatched and removed |
| TopFrame.TopFrame.OnIncomingMessage | Client/src/TopFrame.cpp:1114-1133 | one message per event, reposting while the queue is not empty |
| TopFrame.TopFrame.OnAsyncReadTimer | Client/src/TopFrame.cpp:1188-1268 | nothing without a pending read or with the socket closed; otherwise re-arms the read unless the message made the client active, and disconnects on failure |
| TopFrame.TopFrame.RequestReply | Client/src/Client.cpp:369-381 | sends and blocks exactly when connected |
| TopFrame.TopFrame.FinishRequestReply | Client/src/Client.cpp:383-398 | the message read is queued and an event posted |
| TopFrame.TopFrame.SolveVar | Client/src/TopNotebook.cpp:1014-1050 | flushes the cache on a new tick, answers hits from it, requests a miss at most once |
| TopFrame.TopFrame.OnPostedEvent | Client/src/TopFrame.cpp:802-823 | each self-posted event takes the specified step |
| TopFrame.Step | Client/src/TopFrame.cpp:1050-1268 | whatever user, timer, network or daemon does next, the frame object takes exactly that step of the session and keeps the invariant |
| TopFrame.Drive | Client/src/TopFrame.cpp:1050-1268 | over any run the object ends in the state the run leads to: never two reads outstanding, one exactly in WAIT_REPLY, nothing unread while active but the reply to its own request |
| DaemonLoops.Daemon.SessionSetupLoop | Daemon/src/Daemon.cpp:111-268 | the loop takes setup steps until a startup is accepted, nothing is left to read, or a read fails, which ends the process |
| DaemonLoops.Daemon.DispatchMessage | Daemon/src/LuaGlue.cpp:446-517 | each message has the effect of a listen step; a terminating resume unwinds unless a load error is pending |
| DaemonLoops.Daemon.ListenLoop | Daemon/src/LuaGlue.cpp:861-880 | the loop takes listen steps until a resume is obeyed, nothing is left to read, or a read fails, which aborts |
| DaemonLoops.Daemon.ResumeDaemon | Daemon/src/LuaGlue.cpp:1138-1230 | after a startup load error step over and out stop at an assertion, any other command ends the session; after a failed require the process stops |
| DaemonLoops.Daemon.OnDebuggerEntry | Daemon/src/LuaGlue.cpp:735-888 | nothing after an abort; otherwise stack, loaded scripts if any, suspended, in that order, then the listen loop |
| DaemonLoops.SuspensionAnnounces | Daemon/src/LuaGlue.cpp:817-857 | a suspension sends the stack, the loaded scripts exactly if there are any, and itself, in that order, and then listens with nothing left to announce |
| DaemonLoops.Daemon.DoInternalAbort | Daemon/src/LuaGlue.cpp:368-395 | after a failed read control leaves by longjmp with the lock held, or returns into the loader after a load error |
| DaemonLoops.CutOffIsFinal | Daemon/src/LuaGlue.cpp:866-871 | after a lost link, over every run of the daemon until its session loop comes round: nothing suspends again, no entry assertion fails, and at most the end of the session is announced |
| DaemonLoops.SetupAllRuns | Daemon/src/Daemon.cpp:124-263 | the setup loop makes only steps that a run of the session can make |
| DaemonLoops.ListenAllRuns | Daemon/src/LuaGlue.cpp:861-880 | likewise the listen loop, so all session theorems apply to the methods |
| Framing.DecodeEncode | Client/inc/common/ddt/sharedDefs.h:62-97 | a size below 2^32 is read back from its header bytes |
| Framing.SizeOnTheWire | Client/inc/common/ddt/sharedDefs.h:62-66 | the four bytes are those of the size divided by 2^24, 2^16, 2^8 and 1, in this order |
| Framing.EncodeDecode | Client/inc/common/ddt/sharedDefs.h:62-97 | four header bytes are those of the size they announce, so the code is one-to-one |
| Framing.EncodeWraps | Client/inc/common/ddt/sharedDefs.h:62-66 | sizes 2^32 apart are announced alike |
| Framing.HeaderReadsBack | Client/inc/common/ddt/sharedDefs.h:79-97 | a header is accepted by its own tag check and yields its size |
| Framing.WriteMessage | Client/src/ClientTCP.cpp:732-784 | however the socket splits the writes, exactly one frame enters the stream |
| Framing.ServerReadMessage | Daemon/src/ServerTCP.cpp:313-404 | for every answer of available(): header plus body are consumed and nothing more, or the error the stream calls for |
| Framing.ReadOneFrame | Daemon/src/ServerTCP.cpp:313-404 | reading a frame gives its body and leaves what follows |
| Framing.ReceivedWasFramed | Daemon/src/ServerTCP.cpp:313-404 | a body is received only if the stream began with its frame: right tag, right size, all bytes |
| Framing.MessagesReadBack | Daemon/src/ServerTCP.cpp:313-404 | any sequence of written messages is read back as that sequence, with the rest of the stream untouched |
| Framing.FramesAreUnique | Daemon/src/ServerTCP.cpp:408-470 | no two message sequences look alike on the wire |
| Framing.ClientReadBody | Client/src/ClientTCP.cpp:679-716 | the loop with its clamp to the whole body size, byte for byte, including overrun |
| Framing.ExactBodyIsSafe | Client/src/ClientTCP.cpp:681-716 | with only the body in flight no timing overruns, and the loop completes once all is offered |
| Framing.ClampSafeIff | Client/src/ClientTCP.cpp:685-686 | the clamp never overruns, under any timing, if and only if nothing follows the body or it has at most one byte |
| Link.SyncReadTakesExactlyTheReply | Client/src/ClientTCP.cpp:647-728 | in every reachable state with bytes on the wire for a blocked client, they are the frame of its reply, and the clamped loop takes exactly that body |
| UdpLog.SplitInvertsJoin | Client/src/ClientTCP.cpp:283-295 | splitting the concatenated entries gives the logs back |
| UdpLog.JoinInvertsSplit | Daemon/src/ServerTCP.cpp:490-499 | what the splitter accepts is an encoding of what it returns |
| UdpLog.ServerUDP.QueueLog | Daemon/src/ServerTCP.cpp:480-542 | the log stays behind exactly one pending timer, or all logs including it leave in one body that exceeds a limit by no more than this entry |
| UdpLog.ServerUDP.TimerFires | Daemon/src/ServerTCP.cpp:530-540 | everything buffered leaves within the size limit and no timer stays pending |
| UdpLog.ServerUDP.DoBroadcastNetLogs | Daemon/src/ServerTCP.cpp:548-593 | sends nothing for an empty buffer, otherwise header and body of all logs, and empties it |
| UdpLog.UdpClient.ReceiveBulkMessage | Client/src/ClientTCP.cpp:251-302 | accepted exactly with a right tag, a non-empty body of the announced size and whole entries, and then all logs are appended in order; refused, stopped by the size assertion, or read past its end otherwise |
| UdpLog.CarriedIsAccepted | Client/src/ClientTCP.cpp:251-302 | what the daemon sends the client accepts and splits into the logs it was made from |
| UdpLog.AcceptedWasMade | Client/src/ClientTCP.cpp:251-302 | nothing else is accepted: an accepted message is the one that carries the logs it is split into |
| UdpLog.Run | Daemon/src/ServerTCP.cpp:480-593 | over any interleaving of producers, timer, delivery and service, every log is exactly where the events have brought it: serviced, held, in flight batch by batch, or buffered; taken in this order they are the logs queued, and what is buffered is within the limits with a timer pending |
| UdpLog.LogsKept | Daemon/src/ServerTCP.cpp:480-593 | no sequence of events loses, doubles or reorders a log |
| UdpLog.StaysBounded | Daemon/src/ServerTCP.cpp:505-541 | between critical sections the buffer is within both limits and, if not empty, has a timer pending |
| UdpLog.Drains | Client/src/ClientTCP.cpp:236-302 | once the timer has fired, all in flight is delivered and the client serviced, exactly the logs queued have arrived and nothing is left on the way |
| Stepping.OverCounts | Daemon/src/LuaGlue.cpp:1005-1035 | over any trace the step-over counter is the stack height relative to the stepped frame, and stays non-negative exactly as long as that frame, or its tail-called successor, lives |
| Stepping.StepOverFiresAtReturn | Daemon/src/LuaGlue.cpp:1021-1040 | the hook asks for one more instruction at precisely the event that ends the stepped frame |
| Stepping.StepOverRightIff | Daemon/src/LuaGlue.cpp:1021-1040 | for every frame live at the resume: when the hook asks for one more instruction that frame is being ended if and only if it was on top, and it lived until then |
| Stepping.InlineBreakpointStopsEarly | Daemon/src/LuaGlue.cpp:190-204 | resumed inside breakpoint(), whatever happens, the step over stops while the Lua caller lives on |
| Stepping.OutCounts | Daemon/src/LuaGlue.cpp:928-936 | the step-out counter is the step-over counter less the tail calls |
| Stepping.StepOutRightIff | Daemon/src/LuaGlue.cpp:918-950 | it first goes negative at the stepped frame's return if and only if no tail call came before |
| Stepping.TailCallStopsEarly | Daemon/src/LuaGlue.cpp:928-946 | a single tail call into a Lua file stops a step out at once, with the frame to be left still live |
| Stepping.StepGlue.ResumeStepOver | Daemon/src/LuaGlue.cpp:1175-1210 | on the last valid line a line step is set, otherwise a step over from the current to the last valid line |
| Stepping.StepGlue.OnStepOverEvent | Daemon/src/LuaGlue.cpp:1005-1064 | enters exactly on a line of the source and range resumed in, if the source is a file; the counter follows calls and returns, and a negative one asks for one more instruction |
| Stepping.StepGlue.OnStepOutEvent | Daemon/src/LuaGlue.cpp:918-950 | enters exactly if the counter, lowered by returns and tail calls, is negative and the source is a file (its name begins with @); other events only move the counter |
| Stepping.StepOverRun | Daemon/src/LuaGlue.cpp:1005-1064 | a whole step over stops at the first line of a file source within the target, or at the end of the stepped frame, whichever comes first; no earlier event is such a line or ends that frame |
| Stepping.StepOutRun | Daemon/src/LuaGlue.cpp:918-950 | a whole step out stops at the first call or return with a negative counter whose source is a file, every earlier one having a counter of zero or more or no file; without tail calls and returns into C before, that event ends the stepped frame if and only if it is a return |
| VarCollect.VarCollectors.CollectNextVariable | Daemon/src/VarCollectors.cpp:268-537 | stops exactly on an empty name or a bracket where the code asserts; adds nothing exactly for tables, types and temporaries to be hidden, varargs not counting as temporaries; else adds one entry with path, indent, flags and distance to the current root; recursion only into an expanded table within the limit |
| VarCollect.VarCollectors.DumpLuaTableRecursive | Daemon/src/VarCollectors.cpp:541-592 | terminates on any heap, cyclic or not, and appends exactly the reference walk of the table, unless its path starts with a bracket and it has a visible field |
| VarCollect.KeyTextTells | Daemon/src/VarCollectors.cpp:551-576 | a text key is shown unlike every other text key and unlike any number, boolean or pointer |
| VarCollect.VarCollectors.CollectENVGlobals | Daemon/src/VarCollectors.cpp:796-825 | appends the trees of the string-keyed, not reserved fields in order; stops exactly if one of them cannot be collected |
| VarCollect.VarCollectors.CollectLuaWatches | Daemon/src/VarCollectors.cpp:1103-1119 | each watch yields its tree or an unsolved placeholder; stops exactly if a name is empty or cannot be collected |
| VarForest.VisitForest | Daemon/src/VarCollectors.cpp:472-520 | a root and everything below it is a pre-order forest: parents found by looking back, paths extended by one key, roots at the stored offset, indents within the limit plus one |
| VarForest.GlobalsForest | Daemon/src/VarCollectors.cpp:796-825 | the list of globals, whenever it is collected at all, is such a forest |
| VarForest.WatchesForest | Daemon/src/VarCollectors.cpp:1103-1119 | so is the list of watches |
| VarForest.ForestConcat | Daemon/src/VarCollectors.cpp:514-520 | forests one after the other are a forest, root offsets included |
| VarForest.WalkComplete | Daemon/src/VarCollectors.cpp:541-587 | one level below a walked table stand exactly its visible fields, once each, in order |
| VarForest.GlobalsComplete | Daemon/src/VarCollectors.cpp:484-497 | in the list of globals, of whatever heap, every table asked to be expanded is followed, at every depth within the limit, by exactly its visible fields one level below, once each, in order, up to the end of its subtree; the roots are exactly the visible globals |
| VarForest.WatchesComplete | Daemon/src/VarCollectors.cpp:1103-1119 | the same for the watches, whose roots are the visible values and a placeholder for each watch not found |
| VarForest.GlobalsFlags | Daemon/src/VarCollectors.cpp:484-497 | an entry is flagged expanded if and only if it is a table whose path was asked to be |
| VarForest.AskingAgainChangesNothing | Client/src/VarViewCtrl.cpp:640-676 | asking with the set of tables shown expanded gives the same list as the request that led to it |
| VarView.VarViewCtrl.SetVariables | Client/src/VarViewCtrl.cpp:576-676 | the list shown is the daemon's, or sorted: a tree with a solved entry that is temporary or of an unknown path stands before every tree without one, then those with a solved entry whose value differs from the last one at its path, then those whose solved entries are all known and equal, then the rest, each in the daemon's order; a row is flagged changed if and only if an entry of its path has changed; expanded set and last values are those of the list shown |
| VarView.VarViewCtrl.DetectChanges | Client/src/VarViewCtrl.cpp:587-614 | the new, changed and unchanged roots are exactly those with a solved entry that is temporary or of unknown path, of known path with another value, of known path with the same value; the flagged paths are exactly those of changed entries |
| VarView.VarViewCtrl.BuildLUT | Client/src/VarViewCtrl.cpp:616-640 | the concatenation of the four index lists |
| VarView.SortedAsPromised | Client/src/VarViewCtrl.cpp:587-640 | the sort by the classes found puts trees with something new first, then changed, then unchanged ones, stated on paths, values and flags alone |
| VarView.AutoLUTIsStable | Client/src/VarViewCtrl.cpp:616-640 | it is ordered new, changed, unchanged, rest and keeps the old order within a class |
| VarView.AutoLUTHasEach | Client/src/VarViewCtrl.cpp:616-640 | it is a permutation: every index once |
| VarView.SortKeepsForest | Client/src/VarViewCtrl.cpp:616-651 | sorting tears no subtree apart: the result is a pre-order forest with the same root offsets |
| VarView.SortKeepsExpanded | Client/src/VarViewCtrl.cpp:654-676 | the expanded paths do not depend on the order |
| VarView.LastValsHas | Client/src/VarViewCtrl.cpp:587-606 | of the entries that share a path the last one's value is remembered; shown again unchanged it is not new unless temporary, and not changed |
| VarView.LastValsOnly | Client/src/VarViewCtrl.cpp:656-668 | exactly the paths of the list are remembered |
| Require.ShortFilenameInjective | Client/src/common/CommonClient.cpp:229-237 | short file names tell modules apart, extensions having no dot |
| Require.LuaGlue.PreloadFiles | Daemon/src/LoadOverrider.cpp:371-395 | succeeds exactly on distinct module names, and then registers exactly those files |
| Require.LuaGlue.InstantiateSource | Daemon/src/LoadOverrider.cpp:251-322 | the file was not instantiated before (the code's assertion holds), and tables, set and queue change together; on a syntax error nothing is registered |
| Require.TablesInstantiated | Daemon/src/LoadOverrider.cpp:261-312 | a module still in package.preload has not been instantiated (the assertion holds), and instantiating it keeps the three tables in agreement |
| Require.LuaGlue.OnInterceptLoadLuaFile | Daemon/src/LoadOverrider.cpp:59-133 | queues exactly the Lua files found outside the project |
| Require.LuaGlue.OnRequireLoader | Daemon/src/LoadOverrider.cpp:212-247 | terminates and keeps the tables consistent whatever the chunk requires; a malformed module stops the daemon |
| Require.LuaGlue.RequireModule | Daemon/src/LoadOverrider.cpp:212-247 | require over any cyclic graph terminates, the uninstantiated modules being the measure; a pending project file is instantiated, or stops the daemon if malformed; any other name is loaded from disk, announced there exactly if it is a Lua file not loaded yet, and raises an error exactly if it is neither loaded nor found |
| Require.LuaGlue.RunSession | Daemon/src/main.cpp:237-290 | if nothing reachable aborts, asks for what is not there or is malformed, the session completes without error with exactly the files reachable from the startup source and function instantiated, and announces files, and suspends, exactly in the order in which the project's code, executed from the first statement on and depth first, brings them in; where no project file returns false, it completes without error only then; never is more than the reachable files instantiated |
| Require.RunSplits | Daemon/src/LoadOverrider.cpp:233-237 | in that order a chunk runs from its first statement to its last: any first part has run to its end before the rest begins |
| Require.FileComesFirst | Daemon/src/LoadOverrider.cpp:312-316 | a pending file is announced before anything its own chunk brings in |
| Require.EarlierComesFirst | Daemon/src/LoadOverrider.cpp:312-316 | of two pending files, one required by the first i statements of a chunk and one only by later ones, nor through files the first ones reach, the first is announced before the second |
| Require.RequiredIsDone | Daemon/src/LoadOverrider.cpp:251-322 | a project file that a chunk requires is no longer pending after it |
| Require.SuspensionTells | Daemon/src/LuaGlue.cpp:825-832 | a suspension tells the client of every file announced before it |
| Require.ReachableLeast | Daemon/src/LoadOverrider.cpp:212-247 | reachability is the least closed set of modules around the roots |
| Require.ToldTwiceIff | Daemon/src/LoadOverrider.cpp:312-316 | the client is told of a project file if and only if it was instantiated, and told twice if and only if the searcher later found a file of that very name on disk |
| Require.RequireTwice | Daemon/src/LoadOverrider.cpp:59-133 | a pending project file required twice, reaching nothing that aborts, is missing or malformed, is announced twice if and only if its chunk returns false and the disk has a Lua file of that very name; the second require fails if and only if it returns false and the disk has nothing of that name |
| Require.FalseIsToldTwice | Daemon/src/LoadOverrider.cpp:109-130 | for every name and extension there is such a project: no error, and the file announced twice |
| Decimal.ParsePrint | Client/src/Controller.cpp:341-342 | a printed line number is read back |
| Decimal.PrintDigit | Client/src/Controller.cpp:341-342 | a number below ten is printed as its own digit |
| Decimal.ParseByPosition | Client/src/SourceFileClass.cpp:29-39 | a text of digits is read as the sum of its digits times the powers of ten of their places |
| Decimal.PrintParseIff | Client/src/SourceFileClass.cpp:29-39 | a text is printed again as it was if and only if it has no leading zeros |
| Breakpoints.KeyDecodes | Client/src/SourceFileClass.cpp:29-39 | a key made from a proper file name and line decodes to them |
| Breakpoints.KeyInjective | Daemon/src/LuaGlue.cpp:1298-1306 | a key of a colon-free file equals no key made from another name or line |
| Breakpoints.Controller.GetSortedBreakpointList | Client/src/Controller.cpp:315-345 | the list prints every breakpoint of the set once, moved by the offset; of any two lines the earlier one has the smaller file name, by the first character in which they differ, or the same file and no greater line |
| Breakpoints.SortedInOrder | Client/src/Controller.cpp:337 | a list sorted by the comparator is in that order at any distance, so the comparator is consistent |
| Breakpoints.Controller.SetLoadedBreakpoints | Client/src/Controller.cpp:703-715 | accepts exactly lists of distinct strings with a colon, and then holds just those |
| Breakpoints.SaveAndLoad | Client/src/Controller.cpp:703-715 | saving at offset 0 and loading reproduces the set if and only if no key has leading zeros |
| Breakpoints.PaddedKeyIsLost | Client/src/Controller.cpp:703-715 | a line 0 written with two digits, for any file, does not survive saving and loading |
| Breakpoints.SavedList | Client/src/Controller.cpp:315-345 | the saved list equals the set, without repeats, under the same condition and only then |
| BreakpointHook.SentStringsMatch | Daemon/src/LuaGlue.cpp:1264-1280 | the daemon's expression matches every string sent and splits it where the client's decoder does |
| BreakpointHook.LuaGlue.ResizeLUT | Daemon/src/LuaGlue.cpp:1327-1329 | old bits below both sizes stay, bits above the old size are clear |
| BreakpointHook.LuaGlue.UpdateFastBreakpoints | Daemon/src/LuaGlue.cpp:1310-1340 | afterwards every live line is set and within the table, and the static pointer and length are the table's |
| BreakpointHook.LuaGlue.SetValidBreakpoints | Daemon/src/LuaGlue.cpp:1253-1294 | the live set is exactly the saved breakpoints whose source is instantiated, and the table covers it |
| BreakpointHook.LuaGlue.SaveAllBreakpoints | Daemon/src/LuaGlue.cpp:1235-1249 | the saved list is replaced and everything derived from it is up to date |
| BreakpointHook.LuaGlue.InstantiateSource | Daemon/src/LoadOverrider.cpp:312-314 | a newly instantiated source makes its pending breakpoints live |
| BreakpointHook.LuaGlue.SetBreakpointsHook | Daemon/src/LuaGlue.cpp:1107-1119 | the hook is armed with the current table if anything is live |
| BreakpointHook.LuaGlue.ResumeRun | Daemon/src/LuaGlue.cpp:1155-1160 | after RUN the hook is armed if anything is live |
| BreakpointHook.LuaGlue.OnLine | Daemon/src/LuaGlue.cpp:954-1001 | with the hook installed, table test plus set test decide plain membership, stale bits and negative lines included |
| BreakpointHook.EndToEnd | Daemon/src/LuaGlue.cpp:1253-1306 | a line is live if and only if its source is instantiated and the client's set holds that source with the line before |
| BreakpointHook.SendAndHit | Client/src/Client.cpp:255-274 | from the client's set through list, message, table, RUN and hook: Lua stops at a line if and only if breakpoints are sent, the source is instantiated and the set holds source and line - 1 |
| BreakpointHook.Session | Daemon/src/LuaGlue.cpp:695 | over every run with RUN resumes: Lua runs as the events say, the live breakpoints are those last received whose sources were instantiated by then, and whenever Lua runs with one of them the hook is armed with the current table, also after a require that brought the first one |
| PaneBooks.BottomNotePanel.ReIndex | Client/src/BottomNotebook.cpp:1264-1280 | the book's list becomes what its notebook shows and the records of just those pages are rewritten |
| PaneBooks.BottomNotePanel.AddPageID | Client/src/BottomNotebook.cpp:1315-1340 | both indices agree again; the page is inserted at the position and nowhere else |
| PaneBooks.BottomNotePanel.RemovePageID | Client/src/BottomNotebook.cpp:1344-1377 | both indices agree again; exactly this page is gone |
| PaneBooks.BottomNotePanel.ShownOnce | Client/src/BottomNotebook.cpp:1264-1280 | no page is shown at two places |
| PaneBooks.BottomNotePanel.ShiftPane | Client/src/BottomNotebook.cpp:948-960 | the page goes from its book to the end of the next one, cyclically top, bottom left, bottom right; every other order unchanged |
| PaneBooks.BottomNotePanel.FindHit | Client/src/BottomNotebook.cpp:1195-1227 | a hit is a position that is still valid after the dragged page has been removed |
| PaneBooks.BottomNotePanel.HitMeans | Client/src/BottomNotebook.cpp:1195-1227 | over a book, the dragged page goes where the tab of another page is hit, to the end beside the tabs or in an empty book unless it is there already, and stays otherwise |
| PaneBooks.BottomNotePanel.FirstInside | Client/src/BottomNotebook.cpp:1003-1011 | the first book under the mouse decides, and none means no hit |
| PaneBooks.BottomNotePanel.OnMouseDragMove | Client/src/BottomNotebook.cpp:992-1040 | no bounds assertion fails; the page ends at the hit position, at the end, or in no book, and the other pages keep their order |
| PaneBooks.BottomNotePanel.ResetNotesPanes | Client/src/BottomNotebook.cpp:629-653 | all pages end up once each in the bottom-left book, in order |
| PaneBooks.BottomNotePanel.LoadUI | Client/src/BottomNotebook.cpp:572-625 | succeeds exactly on non-empty lists of existing books with no known pane twice or in use, and appends the listed panes |
| PaneBooks.SaveThenLoad | Client/src/BottomNotebook.cpp:531-625 | loading a saved layout reproduces every list, if and only if some book has a page |
| HexDump.PrintHexWidth | Client/src/MemoryViewCtrl.cpp:269-270 | a number takes the given width if and only if it is below 16 to that power |
| HexDump.PrintHexReads | Client/src/MemoryViewCtrl.cpp:292-339 | what is printed are hexadecimal digits in lower case and, read back, the number |
| HexDump.MemoryViewCtrl.RefreshHexDump | Client/src/MemoryViewCtrl.cpp:258-343 | the text is the dump of the whole buffer in the fewest lines that hold it: address, digits, padding on the last line, characters |
| HexDump.ByteShown | Client/src/MemoryViewCtrl.cpp:292-339 | every byte shows its two digits at its column after the address of its line, and at its column of the last part its character if printable, else a dot |
| HexDump.ByteShownAt | Client/src/MemoryViewCtrl.cpp:304-328 | byte ln * B + j has its digits at ln * (A + 4B + 5) + A + 3j, with A address characters and B bytes a line |
| HexDump.LineParts | Client/src/MemoryViewCtrl.cpp:292-339 | length of a line and columns of its parts, its address taking the computed width |
| HexDump.LineFitsIff | Client/src/MemoryViewCtrl.cpp:331-336 | a line fits the window if and only if it is not a full last line or there is room for another line of padding |
| HexDump.FullLineDoesNotFit | Client/src/MemoryViewCtrl.cpp:331-336 | eight bytes in a window of 41 characters: one full line, wider than the window |
| HexDump.RefreshAsciiDump | Client/src/MemoryViewCtrl.cpp:354-390 | one character a byte; the spans are sorted, disjoint, not touching, and cover exactly the converted positions |

## Left out

* Windows, painting, file dialogs, sockets and threads of wxWidgets, JUCE, Cairo and ASIO; sockets are FIFO byte queues whose timing is arbitrary, a UDP network delivers in order and does not fail to send.
* The LuaJIT build, its profiler and its hook branches; coroutines, finalizers, and error unwinding inside a stepped trace.
* NetStressTest and its echo messages; they are answered only during setup.
* Step commands at CONNECTED as part of a run: the runs of the session theorems exclude them, and `StepKeepsLockstepIff` shows that they must.
* Cache coherence across reconnects and project resets, which the code does not have (`StaleAfterReconnect`).
* A disconnect while an async read is outstanding drops the read; what the deleted receiver thread does is not modelled. In the session's state machine the daemon is gone at once; what a failed read makes it do is in `DaemonLoops.dfy`.
* `main`'s session loop is not a method of its own: its stages are the phases Setup, Loading, Executing, Finishing and Relooping of the session's state machine, with Lua's choices as actions.
* A step command during which a project module is required: the `pcall` of that module replaces the step hook by the breakpoint hook, and nothing is claimed about such a step.
* BreakpointHook.Session: the hook of a run that also uses step commands or break-on-load is not modelled; those replace the breakpoint hook by design.
* Framing.WriteMessage: bodies of 2^31 bytes and more, which the signed counter of `StreamStatus` cannot hold, are outside the precondition.
* Breakpoints.Controller.GetSortedBreakpointList: `std::sort` is modelled by insertion, and `Soft_stoi`, which is not part of this model, by reading decimal digits up to the largest int.
* BreakpointHook.LuaGlue.SaveAllBreakpoints: asks for strings whose file ends in `.lua` and has no line break, because the daemon asserts that its expression matches.
* Breakpoints.Controller.SetLoadedBreakpoints: does not check the part after the colon, as the code does not.
* Paths as unique names: keys that contain `][` can give two variables one path; of these the value of the last is remembered (`LastValsHas`), as in the code.
* VarCollect.VarCollectors.DumpLuaTableRecursive: the order in which `lua_next` visits a table is the order of the model's field list, and `DDT_MAX_TABLE_RECUSION`, whose header is not part of this model, is a constant without a value.
* Locals, upvalues and registry: they use the same two functions in loops of their own; which of several locals of one name is listed is not claimed (the comment at Daemon/src/VarCollectors.cpp:618 says the last, the code keeps the first).
* VarForest.WatchesForest: how a watch expression is looked up among locals, upvalues and globals is a given of the model.
* Require.LuaGlue.RunSession: the order of announcements is that of sessions without abort or error; files outside the project require nothing themselves, user code does not edit package.preload, and an error's own suspension is not answered with an abort. With project files that return false, completion without error is shown to follow from the quiet condition but not to imply it.
* Colours and the zero and selection markers of the hex dump; `isprint` is the C locale's, and in the ASCII dump any predicate on bytes.
* Pane names are eleven words known to the loader plus unknown ones, without their spelling; splitter widths are not modelled.
* The remark in `Controller::SetInitLevel` that a change of level locks or unlocks the editors is not followed: the code compares the new level with itself.
* Project files, search bar, directory controls and preferences: they would only add easy members.
