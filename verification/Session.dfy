/**
 The debugging session as two communicating state machines.

 The client is the wx main thread of TopFrame, Client and Controller: its init level,
 whether an asynchronous read is outstanding, whether it is blocked inside a synchronous
 RequestReply, its queue of wx events posted to itself, and the hover cache of
 TopNotebook.  The daemon is main(), SessionSetupLoop() and OnDebuggerEntry().  Two FIFO
 channels carry whole messages; Framing.dfy shows why a byte stream may be seen that way.

 Every nondeterministic choice is a parameter of an Action, so a step is a function.
 */
module Session {

  import opened Wrappers

  // ---------------------------------------------------------------- messages

  datatype Cmd = Abort | EndSession | Run | StepLine | StepInstruction | StepOver | StepOut

  predicate Terminates(cmd: Cmd) {
    cmd.Abort? || cmd.EndSession?
  }

  datatype VarKind = Locals | Globals | Watches | Memory | Hover

  // "key" is the variable's name for the two solve requests (Memory, Hover)
  datatype Request = Request(kind: VarKind, key: string)

  datatype ClientMsg =
    | ReqPlatform
    | ReqSyncStart(wellFormed: bool)
    | NotifyBreakpoints
    | ReqResume(cmd: Cmd)
    | ReqStack
    | ReqVars(req: Request)

  // ReplyVars carries, besides the request it answers, the number of the suspension in
  // which the daemon computed the reply.
  datatype DaemonMsg =
    | ReplyPlatform
    | NotifySyncFailed
    | ReplyStack
    | NotifyScriptLoaded
    | NotifySuspended(error: bool)
    | ReplyVars(req: Request, epoch: nat)
    | NotifySessionEnded
    | UnexpectedDuringSync
    | UnexpectedDuringDebug

  // ---------------------------------------------------------------- client

  datatype Level = Disconnected | Connected | LuaStarted | LuaRunning | LuaPaused | WaitReply | LuaFatal

  // s_ClientActiveSet
  predicate IsActive(level: Level) {
    level in {Disconnected, Connected, LuaPaused, LuaFatal}
  }

  // s_InitLevelResumableSet
  predicate IsResumable(level: Level) {
    level in {LuaStarted, LuaPaused}
  }

  // the enum's order: everything from LUA_STARTED on
  predicate IsStarted(level: Level) {
    level !in {Disconnected, Connected}
  }

  predicate IsListening(level: Level) {
    IsActive(level) && IsStarted(level)
  }

  // wx events the main thread posts to itself
  datatype Posted = Incoming | SuspendedSynth | Reload(req: Request) | CallAfterResume(cmd: Cmd) | StopSession

  datatype Solved = Solved(era: nat, epoch: nat)

  datatype Client = Client(
    level: Level,
    connected: bool,             // the socket is open
    asyncOut: bool,              // an AsyncTCPReceiver future is outstanding
    syncWait: Option<Request>,   // blocked in Client::RequestReply
    posted: seq<Posted>,
    queue: seq<DaemonMsg>,       // m_ClientQueue
    tick: nat,                   // Controller::m_DaemonTick
    lastTick: int,               // TopNotebookImp::m_LastDaemonTick
    cache: map<string, Solved>,
    requested: set<string>,
    overlap: bool,               // a read was started while another one was outstanding
    asking: bool)                // the box "Stop Debug Session?" is open

  // ---------------------------------------------------------------- daemon

  datatype LoadError = NoLoadError | StartupLoadError | RequireLoadError

  datatype Phase =
    | Setup                           // reading, in SessionSetupLoop
    | Loading                         // before loadfile of the startup source
    | Executing                       // Lua code runs
    | Entering(out: seq<DaemonMsg>)   // in OnDebuggerEntry, these messages still to be sent
    | Listening                       // reading, in OnDebuggerEntry
    | Finishing                       // at clean_up
    | Relooping                       // session-ended sent, not yet back in SessionSetupLoop
    | Gone                            // the process ended, or the link to it is cut

  datatype Daemon = Daemon(
    phase: Phase,
    entryLock: bool,          // m_EntryRecurseLock
    abort: bool,              // m_AbortLevel != NOT_ABORT
    loadError: LoadError,     // m_LastLuaError == LOAD_FILE_ERROR, and where
    scripts: bool,            // m_FileNotificationQueue is not empty
    assertFailed: bool,       // assert(!m_EntryRecurseLock) or assert(ok) after ProcessQueue
    sinceAbort: seq<DaemonMsg>)  // history: what was sent since the abort level was set

  datatype State = State(
    client: Client,
    daemon: Daemon,
    toDaemon: seq<ClientMsg>,
    toClient: seq<DaemonMsg>,
    epoch: nat,    // history: number of suspensions so far
    era: nat)      // history: number of connections and project resets so far

  const FRESH_DAEMON := Daemon(Setup, false, false, NoLoadError, false, false, [])

  const INITIAL := State(
    Client(Disconnected, false, false, None, [], [], 0, -1, map[], {}, false, false),
    FRESH_DAEMON.(phase := Gone), [], [], 0, 0)

  // ---------------------------------------------------------------- client handlers

  // TopFrame::WaitForNewMessage
  function WaitForNewMessage(c: Client): Client {
    c.(level := WaitReply, asyncOut := true, overlap := c.overlap || c.asyncOut)
  }

  // TopFrame::CheckConnection: the level drops when the socket is found closed
  function CheckConnection(c: Client): Client {
    if c.level.Disconnected? || c.connected then c else c.(level := Disconnected)
  }

  function Send(s: State, msgs: seq<ClientMsg>): State {
    s.(toDaemon := s.toDaemon + msgs)
  }

  // TopFrame::ResumeExecution
  function ResumeExecution(s: State, cmd: Cmd): State {
    var c := CheckConnection(s.client);
    if c.level.Disconnected? || !IsActive(c.level) then s.(client := c)
    else
      Send(s, [NotifyBreakpoints, ReqResume(cmd)]).(client := WaitForNewMessage(c.(tick := c.tick + 1)))
  }

  // Client::RequestReply up to the blocking read
  function RequestReply(s: State, req: Request): State {
    if !s.client.connected then s
    else Send(s, [ReqVars(req)]).(client := s.client.(syncWait := Some(req)))
  }

  // VarViewCtrl::RequestVarReload
  function RequestVarReload(s: State, req: Request): State {
    if IsListening(s.client.level) then RequestReply(s, req) else s
  }

  // the first lines of TopNotebookImp::SolveVar_ASYNC
  function FlushOnNewTick(c: Client): Client {
    if c.tick != c.lastTick then c.(lastTick := c.tick, cache := map[], requested := {}) else c
  }

  // TopNotebookImp::SolveVar_ASYNC; the value shown, if any, is HoverHit below
  function SolveVar(s: State, key: string): State {
    var c := FlushOnNewTick(s.client);
    if key in c.cache || key in c.requested || !IsListening(c.level) || !c.connected then s.(client := c)
    else RequestReply(s.(client := c.(requested := c.requested + {key})), Request(Hover, key))
  }

  // what SolveVar_ASYNC returns to the editor
  function HoverHit(c: Client, key: string): Option<Solved> {
    var f := FlushOnNewTick(c);
    if key in f.cache then Some(f.cache[key]) else None
  }

  // TopFrame::DispatchMessage
  function Dispatch(c: Client, m: DaemonMsg, era: nat): Client {
    match m
    case ReplyPlatform => c.(level := Connected)
    case NotifySyncFailed => c.(level := Connected)
    case NotifySessionEnded => c.(level := Connected)
    case NotifySuspended(error) =>
      c.(level := if error then LuaFatal else LuaPaused, posted := c.posted + [SuspendedSynth])
    case ReplyVars(req, epoch) =>
      if req.kind.Hover? then
        c.(cache := c.cache[req.key := Solved(era, epoch)], requested := c.requested - {req.key})
      else c
    case _ => c
  }

  // TopFrame::OnIncomingMessage, the event already taken off the wx queue
  function OnIncoming(c: Client, era: nat): Client {
    if c.queue == [] then c
    else
      var d := Dispatch(c.(queue := c.queue[1..]), c.queue[0], era);
      if d.queue != [] then d.(posted := d.posted + [Incoming]) else d
  }

  // one event off the wx queue; "reloads" are the panes visible when Lua suspends
  function ProcessPosted(s: State, reloads: seq<Request>): State
    requires s.client.posted != []
  {
    var head := s.client.posted[0];
    var c := s.client.(posted := s.client.posted[1..]);
    match head
    case Incoming => s.(client := OnIncoming(c, s.era))
    case SuspendedSynth =>
      s.(client := c.(level := LuaPaused, posted := seq(|reloads|, i requires 0 <= i < |reloads| => Reload(reloads[i])) + c.posted))
    case Reload(req) => RequestVarReload(s.(client := c), req)
    case CallAfterResume(cmd) => ResumeExecution(s.(client := c), cmd)
    case StopSession => ResumeExecution(s.(client := c), EndSession)
  }

  // TopFrame::OnAsyncReadTimer
  function OnAsyncReadTimer(s: State): State {
    if s.toClient != [] then
      var d := Dispatch(s.client.(asyncOut := false), s.toClient[0], s.era);
      s.(toClient := s.toClient[1..],
         client := if IsActive(d.level) then d else d.(asyncOut := true, overlap := d.overlap || d.asyncOut))
    else if s.daemon.phase.Gone? then
      s.(client := s.client.(asyncOut := false, connected := false, level := Disconnected))
    else s
  }

  // the blocking read of RequestReply returns one message, which is posted to the wx queue
  function SyncRead(s: State): State
    requires s.toClient != []
  {
    s.(toClient := s.toClient[1..],
       client := s.client.(syncWait := None,
                           queue := s.client.queue + [s.toClient[0]],
                           posted := s.client.posted + [Incoming]))
  }

  // TopFrame::OnToolStartRun
  function StartRun(s: State, wellFormed: bool): State {
    if s.client.level.Connected? then
      Send(s, [NotifyBreakpoints, ReqSyncStart(wellFormed)]).(client := WaitForNewMessage(s.client))
    else if IsResumable(s.client.level) then
      s.(client := s.client.(posted := s.client.posted + [CallAfterResume(Run)]))
    else s
  }

  // TopFrame::OnToolConnection, socket closed; the daemon's process is a fresh one
  function Connect(s: State): State {
    State(WaitForNewMessage(s.client.(connected := true, level := Connected)),
          FRESH_DAEMON, [ReqPlatform], [], s.epoch, s.era + 1)
  }

  // TopFrame::OnToolConnection, socket open
  function Disconnect(s: State): State {
    s.(client := s.client.(connected := false, asyncOut := false, level := Disconnected),
       daemon := s.daemon.(phase := Gone), toDaemon := [], toClient := [])
  }

  // the end of Controller::OnReadOnlyEditAttempt
  function AnswerStop(s: State, yes: bool): State {
    s.(client := s.client.(asking := false, posted := s.client.posted + if yes then [StopSession] else []))
  }

  // ---------------------------------------------------------------- daemon steps

  function Emit(s: State, m: DaemonMsg): State {
    s.(toClient := s.toClient + [m],
       daemon := s.daemon.(sinceAbort := if s.daemon.abort then s.daemon.sinceAbort + [m] else []))
  }

  // SessionSetupLoop, one message
  function SetupRead(s: State): State
    requires s.toDaemon != []
  {
    var m := s.toDaemon[0];
    var t := s.(toDaemon := s.toDaemon[1..]);
    match m
    case ReqPlatform => Emit(t, ReplyPlatform)
    case ReqSyncStart(wellFormed) =>
      if wellFormed then t.(daemon := t.daemon.(phase := Loading, entryLock := false, abort := false, loadError := NoLoadError))
      else Emit(t, NotifySyncFailed)
    case NotifyBreakpoints => t
    case _ => Emit(t, UnexpectedDuringSync)
  }

  // the REQUEST_VM_RESUME branch of LuaGlue::DispatchMessage and what follows it
  function Resume(d: Daemon, cmd: Cmd): Daemon {
    if d.loadError == StartupLoadError then
      // ResumeDaemon asserts valid lines, and the fake stack has none
      if cmd.StepOver? || cmd.StepOut? then d.(abort := false, phase := Gone)
      else d.(abort := false, entryLock := false, phase := Finishing)
    else if d.loadError == RequireLoadError then
      // OnRequireLoader asserts that instantiation succeeded
      d.(abort := false, phase := Gone)
    else if Terminates(cmd) then
      // lua_error() unwinds by longjmp: the lock's destructor does not run
      d.(abort := true, sinceAbort := [], phase := Executing)
    else d.(abort := false, entryLock := false, phase := Executing)
  }

  // one turn of the listen loop in OnDebuggerEntry
  function ListenRead(s: State): State
    requires s.toDaemon != []
  {
    var m := s.toDaemon[0];
    var t := s.(toDaemon := s.toDaemon[1..]);
    match m
    case ReqResume(cmd) => t.(daemon := Resume(t.daemon, cmd))
    case ReqStack => Emit(t, ReplyStack)
    case ReqVars(req) => Emit(t, ReplyVars(req, t.epoch))
    case NotifyBreakpoints => t
    case _ =>
      var e := Emit(t, UnexpectedDuringDebug);
      e.(daemon := e.daemon.(assertFailed := true))
  }

  // OnDebuggerEntry up to its listen loop
  function Enter(s: State, error: bool, loadError: LoadError): State {
    if s.daemon.abort then s
    else
      s.(epoch := s.epoch + 1,
         daemon := s.daemon.(
           assertFailed := s.daemon.assertFailed || s.daemon.entryLock,
           entryLock := true, loadError := loadError, scripts := false,
           phase := Entering([ReplyStack] + (if s.daemon.scripts then [NotifyScriptLoaded] else []) + [NotifySuspended(error)])))
  }

  function EmitNext(s: State): State
    requires s.daemon.phase.Entering? && s.daemon.phase.out != []
  {
    var out := s.daemon.phase.out;
    var t := Emit(s, out[0]);
    t.(daemon := t.daemon.(phase := if |out| == 1 then Listening else Entering(out[1..])))
  }

  // SendSessionEndMessage, then ExitLuaHooks
  function Finish(s: State): State {
    var t := Emit(s, NotifySessionEnded);
    t.(daemon := t.daemon.(phase := Relooping, entryLock := false))
  }

  // Daemon::Reset at the head of the session loop
  function Reloop(s: State): State {
    s.(daemon := s.daemon.(phase := Setup, entryLock := false, abort := false, loadError := NoLoadError, scripts := false))
  }

  // ---------------------------------------------------------------- steps and runs

  datatype Action =
    // user and timer events of the client
    | AConnect | ADisconnect | AResetProject
    | AStartRun(wellFormed: bool) | AStep(cmd: Cmd) | AStop(cmd: Cmd)
    | AAskStop | AAnswerStop(yes: bool)
    | AReload(req: Request) | AHover(key: string)
    | ATimer
    // the client's main thread
    | APosted(reloads: seq<Request>) | ASyncRead
    // the daemon
    | ASetupRead | AListenRead | AEmit
    | ALoaded | ALoadFailed | ALoadedNothing
    | AEnter(error: bool) | AInstantiate | ARequireFailed | AChunkDone
    | AFinish | AReloop

  predicate IsDaemonAction(a: Action) {
    a.ASetupRead? || a.AListenRead? || a.AEmit? || a.ALoaded? || a.ALoadFailed? || a.ALoadedNothing? ||
    a.AEnter? || a.AInstantiate? || a.ARequireFailed? || a.AChunkDone? || a.AFinish? || a.AReloop?
  }

  // The main thread takes an input or a timer event only when it is not blocked and its
  // own posted events are drained.
  predicate Drained(c: Client) {
    c.posted == [] && c.syncWait.None?
  }

  // A modal box keeps the user from everything else, but not the timer and the posted events.
  predicate MainThreadIdle(c: Client) {
    Drained(c) && !c.asking
  }

  predicate Enabled(s: State, a: Action) {
    var c, d := s.client, s.daemon;
    match a
    case AConnect => MainThreadIdle(c) && c.level.Disconnected? && !c.connected
    case ADisconnect => MainThreadIdle(c) && c.connected
    case AResetProject => MainThreadIdle(c)
    case AStartRun(_) => MainThreadIdle(c) && IsActive(c.level) && c.connected
    case AStep(cmd) => MainThreadIdle(c) && IsActive(c.level) && !Terminates(cmd)
    case AStop(cmd) => MainThreadIdle(c) && IsActive(c.level) && IsStarted(c.level) && Terminates(cmd)
    case AAskStop => MainThreadIdle(c) && IsStarted(c.level)
    case AAnswerStop(_) => Drained(c) && c.asking
    case AReload(req) => MainThreadIdle(c) && !req.kind.Hover?
    case AHover(_) => MainThreadIdle(c) && IsListening(c.level)
    case ATimer => Drained(c) && c.asyncOut
    case APosted(reloads) => c.syncWait.None? && c.posted != [] && forall r | r in reloads :: !r.kind.Hover?
    case ASyncRead => c.syncWait.Some? && s.toClient != []
    case ASetupRead => d.phase.Setup? && s.toDaemon != []
    case AListenRead => d.phase.Listening? && s.toDaemon != []
    case AEmit => d.phase.Entering? && d.phase.out != []
    case ALoaded => d.phase.Loading?
    case ALoadFailed => d.phase.Loading?
    case ALoadedNothing => d.phase.Loading?
    case AEnter(_) => d.phase.Executing?
    case AInstantiate => d.phase.Executing?
    case ARequireFailed => d.phase.Executing?
    case AChunkDone => d.phase.Executing?
    case AFinish => d.phase.Finishing?
    case AReloop => d.phase.Relooping?
  }

  function Apply(s: State, a: Action): State
    requires Enabled(s, a)
  {
    var d := s.daemon;
    match a
    case AConnect => Connect(s)
    case ADisconnect => Disconnect(s)
    case AResetProject => s.(client := s.client.(tick := 0), era := s.era + 1)
    case AStartRun(wellFormed) => StartRun(s, wellFormed)
    case AStep(cmd) => ResumeExecution(s, cmd)
    case AStop(cmd) => ResumeExecution(s, cmd)
    case AAskStop => s.(client := s.client.(asking := true))
    case AAnswerStop(yes) => AnswerStop(s, yes)
    case AReload(req) => RequestVarReload(s, req)
    case AHover(key) => SolveVar(s, key)
    case ATimer => OnAsyncReadTimer(s)
    case APosted(reloads) => ProcessPosted(s, reloads)
    case ASyncRead => SyncRead(s)
    case ASetupRead => SetupRead(s)
    case AListenRead => ListenRead(s)
    case AEmit => EmitNext(s)
    case ALoaded => s.(daemon := d.(phase := Executing, scripts := true))
    case ALoadFailed => Enter(s, true, StartupLoadError)
    case ALoadedNothing => s.(daemon := d.(phase := Finishing))
    case AEnter(error) => Enter(s, error, NoLoadError)
    case AInstantiate => s.(daemon := d.(scripts := true))
    case ARequireFailed =>
      if d.abort then s.(daemon := d.(phase := Gone)) else Enter(s, true, RequireLoadError)
    case AChunkDone => s.(daemon := d.(phase := Finishing))
    case AFinish => Finish(s)
    case AReloop => Reloop(s)
  }

  // Step commands belong to a paused Lua; the toolbar also offers them at CONNECTED.  The question
  // whether to stop belongs to a session; the session may end while the box is open.
  predicate Disciplined(s: State, a: Action) {
    && (a.AStep? ==> !s.client.level.Connected?)
    && (a.AAnswerStop? && a.yes ==> IsStarted(s.client.level))
  }

  // the state a run leads to, if every step of it is enabled and disciplined
  function Exec(s: State, run: seq<Action>): Option<State>
    decreases |run|
  {
    if run == [] then Some(s)
    else if Enabled(s, run[0]) && Disciplined(s, run[0]) then Exec(Apply(s, run[0]), run[1..])
    else None
  }
}
