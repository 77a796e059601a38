/**
 The client's event handlers as the program has them, methods that change the frame step by step,
 each proved to take the step of Session.dfy.
 */
module TopFrame {
  import opened Wrappers
  import opened Session
  import opened SessionProofs

  class TopFrame {
    // Controller
    var level: Level                // m_InitLevel
    var tick: nat                   // m_DaemonTick
    // Client
    var connected: bool
    var asyncOut: bool              // a pending AsyncTCPReceiver
    var toDaemon: seq<ClientMsg>    // written to the socket, not read by the daemon yet
    // TopFrame
    var queue: seq<DaemonMsg>       // m_ClientQueue
    var posted: seq<Posted>         // wx events to self
    // TopNotebookImp
    var lastTick: int
    var cache: map<string, Solved>
    var requested: set<string>
    // history
    ghost var syncWait: Option<Request>
    ghost var overlap: bool
    // OnReadOnlyEditAttempt
    var asking: bool                // its message box is open

    ghost function View(): Session.Client
      reads this
    {
      Client(level, connected, asyncOut, syncWait, posted, queue, tick, lastTick, cache, requested, overlap, asking)
    }

    // The client's part of a state of the session.  Cached values carry the moment they were
    // solved in ("era", "epoch"), which only the proofs look at.
    ghost predicate Shows(s: State)
      reads this
    {
      View() == s.client && toDaemon == s.toDaemon
    }

    constructor ()
      ensures Shows(INITIAL)
    {
      level, tick, connected, asyncOut, toDaemon := Disconnected, 0, false, false, [];
      queue, posted, lastTick, cache, requested := [], [], -1, map[], {};
      syncWait, overlap, asking := None, false, false;
    }

    method CheckConnection() returns (ok: bool)
      modifies this`level
      ensures View() == Session.CheckConnection(old(View()))
      ensures ok <==> !level.Disconnected?
    {
      if level.Disconnected? { return false; }
      if !connected { level := Disconnected; return false; }
      ok := true;
    }

    method SendMessage(m: ClientMsg)
      modifies this`toDaemon
      ensures toDaemon == old(toDaemon) + [m]
    {
      toDaemon := toDaemon + [m];
    }

    method StartReadMessageAsync()
      modifies this`asyncOut, this`overlap
      ensures asyncOut && overlap == (old(overlap) || old(asyncOut))
    {
      overlap := overlap || asyncOut;
      asyncOut := true;
    }

    method WaitForNewMessage()
      modifies this`level, this`asyncOut, this`overlap
      ensures View() == Session.WaitForNewMessage(old(View()))
    {
      level := WaitReply;
      StartReadMessageAsync();
    }

    // "toolEnabled": the start/run tool is; it does not matter to a command that ends the session
    method ResumeExecution(cmd: Cmd, toolEnabled: bool, ghost s: State)
      requires Shows(s)
      modifies this`level, this`asyncOut, this`overlap, this`toDaemon, this`tick
      ensures Shows(if toolEnabled || cmd in {Abort, EndSession} then Session.ResumeExecution(s, cmd)
                    else s.(client := Session.CheckConnection(s.client)))
    {
      var ok := CheckConnection();
      if !ok { return; }
      if !IsActive(level) { return; }
      if !Terminates(cmd) && !toolEnabled { return; }
      SendMessage(NotifyBreakpoints);
      tick := tick + 1;
      SendMessage(ReqResume(cmd));
      WaitForNewMessage();
    }

    // "unsaved": a source file has edits; "startupOk": the startup field names a known source and a
    // function
    method OnToolStartRun(unsaved: bool, startupOk: bool, wellFormed: bool, ghost s: State)
      requires Shows(s) && connected
      modifies this`level, this`asyncOut, this`overlap, this`toDaemon, this`posted
      ensures Shows(if unsaved || (s.client.level.Connected? && !startupOk) then s else StartRun(s, wellFormed))
    {
      if unsaved { return; }
      if level.Connected? {
        if !startupOk { return; }
        var ok := CheckConnection();
        SendMessage(NotifyBreakpoints);
        SendMessage(ReqSyncStart(wellFormed));
        WaitForNewMessage();
      } else if IsResumable(level) {
        posted := posted + [CallAfterResume(Run)];
      }
    }

    // OnToolConnection, both ways; a new connection meets a fresh daemon.  "scripts": the project has
    // any; "remoteOk": the server's configuration is complete; "handshake": the socket opens
    method OnToolConnection(scripts: bool, remoteOk: bool, handshake: bool, ghost s: State)
      requires Shows(s) && (connected || level.Disconnected?)
      modifies this`level, this`connected, this`asyncOut, this`overlap, this`toDaemon
      ensures Shows(if old(connected) then Disconnect(s) else if scripts && remoteOk && handshake then Connect(s) else s)
    {
      if connected {
        connected, asyncOut, toDaemon := false, false, [];
        level := Disconnected;
      } else {
        if !scripts || !remoteOk { return; }
        if !handshake { level := Disconnected; return; }
        connected, toDaemon := true, [];
        level := Connected;
        SendMessage(ReqPlatform);
        WaitForNewMessage();
      }
    }

    // QueueMessage, delayed
    method QueueMessage(m: DaemonMsg)
      modifies this`queue, this`posted
      ensures queue == old(queue) + [m] && posted == old(posted) + [Incoming]
    {
      queue := queue + [m];
      posted := posted + [Incoming];
    }

    method DispatchMessage(m: DaemonMsg, era: nat)
      modifies this`level, this`posted, this`cache, this`requested
      ensures View() == Dispatch(old(View()), m, era)
    {
      match m
      case ReplyPlatform => level := Connected;
      case NotifySyncFailed => level := Connected;
      case NotifySessionEnded => level := Connected;
      case NotifySuspended(error) =>
        if error { level := LuaFatal; } else { level := LuaPaused; }
        posted := posted + [SuspendedSynth];
      case ReplyVars(req, epoch) =>
        if req.kind.Hover? { SetSolvedVariable(req.key, epoch, era); }
      case _ =>
    }

    // TopNotebookImp::SetSolvedVariable
    method SetSolvedVariable(key: string, epoch: nat, era: nat)
      modifies this`cache, this`requested
      ensures cache == old(cache)[key := Solved(era, epoch)] && requested == old(requested) - {key}
    {
      cache := cache[key := Solved(era, epoch)];
      requested := requested - {key};
    }

    method ProcessCustomQueue(era: nat) returns (ok: bool)
      modifies this`level, this`queue, this`posted, this`cache, this`requested
      ensures ok <==> old(queue) != []
      ensures !ok ==> View() == old(View())
      ensures ok ==> View() == Dispatch(old(View()).(queue := old(queue)[1..]), old(queue)[0], era)
    {
      if queue == [] { return false; }
      var m := queue[0];
      queue := queue[1..];
      DispatchMessage(m, era);
      ok := true;
    }

    method OnIncomingMessage(era: nat)
      modifies this`level, this`queue, this`posted, this`cache, this`requested
      ensures View() == OnIncoming(old(View()), era)
    {
      if |queue| == 0 { return; }
      var ok := ProcessCustomQueue(era);
      if |queue| > 0 { posted := posted + [Incoming]; }
    }

    // what the asynchronous receiver has for the timer: nothing yet, a message, or a failure
    // because the daemon is gone
    method OnAsyncReadTimer(received: Option<DaemonMsg>, failed: bool, era: nat, ghost s: State)
      requires Shows(s) && era == s.era
      requires received == if s.toClient == [] then None else Some(s.toClient[0])
      requires failed == s.daemon.phase.Gone?
      modifies this`level, this`connected, this`asyncOut, this`overlap, this`posted, this`cache, this`requested
      ensures Shows(TimerStep(s))
    {
      if !connected || !asyncOut { return; }   // Client::HasPendingAsync
      var ok := CheckConnection();
      if !ok { return; }
      match received
      case None =>
        if failed {
          asyncOut, connected := false, false;
          level := Disconnected;
        }
      case Some(m) =>
        asyncOut := false;
        DispatchMessage(m, era);
        if IsActive(level) { return; }
        StartReadMessageAsync();
    }

    // ---- the synchronous requests

    // Client::RequestReply up to the blocking read ...
    method RequestReply(req: Request, ghost s: State) returns (ok: bool)
      requires Shows(s)
      modifies this`toDaemon, this`syncWait
      ensures Shows(Session.RequestReply(s, req)) && ok == connected
    {
      if !connected { return false; }
      SendMessage(ReqVars(req));
      syncWait := Some(req);
      ok := true;
    }

    // ... and from there on
    method FinishRequestReply(reply: DaemonMsg, ghost s: State)
      requires Shows(s) && syncWait.Some? && s.toClient != [] && reply == s.toClient[0]
      modifies this`syncWait, this`queue, this`posted
      ensures Shows(SyncRead(s))
    {
      syncWait := None;
      QueueMessage(reply);
    }

    // TopNotebookImp::SolveVar_ASYNC
    method SolveVar(key: string, ghost s: State) returns (res: Option<Solved>)
      requires Shows(s)
      modifies this`lastTick, this`cache, this`requested, this`toDaemon, this`syncWait
      ensures Shows(Session.SolveVar(s, key)) && res == HoverHit(s.client, key)
    {
      if tick != lastTick {
        lastTick, cache, requested := tick, map[], {};
      }
      if key in cache { return Some(cache[key]); }
      res := None;
      if key in requested { return; }
      if !IsListening(level) { return; }
      var ok := RequestReply(Request(Hover, key), s.(client := View()));
      if ok { requested := requested + {key}; }
    }

    // one wx event; the panes to reload are those visible
    method OnPostedEvent(reloads: seq<Request>, era: nat, ghost s: State)
      requires Shows(s) && era == s.era && posted != []
      modifies this
      ensures Shows(ProcessPosted(s, reloads))
    {
      var e := posted[0];
      posted := posted[1..];
      ghost var t := s.(client := View());
      match e
      case Incoming => OnIncomingMessage(era);
      case SuspendedSynth =>
        level := LuaPaused;
        posted := seq(|reloads|, i requires 0 <= i < |reloads| => Reload(reloads[i])) + posted;
      case Reload(req) =>
        if IsListening(level) { var ok := RequestReply(req, t); }
      case CallAfterResume(cmd) => ResumeExecution(cmd, true, t);
      case StopSession => ResumeExecution(EndSession, true, t);
    }

    // ---- what the rest of the client does to the frame

    // VarViewCtrl::RequestVarReload
    method RequestVarReload(req: Request, ghost s: State)
      requires Shows(s)
      modifies this`toDaemon, this`syncWait
      ensures Shows(Session.RequestVarReload(s, req))
    {
      if IsListening(level) { var ok := RequestReply(req, s); }
    }

    // Controller::ResetProject
    method ResetProject(ghost s: State)
      requires Shows(s)
      modifies this`tick
      ensures Shows(s.(client := s.client.(tick := 0)))
    {
      tick := 0;
    }

    // Controller::OnReadOnlyEditAttempt, up to its message box ...
    method AskStop(ghost s: State)
      requires Shows(s) && IsStarted(level)
      modifies this`asking
      ensures Shows(s.(client := s.client.(asking := true)))
    {
      asking := true;
    }

    // ... and from there on
    method AnswerStop(yes: bool, ghost s: State)
      requires Shows(s)
      modifies this`posted, this`asking
      ensures Shows(Session.AnswerStop(s, yes))
    {
      asking := false;
      if yes { posted := posted + [StopSession]; }
    }

    // the daemon's end of the socket
    method OnDaemonRead(left: seq<ClientMsg>)
      modifies this`toDaemon
      ensures toDaemon == left
    {
      toDaemon := left;
    }
  }

  // the timer's event, also when no read is pending or the client is not connected
  function TimerStep(s: State): State {
    if !s.client.connected || !s.client.asyncOut || s.client.level.Disconnected? then s else Session.OnAsyncReadTimer(s)
  }

  // ---------------------------------------------------------------- a frame in its world

  // The frame takes one step of the session.  "s" is its world: the daemon and the channels.
  method Step(frame: TopFrame, a: Action, s: State) returns (t: State)
    requires Inv(s) && frame.Shows(s) && Enabled(s, a) && Disciplined(s, a)
    modifies frame
    ensures t == Apply(s, a) && frame.Shows(t) && Inv(t)
  {
    StepKeeps(s, a);
    t := Apply(s, a);
    if IsDaemonAction(a) {
      DaemonKeepsClient(s, a);
      frame.OnDaemonRead(t.toDaemon);
    } else {
      ClientStep(frame, a, s);
    }
  }

  method ClientStep(frame: TopFrame, a: Action, s: State)
    requires Inv(s) && frame.Shows(s) && Enabled(s, a) && !IsDaemonAction(a)
    modifies frame
    ensures frame.Shows(Apply(s, a))
  {
    match a {
      case AConnect => frame.OnToolConnection(true, true, true, s);
      case ADisconnect => frame.OnToolConnection(true, true, true, s);
      case AResetProject => frame.ResetProject(s);
      case AStartRun(wellFormed) => frame.OnToolStartRun(false, true, wellFormed, s);
      case AStep(cmd) => frame.ResumeExecution(cmd, true, s);
      case AStop(cmd) => frame.ResumeExecution(cmd, true, s);
      case AAskStop => frame.AskStop(s);
      case AAnswerStop(yes) => frame.AnswerStop(yes, s);
      case AReload(req) => frame.RequestVarReload(req, s);
      case AHover(key) => var shown := frame.SolveVar(key, s);
      case ATimer =>
        frame.OnAsyncReadTimer(if s.toClient == [] then None else Some(s.toClient[0]), s.daemon.phase.Gone?, s.era, s);
      case APosted(reloads) => frame.OnPostedEvent(reloads, s.era, s);
      case ASyncRead => frame.FinishRequestReply(s.toClient[0], s);
      case _ =>
    }
  }

  lemma ExecNext(run: seq<Action>, i: nat, t: State)
    requires i < |run| && Exec(t, run[i..]).Some?
    ensures Enabled(t, run[i]) && Disciplined(t, run[i]) && Exec(Apply(t, run[i]), run[i + 1..]) == Exec(t, run[i..])
  {
    assert run[i..][1..] == run[i + 1..];
  }

  // Over any run the object stays in lockstep with its world: it is in the state the run leads to,
  // never has two reads outstanding, has one exactly while it waits for a reply, and when it is
  // active and connected has left nothing unread but the request it is blocked in.
  method Drive(frame: TopFrame, run: seq<Action>, s: State) returns (t: State)
    requires Inv(s) && frame.Shows(s) && Exec(s, run).Some?
    modifies frame
    ensures t == Exec(s, run).value && frame.Shows(t) && Inv(t)
    ensures !frame.overlap && (frame.asyncOut <==> frame.level.WaitReply?)
    ensures IsActive(frame.level) && frame.connected && frame.syncWait.None? ==> frame.toDaemon == [] && t.toClient == []
    ensures frame.syncWait.Some? ==> t.toClient == [] || t.toClient == [ReplyVars(frame.syncWait.value, t.epoch)]
  {
    t := DriveFrom(frame, run, s);
  }

  method DriveFrom(frame: TopFrame, run: seq<Action>, s: State) returns (t: State)
    requires Inv(s) && frame.Shows(s) && Exec(s, run).Some?
    modifies frame
    ensures t == Exec(s, run).value && frame.Shows(t) && Inv(t)
  {
    t := s;
    var i := 0;
    assert run[0..] == run;
    while i < |run|
      invariant 0 <= i <= |run| && Inv(t) && frame.Shows(t)
      invariant Exec(t, run[i..]) == Exec(s, run)
    {
      ExecNext(run, i, t);
      t := Step(frame, run[i], t);
      i := i + 1;
    }
  }
}
