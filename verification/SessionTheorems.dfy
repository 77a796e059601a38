/**
 What lockstep gives in every reachable state: who may read when, that nobody waits for ever,
 that a reply answers its own request, that the hover cache never shows a value of an earlier
 suspension, and that an aborted session stays silent.  Then the two places where the code
 needs its callers to behave, with runs that show it.
 */
module SessionTheorems {
  import opened Wrappers
  import opened Session
  import opened SessionProofs

  lemma {:induction false} RunKeeps(s: State, run: seq<Action>)
    requires Inv(s) && Exec(s, run).Some?
    ensures Inv(Exec(s, run).value)
    decreases |run|
  {
    if run != [] {
      StepKeeps(s, run[0]);
      RunKeeps(Apply(s, run[0]), run[1..]);
    }
  }

  // some run ends in s
  ghost predicate Reachable(s: State) {
    exists run :: Exec(INITIAL, run) == Some(s)
  }

  lemma ReachableInv(s: State)
    requires Reachable(s)
    ensures Inv(s)
  {
    var run :| Exec(INITIAL, run) == Some(s);
    RunKeeps(INITIAL, run);
  }

  predicate DaemonReads(d: Daemon) {
    d.phase.Setup? || d.phase.Listening?
  }

  // An active, connected client has the line to itself: no asynchronous read is outstanding,
  // the daemon is in its read loop or returning to it, and nothing is in flight but the one
  // synchronous request being served.  A waiting client has exactly one read outstanding.
  lemma LockstepAlways(s: State)
    requires Reachable(s)
    ensures !s.client.overlap
    ensures IsActive(s.client.level) && s.client.connected ==>
              && !s.client.asyncOut
              && (DaemonReads(s.daemon) || s.daemon.phase.Relooping?)
              && (s.client.syncWait.None? ==> s.toDaemon == [] && s.toClient == [])
    ensures s.client.asyncOut <==> s.client.level.WaitReply?
    ensures s.client.syncWait.Some? ==> s.client.level.LuaPaused?
    ensures !s.client.level.LuaStarted? && !s.client.level.LuaRunning?
  {
    ReachableInv(s);
  }

  predicate ChangesLevel(m: DaemonMsg) {
    EndsWait(m) || m.NotifySuspended?
  }

  // While the client waits, the message that will end the wait is unique and last in line.
  lemma OneAnswerInLine(s: State, i: nat)
    requires Reachable(s) && s.client.level.WaitReply? && i < |s.toClient|
    ensures ChangesLevel(s.toClient[i]) ==> i == |s.toClient| - 1 && s.toDaemon == []
    ensures i == |s.toClient| - 1 && !s.daemon.phase.Entering? ==> ChangesLevel(s.toClient[i])
  {
    ReachableInv(s);
  }

  // Neither side ever answers "unexpected message", and no assertion of the session code fails:
  // assert(ok) after ProcessQueue, assert(!m_EntryRecurseLock) on debugger entry, and
  // assert(IsLuaStarted()) when a posted stop event is handled.
  lemma NoSurprise(s: State)
    requires Reachable(s)
    ensures !s.daemon.assertFailed
    ensures UnexpectedDuringSync !in s.toClient && UnexpectedDuringDebug !in s.toClient
    ensures StopSession in s.client.posted ==> IsStarted(s.client.level)
  {
    ReachableInv(s);
    forall i | 0 <= i < |s.toClient|
      ensures !s.toClient[i].UnexpectedDuringSync? && !s.toClient[i].UnexpectedDuringDebug?
    {
      assert s.client.level.WaitReply? ==> Passive(s.toClient[i]) || ChangesLevel(s.toClient[i]);
    }
  }

  predicate ClientBlocked(s: State) {
    s.toClient == [] && !s.daemon.phase.Gone? && (s.client.asyncOut || s.client.syncWait.Some?)
  }

  predicate DaemonBlocked(s: State) {
    s.toDaemon == [] && DaemonReads(s.daemon)
  }

  lemma NoMutualBlocking(s: State)
    requires Reachable(s)
    ensures !(ClientBlocked(s) && DaemonBlocked(s))
  {
    ReachableInv(s);
  }

  // ------------------------------------------------ a waiting client can always be served

  predicate IsMachineAction(a: Action) {
    IsDaemonAction(a) || a.ATimer? || a.APosted? || a.ASyncRead?
  }

  predicate MachineOnly(run: seq<Action>) {
    forall i :: 0 <= i < |run| ==> IsMachineAction(run[i])
  }

  function Rank(s: State): nat {
    var busy := s.toDaemon != [];
    match s.daemon.phase
    case Relooping => if busy then 9 else 2
    case Setup => if busy then 8 else 2
    case Listening => if busy then 7 else 2
    case Loading => 6
    case Executing => 5
    case Finishing => 4
    case Entering(_) => 3
    case Gone => 1
  }

  function Owed(s: State): nat {
    |s.toDaemon| + if s.daemon.phase.Entering? then |s.daemon.phase.out| else 0
  }

  // t is nearer than s to the end of the wait
  predicate Nearer(t: State, s: State) {
    || Rank(t) < Rank(s)
    || (Rank(t) == Rank(s) && Owed(t) < Owed(s))
    || (Rank(t) == Rank(s) && Owed(t) == Owed(s) && |t.toClient| < |s.toClient|)
    || (Rank(t) == Rank(s) && Owed(t) == Owed(s) && |t.toClient| == |s.toClient| && |t.client.posted| < |s.client.posted|)
  }

  // one step on the way out of WAIT_REPLY
  function NextStep(s: State): Action {
    if s.client.posted != [] then APosted([])
    else if s.toClient != [] || s.daemon.phase.Gone? then ATimer
    else match s.daemon.phase
      case Relooping => AReloop
      case Setup => ASetupRead
      case Listening => AListenRead
      case Loading => ALoadedNothing
      case Executing => AChunkDone
      case Finishing => AFinish
      case Entering(_) => AEmit
      case Gone => ATimer
  }

  predicate Advances(s: State, a: Action) {
    && Enabled(s, a) && Disciplined(s, a) && IsMachineAction(a)
    && var t := Apply(s, a);
       IsActive(t.client.level) || (t.client.level.WaitReply? && Nearer(t, s))
  }

  lemma ClientStepAdvances(s: State)
    requires Inv(s) && s.client.level.WaitReply?
    requires s.client.posted != [] || s.toClient != [] || s.daemon.phase.Gone?
    ensures Advances(s, NextStep(s))
  {}

  lemma ReadStepAdvances(s: State)
    requires Inv(s) && s.client.level.WaitReply? && s.client.posted == [] && s.toClient == []
    requires DaemonReads(s.daemon)
    ensures Advances(s, NextStep(s))
  {}

  lemma WorkStepAdvances(s: State)
    requires Inv(s) && s.client.level.WaitReply? && s.client.posted == [] && s.toClient == []
    requires !DaemonReads(s.daemon) && !s.daemon.phase.Gone?
    ensures Advances(s, NextStep(s))
  {}

  lemma NextStepAdvances(s: State)
    requires Inv(s) && s.client.level.WaitReply?
    ensures Advances(s, NextStep(s))
  {
    if s.client.posted != [] || s.toClient != [] || s.daemon.phase.Gone? { ClientStepAdvances(s); }
    else if DaemonReads(s.daemon) { ReadStepAdvances(s); }
    else { WorkStepAdvances(s); }
  }

  lemma {:induction false} Settles(s: State) returns (run: seq<Action>)
    requires Inv(s) && s.client.level.WaitReply?
    ensures MachineOnly(run) && Exec(s, run).Some? && IsActive(Exec(s, run).value.client.level)
    decreases Rank(s), Owed(s), |s.toClient|, |s.client.posted|
  {
    var a := NextStep(s);
    NextStepAdvances(s);
    var t := Apply(s, a);
    StepKeeps(s, a);
    if IsActive(t.client.level) {
      run := [a];
      assert Exec(t, run[1..]) == Some(t);
    } else {
      var rest := Settles(t);
      run := [a] + rest;
      assert run[1..] == rest;
    }
  }

  // From every reachable state in which the client waits, the machines alone (no user, no
  // timeout) can bring it back to an active level: no run leads into a trap.
  lemma NeverTrapped(s: State)
    requires Reachable(s) && s.client.level.WaitReply?
    ensures exists run :: MachineOnly(run) && Exec(s, run).Some? && IsActive(Exec(s, run).value.client.level)
  {
    ReachableInv(s);
    var run := Settles(s);
  }

  // ------------------------------------------------ request and reply

  // A client blocked in RequestReply finds nothing in its channel or exactly one message: the
  // reply to that very request, computed in the current suspension.
  lemma ReplyAnswersItsRequest(s: State)
    requires Reachable(s) && s.client.syncWait.Some?
    ensures s.daemon.phase.Listening?
    ensures s.toClient == [] || s.toClient == [ReplyVars(s.client.syncWait.value, s.epoch)]
    ensures s.toClient == [] ==> s.toDaemon == [ReqVars(s.client.syncWait.value)]
                                 && ListenRead(s).toClient == [ReplyVars(s.client.syncWait.value, s.epoch)]
  {
    ReachableInv(s);
  }

  // ------------------------------------------------ hover cache

  // A value shown from the cache was solved in the suspension the user is looking at, provided
  // it was solved on this connection and since the project was last reset.
  lemma HoverShowsCurrentValue(s: State, key: string)
    requires Reachable(s) && Enabled(s, AHover(key)) && HoverHit(s.client, key).Some?
    ensures HoverHit(s.client, key).value.era == s.era ==>
              HoverHit(s.client, key).value.epoch == s.epoch && s.daemon.phase.Listening?
  {
    ReachableInv(s);
  }

  // ------------------------------------------------ abort latch

  // a stretch of a run in which no session is reset and no new daemon appears
  predicate WithinSession(run: seq<Action>) {
    AReloop !in run && AConnect !in run
  }

  lemma LatchStep(s: State, a: Action)
    requires Inv(s) && s.daemon.abort && !a.AReloop? && !a.AConnect? && Enabled(s, a)
    ensures Apply(s, a).daemon.abort && Apply(s, a).epoch == s.epoch
  {
    var d := s.daemon;
    assert !d.phase.Setup? && !d.phase.Loading? && !d.phase.Entering? && !d.phase.Listening?;
  }

  lemma {:induction false} LatchHolds(s: State, run: seq<Action>)
    requires Inv(s) && s.daemon.abort && WithinSession(run) && Exec(s, run).Some?
    ensures var t := Exec(s, run).value; t.daemon.abort && t.epoch == s.epoch && Inv(t)
    decreases |run|
  {
    if run != [] {
      assert run[0] in run;
      LatchStep(s, run[0]);
      StepKeeps(s, run[0]);
      LatchHolds(Apply(s, run[0]), run[1..]);
    }
  }

  // Which commands end a session: ABORT and END_SESSION set the latch, every other one lets Lua go on.
  lemma ResumeAbortsIff(s: State, cmd: Cmd)
    requires Inv(s) && s.daemon.phase.Listening? && s.daemon.loadError.NoLoadError?
    requires s.toDaemon != [] && s.toDaemon[0] == ReqResume(cmd)
    ensures ListenRead(s).daemon.abort <==> cmd in {Abort, EndSession}
    ensures ListenRead(s).daemon.phase.Executing? && (ListenRead(s).daemon.entryLock <==> cmd in {Abort, EndSession})
  {
  }

  // Once the daemon has taken END_SESSION or ABORT at a suspension that is not a load error,
  // nothing Lua does until the session is reset suspends again, and the daemon sends at most
  // one message more: that the session ended.
  lemma AbortIsFinal(s: State, cmd: Cmd, run: seq<Action>)
    requires Reachable(s) && cmd in {Abort, EndSession}
    requires s.daemon.phase.Listening? && s.daemon.loadError.NoLoadError?
    requires s.toDaemon != [] && s.toDaemon[0] == ReqResume(cmd)
    requires WithinSession(run) && Exec(ListenRead(s), run).Some?
    ensures var t := Exec(ListenRead(s), run).value;
      && t.epoch == s.epoch
      && !t.daemon.phase.Listening? && !t.daemon.phase.Entering? && !t.daemon.assertFailed
      && (t.daemon.sinceAbort == [] || t.daemon.sinceAbort == [NotifySessionEnded])
      && (t.daemon.phase.Relooping? ==> t.daemon.sinceAbort == [NotifySessionEnded])
  {
    ReachableInv(s);
    StepKeeps(s, AListenRead);
    LatchHolds(ListenRead(s), run);
    var sent := Exec(ListenRead(s), run).value.daemon.sinceAbort;
    if sent != [] {
      assert sent[0] in sent;
      assert sent == [NotifySessionEnded];
    }
  }

  // ------------------------------------------------ what the buttons do

  // The stop button at a pause: the daemon takes the command and the session is latched.
  lemma StopButton(s: State, cmd: Cmd)
    requires Inv(s) && Paused(s) && cmd in {Abort, EndSession}
    ensures var run := [AStop(cmd), AListenRead, AListenRead];
            && Exec(s, run).Some?
            && var t := Exec(s, run).value;
               t.daemon.abort && t.daemon.phase.Executing? && t.client.level.WaitReply? && t.toDaemon == []
  {
    var sent := Apply(s, AStop(cmd));
    assert sent.toDaemon == [NotifyBreakpoints, ReqResume(cmd)];
    TwoReads(sent, cmd);
    var run := [AStop(cmd), AListenRead, AListenRead];
    assert run[1..] == [AListenRead, AListenRead];
  }

  // The run button at a pause: it posts itself an event, which sends the command; Lua runs on.
  lemma RunButton(s: State, wellFormed: bool)
    requires Inv(s) && Paused(s)
    ensures var run := [AStartRun(wellFormed), APosted([]), AListenRead, AListenRead];
            && Exec(s, run).Some?
            && var t := Exec(s, run).value;
               !t.daemon.abort && t.daemon.phase.Executing? && t.client.level.WaitReply? && t.client.tick == s.client.tick + 1
  {
    var posted := Apply(s, AStartRun(wellFormed));
    assert posted.client.posted == [CallAfterResume(Run)];
    var sent := Apply(posted, APosted([]));
    assert sent.toDaemon == [NotifyBreakpoints, ReqResume(Run)];
    TwoReads(sent, Run);
    var run := [AStartRun(wellFormed), APosted([]), AListenRead, AListenRead];
    assert run[1..] == [APosted([]), AListenRead, AListenRead];
    assert run[1..][1..] == [AListenRead, AListenRead];
  }

  lemma TwoReads(s: State, cmd: Cmd)
    requires s.daemon.phase.Listening? && s.daemon.loadError.NoLoadError? && s.toDaemon == [NotifyBreakpoints, ReqResume(cmd)]
    ensures var run := [AListenRead, AListenRead];
            && Exec(s, run).Some?
            && var t := Exec(s, run).value;
               && t.client == s.client && t.toDaemon == [] && t.daemon.phase.Executing?
               && (t.daemon.abort <==> cmd in {Abort, EndSession})
  {
    var run := [AListenRead, AListenRead];
    var next := ListenRead(s);
    assert next.toDaemon == [ReqResume(cmd)];
    assert run[1..] == [AListenRead] && run[1..][1..] == [];
    assert Exec(ListenRead(next), []) == Some(ListenRead(next));
  }

  // A pane's reload at a pause: the request goes out,
  lemma ReloadIsSent(s: State, req: Request)
    requires Inv(s) && Paused(s) && !req.kind.Hover?
    ensures Enabled(s, AReload(req)) && Disciplined(s, AReload(req))
    ensures var t := Apply(s, AReload(req));
            && t.toDaemon == [ReqVars(req)] && t.toClient == [] && t.daemon == s.daemon && t.epoch == s.epoch
            && t.client == s.client.(syncWait := Some(req))
  {
  }

  lemma ExecStep(s: State, a: Action, rest: seq<Action>)
    requires Enabled(s, a) && Disciplined(s, a)
    ensures Exec(s, [a] + rest) == Exec(Apply(s, a), rest)
  {
    assert ([a] + rest)[1..] == rest;
  }

  // the client's request once it has been read, answered and queued
  function Queued(s: State, req: Request): (t: State)
    requires s.daemon.phase.Listening? && s.client.syncWait.Some? && s.toDaemon == [ReqVars(req)] && s.toClient == []
    ensures t.client == s.client.(syncWait := None, queue := s.client.queue + [ReplyVars(req, s.epoch)],
                                  posted := s.client.posted + [Incoming])
    ensures t.toDaemon == [] && t.toClient == [] && t.era == s.era && t.epoch == s.epoch
  {
    SyncRead(ListenRead(s))
  }

  // ... its reply comes back and is what is queued.
  lemma RequestIsAnswered(s: State, req: Request)
    requires s.daemon.phase.Listening? && s.client.syncWait.Some? && s.client.queue == []
    requires s.toDaemon == [ReqVars(req)] && s.toClient == []
    ensures var run := [AListenRead, ASyncRead];
            Exec(s, run).Some? && Exec(s, run).value.client.queue == [ReplyVars(req, s.epoch)]
  {
    var queued := Queued(s, req);
    ExecStep(ListenRead(s), ASyncRead, []);
    ExecStep(s, AListenRead, [ASyncRead]);
    assert [AListenRead] + [ASyncRead] == [AListenRead, ASyncRead] && [ASyncRead] + [] == [ASyncRead];
  }

  lemma ReloadIsAnswered(s: State, req: Request)
    requires Inv(s) && Paused(s) && !req.kind.Hover?
    ensures var run := [AReload(req), AListenRead, ASyncRead];
            Exec(s, run).Some? && Exec(s, run).value.client.queue == [ReplyVars(req, s.epoch)]
  {
    ReloadIsSent(s, req);
    RequestIsAnswered(Apply(s, AReload(req)), req);
    var run := [AReload(req), AListenRead, ASyncRead];
    assert run[1..] == [AListenRead, ASyncRead];
  }

  // At a suspension over a file that did not load, whatever command comes is the end: until the session
  // loop comes round no Lua runs, nothing suspends, and at most the end of the session is announced.
  lemma LoadErrorIsFinal(s: State, cmd: Cmd, run: seq<Action>)
    requires s.daemon.phase.Listening? && !s.daemon.loadError.NoLoadError?
    requires s.toDaemon != [] && s.toDaemon[0] == ReqResume(cmd)
    requires (forall a | a in run :: IsDaemonAction(a) && !a.AReloop?) && Exec(ListenRead(s), run).Some?
    ensures var t := Exec(ListenRead(s), run).value;
            && !t.daemon.phase.Executing? && !t.daemon.phase.Entering? && t.epoch == s.epoch
            && (t.toClient == s.toClient || t.toClient == s.toClient + [NotifySessionEnded])
  {
    EndingRun(ListenRead(s), run);
  }

  lemma {:induction false} EndingRun(s: State, run: seq<Action>)
    requires s.daemon.phase.Finishing? || s.daemon.phase.Relooping? || s.daemon.phase.Gone?
    requires (forall a | a in run :: IsDaemonAction(a) && !a.AReloop?) && Exec(s, run).Some?
    ensures var t := Exec(s, run).value;
            && t.epoch == s.epoch
            && if s.daemon.phase.Finishing? && run != [] then t.daemon.phase.Relooping? && t.toClient == s.toClient + [NotifySessionEnded]
               else t.daemon.phase == s.daemon.phase && t.toClient == s.toClient
    decreases |run|
  {
    if run != [] {
      assert run[0] in run;
      var next := Apply(s, run[0]);
      EndingRun(next, run[1..]);
      assert next.toClient == s.toClient + [NotifySessionEnded] && next.daemon.phase.Relooping?;
    }
  }

  // The panes visible when Lua suspends are reloaded, one after the other: the first of them here.
  lemma PaneIsReloaded(s: State, req: Request)
    requires s.client.level.LuaPaused? && s.client.connected && s.client.posted == [SuspendedSynth]
    requires s.client.syncWait.None? && s.client.queue == [] && !req.kind.Hover?
    requires s.daemon.phase.Listening? && s.toDaemon == [] && s.toClient == []
    ensures var run := [APosted([req]), APosted([]), AListenRead, ASyncRead];
            Exec(s, run).Some? && Exec(s, run).value.client.queue == [ReplyVars(req, s.epoch)]
  {
    var posted := ProcessPosted(s, [req]);
    assert posted.client.posted == [Reload(req)];
    var sent := ProcessPosted(posted, []);
    assert sent.toDaemon == [ReqVars(req)];
    RequestIsAnswered(sent, req);
    ExecStep(posted, APosted([]), [AListenRead, ASyncRead]);
    ExecStep(s, APosted([req]), [APosted([]), AListenRead, ASyncRead]);
    assert [APosted([req])] + [APosted([]), AListenRead, ASyncRead] == [APosted([req]), APosted([]), AListenRead, ASyncRead];
    assert [APosted([])] + [AListenRead, ASyncRead] == [APosted([]), AListenRead, ASyncRead];
  }

  // The start button: the daemon loads the startup source if the request is complete and refuses it
  // otherwise.
  lemma StartButton(s: State, wellFormed: bool)
    requires Rests(s, Connected) && s.daemon.phase.Setup?
    ensures var run := [AStartRun(wellFormed), ASetupRead, ASetupRead];
            && Exec(s, run).Some?
            && var t := Exec(s, run).value;
               && t.client.level.WaitReply? && t.toDaemon == []
               && t.daemon.phase == (if wellFormed then Loading else Setup)
               && t.toClient == (if wellFormed then [] else [NotifySyncFailed])
  {
    var sent := Apply(s, AStartRun(wellFormed));
    assert sent.toDaemon == [NotifyBreakpoints, ReqSyncStart(wellFormed)];
    TwoSetupReads(sent, wellFormed);
    var run := [AStartRun(wellFormed), ASetupRead, ASetupRead];
    assert run[1..] == [ASetupRead, ASetupRead];
  }

  lemma TwoSetupReads(s: State, wellFormed: bool)
    requires s.daemon.phase.Setup? && s.toDaemon == [NotifyBreakpoints, ReqSyncStart(wellFormed)] && s.toClient == []
    ensures var run := [ASetupRead, ASetupRead];
            && Exec(s, run).Some?
            && var t := Exec(s, run).value;
               && t.client == s.client && t.toDaemon == []
               && t.daemon.phase == (if wellFormed then Loading else Setup)
               && t.toClient == (if wellFormed then [] else [NotifySyncFailed])
  {
    var run := [ASetupRead, ASetupRead];
    var next := SetupRead(s);
    assert next.toDaemon == [ReqSyncStart(wellFormed)];
    assert run[1..] == [ASetupRead] && run[1..][1..] == [];
    assert Exec(SetupRead(next), []) == Some(SetupRead(next));
  }

  // A variable hovered over at a pause, not asked for since the last resume: the request goes out,
  lemma HoverIsSent(s: State, key: string)
    requires Inv(s) && Paused(s) && key !in FlushOnNewTick(s.client).cache && key !in FlushOnNewTick(s.client).requested
    ensures Enabled(s, AHover(key)) && Disciplined(s, AHover(key))
    ensures var t := Apply(s, AHover(key));
            && t.toDaemon == [ReqVars(Request(Hover, key))] && t.toClient == [] && t.daemon == s.daemon
            && t.epoch == s.epoch && t.era == s.era && t.client.posted == [] && t.client.queue == []
            && t.client.syncWait == Some(Request(Hover, key)) && t.client.lastTick == t.client.tick
  {
  }

  // ... and the value of this suspension is what is shown from then on.
  lemma HoverIsAnswered(s: State, key: string)
    requires Inv(s) && Paused(s) && key !in FlushOnNewTick(s.client).cache && key !in FlushOnNewTick(s.client).requested
    ensures var run := [AHover(key), AListenRead, ASyncRead, APosted([])];
            Exec(s, run).Some? && HoverHit(Exec(s, run).value.client, key) == Some(Solved(s.era, s.epoch))
  {
    HoverIsSent(s, key);
    HoverIsShown(Apply(s, AHover(key)), key);
    var run := [AHover(key), AListenRead, ASyncRead, APosted([])];
    assert run[1..] == [AListenRead, ASyncRead, APosted([])];
  }

  lemma HoverIsShown(s: State, key: string)
    requires s.daemon.phase.Listening? && s.client.syncWait.Some? && s.client.queue == [] && s.client.posted == []
    requires s.toDaemon == [ReqVars(Request(Hover, key))] && s.toClient == [] && s.client.lastTick == s.client.tick
    ensures var run := [AListenRead, ASyncRead, APosted([])];
            Exec(s, run).Some? && HoverHit(Exec(s, run).value.client, key) == Some(Solved(s.era, s.epoch))
  {
    var queued := Queued(s, Request(Hover, key));
    ReplyIsShown(queued, key, s.epoch);
    ExecStep(ListenRead(s), ASyncRead, [APosted([])]);
    ExecStep(s, AListenRead, [ASyncRead, APosted([])]);
    assert [AListenRead] + [ASyncRead, APosted([])] == [AListenRead, ASyncRead, APosted([])];
    assert [ASyncRead] + [APosted([])] == [ASyncRead, APosted([])];
  }

  lemma ReplyIsShown(s: State, key: string, epoch: nat)
    requires s.client.syncWait.None? && s.client.posted == [Incoming] && s.client.lastTick == s.client.tick
    requires s.client.queue == [ReplyVars(Request(Hover, key), epoch)]
    ensures var run := [APosted([])];
            Exec(s, run).Some? && HoverHit(Exec(s, run).value.client, key) == Some(Solved(s.era, epoch))
  {
    ExecStep(s, APosted([]), []);
    assert [APosted([])] + [] == [APosted([])];
  }

  // A suspension with an error shows as fatal until it has been taken notice of, one without as a
  // pause; the messages that end a session leave the client connected.
  lemma LevelsOfMessages(c: Client, m: DaemonMsg, era: nat)
    ensures m == NotifySuspended(true) ==> Dispatch(c, m, era).level == LuaFatal
    ensures m == NotifySuspended(false) ==> Dispatch(c, m, era).level == LuaPaused
    ensures m in {ReplyPlatform, NotifySyncFailed, NotifySessionEnded} ==> Dispatch(c, m, era).level == Connected
    ensures m in {ReplyStack, NotifyScriptLoaded, UnexpectedDuringSync, UnexpectedDuringDebug} || m.ReplyVars? ==>
              Dispatch(c, m, era).level == c.level
  {
  }

  // ------------------------------------------------ where the callers must behave

  // A step button keeps lockstep exactly when the client is not at CONNECTED.
  lemma StepKeepsLockstepIff(s: State, cmd: Cmd)
    requires Inv(s) && Enabled(s, AStep(cmd))
    ensures Inv(Apply(s, AStep(cmd))) <==> !s.client.level.Connected?
  {
    if !s.client.level.Connected? { StepKeeps(s, AStep(cmd)); }
  }

  // A stop session event may be posted, by answering yes, exactly while the client's level is that of a
  // session: then the invariant is kept and the assertion of the event's handler holds, and only then.
  lemma AnswerStopIff(s: State)
    requires Inv(s) && Enabled(s, AAnswerStop(true))
    ensures Inv(Apply(s, AAnswerStop(true))) <==> IsStarted(s.client.level)
    ensures var t := Apply(s, AAnswerStop(true));
            t.client.posted == [StopSession] && (IsStarted(t.client.level) <==> IsStarted(s.client.level))
  {
    if IsStarted(s.client.level) { StepKeeps(s, AAnswerStop(true)); }
  }

  // the step command at CONNECTED, and the daemon back in its setup loop if it was not there yet
  function StepSent(s: State, cmd: Cmd): (t: State)
    requires Inv(s) && Enabled(s, AStep(cmd)) && s.client.level.Connected?
    ensures t.daemon.phase.Setup? && t.toDaemon == [NotifyBreakpoints, ReqResume(cmd)] && t.toClient == []
    ensures t.client.level.WaitReply? && t.client.asyncOut && t.client.posted == [] && t.client.syncWait.None?
  {
    var sent := Apply(s, AStep(cmd));
    if sent.daemon.phase.Relooping? then Apply(sent, AReloop) else sent
  }

  // ... the two messages read there
  function Rejected(s: State, cmd: Cmd): (t: State)
    requires s.daemon.phase.Setup? && s.toDaemon == [NotifyBreakpoints, ReqResume(cmd)] && s.toClient == []
    ensures t.daemon.phase.Setup? && t.toDaemon == [] && t.toClient == [UnexpectedDuringSync] && t.client == s.client && t.era == s.era
  {
    var first := SetupRead(s);
    assert first.toDaemon == [ReqResume(cmd)];
    SetupRead(first)
  }

  // ... and their answer read by the client
  function AfterRejectedStep(s: State, cmd: Cmd): (t: State)
    requires Inv(s) && Enabled(s, AStep(cmd)) && s.client.level.Connected?
    ensures t.daemon.phase.Setup? && t.toDaemon == [] && t.toClient == []
    ensures t.client.level.WaitReply? && t.client.asyncOut && t.client.posted == [] && t.client.syncWait.None?
  {
    Apply(Rejected(StepSent(s, cmd), cmd), ATimer)
  }

  // no machine action changes a state in which both sides wait on empty channels
  lemma NothingMoves(s: State, a: Action)
    requires ClientBlocked(s) && DaemonBlocked(s) && s.client.syncWait.None? && s.client.posted == []
    requires IsMachineAction(a) && Enabled(s, a)
    ensures Apply(s, a) == s
  {}

  // At CONNECTED it is worse than a rejected command: once the three messages have crossed,
  // the client waits for a message that the daemon, itself waiting, will never send.
  lemma StepAtConnectedDeadlocks(s: State, cmd: Cmd, a: Action)
    requires Inv(s) && Enabled(s, AStep(cmd)) && s.client.level.Connected?
    ensures var end := AfterRejectedStep(s, cmd);
      && end.client.level.WaitReply? && ClientBlocked(end) && DaemonBlocked(end)
      && (IsMachineAction(a) && Enabled(end, a) ==> Apply(end, a) == end)
  {
    var end := AfterRejectedStep(s, cmd);
    if IsMachineAction(a) && Enabled(end, a) { NothingMoves(end, a); }
  }

  // ------------------------------------------------ and where the cache stops being coherent

  lemma {:induction false} ExecSnoc(from: State, run: seq<Action>, s: State, a: Action)
    requires Exec(from, run) == Some(s) && Enabled(s, a) && Disciplined(s, a)
    ensures Exec(from, run + [a]) == Some(Apply(s, a))
    decreases |run|
  {
    if run == [] {
      assert run + [a] == [a] && [a][1..] == [];
      assert Exec(Apply(s, a), []) == Some(Apply(s, a));
    } else {
      assert (run + [a])[0] == run[0] && (run + [a])[1..] == run[1..] + [a];
      ExecSnoc(Apply(from, run[0]), run[1..], s, a);
    }
  }

  // some run without a reset of the project leads from one state to the other
  ghost predicate Leads(from: State, to: State) {
    exists run :: Exec(from, run) == Some(to) && AResetProject !in run
  }

  lemma LeadsNowhere(s: State)
    ensures Leads(s, s)
  {
    assert Exec(s, []) == Some(s);
  }

  lemma LeadsStep(from: State, s: State, a: Action) returns (t: State)
    requires Leads(from, s) && Enabled(s, a) && Disciplined(s, a) && !a.AResetProject?
    ensures t == Apply(s, a) && Leads(from, t)
  {
    t := Apply(s, a);
    var run :| Exec(from, run) == Some(s) && AResetProject !in run;
    ExecSnoc(from, run, s, a);
    assert AResetProject !in run + [a];
  }

  lemma LeadsInv(from: State, s: State)
    requires Inv(from) && Leads(from, s)
    ensures Inv(s)
  {
    var run :| Exec(from, run) == Some(s) && AResetProject !in run;
    RunKeeps(from, run);
  }

  // a hover would show a value solved before "era", in a suspension that is over
  predicate ShowsOld(t: State, key: string, era: nat) {
    && Enabled(t, AHover(key)) && HoverHit(t.client, key).Some?
    && HoverHit(t.client, key).value.era < era && HoverHit(t.client, key).value.epoch < t.epoch
  }

  // ... now or after some run
  ghost predicate CanShowOld(r: State) {
    exists t, key :: Leads(r, t) && ShowsOld(t, key, r.era)
  }

  // values solved before "era" are flushed before the next one is shown
  predicate OldFlushed(t: State, era: nat) {
    t.era >= era && forall k | k in t.client.cache && t.client.cache[k].era < era :: t.client.lastTick < t.client.tick
  }

  lemma DispatchFlushed(c: Client, m: DaemonMsg, now: nat, era: nat)
    requires now >= era && forall k | k in c.cache && c.cache[k].era < era :: c.lastTick < c.tick
    ensures var d := Dispatch(c, m, now);
            d.lastTick == c.lastTick && d.tick == c.tick && forall k | k in d.cache && d.cache[k].era < era :: d.lastTick < d.tick
  {
  }

  lemma SameClientFlushed(s: State, t: State, era: nat)
    requires OldFlushed(s, era) && t.era >= era && t.client.cache == s.client.cache
    requires t.client.lastTick == s.client.lastTick && t.client.tick >= s.client.tick
    ensures OldFlushed(t, era)
  {
  }

  lemma TimerFlushed(s: State, era: nat)
    requires OldFlushed(s, era) && Enabled(s, ATimer)
    ensures OldFlushed(OnAsyncReadTimer(s), era)
  {
    if s.toClient != [] { DispatchFlushed(s.client.(asyncOut := false), s.toClient[0], s.era, era); }
  }

  lemma PostedFlushed(s: State, reloads: seq<Request>, era: nat)
    requires OldFlushed(s, era) && Enabled(s, APosted(reloads))
    ensures OldFlushed(ProcessPosted(s, reloads), era)
  {
    if s.client.posted[0].Incoming? {
      IncomingFlushed(s, s.client.(posted := s.client.posted[1..]), era);
    } else {
      SameClientFlushed(s, ProcessPosted(s, reloads), era);
    }
  }

  lemma IncomingFlushed(s: State, c: Client, era: nat)
    requires OldFlushed(s.(client := c), era)
    ensures OldFlushed(s.(client := OnIncoming(c, s.era)), era)
  {
    if c.queue != [] { DispatchFlushed(c.(queue := c.queue[1..]), c.queue[0], s.era, era); }
  }

  lemma StepFlushed(s: State, a: Action, era: nat)
    requires OldFlushed(s, era) && Enabled(s, a) && !a.AResetProject?
    ensures OldFlushed(Apply(s, a), era)
  {
    if IsDaemonAction(a) { DaemonKeepsClient(s, a); }
    else if a.ATimer? { TimerFlushed(s, era); }
    else if a.APosted? { PostedFlushed(s, a.reloads, era); }
    else if !a.AHover? { SameClientFlushed(s, Apply(s, a), era); }
  }

  lemma {:induction false} RunFlushed(s: State, run: seq<Action>, era: nat)
    requires OldFlushed(s, era) && AResetProject !in run && Exec(s, run).Some?
    ensures OldFlushed(Exec(s, run).value, era)
    decreases |run|
  {
    if run != [] {
      assert run[0] in run;
      StepFlushed(s, run[0], era);
      RunFlushed(Apply(s, run[0]), run[1..], era);
    }
  }

  // Everything in the cache being old, an old value can still be shown exactly if there is one and
  // the tick has not passed the one of the last flush: it comes up again when the tick gets there.
  lemma StaleLaterIff(r: State)
    requires Inv(r) && MainThreadIdle(r.client)
    requires forall k | k in r.client.cache :: r.client.cache[k].era < r.era
    ensures CanShowOld(r) <==> r.client.cache != map[] && r.client.lastTick >= r.client.tick
  {
    if r.client.cache != map[] && r.client.lastTick >= r.client.tick {
      var key :| key in r.client.cache;
      var t := RunToOld(r, key);
    } else {
      forall t, key | Leads(r, t) ensures !ShowsOld(t, key, r.era) {
        var run :| Exec(r, run) == Some(t) && AResetProject !in run;
        RunFlushed(r, run, r.era);
      }
    }
  }

  // Connecting again leaves a stale value behind exactly if the cache holds anything and no resume
  // happened since it was last flushed.
  lemma ConnectStaleIff(s: State)
    requires Inv(s) && Enabled(s, AConnect)
    ensures CanShowOld(Apply(s, AConnect)) <==> s.client.cache != map[] && s.client.lastTick >= s.client.tick
  {
    var r := Apply(s, AConnect);
    StepKeeps(s, AConnect);
    StaleLaterIff(r);
  }

  // Resetting the project sets the tick back, so whatever the cache holds can be shown again.
  lemma ResetStaleIff(s: State)
    requires Inv(s) && Enabled(s, AResetProject)
    ensures CanShowOld(Apply(s, AResetProject)) <==> s.client.cache != map[]
  {
    var r := Apply(s, AResetProject);
    StepKeeps(s, AResetProject);
    StaleLaterIff(r);
  }

  // ------------------------------------------------ the runs that show it

  predicate Rests(s: State, level: Level) {
    && s.client.level == level && s.client.connected
    && MainThreadIdle(s.client) && !s.client.asyncOut && s.client.queue == []
    && s.toDaemon == [] && s.toClient == []
  }

  predicate SameCache(s: State, t: State) {
    s.client.lastTick == t.client.lastTick && s.client.cache == t.client.cache
  }

  // Lua is paused at a breakpoint and nothing is going on
  predicate Paused(s: State) {
    Rests(s, LuaPaused) && s.daemon.phase.Listening? && s.daemon.loadError.NoLoadError?
  }

  lemma ConnectRun(from: State, s: State) returns (t: State)
    requires Leads(from, s) && Enabled(s, AConnect) && s.client.queue == []
    ensures Leads(from, t) && Rests(t, Connected) && SameCache(s, t) && t.client.tick == s.client.tick
    ensures t.daemon == FRESH_DAEMON && t.epoch == s.epoch && t.era == s.era + 1
  {
    t := LeadsStep(from, s, AConnect);
    t := LeadsStep(from, t, ASetupRead);
    t := LeadsStep(from, t, ATimer);
  }

  lemma StartRunUntilBreak(from: State, s: State) returns (t: State)
    requires Leads(from, s) && Rests(s, Connected) && s.daemon == FRESH_DAEMON
    ensures Leads(from, t) && t.client == WaitForNewMessage(s.client) && t.toDaemon == [] && t.toClient == []
    ensures t.daemon.phase == Entering([ReplyStack, NotifyScriptLoaded, NotifySuspended(false)])
    ensures t.daemon.loadError.NoLoadError? && t.epoch == s.epoch + 1 && t.era == s.era
  {
    t := LeadsStep(from, s, AStartRun(true));
    assert t.toDaemon == [NotifyBreakpoints, ReqSyncStart(true)];
    t := LeadsStep(from, t, ASetupRead);
    assert t.toDaemon == [ReqSyncStart(true)];
    t := LeadsStep(from, t, ASetupRead);
    t := LeadsStep(from, t, ALoaded);
    t := LeadsStep(from, t, AEnter(false));
  }

  predicate Awaits(s: State) {
    && s.client.level.WaitReply? && s.client.connected && s.client.asyncOut
    && MainThreadIdle(s.client) && s.client.queue == [] && s.toDaemon == [] && s.toClient == []
  }

  // what a suspension without error sends
  predicate SuspendsWith(out: seq<DaemonMsg>) {
    out != [] && out[|out| - 1] == NotifySuspended(false) && forall i :: 0 <= i < |out| - 1 ==> Passive(out[i])
  }

  // a message that leaves the client waiting is sent and read
  lemma PassiveRun(from: State, s: State) returns (t: State)
    requires Inv(from) && Leads(from, s) && Awaits(s)
    requires s.daemon.phase.Entering? && |s.daemon.phase.out| > 1 && Passive(s.daemon.phase.out[0])
    ensures Leads(from, t) && t.client == s.client && Awaits(t) && t.epoch == s.epoch && t.era == s.era
    ensures t.daemon.phase == Entering(s.daemon.phase.out[1..]) && t.daemon.loadError == s.daemon.loadError
  {
    LeadsInv(from, s);
    t := LeadsStep(from, s, AEmit);
    t := LeadsStep(from, t, ATimer);
  }

  lemma {:induction false} AnnounceRun(from: State, s: State) returns (t: State)
    requires Inv(from) && Leads(from, s) && Awaits(s)
    requires s.daemon.phase.Entering? && SuspendsWith(s.daemon.phase.out) && s.daemon.loadError.NoLoadError?
    ensures Leads(from, t) && Paused(t) && SameCache(s, t) && t.client.tick == s.client.tick
    ensures t.epoch == s.epoch && t.era == s.era
    decreases |s.daemon.phase.out|
  {
    if |s.daemon.phase.out| > 1 {
      t := PassiveRun(from, s);
      t := AnnounceRun(from, t);
    } else {
      t := SuspendRun(from, s);
    }
  }

  lemma SuspendRun(from: State, s: State) returns (t: State)
    requires Leads(from, s) && Awaits(s)
    requires s.daemon.phase == Entering([NotifySuspended(false)]) && s.daemon.loadError.NoLoadError?
    ensures Leads(from, t) && Paused(t) && SameCache(s, t) && t.client.tick == s.client.tick
    ensures t.epoch == s.epoch && t.era == s.era
  {
    t := LeadsStep(from, s, AEmit);
    t := LeadsStep(from, t, ATimer);
    assert t.client.posted == [SuspendedSynth];
    t := LeadsStep(from, t, APosted([]));
  }

  // connect, start, run into a breakpoint
  lemma ConnectAndPause(from: State, s: State) returns (t: State)
    requires Inv(from) && Leads(from, s) && Enabled(s, AConnect) && s.client.queue == []
    ensures Leads(from, t) && Paused(t) && SameCache(s, t) && t.client.tick == s.client.tick
    ensures t.epoch == s.epoch + 1 && t.era == s.era + 1
  {
    t := ConnectRun(from, s);
    t := StartRunUntilBreak(from, t);
    t := AnnounceRun(from, t);
  }

  // a step command and its two messages
  lemma ResumeRun(from: State, s: State) returns (t: State)
    requires Inv(s) && Leads(from, s) && Paused(s)
    ensures Leads(from, t) && Awaits(t) && SameCache(s, t) && t.client.tick == s.client.tick + 1
    ensures t.daemon.phase.Executing? && !t.daemon.abort && t.epoch == s.epoch && t.era == s.era
  {
    t := LeadsStep(from, s, AStep(StepLine));
    assert t.toDaemon == [NotifyBreakpoints, ReqResume(StepLine)];
    t := LeadsStep(from, t, AListenRead);
    assert t.toDaemon == [ReqResume(StepLine)];
    t := LeadsStep(from, t, AListenRead);
  }

  // one step of Lua, to the next pause
  lemma PauseAgain(from: State, s: State) returns (t: State)
    requires Inv(from) && Leads(from, s) && Paused(s)
    ensures Leads(from, t) && Paused(t) && SameCache(s, t) && t.client.tick == s.client.tick + 1
    ensures t.epoch == s.epoch + 1 && t.era == s.era
  {
    LeadsInv(from, s);
    t := ResumeRun(from, s);
    t := LeadsStep(from, t, AEnter(false));
    t := AnnounceRun(from, t);
  }

  lemma {:induction false} PauseUntil(from: State, s: State, tick: nat) returns (t: State)
    requires Inv(from) && Leads(from, s) && Paused(s) && s.client.tick <= tick
    ensures Leads(from, t) && Paused(t) && SameCache(s, t) && t.client.tick == tick
    ensures t.epoch >= s.epoch && t.era == s.era
    decreases tick - s.client.tick
  {
    t := s;
    if s.client.tick < tick {
      t := PauseAgain(from, s);
      t := PauseUntil(from, t, tick);
    }
  }

  // from anywhere: disconnect, connect, pause until the tick is that of the last flush, hover
  lemma RunToOld(r: State, key: string) returns (t: State)
    requires Inv(r) && MainThreadIdle(r.client) && key in r.client.cache && r.client.lastTick >= r.client.tick
    requires r.client.cache[key].era < r.era
    ensures Leads(r, t) && ShowsOld(t, key, r.era)
  {
    LeadsNowhere(r);
    t := r;
    if r.client.connected { t := LeadsStep(r, r, ADisconnect); }
    t := ConnectAndPause(r, t);
    t := PauseUntil(r, t, r.client.lastTick);
  }

  // hover over a variable not cached yet and let the reply arrive
  lemma HoverOnce(from: State, s: State, key: string) returns (t: State)
    requires Leads(from, s) && Paused(s) && s.client.lastTick != s.client.tick
    ensures Leads(from, t) && Paused(t) && t.client.tick == s.client.tick == t.client.lastTick
    ensures t.epoch == s.epoch && t.era == s.era && t.client.cache == map[key := Solved(s.era, s.epoch)]
  {
    t := AskRun(from, s, key);
    t := AnswerRun(from, t, key);
  }

  // the request goes out and is answered
  lemma AskRun(from: State, s: State, key: string) returns (t: State)
    requires Leads(from, s) && Paused(s) && s.client.lastTick != s.client.tick
    ensures Leads(from, t) && t.toDaemon == [] && t.toClient == [ReplyVars(Request(Hover, key), s.epoch)]
    ensures t.daemon.phase.Listening? && t.daemon.loadError.NoLoadError? && t.epoch == s.epoch && t.era == s.era
    ensures t.client == s.client.(lastTick := s.client.tick, cache := map[], requested := {key}, syncWait := Some(Request(Hover, key)))
  {
    t := LeadsStep(from, s, AHover(key));
    t := LeadsStep(from, t, AListenRead);
  }

  // the answer is read and put into the cache
  lemma AnswerRun(from: State, s: State, key: string) returns (t: State)
    requires Leads(from, s) && s.toDaemon == [] && s.toClient == [ReplyVars(Request(Hover, key), s.epoch)]
    requires s.client.syncWait == Some(Request(Hover, key)) && s.client.posted == [] && s.client.queue == []
    ensures Leads(from, t) && t.toDaemon == [] && t.toClient == [] && t.daemon == s.daemon && t.epoch == s.epoch && t.era == s.era
    ensures t.client == s.client.(syncWait := None, cache := s.client.cache[key := Solved(s.era, s.epoch)], requested := s.client.requested - {key})
  {
    t := LeadsStep(from, s, ASyncRead);
    assert t.client.queue == [s.toClient[0]] && t.client.posted == [Incoming];
    t := LeadsStep(from, t, APosted([]));
  }

  // The daemon tick does not move when the client disconnects and connects again, so a value
  // solved at the last suspension of one connection is shown at the first of the next.
  lemma StaleAfterReconnect(key: string) returns (s: State)
    ensures Reachable(s) && Enabled(s, AHover(key)) && HoverHit(s.client, key).Some?
    ensures HoverHit(s.client, key).value.epoch < s.epoch
  {
    InitialHolds();
    LeadsNowhere(INITIAL);
    s := ConnectAndPause(INITIAL, INITIAL);
    s := HoverOnce(INITIAL, s, key);
    s := LeadsStep(INITIAL, s, ADisconnect);
    s := ConnectAndPause(INITIAL, s);
  }

  // The session can end while the box is open: Lua is running when the user is asked, its chunk ends,
  // and the timer brings the news before the answer.
  lemma SessionEndsWhileAsked() returns (s: State)
    ensures Reachable(s) && s.client.level.Connected? && Enabled(s, AAnswerStop(true)) && !Inv(Apply(s, AAnswerStop(true)))
  {
    InitialHolds();
    LeadsNowhere(INITIAL);
    s := ConnectAndPause(INITIAL, INITIAL);
    LeadsInv(INITIAL, s);
    s := ResumeRun(INITIAL, s);
    s := AskedRun(INITIAL, s);
    LeadsInv(INITIAL, s);
    AnswerStopIff(s);
  }

  lemma AskedRun(from: State, s: State) returns (t: State)
    requires Leads(from, s) && Awaits(s) && s.daemon.phase.Executing?
    ensures Leads(from, t) && t.client.level.Connected? && t.client.asking && Drained(t.client)
  {
    t := LeadsStep(from, s, AAskStop);
    t := LeadsStep(from, t, AChunkDone);
    t := LeadsStep(from, t, AFinish);
    t := LeadsStep(from, t, ATimer);
  }
}
