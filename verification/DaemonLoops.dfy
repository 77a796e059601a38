/**
 The daemon's two reading loops as the program has them, each proved to take the steps of
 Session.dfy until it leaves the loop or has nothing left to read.  A read that would block ends
 the method; the next call goes on from there.
 */
module DaemonLoops {
  import opened Wrappers
  import opened Session
  import opened SessionProofs

  // the setup loop until a startup is accepted or the channel is empty
  function SetupAll(s: State): State
    decreases |s.toDaemon|
  {
    if s.daemon.phase.Setup? && s.toDaemon != [] then SetupAll(SetupRead(s)) else s
  }

  // the listen loop until a resume is obeyed or the channel is empty
  function ListenAll(s: State): State
    decreases |s.toDaemon|
  {
    if s.daemon.phase.Listening? && s.toDaemon != [] then ListenAll(ListenRead(s)) else s
  }

  lemma ListenStep(s: State)
    requires s.daemon.phase.Listening? && s.toDaemon != []
    ensures ListenAll(s) == ListenAll(ListenRead(s))
    ensures !ListenRead(s).daemon.phase.Listening? ==> ListenAll(s) == ListenRead(s)
  {
  }

  // what one suspension sends before it listens
  function EmitAll(s: State): State
    decreases if s.daemon.phase.Entering? then |s.daemon.phase.out| else 0
  {
    if s.daemon.phase.Entering? && s.daemon.phase.out != [] then EmitAll(EmitNext(s)) else s
  }

  // A suspension announces the stack, the scripts loaded since the last one if there are any, and
  // itself, and then listens.
  lemma SuspensionAnnounces(s: State, error: bool, loadError: LoadError)
    requires !s.daemon.abort
    ensures var t := EmitAll(Enter(s, error, loadError));
            && t.toClient == s.toClient + ([ReplyStack] + (if s.daemon.scripts then [NotifyScriptLoaded] else []) + [NotifySuspended(error)])
            && t.daemon.phase.Listening? && !t.daemon.scripts && t.daemon.loadError == loadError
            && t.epoch == s.epoch + 1 && t.client == s.client
  {
    var entered := Enter(s, error, loadError);
    EmitAllIs(entered);
  }

  lemma {:induction false} EmitAllIs(s: State)
    requires s.daemon.phase.Entering? && s.daemon.phase.out != []
    ensures var t := EmitAll(s);
            && t.toClient == s.toClient + s.daemon.phase.out && t.daemon.phase.Listening?
            && t.daemon.scripts == s.daemon.scripts && t.daemon.loadError == s.daemon.loadError
            && t.epoch == s.epoch && t.client == s.client
    decreases |s.daemon.phase.out|
  {
    var out := s.daemon.phase.out;
    if |out| > 1 {
      EmitAllIs(EmitNext(s));
      assert s.toClient + [out[0]] + out[1..] == s.toClient + out;
    }
  }

  // what a read that fails does: DoInternalAbort with a network error while suspended, the end of
  // the process during setup
  function CutOff(s: State): State {
    if s.daemon.phase.Setup? then s.(daemon := s.daemon.(phase := Gone))
    else if !s.daemon.phase.Listening? then s
    else
      var d := s.daemon.(abort := true, sinceAbort := []);
      match d.loadError
      case NoLoadError => s.(daemon := d.(phase := Executing))   // by longjmp, the lock stays
      case StartupLoadError => s.(daemon := d.(phase := Finishing, entryLock := false))
      case RequireLoadError => s.(daemon := d.(phase := Gone))
  }

  // a session whose abort flag is set
  predicate Latched(d: Session.Daemon) {
    && d.abort && !d.assertFailed
    && match d.phase
       case Executing => d.sinceAbort == []
       case Finishing => d.sinceAbort == []
       case Relooping => d.sinceAbort == [NotifySessionEnded]
       case Gone => d.sinceAbort == [] || d.sinceAbort == [NotifySessionEnded]
       case _ => false
  }

  predicate DaemonRun(run: seq<Action>) {
    forall a | a in run :: IsDaemonAction(a) && !a.AReloop?
  }

  lemma {:induction false} LatchedRun(s: State, run: seq<Action>)
    requires Latched(s.daemon) && DaemonRun(run) && Exec(s, run).Some?
    ensures Latched(Exec(s, run).value.daemon) && Exec(s, run).value.epoch == s.epoch
    decreases |run|
  {
    if run != [] {
      assert run[0] in run;
      LatchedRun(Apply(s, run[0]), run[1..]);
    }
  }

  // After a lost link the abort latch is set like after END_SESSION: whatever Lua and the daemon do
  // until the session loop comes round, nothing suspends again, no entry assertion fails, and at most
  // the end of the session is announced.
  lemma CutOffIsFinal(s: State, run: seq<Action>)
    requires DaemonOk(s.daemon) && s.daemon.phase.Listening?
    requires DaemonRun(run) && Exec(CutOff(s), run).Some?
    ensures Latched(Exec(CutOff(s), run).value.daemon) && Exec(CutOff(s), run).value.epoch == s.epoch
  {
    LatchedRun(CutOff(s), run);
  }

  // The loops make no step that a run could not make.
  lemma {:induction false} SetupAllRuns(s: State) returns (run: seq<Action>)
    ensures Exec(s, run) == Some(SetupAll(s)) && |run| <= |s.toDaemon|
    ensures forall a | a in run :: a.ASetupRead?
    decreases |s.toDaemon|
  {
    run := [];
    if s.daemon.phase.Setup? && s.toDaemon != [] {
      var rest := SetupAllRuns(SetupRead(s));
      run := [ASetupRead] + rest;
      assert run[1..] == rest;
    }
  }

  lemma {:induction false} ListenAllRuns(s: State) returns (run: seq<Action>)
    ensures Exec(s, run) == Some(ListenAll(s)) && |run| <= |s.toDaemon|
    ensures forall a | a in run :: a.AListenRead?
    decreases |s.toDaemon|
  {
    run := [];
    if s.daemon.phase.Listening? && s.toDaemon != [] {
      var rest := ListenAllRuns(ListenRead(s));
      run := [AListenRead] + rest;
      assert run[1..] == rest;
    }
  }

  class Daemon {
    var entryLock: bool                // m_EntryRecurseLock
    var abort: bool                    // m_AbortLevel is set
    var loadError: LoadError           // m_LastLuaError
    var scripts: bool                  // m_FileNotificationQueue is not empty
    var resumeCommand: Option<Cmd>     // m_ResumeCommand; None is IDLE
    var toDaemon: seq<ClientMsg>
    var toClient: seq<DaemonMsg>
    // history
    var epoch: nat
    ghost var phase: Phase             // where control is
    ghost var assertFailed: bool
    ghost var sinceAbort: seq<DaemonMsg>

    ghost predicate Shows(s: State)
      reads this
    {
      && s.daemon == Session.Daemon(phase, entryLock, abort, loadError, scripts, assertFailed, sinceAbort)
      && s.toDaemon == toDaemon && s.toClient == toClient && s.epoch == epoch
    }

    constructor (epoch: nat)
      ensures phase == Setup && toDaemon == [] && toClient == [] && this.epoch == epoch
      ensures Session.Daemon(phase, entryLock, abort, loadError, scripts, assertFailed, sinceAbort) == FRESH_DAEMON
    {
      entryLock, abort, loadError, scripts, resumeCommand := false, false, NoLoadError, false, None;
      toDaemon, toClient, this.epoch := [], [], epoch;
      phase, assertFailed, sinceAbort := Setup, false, [];
    }

    method SendMessage(m: DaemonMsg, ghost s: State)
      requires Shows(s)
      modifies this`toClient, this`sinceAbort
      ensures Shows(Emit(s, m))
    {
      toClient := toClient + [m];
      sinceAbort := if abort then sinceAbort + [m] else [];
    }

    method ReadMessage() returns (m: ClientMsg)
      requires toDaemon != []
      modifies this`toDaemon
      ensures [m] + toDaemon == old(toDaemon)
    {
      m := toDaemon[0];
      toDaemon := toDaemon[1..];
    }

    // ---- before a session

    // "linkUp": a read waits for more when the channel is empty; otherwise it fails
    method SessionSetupLoop(linkUp: bool, ghost s: State) returns (started: bool)
      requires Shows(s) && phase.Setup?
      modifies this
      ensures Shows(if linkUp then SetupAll(s) else CutOff(SetupAll(s))) && (started <==> phase.Loading?)
    {
      ghost var t := s;
      started := false;
      while !started && toDaemon != []
        invariant Shows(t) && SetupAll(t) == SetupAll(s)
        invariant phase == if started then Loading else Setup
        decreases !started, |toDaemon|
      {
        started := SetupOnce(t);
        t := SetupRead(t);
      }
      if !started && !linkUp { phase := Gone; }
    }

    // the body of that loop
    method SetupOnce(ghost s: State) returns (started: bool)
      requires Shows(s) && phase.Setup? && toDaemon != []
      modifies this
      ensures Shows(SetupRead(s)) && phase == (if started then Loading else Setup) && |toDaemon| < |old(toDaemon)|
    {
      started := false;
      var m := ReadMessage();
      ghost var t := s.(toDaemon := s.toDaemon[1..]);
      match m
      case ReqPlatform =>
        SendMessage(ReplyPlatform, t);
      case ReqSyncStart(wellFormed) =>
        if !wellFormed {
          SendMessage(NotifySyncFailed, t);
        } else {
          started := true;
          // InitLuaHooks follows at once
          entryLock, abort, loadError := false, false, NoLoadError;
          phase := Loading;
        }
      case NotifyBreakpoints =>
      case _ =>
        SendMessage(UnexpectedDuringSync, t);
    }

    // ---- suspended

    // what DispatchMessage has done when it comes back from a resume command
    ghost predicate Commanded(t: State, cmd: Cmd)
      reads this
    {
      resumeCommand == Some(cmd) && Shows(t.(daemon := t.daemon.(abort := false)))
    }

    // LuaGlue::DispatchMessage; "unwound" when lua_error() jumped out of the debugger
    method DispatchMessage(m: ClientMsg, ghost s: State) returns (unwound: bool)
      requires phase.Listening? && resumeCommand.None? && s.toDaemon != [] && m == s.toDaemon[0]
      requires Shows(s.(toDaemon := s.toDaemon[1..]))
      modifies this
      ensures phase == if unwound then Executing else Listening
      ensures m.ReqResume? ==> (unwound <==> loadError.NoLoadError? && m.cmd in {Abort, EndSession})
      ensures !m.ReqResume? ==> !unwound && resumeCommand.None? && Shows(ListenRead(s))
      ensures m.ReqResume? && unwound ==> Shows(ListenRead(s))
      ensures m.ReqResume? && !unwound ==> Commanded(s.(toDaemon := s.toDaemon[1..]), m.cmd)
                                           && (loadError.NoLoadError? ==> !Terminates(m.cmd))
    {
      ghost var t := s.(toDaemon := s.toDaemon[1..]);
      unwound := false;
      match m
      case ReqResume(cmd) =>
        resumeCommand := Some(cmd);
        abort := false;
        if !loadError.NoLoadError? { return; }
        if Terminates(cmd) {
          abort := true;   // DoInternalAbort: the entry lock is not released
          sinceAbort, phase := [], Executing;
          unwound := true;
        }
      case ReqStack =>
        SendMessage(ReplyStack, t);
      case ReqVars(req) =>
        SendMessage(ReplyVars(req, epoch), t);
      case NotifyBreakpoints =>
      case _ =>
        SendMessage(UnexpectedDuringDebug, t);
        assertFailed := true;   // assert(ok) in ProcessQueue
    }

    // a resume command has been read and is still to be obeyed
    ghost predicate Pending(t: State)
      reads this
    {
      && resumeCommand.Some? && phase.Listening?
      && t.toDaemon != [] && t.toDaemon[0] == ReqResume(resumeCommand.value)
      && Commanded(t.(toDaemon := t.toDaemon[1..]), resumeCommand.value)
      && (loadError.NoLoadError? ==> !Terminates(resumeCommand.value))
    }

    // read one message, queue it to self, process the queue
    method ListenOnce(ghost s: State) returns (unwound: bool)
      requires Shows(s) && phase.Listening? && resumeCommand.None? && toDaemon != []
      modifies this
      ensures |toDaemon| < |old(toDaemon)|
      ensures unwound ==> Shows(ListenRead(s)) && phase.Executing?
      ensures !unwound && resumeCommand.None? ==> Shows(ListenRead(s)) && phase.Listening?
      ensures !unwound && resumeCommand.Some? ==> Pending(s)
    {
      var m := ReadMessage();
      unwound := DispatchMessage(m, s);
    }

    method ListenLoop(linkUp: bool, ghost s: State)
      requires Shows(s) && phase.Listening? && resumeCommand.None?
      modifies this
      ensures Shows(if linkUp then ListenAll(s) else CutOff(ListenAll(s)))
    {
      ghost var t := s;
      while resumeCommand.None? && toDaemon != []
        invariant ListenAll(t) == ListenAll(s)
        invariant if resumeCommand.None? then Shows(t) && phase.Listening? else Pending(t)
        decreases |toDaemon|
      {
        ListenStep(t);
        var unwound := ListenOnce(t);
        if unwound { return; }
        if resumeCommand.None? { t := ListenRead(t); }
      }
      LeaveLoop(linkUp, t);
    }

    // after the loop: go on waiting, abort, or obey
    method LeaveLoop(linkUp: bool, ghost t: State)
      requires if resumeCommand.None? then Shows(t) && phase.Listening? && toDaemon == [] else Pending(t)
      modifies this
      ensures Shows(if linkUp then ListenAll(t) else CutOff(ListenAll(t)))
    {
      if resumeCommand.None? {
        if !linkUp { DoInternalAbort(t); }
        return;
      }
      ListenStep(t);
      ResumeDaemon(resumeCommand.value, t);
    }

    // DoInternalAbort after a failed read
    method DoInternalAbort(ghost s: State)
      requires Shows(s) && phase.Listening?
      modifies this`abort, this`sinceAbort, this`phase, this`entryLock
      ensures Shows(CutOff(s)) && !phase.Listening? && !phase.Setup?
    {
      abort, sinceAbort := true, [];
      match loadError
      case NoLoadError =>
        phase := Executing;
      case StartupLoadError =>
        phase, entryLock := Finishing, false;
      case RequireLoadError =>
        phase := Gone;
    }

    // ResumeDaemon and the return to Lua or to the loader
    method ResumeDaemon(cmd: Cmd, ghost t: State)
      requires phase.Listening? && t.toDaemon != [] && t.toDaemon[0] == ReqResume(cmd)
      requires Commanded(t.(toDaemon := t.toDaemon[1..]), cmd) && (loadError.NoLoadError? ==> !Terminates(cmd))
      modifies this`phase, this`entryLock
      ensures Shows(ListenRead(t))
    {
      match loadError
      case NoLoadError =>
        phase, entryLock := Executing, false;
      case StartupLoadError =>
        if cmd.StepOver? || cmd.StepOut? { phase := Gone; return; }   // the stack has no valid lines
        phase, entryLock := Finishing, false;
      case RequireLoadError =>
        phase := Gone;   // OnRequireLoader's assertion
    }

    method OnDebuggerEntry(error: bool, le: LoadError, linkUp: bool, ghost s: State) returns (entered: bool)
      requires Shows(s) && (phase.Executing? || phase.Loading?)
      modifies this
      ensures entered == !s.daemon.abort
      ensures var t := ListenAll(EmitAll(Enter(s, error, le)));
              Shows(if linkUp || s.daemon.abort then t else CutOff(t))
    {
      if abort { return false; }
      Announce(error, le, s);
      ListenLoop(linkUp, EmitAll(Enter(s, error, le)));
      entered := true;
    }

    // up to the listen loop
    method Announce(error: bool, le: LoadError, ghost s: State)
      requires Shows(s) && !abort
      modifies this
      ensures Shows(EmitAll(Enter(s, error, le))) && phase.Listening? && resumeCommand.None?
    {
      var hadScripts := scripts;
      Lock(error, le, s);
      ghost var u, v := SuspensionSends(s, error, le);
      SendNext(ReplyStack, Enter(s, error, le));
      if hadScripts { SendNext(NotifyScriptLoaded, u); }
      SendNext(NotifySuspended(error), v);
    }

    method Lock(error: bool, le: LoadError, ghost s: State)
      requires Shows(s) && !abort
      modifies this`assertFailed, this`entryLock, this`loadError, this`epoch, this`phase, this`scripts, this`resumeCommand
      ensures Shows(Enter(s, error, le)) && resumeCommand.None?
    {
      assertFailed := assertFailed || entryLock;   // assert(!m_EntryRecurseLock)
      entryLock, loadError, epoch := true, le, epoch + 1;
      phase := Enter(s, error, le).daemon.phase;
      scripts, resumeCommand := false, None;
    }

    method SendNext(m: DaemonMsg, ghost s: State)
      requires Shows(s) && phase.Entering? && phase.out != [] && phase.out[0] == m
      modifies this`toClient, this`sinceAbort, this`phase
      ensures Shows(EmitNext(s))
    {
      SendMessage(m, s);
      phase := EmitNext(s).daemon.phase;
    }
  }

  // the messages of one suspension: stack, loaded scripts if any, suspended
  lemma SuspensionSends(s: State, error: bool, le: LoadError) returns (u: State, v: State)
    requires !s.daemon.abort
    ensures Enter(s, error, le).daemon.phase.Entering? && Enter(s, error, le).daemon.phase.out[..1] == [ReplyStack]
    ensures u == EmitNext(Enter(s, error, le)) && u.daemon.phase.Entering?
    ensures u.daemon.phase.out == (if s.daemon.scripts then [NotifyScriptLoaded] else []) + [NotifySuspended(error)]
    ensures v == if s.daemon.scripts then EmitNext(u) else u
    ensures v.daemon.phase == Entering([NotifySuspended(error)])
    ensures EmitAll(Enter(s, error, le)) == EmitNext(v) && EmitNext(v).daemon.phase.Listening?
  {
    var t := Enter(s, error, le);
    assert t.daemon.phase.out == [ReplyStack] + ((if s.daemon.scripts then [NotifyScriptLoaded] else []) + [NotifySuspended(error)]);
    u := EmitNext(t);
    v := if s.daemon.scripts then EmitNext(u) else u;
    assert EmitAll(t) == EmitAll(u);
    if s.daemon.scripts {
      assert u.daemon.phase.out[1..] == [NotifySuspended(error)];
      assert EmitAll(u) == EmitAll(v);
    }
    assert EmitAll(v) == EmitAll(EmitNext(v)) == EmitNext(v);
  }
}
