/**
 Lockstep: at every moment exactly one side holds the token.  The invariant below says which,
 for every reachable state, and the theorems read the safety properties off it.
 */
module SessionProofs {
  import opened Wrappers
  import opened Session

  predicate Passive(m: DaemonMsg) {
    m.ReplyStack? || m.NotifyScriptLoaded?
  }

  predicate EndsWait(m: DaemonMsg) {
    m.ReplyPlatform? || m.NotifySyncFailed? || m.NotifySessionEnded?
  }

  // messages of one suspension: any number that leave the client waiting, then the one that wakes it
  predicate Announces(out: seq<DaemonMsg>) {
    && out != []
    && out[|out| - 1].NotifySuspended?
    && forall i :: 0 <= i < |out| - 1 ==> Passive(out[i])
  }

  // the daemon owes the client exactly one message that ends WAIT_REPLY
  predicate DaemonHoldsToken(s: State) {
    match s.daemon.phase
    case Setup =>
      || (s.toClient == [] && (s.toDaemon == [ReqPlatform]
                               || (|s.toDaemon| == 2 && s.toDaemon[0].NotifyBreakpoints? && s.toDaemon[1].ReqSyncStart?)
                               || (|s.toDaemon| == 1 && s.toDaemon[0].ReqSyncStart?)))
      || (s.toDaemon == [] && |s.toClient| == 1 && EndsWait(s.toClient[0]))
    case Relooping =>
      || (s.toDaemon == [] && s.toClient == [NotifySessionEnded])
      || (s.toClient == [] && |s.toDaemon| == 2 && s.toDaemon[0].NotifyBreakpoints? && s.toDaemon[1].ReqSyncStart?)
    case Loading => s.toDaemon == [] && s.toClient == []
    case Executing => s.toDaemon == [] && s.toClient == []
    case Finishing => s.toDaemon == [] && s.toClient == []
    case Entering(out) =>
      s.toDaemon == [] && Announces(out) && forall i :: 0 <= i < |s.toClient| ==> Passive(s.toClient[i])
    case Listening =>
      || (s.toDaemon == [] && Announces(s.toClient))
      || (s.toClient == [] && ((|s.toDaemon| == 2 && s.toDaemon[0].NotifyBreakpoints? && s.toDaemon[1].ReqResume?)
                               || (|s.toDaemon| == 1 && s.toDaemon[0].ReqResume?)))
    case Gone => s.toClient == []
  }

  // a synchronous request is being served, or nothing is in flight
  predicate ClientHoldsToken(s: State) {
    match s.client.syncWait
    case None => s.toDaemon == [] && s.toClient == []
    case Some(req) =>
      || (s.toDaemon == [ReqVars(req)] && s.toClient == [])
      || (s.toDaemon == [] && s.toClient == [ReplyVars(req, s.epoch)])
  }

  predicate Lockstep(s: State) {
    var c, d := s.client, s.daemon;
    match c.level
    case Disconnected => !c.connected && !c.asyncOut && c.syncWait.None? && c.posted == [] && d.phase.Gone? && s.toClient == []
    case Connected =>
      && c.connected && !c.asyncOut && c.syncWait.None? && c.posted == []
      && (d.phase.Setup? || d.phase.Relooping?) && s.toDaemon == [] && s.toClient == []
    case LuaPaused =>
      c.connected && !c.asyncOut && d.phase.Listening? && ClientHoldsToken(s)
    case LuaFatal =>
      c.connected && !c.asyncOut && c.syncWait.None? && d.phase.Listening? && ClientHoldsToken(s) && c.posted == [SuspendedSynth]
    case WaitReply =>
      c.connected && c.asyncOut && c.syncWait.None? && (c.posted == [] || c.posted == [StopSession]) && DaemonHoldsToken(s)
    case _ => false
  }

  // the wx queue: every queued message has an event, and a resume event stands alone
  predicate PostedOk(s: State) {
    var c := s.client;
    && !c.overlap
    && (c.queue != [] ==> Incoming in c.posted && c.level.LuaPaused?)
    && (forall m | m in c.queue :: m.ReplyVars? && m.epoch == s.epoch && (m.req.kind.Hover? ==> c.lastTick == c.tick))
    && (c.syncWait.Some? && c.syncWait.value.kind.Hover? ==> c.lastTick == c.tick)
    && (forall p | p in c.posted && (p.CallAfterResume? || p.StopSession?) :: c.posted == [p] && c.queue == [] && c.syncWait.None?)
    && (forall p | p in c.posted && p.CallAfterResume? :: c.level.LuaPaused? && !Terminates(p.cmd))
    && (forall p | p in c.posted && p.StopSession? :: c.level.LuaPaused? || c.level.WaitReply?)
    && (forall p | p in c.posted && p.SuspendedSynth? :: c.level.LuaPaused? || c.level.LuaFatal?)
    && (forall p | p in c.posted && p.Reload? :: !p.req.kind.Hover?)
  }

  // entries of the hover cache solved in this era either await a flush or are current
  predicate CacheOk(s: State) {
    var c := s.client;
    forall k | k in c.cache && c.cache[k].era == s.era ::
      && c.lastTick <= c.tick
      && (c.lastTick == c.tick ==> c.cache[k].epoch == s.epoch && (c.level.LuaPaused? || c.level.Disconnected?))
  }

  // nothing in the cache was solved in the future, and it was filled after a flush
  predicate ErasOk(s: State) {
    && (forall k | k in s.client.cache :: s.client.cache[k].era <= s.era && s.client.cache[k].epoch <= s.epoch)
    && (s.client.cache != map[] ==> s.client.lastTick >= 0)
  }

  // the abort latch and the entry lock
  predicate DaemonOk(d: Daemon) {
    && !d.assertFailed
    && (d.phase.Setup? || d.phase.Loading? ==> !d.entryLock && !d.abort && d.loadError.NoLoadError?)
    && (d.phase.Entering? || d.phase.Listening? ==> d.entryLock && !d.abort)
    && (d.phase.Executing? ==> d.loadError.NoLoadError? && (d.entryLock ==> d.abort))
    && (d.abort && (d.phase.Executing? || d.phase.Finishing?) ==> d.sinceAbort == [])
    && (d.abort && d.phase.Relooping? ==> d.sinceAbort == [NotifySessionEnded])
    && (d.abort ==> |d.sinceAbort| <= 1 && forall m | m in d.sinceAbort :: m.NotifySessionEnded?)
  }

  predicate Inv(s: State) {
    Lockstep(s) && PostedOk(s) && CacheOk(s) && ErasOk(s) && DaemonOk(s.daemon)
  }

  lemma InitialHolds()
    ensures Inv(INITIAL)
  {}

  lemma SetupReadKeeps(s: State)
    requires Inv(s) && Enabled(s, ASetupRead)
    ensures Inv(SetupRead(s))
  {}

  lemma ListenReadKeeps(s: State)
    requires Inv(s) && Enabled(s, AListenRead)
    ensures Inv(ListenRead(s))
  {}

  lemma EmitKeeps(s: State)
    requires Inv(s) && Enabled(s, AEmit)
    ensures Inv(EmitNext(s))
  {}

  lemma EnterKeeps(s: State, error: bool, loadError: LoadError)
    requires Inv(s) && (s.daemon.phase.Loading? || s.daemon.phase.Executing?)
    requires s.daemon.abort ==> s.daemon.phase.Executing?
    ensures Inv(Enter(s, error, loadError))
  {}

  // steps of Lua that enter nothing
  lemma LuaStepKeeps(s: State, a: Action)
    requires Inv(s) && Enabled(s, a)
    requires a.AInstantiate? || a.AChunkDone? || (a.ARequireFailed? && s.daemon.abort)
    ensures Inv(Apply(s, a))
  {
  }

  // steps of main()
  lemma MainStepKeeps(s: State, a: Action)
    requires Inv(s) && Enabled(s, a) && (a.ALoaded? || a.ALoadedNothing? || a.AFinish? || a.AReloop?)
    ensures Inv(Apply(s, a))
  {
  }

  lemma EnteringStepKeeps(s: State, a: Action)
    requires Inv(s) && Enabled(s, a)
    requires a.AEnter? || a.ALoadFailed? || (a.ARequireFailed? && !s.daemon.abort)
    ensures Inv(Apply(s, a))
  {
    if a.AEnter? { EnterKeeps(s, a.error, NoLoadError); }
    else if a.ALoadFailed? { EnterKeeps(s, true, StartupLoadError); }
    else { EnterKeeps(s, true, RequireLoadError); }
  }

  lemma WireStepKeeps(s: State, a: Action)
    requires Inv(s) && Enabled(s, a) && (a.ASetupRead? || a.AListenRead? || a.AEmit?)
    ensures Inv(Apply(s, a))
  {
    if a.ASetupRead? { SetupReadKeeps(s); }
    else if a.AListenRead? { ListenReadKeeps(s); }
    else { EmitKeeps(s); }
  }

  lemma DaemonStepKeeps(s: State, a: Action)
    requires Inv(s) && Enabled(s, a) && IsDaemonAction(a)
    ensures Inv(Apply(s, a))
  {
    if a.ASetupRead? || a.AListenRead? || a.AEmit? { WireStepKeeps(s, a); }
    else if a.AEnter? || a.ALoadFailed? || (a.ARequireFailed? && !s.daemon.abort) { EnteringStepKeeps(s, a); }
    else if a.ALoaded? || a.ALoadedNothing? || a.AFinish? || a.AReloop? { MainStepKeeps(s, a); }
    else { LuaStepKeeps(s, a); }
  }

  lemma DaemonKeepsClient(s: State, a: Action)
    requires Enabled(s, a) && IsDaemonAction(a)
    ensures Apply(s, a).client == s.client && Apply(s, a).era == s.era
  {
  }

  lemma TimerPassiveKeeps(s: State)
    requires Inv(s) && Enabled(s, ATimer) && s.toClient != [] && Passive(s.toClient[0])
    ensures Inv(OnAsyncReadTimer(s))
  {
  }

  lemma TimerWakesKeeps(s: State)
    requires Inv(s) && Enabled(s, ATimer) && s.toClient != [] && !Passive(s.toClient[0])
    ensures Inv(OnAsyncReadTimer(s))
  {
  }

  lemma TimerIdleKeeps(s: State)
    requires Inv(s) && Enabled(s, ATimer) && s.toClient == []
    ensures Inv(OnAsyncReadTimer(s))
  {
  }

  lemma TimerKeeps(s: State)
    requires Inv(s) && Enabled(s, ATimer)
    ensures Inv(OnAsyncReadTimer(s))
  {
    if s.toClient == [] { TimerIdleKeeps(s); }
    else if Passive(s.toClient[0]) { TimerPassiveKeeps(s); }
    else { TimerWakesKeeps(s); }
  }

  lemma SyncReadKeeps(s: State)
    requires Inv(s) && Enabled(s, ASyncRead)
    ensures Inv(Apply(s, ASyncRead))
  {}

  // what is queued is a reply of the current suspension, to a client that is paused
  lemma QueuedReply(s: State)
    requires Inv(s) && s.client.queue != []
    ensures s.client.level.LuaPaused? && s.client.connected && !s.client.asyncOut && s.daemon.phase.Listening?
    ensures var m := s.client.queue[0];
            m.ReplyVars? && m.epoch == s.epoch && (m.req.kind.Hover? ==> s.client.lastTick == s.client.tick)
  {
    assert s.client.queue[0] in s.client.queue;
  }

  lemma IncomingKeeps(s: State)
    requires Inv(s) && s.client.syncWait.None? && s.client.posted != [] && s.client.posted[0].Incoming?
    ensures Inv(ProcessPosted(s, []))
  {
    var t := ProcessPosted(s, []);
    var c := s.client.(posted := s.client.posted[1..]);
    assert s.client.posted == [Incoming] + c.posted;
    if c.queue == [] {
      assert t == s.(client := c);
      assert forall p | p in c.posted :: p in s.client.posted;
    } else {
      QueuedReply(s);
      IncomingKeepsQueue(s, c, t);
      IncomingKeepsCache(s, c, t);
    }
  }

  lemma IncomingKeepsQueue(s: State, c: Client, t: State)
    requires Inv(s) && s.client.syncWait.None? && s.client.posted == [Incoming] + c.posted
    requires c == s.client.(posted := c.posted) && c.queue != [] && t == s.(client := OnIncoming(c, s.era))
    requires c.level.LuaPaused? && c.queue[0].ReplyVars?
    ensures Lockstep(t) && PostedOk(t)
  {
    var rest := c.queue[1..];
    assert forall m | m in rest :: m in s.client.queue;
    assert t.client.queue == rest && t.client.posted == c.posted + if rest != [] then [Incoming] else [];
    assert forall p | p in t.client.posted :: p == Incoming || p in s.client.posted;
    assert forall p | p in s.client.posted :: !p.CallAfterResume? && !p.StopSession?;
  }

  lemma IncomingKeepsCache(s: State, c: Client, t: State)
    requires Inv(s) && c == s.client.(posted := c.posted) && c.queue != [] && t == s.(client := OnIncoming(c, s.era))
    requires c.level.LuaPaused? && c.queue[0].ReplyVars? && c.queue[0].epoch == s.epoch
    requires c.queue[0].req.kind.Hover? ==> c.lastTick == c.tick
    ensures CacheOk(t) && ErasOk(t)
  {
    var m := c.queue[0];
    if m.req.kind.Hover? {
      assert t.client.cache == c.cache[m.req.key := Solved(s.era, s.epoch)];
    } else {
      assert t.client.cache == c.cache;
    }
  }

  lemma SynthKeeps(s: State, reloads: seq<Request>)
    requires Inv(s) && Enabled(s, APosted(reloads)) && s.client.posted[0].SuspendedSynth?
    ensures Inv(ProcessPosted(s, reloads))
  {
    var t := ProcessPosted(s, reloads);
    var rest := s.client.posted[1..];
    assert s.client.posted == [SuspendedSynth] + rest;
    assert forall p | p in rest :: p in s.client.posted;
    assert forall p | p in t.client.posted :: p in rest || (p.Reload? && p.req in reloads);
    assert s.client.queue != [] ==> Incoming in rest;
    assert forall p | p in rest :: p in t.client.posted;
  }

  lemma ReloadKeeps(s: State)
    requires Inv(s) && s.client.syncWait.None? && s.client.posted != [] && s.client.posted[0].Reload?
    ensures Inv(ProcessPosted(s, []))
  {
    var rest := s.client.posted[1..];
    assert s.client.posted == [s.client.posted[0]] + rest;
    assert forall p | p in rest :: p in s.client.posted;
    assert s.client.posted[0] in s.client.posted;
    assert s.client.queue != [] ==> Incoming in rest;
  }

  lemma PostedResumeKeeps(s: State)
    requires Inv(s) && s.client.syncWait.None? && s.client.posted != []
    requires s.client.posted[0].CallAfterResume? || s.client.posted[0].StopSession?
    ensures Inv(ProcessPosted(s, []))
  {
    assert s.client.posted[0] in s.client.posted;
    assert s.client.posted[1..] == [];
  }

  lemma PostedKeeps(s: State, reloads: seq<Request>)
    requires Inv(s) && Enabled(s, APosted(reloads))
    ensures Inv(Apply(s, APosted(reloads)))
  {
    match s.client.posted[0]
    case Incoming => IncomingKeeps(s);
    case SuspendedSynth => SynthKeeps(s, reloads);
    case Reload(_) => ReloadKeeps(s);
    case _ => PostedResumeKeeps(s);
  }

  lemma ConnectionInputKeeps(s: State, a: Action)
    requires Inv(s) && Enabled(s, a)
    requires a.AConnect? || a.ADisconnect? || a.AResetProject?
    ensures Inv(Apply(s, a))
  {}

  lemma ResumeInputKeeps(s: State, a: Action)
    requires Inv(s) && Enabled(s, a) && Disciplined(s, a)
    requires a.AStartRun? || a.AStep? || a.AStop? || a.AAskStop? || a.AAnswerStop?
    ensures Inv(Apply(s, a))
  {}

  lemma RequestInputKeeps(s: State, a: Action)
    requires Inv(s) && Enabled(s, a)
    requires a.AReload? || a.AHover?
    ensures Inv(Apply(s, a))
  {}

  lemma StepKeeps(s: State, a: Action)
    requires Inv(s) && Enabled(s, a) && Disciplined(s, a)
    ensures Inv(Apply(s, a))
  {
    if IsDaemonAction(a) { DaemonStepKeeps(s, a); }
    else if a.ATimer? { TimerKeeps(s); }
    else if a.ASyncRead? { SyncReadKeeps(s); }
    else if a.APosted? { PostedKeeps(s, a.reloads); }
    else if a.AReload? || a.AHover? { RequestInputKeeps(s, a); }
    else if a.AConnect? || a.ADisconnect? || a.AResetProject? { ConnectionInputKeeps(s, a); }
    else { ResumeInputKeeps(s, a); }
  }
}
