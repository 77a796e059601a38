/**
 The UDP log: producers append length-prefixed logs to a buffer under a mutex, a one-shot timer
 or an overfull buffer sends it off as a header datagram and a body datagram, the client splits
 bodies back into logs.  A critical section is one method call; any interleaving of producers,
 timer, network and client is a sequence of calls.
 */
module UdpLog {
  import opened Wrappers
  import opened Framing

  type Log = b: seq<Byte> | |b| < MAX_BODY

  const MAX_QUEUED_SIZE := 32767    // 65535 * 0.5, as an int
  const MAX_QUEUED_COUNT := 200

  // ---------------------------------------------------------------- the length-prefixed stream

  function Entry(log: Log): seq<Byte> {
    EncodeSize(|log|) + log
  }

  function Join(logs: seq<Log>): seq<Byte> {
    if logs == [] then [] else Join(logs[..|logs| - 1]) + Entry(logs[|logs| - 1])
  }

  lemma {:induction false} JoinAppend(a: seq<Log>, b: seq<Log>)
    ensures Join(a + b) == Join(a) + Join(b)
  {
    if b == [] {
      assert a + b == a;
    } else {
      assert (a + b)[..|a + b| - 1] == a + b[..|b| - 1];
      JoinAppend(a, b[..|b| - 1]);
    }
  }

  lemma {:induction false} JoinNonEmpty(logs: seq<Log>)
    ensures Join(logs) == [] <==> logs == []
  {}

  predicate HasEntry(b: seq<Byte>) {
    |b| >= 4 && DecodeSize(b[..4]) < MAX_BODY && DecodeSize(b[..4]) <= |b| - 4
  }

  function FirstLog(b: seq<Byte>): Log
    requires HasEntry(b)
  {
    b[4..4 + DecodeSize(b[..4])]
  }

  function AfterFirst(b: seq<Byte>): (rest: seq<Byte>)
    requires HasEntry(b)
    ensures |rest| == |b| - 4 - |FirstLog(b)|
  {
    b[4 + DecodeSize(b[..4])..]
  }

  // the splitter; None where it would step past the end of the buffer
  function Split(b: seq<Byte>): Option<seq<Log>>
    decreases |b|
  {
    if b == [] then Some([])
    else if !HasEntry(b) then None
    else
      match Split(AfterFirst(b))
      case None => None
      case Some(rest) => Some([FirstLog(b)] + rest)
  }

  lemma EntryFirst(log: Log, rest: seq<Byte>)
    ensures HasEntry(Entry(log) + rest)
    ensures FirstLog(Entry(log) + rest) == log && AfterFirst(Entry(log) + rest) == rest
  {
    var b := Entry(log) + rest;
    assert b[..4] == EncodeSize(|log|);
    DecodeEncode(|log|);
  }

  lemma FirstEntry(b: seq<Byte>)
    requires HasEntry(b)
    ensures b == Entry(FirstLog(b)) + AfterFirst(b)
  {
    EncodeDecode(b[..4]);
  }

  lemma JoinCons(log: Log, logs: seq<Log>)
    ensures Join([log] + logs) == Entry(log) + Join(logs)
  {
    var one: seq<Log> := [log];
    JoinAppend(one, logs);
    assert one[..0] == [] && Join(one) == Join([]) + Entry(log);
  }

  // The splitter inverts the encoder, and accepts nothing but encodings.
  lemma {:induction false} SplitInvertsJoin(logs: seq<Log>)
    ensures Split(Join(logs)) == Some(logs)
    decreases |logs|
  {
    if logs != [] {
      assert logs == [logs[0]] + logs[1..];
      JoinCons(logs[0], logs[1..]);
      EntryFirst(logs[0], Join(logs[1..]));
      SplitInvertsJoin(logs[1..]);
    }
  }

  lemma {:induction false} JoinInvertsSplit(b: seq<Byte>)
    requires Split(b).Some?
    ensures Join(Split(b).value) == b
    decreases |b|
  {
    if b != [] {
      FirstEntry(b);
      JoinInvertsSplit(AfterFirst(b));
      JoinCons(FirstLog(b), Split(AfterFirst(b)).value);
    }
  }

  // ---------------------------------------------------------------- the daemon's side

  // a header datagram and the body datagram that follows it
  datatype Bulk = Bulk(header: seq<Byte>, body: seq<Byte>)

  // "logs" is what a bulk message was made from
  predicate Carries(bulk: Bulk, logs: seq<Log>) {
    bulk.body == Join(logs) && bulk.header == Header(UDP_TAG, |bulk.body|) && logs != []
  }

  class ServerUDP {
    var outStream: seq<Byte>
    var cuedLogCnt: nat
    var timerCnt: nat
    ghost var buffered: seq<Log>   // the logs in outStream

    ghost predicate Valid()
      reads this
    {
      && outStream == Join(buffered)
      && cuedLogCnt == |buffered|
      && cuedLogCnt <= MAX_QUEUED_COUNT && |outStream| <= MAX_QUEUED_SIZE
      && timerCnt <= 1
      && (outStream != [] ==> timerCnt == 1)
    }

    constructor ()
      ensures Valid() && buffered == [] && timerCnt == 0
    {
      outStream, cuedLogCnt, timerCnt, buffered := [], 0, 0, [];
    }

    // DoBroadcastNetLogs, called with the mutex held
    method DoBroadcastNetLogs() returns (sent: seq<Bulk>)
      requires outStream == Join(buffered) && cuedLogCnt == |buffered|
      modifies this
      ensures outStream == [] && cuedLogCnt == 0 && buffered == [] && timerCnt == old(timerCnt)
      ensures old(buffered) == [] ==> sent == []
      ensures old(buffered) != [] ==> |sent| == 1 && Carries(sent[0], old(buffered))
    {
      JoinNonEmpty(buffered);
      sent := [];
      if outStream == [] { return; }
      sent := [Bulk(Header(UDP_TAG, |outStream|), outStream)];
      outStream, cuedLogCnt, buffered := [], 0, [];
    }

    // Either the log stays in the buffer behind a pending timer, or everything including it goes
    // out at once, in a body that exceeds the limit by no more than this log's own entry.
    method QueueLog(log: Log) returns (sent: seq<Bulk>)
      requires Valid()
      modifies this
      ensures Valid()
      ensures sent == [] ==> buffered == old(buffered) + [log] && timerCnt == 1
      ensures sent != [] ==>
                && |sent| == 1 && Carries(sent[0], old(buffered) + [log])
                && buffered == [] && timerCnt == old(timerCnt)
                && |sent[0].body| <= MAX_QUEUED_SIZE + 4 + |log|
                && (|sent[0].body| > MAX_QUEUED_SIZE || |old(buffered)| == MAX_QUEUED_COUNT)
    {
      sent := [];
      outStream := outStream + EncodeSize(|log|) + log;
      buffered := buffered + [log];
      assert buffered[..|buffered| - 1] == old(buffered);
      assert outStream == Join(buffered);
      cuedLogCnt := cuedLogCnt + 1;
      if |outStream| > MAX_QUEUED_SIZE || cuedLogCnt > MAX_QUEUED_COUNT {
        sent := DoBroadcastNetLogs();
        return;
      }
      if timerCnt == 0 {
        timerCnt := timerCnt + 1;
      }
    }

    // the asynchronous task started by QueueLog, once its sleep is over
    method TimerFires() returns (sent: seq<Bulk>)
      requires Valid() && timerCnt > 0
      modifies this
      ensures Valid() && buffered == [] && timerCnt == 0
      ensures old(buffered) == [] ==> sent == []
      ensures old(buffered) != [] ==> |sent| == 1 && Carries(sent[0], old(buffered)) && |sent[0].body| <= MAX_QUEUED_SIZE
    {
      sent := DoBroadcastNetLogs();
      timerCnt := timerCnt - 1;
    }
  }

  // ---------------------------------------------------------------- the client's side

  // Refused: false is returned; Stopped: the assertion on the body's size fails; PastEnd: the
  // splitter reads beyond the end of the buffer, which C++ leaves undefined
  datatype BulkResult = Accepted | Refused | Stopped | PastEnd

  function Outcome(bulk: Bulk): BulkResult {
    if !HeaderOk(UDP_TAG, bulk.header) then Refused
    else if BodySize(bulk.header) == 0 then Stopped
    else if |bulk.body| != BodySize(bulk.header) then Refused
    else if Split(bulk.body).None? then PastEnd
    else Accepted
  }

  class UdpClient {
    var messages: seq<Log>

    constructor ()
      ensures messages == []
    {
      messages := [];
    }

    // udp_server::ReceiveBulkMessage
    method ReceiveBulkMessage(bulk: Bulk) returns (res: BulkResult)
      modifies this
      ensures res == Outcome(bulk)
      ensures messages == if res.Accepted? then old(messages) + Split(bulk.body).value else old(messages)
    {
      if !HeaderOk(UDP_TAG, bulk.header) { return Refused; }
      if BodySize(bulk.header) == 0 { return Stopped; }
      if BodySize(bulk.header) != |bulk.body| { return Refused; }
      var submessages: seq<Log>, it := [], bulk.body;
      while it != []
        invariant Split(bulk.body).Some? <==> Split(it).Some?
        invariant Split(bulk.body).Some? ==> Split(bulk.body).value == submessages + Split(it).value
        decreases |it|
      {
        if !HasEntry(it) { return PastEnd; }
        submessages := submessages + [FirstLog(it)];
        it := AfterFirst(it);
      }
      messages := messages + submessages;
      return Accepted;
    }

    method ServiceUDPLogs() returns (buff: seq<Log>)
      modifies this
      ensures buff == old(messages) && messages == []
    {
      buff := messages;
      messages := [];
    }
  }

  // what the client checks of a bulk message, and what it makes of it
  lemma CarriedIsAccepted(bulk: Bulk, logs: seq<Log>)
    requires Carries(bulk, logs) && |bulk.body| < 0x1_0000_0000
    ensures Outcome(bulk) == Accepted && Split(bulk.body).value == logs
  {
    HeaderReadsBack(UDP_TAG, |bulk.body|);
    SplitInvertsJoin(logs);
  }

  // Nothing else is accepted: what is was made from the logs it is split into.
  lemma AcceptedWasMade(bulk: Bulk)
    requires Outcome(bulk) == Accepted
    ensures Carries(bulk, Split(bulk.body).value)
  {
    JoinInvertsSplit(bulk.body);
    EncodeDecode(bulk.header[4..8]);
    assert bulk.header == bulk.header[..4] + bulk.header[4..8];
    JoinNonEmpty(Split(bulk.body).value);
  }

  // ---------------------------------------------------------------- the whole path

  datatype Event = Produce(log: Log) | TimerFires | Deliver | Service

  function Concat(batches: seq<seq<Log>>): seq<Log> {
    if batches == [] then [] else batches[0] + Concat(batches[1..])
  }

  lemma {:induction false} ConcatSnoc(batches: seq<seq<Log>>, last: seq<Log>)
    ensures Concat(batches + [last]) == Concat(batches) + last
  {
    if batches != [] {
      assert (batches + [last])[1..] == batches[1..] + [last];
      ConcatSnoc(batches[1..], last);
    }
  }

  // the logs the events queue, in order
  function Produced(events: seq<Event>): seq<Log> {
    if events == [] then []
    else (if events[0].Produce? then [events[0].log] else []) + Produced(events[1..])
  }

  // Where every log is: serviced, held at the client, in flight batch by batch, buffered at the
  // daemon; and whether a timer is pending.
  datatype PathState = PathState(serviced: seq<Log>, held: seq<Log>, batches: seq<seq<Log>>, buffered: seq<Log>, timer: bool)

  const EMPTY_PATH := PathState([], [], [], [], false)

  // too much to stay buffered
  predicate Overfull(logs: seq<Log>) {
    |Join(logs)| > MAX_QUEUED_SIZE || |logs| > MAX_QUEUED_COUNT
  }

  function Next(st: PathState, e: Event): PathState {
    match e
    case Produce(log) =>
      var logs := st.buffered + [log];
      if Overfull(logs) then st.(batches := st.batches + [logs], buffered := [])
      else st.(buffered := logs, timer := true)
    case TimerFires =>
      if !st.timer then st
      else st.(batches := st.batches + (if st.buffered == [] then [] else [st.buffered]), buffered := [], timer := false)
    case Deliver =>
      if st.batches == [] then st else st.(held := st.held + st.batches[0], batches := st.batches[1..])
    case Service =>
      st.(serviced := st.serviced + st.held, held := [])
  }

  function After(st: PathState, events: seq<Event>): PathState
    decreases |events|
  {
    if events == [] then st else After(Next(st, events[0]), events[1..])
  }

  // every log, in order
  function AllLogs(st: PathState): seq<Log> {
    st.serviced + st.held + Concat(st.batches) + st.buffered
  }

  lemma NextKeepsLogs(st: PathState, e: Event)
    ensures AllLogs(Next(st, e)) == AllLogs(st) + if e.Produce? then [e.log] else []
  {
    match e
    case Produce(log) =>
      BatchLeaves(st.serviced + st.held, st.batches, st.buffered + [log]);
      assert AllLogs(st) + [log] == st.serviced + st.held + Concat(st.batches) + (st.buffered + [log]);
    case TimerFires =>
      BatchLeaves(st.serviced + st.held, st.batches, st.buffered);
      assert st.batches + [] == st.batches;
    case Deliver =>
      if st.batches != [] { BatchArrives(st.serviced, st.held, st.batches); }
    case Service =>
      assert st.serviced + st.held + [] == st.serviced + st.held;
  }

  lemma BatchLeaves(arrived: seq<Log>, batches: seq<seq<Log>>, logs: seq<Log>)
    ensures arrived + Concat(batches + [logs]) + [] == arrived + Concat(batches) + logs
  {
    ConcatSnoc(batches, logs);
    assert arrived + (Concat(batches) + logs) == arrived + Concat(batches) + logs;
  }

  lemma BatchArrives(serviced: seq<Log>, held: seq<Log>, batches: seq<seq<Log>>)
    requires batches != []
    ensures serviced + (held + batches[0]) + Concat(batches[1..]) == serviced + held + Concat(batches)
  {
    assert Concat(batches) == batches[0] + Concat(batches[1..]);
    assert serviced + (held + batches[0]) + Concat(batches[1..]) == serviced + held + (batches[0] + Concat(batches[1..]));
  }

  // None is lost, doubled or overtaken, whatever the interleaving.
  lemma {:induction false} LogsKept(st: PathState, events: seq<Event>)
    ensures AllLogs(After(st, events)) == AllLogs(st) + Produced(events)
    decreases |events|
  {
    if events != [] {
      NextKeepsLogs(st, events[0]);
      LogsKept(Next(st, events[0]), events[1..]);
    }
  }

  // What waits at the daemon is within the limits and has a timer behind it.
  predicate Bounded(st: PathState) {
    !Overfull(st.buffered) && (st.buffered != [] ==> st.timer)
  }

  lemma {:induction false} StaysBounded(st: PathState, events: seq<Event>)
    requires Bounded(st)
    ensures Bounded(After(st, events))
    decreases |events|
  {
    if events != [] { StaysBounded(Next(st, events[0]), events[1..]); }
  }

  function Deliveries(n: nat): seq<Event> {
    if n == 0 then [] else [Deliver] + Deliveries(n - 1)
  }

  lemma {:induction false} AfterAppend(st: PathState, a: seq<Event>, b: seq<Event>)
    ensures After(st, a + b) == After(After(st, a), b)
    decreases |a|
  {
    if a == [] {
      assert a + b == b;
    } else {
      assert (a + b)[0] == a[0] && (a + b)[1..] == a[1..] + b;
      AfterAppend(Next(st, a[0]), a[1..], b);
    }
  }

  lemma {:induction false} DeliveriesDeliver(st: PathState, n: nat)
    requires n >= |st.batches|
    ensures After(st, Deliveries(n)) == st.(held := st.held + Concat(st.batches), batches := [])
    decreases n
  {
    if n > 0 {
      var t := Next(st, Deliver);
      DeliveriesDeliver(t, n - 1);
      if st.batches != [] {
        assert st.held + Concat(st.batches) == t.held + Concat(t.batches);
      }
    }
  }

  function Draining(n: nat): seq<Event> {
    [TimerFires] + (Deliveries(n) + [Service])
  }

  lemma DrainedFrom(st: PathState, n: nat)
    requires Bounded(st) && n >= |Next(st, TimerFires).batches|
    ensures After(st, Draining(n)) == PathState(AllLogs(st), [], [], [], false)
  {
    var fired := Next(st, TimerFires);
    NextKeepsLogs(st, TimerFires);
    DeliveriesDeliver(fired, n);
    AfterAppend(fired, Deliveries(n), [Service]);
    var delivered := After(fired, Deliveries(n));
    assert Draining(n)[1..] == Deliveries(n) + [Service];
    AfterOne(delivered, Service);
    assert AllLogs(fired) == fired.serviced + (fired.held + Concat(fired.batches));
  }

  lemma AfterOne(st: PathState, e: Event)
    ensures After(st, [e]) == Next(st, e)
  {
    assert [e][1..] == [];
  }

  // Once the timer has fired, what is in flight has been delivered and the client has been
  // serviced, all logs ever queued have arrived, in order, and nothing is left on the way.
  lemma Drains(events: seq<Event>, n: nat)
    requires n >= |Next(After(EMPTY_PATH, events), TimerFires).batches|
    ensures After(EMPTY_PATH, events + Draining(n)) == PathState(Produced(events), [], [], [], false)
  {
    StaysBounded(EMPTY_PATH, events);
    LogsKept(EMPTY_PATH, events);
    AfterAppend(EMPTY_PATH, events, Draining(n));
    DrainedFrom(After(EMPTY_PATH, events), n);
    assert AllLogs(EMPTY_PATH) == [];
  }

  // "batches" are the logs of each bulk message in flight
  predicate InFlight(flight: seq<Bulk>, batches: seq<seq<Log>>) {
    |batches| == |flight|
    && forall k :: 0 <= k < |flight| ==> Carries(flight[k], batches[k]) && |flight[k].body| < 0x1_0000_0000
  }

  lemma InFlightSnoc(flight: seq<Bulk>, batches: seq<seq<Log>>, bulk: Bulk, batch: seq<Log>)
    requires InFlight(flight, batches) && Carries(bulk, batch) && |bulk.body| < 0x1_0000_0000
    ensures InFlight(flight + [bulk], batches + [batch])
    ensures Concat(batches + [batch]) == Concat(batches) + batch
  {
    ConcatSnoc(batches, batch);
  }

  lemma InFlightFirst(flight: seq<Bulk>, batches: seq<seq<Log>>)
    requires InFlight(flight, batches) && flight != []
    ensures InFlight(flight[1..], batches[1..]) && Concat(batches) == batches[0] + Concat(batches[1..])
    ensures Outcome(flight[0]) == Accepted && Split(flight[0].body).value == batches[0]
  {
    CarriedIsAccepted(flight[0], batches[0]);
  }

  // Daemon, network and client together.
  class LogPath {
    const server: ServerUDP
    const client: UdpClient
    var flight: seq<Bulk>
    var serviced: seq<Log>
    ghost var batches: seq<seq<Log>>

    ghost predicate Valid()
      reads this, server, client
    {
      server.Valid() && InFlight(flight, batches)
    }

    ghost function View(): PathState
      reads this, server, client
    {
      PathState(serviced, client.messages, batches, server.buffered, server.timerCnt > 0)
    }

    constructor ()
      ensures Valid() && View() == EMPTY_PATH && fresh(server) && fresh(client)
    {
      server := new ServerUDP();
      client := new UdpClient();
      flight, serviced, batches := [], [], [];
    }

    // a bulk message, if any, made from all of "batch" enters the network
    method Depart(sent: seq<Bulk>, ghost batch: seq<Log>)
      requires Valid()
      requires sent == [] || (|sent| == 1 && Carries(sent[0], batch) && |sent[0].body| < 0x1_0000_0000)
      modifies this
      ensures Valid() && serviced == old(serviced)
      ensures batches == old(batches) + if sent == [] then [] else [batch]
    {
      if sent != [] {
        InFlightSnoc(flight, batches, sent[0], batch);
        flight, batches := flight + [sent[0]], batches + [batch];
      }
    }

    method OnProduce(log: Log)
      requires Valid()
      modifies this, server
      ensures Valid() && View() == Next(old(View()), Produce(log))
    {
      ghost var batch := server.buffered + [log];
      var sent := server.QueueLog(log);
      Depart(sent, batch);
    }

    method OnTimer()
      requires Valid()
      modifies this, server
      ensures Valid() && View() == Next(old(View()), TimerFires)
    {
      if server.timerCnt > 0 {
        ghost var batch := server.buffered;
        var sent := server.TimerFires();
        Depart(sent, batch);
      }
    }

    method OnDeliver()
      requires Valid()
      modifies this, client
      ensures Valid() && View() == Next(old(View()), Deliver)
    {
      if flight != [] {
        InFlightFirst(flight, batches);
        var res := client.ReceiveBulkMessage(flight[0]);
        flight, batches := flight[1..], batches[1..];
      }
    }

    method OnService()
      requires Valid()
      modifies this, client
      ensures Valid() && View() == Next(old(View()), Service)
    {
      var buff := client.ServiceUDPLogs();
      serviced := serviced + buff;
    }

    method OnEvent(e: Event)
      requires Valid()
      modifies this, server, client
      ensures Valid() && View() == Next(old(View()), e)
    {
      match e {
        case Produce(log) => OnProduce(log);
        case TimerFires => OnTimer();
        case Deliver => OnDeliver();
        case Service => OnService();
      }
    }
  }

  // Any interleaving, over a network that delivers in order: every log is where the events have
  // brought it, and all of them, taken in order, are the logs queued.
  method Run(events: seq<Event>) returns (path: LogPath)
    ensures path.Valid() && path.View() == After(EMPTY_PATH, events)
    ensures AllLogs(path.View()) == Produced(events) && Bounded(path.View())
  {
    path := new LogPath();
    var i := 0;
    assert events[0..] == events;
    while i < |events|
      invariant 0 <= i <= |events|
      invariant fresh(path) && fresh(path.server) && fresh(path.client)
      invariant path.Valid() && After(path.View(), events[i..]) == After(EMPTY_PATH, events)
    {
      assert events[i..][1..] == events[i + 1..];
      path.OnEvent(events[i]);
      i := i + 1;
    }
    LogsKept(EMPTY_PATH, events);
    StaysBounded(EMPTY_PATH, events);
  }
}
