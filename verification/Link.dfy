/**
 Lockstep and framing together: the client's synchronous reader clamps its reads to the size
 of the whole body, and lockstep is what keeps that from ever reading too far.
 */
module Link {
  import opened Wrappers
  import opened Session
  import opened SessionTheorems
  import opened Framing

  function Serialized(msgs: seq<DaemonMsg>, body: DaemonMsg -> seq<Byte>): seq<seq<Byte>> {
    seq(|msgs|, i requires 0 <= i < |msgs| => body(msgs[i]))
  }

  // Whenever a client is blocked in RequestReply and bytes are on the wire, they are one frame,
  // the reply's; the body loop, started after that frame's header, takes all of the body and
  // nothing else under every timing of the network.
  lemma SyncReadTakesExactlyTheReply(s: State, body: DaemonMsg -> seq<Byte>, avails: seq<nat>)
    requires Reachable(s) && s.client.syncWait.Some? && s.toClient != []
    requires forall m :: |body(m)| < MAX_BODY
    ensures var reply := body(ReplyVars(s.client.syncWait.value, s.epoch));
            var wire := Frames(Serialized(s.toClient, body));
      && wire == Frame(reply)
      && !ClientBody(wire[8..], |reply|, 0, avails).Overrun?
      && ClientBody(wire[8..], |reply|, 0, avails + [|reply|]) == Complete([])
  {
    ReplyAnswersItsRequest(s);
    var reply := body(ReplyVars(s.client.syncWait.value, s.epoch));
    var wire := Frames(Serialized(s.toClient, body));
    assert Serialized(s.toClient, body) == [reply];
    var none: seq<seq<Byte>> := [];
    assert [reply][1..] == none;
    assert Frames(none) == [];
    assert wire == Frame(reply) + [] == Frame(reply);
    assert wire[8..] == reply;
    ExactBodyIsSafe(reply, |reply|, 0, avails);
    assert (avails + [|reply|])[|avails|] == |reply|;
    ExactBodyIsSafe(reply, |reply|, 0, avails + [|reply|]);
  }
}
