/** Source-routed messages between trace-router sockets (mq_portal.c, mq_zmq.c, mq_helpers.c, mq_msg.c).

    A message is a list of frames: the hops still to visit, an empty frame, the command, and behind it
    the senders it has come through. A ROUTER socket takes the first frame as the destination and puts
    the sender in front on arrival; the trace router moves the sender to the end. */
module MqRouting {

  type Frame = seq<nat>
  type Msg = seq<Frame>

  const VERSION: Frame := [76, 77, 81, 118, 49, 48, 48]
  const PING: Frame := [1]
  const PONG: Frame := [2]
  const EXEC: Frame := [3]
  const TRACKEXEC: Frame := [4]
  const TRACKADDRESS: Frame := [5]
  const RESPONSE: Frame := [6]
  const BAR: nat := 124
  const EMPTY: Frame := []

  // ---------------------------------------------------------------- one hop

  /** The part of a first frame that names the destination */
  function IdOf(f: Frame): (id: Frame) {
    if f == [] || f[0] == BAR then [] else [f[0]] + IdOf(f[1..])
  }

  function IdsOf(fs: Msg): (ids: Msg)
    ensures |ids| == |fs| && forall i :: 0 <= i < |fs| ==> ids[i] == IdOf(fs[i])
  {
    if fs == [] then [] else [IdOf(fs[0])] + IdsOf(fs[1..])
  }

  lemma {:induction false} IdIsWholeIff(f: Frame)
    ensures IdOf(f) == f <==> BAR !in f
    ensures IdOf(f) <= f
  {
    if f != [] && f[0] != BAR {
      IdIsWholeIff(f[1..]);
      assert f == [f[0]] + f[1..];
    }
  }

  /** `mq_id_bytes` */
  method IdBytes(host: Frame) returns (i: nat)
    requires host != []
    ensures i <= |host| && host[..i] == IdOf(host)
  {
    i := 0;
    ghost var head := [];
    assert head + IdOf(host[0..]) == IdOf(host) by { assert host[0..] == host; }
    while i < |host|
      invariant i <= |host| && head == host[..i] && head + IdOf(host[i..]) == IdOf(host)
    {
      if host[i] == BAR { break; }
      assert host[i..][1..] == host[i + 1..];
      head := head + [host[i]];
      i := i + 1;
    }
  }

  /** A message sent by a socket called `from`, as the trace router at the other end hands it on: the
      destination is consumed and the sender goes to the end. */
  function Hop(msg: Msg, from: Frame): (r: Msg)
    requires msg != []
  {
    msg[1..] + [from]
  }

  /** A message is forwarded until its first frame is empty. The result is the sequence of destinations
      visited and the message as it is then. `senders` are the names it is sent under, hop by hop. */
  function Travel(msg: Msg, senders: Msg): (r: (Msg, Msg))
    decreases |senders|
  {
    if senders == [] || msg == [] || msg[0] == EMPTY then ([], msg)
    else
      var rest := Travel(Hop(msg, senders[0]), senders[1..]);
      ([IdOf(msg[0])] + rest.0, rest.1)
  }

  ghost predicate NonEmpty(fs: Msg) { forall i :: 0 <= i < |fs| ==> fs[i] != EMPTY }

  /** A message with a list of hops in front visits just those, in order, and arrives with the senders
      behind it, first sender first. */
  lemma {:induction false} TravelVisits(hops: Msg, body: Msg, senders: Msg)
    requires NonEmpty(hops) && body != [] && body[0] == EMPTY && |senders| >= |hops|
    ensures Travel(hops + body, senders) == (IdsOf(hops), body + senders[..|hops|])
    decreases |hops|
  {
    var msg := hops + body;
    if hops != [] {
      var s := senders[0];
      assert Hop(msg, s) == hops[1..] + (body + [s]);
      assert NonEmpty(hops[1..]) by {
        forall i | 0 <= i < |hops[1..]| ensures hops[1..][i] != EMPTY { assert hops[1..][i] == hops[i + 1]; }
      }
      TravelVisits(hops[1..], body + [s], senders[1..]);
      assert senders[..|hops|] == [s] + senders[1..][..|hops| - 1];
      assert body + [s] + senders[1..][..|hops| - 1] == body + senders[..|hops|];
      assert msg[0] == hops[0] != EMPTY;
    } else {
      assert msg == body;
      assert senders == [] || msg[0] == EMPTY;
      assert body + senders[..0] == body;
    }
  }

  // ---------------------------------------------------------------- building messages

  function Reversed(fs: Msg): (r: Msg)
    ensures |r| == |fs| && forall i :: 0 <= i < |fs| ==> r[i] == fs[|fs| - 1 - i]
  {
    if fs == [] then [] else Reversed(fs[1..]) + [fs[0]]
  }

  lemma ReversedSnoc(fs: Msg, i: nat, tail: Msg)
    requires i < |fs|
    ensures Reversed(fs[..i + 1]) + tail == [fs[i]] + (Reversed(fs[..i]) + tail)
  {
    assert Reversed(fs[..i + 1]) == [fs[i]] + Reversed(fs[..i]);
  }

  /** `mq_msg_t`: a list of frames with a current position, changed in place */
  class Message {
    var frames: Msg

    constructor ()
      ensures frames == []
    {
      frames := [];
    }

    /** `mq_msg_pop`; there is no frame in an empty message. */
    method Pop() returns (ok: bool, f: Frame)
      modifies this
      ensures ok == (old(frames) != [])
      ensures ok ==> f == old(frames)[0] && frames == old(frames)[1..]
      ensures !ok ==> frames == []
    {
      ok, f := frames != [], [];
      if ok {
        f := frames[0];
        frames := frames[1..];
      }
    }

    method Push(f: Frame)
      modifies this
      ensures frames == [f] + old(frames)
    {
      frames := [f] + frames;
    }

    method Append(f: Frame)
      modifies this
      ensures frames == old(frames) + [f]
    {
      frames := frames + [f];
    }

    /** `zero_trace_router_recv`: the sender moves from the front to the end. */
    method ReceiveFrom(from: Frame, sent: Msg)
      requires frames == [] && sent != []
      modifies this
      ensures frames == Hop(sent, from)
    {
      frames := [from] + sent[1..];
      var ok, f := Pop();
      Append(f);
    }

    /** `gop_mq_remove_header` */
    method RemoveHeader(dropExtra: nat)
      requires |frames| >= 3 + dropExtra
      modifies this
      ensures frames == old(frames)[3 + dropExtra..]
    {
      var ok, f := Pop();
      ok, f := Pop();
      ok, f := Pop();
      for i := 0 to dropExtra
        invariant frames == old(frames)[3 + i..]
      {
        ok, f := Pop();
      }
    }
  }

  /** `gop_mq_msg_apply_return_address`. With `dup` the address is copied, otherwise it is used up. */
  method ApplyReturnAddress(msg: Message, raw: Message, dup: bool)
    requires msg != raw
    modifies msg, raw
    ensures msg.frames == Reversed(old(raw.frames)) + old(msg.frames)
    ensures raw.frames == if dup then old(raw.frames) else []
  {
    ghost var all, tail := raw.frames, msg.frames;
    var i := 0;
    assert all[..0] == [];
    while if dup then i < |raw.frames| else raw.frames != []
      invariant 0 <= i <= |all|
      invariant raw.frames == if dup then all else all[i..]
      invariant msg.frames == Reversed(all[..i]) + tail
      decreases |all| - i
    {
      ReversedSnoc(all, i, tail);
      var ok, f := true, [];
      if dup { f := raw.frames[i]; } else { ok, f := raw.Pop(); }
      assert f == all[i];
      msg.Push(f);
      i := i + 1;
    }
    assert all[..|all|] == all;
  }

  /** `gop_mq_make_exec_core_msg` with the rest of a request behind it */
  function Request(hops: Msg, track: bool, id: Frame, payload: Msg): (msg: Msg) {
    hops + [EMPTY, VERSION, if track then TRACKEXEC else EXEC, id] + payload + [EMPTY]
  }

  /** `gop_mq_make_exec_core_msg`, the address copied frame by frame in front */
  method MakeExec(address: Msg, track: bool, id: Frame) returns (msg: Message)
    ensures fresh(msg) && forall payload :: msg.frames + payload + [EMPTY] == Request(address, track, id, payload)
    ensures msg.frames == address + [EMPTY, VERSION, if track then TRACKEXEC else EXEC, id]
  {
    msg := new Message();
    for i := 0 to |address|
      invariant fresh(msg) && msg.frames == address[..i]
    {
      msg.Append(address[i]);
    }
    msg.Append(EMPTY);
    msg.Append(VERSION);
    msg.Append(if track then TRACKEXEC else EXEC);
    msg.Append(id);
    assert msg.frames == address + [EMPTY, VERSION, if track then TRACKEXEC else EXEC, id];
  }

  /** What a response to the return address `raw` looks like, with its results behind it */
  function Response(raw: Msg, id: Frame, results: Msg): (msg: Msg) {
    Reversed(raw) + [VERSION, RESPONSE, id] + results + [EMPTY]
  }

  /** `gop_mq_make_response_core_msg` */
  method MakeResponse(address: Message, id: Frame) returns (response: Message)
    modifies address
    ensures fresh(response) && address.frames == []
    ensures response.frames + [EMPTY] == Response(old(address.frames), id, [])
  {
    response := new Message();
    response.Append(VERSION);
    response.Append(RESPONSE);
    response.Append(id);
    ApplyReturnAddress(response, address, false);
  }

  function TrackResponse(host: Frame, raw: Msg, id: Frame): (msg: Msg)
    requires |raw| >= 2
  {
    Reversed(raw) + [VERSION, TRACKADDRESS, id] + raw[2..] + [host, EMPTY]
  }

  /** `gop_mq_msg_trackaddress` */
  method MakeTrackAddress(host: Frame, raw: Message, id: Frame, dup: bool) returns (track: Message)
    requires |raw.frames| >= 2
    modifies raw
    ensures fresh(track)
    ensures track.frames == TrackResponse(host, old(raw.frames), id)
    ensures raw.frames == if dup then old(raw.frames) else []
  {
    track := new Message();
    track.Append(VERSION);
    track.Append(TRACKADDRESS);
    track.Append(id);
    for i := 2 to |raw.frames|
      invariant raw.frames == old(raw.frames)
      invariant track.frames == [VERSION, TRACKADDRESS, id] + raw.frames[2..i]
    {
      track.Append(raw.frames[i]);
    }
    track.Append(host);
    track.Append(EMPTY);
    ApplyReturnAddress(track, raw, dup);
  }

  /** The frames up to the first empty one, with it */
  function UpToEmpty(fs: Msg): (r: Msg) {
    if fs == [] then [] else if fs[0] == EMPTY then [EMPTY] else [fs[0]] + UpToEmpty(fs[1..])
  }

  lemma {:induction false} UpToEmptyIs(a: Msg, b: Msg)
    requires NonEmpty(a)
    ensures UpToEmpty(a + [EMPTY] + b) == a + [EMPTY]
    decreases |a|
  {
    var fs := a + [EMPTY] + b;
    if a != [] {
      assert fs[1..] == a[1..] + [EMPTY] + b;
      assert NonEmpty(a[1..]) by {
        forall i | 0 <= i < |a[1..]| ensures a[1..][i] != EMPTY { assert a[1..][i] == a[i + 1]; }
      }
      UpToEmptyIs(a[1..], b);
      assert fs[0] == a[0];
    } else {
      assert fs == [EMPTY] + b;
    }
  }

  /** The heartbeat message that `mqc_trackaddress` keeps */
  function PingMessage(track: Msg, lutId: Frame): (msg: Msg)
    requires |track| >= 4
  {
    UpToEmpty(track[4..]) + [VERSION, PING, lutId, EMPTY]
  }

  /** The part of `mqc_trackaddress` that turns the message into a heartbeat */
  method MakePing(msg: Message, lutId: Frame)
    requires |msg.frames| >= 4 && EMPTY in msg.frames[4..]
    modifies msg
    ensures msg.frames == PingMessage(old(msg.frames), lutId)
  {
    msg.RemoveHeader(1);
    var i := FindEmpty(msg.frames);
    // The address ends with the empty frame; what comes behind it is dropped.
    msg.frames := msg.frames[..i + 1];
    msg.Append(VERSION);
    msg.Append(PING);
    msg.Append(lutId);
    msg.Append(EMPTY);
  }

  method FindEmpty(fs: Msg) returns (i: nat)
    requires EMPTY in fs
    ensures i < |fs| && fs[..i + 1] == UpToEmpty(fs)
  {
    i := 0;
    ghost var end :| 0 <= end < |fs| && fs[end] == EMPTY;
    while fs[i] != EMPTY
      invariant i <= end && NonEmpty(fs[..i])
      decreases end - i
    {
      i := i + 1;
    }
    assert fs == fs[..i] + [EMPTY] + fs[i + 1..];
    UpToEmptyIs(fs[..i], fs[i + 1..]);
  }

  function PongMessage(ping: Msg): (msg: Msg)
    requires |ping| >= 4
  {
    Reversed(ping[4..]) + [VERSION, PONG, ping[3], EMPTY]
  }

  /** `mqc_ping` */
  method MakePong(msg: Message) returns (pong: Message)
    requires |msg.frames| >= 4
    modifies msg
    ensures fresh(pong) && pong.frames == PongMessage(old(msg.frames))
  {
    var ok, f := msg.Pop();
    ok, f := msg.Pop();
    ok, f := msg.Pop();
    var pid;
    ok, pid := msg.Pop();
    pong := new Message();
    ApplyReturnAddress(pong, msg, false);
    pong.Append(VERSION);
    pong.Append(PONG);
    pong.Append(pid);
    pong.Append(EMPTY);
  }

  // ---------------------------------------------------------------- round trips

  /** The return address left in a request when the command has been taken off its front */
  function ReturnAddress(arrived: Msg, taken: nat): (raw: Msg)
    requires taken <= |arrived|
  {
    arrived[taken..]
  }

  lemma ArrivedParts(command: Frame, id: Frame, payload: Msg, senders: Msg)
    ensures var r := [EMPTY, VERSION, command, id] + payload + [EMPTY] + senders;
            && |r| >= 4 + |payload| && r[3] == id && r[4..4 + |payload|] == payload
            && r[4 + |payload|..] == [EMPTY] + senders
  {
  }

  lemma RequestArrives(hops: Msg, track: bool, id: Frame, payload: Msg, senders: Msg)
    requires NonEmpty(hops) && |senders| == |hops|
    ensures var r := Travel(Request(hops, track, id, payload), senders);
            && r.0 == IdsOf(hops)
            && |r.1| >= 4 + |payload| && r.1[3] == id && r.1[4..4 + |payload|] == payload
            && ReturnAddress(r.1, 4 + |payload|) == [EMPTY] + senders
  {
    var command := if track then TRACKEXEC else EXEC;
    var body := [EMPTY, VERSION, command, id] + payload + [EMPTY];
    assert Request(hops, track, id, payload) == hops + body;
    TravelVisits(hops, body, senders);
    assert senders[..|hops|] == senders;
    ArrivedParts(command, id, payload, senders);
  }

  lemma ReversedRaw(senders: Msg)
    ensures Reversed([EMPTY] + senders) == Reversed(senders) + [EMPTY]
  {
    assert ([EMPTY] + senders)[1..] == senders;
  }

  lemma ReversedNonEmpty(senders: Msg)
    requires NonEmpty(senders)
    ensures NonEmpty(Reversed(senders))
  {
  }

  /** A message that starts with a return address goes back over the same hops, last first, and arrives
      as a command with what followed the address. */
  lemma ReturnTravels(senders: Msg, rest: Msg, back: Msg)
    requires NonEmpty(senders) && |back| == |senders|
    ensures Travel(Reversed([EMPTY] + senders) + rest, back) == (IdsOf(Reversed(senders)), [EMPTY] + rest + back)
  {
    ReversedRaw(senders);
    ReversedNonEmpty(senders);
    var body := [EMPTY] + rest;
    assert Reversed([EMPTY] + senders) + rest == Reversed(senders) + body;
    TravelVisits(Reversed(senders), body, back);
    assert back[..|senders|] == back;
  }

  /** The request reaches its last hop, and the response built from what it left behind visits the hops
      in reverse and arrives with id and results. `senders[i]` is the name the message was sent under
      on hop `i`. */
  lemma RoundTrip(hops: Msg, track: bool, id: Frame, payload: Msg, senders: Msg, results: Msg, back: Msg)
    requires NonEmpty(hops) && NonEmpty(senders) && |senders| == |hops| == |back|
    ensures var arrived := Travel(Request(hops, track, id, payload), senders).1;
            && |arrived| >= 4 + |payload|
            && var r := Travel(Response(ReturnAddress(arrived, 4 + |payload|), id, results), back);
               && r.0 == IdsOf(Reversed(senders))
               && r.1 == [EMPTY, VERSION, RESPONSE, id] + results + [EMPTY] + back
  {
    RequestArrives(hops, track, id, payload, senders);
    var raw := [EMPTY] + senders;
    var rest := [VERSION, RESPONSE, id] + results + [EMPTY];
    assert Response(raw, id, results) == Reversed(raw) + rest;
    ReturnTravels(senders, rest, back);
    assert [EMPTY] + rest + back == [EMPTY, VERSION, RESPONSE, id] + results + [EMPTY] + back;
  }

  /** The way back leads over the senders themselves exactly when no name contains the bar at which a
      first frame is cut off. */
  lemma ReturnsToSendersIff(senders: Msg)
    ensures IdsOf(Reversed(senders)) == Reversed(senders) <==> forall i :: 0 <= i < |senders| ==> BAR !in senders[i]
  {
    var r := Reversed(senders);
    forall i | 0 <= i < |senders|
      ensures IdOf(senders[i]) == senders[i] <==> BAR !in senders[i]
    {
      IdIsWholeIff(senders[i]);
    }
    if IdsOf(r) == r {
      forall i | 0 <= i < |senders|
        ensures BAR !in senders[i]
      {
        var j := |senders| - 1 - i;
        assert r[j] == senders[i] && IdsOf(r)[j] == IdOf(r[j]);
      }
    }
  }

  /** The tracking answer comes back like a response; the heartbeat made from it is addressed to the
      relays the request was sent on by and then to the host itself. */
  lemma TrackedAddress(host: Frame, senders: Msg, id: Frame, lutId: Frame, back: Msg)
    requires NonEmpty(senders) && senders != [] && host != EMPTY && |back| == |senders|
    ensures var r := Travel(TrackResponse(host, [EMPTY] + senders, id), back);
            && r.0 == IdsOf(Reversed(senders))
            && |r.1| >= 4 && r.1[..4] == [EMPTY, VERSION, TRACKADDRESS, id]
            && PingMessage(r.1, lutId) == senders[1..] + [host] + [EMPTY, VERSION, PING, lutId, EMPTY]
  {
    var raw := [EMPTY] + senders;
    assert raw[2..] == senders[1..];
    var rest := [VERSION, TRACKADDRESS, id] + senders[1..] + [host, EMPTY];
    assert TrackResponse(host, raw, id) == Reversed(raw) + rest;
    ReturnTravels(senders, rest, back);
    var arrived := [EMPTY] + rest + back;
    var a := senders[1..] + [host];
    assert arrived[4..] == a + [EMPTY] + back;
    assert NonEmpty(a) by {
      forall i | 0 <= i < |a| ensures a[i] != EMPTY { assert i < |a| - 1 ==> a[i] == senders[i + 1]; }
    }
    UpToEmptyIs(a, back);
    assert PingMessage(arrived, lutId) == a + [EMPTY] + [VERSION, PING, lutId, EMPTY];
  }

  lemma {:induction false} IdHasNoBar(f: Frame)
    ensures BAR !in IdOf(f) && IdOf(IdOf(f)) == IdOf(f)
  {
    if f != [] && f[0] != BAR { IdHasNoBar(f[1..]); }
    IdIsWholeIff(IdOf(f));
  }

  /** The command part of a heartbeat */
  function PingPart(lutId: Frame): (msg: Msg) { [EMPTY, VERSION, PING, lutId, EMPTY] }

  /** Where every relay sends under the id it is addressed by, whatever follows that id in the address,
      the heartbeat goes over the request's own hops. Its address is the request's hop list itself exactly
      when the host names itself as it was addressed and no relay's address has more than an id. */
  lemma TrackedIsForward(hops: Msg, host: Frame, senders: Msg, id: Frame, lutId: Frame, back: Msg, names: Msg)
    requires NonEmpty(senders) && NonEmpty(hops) && |hops| == |senders| == |back| == |names| > 0
    requires forall i :: 1 <= i < |senders| ==> senders[i] == IdOf(hops[i - 1])
    requires host != EMPTY && IdOf(host) == IdOf(hops[|hops| - 1])
    ensures var r := Travel(TrackResponse(host, [EMPTY] + senders, id), back);
            && |r.1| >= 4
            && var ping := PingMessage(r.1, lutId);
               && Travel(ping, names) == (IdsOf(hops), PingPart(lutId) + names)
               && (ping == hops + PingPart(lutId) <==>
                   host == hops[|hops| - 1] && forall i :: 0 <= i < |hops| - 1 ==> BAR !in hops[i])
  {
    TrackedAddress(host, senders, id, lutId, back);
    var address := senders[1..] + [host];
    assert NonEmpty(address);
    SameHops(address, hops);
    SameAddress(address, hops);
    TravelVisits(address, PingPart(lutId), names);
    assert names[..|address|] == names;
    SameFront(address, hops, PingPart(lutId));
  }

  lemma IdsSame(a: Msg, b: Msg)
    requires |a| == |b| && forall i :: 0 <= i < |a| ==> IdOf(a[i]) == IdOf(b[i])
    ensures IdsOf(a) == IdsOf(b)
  {
  }

  /** An address that names each relay by its id and the host in some way leads over the same hosts. */
  lemma SameHops(address: Msg, hops: Msg)
    requires |address| == |hops| > 0
    requires forall i :: 0 <= i < |hops| - 1 ==> address[i] == IdOf(hops[i])
    requires IdOf(address[|hops| - 1]) == IdOf(hops[|hops| - 1])
    ensures IdsOf(address) == IdsOf(hops)
  {
    forall i | 0 <= i < |hops|
      ensures IdOf(address[i]) == IdOf(hops[i])
    {
      IdHasNoBar(hops[i]);
    }
    IdsSame(address, hops);
  }

  /** It is the same address exactly when it names the host alike and no relay has more than an id. */
  lemma SameAddress(address: Msg, hops: Msg)
    requires |address| == |hops| > 0
    requires forall i :: 0 <= i < |hops| - 1 ==> address[i] == IdOf(hops[i])
    ensures address == hops <==>
            address[|hops| - 1] == hops[|hops| - 1] && forall i :: 0 <= i < |hops| - 1 ==> BAR !in hops[i]
  {
    forall i | 0 <= i < |hops| - 1
      ensures address[i] == hops[i] <==> BAR !in hops[i]
    {
      IdIsWholeIff(hops[i]);
    }
  }

  lemma SameFront(a: Msg, b: Msg, tail: Msg)
    requires |a| == |b|
    ensures a + tail == b + tail <==> a == b
  {
    if a + tail == b + tail {
      assert a == (a + tail)[..|a|] && b == (b + tail)[..|b|];
    }
  }

  /** A heartbeat reaches the tracked host, and its answer comes back with the same lookup id. */
  lemma PingPong(relays: Msg, host: Frame, lutId: Frame, senders: Msg, back: Msg)
    requires NonEmpty(relays) && NonEmpty(senders) && host != EMPTY
    requires |senders| == |back| == |relays| + 1
    ensures var ping := relays + [host] + [EMPTY, VERSION, PING, lutId, EMPTY];
            var r := Travel(ping, senders);
            && r.0 == IdsOf(relays + [host]) && |r.1| >= 4
            && var p := Travel(PongMessage(r.1), back);
               p.0 == IdsOf(Reversed(senders)) && p.1 == [EMPTY, VERSION, PONG, lutId, EMPTY] + back
  {
    var hops := relays + [host];
    assert NonEmpty(hops) by {
      forall i | 0 <= i < |hops| ensures hops[i] != EMPTY { assert i < |relays| ==> hops[i] == relays[i]; }
    }
    var body := [EMPTY, VERSION, PING, lutId, EMPTY];
    TravelVisits(hops, body, senders);
    assert senders[..|hops|] == senders;
    var arrived := body + senders;
    assert arrived[4..] == [EMPTY] + senders;
    var rest := [VERSION, PONG, lutId, EMPTY];
    ReturnTravels(senders, rest, back);
    assert [EMPTY] + rest + back == [EMPTY, VERSION, PONG, lutId, EMPTY] + back;
  }
}
