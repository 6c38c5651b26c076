/** What a connection takes a message for (mq_portal.c): on its way out, whether the task it belongs to waits for
    a response, and on its way in, which routine handles it. */
module MqDispatch {
  import opened MqRouting
  import MqConn

  /** A frame that is not there reads as empty. */
  function FrameAt(msg: Msg, i: nat): (f: Frame) { if i < |msg| then msg[i] else EMPTY }

  // ---------------------------------------------------------------- commands

  datatype Kind = Ping | Pong | TrackAddress | Response | TrackExec | Exec | Unknown | NoEmptyFrame | BadVersion

  function KindOf(command: Frame): (k: Kind) {
    if command == PING then Ping
    else if command == PONG then Pong
    else if command == TRACKADDRESS then TrackAddress
    else if command == RESPONSE then Response
    else if command == TRACKEXEC then TrackExec
    else if command == EXEC then Exec
    else Unknown
  }

  /** No command is taken for another. */
  lemma CommandsDiffer()
    ensures KindOf(PING) == Ping && KindOf(PONG) == Pong && KindOf(TRACKADDRESS) == TrackAddress
    ensures KindOf(RESPONSE) == Response && KindOf(TRACKEXEC) == TrackExec && KindOf(EXEC) == Exec
    ensures KindOf(EMPTY) == KindOf(VERSION) == Unknown
    ensures |{PING, PONG, TRACKADDRESS, RESPONSE, TRACKEXEC, EXEC}| == 6
  {
    assert PING[0] == 1 && PONG[0] == 2 && EXEC[0] == 3 && TRACKEXEC[0] == 4 && TRACKADDRESS[0] == 5 && RESPONSE[0] == 6;
    assert VERSION[0] == 76;
    var five := {PONG, TRACKADDRESS, RESPONSE, TRACKEXEC, EXEC};
    assert {PING, PONG, TRACKADDRESS, RESPONSE, TRACKEXEC, EXEC} == {PING} + five;
  }

  /** `mqc_process_incoming` */
  function Incoming(msg: Msg): (k: Kind) {
    if FrameAt(msg, 0) != EMPTY then NoEmptyFrame
    else if FrameAt(msg, 1) != VERSION then BadVersion
    else KindOf(FrameAt(msg, 2))
  }

  /** What `mqc_process_task` reads from a task's message. The id is that of a tracked task. */
  datatype Outgoing = Invalid | Valid(command: Kind, tracked: bool, id: Frame)

  function Reading(rest: Msg, passThrough: bool): (o: Outgoing) {
    if FrameAt(rest, 0) != VERSION then Invalid
    else Valid(KindOf(FrameAt(rest, 1)), FrameAt(rest, 1) == TRACKEXEC && !passThrough, FrameAt(rest, 2))
  }

  /** The reading part of `mqc_process_task`: the address is skipped up to its empty frame. */
  method Examine(msg: Msg, passThrough: bool) returns (o: Outgoing)
    ensures NonEmpty(msg) ==> o == Invalid
    ensures forall hops, rest :: NonEmpty(hops) && msg == hops + [EMPTY] + rest ==> o == Reading(rest, passThrough)
  {
    var i := 0;
    while i < |msg| && msg[i] != EMPTY
      invariant i <= |msg| && NonEmpty(msg[..i])
    {
      i := i + 1;
    }
    if i == |msg| {
      assert msg[..i] == msg;
      forall hops, rest ensures EMPTY in hops + [EMPTY] + rest { HasEmpty(hops, rest); }
      return Invalid;
    }
    o := Reading(msg[i + 1..], passThrough);
    assert msg == msg[..i] + [EMPTY] + msg[i + 1..];
    UpToEmptyIs(msg[..i], msg[i + 1..]);
    forall hops, rest | NonEmpty(hops) && msg == hops + [EMPTY] + rest
      ensures rest == msg[i + 1..]
    {
      UpToEmptyIs(hops, rest);
      assert rest == msg[|hops| + 1..];
    }
  }

  lemma HasEmpty(hops: Msg, rest: Msg)
    ensures EMPTY in hops + [EMPTY] + rest
  {
    assert (hops + [EMPTY] + rest)[|hops|] == EMPTY;
  }

  // ---------------------------------------------------------------- each message is taken for what it is

  function ExecKind(track: bool): (k: Kind) { if track then TrackExec else Exec }

  /** A request behind its address and the empty frame */
  function CommandPart(track: bool, id: Frame, payload: Msg): (rest: Msg) {
    [VERSION, if track then TRACKEXEC else EXEC, id] + payload + [EMPTY]
  }

  lemma RequestParts(hops: Msg, track: bool, id: Frame, payload: Msg)
    ensures Request(hops, track, id, payload) == hops + [EMPTY] + CommandPart(track, id, payload)
    ensures Request(hops, track, id, payload) == hops + ([EMPTY] + CommandPart(track, id, payload))
  {
  }

  /** A request says whether it is tracked, on its way out and where it arrives. */
  lemma RequestIsTakenAs(hops: Msg, track: bool, id: Frame, payload: Msg, senders: Msg, passThrough: bool)
    requires NonEmpty(hops) && |senders| == |hops|
    ensures Incoming(Travel(Request(hops, track, id, payload), senders).1) == ExecKind(track)
    ensures Request(hops, track, id, payload) == hops + [EMPTY] + CommandPart(track, id, payload)
    ensures Reading(CommandPart(track, id, payload), passThrough) == Valid(ExecKind(track), track && !passThrough, id)
  {
    CommandsDiffer();
    RequestParts(hops, track, id, payload);
    TravelVisits(hops, [EMPTY] + CommandPart(track, id, payload), senders);
  }

  /** So are a response, a tracking answer, a heartbeat and its answer. */
  lemma ResponseTaken(senders: Msg, id: Frame, results: Msg, back: Msg)
    requires NonEmpty(senders) && |back| == |senders|
    ensures Incoming(Travel(MqRouting.Response([EMPTY] + senders, id, results), back).1) == Response
  {
    CommandsDiffer();
    var raw := [EMPTY] + senders;
    var rest := [VERSION, RESPONSE, id] + (results + [EMPTY]);
    assert MqRouting.Response(raw, id, results) == Reversed(raw) + rest;
    ReturnTravels(senders, rest, back);
    HeaderOf(VERSION, RESPONSE, id, results + [EMPTY], back);
  }

  lemma HeaderOf(version: Frame, command: Frame, id: Frame, rest: Msg, back: Msg)
    ensures var m := [EMPTY] + ([version, command, id] + rest) + back;
            FrameAt(m, 0) == EMPTY && FrameAt(m, 1) == version && FrameAt(m, 2) == command
  {
  }

  lemma TrackTaken(host: Frame, senders: Msg, id: Frame, lutId: Frame, back: Msg)
    requires NonEmpty(senders) && senders != [] && host != EMPTY && |back| == |senders|
    ensures Incoming(Travel(TrackResponse(host, [EMPTY] + senders, id), back).1) == TrackAddress
  {
    CommandsDiffer();
    TrackedAddress(host, senders, id, lutId, back);
    var r := Travel(TrackResponse(host, [EMPTY] + senders, id), back).1;
    assert r[0] == r[..4][0] && r[1] == r[..4][1] && r[2] == r[..4][2];
  }

  lemma PingTaken(relays: Msg, host: Frame, lutId: Frame, senders: Msg)
    requires NonEmpty(relays) && host != EMPTY && |senders| == |relays| + 1
    ensures var ping := Travel(relays + [host] + [EMPTY, VERSION, PING, lutId, EMPTY], senders).1;
            Incoming(ping) == Ping && |ping| >= 4
  {
    CommandsDiffer();
    var hops := relays + [host];
    assert NonEmpty(hops);
    TravelVisits(hops, [EMPTY, VERSION, PING, lutId, EMPTY], senders);
  }

  lemma PongTaken(relays: Msg, host: Frame, lutId: Frame, senders: Msg, back: Msg)
    requires NonEmpty(relays) && NonEmpty(senders) && host != EMPTY && |senders| == |back| == |relays| + 1
    ensures var ping := Travel(relays + [host] + [EMPTY, VERSION, PING, lutId, EMPTY], senders).1;
            |ping| >= 4 && Incoming(Travel(PongMessage(ping), back).1) == Pong
  {
    CommandsDiffer();
    PingPong(relays, host, lutId, senders, back);
  }

  // ---------------------------------------------------------------- from the request to its completion

  /** A task waits for its response exactly when its message was made to be tracked, was sent and is not
      passed on for someone else. `key` is where the id of a frame is kept. */
  lemma TaskWaitsIff(c: MqConn.Conn, hops: Msg, track: bool, id: Frame, payload: Msg, passThrough: bool,
                     key: Frame -> nat, task: nat, timeout: int, sent: bool)
    requires NonEmpty(hops) && MqConn.Inv(c) && key(id) !in c.issued
    ensures Request(hops, track, id, payload) == hops + [EMPTY] + CommandPart(track, id, payload)
    ensures var o := Reading(CommandPart(track, id, payload), passThrough);
            && o.Valid?
            && (key(id) in MqConn.Process(c, key(o.id), task, timeout, o.tracked, sent).waiting <==> track && !passThrough && sent)
  {
    CommandsDiffer();
    RequestParts(hops, track, id, payload);
    MqConn.ProcessKeeps(c, key(id), task, timeout, track && !passThrough, sent);
  }

  /** A tracked request that is sent, answered and answered back completes its task with the response. */
  lemma RequestCompletes(c: MqConn.Conn, hops: Msg, id: Frame, payload: Msg, senders: Msg, results: Msg, back: Msg,
                         key: Frame -> nat, task: nat, timeout: int)
    requires MqConn.Inv(c) && key(id) !in c.issued
    requires NonEmpty(hops) && NonEmpty(senders) && |senders| == |hops| == |back| > 0
    ensures var arrived := Travel(Request(hops, true, id, payload), senders).1;
            && |arrived| >= 4 + |payload|
            && var answer := Travel(MqRouting.Response(ReturnAddress(arrived, 4 + |payload|), id, results), back).1;
               && Incoming(arrived) == TrackExec && Incoming(answer) == Response && |answer| > 3 && answer[3] == id
               && var r := MqConn.Respond(MqConn.Process(c, key(id), task, timeout, true, true), key(answer[3]));
                  r.done == c.done + [MqConn.Completion(key(id), task, MqConn.Responded)] && r.waiting == c.waiting
  {
    CommandsDiffer();
    RequestIsTakenAs(hops, true, id, payload, senders, false);
    RoundTrip(hops, true, id, payload, senders, results, back);
    RespondedNext(c, key(id), task, timeout);
  }

  lemma RespondedNext(c: MqConn.Conn, id: nat, task: nat, timeout: int)
    requires MqConn.Inv(c) && id !in c.issued
    ensures var r := MqConn.Respond(MqConn.Process(c, id, task, timeout, true, true), id);
            r.done == c.done + [MqConn.Completion(id, task, MqConn.Responded)] && r.waiting == c.waiting
  {
    assert MqConn.FateOk(c, id);
    assert id !in c.waiting;
    var m := MqConn.Monitor(task, timeout, MqConn.None);
    assert c.waiting[id := m] - {id} == c.waiting;
  }
}
