/** What holds of one connection of the host portal together with the messages it has sent: where its
    close token is, how far it has come to being ready, and which ops it answers for. */
module HostPortalConn {
  import opened HostPortal

  // ---------------------------------------------------------------- tallies of ops

  /** What to add up over tasks: their number, their work, or the live occurrences of one op id. */
  datatype Weight = Count | Work | Id(x: nat)

  function OpWeight(op: Op, wt: Weight): (n: int) {
    match wt
    case Count => 1
    case Work => op.work
    case Id(x) => if op.id == x then 1 else 0
  }

  function InItem(m: In, wt: Weight): (n: int) { if m.Submit? then OpWeight(m.op, wt) else 0 }

  function InTally(q: seq<In>, wt: Weight): (n: int) {
    if q == [] then 0 else InItem(q[0], wt) + InTally(q[1..], wt)
  }

  function IntItem(m: Internal, wt: Weight): (n: int) { if m.Task? then OpWeight(m.op, wt) else 0 }

  function IntTally(q: seq<Internal>, wt: Weight): (n: int) {
    if q == [] then 0 else IntItem(q[0], wt) + IntTally(q[1..], wt)
  }

  /** A `Done` message stands for a task whose op is complete. */
  function MsgItem(m: Msg, wt: Weight): (n: int) {
    match m
    case Retry(_, op) => OpWeight(op, wt)
    case Done(_, work) => if wt.Count? then 1 else if wt.Work? then work else 0
    case _ => 0
  }

  function OutTally(q: seq<Msg>, wt: Weight): (n: int) {
    if q == [] then 0 else MsgItem(q[0], wt) + OutTally(q[1..], wt)
  }

  function SendTally(s: Send, wt: Weight): (n: int) { if s.SHand? then OpWeight(s.op, wt) else 0 }

  function RecvTally(r: Recv, wt: Weight): (n: int) { if r.RHand? then OpWeight(r.op, wt) else 0 }

  /** Everything connection `c` answers for, with `q` its messages not yet handled. */
  function Ledger(c: Conn, q: seq<Msg>, wt: Weight): (n: int) {
    InTally(c.incoming, wt) + SendTally(c.send, wt) + IntTally(c.internal, wt) + RecvTally(c.recv, wt)
    + OutTally(q, wt)
  }

  /** Occurrences of the weighed id among completed ops. */
  function IdTally(ids: seq<nat>, wt: Weight): (n: int) {
    if ids == [] then 0
    else (if wt.Id? && ids[0] == wt.x then 1 else 0) + IdTally(ids[1..], wt)
  }

  lemma {:induction false} InSnoc(q: seq<In>, m: In, wt: Weight)
    ensures InTally(q + [m], wt) == InTally(q, wt) + InItem(m, wt)
  {
    if q != [] {
      assert (q + [m])[1..] == q[1..] + [m];
      InSnoc(q[1..], m, wt);
    }
  }

  lemma {:induction false} IntSnoc(q: seq<Internal>, m: Internal, wt: Weight)
    ensures IntTally(q + [m], wt) == IntTally(q, wt) + IntItem(m, wt)
  {
    if q != [] {
      assert (q + [m])[1..] == q[1..] + [m];
      IntSnoc(q[1..], m, wt);
    }
  }

  lemma {:induction false} OutSnoc(q: seq<Msg>, m: Msg, wt: Weight)
    ensures OutTally(q + [m], wt) == OutTally(q, wt) + MsgItem(m, wt)
  {
    if q != [] {
      assert (q + [m])[1..] == q[1..] + [m];
      OutSnoc(q[1..], m, wt);
    }
  }

  lemma {:induction false} IdConcat(a: seq<nat>, b: seq<nat>, wt: Weight)
    ensures IdTally(a + b, wt) == IdTally(a, wt) + IdTally(b, wt)
  {
    if a != [] {
      assert (a + b)[1..] == a[1..] + b;
      IdConcat(a[1..], b, wt);
    } else {
      assert a + b == b;
    }
  }

  // ---------------------------------------------------------------- the close token

  ghost predicate NoClose(q: seq<In>) { forall i :: 0 <= i < |q| ==> q[i].Submit? }

  ghost predicate CloseLast(q: seq<In>, r: Option<nat>) {
    |q| > 0 && q[|q| - 1] == Close(r) && forall i :: 0 <= i < |q| - 1 ==> q[i].Submit?
  }

  ghost predicate NoShut(q: seq<Internal>) { forall i :: 0 <= i < |q| ==> !q[i].Shut? }

  ghost predicate ShutLast(q: seq<Internal>, r: Option<nat>) {
    |q| > 0 && q[|q| - 1] == Shut(r) && forall i :: 0 <= i < |q| - 1 ==> !q[i].Shut?
  }

  ghost predicate NoClosed(q: seq<Msg>) { forall i :: 0 <= i < |q| ==> !q[i].Closed? }

  ghost predicate ClosedLast(q: seq<Msg>, k: nat, r: Option<nat>) {
    |q| > 0 && q[|q| - 1] == Closed(k, r) && forall i :: 0 <= i < |q| - 1 ==> !q[i].Closed?
  }

  /** The close token is nowhere, or behind everything else at exactly one point of its way from the
      central thread through the send and receive threads and back. */
  ghost predicate Token(c: Conn, q: seq<Msg>, k: nat) {
    || (NoClose(c.incoming) && NoShut(c.internal) && c.send != SDone && c.recv != RDone && NoClosed(q)
        && c.state != 2 && c.req == None)
    || (CloseLast(c.incoming, c.req) && NoShut(c.internal) && c.send != SDone && c.recv != RDone && NoClosed(q)
        && c.state == 2)
    || (c.incoming == [] && c.send == SDone && ShutLast(c.internal, c.req) && c.recv != RDone && NoClosed(q)
        && c.state != 1)
    || (c.incoming == [] && c.send == SDone && c.internal == [] && c.recv == RDone && ClosedLast(q, k, c.req)
        && c.state != 1)
  }

  // ---------------------------------------------------------------- becoming ready

  function ReadyCount(q: seq<Msg>): (n: nat) {
    if q == [] then 0 else (if q[0].Ready? then 1 else 0) + ReadyCount(q[1..])
  }

  lemma {:induction false} ReadySnoc(q: seq<Msg>, m: Msg)
    ensures ReadyCount(q + [m]) == ReadyCount(q) + (if m.Ready? then 1 else 0)
  {
    if q != [] {
      assert (q + [m])[1..] == q[1..] + [m];
      ReadySnoc(q[1..], m);
    } else {
      assert [m][1..] == [];
    }
  }

  ghost predicate NoConnected(q: seq<Internal>) { forall i :: 0 <= i < |q| ==> !q[i].Connected? }

  /** The five ways to be still starting up. */
  ghost predicate Starting(c: Conn, q: seq<Msg>, k: nat) {
    || (c.send == Connecting && c.internal == [] && c.recv == RWait && q == [])
    || (c.send != Connecting && c.send != SDone && c.recv == RWait && c.internal != [] && c.internal[0] == Connected
        && NoConnected(c.internal[1..]) && ReadyCount(q) == 0)
    || (c.send != Connecting && c.send != SDone && c.recv != RWait && c.recv != RDone && NoConnected(c.internal)
        && ReadyCount(q) == 1)
    || (c.send == SDone && c.recv == RWait && c.internal == [Shut(None)] && q == [] && c.req == None)
    || (c.send == SDone && c.recv == RDone && c.internal == [] && q == [Closed(k, None)] && c.req == None)
  }

  ghost predicate Readiness(c: Conn, q: seq<Msg>, k: nat) {
    && 0 <= c.state <= 2
    && (c.state == 0 ==> c.incoming == [] && Starting(c, q, k))
    && (c.state != 0 ==> ReadyCount(q) == 0 && c.recv != RWait && NoConnected(c.internal) && c.send != Connecting)
  }

  // ---------------------------------------------------------------- ops name known hosts

  ghost predicate HostsKnown(c: Conn, q: seq<Msg>, nh: nat) {
    && c.host < nh && (c.req.Some? ==> c.req.value < nh)
    && (forall i :: 0 <= i < |c.incoming| && c.incoming[i].Submit? ==> c.incoming[i].op.host < nh)
    && (forall i :: 0 <= i < |c.internal| && c.internal[i].Task? ==> c.internal[i].op.host < nh)
    && (forall i :: 0 <= i < |q| && q[i].Retry? ==> q[i].op.host < nh)
    && (c.send.SHand? ==> c.send.op.host < nh) && (c.recv.RHand? ==> c.recv.op.host < nh)
  }

  /** A connection that has left its host's list has nothing left anywhere. */
  ghost predicate Gone(c: Conn, q: seq<Msg>) {
    c.incoming == [] && c.internal == [] && c.send == SDone && c.recv == RDone && q == []
  }

  ghost predicate ConnInv(c: Conn, q: seq<Msg>, k: nat, nh: nat) {
    && HostsKnown(c, q, nh)
    && c.ntasks == Ledger(c, q, Count)
    && (c.open ==> Token(c, q, k) && Readiness(c, q, k))
    && (!c.open ==> Gone(c, q))
  }

  // ---------------------------------------------------------------- thread steps

  predicate BySender(e: Event) {
    e.ConnectOk? || e.ConnectFail? || e.STake? || e.SSent? || e.SIdle? || e.SRequest? || e.SClose? || e.SReturn?
  }

  lemma OutKept(q: seq<Msg>, f: Effect, wt: Weight)
    requires |f.out| <= 1
    ensures OutTally(q + f.out, wt) == OutTally(q, wt) + (if f.out == [] then 0 else MsgItem(f.out[0], wt))
  {
    if f.out == [] { assert q + f.out == q; } else { OutSnoc(q, f.out[0], wt); assert q + f.out == q + [f.out[0]]; }
  }

  lemma SenderLedger(c: Conn, q: seq<Msg>, k: nat, e: Event, wt: Weight)
    requires CanDo(c, e) && BySender(e)
    ensures var f := Do(c, k, e); Ledger(f.conn, q + f.out, wt) + IdTally(f.done, wt) == Ledger(c, q, wt)
  {
    OutKept(q, Do(c, k, e), wt);
    match e
    case ConnectOk => IntSnoc(c.internal, Connected, wt);
    case ConnectFail => IntSnoc(c.internal, Shut(None), wt);
    case SSent(ok) => IntSnoc(c.internal, Task(c.send.op, ok), wt);
    case SClose => IntSnoc(c.internal, Shut(c.incoming[0].req), wt);
    case _ =>
  }

  lemma ReceiverLedger(c: Conn, q: seq<Msg>, k: nat, e: Event, wt: Weight)
    requires CanDo(c, e) && !BySender(e)
    ensures var f := Do(c, k, e); Ledger(f.conn, q + f.out, wt) + IdTally(f.done, wt) == Ledger(c, q, wt)
  {
    OutKept(q, Do(c, k, e), wt);
  }

  lemma LedgerKept(c: Conn, q: seq<Msg>, k: nat, e: Event, wt: Weight)
    requires CanDo(c, e)
    ensures var f := Do(c, k, e); Ledger(f.conn, q + f.out, wt) + IdTally(f.done, wt) == Ledger(c, q, wt)
  {
    if BySender(e) { SenderLedger(c, q, k, e, wt); } else { ReceiverLedger(c, q, k, e, wt); }
  }

  lemma ReadyKept(q: seq<Msg>, f: Effect)
    requires |f.out| <= 1
    ensures ReadyCount(q + f.out) == ReadyCount(q) + (if f.out != [] && f.out[0].Ready? then 1 else 0)
  {
    if f.out == [] { assert q + f.out == q; } else { ReadySnoc(q, f.out[0]); assert q + f.out == q + [f.out[0]]; }
  }

  lemma StartingKept(c: Conn, q: seq<Msg>, k: nat, e: Event)
    requires c.open && CanDo(c, e) && Token(c, q, k) && Readiness(c, q, k) && c.state == 0
    ensures var f := Do(c, k, e); Readiness(f.conn, q + f.out, k)
  {
    ReadyKept(q, Do(c, k, e));
    if c.internal != [] {
      assert (c.internal + [Connected])[1..] == c.internal[1..] + [Connected];
    }
  }

  lemma ReadinessKept(c: Conn, q: seq<Msg>, k: nat, e: Event)
    requires c.open && CanDo(c, e) && Token(c, q, k) && Readiness(c, q, k)
    ensures var f := Do(c, k, e); Readiness(f.conn, q + f.out, k)
  {
    ReadyKept(q, Do(c, k, e));
    if c.state == 0 { StartingKept(c, q, k, e); }
  }

  lemma SenderToken(c: Conn, q: seq<Msg>, k: nat, e: Event)
    requires c.open && CanDo(c, e) && Token(c, q, k) && Readiness(c, q, k) && BySender(e)
    ensures var f := Do(c, k, e); Token(f.conn, q + f.out, k)
  {
  }

  lemma ReceiverToken(c: Conn, q: seq<Msg>, k: nat, e: Event)
    requires c.open && CanDo(c, e) && Token(c, q, k) && Readiness(c, q, k) && !BySender(e)
    ensures var f := Do(c, k, e); Token(f.conn, q + f.out, k)
  {
  }

  lemma TokenKept(c: Conn, q: seq<Msg>, k: nat, e: Event)
    requires c.open && CanDo(c, e) && Token(c, q, k) && Readiness(c, q, k)
    ensures var f := Do(c, k, e); Token(f.conn, q + f.out, k)
  {
    if BySender(e) { SenderToken(c, q, k, e); } else { ReceiverToken(c, q, k, e); }
  }

  lemma HostsKept(c: Conn, q: seq<Msg>, k: nat, nh: nat, e: Event)
    requires CanDo(c, e) && HostsKnown(c, q, nh)
    ensures var f := Do(c, k, e); HostsKnown(f.conn, q + f.out, nh)
  {
  }

  /** One thread step keeps everything about its connection: no task, no work and no op is gained or
      lost, except that completed ops leave. */
  lemma ThreadKeepsConn(c: Conn, q: seq<Msg>, k: nat, nh: nat, e: Event)
    requires c.open && CanDo(c, e) && ConnInv(c, q, k, nh)
    ensures ConnInv(Do(c, k, e).conn, q + Do(c, k, e).out, k, nh)
  {
    LedgerKept(c, q, k, e, Count);
    assert Do(c, k, e).conn.ntasks == c.ntasks && Do(c, k, e).conn.open;
    CountOfDone(Do(c, k, e).done);
    ReadinessKept(c, q, k, e);
    TokenKept(c, q, k, e);
    HostsKept(c, q, k, nh, e);
  }

  lemma {:induction false} CountOfDone(ids: seq<nat>)
    ensures IdTally(ids, Count) == 0 && IdTally(ids, Work) == 0
  {
    if ids != [] { CountOfDone(ids[1..]); }
  }
}
