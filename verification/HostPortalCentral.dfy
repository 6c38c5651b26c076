/** The central thread keeps the invariant of the host portal, whatever it does. */
module HostPortalCentral {
  import opened HostPortal
  import opened HostPortalConn
  import opened HostPortalInv

  /** The invariant without the account of where the ops are. */
  ghost predicate Core(s: State) {
    && QueOk(s.que, |s.conns|, |s.hosts|) && PendOk(s.hosts)
    && ConnsOk(s) && HostsOk(s) && TotalsOk(s)
  }

  /** How much the entry of connection `j` changed. */
  function Shift(s: State, t: State, j: nat, m: Measure): (d: int)
    requires j < |s.conns| == |t.conns|
  {
    Entry(t.conns[j], Outbox(t.que, j), m) - Entry(s.conns[j], Outbox(s.que, j), m)
  }

  /** The counters of host `h` moved with the entry of connection `j`. */
  ghost predicate Moved(s: State, t: State, j: nat, h: nat)
    requires j < |s.conns| == |t.conns| && h < |s.hosts| == |t.hosts|
  {
    var a := s.hosts[h];
    var b := t.hosts[h];
    && b.workPending == OpsTally(b.pending, Work)
    && b.executing - a.executing == Shift(s, t, j, WorkIn(h))
    && (b.submitted - b.processed) - (a.submitted - a.processed) == Shift(s, t, j, TasksIn(h))
    && b.limbo - a.limbo == Shift(s, t, j, LimboIn(h))
    && b.pendingConn - a.pendingConn == Shift(s, t, j, ReqIn(h))
  }

  lemma HostsFrom(s: State, t: State, j: nat)
    requires HostsOk(s) && AgreeBut(s, t, j) && j < |s.conns| && |s.hosts| == |t.hosts|
    requires forall h :: 0 <= h < |s.hosts| ==> Moved(s, t, j, h)
    ensures HostsOk(t)
  {
    forall h | 0 <= h < |t.hosts| ensures HostOk(t, h) {
      assert HostOk(s, h) && Moved(s, t, j, h);
      TotalPoint(s, t, j, WorkIn(h));
      TotalPoint(s, t, j, TasksIn(h));
      TotalPoint(s, t, j, LimboIn(h));
      TotalPoint(s, t, j, ReqIn(h));
    }
  }

  /** Popping a connection's message disturbs that connection only. */
  lemma PopConn(s: State, t: State)
    requires Core(s) && s.que != [] && !s.que[0].Gop?
    requires t.que == s.que[1..] && |t.conns| == |s.conns|
    requires forall k :: 0 <= k < |s.conns| && k != s.que[0].c ==> t.conns[k] == s.conns[k]
    ensures s.que[0].c < |s.conns|
    ensures AgreeBut(s, t, s.que[0].c) && QueOk(t.que, |s.conns|, |s.hosts|)
    ensures var c := s.que[0].c;
            && ConnInv(s.conns[c], Outbox(s.que, c), c, |s.hosts|)
            && Outbox(s.que, c) != [] && Outbox(s.que, c)[0] == s.que[0] && s.conns[c].open
            && Outbox(t.que, c) == Outbox(s.que, c)[1..]
            && forall wt :: GopTally(t.que, wt) == GopTally(s.que, wt)
  {
    PopAgree(s);
    var c := s.que[0].c;
    assert Concerns(s.que[0], c);
    assert ConnAt(s, c);
  }

  // ---- routing an op to its host

  lemma RouteKeeps(s: State, op: Op)
    requires Core(s) && op.host < |s.hosts|
    ensures Core(Route(s, op))
    ensures forall x: nat {:trigger Places(Route(s, op), x)} ::
              Places(Route(s, op), x) == Places(s, x) + OpWeight(op, Id(x))
  {
    var t := Route(s, op);
    OpsPush(op, s.hosts[op.host].pending, Work);
    assert ConnsOk(t) by {
      forall k | 0 <= k < |t.conns| ensures ConnAt(t, k) {
        assert t.conns[k] == s.conns[k] && ConnAt(s, k);
      }
    }
    forall h | 0 <= h < |t.hosts| ensures HostOk(t, h) { assert HostOk(s, h); }
    forall x: nat ensures Places(t, x) == Places(s, x) + OpWeight(op, Id(x)) {
      OpsPush(op, s.hosts[op.host].pending, Id(x));
      PendPoint(s.hosts, t.hosts, Id(x), op.host, |s.hosts|);
    }
  }

  lemma GopKeeps(s: State)
    requires Inv(s) && s.que != [] && s.que[0].Gop?
    ensures MsgOk(s, s.que[0]) && Inv(Receive(s, false)) && Receive(s, true) == Receive(s, false)
  {
    var op := s.que[0].op;
    var t := s.(que := s.que[1..]);
    PopAgree(s);
    forall m: Measure ensures Total(t, m) == Total(s, m) { SumSame(s.conns, s.que, t.conns, t.que, m, |s.conns|); }
    assert Core(t) by {
      forall k | 0 <= k < |t.conns| ensures ConnAt(t, k) {
        assert t.conns[k] == s.conns[k] && ConnAt(s, k);
      }
      HostsFromSame(s, t);
    }
    RouteKeeps(t, op);
    forall x: nat ensures Places(Route(t, op), x) == Places(s, x) {
      assert Places(t, x) + OpWeight(op, Id(x)) == Places(s, x);
    }
  }

  // ---- CONN_READY

  lemma ReadyConn(c: Conn, q: seq<Msg>, k: nat, nh: nat)
    requires ConnInv(c, q, k, nh) && c.open && q != [] && q[0].Ready?
    ensures c.state == 0 && ConnInv(c.(state := 1), q[1..], k, nh)
    ensures forall wt :: Ledger(c.(state := 1), q[1..], wt) == Ledger(c, q, wt)
  {
    assert ReadyCount(q) >= 1;
  }

  lemma ReadyKeeps(s: State)
    requires Inv(s) && s.que != [] && s.que[0].Ready?
    ensures MsgOk(s, s.que[0])
    ensures Inv(HandleReady(s.(que := s.que[1..]), s.que[0].c))
  {
    HeadMsgOk(s);
    var c := s.que[0].c;
    var t := HandleReady(s.(que := s.que[1..]), c);
    PopConn(s, t);
    ReadyConn(s.conns[c], Outbox(s.que, c), c, |s.hosts|);
    ConnsFrom(s, t, c);
    forall h | 0 <= h < |s.hosts| ensures Moved(s, t, c, h) { ReadyMoved(s, t, c, h); }
    HostsFrom(s, t, c);
    TotalsFrom(s, t, c);
    PlacesPoint(s, t, c);
  }

  lemma ReadyMoved(s: State, t: State, c: nat, h: nat)
    requires c < |s.conns| && s.conns[c].host < |s.hosts| && h < |s.hosts| && HostOk(s, h) && s.conns[c].open
    requires t == HandleReady(s.(que := t.que), c) && s.conns[c].state == 0
    requires Ledger(t.conns[c], Outbox(t.que, c), Work) == Ledger(s.conns[c], Outbox(s.que, c), Work)
    ensures Moved(s, t, c, h)
  {
  }

  /** The global counters after a change at connection `c` that keeps it open or closed. */
  lemma TotalsFrom(s: State, t: State, c: nat)
    requires TotalsOk(s) && AgreeBut(s, t, c) && c < |s.conns| && |t.hosts| == |s.hosts|
    requires t.conns[c].host == s.conns[c].host && t.conns[c].open == s.conns[c].open
    requires t.running == s.running && t.hpRunning == s.hpRunning
    requires t.pendingTotal - s.pendingTotal == Shift(s, t, c, ReqAll)
    ensures TotalsOk(t)
  {
    TotalPoint(s, t, c, OpenAll);
    TotalPoint(s, t, c, ReqAll);
    assert t.conns == s.conns[c := t.conns[c]];
    ActiveSame(s, t, c);
  }

  /** A change at one connection that moves no op and leaves the pending lists alone. */
  lemma PlacesPoint(s: State, t: State, c: nat)
    requires PlacesOk(s) && AgreeBut(s, t, c) && c < |s.conns| && |s.hosts| == |t.hosts|
    requires t.issued == s.issued && t.completed == s.completed
    requires forall wt :: GopTally(t.que, wt) == GopTally(s.que, wt)
    requires forall h {:trigger t.hosts[h]} :: 0 <= h < |s.hosts| ==> t.hosts[h].pending == s.hosts[h].pending
    requires forall x: nat :: Ledger(t.conns[c], Outbox(t.que, c), Id(x)) == Ledger(s.conns[c], Outbox(s.que, c), Id(x))
    ensures PlacesOk(t)
  {
    forall x: nat ensures Places(t, x) == Places(s, x) {
      TotalPoint(s, t, c, Live(Id(x)));
      PendSame(s.hosts, t.hosts, Id(x), |s.hosts|);
    }
  }

  lemma {:induction false} PendSame(a: seq<Host>, b: seq<Host>, wt: Weight, n: nat)
    requires |a| == |b| && n <= |a|
    requires forall h {:trigger b[h]} :: 0 <= h < |a| ==> b[h].pending == a[h].pending
    ensures PendTally(a, wt, n) == PendTally(b, wt, n)
  {
    if n > 0 { PendSame(a, b, wt, n - 1); }
  }

  // ---- closing

  /** Sending a close to a ready connection. */
  lemma CloseConn(c: Conn, q: seq<Msg>, k: nat, nh: nat, req: Option<nat>)
    requires ConnInv(c, q, k, nh) && IsReady(c) && (req.Some? ==> req.value < nh)
    ensures var c' := c.(state := 2, incoming := c.incoming + [Close(req)], req := req);
            && ConnInv(c', q, k, nh)
            && forall wt :: Ledger(c', q, wt) == Ledger(c, q, wt)
  {
    var c' := c.(state := 2, incoming := c.incoming + [Close(req)], req := req);
    forall wt ensures Ledger(c', q, wt) == Ledger(c, q, wt) { InSnoc(c.incoming, Close(req), wt); }
  }

  lemma ShutdownKeeps(s: State, c: nat)
    requires Inv(s) && c < |s.conns| && IsReady(s.conns[c])
    ensures Inv(SendClose(s, c, None))
  {
    var t := SendClose(s, c, None);
    var q := Outbox(s.que, c);
    assert ConnAt(s, c);
    CloseConn(s.conns[c], q, c, |s.hosts|, None);
    ConnsFrom(s, t, c);
    forall m: Measure ensures !m.Live? ==> Total(t, m) == Total(s, m) { TotalPoint(s, t, c, m); }
    HostsFromSame(s, t);
    ActiveSame(s, t, c);
    PlacesPoint(s, t, c);
  }

  lemma CloseForKeeps(s: State, h0: nat, c: nat)
    requires Inv(s) && c < |s.conns| && IsReady(s.conns[c]) && h0 < |s.hosts|
    ensures Inv(CloseFor(s, h0, c))
  {
    var t := CloseFor(s, h0, c);
    var q := Outbox(s.que, c);
    assert ConnAt(s, c);
    CloseConn(s.conns[c], q, c, |s.hosts|, Some(h0));
    assert s.conns[c].req == None;
    ConnsFrom(s, t, c);
    forall h | 0 <= h < |s.hosts| ensures Moved(s, t, c, h) { CloseForMoved(s, h0, c, h); }
    HostsFrom(s, t, c);
    TotalsFrom(s, t, c);
    PlacesPoint(s, t, c);
  }

  lemma CloseForMoved(s: State, h0: nat, c: nat, h: nat)
    requires c < |s.conns| && IsReady(s.conns[c]) && h0 < |s.hosts| && h < |s.hosts| && HostOk(s, h)
    requires s.conns[c].req == None
    ensures Moved(s, CloseFor(s, h0, c), c, h)
  {
    InSnoc(s.conns[c].incoming, Close(Some(h0)), Work);
  }

  lemma CloseReqTaken(s: State)
    requires Inv(s) && s.que != [] && s.que[0].CloseReq?
    ensures s.que[0].c < |s.conns| && Inv(s.(que := s.que[1..]))
  {
    var c := s.que[0].c;
    var t := s.(que := s.que[1..]);
    PopConn(s, t);
    ConnsFrom(s, t, c);
    forall m: Measure ensures !m.Live? ==> Total(t, m) == Total(s, m) { TotalPoint(s, t, c, m); }
    HostsFromSame(s, t);
    PlacesPoint(s, t, c);
  }

  /** A connection that asks to be closed is told to close, unless it is on its way already. */
  lemma CloseReqKeeps(s: State, deadAllowed: bool)
    requires Inv(s) && s.que != [] && s.que[0].CloseReq?
    ensures MsgOk(s, s.que[0]) && Inv(Receive(s, deadAllowed))
  {
    CloseReqTaken(s);
    var t, c := s.(que := s.que[1..]), s.que[0].c;
    PopConn(s, t);
    if t.conns[c].state == 1 { ShutdownKeeps(t, c); }
  }

  /** When the central thread handles CONN_CLOSED, nothing of that connection is left anywhere. */
  lemma ClosedIsDrained(s: State)
    requires Core(s) && s.que != [] && s.que[0].Closed?
    ensures var c := s.que[0].c;
            && c < |s.conns|
            && var hc := s.conns[c];
               && hc.open && hc.ntasks == 0 && hc.incoming == [] && hc.internal == []
               && hc.send == SDone && hc.recv == RDone && hc.req == s.que[0].req
               && Outbox(s.que, c) == [s.que[0]]
               && forall wt :: Ledger(hc, Outbox(s.que, c), wt) == 0
  {
    var c := s.que[0].c;
    PopConn(s, s.(que := s.que[1..]));
    var q := Outbox(s.que, c);
    assert Token(s.conns[c], q, c);
    assert q == [s.que[0]];
    assert forall wt :: OutTally(q, wt) == MsgItem(q[0], wt) + OutTally(q[1..], wt);
  }
}
