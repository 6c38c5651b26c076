/** The remaining steps of the host portal's central thread, and the invariant over every run. */
module HostPortalSteps {
  import opened HostPortal
  import opened HostPortalConn
  import opened HostPortalInv
  import opened HostPortalCentral

  // ---- CONN_CLOSED

  /** What handling a close does to the counters of host `h`. */
  lemma ClosedHost(s: State, c: nat, req: Option<nat>, deadAllowed: bool, h: nat)
    requires c < |s.conns| && s.conns[c].host < |s.hosts| && h < |s.hosts|
    requires req.Some? ==> req.value < |s.hosts|
    ensures var hc := s.conns[c];
            var a := s.hosts[h];
            var b := HandleClosed(s, c, req, deadAllowed).hosts[h];
            && b.(stable := a.stable, dead := a.dead) ==
                 a.(limbo := if h == hc.host && hc.state == 0 then a.limbo - 1 else a.limbo,
                    pendingConn := if req == Some(h) then a.pendingConn - 1 else a.pendingConn)
  {
  }

  lemma ClosedMoved(s: State, t: State, c: nat, req: Option<nat>, deadAllowed: bool, h: nat)
    requires c < |s.conns| && s.conns[c].host < |s.hosts| && h < |s.hosts| && HostOk(s, h) && s.conns[c].open
    requires (req.Some? ==> req.value < |s.hosts|) && s.conns[c].req == req && s.conns[c].ntasks == 0
    requires t == HandleClosed(s.(que := t.que), c, req, deadAllowed)
    requires Ledger(t.conns[c], Outbox(t.que, c), Work) == Ledger(s.conns[c], Outbox(s.que, c), Work)
    ensures Moved(s, t, c, h) && t.hosts[h].pending == s.hosts[h].pending
  {
    ClosedHost(s.(que := t.que), c, req, deadAllowed, h);
    var b := t.hosts[h].(stable := s.hosts[h].stable, dead := s.hosts[h].dead);
    assert b.pending == t.hosts[h].pending;
    assert t.conns[c] == s.conns[c].(open := false);
  }

  lemma ClosedTotals(s: State, t: State, c: nat, req: Option<nat>, deadAllowed: bool)
    requires TotalsOk(s) && AgreeBut(s, t, c) && c < |s.conns| && s.conns[c].open && s.conns[c].host < |s.hosts|
    requires (req.Some? ==> req.value < |s.hosts|) && s.conns[c].req == req
    requires t == HandleClosed(s.(que := t.que), c, req, deadAllowed)
    ensures TotalsOk(t)
  {
    TotalPoint(s, t, c, OpenAll);
    TotalPoint(s, t, c, ReqAll);
    var h0 := s.conns[c].host;
    forall h: nat ensures OpenCount(t.conns, h) == OpenCount(s.conns, h) - (if h == h0 then 1 else 0) {
      OpenCountUpdate(s.conns, c, t.conns[c], h);
    }
    ActivePoint(s.conns, t.conns, h0, |s.hosts|);
  }

  lemma ClosedKeeps(s: State, deadAllowed: bool)
    requires Inv(s) && s.que != [] && s.que[0].Closed?
    ensures MsgOk(s, s.que[0])
    ensures Inv(HandleClosed(s.(que := s.que[1..]), s.que[0].c, s.que[0].req, deadAllowed))
  {
    HeadMsgOk(s);
    ClosedIsDrained(s);
    var c := s.que[0].c;
    var t := HandleClosed(s.(que := s.que[1..]), c, s.que[0].req, deadAllowed);
    PopConn(s, t);
    assert forall wt :: Ledger(t.conns[c], [], wt) == 0;
    ConnsFrom(s, t, c);
    forall h | 0 <= h < |s.hosts| ensures Moved(s, t, c, h) && t.hosts[h].pending == s.hosts[h].pending {
      assert HostOk(s, h);
      ClosedMoved(s, t, c, s.que[0].req, deadAllowed, h);
    }
    HostsFrom(s, t, c);
    ClosedTotals(s, t, c, s.que[0].req, deadAllowed);
    PlacesPoint(s, t, c);
  }

  // ---- CONN_GOP_DONE

  lemma DoneConn(c: Conn, q: seq<Msg>, k: nat, nh: nat, w: int)
    requires ConnInv(c, q, k, nh) && c.open && q != [] && (q[0].Done? || q[0].Retry?)
    ensures ConnInv(c.(ntasks := c.ntasks - 1, workload := w), q[1..], k, nh)
    ensures forall wt :: Ledger(c.(ntasks := c.ntasks - 1, workload := w), q[1..], wt) == Ledger(c, q, wt) - MsgItem(q[0], wt)
  {
  }

  lemma DoneMoved(s: State, t: State, c: nat, work: nat, h: nat)
    requires c < |s.conns| && s.conns[c].host < |s.hosts| && h < |s.hosts| && HostOk(s, h)
    requires t == HandleDone(s.(que := t.que), c, work)
    requires Ledger(t.conns[c], Outbox(t.que, c), Work) == Ledger(s.conns[c], Outbox(s.que, c), Work) - work
    ensures Moved(s, t, c, h)
  {
  }

  lemma DoneHosts(s: State, t: State)
    requires Inv(s) && s.que != [] && s.que[0].Done? && MsgOk(s, s.que[0])
    requires t == HandleDone(s.(que := s.que[1..]), s.que[0].c, s.que[0].work)
    ensures forall h :: 0 <= h < |s.hosts| ==> Moved(s, t, s.que[0].c, h)
    ensures ConnsOk(t)
  {
    var c := s.que[0].c;
    PopConn(s, t);
    DoneConn(s.conns[c], Outbox(s.que, c), c, |s.hosts|, t.conns[c].workload);
    ConnsFrom(s, t, c);
    forall h | 0 <= h < |s.hosts| ensures Moved(s, t, c, h) {
      assert HostOk(s, h);
      DoneMoved(s, t, c, s.que[0].work, h);
    }
  }

  lemma DoneKeeps(s: State)
    requires Inv(s) && s.que != [] && s.que[0].Done?
    ensures MsgOk(s, s.que[0])
    ensures Inv(HandleDone(s.(que := s.que[1..]), s.que[0].c, s.que[0].work))
  {
    HeadMsgOk(s);
    var c := s.que[0].c;
    var t := HandleDone(s.(que := s.que[1..]), c, s.que[0].work);
    PopConn(s, t);
    DoneHosts(s, t);
    HostsFrom(s, t, c);
    TotalsFrom(s, t, c);
    PlacesPoint(s, t, c);
  }

  // ---- CONN_GOP_RETRY

  /** The state after a retry is accounted for and before its op is routed again. */
  function Unrouted(s: State, c: nat, op: Op): (r: State)
    requires c < |s.conns| && s.conns[c].host < |s.hosts|
  {
    var hc := s.conns[c];
    var hp := s.hosts[hc.host];
    s.(conns := s.conns[c := hc.(ntasks := hc.ntasks - 1, workload := 0)],
       hosts := s.hosts[hc.host := hp.(executing := hp.executing - op.work, retried := hp.retried + 1,
                                       submitted := hp.submitted - 1)])
  }

  lemma RetryMoved(s: State, t: State, c: nat, op: Op, h: nat)
    requires c < |s.conns| && s.conns[c].host < |s.hosts| && h < |s.hosts| && HostOk(s, h)
    requires t == Unrouted(s.(que := t.que), c, op)
    requires Ledger(t.conns[c], Outbox(t.que, c), Work) == Ledger(s.conns[c], Outbox(s.que, c), Work) - op.work
    ensures Moved(s, t, c, h)
  {
  }

  lemma RetryUnrouted(s: State)
    requires Inv(s) && s.que != [] && s.que[0].Retry?
    ensures MsgOk(s, s.que[0]) && Core(Unrouted(s.(que := s.que[1..]), s.que[0].c, s.que[0].op))
  {
    HeadMsgOk(s);
    var c := s.que[0].c;
    var op := s.que[0].op;
    var t := Unrouted(s.(que := s.que[1..]), c, op);
    PopConn(s, t);
    DoneConn(s.conns[c], Outbox(s.que, c), c, |s.hosts|, 0);
    ConnsFrom(s, t, c);
    forall h | 0 <= h < |s.hosts| ensures Moved(s, t, c, h) {
      assert HostOk(s, h);
      RetryMoved(s, t, c, op, h);
    }
    HostsFrom(s, t, c);
    TotalsFrom(s, t, c);
    assert PendOk(t.hosts);
  }

  lemma RetryPlaces(s: State, x: nat)
    requires Inv(s) && s.que != [] && s.que[0].Retry? && MsgOk(s, s.que[0])
    ensures Places(Unrouted(s.(que := s.que[1..]), s.que[0].c, s.que[0].op), x) == Places(s, x) - OpWeight(s.que[0].op, Id(x))
  {
    var c := s.que[0].c;
    var t := Unrouted(s.(que := s.que[1..]), c, s.que[0].op);
    PopConn(s, t);
    DoneConn(s.conns[c], Outbox(s.que, c), c, |s.hosts|, 0);
    TotalPoint(s, t, c, Live(Id(x)));
    PendSame(s.hosts, t.hosts, Id(x), |s.hosts|);
  }

  /** Accepting a retry in two steps: accounting, then routing. */
  lemma RetryIsRoute(s: State)
    requires s.que != [] && s.que[0].Retry? && MsgOk(s, s.que[0])
    ensures var t := Unrouted(s.(que := s.que[1..]), s.que[0].c, s.que[0].op);
            HandleRetry(s.(que := s.que[1..]), s.que[0].c, s.que[0].op) == Route(t, s.que[0].op) && t.issued == s.issued
  {
  }

  lemma PlacesAgain(s: State, t: State)
    requires PlacesOk(s) && t.issued == s.issued && forall x: nat {:trigger Places(t, x)} :: Places(t, x) == Places(s, x)
    ensures PlacesOk(t)
  {
    forall x: nat ensures Places(t, x) == IdTally(t.issued, Id(x)) == if x in t.issued then 1 else 0 {
      assert Places(s, x) == Places(t, x);
    }
  }

  lemma RetryKeeps(s: State)
    requires Inv(s) && s.que != [] && s.que[0].Retry?
    ensures MsgOk(s, s.que[0])
    ensures Inv(HandleRetry(s.(que := s.que[1..]), s.que[0].c, s.que[0].op))
  {
    RetryUnrouted(s);
    RetryIsRoute(s);
    var op := s.que[0].op;
    var t := Unrouted(s.(que := s.que[1..]), s.que[0].c, op);
    RouteKeeps(t, op);
    forall x: nat ensures Places(Route(t, op), x) == Places(s, x) { RetryPlaces(s, x); }
    PlacesAgain(s, Route(t, op));
  }

  lemma ReceiveKeeps(s: State, deadAllowed: bool)
    requires Inv(s) && s.que != [] && MsgOk(s, s.que[0])
    ensures Inv(Receive(s, deadAllowed))
  {
    match s.que[0]
    case Gop(op) => GopKeeps(s);
    case Ready(c) => ReadyKeeps(s);
    case CloseReq(c) => CloseReqKeeps(s, deadAllowed);
    case Closed(c, req) => ClosedKeeps(s, deadAllowed);
    case Retry(c, op) => RetryKeeps(s);
    case Done(c, work) => DoneKeeps(s);
  }

  // ---- dispatching and failing pending ops

  lemma DispatchConn(c: Conn, q: seq<Msg>, k: nat, nh: nat, op: Op)
    requires ConnInv(c, q, k, nh) && IsReady(c) && op.host < nh
    ensures var c' := c.(incoming := c.incoming + [Submit(op)], workload := c.workload + op.work, ntasks := c.ntasks + 1);
            && ConnInv(c', q, k, nh)
            && forall wt :: Ledger(c', q, wt) == Ledger(c, q, wt) + OpWeight(op, wt)
  {
    var c' := c.(incoming := c.incoming + [Submit(op)], workload := c.workload + op.work, ntasks := c.ntasks + 1);
    forall wt ensures Ledger(c', q, wt) == Ledger(c, q, wt) + OpWeight(op, wt) { InSnoc(c.incoming, Submit(op), wt); }
  }

  lemma DispatchMoved(s: State, h0: nat, c: nat, h: nat)
    requires c < |s.conns| && h0 < |s.hosts| && s.hosts[h0].pending != [] && s.conns[c].host == h0
    requires h < |s.hosts| && HostOk(s, h)
    ensures Moved(s, Dispatch(s, h0, c), c, h)
  {
    var hp := s.hosts[h0];
    InSnoc(s.conns[c].incoming, Submit(hp.pending[|hp.pending| - 1]), Work);
  }

  lemma DispatchKeeps(s: State, h0: nat, c: nat)
    requires Inv(s) && h0 < |s.hosts| && c < |s.conns| && s.hosts[h0].pending != []
    requires IsReady(s.conns[c]) && s.conns[c].host == h0
    ensures Inv(Dispatch(s, h0, c))
  {
    var t := Dispatch(s, h0, c);
    var hp := s.hosts[h0];
    var op := hp.pending[|hp.pending| - 1];
    assert ConnAt(s, c);
    DispatchConn(s.conns[c], Outbox(s.que, c), c, |s.hosts|, op);
    ConnsFrom(s, t, c);
    forall h | 0 <= h < |s.hosts| ensures Moved(s, t, c, h) {
      assert HostOk(s, h);
      DispatchMoved(s, h0, c, h);
    }
    HostsFrom(s, t, c);
    TotalsFrom(s, t, c);
    forall x: nat ensures Places(t, x) == Places(s, x) {
      TotalPoint(s, t, c, Live(Id(x)));
      PendPoint(s.hosts, t.hosts, Id(x), h0, |s.hosts|);
    }
  }

  /** A step that changes host `h0` only in ways no sum over connections sees. */
  lemma HostOnlyKeeps(s: State, t: State, h0: nat)
    requires Core(s) && h0 < |s.hosts| == |t.hosts| && t.conns == s.conns && t.que == s.que
    requires t.running == s.running && t.pendingTotal == s.pendingTotal && t.hpRunning == s.hpRunning
    requires forall h :: 0 <= h < |s.hosts| && h != h0 ==> t.hosts[h] == s.hosts[h]
    requires var a := s.hosts[h0];
             var b := t.hosts[h0];
             && b.workPending == OpsTally(b.pending, Work) && b.executing == a.executing
             && b.submitted - b.processed == a.submitted - a.processed
             && b.limbo == a.limbo && b.pendingConn == a.pendingConn
             && forall i :: 0 <= i < |b.pending| ==> b.pending[i].host < |s.hosts|
    ensures Core(t)
  {
    forall k | 0 <= k < |t.conns| ensures ConnAt(t, k) {
      assert t.conns[k] == s.conns[k] && ConnAt(s, k);
    }
    forall h | 0 <= h < |t.hosts| ensures HostOk(t, h) { assert HostOk(s, h); }
  }

  lemma {:induction false} IdsTally(ops: seq<Op>, wt: Weight)
    requires wt.Id?
    ensures IdTally(Ids(ops), wt) == OpsTally(ops, wt)
  {
    if ops != [] {
      var last := |ops| - 1;
      IdsTally(ops[..last], wt);
      IdConcat(Ids(ops[..last]), [ops[last].id], wt);
    }
  }

  lemma FailAllKeeps(s: State, h0: nat)
    requires Inv(s) && h0 < |s.hosts|
    ensures Inv(FailAll(s, h0))
  {
    var t := FailAll(s, h0);
    assert HostOk(s, h0);
    HostOnlyKeeps(s, t, h0);
    forall x: nat ensures Places(t, x) == Places(s, x) {
      PendPoint(s.hosts, t.hosts, Id(x), h0, |s.hosts|);
      IdsTally(s.hosts[h0].pending, Id(x));
      IdConcat(s.completed, Ids(s.hosts[h0].pending), Id(x));
    }
  }

  lemma UseUpTryKeeps(s: State, h0: nat)
    requires Inv(s) && h0 < |s.hosts| && s.hosts[h0].pending != []
    ensures Inv(UseUpTry(s, h0))
  {
    var t := UseUpTry(s, h0);
    var hp := s.hosts[h0];
    var last := |hp.pending| - 1;
    var op := hp.pending[last].(retries := hp.pending[last].retries - 1);
    assert HostOk(s, h0);
    assert hp.pending[last := op][..last] == hp.pending[..last];
    HostOnlyKeeps(s, t, h0);
    forall x: nat ensures Places(t, x) == Places(s, x) {
      PendPoint(s.hosts, t.hosts, Id(x), h0, |s.hosts|);
      IdConcat(s.completed, [op.id], Id(x));
    }
  }

  lemma MarkKeeps(s: State, h0: nat, dead: bool, stable: int)
    requires Inv(s) && h0 < |s.hosts|
    ensures Inv(s.(hosts := s.hosts[h0 := s.hosts[h0].(dead := dead, stable := stable)]))
  {
    var t := s.(hosts := s.hosts[h0 := s.hosts[h0].(dead := dead, stable := stable)]);
    assert HostOk(s, h0);
    HostOnlyKeeps(s, t, h0);
    assert PlacesOk(t) by {
      forall x: nat ensures Places(t, x) == Places(s, x) { PendSame(s.hosts, t.hosts, Id(x), |s.hosts|); }
      assert t.issued == s.issued;
    }
  }

  // ---- issuing ops

  lemma IssueKeeps(s: State, op: Op)
    requires Inv(s) && op.host < |s.hosts| && op.id !in s.issued
    ensures Inv(s.(que := s.que + [Gop(op)], issued := s.issued + [op.id]))
  {
    var t := s.(que := s.que + [Gop(op)], issued := s.issued + [op.id]);
    forall k: nat ensures Outbox(t.que, k) == Outbox(s.que, k) { OutboxSnoc(s.que, Gop(op), k); }
    forall m: Measure ensures Total(t, m) == Total(s, m) { SumSame(s.conns, s.que, t.conns, t.que, m, |s.conns|); }
    forall k | 0 <= k < |t.conns| ensures ConnAt(t, k) {
      assert t.conns[k] == s.conns[k] && ConnAt(s, k);
    }
    HostsFromSame(s, t);
    forall x: nat
      ensures Places(t, x) == IdTally(t.issued, Id(x)) == if x in t.issued then 1 else 0
    {
      GopSnoc(s.que, Gop(op), Id(x));
      IdConcat(s.issued, [op.id], Id(x));
      assert Places(t, x) == Places(s, x) + OpWeight(op, Id(x));
      assert Places(s, x) == IdTally(s.issued, Id(x));
    }
  }

  // ---- opening connections

  lemma {:induction false} NoMail(que: seq<Msg>, n: nat, nh: nat)
    requires QueOk(que, n, nh)
    ensures Outbox(que, n) == []
  {
    if que != [] {
      assert !Concerns(que[0], n);
      NoMail(que[1..], n, nh);
    }
  }

  lemma AddConnTotals(s: State, h0: nat, m: Measure)
    requires h0 < |s.hosts| && QueOk(s.que, |s.conns|, |s.hosts|)
    ensures Total(AddConn(s, h0), m) == Total(s, m) + Entry(NewConn(h0), [], m)
  {
    var t := AddConn(s, h0);
    NoMail(s.que, |s.conns|, |s.hosts|);
    SumSame(s.conns, s.que, t.conns, t.que, m, |s.conns|);
  }

  lemma AddConnKeeps(s: State, h0: nat)
    requires Inv(s) && h0 < |s.hosts|
    ensures Inv(AddConn(s, h0))
  {
    var t := AddConn(s, h0);
    var n := |s.conns|;
    NoMail(s.que, n, |s.hosts|);
    forall k | 0 <= k < |t.conns| ensures ConnAt(t, k) {
      if k < n { assert t.conns[k] == s.conns[k] && ConnAt(s, k); }
    }
    forall m: Measure ensures Total(t, m) == Total(s, m) + Entry(NewConn(h0), [], m) { AddConnTotals(s, h0, m); }
    forall h | 0 <= h < |t.hosts| ensures HostOk(t, h) { assert HostOk(s, h); }
    forall h: nat ensures OpenCount(t.conns, h) == OpenCount(s.conns, h) + (if h == h0 then 1 else 0) {
      OpenCountSnoc(s.conns, NewConn(h0), h);
    }
    ActivePoint(s.conns, t.conns, h0, |s.hosts|);
    forall x: nat ensures Places(t, x) == Places(s, x) { PendSame(s.hosts, t.hosts, Id(x), |s.hosts|); }
  }

  lemma {:induction false} AddConnsKeeps(s: State, h0: nat, n: nat)
    requires Inv(s) && h0 < |s.hosts|
    ensures var t := AddConns(s, h0, n);
            && Inv(t) && t.running == s.running + n && t.pendingTotal == s.pendingTotal
            && forall h: nat {:trigger OpenCount(t.conns, h)} ::
                 OpenCount(t.conns, h) == OpenCount(s.conns, h) + (if h == h0 then n else 0)
    decreases n
  {
    if n > 0 {
      AddConnKeeps(s, h0);
      forall h: nat ensures OpenCount(AddConn(s, h0).conns, h) == OpenCount(s.conns, h) + (if h == h0 then 1 else 0) {
        OpenCountSnoc(s.conns, NewConn(h0), h);
      }
      AddConnsKeeps(AddConn(s, h0), h0, n - 1);
    }
  }

  lemma {:induction false} CloseAllKeeps(s: State, h0: nat, vs: seq<nat>)
    requires Inv(s) && h0 < |s.hosts| && Victims(s, vs)
    ensures var t := CloseAll(s, h0, vs);
            && Inv(t) && t.running == s.running
            && forall h: nat {:trigger OpenCount(t.conns, h)} :: OpenCount(t.conns, h) == OpenCount(s.conns, h)
    decreases |vs|
  {
    if vs != [] {
      var t := CloseFor(s, h0, vs[0]);
      CloseForKeeps(s, h0, vs[0]);
      ActiveSame(s, t, vs[0]);
      CloseAllKeeps(t, h0, vs[1..]);
    }
  }

  // ---------------------------------------------------------------- limits and runs

  /** The connection limits, for every host. */
  ghost predicate Caps(lim: Limits, s: State) {
    && 0 <= s.pendingTotal <= s.running <= lim.maxTotal
    && forall h {:trigger OpenCount(s.conns, h)} :: 0 <= h < |s.hosts| ==> OpenCount(s.conns, h) <= lim.maxConn
  }

  lemma PendingWithinRunning(s: State, h: nat)
    requires Inv(s) && h < |s.hosts|
    ensures 0 <= s.pendingTotal <= s.running && 0 <= s.hosts[h].pendingConn
  {
    SumOrder(s.conns, s.que, h, |s.conns|);
    assert HostOk(s, h);
  }

  lemma ResizeKeeps(lim: Limits, s: State, h0: nat, vs: seq<nat>, late: bool, unpaused: bool)
    requires Inv(s) && Caps(lim, s) && LimitsOk(lim) && h0 < |s.hosts| && Victims(s, vs)
    ensures var t := Adjust(lim, s, h0, vs, late, unpaused);
            Inv(t) && Caps(lim, t)
  {
    var p := MakePlan(lim, s.hosts[h0], OpenCount(s.conns, h0), s.hpRunning, s.running, s.pendingTotal, late, unpaused);
    var s1 := s.(hosts := s.hosts[h0 := s.hosts[h0].(stable := p.stable)]);
    MarkKeeps(s, h0, s.hosts[h0].dead, p.stable);
    assert s1 == s.(hosts := s.hosts[h0 := s.hosts[h0].(dead := s.hosts[h0].dead, stable := p.stable)]);
    assert Victims(s1, vs);
    CloseAllKeeps(s1, h0, vs);
    var s2 := CloseAll(s1, h0, vs);
    PendingWithinRunning(s, h0);
    var n := if p.create < 0 then 0 else p.create;
    AddConnsKeeps(s2, h0, n);
    var t := AddConns(s2, h0, n);
    PendingWithinRunning(t, h0);
    assert OpenCount(s.conns, h0) <= lim.maxConn;
    forall h | 0 <= h < |t.hosts| ensures OpenCount(t.conns, h) <= lim.maxConn {
      assert OpenCount(s.conns, h) <= lim.maxConn;
    }
  }

  lemma CapsSame(lim: Limits, s: State, t: State)
    requires Inv(t) && Caps(lim, s) && t.running <= s.running && |t.hosts| == |s.hosts|
    requires forall h {:trigger OpenCount(t.conns, h)} :: 0 <= h < |s.hosts| ==> OpenCount(t.conns, h) <= OpenCount(s.conns, h)
    ensures Caps(lim, t)
  {
    SumOrder(t.conns, t.que, 0, |t.conns|);
    forall h | 0 <= h < |t.hosts| ensures OpenCount(t.conns, h) <= lim.maxConn {
      assert OpenCount(t.conns, h) <= OpenCount(s.conns, h);
    }
  }

  /** A change at one connection that does not open one. */
  lemma OpenCountDrops(s: State, t: State, c: nat)
    requires c < |s.conns| == |t.conns| && t.conns == s.conns[c := t.conns[c]]
    requires t.conns[c].host == s.conns[c].host && (t.conns[c].open ==> s.conns[c].open)
    ensures forall h: nat {:trigger OpenCount(t.conns, h)} :: OpenCount(t.conns, h) <= OpenCount(s.conns, h)
  {
    forall h: nat ensures OpenCount(t.conns, h) <= OpenCount(s.conns, h) {
      OpenCountUpdate(s.conns, c, t.conns[c], h);
    }
  }

  lemma ReceiveCounts(s: State, deadAllowed: bool)
    requires s.que != [] && MsgOk(s, s.que[0])
    ensures var t := Receive(s, deadAllowed);
            && t.running <= s.running && |t.hosts| == |s.hosts|
            && forall h: nat {:trigger OpenCount(t.conns, h)} :: OpenCount(t.conns, h) <= OpenCount(s.conns, h)
  {
    var t := Receive(s, deadAllowed);
    var m := s.que[0];
    if !m.Gop? && t.conns != s.conns {
      assert t.conns == s.conns[m.c := t.conns[m.c]];
      OpenCountDrops(s, t, m.c);
    }
  }

  lemma StepKeeps(lim: Limits, s: State, a: Step)
    requires LimitsOk(lim) && Inv(s) && Caps(lim, s) && Enabled(lim, s, a)
    ensures Inv(Apply(lim, s, a)) && Caps(lim, Apply(lim, s, a))
  {
    var t := Apply(lim, s, a);
    match a
    case Issue(op) => IssueKeeps(s, op);
    case Thread(k, e) =>
      ThreadKeeps(s, t, k, e);
      OpenCountDrops(s, t, k);
      CapsSame(lim, s, t);
    case Central(deadAllowed) =>
      ReceiveKeeps(s, deadAllowed);
      ReceiveCounts(s, deadAllowed);
      CapsSame(lim, s, t);
    case Send(h, c) =>
      DispatchKeeps(s, h, c);
      OpenCountDrops(s, t, c);
      CapsSame(lim, s, t);
    case Fail(h) => UseUpTryKeeps(s, h);
    case FailPending(h) => FailAllKeeps(s, h);
    case Resize(h, vs, late, unpaused) => ResizeKeeps(lim, s, h, vs, late, unpaused);
    case Shutdown(c) =>
      ShutdownKeeps(s, c);
      OpenCountDrops(s, t, c);
      CapsSame(lim, s, t);
    case Mark(h, dead) =>
      MarkKeeps(s, h, dead, s.hosts[h].stable);
      assert t == s.(hosts := s.hosts[h := s.hosts[h].(dead := dead, stable := s.hosts[h].stable)]);
  }

  lemma {:induction false} ZeroPending(hosts: seq<Host>, wt: Weight, n: nat)
    requires n <= |hosts| && forall h :: 0 <= h < |hosts| ==> hosts[h].pending == []
    ensures PendTally(hosts, wt, n) == 0
  {
    if n > 0 { ZeroPending(hosts, wt, n - 1); }
  }

  lemma {:induction false} ZeroActive(n: nat)
    ensures Active([], n) == 0
  {
    if n > 0 { ZeroActive(n - 1); }
  }

  lemma InitHolds(lim: Limits, nhosts: nat)
    requires LimitsOk(lim)
    ensures Inv(Init(lim, nhosts)) && Caps(lim, Init(lim, nhosts))
  {
    var s := Init(lim, nhosts);
    ZeroActive(nhosts);
    forall x: nat ensures Places(s, x) == 0 { ZeroPending(s.hosts, Id(x), nhosts); }
  }

  lemma {:induction false} RunKeeps(lim: Limits, s: State, acts: seq<Step>)
    requires LimitsOk(lim) && Inv(s) && Caps(lim, s) && Runs(lim, s, acts)
    ensures Inv(Exec(lim, s, acts)) && Caps(lim, Exec(lim, s, acts))
    decreases |acts|
  {
    if acts != [] {
      StepKeeps(lim, s, acts[0]);
      RunKeeps(lim, Apply(lim, s, acts[0]), acts[1..]);
    }
  }
}
