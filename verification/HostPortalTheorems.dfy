/** What the host portal guarantees over every run, and where its code falls short. */
module HostPortalTheorems {
  import opened HostPortal
  import opened HostPortalConn
  import opened HostPortalInv
  import opened HostPortalCentral
  import opened HostPortalSteps

  // ---------------------------------------------------------------- every op has one fate

  lemma {:induction false} IdTallyMember(ids: seq<nat>, x: nat)
    ensures IdTally(ids, Id(x)) >= 0 && (IdTally(ids, Id(x)) > 0 <==> x in ids)
  {
    if ids != [] { IdTallyMember(ids[1..], x); }
  }

  lemma {:induction false} OpsTallyNat(ops: seq<Op>, x: nat)
    ensures OpsTally(ops, Id(x)) >= 0
  {
    if ops != [] { OpsTallyNat(ops[..|ops| - 1], x); }
  }

  lemma {:induction false} PendNat(hosts: seq<Host>, x: nat, n: nat)
    requires n <= |hosts|
    ensures PendTally(hosts, Id(x), n) >= 0
  {
    if n > 0 {
      PendNat(hosts, x, n - 1);
      OpsTallyNat(hosts[n - 1].pending, x);
    }
  }

  lemma {:induction false} GopNat(que: seq<Msg>, x: nat)
    ensures GopTally(que, Id(x)) >= 0
  {
    if que != [] { GopNat(que[1..], x); }
  }

  lemma {:induction false} InNat(q: seq<In>, wt: Weight)
    ensures InTally(q, wt) >= 0
  {
    if q != [] { InNat(q[1..], wt); }
  }

  lemma {:induction false} IntNat(q: seq<Internal>, wt: Weight)
    ensures IntTally(q, wt) >= 0
  {
    if q != [] { IntNat(q[1..], wt); }
  }

  lemma {:induction false} OutNat(q: seq<Msg>, wt: Weight)
    ensures OutTally(q, wt) >= 0
  {
    if q != [] { OutNat(q[1..], wt); }
  }

  lemma LedgerNat(c: Conn, q: seq<Msg>, wt: Weight)
    ensures Ledger(c, q, wt) >= 0
  {
    InNat(c.incoming, wt);
    IntNat(c.internal, wt);
    OutNat(q, wt);
  }

  lemma {:induction false} LiveNat(conns: seq<Conn>, que: seq<Msg>, x: nat, n: nat)
    requires n <= |conns|
    ensures Sum(conns, que, Live(Id(x)), n) >= 0
  {
    if n > 0 {
      LiveNat(conns, que, x, n - 1);
      LedgerNat(conns[n - 1], Outbox(que, n - 1), Id(x));
    }
  }

  /** In every run an issued op is in exactly one place, and it completes at most once: it waits to be
      routed, or is pending, or is with a connection or in its messages, or is complete. An op that
      was not issued is nowhere. */
  lemma OneFate(lim: Limits, nhosts: nat, acts: seq<Step>, x: nat)
    requires LimitsOk(lim) && Runs(lim, Init(lim, nhosts), acts)
    ensures var s := Exec(lim, Init(lim, nhosts), acts);
            var unrouted := GopTally(s.que, Id(x));
            var pending := PendTally(s.hosts, Id(x), |s.hosts|);
            var inFlight := Total(s, Live(Id(x)));
            var complete := IdTally(s.completed, Id(x));
            && 0 <= unrouted && 0 <= pending && 0 <= inFlight && 0 <= complete
            && unrouted + pending + inFlight + complete == (if x in s.issued then 1 else 0)
            && (complete == 1 <==> x in s.completed)
  {
    InitHolds(lim, nhosts);
    RunKeeps(lim, Init(lim, nhosts), acts);
    var s := Exec(lim, Init(lim, nhosts), acts);
    GopNat(s.que, x);
    PendNat(s.hosts, x, |s.hosts|);
    LiveNat(s.conns, s.que, x, |s.conns|);
    IdTallyMember(s.completed, x);
    assert Places(s, x) == if x in s.issued then 1 else 0;
  }

  /** In every run, when CONN_CLOSED comes up, that connection has no tasks and empty queues. */
  lemma ClosedOverRuns(lim: Limits, nhosts: nat, acts: seq<Step>)
    requires LimitsOk(lim) && Runs(lim, Init(lim, nhosts), acts)
    ensures var s := Exec(lim, Init(lim, nhosts), acts);
            s.que != [] && s.que[0].Closed? ==>
              && s.que[0].c < |s.conns|
              && var hc := s.conns[s.que[0].c];
                 hc.open && hc.ntasks == 0 && hc.incoming == [] && hc.internal == []
                 && hc.send == SDone && hc.recv == RDone && hc.req == s.que[0].req
  {
    InitHolds(lim, nhosts);
    RunKeeps(lim, Init(lim, nhosts), acts);
    var s := Exec(lim, Init(lim, nhosts), acts);
    if s.que != [] && s.que[0].Closed? { ClosedIsDrained(s); }
  }

  /** In every run the connection limits hold and the global counters count what they name. */
  lemma ConnectionCaps(lim: Limits, nhosts: nat, acts: seq<Step>)
    requires LimitsOk(lim) && Runs(lim, Init(lim, nhosts), acts)
    ensures var s := Exec(lim, Init(lim, nhosts), acts);
            && 0 <= s.pendingTotal <= s.running <= lim.maxTotal
            && s.running == Total(s, OpenAll) && s.pendingTotal == Total(s, ReqAll)
            && s.hpRunning == Active(s.conns, |s.hosts|)
            && forall h :: 0 <= h < |s.hosts| ==> OpenCount(s.conns, h) <= lim.maxConn
  {
    InitHolds(lim, nhosts);
    RunKeeps(lim, Init(lim, nhosts), acts);
  }

  /** In every run the counters of every host are conserved. */
  lemma HostConservation(lim: Limits, nhosts: nat, acts: seq<Step>, h: nat)
    requires LimitsOk(lim) && Runs(lim, Init(lim, nhosts), acts)
    ensures var s := Exec(lim, Init(lim, nhosts), acts);
            h < |s.hosts| ==>
              var hp := s.hosts[h];
              && hp.workPending == OpsTally(hp.pending, Work)
              && hp.executing == Total(s, WorkIn(h)) >= 0
              && hp.submitted - hp.processed == Total(s, TasksIn(h))
              && hp.limbo == Total(s, LimboIn(h))
              && hp.pendingConn == Total(s, ReqIn(h))
  {
    InitHolds(lim, nhosts);
    RunKeeps(lim, Init(lim, nhosts), acts);
    var s := Exec(lim, Init(lim, nhosts), acts);
    if h < |s.hosts| {
      assert HostOk(s, h);
      WorkNat(s.conns, s.que, h, |s.conns|);
    }
  }

  lemma {:induction false} WorkNat(conns: seq<Conn>, que: seq<Msg>, h: nat, n: nat)
    requires n <= |conns|
    ensures Sum(conns, que, WorkIn(h), n) >= 0
  {
    if n > 0 {
      WorkNat(conns, que, h, n - 1);
      LedgerNat(conns[n - 1], Outbox(que, n - 1), Work);
    }
  }
}
