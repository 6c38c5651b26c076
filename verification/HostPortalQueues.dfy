/** In what order ops move through the host portal, over every run. */
module HostPortalQueues {
  import opened HostPortal
  import opened HostPortalInv
  import opened HostPortalSteps
  import opened HostPortalTries

  // ---------------------------------------------------------------- what has been issued

  function IssuedBy(a: Step): (ids: seq<nat>) { if a.Issue? then [a.op.id] else [] }

  /** The ids of the ops issued in a run, in order */
  function IssuedIn(acts: seq<Step>): (ids: seq<nat>) {
    if acts == [] then [] else IssuedBy(acts[0]) + IssuedIn(acts[1..])
  }

  /** What every step keeps with the ids it issues added, every run keeps with all of them added. */
  lemma {:induction false} RunAdds(lim: Limits, s: State, acts: seq<Step>, ids: seq<nat>, p: (State, seq<nat>) -> bool)
    requires Runs(lim, s, acts) && p(s, ids)
    requires forall t, a, x :: p(t, x) && Enabled(lim, t, a) ==> p(Apply(lim, t, a), x + IssuedBy(a))
    ensures p(Exec(lim, s, acts), ids + IssuedIn(acts))
    decreases |acts|
  {
    if acts == [] {
      assert ids + [] == ids;
    } else {
      RunAdds(lim, Apply(lim, s, acts[0]), acts[1..], ids + IssuedBy(acts[0]), p);
      assert ids + IssuedBy(acts[0]) + IssuedIn(acts[1..]) == ids + IssuedIn(acts);
    }
  }

  lemma StepIssues(lim: Limits, s: State, a: Step)
    requires LimitsOk(lim) && Enabled(lim, s, a)
    ensures Apply(lim, s, a).issued == s.issued + IssuedBy(a)
  {
    if a.Resize? {
      var p := MakePlan(lim, s.hosts[a.h], OpenCount(s.conns, a.h), s.hpRunning, s.running, s.pendingTotal, a.late, a.unpaused);
      var t := s.(hosts := s.hosts[a.h := s.hosts[a.h].(stable := p.stable)]);
      CloseAllIssued(t, a.h, a.vs);
      AddConnsIssued(CloseAll(t, a.h, a.vs), a.h, if p.create < 0 then 0 else p.create);
    }
  }

  /** `issued` is what was issued. */
  lemma IssuedOverRuns(lim: Limits, s: State, acts: seq<Step>)
    requires LimitsOk(lim) && Runs(lim, s, acts)
    ensures Exec(lim, s, acts).issued == s.issued + IssuedIn(acts)
  {
    forall t, a | Enabled(lim, t, a) ensures Apply(lim, t, a).issued == t.issued + IssuedBy(a) { StepIssues(lim, t, a); }
    RunAdds(lim, s, acts, s.issued, (t: State, x) => t.issued == x);
  }

  // ---------------------------------------------------------------- first come, first sent

  /** The oldest `gone` of the pending ops are gone, new ones may have come, and the rest are as they were: the
      oldest is last in the list. */
  ghost predicate QueueLike(was: seq<Op>, now: seq<Op>, gone: nat) {
    && gone <= |was| && |was| - gone <= |now|
    && forall i :: 0 <= i < |was| - gone ==> now[|now| - (|was| - gone) + i].id == was[i].id
  }

  ghost predicate InOrder(was: seq<Op>, now: seq<Op>) { exists gone: nat :: QueueLike(was, now, gone) }

  lemma InOrderThen(a: seq<Op>, b: seq<Op>, c: seq<Op>)
    requires InOrder(a, b) && InOrder(b, c)
    ensures InOrder(a, c)
  {
    var g: nat :| QueueLike(a, b, g);
    var h: nat :| QueueLike(b, c, h);
    var young := |b| - (|a| - g);
    var gone := if g + h <= |a| then g + h else |a|;
    forall i | 0 <= i < |a| - gone
      ensures c[|c| - (|a| - gone) + i].id == a[i].id
    {
      assert b[young + i].id == a[i].id;
      assert c[|c| - (|b| - h) + (young + i)].id == b[young + i].id;
    }
    assert QueueLike(a, c, gone);
  }

  lemma Unmoved(ops: seq<Op>)
    ensures InOrder(ops, ops)
  {
    assert QueueLike(ops, ops, 0);
  }

  lemma {:induction false} CloseAllPending(s: State, h: nat, vs: seq<nat>, g: nat)
    requires h < |s.hosts| && Victims(s, vs) && g < |s.hosts|
    ensures |CloseAll(s, h, vs).hosts| == |s.hosts| && CloseAll(s, h, vs).hosts[g].pending == s.hosts[g].pending
    decreases |vs|
  {
    if vs != [] { CloseAllPending(CloseFor(s, h, vs[0]), h, vs[1..], g); }
  }

  lemma {:induction false} AddConnsPending(s: State, h: nat, n: nat, g: nat)
    requires h < |s.hosts| && g < |s.hosts|
    ensures |AddConns(s, h, n).hosts| == |s.hosts| && AddConns(s, h, n).hosts[g].pending == s.hosts[g].pending
    decreases n
  {
    if n > 0 { AddConnsPending(AddConn(s, h), h, n - 1, g); }
  }

  lemma ResizePending(lim: Limits, s: State, h: nat, vs: seq<nat>, late: bool, unpaused: bool, g: nat)
    requires LimitsOk(lim) && h < |s.hosts| && Victims(s, vs) && g < |s.hosts|
    ensures var t := Adjust(lim, s, h, vs, late, unpaused); |t.hosts| == |s.hosts| && t.hosts[g].pending == s.hosts[g].pending
  {
    var p := MakePlan(lim, s.hosts[h], OpenCount(s.conns, h), s.hpRunning, s.running, s.pendingTotal, late, unpaused);
    var t := s.(hosts := s.hosts[h := s.hosts[h].(stable := p.stable)]);
    CloseAllPending(t, h, vs, g);
    AddConnsPending(CloseAll(t, h, vs), h, if p.create < 0 then 0 else p.create, g);
  }

  lemma Pushed(was: seq<Op>, op: Op)
    ensures InOrder(was, [op] + was)
  {
    assert QueueLike(was, [op] + was, 0);
  }

  lemma ReceivePending(s: State, deadAllowed: bool, h: nat)
    requires s.que != [] && MsgOk(s, s.que[0]) && h < |s.hosts|
    ensures |Receive(s, deadAllowed).hosts| == |s.hosts|
    ensures InOrder(s.hosts[h].pending, Receive(s, deadAllowed).hosts[h].pending)
  {
    var was, now, m := s.hosts[h].pending, Receive(s, deadAllowed).hosts[h].pending, s.que[0];
    if (m.Gop? || m.Retry?) && m.op.host == h {
      assert now == [m.op] + was;
      Pushed(was, m.op);
    } else {
      assert now == was;
      Unmoved(was);
    }
  }

  lemma Popped(was: seq<Op>)
    requires was != []
    ensures InOrder(was, was[..|was| - 1])
  {
    assert QueueLike(was, was[..|was| - 1], 1);
  }

  lemma Altered(was: seq<Op>, op: Op)
    requires was != [] && op.id == was[|was| - 1].id
    ensures InOrder(was, was[|was| - 1 := op])
  {
    assert QueueLike(was, was[|was| - 1 := op], 0);
  }

  lemma Cleared(was: seq<Op>)
    ensures InOrder(was, [])
  {
    assert QueueLike(was, [], |was|);
  }

  lemma UseUpPending(s: State, h: nat, g: nat)
    requires h < |s.hosts| && s.hosts[h].pending != [] && g < |s.hosts|
    ensures InOrder(s.hosts[g].pending, UseUpTry(s, h).hosts[g].pending)
  {
    var was := s.hosts[g].pending;
    Unmoved(was);
    if g == h {
      Popped(was);
      Altered(was, was[|was| - 1].(retries := was[|was| - 1].retries - 1));
    }
  }

  /** Each step takes from the old end of a host's pending ops and adds at the young end. */
  lemma StepInOrder(lim: Limits, s: State, a: Step, h: nat)
    requires LimitsOk(lim) && Enabled(lim, s, a) && h < |s.hosts|
    ensures |Apply(lim, s, a).hosts| == |s.hosts| && InOrder(s.hosts[h].pending, Apply(lim, s, a).hosts[h].pending)
  {
    match a
    case Central(deadAllowed) => ReceivePending(s, deadAllowed, h);
    case Send(g, c) => if g == h { Popped(s.hosts[h].pending); } else { Unmoved(s.hosts[h].pending); }
    case Fail(g) => UseUpPending(s, g, h);
    case FailPending(g) => if g == h { Cleared(s.hosts[h].pending); } else { Unmoved(s.hosts[h].pending); }
    case Resize(g, vs, late, unpaused) => ResizePending(lim, s, g, vs, late, unpaused, h); Unmoved(s.hosts[h].pending);
    case _ => Unmoved(s.hosts[h].pending);
  }

  /** First come, first sent: over any stretch of a run, of the ops pending for a host at its start those
      that are gone at its end are the oldest, and the others are still in the order they were in. */
  lemma {:induction false} FirstComeFirstSent(lim: Limits, s: State, acts: seq<Step>, h: nat)
    requires LimitsOk(lim) && Runs(lim, s, acts) && h < |s.hosts|
    ensures |Exec(lim, s, acts).hosts| == |s.hosts| && InOrder(s.hosts[h].pending, Exec(lim, s, acts).hosts[h].pending)
    decreases |acts|
  {
    if acts == [] {
      Unmoved(s.hosts[h].pending);
    } else {
      var t := Apply(lim, s, acts[0]);
      StepInOrder(lim, s, acts[0], h);
      FirstComeFirstSent(lim, t, acts[1..], h);
      InOrderThen(s.hosts[h].pending, t.hosts[h].pending, Exec(lim, t, acts[1..]).hosts[h].pending);
    }
  }
}
