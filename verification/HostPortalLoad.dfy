/** A connection's own workload figure: how far it is from the work the connection answers for, over every
    run, and runs in which it goes wrong and in which dispatching never ends. */
module HostPortalLoad {
  import opened HostPortal
  import opened HostPortalConn
  import opened HostPortalInv
  import opened HostPortalCentral
  import opened HostPortalSteps
  import opened HostPortalPass

  // ---------------------------------------------------------------- a connection's own workload

  /** A connection's `workload` agrees with the work it answers for. */
  ghost predicate WorkloadTrue(s: State, c: nat)
    requires c < |s.conns|
  {
    s.conns[c].workload == Ledger(s.conns[c], Outbox(s.que, c), Work)
  }

  /** Handling a retry keeps that agreement exactly when the retried op was all the connection had:
      otherwise the rest of its work is forgotten. */
  lemma RetryForgetsWork(s: State)
    requires Inv(s) && s.que != [] && s.que[0].Retry? && MsgOk(s, s.que[0]) && WorkloadTrue(s, s.que[0].c)
    ensures var c := s.que[0].c;
            WorkloadTrue(HandleRetry(s.(que := s.que[1..]), c, s.que[0].op), c) <==>
              s.conns[c].workload == s.que[0].op.work
  {
    var c := s.que[0].c;
    var t := HandleRetry(s.(que := s.que[1..]), c, s.que[0].op);
    PopConn(s, s.(que := s.que[1..]));
    var q := Outbox(s.que, c);
    assert OutTally(q, Work) == s.que[0].op.work + OutTally(q[1..], Work);
    assert t.conns[c].workload == 0;
  }

  /** Handling a completed op always keeps it. */
  lemma DoneKeepsWork(s: State)
    requires Inv(s) && s.que != [] && s.que[0].Done? && MsgOk(s, s.que[0]) && WorkloadTrue(s, s.que[0].c)
    ensures WorkloadTrue(HandleDone(s.(que := s.que[1..]), s.que[0].c, s.que[0].work), s.que[0].c)
  {
    var c := s.que[0].c;
    PopConn(s, s.(que := s.que[1..]));
    var q := Outbox(s.que, c);
    assert OutTally(q, Work) == s.que[0].work + OutTally(q[1..], Work);
  }

  // ---------------------------------------------------------------- over every run

  /** The work a connection answers for less the figure it keeps */
  function Gap(s: State, c: nat): (n: int)
    requires c < |s.conns|
  {
    Ledger(s.conns[c], Outbox(s.que, c), Work) - s.conns[c].workload
  }

  /** What a step makes connection `c` forget: on a retry, its figure but for the retried op. */
  function Forgets(s: State, a: Step, c: nat): (n: int)
    requires c < |s.conns|
  {
    if a.Central? && s.que != [] && s.que[0].Retry? && s.que[0].c == c
    then s.conns[c].workload - s.que[0].op.work else 0
  }

  lemma GapThread(s: State, k: nat, e: Event, c: nat)
    requires k < |s.conns| && CanDo(s.conns[k], e) && c < |s.conns|
    ensures var f := Do(s.conns[k], k, e);
            var t := s.(conns := s.conns[k := f.conn], que := s.que + f.out, completed := s.completed + f.done);
            Gap(t, c) == Gap(s, c)
  {
    var f := Do(s.conns[k], k, e);
    ThreadAgree(s, k, e);
    if c == k {
      LedgerKept(s.conns[k], Outbox(s.que, k), k, e, Work);
      CountOfDone(f.done);
      assert f.conn.workload == s.conns[k].workload;
    }
  }

  lemma GapSendClose(s: State, v: nat, req: Option<nat>, c: nat)
    requires v < |s.conns| && c < |s.conns|
    ensures Gap(SendClose(s, v, req), c) == Gap(s, c)
  {
    InSnoc(s.conns[v].incoming, Close(req), Work);
  }

  lemma GapCentral(s: State, deadAllowed: bool, c: nat)
    requires Inv(s) && s.que != [] && MsgOk(s, s.que[0]) && c < |s.conns|
    ensures |Receive(s, deadAllowed).conns| == |s.conns|
    ensures Gap(Receive(s, deadAllowed), c) == Gap(s, c) + Forgets(s, Central(deadAllowed), c)
  {
    var m, t := s.que[0], s.(que := s.que[1..]);
    PopAgree(s);
    assert Outbox(t.que, c) == if Concerns(m, c) then Outbox(s.que, c)[1..] else Outbox(s.que, c);
    if m.CloseReq? && t.conns[m.c].state == 1 { GapSendClose(t, m.c, None, c); }
  }

  lemma {:induction false} GapCloseAll(s: State, h: nat, vs: seq<nat>, c: nat)
    requires h < |s.hosts| && Victims(s, vs) && c < |s.conns|
    ensures |CloseAll(s, h, vs).conns| == |s.conns| && CloseAll(s, h, vs).que == s.que
    ensures Gap(CloseAll(s, h, vs), c) == Gap(s, c)
    decreases |vs|
  {
    if vs != [] {
      GapSendClose(s, vs[0], Some(h), c);
      GapCloseAll(CloseFor(s, h, vs[0]), h, vs[1..], c);
    }
  }

  lemma {:induction false} CloseAllSize(s: State, h: nat, vs: seq<nat>)
    requires h < |s.hosts| && Victims(s, vs)
    ensures |CloseAll(s, h, vs).conns| == |s.conns| && CloseAll(s, h, vs).que == s.que
    decreases |vs|
  {
    if vs != [] { CloseAllSize(CloseFor(s, h, vs[0]), h, vs[1..]); }
  }

  lemma {:induction false} GapAddConns(s: State, h: nat, n: nat, c: nat)
    requires h < |s.hosts| && QueOk(s.que, |s.conns|, |s.hosts|)
    ensures |AddConns(s, h, n).conns| == |s.conns| + n
    ensures c < |s.conns| + n ==> Gap(AddConns(s, h, n), c) == if c < |s.conns| then Gap(s, c) else 0
    decreases n
  {
    if n > 0 {
      NoMail(s.que, |s.conns|, |s.hosts|);
      GapAddConns(AddConn(s, h), h, n - 1, c);
    }
  }

  /** Every step keeps the gap of every connection, but for what it forgets; a new one has none. */
  lemma GapStep(lim: Limits, s: State, a: Step, c: nat)
    requires LimitsOk(lim) && Inv(s) && Enabled(lim, s, a) && c < |Apply(lim, s, a).conns|
    ensures Gap(Apply(lim, s, a), c) == if c < |s.conns| then Gap(s, c) + Forgets(s, a, c) else 0
  {
    match a
    case Issue(op) => OutboxSnoc(s.que, Gop(op), c);
    case Thread(k, e) => GapThread(s, k, e, c);
    case Central(deadAllowed) => GapSize(s, deadAllowed); GapCentral(s, deadAllowed, c);
    case Send(h, d) =>
      var hp := s.hosts[h];
      InSnoc(s.conns[d].incoming, Submit(hp.pending[|hp.pending| - 1]), Work);
    case Resize(h, vs, late, unpaused) => GapResize(lim, s, h, vs, late, unpaused, c);
    case Shutdown(d) => GapSendClose(s, d, None, c);
    case _ =>
  }

  lemma GapSize(s: State, deadAllowed: bool)
    requires s.que != [] && MsgOk(s, s.que[0])
    ensures |Receive(s, deadAllowed).conns| == |s.conns|
  {
  }

  lemma GapResize(lim: Limits, s: State, h: nat, vs: seq<nat>, late: bool, unpaused: bool, c: nat)
    requires LimitsOk(lim) && Inv(s) && h < |s.hosts| && Victims(s, vs)
    requires c < |Adjust(lim, s, h, vs, late, unpaused).conns|
    ensures Gap(Adjust(lim, s, h, vs, late, unpaused), c) == if c < |s.conns| then Gap(s, c) else 0
  {
    var p := MakePlan(lim, s.hosts[h], OpenCount(s.conns, h), s.hpRunning, s.running, s.pendingTotal, late, unpaused);
    var t := s.(hosts := s.hosts[h := s.hosts[h].(stable := p.stable)]);
    var u := CloseAll(t, h, vs);
    CloseAllSize(t, h, vs);
    GapAddConns(u, h, if p.create < 0 then 0 else p.create, c);
    if c < |s.conns| { GapCloseAll(t, h, vs, c); }
  }

  /** All that connection `c` forgets in a run */
  ghost function Forgotten(lim: Limits, s: State, acts: seq<Step>, c: nat): (n: int)
    requires Runs(lim, s, acts)
    decreases |acts|
  {
    if acts == [] then 0
    else (if c < |s.conns| then Forgets(s, acts[0], c) else 0) + Forgotten(lim, Apply(lim, s, acts[0]), acts[1..], c)
  }

  lemma {:induction false} GapRun(lim: Limits, s: State, acts: seq<Step>, c: nat)
    requires LimitsOk(lim) && Inv(s) && Caps(lim, s) && Runs(lim, s, acts) && c < |Exec(lim, s, acts).conns|
    ensures Gap(Exec(lim, s, acts), c) == (if c < |s.conns| then Gap(s, c) else 0) + Forgotten(lim, s, acts, c)
    decreases |acts|
  {
    if acts != [] {
      var t := Apply(lim, s, acts[0]);
      StepKeeps(lim, s, acts[0]);
      GapRun(lim, t, acts[1..], c);
      if c < |t.conns| {
        GapStep(lim, s, acts[0], c);
      } else {
        ConnsStay(lim, s, acts[0]);
      }
    }
  }

  /** Connections keep their numbers. */
  lemma ConnsStay(lim: Limits, s: State, a: Step)
    requires LimitsOk(lim) && Inv(s) && Enabled(lim, s, a)
    ensures |s.conns| <= |Apply(lim, s, a).conns|
  {
    match a
    case Central(deadAllowed) => GapSize(s, deadAllowed);
    case Resize(h, vs, late, unpaused) =>
      var p := MakePlan(lim, s.hosts[h], OpenCount(s.conns, h), s.hpRunning, s.running, s.pendingTotal, late, unpaused);
      var t := s.(hosts := s.hosts[h := s.hosts[h].(stable := p.stable)]);
      CloseAllSize(t, h, vs);
      GapAddConns(CloseAll(t, h, vs), h, if p.create < 0 then 0 else p.create, 0);
    case _ =>
  }

  /** In every run a connection's figure is the work it answers for less what its retries made it forget. */
  lemma WorkloadOverRuns(lim: Limits, nhosts: nat, acts: seq<Step>, c: nat)
    requires LimitsOk(lim) && Runs(lim, Init(lim, nhosts), acts) && c < |Exec(lim, Init(lim, nhosts), acts).conns|
    ensures var s := Exec(lim, Init(lim, nhosts), acts);
            s.conns[c].workload == Ledger(s.conns[c], Outbox(s.que, c), Work) - Forgotten(lim, Init(lim, nhosts), acts, c)
  {
    InitHolds(lim, nhosts);
    GapRun(lim, Init(lim, nhosts), acts, c);
  }

  // ---------------------------------------------------------------- runs that go wrong

  /** Some run from the start ends in `s`. */
  ghost predicate Reaches(lim: Limits, nhosts: nat, s: State) {
    exists acts :: Runs(lim, Init(lim, nhosts), acts) && Exec(lim, Init(lim, nhosts), acts) == s
  }

  lemma {:induction false} RunSnoc(lim: Limits, s: State, acts: seq<Step>, a: Step)
    requires Runs(lim, s, acts) && Enabled(lim, Exec(lim, s, acts), a)
    ensures Runs(lim, s, acts + [a]) && Exec(lim, s, acts + [a]) == Apply(lim, Exec(lim, s, acts), a)
    decreases |acts|
  {
    if acts == [] {
      assert ([] + [a])[1..] == [];
    } else {
      assert (acts + [a])[1..] == acts[1..] + [a];
      RunSnoc(lim, Apply(lim, s, acts[0]), acts[1..], a);
    }
  }

  lemma Onward(lim: Limits, nhosts: nat, s: State, a: Step) returns (t: State)
    requires Reaches(lim, nhosts, s) && Enabled(lim, s, a)
    ensures t == Apply(lim, s, a) && Reaches(lim, nhosts, t)
  {
    var acts :| Runs(lim, Init(lim, nhosts), acts) && Exec(lim, Init(lim, nhosts), acts) == s;
    RunSnoc(lim, Init(lim, nhosts), acts, a);
    t := Apply(lim, s, a);
    assert Runs(lim, Init(lim, nhosts), acts + [a]);
  }

  /** The central thread takes up a new op of host 0. */
  lemma TakeUp(lim: Limits, nhosts: nat, s: State, op: Op) returns (t: State)
    requires Reaches(lim, nhosts, s) && s.que == [] && op.host == 0 < |s.hosts| && op.id !in s.issued
    ensures Reaches(lim, nhosts, t) && |t.hosts| == |s.hosts|
    ensures t == Route(s, op).(issued := s.issued + [op.id])
  {
    var u := Onward(lim, nhosts, s, Issue(op));
    assert u.que == [Gop(op)];
    t := Onward(lim, nhosts, u, Central(false));
  }

  /** A host whose pending work is at most the maximum gets its first connection. */
  lemma FirstConn(lim: Limits, nhosts: nat, op: Op) returns (t: State)
    requires LimitsOk(lim) && nhosts >= 1 && op.host == 0 && op.work <= lim.maxWork
    ensures Reaches(lim, nhosts, t) && |t.hosts| == nhosts && t.que == [] && t.issued == [op.id]
    ensures t.hosts[0].pending == [op] && t.conns == [NewConn(0)]
  {
    var i := Init(lim, nhosts);
    assert Runs(lim, i, []);
    var s := TakeUp(lim, nhosts, i, op);
    var p := MakePlan(lim, s.hosts[0], OpenCount(s.conns, 0), s.hpRunning, s.running, s.pendingTotal, false, false);
    assert s.hosts[0].pending == [op] && s.hosts[0].workPending == op.work;
    assert op.work == lim.maxWork ==> op.work / lim.maxWork == 1;
    assert p.close == 0 && p.create == 1;
    t := Onward(lim, nhosts, s, Resize(0, [], false, false));
    assert t == AddConns(AddConn(s, 0), 0, 0);
  }

  /** The connection becomes ready. */
  lemma FirstReady(lim: Limits, nhosts: nat, op: Op) returns (t: State)
    requires LimitsOk(lim) && nhosts >= 1 && op.host == 0 && op.work <= lim.maxWork
    ensures Reaches(lim, nhosts, t) && |t.hosts| == nhosts && t.que == [] && t.issued == [op.id]
    ensures t.hosts[0].pending == [op]
    ensures t.conns == [NewConn(0).(state := 1, send := SLoop, recv := RLoop)]
  {
    var s := FirstConn(lim, nhosts, op);
    var s1 := Onward(lim, nhosts, s, Thread(0, ConnectOk));
    assert [] + [Connected] == [Connected] && [Connected][1..] == [];
    assert s1.conns == [NewConn(0).(send := SLoop, internal := [Connected])];
    var s2 := Onward(lim, nhosts, s1, Thread(0, RReady));
    assert s2.conns == [NewConn(0).(send := SLoop, recv := RLoop)];
    assert s2.que == [Ready(0)];
    t := Onward(lim, nhosts, s2, Central(false));
  }

  /** Whatever the limits, two ops are enough for a dispatch pass that never ends: the first carries the
      maximum and the second is anything. */
  lemma SpinReached(lim: Limits, nhosts: nat, a: Op, b: Op) returns (t: State)
    requires LimitsOk(lim) && nhosts >= 1 && a.host == b.host == 0 && a.id != b.id && a.work == lim.maxWork
    ensures Reaches(lim, nhosts, t) && |t.hosts| == nhosts && !Ends(lim, t, 0)
  {
    var s := FirstReady(lim, nhosts, a);
    t := TakeUp(lim, nhosts, s, b);
    assert t.hosts[0].pending == [b] + [a];
    OneConnEndsIff(lim, t, 0, 0);
    assert OldWork(t.hosts[0].pending, 1) == OldWork(t.hosts[0].pending, 0) + a.work;
  }

  /** The oldest op goes to connection 0. */
  lemma Hand(lim: Limits, nhosts: nat, s: State) returns (t: State)
    requires Reaches(lim, nhosts, s) && |s.hosts| >= 1 && |s.conns| == 1 && s.hosts[0].pending != []
    requires Usable(s.conns[0], 0) && s.conns[0].workload < lim.maxWork
    ensures Reaches(lim, nhosts, t) && t == Dispatch(s, 0, 0)
  {
    t := Onward(lim, nhosts, s, Send(0, 0));
  }

  /** Both ops are with the connection. */
  lemma BothHanded(lim: Limits, nhosts: nat, a: Op, b: Op) returns (t: State)
    requires LimitsOk(lim) && nhosts >= 1 && a.host == b.host == 0 && a.id != b.id && a.work < lim.maxWork
    ensures Reaches(lim, nhosts, t) && |t.hosts| == nhosts && t.que == []
    ensures t.conns == [NewConn(0).(state := 1, send := SLoop, recv := RLoop, incoming := [Submit(a), Submit(b)],
                                    ntasks := 2, workload := a.work + b.work)]
  {
    var s := FirstReady(lim, nhosts, a);
    var s1 := TakeUp(lim, nhosts, s, b);
    assert s1.hosts[0].pending == [b] + [a];
    var s2 := Hand(lim, nhosts, s1);
    assert s2.hosts[0].pending == [b];
    assert [] + [Submit(a)] == [Submit(a)];
    assert s2.conns == [NewConn(0).(state := 1, send := SLoop, recv := RLoop, incoming := [Submit(a)],
                                    ntasks := 1, workload := a.work)];
    t := Hand(lim, nhosts, s2);
    assert [Submit(a)] + [Submit(b)] == [Submit(a), Submit(b)];
  }

  /** Connection 0 hands the first op back for another try. */
  lemma FirstRetried(lim: Limits, nhosts: nat, s: State, a: Op, rest: seq<In>) returns (t: State)
    requires Reaches(lim, nhosts, s) && |s.conns| == 1 && s.que == []
    requires s.conns[0].open && s.conns[0].send == SLoop && s.conns[0].recv == RLoop && s.conns[0].internal == []
    requires s.conns[0].incoming == [Submit(a)] + rest && a.retries > 1
    ensures Reaches(lim, nhosts, t) && t.que == [Retry(0, a.(retries := a.retries - 1))]
    ensures t == s.(que := t.que, conns := [s.conns[0].(incoming := rest, recv := RAsk)])
  {
    var s1 := Onward(lim, nhosts, s, Thread(0, STake));
    assert s1.conns == [s.conns[0].(send := SHand(a), incoming := rest)];
    var s2 := Onward(lim, nhosts, s1, Thread(0, SSent(true)));
    assert [] + [Task(a, true)] == [Task(a, true)] && [Task(a, true)][1..] == [];
    assert s2.conns == [s.conns[0].(incoming := rest, internal := [Task(a, true)])];
    var s3 := Onward(lim, nhosts, s2, Thread(0, RTake));
    assert s3.conns == [s.conns[0].(incoming := rest, recv := RHand(a))];
    t := Onward(lim, nhosts, s3, Thread(0, RRetry));
  }

  /** Whatever the limits, there is a run after which a connection answers for any amount of work while
      its figure says none. */
  lemma WrongWorkloadReached(lim: Limits, nhosts: nat, a: Op, b: Op) returns (t: State)
    requires LimitsOk(lim) && nhosts >= 1 && a.host == b.host == 0 && a.id != b.id
    requires a.work < lim.maxWork && a.retries > 1
    ensures Reaches(lim, nhosts, t) && |t.conns| == 1
    ensures t.conns[0].workload == 0 && Ledger(t.conns[0], Outbox(t.que, 0), Work) == b.work
  {
    var s := BothHanded(lim, nhosts, a, b);
    var s1 := FirstRetried(lim, nhosts, s, a, [Submit(b)]);
    t := Onward(lim, nhosts, s1, Central(false));
    assert t.conns == [s1.conns[0].(ntasks := 1, workload := 0)];
    assert t.que == [];
    assert InTally([Submit(b)], Work) == b.work + InTally([Submit(b)][1..], Work);
  }

  // ---------------------------------------------------------------- a pass is a run

  /** Dispatching for host `h`, or using up tries there, leads from `s` to `t`. */
  ghost predicate Dispatches(lim: Limits, s: State, h: nat, t: State) {
    exists acts :: Runs(lim, s, acts) && Exec(lim, s, acts) == t && OnlyFor(acts, h)
  }

  ghost predicate OnlyFor(acts: seq<Step>, h: nat) {
    forall i :: 0 <= i < |acts| ==> (acts[i].Send? && acts[i].h == h) || acts[i] == Fail(h)
  }

  lemma DispatchesMore(lim: Limits, s: State, h: nat, t: State, a: Step)
    requires Dispatches(lim, s, h, t) && Enabled(lim, t, a) && ((a.Send? && a.h == h) || a == Fail(h))
    ensures Dispatches(lim, s, h, Apply(lim, t, a))
  {
    var acts :| Runs(lim, s, acts) && Exec(lim, s, acts) == t && OnlyFor(acts, h);
    RunSnoc(lim, s, acts, a);
    assert OnlyFor(acts + [a], h);
  }

  ghost predicate Selected(l: Loop, h: nat)
    requires LoopOk(l, h)
  {
    l.Going? ==> Usable(l.s.conns[l.c], h)
  }

  lemma TurnIsRun(lim: Limits, s: State, l: Loop, h: nat)
    requires LoopOk(l, h) && Selected(l, h) && Dispatches(lim, s, h, l.s)
    ensures Selected(Turn(lim, l, h), h) && Dispatches(lim, s, h, Turn(lim, l, h).s)
  {
    if l.Going? && l.s.hosts[h].pending != [] {
      if l.s.conns[l.c].workload < lim.maxWork {
        DispatchesMore(lim, s, h, l.s, Send(h, l.c));
      } else {
        if Turn(lim, l, h).s != l.s { DispatchesMore(lim, s, h, l.s, Fail(h)); }
      }
    }
  }

  lemma {:induction false} TurnsAreRun(lim: Limits, s: State, l: Loop, h: nat, n: nat)
    requires LoopOk(l, h) && Selected(l, h) && Dispatches(lim, s, h, l.s)
    ensures Dispatches(lim, s, h, Turns(lim, l, h, n).s)
    decreases n
  {
    if n > 0 {
      TurnIsRun(lim, s, l, h);
      TurnsAreRun(lim, s, Turn(lim, l, h), h, n - 1);
    }
  }

  /** However far a dispatch pass has come, it has taken steps of the host portal, so all that holds of every
      run holds of it. */
  lemma PassIsRun(lim: Limits, s: State, h: nat, n: nat)
    requires h < |s.hosts|
    ensures Dispatches(lim, s, h, Turns(lim, Begin(lim, s, h), h, n).s)
  {
    assert Runs(lim, s, []) && Exec(lim, s, []) == s && OnlyFor([], h);
    var l := Begin(lim, s, h);
    if l.s != s { DispatchesMore(lim, s, h, s, Fail(h)); }
    TurnsAreRun(lim, s, l, h, n);
  }

  /** Without a connection it could use a pass sends nothing; it uses up a try of the oldest op, and gives that
      op up without one left, exactly when the host's stable count is 0. */
  lemma PassWithout(lim: Limits, s: State, h: nat)
    requires h < |s.hosts| && s.hosts[h].pending != [] && Least(s.conns, h, lim.maxWork).None?
    ensures var l := Begin(lim, s, h);
            var last := |s.hosts[h].pending| - 1;
            var op := s.hosts[h].pending[last];
            && l.Over? && l.s.conns == s.conns
            && (s.hosts[h].stable != 0 ==> l.s == s)
            && (s.hosts[h].stable == 0 && op.retries > 1 ==>
                  l.s.hosts[h].pending == s.hosts[h].pending[..last] + [op.(retries := op.retries - 1)] && l.s.completed == s.completed)
            && (s.hosts[h].stable == 0 && op.retries <= 1 ==>
                  l.s.hosts[h].pending == s.hosts[h].pending[..last] && l.s.completed == s.completed + [op.id])
  {
  }
}
