/** How connections of the host portal come to their end: what a failure leads to, which requests to close are
    heard, and what becomes of a host to which no connection can be made. */
module HostPortalClose {
  import opened HostPortal
  import opened HostPortalConn
  import opened HostPortalInv
  import opened HostPortalCentral
  import opened HostPortalSteps
  import opened HostPortalLoad

  // ---------------------------------------------------------------- after a failure

  /** The send thread takes no more ops, and the receive thread waits for no more answers. */
  predicate SendOver(c: Conn) { c.send in {SAsk, SDrain, SDone} }

  predicate RecvOver(c: Conn) { c.recv in {RAsk, RDrain, RDone} }

  /** A failed send, a failed answer or idleness ends a thread's work for good. */
  lemma FailureEnds(c: Conn, k: nat, e: Event)
    requires CanDo(c, e)
    ensures SendOver(c) || e in {SSent(false), SIdle, SClose, ConnectFail} ==> SendOver(Do(c, k, e).conn)
    ensures RecvOver(c) || e in {RAnswered(false), RRetry, RReject, RClose, RAbort} ==> RecvOver(Do(c, k, e).conn)
    ensures SendOver(c) ==> e != STake
    ensures RecvOver(c) ==> e != RTake && !e.RAnswered?
  {
  }

  // ---------------------------------------------------------------- requests to close

  ghost predicate HasAsk(q: seq<Msg>) { exists i :: 0 <= i < |q| && q[i].CloseReq? }

  ghost predicate HasFailed(q: seq<Internal>) { exists i :: 0 <= i < |q| && q[i].Task? && !q[i].ok }

  /** A connection that only hands ops back is on its way to be closed, or has asked for it, or is about to. */
  ghost predicate AskOk(c: Conn, q: seq<Msg>) {
    c.open ==>
      && (c.send == SDrain ==> c.state == 2 || HasAsk(q))
      && (c.recv == RDrain ==> c.state == 2 || HasAsk(q) || SendOver(c))
      && (HasFailed(c.internal) ==> SendOver(c))
  }

  ghost predicate AskAt(s: State, k: nat)
    requires k < |s.conns|
  {
    AskOk(s.conns[k], Outbox(s.que, k))
  }

  ghost predicate AllAsk(s: State) { forall k {:trigger AskAt(s, k)} :: 0 <= k < |s.conns| ==> AskAt(s, k) }

  /** The central thread gets to a request before it has taken note that the connection is ready. */
  ghost predicate Early(s: State, a: Step) {
    a.Central? && s.que != [] && s.que[0].CloseReq? && s.que[0].c < |s.conns| && s.conns[s.que[0].c].state == 0
  }

  /** A request is granted exactly when it does not come early. */
  lemma GrantedIff(s: State, deadAllowed: bool)
    requires Inv(s) && s.que != [] && s.que[0].CloseReq? && MsgOk(s, s.que[0])
    ensures Receive(s, deadAllowed).conns[s.que[0].c].state == 2 <==> !Early(s, Central(deadAllowed))
  {
    PopConn(s, s.(que := s.que[1..]));
  }

  lemma AskMore(q: seq<Msg>, out: seq<Msg>)
    ensures HasAsk(q) ==> HasAsk(q + out)
    ensures out != [] && out[0].CloseReq? ==> HasAsk(q + out)
  {
    if HasAsk(q) {
      var i :| 0 <= i < |q| && q[i].CloseReq?;
      assert (q + out)[i].CloseReq?;
    }
    if out != [] && out[0].CloseReq? { assert (q + out)[|q|].CloseReq?; }
  }

  lemma FailedLess(q: seq<Internal>)
    requires q != []
    ensures HasFailed(q[1..]) ==> HasFailed(q)
  {
    if HasFailed(q[1..]) {
      var i :| 0 <= i < |q[1..]| && q[1..][i].Task? && !q[1..][i].ok;
      assert q[i + 1] == q[1..][i];
    }
  }

  lemma FailedMore(q: seq<Internal>, m: Internal)
    ensures HasFailed(q + [m]) ==> HasFailed(q) || (m.Task? && !m.ok)
  {
    if HasFailed(q + [m]) {
      var i :| 0 <= i < |q + [m]| && (q + [m])[i].Task? && !(q + [m])[i].ok;
      assert i < |q| ==> q[i] == (q + [m])[i];
    }
  }

  lemma ThreadAsk(c: Conn, q: seq<Msg>, k: nat, e: Event)
    requires CanDo(c, e) && AskOk(c, q)
    ensures AskOk(Do(c, k, e).conn, q + Do(c, k, e).out)
  {
    AskMore(q, Do(c, k, e).out);
    if c.internal != [] {
      FailedLess(c.internal);
      if e.RReject? { assert HasFailed(c.internal); }
    }
    match e
    case ConnectOk => FailedMore(c.internal, Connected);
    case ConnectFail => FailedMore(c.internal, Shut(None));
    case SSent(ok) => FailedMore(c.internal, Task(c.send.op, ok));
    case SClose => FailedMore(c.internal, Shut(c.incoming[0].req));
    case _ =>
  }

  lemma AskLess(q: seq<Msg>)
    requires q != [] && !q[0].CloseReq?
    ensures HasAsk(q) ==> HasAsk(q[1..])
  {
    if HasAsk(q) {
      var i :| 0 <= i < |q| && q[i].CloseReq?;
      assert q[1..][i - 1].CloseReq?;
    }
  }

  lemma ReceiveAsk(s: State, deadAllowed: bool)
    requires Inv(s) && s.que != [] && MsgOk(s, s.que[0]) && AllAsk(s) && !Early(s, Central(deadAllowed))
    ensures AllAsk(Receive(s, deadAllowed))
  {
    var m, t := s.que[0], Receive(s, deadAllowed);
    PopAgree(s);
    if !m.Gop? { assert Concerns(m, m.c); }
    forall k | 0 <= k < |t.conns|
      ensures AskAt(t, k)
    {
      assert AskAt(s, k);
      if Concerns(m, k) {
        if !m.CloseReq? { AskLess(Outbox(s.que, k)); }
        PopConn(s, s.(que := s.que[1..]));
      }
    }
  }

  lemma AskPoint(s: State, t: State, c: nat)
    requires AllAsk(s) && t.que == s.que && c < |s.conns| && |t.conns| == |s.conns|
    requires forall k :: 0 <= k < |s.conns| && k != c ==> t.conns[k] == s.conns[k]
    requires AskOk(t.conns[c], Outbox(s.que, c))
    ensures AllAsk(t)
  {
    forall k | 0 <= k < |t.conns| ensures AskAt(t, k) { assert AskAt(s, k); }
  }

  lemma {:induction false} CloseAllAsk(s: State, h: nat, vs: seq<nat>)
    requires h < |s.hosts| && Victims(s, vs) && AllAsk(s)
    ensures AllAsk(CloseAll(s, h, vs))
    decreases |vs|
  {
    if vs != [] {
      assert AskAt(s, vs[0]);
      AskPoint(s, CloseFor(s, h, vs[0]), vs[0]);
      CloseAllAsk(CloseFor(s, h, vs[0]), h, vs[1..]);
    }
  }

  lemma {:induction false} AddConnsAsk(s: State, h: nat, n: nat)
    requires h < |s.hosts| && AllAsk(s)
    ensures AllAsk(AddConns(s, h, n))
    decreases n
  {
    if n > 0 {
      var t := AddConn(s, h);
      forall k | 0 <= k < |t.conns| ensures AskAt(t, k) { if k < |s.conns| { assert AskAt(s, k); } }
      AddConnsAsk(t, h, n - 1);
    }
  }

  lemma ResizeAsk(lim: Limits, s: State, h: nat, vs: seq<nat>, late: bool, unpaused: bool)
    requires LimitsOk(lim) && h < |s.hosts| && Victims(s, vs) && AllAsk(s)
    ensures AllAsk(Adjust(lim, s, h, vs, late, unpaused))
  {
    var p := MakePlan(lim, s.hosts[h], OpenCount(s.conns, h), s.hpRunning, s.running, s.pendingTotal, late, unpaused);
    var t := s.(hosts := s.hosts[h := s.hosts[h].(stable := p.stable)]);
    forall k | 0 <= k < |t.conns| ensures AskAt(t, k) { assert AskAt(s, k); }
    CloseAllAsk(t, h, vs);
    AddConnsAsk(CloseAll(t, h, vs), h, if p.create < 0 then 0 else p.create);
  }

  lemma ThreadStepAsk(s: State, t: State, k: nat, e: Event)
    requires AllAsk(s) && k < |s.conns| && CanDo(s.conns[k], e)
    requires var f := Do(s.conns[k], k, e);
             t == s.(conns := s.conns[k := f.conn], que := s.que + f.out, completed := s.completed + f.done)
    ensures AllAsk(t)
  {
    ThreadAgree(s, k, e);
    forall j | 0 <= j < |t.conns|
      ensures AskAt(t, j)
    {
      assert AskAt(s, j);
      if j == k { ThreadAsk(s.conns[k], Outbox(s.que, k), k, e); }
    }
  }

  lemma IssueAsk(s: State, op: Op)
    requires AllAsk(s)
    ensures AllAsk(s.(que := s.que + [Gop(op)], issued := s.issued + [op.id]))
  {
    var t := s.(que := s.que + [Gop(op)], issued := s.issued + [op.id]);
    forall k | 0 <= k < |t.conns|
      ensures AskAt(t, k)
    {
      OutboxSnoc(s.que, Gop(op), k);
      assert AskAt(s, k);
    }
  }

  lemma SameAsk(s: State, t: State)
    requires AllAsk(s) && t.conns == s.conns && t.que == s.que
    ensures AllAsk(t)
  {
    forall k | 0 <= k < |t.conns| ensures AskAt(t, k) { assert AskAt(s, k); }
  }

  lemma StepAsk(lim: Limits, s: State, a: Step)
    requires LimitsOk(lim) && Inv(s) && Enabled(lim, s, a) && AllAsk(s) && !Early(s, a)
    ensures AllAsk(Apply(lim, s, a))
  {
    match a
    case Issue(op) => IssueAsk(s, op);
    case Thread(k, e) => ThreadStepAsk(s, Apply(lim, s, a), k, e);
    case Central(deadAllowed) => ReceiveAsk(s, deadAllowed);
    case Send(h, c) => assert AskAt(s, c); AskPoint(s, Dispatch(s, h, c), c);
    case Resize(h, vs, late, unpaused) => ResizeAsk(lim, s, h, vs, late, unpaused);
    case Shutdown(c) => assert AskAt(s, c); AskPoint(s, SendClose(s, c, None), c);
    case _ => SameAsk(s, Apply(lim, s, a));
  }

  /** No request is handled early in the run. */
  ghost predicate NeverEarly(lim: Limits, s: State, acts: seq<Step>)
    requires Runs(lim, s, acts)
    decreases |acts|
  {
    acts == [] || (!Early(s, acts[0]) && NeverEarly(lim, Apply(lim, s, acts[0]), acts[1..]))
  }

  ghost predicate Orderly(lim: Limits, s: State) { Inv(s) && Caps(lim, s) && AllAsk(s) }

  lemma StepOrderly(lim: Limits, s: State, a: Step)
    requires LimitsOk(lim) && Enabled(lim, s, a) && Orderly(lim, s) && !Early(s, a)
    ensures Orderly(lim, Apply(lim, s, a))
  {
    StepAsk(lim, s, a);
    StepKeeps(lim, s, a);
  }

  lemma {:induction false} RunOrderly(lim: Limits, s: State, acts: seq<Step>, p: State -> bool)
    requires Runs(lim, s, acts) && NeverEarly(lim, s, acts) && p(s)
    requires forall t, a :: p(t) && Enabled(lim, t, a) && !Early(t, a) ==> p(Apply(lim, t, a))
    ensures p(Exec(lim, s, acts))
    decreases |acts|
  {
    if acts != [] { RunOrderly(lim, Apply(lim, s, acts[0]), acts[1..], p); }
  }

  /** In every run in which no request comes early, a connection whose threads only hand ops back is being
      closed, or its request is on the central queue, or its send thread is about to make one. */
  lemma AskedOverRuns(lim: Limits, nhosts: nat, acts: seq<Step>, k: nat)
    requires LimitsOk(lim) && Runs(lim, Init(lim, nhosts), acts) && NeverEarly(lim, Init(lim, nhosts), acts)
    requires k < |Exec(lim, Init(lim, nhosts), acts).conns|
    ensures var s := Exec(lim, Init(lim, nhosts), acts);
            var c, q := s.conns[k], Outbox(s.que, k);
            && (c.open && c.send == SDrain ==> c.state == 2 || HasAsk(q))
            && (c.open && c.recv == RDrain ==> c.state == 2 || HasAsk(q) || c.send == SAsk || c.send == SDone)
  {
    InitHolds(lim, nhosts);
    forall t, a | Orderly(lim, t) && Enabled(lim, t, a) && !Early(t, a)
      ensures Orderly(lim, Apply(lim, t, a))
    {
      StepOrderly(lim, t, a);
    }
    RunOrderly(lim, Init(lim, nhosts), acts, t => Orderly(lim, t));
    assert AskAt(Exec(lim, Init(lim, nhosts), acts), k);
  }

  /** A request that does come early is lost: for any limits there is a run that leaves a connection ready for
      ops, its send thread handing every one back, with no close on its way. */
  lemma RequestLost(lim: Limits, nhosts: nat, op: Op) returns (t: State)
    requires LimitsOk(lim) && nhosts >= 1 && op.host == 0 && op.work <= lim.maxWork
    ensures Reaches(lim, nhosts, t) && |t.hosts| == nhosts && t.que == []
    ensures t.conns == [NewConn(0).(state := 1, send := SDrain, recv := RLoop)]
  {
    var s := FirstConn(lim, nhosts, op);
    var s1 := Onward(lim, nhosts, s, Thread(0, ConnectOk));
    assert [] + [Connected] == [Connected] && [Connected][1..] == [];
    assert s1.conns == [NewConn(0).(send := SLoop, internal := [Connected])];
    var s2 := Onward(lim, nhosts, s1, Thread(0, SIdle));
    assert s2.conns == [NewConn(0).(send := SAsk, internal := [Connected])];
    var s3 := Onward(lim, nhosts, s2, Thread(0, SRequest));
    assert s3.conns == [NewConn(0).(send := SDrain, internal := [Connected])] && s3.que == [CloseReq(0)];
    var s4 := Onward(lim, nhosts, s3, Central(false));
    assert s4.conns == s3.conns && s4.que == [];
    t := LateReady(lim, nhosts, s4);
  }

  lemma LateReady(lim: Limits, nhosts: nat, s: State) returns (t: State)
    requires Reaches(lim, nhosts, s) && |s.hosts| == nhosts >= 1 && s.que == []
    requires s.conns == [NewConn(0).(send := SDrain, internal := [Connected])]
    ensures Reaches(lim, nhosts, t) && |t.hosts| == nhosts && t.que == []
    ensures t.conns == [NewConn(0).(state := 1, send := SDrain, recv := RLoop)]
  {
    assert [Connected][1..] == [];
    var s1 := Onward(lim, nhosts, s, Thread(0, RReady));
    assert s1.conns == [NewConn(0).(send := SDrain, recv := RLoop)] && s1.que == [Ready(0)];
    t := Onward(lim, nhosts, s1, Central(false));
  }

  // ---------------------------------------------------------------- a host that cannot be reached

  /** No connection of the host has been ready yet. */
  ghost predicate AllStarting(conns: seq<Conn>, h: nat) {
    forall k :: 0 <= k < |conns| && conns[k].open && conns[k].host == h ==> conns[k].state == 0
  }

  lemma {:induction false} LimboIsAll(conns: seq<Conn>, que: seq<Msg>, h: nat, n: nat)
    requires n <= |conns|
    ensures Sum(conns, que, LimboIn(h), n) <= OpenCount(conns[..n], h)
    ensures Sum(conns, que, LimboIn(h), n) == OpenCount(conns[..n], h) <==> AllStarting(conns[..n], h)
  {
    if n > 0 {
      LimboIsAll(conns, que, h, n - 1);
      assert conns[..n][..n - 1] == conns[..n - 1];
      assert forall k :: 0 <= k < n - 1 ==> conns[..n][k] == conns[..n - 1][k];
    }
  }

  /** When a connection ends that was never ready, and none of its host's others has been ready, the host's
      stable count goes down by one; at zero and with no connection left the host is given up. In all
      other cases nothing of the kind happens. */
  lemma GivenUpOnlyIf(s: State, deadAllowed: bool)
    requires Inv(s) && s.que != [] && s.que[0].Closed? && MsgOk(s, s.que[0])
    ensures var c, t := s.que[0].c, Receive(s, deadAllowed);
            var h := s.conns[c].host;
            var failed := s.conns[c].state == 0 && AllStarting(t.conns, h);
            && h < |t.hosts| == |s.hosts|
            && t.hosts[h].stable == s.hosts[h].stable - (if failed && s.hosts[h].stable > 0 then 1 else 0)
            && (t.hosts[h].dead <==> s.hosts[h].dead || (failed && s.hosts[h].stable <= 0 && OpenCount(t.conns, h) == 0 && deadAllowed))
  {
    var c, t := s.que[0].c, Receive(s, deadAllowed);
    var h := s.conns[c].host;
    ClosedKeeps(s, deadAllowed);
    LimboMeans(t, h);
    ClosedHost(s.(que := s.que[1..]), t, c, s.que[0].req, deadAllowed);
  }

  lemma LimboMeans(t: State, h: nat)
    requires Inv(t) && h < |t.hosts|
    ensures OpenCount(t.conns, h) <= t.hosts[h].limbo <==> AllStarting(t.conns, h)
  {
    assert HostOk(t, h);
    LimboIsAll(t.conns, t.que, h, |t.conns|);
    assert t.conns[..|t.conns|] == t.conns;
  }

  lemma ClosedHost(s: State, t: State, c: nat, req: Option<nat>, deadAllowed: bool)
    requires c < |s.conns| && s.conns[c].host < |s.hosts| && (req.Some? ==> req.value < |s.hosts|)
    requires t == HandleClosed(s, c, req, deadAllowed)
    ensures var h := s.conns[c].host;
            var failed := s.conns[c].state == 0 && OpenCount(t.conns, h) <= t.hosts[h].limbo;
            && t.hosts[h].stable == s.hosts[h].stable - (if failed && s.hosts[h].stable > 0 then 1 else 0)
            && (t.hosts[h].dead <==> s.hosts[h].dead || (failed && s.hosts[h].stable <= 0 && OpenCount(t.conns, h) == 0 && deadAllowed))
  {
  }

  // ---------------------------------------------------------------- a closing connection

  /** A connection that has been told to close stays so and is given no more ops. */
  lemma ClosingStays(lim: Limits, s: State, a: Step, k: nat)
    requires LimitsOk(lim) && Inv(s) && Enabled(lim, s, a) && k < |s.conns| && s.conns[k].state == 2
    ensures k < |Apply(lim, s, a).conns| && Apply(lim, s, a).conns[k].state == 2
    ensures !(a.Send? && a.c == k)
  {
    match a
    case Central(deadAllowed) => if s.que[0].Ready? && s.que[0].c == k { ReadyIsFirst(s); }
    case Resize(h, vs, late, unpaused) =>
      var p := MakePlan(lim, s.hosts[h], OpenCount(s.conns, h), s.hpRunning, s.running, s.pendingTotal, late, unpaused);
      var t := s.(hosts := s.hosts[h := s.hosts[h].(stable := p.stable)]);
      CloseAllState(t, h, vs, k);
      AddConnsState(CloseAll(t, h, vs), h, if p.create < 0 then 0 else p.create, k);
    case _ =>
  }

  lemma ReadyIsFirst(s: State)
    requires Inv(s) && s.que != [] && s.que[0].Ready?
    ensures s.que[0].c < |s.conns| && s.conns[s.que[0].c].state == 0
  {
    var c := s.que[0].c;
    PopConn(s, s.(que := s.que[1..]));
    ReadyConn(s.conns[c], Outbox(s.que, c), c, |s.hosts|);
  }

  lemma {:induction false} CloseAllState(s: State, h: nat, vs: seq<nat>, k: nat)
    requires h < |s.hosts| && Victims(s, vs) && k < |s.conns| && (s.conns[k].state == 2 || k in vs)
    ensures |CloseAll(s, h, vs).conns| == |s.conns| && CloseAll(s, h, vs).conns[k].state == 2
    decreases |vs|
  {
    if vs != [] { CloseAllState(CloseFor(s, h, vs[0]), h, vs[1..], k); }
  }

  lemma {:induction false} AddConnsState(s: State, h: nat, n: nat, k: nat)
    requires h < |s.hosts| && k < |s.conns|
    ensures |AddConns(s, h, n).conns| >= |s.conns| && AddConns(s, h, n).conns[k] == s.conns[k]
    decreases n
  {
    if n > 0 { AddConnsState(AddConn(s, h), h, n - 1, k); }
  }

  /** The connections chosen to make room and those closed on shutdown are told so. */
  lemma ClosingBegins(lim: Limits, s: State, a: Step, k: nat)
    requires LimitsOk(lim) && Inv(s) && Enabled(lim, s, a) && k < |s.conns|
    requires (a.Shutdown? && a.c == k) || (a.Resize? && k in a.vs)
    ensures k < |Apply(lim, s, a).conns| && Apply(lim, s, a).conns[k].state == 2
  {
    if a.Resize? {
      var p := MakePlan(lim, s.hosts[a.h], OpenCount(s.conns, a.h), s.hpRunning, s.running, s.pendingTotal, a.late, a.unpaused);
      var t := s.(hosts := s.hosts[a.h := s.hosts[a.h].(stable := p.stable)]);
      CloseAllState(t, a.h, a.vs, k);
      AddConnsState(CloseAll(t, a.h, a.vs), a.h, if p.create < 0 then 0 else p.create, k);
    }
  }
}
