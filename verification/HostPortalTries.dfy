/** How often an op is tried: over every run its tries are those it came with less the failed attempts,
    and it is given up exactly when none is left. */
module HostPortalTries {
  import opened HostPortal
  import opened HostPortalConn
  import opened HostPortalInv
  import opened HostPortalCentral
  import opened HostPortalSteps
  import opened HostPortalTheorems
  import opened HostPortalLoad

  // ---------------------------------------------------------------- the tries of one op

  predicate OpHas(op: Op, x: nat, r: int) { op.id == x ==> op.retries == r }

  ghost predicate QueHas(que: seq<Msg>, x: nat, r: int) {
    forall i :: 0 <= i < |que| && (que[i].Gop? || que[i].Retry?) ==> OpHas(que[i].op, x, r)
  }

  ghost predicate OpsHave(ops: seq<Op>, x: nat, r: int) { forall i :: 0 <= i < |ops| ==> OpHas(ops[i], x, r) }

  ghost predicate InHas(q: seq<In>, x: nat, r: int) { forall i :: 0 <= i < |q| && q[i].Submit? ==> OpHas(q[i].op, x, r) }

  ghost predicate IntHas(q: seq<Internal>, x: nat, r: int) { forall i :: 0 <= i < |q| && q[i].Task? ==> OpHas(q[i].op, x, r) }

  ghost predicate ConnHas(c: Conn, x: nat, r: int) {
    && InHas(c.incoming, x, r) && IntHas(c.internal, x, r)
    && (c.send.SHand? ==> OpHas(c.send.op, x, r)) && (c.recv.RHand? ==> OpHas(c.recv.op, x, r))
  }

  /** Wherever op `x` is, it has `r` tries left. */
  ghost predicate Has(s: State, x: nat, r: int) {
    && QueHas(s.que, x, r)
    && (forall h :: 0 <= h < |s.hosts| ==> OpsHave(s.hosts[h].pending, x, r))
    && (forall k :: 0 <= k < |s.conns| ==> ConnHas(s.conns[k], x, r))
  }

  // ---------------------------------------------------------------- an op that is nowhere

  lemma {:induction false} InZero(q: seq<In>, x: nat, r: int)
    requires InTally(q, Id(x)) == 0
    ensures InHas(q, x, r)
  {
    if q != [] {
      InNat(q[1..], Id(x));
      InZero(q[1..], x, r);
      assert forall i :: 1 <= i < |q| ==> q[i] == q[1..][i - 1];
    }
  }

  lemma {:induction false} IntZero(q: seq<Internal>, x: nat, r: int)
    requires IntTally(q, Id(x)) == 0
    ensures IntHas(q, x, r)
  {
    if q != [] {
      IntNat(q[1..], Id(x));
      IntZero(q[1..], x, r);
      assert forall i :: 1 <= i < |q| ==> q[i] == q[1..][i - 1];
    }
  }

  lemma {:induction false} OpsZero(ops: seq<Op>, x: nat, r: int)
    requires OpsTally(ops, Id(x)) == 0
    ensures OpsHave(ops, x, r)
  {
    if ops != [] {
      var last := |ops| - 1;
      OpsTallyNat(ops[..last], x);
      OpsZero(ops[..last], x, r);
      assert forall i :: 0 <= i < last ==> ops[i] == ops[..last][i];
    }
  }

  lemma {:induction false} QueZero(que: seq<Msg>, n: nat, nh: nat, x: nat, r: int)
    requires QueOk(que, n, nh) && GopTally(que, Id(x)) == 0
    requires forall k :: 0 <= k < n ==> OutTally(Outbox(que, k), Id(x)) == 0
    ensures QueHas(que, x, r)
    decreases |que|
  {
    if que != [] {
      var m, rest := que[0], que[1..];
      GopNat(rest, x);
      forall k | 0 <= k < n
        ensures OutTally(Outbox(rest, k), Id(x)) == 0 && (Concerns(m, k) ==> MsgItem(m, Id(x)) == 0)
      {
        OutNat(Outbox(rest, k), Id(x));
        if Concerns(m, k) { assert Outbox(que, k)[1..] == Outbox(rest, k); } else { assert Outbox(que, k) == Outbox(rest, k); }
      }
      if !m.Gop? { assert Concerns(m, m.c); }
      QueZero(rest, n, nh, x, r);
      assert forall i :: 1 <= i < |que| ==> que[i] == rest[i - 1];
    }
  }

  lemma {:induction false} SumZero(conns: seq<Conn>, que: seq<Msg>, x: nat, n: nat, k: nat)
    requires k < n <= |conns| && Sum(conns, que, Live(Id(x)), n) == 0
    ensures Ledger(conns[k], Outbox(que, k), Id(x)) == 0
  {
    LiveNat(conns, que, x, n - 1);
    LedgerNat(conns[n - 1], Outbox(que, n - 1), Id(x));
    if k < n - 1 { SumZero(conns, que, x, n - 1, k); }
  }

  lemma {:induction false} PendZero(hosts: seq<Host>, x: nat, n: nat, h: nat)
    requires h < n <= |hosts| && PendTally(hosts, Id(x), n) == 0
    ensures OpsTally(hosts[h].pending, Id(x)) == 0
  {
    PendNat(hosts, x, n - 1);
    OpsTallyNat(hosts[n - 1].pending, x);
    if h < n - 1 { PendZero(hosts, x, n - 1, h); }
  }

  /** Live occurrences of op `x` */
  function Stock(s: State, x: nat): (n: int) {
    GopTally(s.que, Id(x)) + PendTally(s.hosts, Id(x), |s.hosts|) + Total(s, Live(Id(x)))
  }

  lemma Nowhere(s: State, x: nat, r: int)
    requires QueOk(s.que, |s.conns|, |s.hosts|) && Stock(s, x) == 0
    ensures Has(s, x, r)
  {
    GopNat(s.que, x);
    PendNat(s.hosts, x, |s.hosts|);
    LiveNat(s.conns, s.que, x, |s.conns|);
    forall k | 0 <= k < |s.conns|
      ensures ConnHas(s.conns[k], x, r) && OutTally(Outbox(s.que, k), Id(x)) == 0
    {
      SumZero(s.conns, s.que, x, |s.conns|, k);
      ConnZero(s.conns[k], Outbox(s.que, k), x, r);
    }
    QueZero(s.que, |s.conns|, |s.hosts|, x, r);
    forall h | 0 <= h < |s.hosts|
      ensures OpsHave(s.hosts[h].pending, x, r)
    {
      PendZero(s.hosts, x, |s.hosts|, h);
      OpsZero(s.hosts[h].pending, x, r);
    }
  }

  lemma ConnZero(c: Conn, q: seq<Msg>, x: nat, r: int)
    requires Ledger(c, q, Id(x)) == 0
    ensures ConnHas(c, x, r) && OutTally(q, Id(x)) == 0
  {
    InNat(c.incoming, Id(x));
    IntNat(c.internal, Id(x));
    OutNat(q, Id(x));
    InZero(c.incoming, x, r);
    IntZero(c.internal, x, r);
  }

  // ---------------------------------------------------------------- what a step costs

  /** The op that a step hands back or gives up, with its tries used by that: a refused send or a failed
      answer costs one, and so does a host without a usable connection; an op that is merely returned by
      a closing connection keeps its tries. */
  datatype Attempt = NoAttempt | Attempt(op: Op, cost: nat)

  function AttemptOf(s: State, a: Step): (r: Attempt) {
    match a
    case Thread(k, e) =>
      if k >= |s.conns| then NoAttempt
      else
        var c := s.conns[k];
        if e.RReject? && c.internal != [] && c.internal[0].Task? then Attempt(c.internal[0].op, 1)
        else if e.RRetry? && c.recv.RHand? then Attempt(c.recv.op, 1)
        else if e.SReturn? && c.incoming != [] && c.incoming[0].Submit? then Attempt(c.incoming[0].op, 0)
        else if e.RReturn? && c.internal != [] && c.internal[0].Task? then Attempt(c.internal[0].op, 0)
        else NoAttempt
    case Fail(h) =>
      if h < |s.hosts| && s.hosts[h].pending != [] then Attempt(s.hosts[h].pending[|s.hosts[h].pending| - 1], 1)
      else NoAttempt
    case _ => NoAttempt
  }

  function Cost(s: State, a: Step, x: nat): (n: nat) {
    var t := AttemptOf(s, a);
    if t.Attempt? && t.op.id == x then t.cost else 0
  }

  // ---------------------------------------------------------------- each step

  /** A thread step that costs `x` nothing */
  lemma ThreadHas(s: State, k: nat, e: Event, x: nat, r: int)
    requires k < |s.conns| && CanDo(s.conns[k], e) && Has(s, x, r) && Cost(s, Thread(k, e), x) == 0
    ensures var f := Do(s.conns[k], k, e);
            Has(s.(conns := s.conns[k := f.conn], que := s.que + f.out, completed := s.completed + f.done), x, r)
  {
    var f := Do(s.conns[k], k, e);
    assert ConnHas(s.conns[k], x, r);
    ConnStepHas(s.conns[k], k, e, x, r);
    var t := s.(conns := s.conns[k := f.conn], que := s.que + f.out, completed := s.completed + f.done);
    forall j | 0 <= j < |t.conns| ensures ConnHas(t.conns[j], x, r) { assert ConnHas(s.conns[j], x, r); }
  }

  lemma ConnStepHas(c: Conn, k: nat, e: Event, x: nat, r: int)
    requires CanDo(c, e) && ConnHas(c, x, r)
    requires e.RReject? ==> c.internal[0].op.id != x
    requires e.RRetry? ==> c.recv.op.id != x
    ensures ConnHas(Do(c, k, e).conn, x, r) && QueHas(Do(c, k, e).out, x, r)
  {
  }

  /** A message comes off the central queue and its op, if it has one, is routed. */
  lemma ReceiveHas(s: State, deadAllowed: bool, x: nat, r: int)
    requires s.que != [] && MsgOk(s, s.que[0]) && Has(s, x, r)
    ensures Has(Receive(s, deadAllowed), x, r)
  {
    var m, t, u := s.que[0], s.(que := s.que[1..]), Receive(s, deadAllowed);
    assert forall i :: 0 <= i < |t.que| ==> t.que[i] == s.que[i + 1];
    assert QueHas(u.que, x, r);
    forall k | 0 <= k < |u.conns| ensures ConnHas(u.conns[k], x, r) { assert ConnHas(s.conns[k], x, r); }
    forall h | 0 <= h < |u.hosts| ensures OpsHave(u.hosts[h].pending, x, r) { assert OpsHave(s.hosts[h].pending, x, r); }
  }

  lemma {:induction false} CloseAllHas(s: State, h: nat, vs: seq<nat>, x: nat, r: int)
    requires h < |s.hosts| && Victims(s, vs) && Has(s, x, r)
    ensures Has(CloseAll(s, h, vs), x, r)
    decreases |vs|
  {
    if vs != [] {
      var t := CloseFor(s, h, vs[0]);
      forall k | 0 <= k < |t.conns| ensures ConnHas(t.conns[k], x, r) { assert ConnHas(s.conns[k], x, r); }
      CloseAllHas(t, h, vs[1..], x, r);
    }
  }

  lemma {:induction false} AddConnsHas(s: State, h: nat, n: nat, x: nat, r: int)
    requires h < |s.hosts| && Has(s, x, r)
    ensures Has(AddConns(s, h, n), x, r)
    decreases n
  {
    if n > 0 { AddConnsHas(AddConn(s, h), h, n - 1, x, r); }
  }

  lemma ResizeHas(lim: Limits, s: State, h: nat, vs: seq<nat>, late: bool, unpaused: bool, x: nat, r: int)
    requires LimitsOk(lim) && h < |s.hosts| && Victims(s, vs) && Has(s, x, r)
    ensures Has(Adjust(lim, s, h, vs, late, unpaused), x, r)
  {
    var p := MakePlan(lim, s.hosts[h], OpenCount(s.conns, h), s.hpRunning, s.running, s.pendingTotal, late, unpaused);
    var t := s.(hosts := s.hosts[h := s.hosts[h].(stable := p.stable)]);
    CloseAllHas(t, h, vs, x, r);
    AddConnsHas(CloseAll(t, h, vs), h, if p.create < 0 then 0 else p.create, x, r);
  }

  lemma DispatchHas(s: State, h: nat, c: nat, x: nat, r: int)
    requires h < |s.hosts| && c < |s.conns| && s.hosts[h].pending != [] && Has(s, x, r)
    ensures Has(Dispatch(s, h, c), x, r)
  {
    var t := Dispatch(s, h, c);
    assert OpsHave(s.hosts[h].pending, x, r);
    forall k | 0 <= k < |t.conns| ensures ConnHas(t.conns[k], x, r) { assert ConnHas(s.conns[k], x, r); }
    forall g | 0 <= g < |t.hosts| ensures OpsHave(t.hosts[g].pending, x, r) { assert OpsHave(s.hosts[g].pending, x, r); }
  }

  lemma ShutdownHas(s: State, c: nat, x: nat, r: int)
    requires c < |s.conns| && Has(s, x, r)
    ensures Has(SendClose(s, c, None), x, r)
  {
    var t := SendClose(s, c, None);
    forall k | 0 <= k < |t.conns| ensures ConnHas(t.conns[k], x, r) { assert ConnHas(s.conns[k], x, r); }
  }

  lemma PendingHas(s: State, h: nat, hp: Host, x: nat, r: int)
    requires h < |s.hosts| && Has(s, x, r) && OpsHave(hp.pending, x, r)
    ensures Has(s.(hosts := s.hosts[h := hp]), x, r)
  {
  }

  /** A step that costs `x` nothing leaves it its tries. */
  lemma FreeStepHas(lim: Limits, s: State, a: Step, x: nat, r: int)
    requires Enabled(lim, s, a) && Has(s, x, r) && Cost(s, a, x) == 0 && (a.Issue? ==> OpHas(a.op, x, r))
    ensures Has(Apply(lim, s, a), x, r)
  {
    match a
    case Issue(op) =>
    case Thread(k, e) => ThreadHas(s, k, e, x, r);
    case Central(deadAllowed) => ReceiveHas(s, deadAllowed, x, r);
    case Send(h, c) => DispatchHas(s, h, c, x, r);
    case Fail(h) =>
      assert OpsHave(s.hosts[h].pending, x, r);
      PendingHas(s, h, UseUpTry(s, h).hosts[h], x, r);
    case FailPending(h) => PendingHas(s, h, FailAll(s, h).hosts[h], x, r);
    case Resize(h, vs, late, unpaused) => ResizeHas(lim, s, h, vs, late, unpaused, x, r);
    case Shutdown(c) => ShutdownHas(s, c, x, r);
    case Mark(h, dead) => PendingHas(s, h, s.hosts[h].(dead := dead), x, r);
  }

  /** Op `x` is in one place at most: once completed it is nowhere. */
  lemma CompletedNowhere(s: State, x: nat, r: int)
    requires Inv(s) && x in s.completed
    ensures Has(s, x, r)
  {
    assert Places(s, x) == if x in s.issued then 1 else 0;
    IdTallyMember(s.completed, x);
    GopNat(s.que, x);
    PendNat(s.hosts, x, |s.hosts|);
    LiveNat(s.conns, s.que, x, |s.conns|);
    Nowhere(s, x, r);
  }

  /** With one live occurrence more than `u` the state `t` holds all there can be. */
  lemma RestNowhere(t: State, u: State, x: nat, r: int)
    requires Inv(t) && QueOk(u.que, |u.conns|, |u.hosts|) && Stock(u, x) == Stock(t, x) - 1
    ensures Has(u, x, r)
  {
    assert Places(t, x) == if x in t.issued then 1 else 0;
    IdTallyMember(t.completed, x);
    GopNat(u.que, x);
    PendNat(u.hosts, x, |u.hosts|);
    LiveNat(u.conns, u.que, x, |u.conns|);
    Nowhere(u, x, r);
  }

  /** An op handed back with one try less */
  lemma BounceHas(t: State, que: seq<Msg>, k: nat, op: Op)
    requires Inv(t) && k < |t.conns| && t.que == que + [Retry(k, op)]
    ensures Has(t, op.id, op.retries)
  {
    var u, m, x := t.(que := que), Retry(k, op), op.id;
    StockSnoc(t, que, k, op);
    assert forall i :: 0 <= i < |que| ==> que[i] == t.que[i];
    RestNowhere(t, u, x, op.retries);
    QueHasSnoc(que, m, x, op.retries);
  }

  lemma QueHasSnoc(que: seq<Msg>, m: Msg, x: nat, r: int)
    requires QueHas(que, x, r) && ((m.Gop? || m.Retry?) ==> OpHas(m.op, x, r))
    ensures QueHas(que + [m], x, r)
  {
  }

  lemma StockSnoc(t: State, que: seq<Msg>, k: nat, op: Op)
    requires k < |t.conns| && t.que == que + [Retry(k, op)]
    ensures Stock(t.(que := que), op.id) == Stock(t, op.id) - 1
  {
    var u, m, x := t.(que := que), Retry(k, op), op.id;
    forall j: nat ensures Outbox(t.que, j) == if j == k then Outbox(que, j) + [m] else Outbox(que, j) {
      OutboxSnoc(que, m, j);
    }
    assert AgreeBut(u, t, k);
    TotalPoint(u, t, k, Live(Id(x)));
    OutSnoc(Outbox(que, k), m, Id(x));
    GopSnoc(que, m, Id(x));
  }

  lemma UsedUpHas(s: State, t: State, h: nat)
    requires Inv(s) && Inv(t) && h < |s.hosts| && s.hosts[h].pending != [] && t == UseUpTry(s, h)
    ensures var op := s.hosts[h].pending[|s.hosts[h].pending| - 1]; Has(t, op.id, op.retries - 1)
  {
    var hp := s.hosts[h];
    var last := |hp.pending| - 1;
    var op := hp.pending[last];
    if op.retries <= 1 {
      assert t.completed[|s.completed|] == op.id;
      CompletedNowhere(t, op.id, op.retries - 1);
    } else {
      var u := s.(hosts := s.hosts[h := hp.(pending := hp.pending[..last])]);
      PendPoint(u.hosts, s.hosts, Id(op.id), h, |s.hosts|);
      RestNowhere(s, u, op.id, op.retries - 1);
      assert OpsHave(u.hosts[h].pending, op.id, op.retries - 1);
      PendingHas(u, h, t.hosts[h], op.id, op.retries - 1);
      assert t == u.(hosts := u.hosts[h := t.hosts[h]]);
    }
  }

  lemma ThreadCosts(s: State, t: State, k: nat, e: Event, x: nat, r: int)
    requires k < |s.conns| && CanDo(s.conns[k], e) && Has(s, x, r) && Cost(s, Thread(k, e), x) > 0 && Inv(t)
    requires var f := Do(s.conns[k], k, e);
             t == s.(conns := s.conns[k := f.conn], que := s.que + f.out, completed := s.completed + f.done)
    ensures Has(t, x, r - Cost(s, Thread(k, e), x))
  {
    var op := AttemptOf(s, Thread(k, e)).op;
    assert ConnHas(s.conns[k], x, r);
    if r > 1 {
      BounceHas(t, s.que, k, op.(retries := r - 1));
    } else {
      assert t.completed[|s.completed|] == x;
      CompletedNowhere(t, x, r - 1);
    }
  }

  /** Every step leaves an op its tries, less what the step costs it. */
  lemma StepHas(lim: Limits, s: State, a: Step, x: nat, r: int)
    requires LimitsOk(lim) && Inv(s) && Caps(lim, s) && Enabled(lim, s, a) && x in s.issued && Has(s, x, r)
    ensures Has(Apply(lim, s, a), x, r - Cost(s, a, x))
  {
    if Cost(s, a, x) == 0 {
      FreeStepHas(lim, s, a, x, r);
    } else {
      StepKeeps(lim, s, a);
      if a.Fail? {
        assert OpsHave(s.hosts[a.h].pending, x, r);
        UsedUpHas(s, Apply(lim, s, a), a.h);
      } else {
        ThreadCosts(s, Apply(lim, s, a), a.k, a.e, x, r);
      }
    }
  }

  ghost predicate Tracked(lim: Limits, s: State, x: nat, r: int) {
    Inv(s) && Caps(lim, s) && x in s.issued && Has(s, x, r)
  }

  lemma StepTracks(lim: Limits, s: State, a: Step, x: nat, r: int)
    requires LimitsOk(lim) && Enabled(lim, s, a) && Tracked(lim, s, x, r)
    ensures Tracked(lim, Apply(lim, s, a), x, r - Cost(s, a, x))
  {
    StepHas(lim, s, a, x, r);
    StepKeeps(lim, s, a);
    IssuedStays(lim, s, a);
  }

  // ---------------------------------------------------------------- over every run

  /** The tries of op `x` used up in a run */
  ghost function Spent(lim: Limits, s: State, acts: seq<Step>, x: nat): (n: nat)
    requires Runs(lim, s, acts)
    decreases |acts|
  {
    if acts == [] then 0 else Cost(s, acts[0], x) + Spent(lim, Apply(lim, s, acts[0]), acts[1..], x)
  }

  /** What every step keeps, with its cost taken off, every run keeps. */
  lemma {:induction false} RunInduction(lim: Limits, s: State, acts: seq<Step>, x: nat, r: int, p: (State, int) -> bool)
    requires Runs(lim, s, acts) && p(s, r)
    requires forall t, a, n :: p(t, n) && Enabled(lim, t, a) ==> p(Apply(lim, t, a), n - Cost(t, a, x))
    ensures p(Exec(lim, s, acts), r - Spent(lim, s, acts, x))
    decreases |acts|
  {
    if acts != [] { RunInduction(lim, Apply(lim, s, acts[0]), acts[1..], x, r - Cost(s, acts[0], x), p); }
  }

  lemma RunTracks(lim: Limits, s: State, acts: seq<Step>, x: nat, r: int)
    requires LimitsOk(lim) && Runs(lim, s, acts) && Tracked(lim, s, x, r)
    ensures Tracked(lim, Exec(lim, s, acts), x, r - Spent(lim, s, acts, x))
  {
    forall t, a, n | Tracked(lim, t, x, n) && Enabled(lim, t, a)
      ensures Tracked(lim, Apply(lim, t, a), x, n - Cost(t, a, x))
    {
      StepTracks(lim, t, a, x, n);
    }
    RunInduction(lim, s, acts, x, r, (t, n) => Tracked(lim, t, x, n));
  }

  lemma IssuedStays(lim: Limits, s: State, a: Step)
    requires LimitsOk(lim) && Enabled(lim, s, a)
    ensures s.issued <= Apply(lim, s, a).issued
  {
    if a.Resize? {
      var p := MakePlan(lim, s.hosts[a.h], OpenCount(s.conns, a.h), s.hpRunning, s.running, s.pendingTotal, a.late, a.unpaused);
      var t := s.(hosts := s.hosts[a.h := s.hosts[a.h].(stable := p.stable)]);
      CloseAllIssued(t, a.h, a.vs);
      AddConnsIssued(CloseAll(t, a.h, a.vs), a.h, if p.create < 0 then 0 else p.create);
    }
  }

  lemma {:induction false} CloseAllIssued(s: State, h: nat, vs: seq<nat>)
    requires h < |s.hosts| && Victims(s, vs)
    ensures CloseAll(s, h, vs).issued == s.issued && CloseAll(s, h, vs).completed == s.completed
    decreases |vs|
  {
    if vs != [] { CloseAllIssued(CloseFor(s, h, vs[0]), h, vs[1..]); }
  }

  lemma {:induction false} AddConnsIssued(s: State, h: nat, n: nat)
    requires h < |s.hosts|
    ensures AddConns(s, h, n).issued == s.issued && AddConns(s, h, n).completed == s.completed
    decreases n
  {
    if n > 0 { AddConnsIssued(AddConn(s, h), h, n - 1); }
  }

  /** The state in which op `op` has just been issued, after any run */
  ghost predicate JustIssued(lim: Limits, nhosts: nat, before: seq<Step>, op: Op, s: State) {
    && Runs(lim, Init(lim, nhosts), before) && Enabled(lim, Exec(lim, Init(lim, nhosts), before), Issue(op))
    && s == Apply(lim, Exec(lim, Init(lim, nhosts), before), Issue(op))
  }

  lemma IssuedTracks(lim: Limits, s: State, op: Op)
    requires LimitsOk(lim) && Inv(s) && Caps(lim, s) && Enabled(lim, s, Issue(op))
    ensures Tracked(lim, Apply(lim, s, Issue(op)), op.id, op.retries)
  {
    GopNat(s.que, op.id);
    PendNat(s.hosts, op.id, |s.hosts|);
    LiveNat(s.conns, s.que, op.id, |s.conns|);
    IdTallyMember(s.completed, op.id);
    assert Places(s, op.id) == 0;
    Nowhere(s, op.id, op.retries);
    FreeStepHas(lim, s, Issue(op), op.id, op.retries);
    StepKeeps(lim, s, Issue(op));
  }

  /** In every run, wherever an op is, its tries are those it was issued with less the failed attempts. */
  lemma TriesOverRuns(lim: Limits, nhosts: nat, before: seq<Step>, op: Op, s: State, after: seq<Step>)
    requires LimitsOk(lim) && JustIssued(lim, nhosts, before, op, s) && Runs(lim, s, after)
    ensures Has(Exec(lim, s, after), op.id, op.retries - Spent(lim, s, after, op.id))
  {
    InitHolds(lim, nhosts);
    RunKeeps(lim, Init(lim, nhosts), before);
    IssuedTracks(lim, Exec(lim, Init(lim, nhosts), before), op);
    RunTracks(lim, s, after, op.id, op.retries);
  }

  /** What a step completes: the op an answer came for, everything pending for a dead host, and an op
      handed back without a try left. */
  lemma CompletedBy(lim: Limits, s: State, a: Step)
    requires LimitsOk(lim) && Enabled(lim, s, a)
    ensures Apply(lim, s, a).completed == s.completed +
              (match AttemptOf(s, a)
               case Attempt(op, cost) => if op.retries - cost <= 0 then [op.id] else []
               case NoAttempt =>
                 if a.Thread? && a.e.RAnswered? then [s.conns[a.k].recv.op.id]
                 else if a.FailPending? then Ids(s.hosts[a.h].pending) else [])
  {
    if a.Resize? {
      var p := MakePlan(lim, s.hosts[a.h], OpenCount(s.conns, a.h), s.hpRunning, s.running, s.pendingTotal, a.late, a.unpaused);
      var t := s.(hosts := s.hosts[a.h := s.hosts[a.h].(stable := p.stable)]);
      CloseAllIssued(t, a.h, a.vs);
      AddConnsIssued(CloseAll(t, a.h, a.vs), a.h, if p.create < 0 then 0 else p.create);
    }
  }

  /** In every run an attempt that ends without an answer completes its op, as failed, exactly when the
      attempts it has cost so far are as many as the tries it was issued with. */
  lemma GivenUpIff(lim: Limits, nhosts: nat, before: seq<Step>, op: Op, s: State, after: seq<Step>, a: Step)
    requires LimitsOk(lim) && JustIssued(lim, nhosts, before, op, s) && Runs(lim, s, after)
    requires Enabled(lim, Exec(lim, s, after), a)
    requires AttemptOf(Exec(lim, s, after), a).Attempt? && AttemptOf(Exec(lim, s, after), a).op.id == op.id
    ensures var t := Exec(lim, s, after);
            Apply(lim, t, a).completed == t.completed +
              (if Spent(lim, s, after, op.id) + AttemptOf(t, a).cost >= op.retries then [op.id] else [])
  {
    TriesOverRuns(lim, nhosts, before, op, s, after);
    var t := Exec(lim, s, after);
    var r := op.retries - Spent(lim, s, after, op.id);
    if a.Fail? { assert OpsHave(t.hosts[a.h].pending, op.id, r); } else { assert ConnHas(t.conns[a.k], op.id, r); }
    CompletedBy(lim, t, a);
  }
}
