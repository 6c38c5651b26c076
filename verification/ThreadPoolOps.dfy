/** Where the ops of the thread pool are, over every interleaving: none is lost, doubled or changed, and the
    reserve stacks are stacks. */
module ThreadPoolOps {
  import opened ThreadPool
  import opened ThreadPoolRuns

  // ---------------------------------------------------------------- every op is somewhere

  /** Ops with id `x` and depth `d` */
  function Count(ops: seq<Op>, x: nat, d: nat): (n: nat) {
    if ops == [] then 0
    else Count(ops[..|ops| - 1], x, d) + (if ops[|ops| - 1].id == x && ops[|ops| - 1].depth == d then 1 else 0)
  }

  function One(op: Op, x: nat, d: nat): (n: nat) { if op.id == x && op.depth == d then 1 else 0 }

  function Stacked(reserve: seq<seq<Op>>, x: nat, d: nat): (n: nat) {
    if reserve == [] then 0 else Stacked(reserve[..|reserve| - 1], x, d) + Count(reserve[|reserve| - 1], x, d)
  }

  lemma {:induction false} CountConcat(a: seq<Op>, b: seq<Op>, x: nat, d: nat)
    ensures Count(a + b, x, d) == Count(a, x, d) + Count(b, x, d)
  {
    if b == [] {
      assert a + b == a;
    } else {
      assert (a + b)[..|a + b| - 1] == a + b[..|b| - 1];
      CountConcat(a, b[..|b| - 1], x, d);
    }
  }

  lemma CountOne(op: Op, x: nat, d: nat)
    ensures Count([op], x, d) == One(op, x, d)
  {
    assert [op][..0] == [];
  }

  lemma CountRemove(s: seq<Op>, k: nat, x: nat, d: nat)
    requires k < |s|
    ensures Count(Remove(s, k), x, d) == Count(s, x, d) - One(s[k], x, d)
  {
    assert s == s[..k] + ([s[k]] + s[k + 1..]);
    CountConcat(s[..k], [s[k]] + s[k + 1..], x, d);
    CountConcat([s[k]], s[k + 1..], x, d);
    CountConcat(s[..k], s[k + 1..], x, d);
    CountOne(s[k], x, d);
  }

  lemma CountAdd(s: seq<Op>, op: Op, x: nat, d: nat)
    ensures Count(s + [op], x, d) == Count(s, x, d) + One(op, x, d)
  {
    CountConcat(s, [op], x, d);
    CountOne(op, x, d);
  }

  lemma {:induction false} StackedUpdate(reserve: seq<seq<Op>>, i: nat, s: seq<Op>, x: nat, d: nat)
    requires i < |reserve|
    ensures Stacked(reserve[i := s], x, d) == Stacked(reserve, x, d) - Count(reserve[i], x, d) + Count(s, x, d)
  {
    var last := |reserve| - 1;
    if i == last {
      assert reserve[i := s][..last] == reserve[..last];
    } else {
      assert reserve[i := s][..last] == reserve[..last][i := s];
      StackedUpdate(reserve[..last], i, s, x, d);
    }
  }

  function Given(g: Option<Op>, x: nat, d: nat): (n: nat) { if g.Some? then One(g.value, x, d) else 0 }

  /** What is released comes off the stacks. */
  lemma NextCounts(p: Pool, x: nat, d: nat)
    requires Shape(p)
    ensures Stacked(Next(p).0.reserve, x, d) + Given(Next(p).1, x, d) == Stacked(p.reserve, x, d)
  {
    var i := Pick(p.reserve, if p.nRunning >= p.maxConc then Dmax(p.slots) else -1);
    if i != -1 {
      StackedUpdate(p.reserve, i, p.reserve[i][1..], x, d);
      assert p.reserve[i] == [p.reserve[i][0]] + p.reserve[i][1..];
      CountConcat([p.reserve[i][0]], p.reserve[i][1..], x, d);
      CountOne(p.reserve[i][0], x, d);
    }
  }

  lemma AdmitCounts(p: Pool, op: Op, x: nat, d: nat)
    requires Shape(p) && SlotOk(op, |p.slots|)
    ensures Stacked(Admit(p, op).0.reserve, x, d) + Given(Admit(p, op).1, x, d) == Stacked(p.reserve, x, d) + One(op, x, d)
  {
    var l := Level(op.depth, |p.slots|);
    var q := p.(nOverflow := p.nOverflow + 1, reserve := p.reserve[l := [op] + p.reserve[l]]);
    StackedUpdate(p.reserve, l, [op] + p.reserve[l], x, d);
    CountConcat([op], p.reserve[l], x, d);
    CountOne(op, x, d);
    NextCounts(q, x, d);
  }

  /** Occurrences of an op anywhere in the pool */
  function Places(s: State, x: nat, d: nat): (n: nat) {
    Count(s.running, x, d) + Count(s.entering, x, d) + Count(s.inHand, x, d) + Stacked(s.pool.reserve, x, d)
  }

  /** What a step adds: an op that is issued comes, one whose function has returned goes. */
  function Change(s: State, a: Step, x: nat, d: nat): (n: int) {
    match a
    case Issue(op) => One(op, x, d)
    case Clear(k) => if k < |s.running| then 0 - One(s.running[k], x, d) else 0
    case _ => 0
  }

  lemma BeginCounts(s: State, op: Op, x: nat, d: nat)
    ensures Places(Begin(s, op), x, d) == Places(s, x, d) + One(op, x, d)
  {
    var started, r := op.(viaSubmit := true), Begin(s, op);
    assert One(started, x, d) == One(op, x, d);
    assert r.pool.reserve == s.pool.reserve && r.inHand == s.inHand;
    if s.pool.nRunning + 1 > s.pool.maxConc {
      assert r.running == s.running && r.entering == s.entering + [started];
      CountAdd(s.entering, started, x, d);
    } else {
      assert r.entering == s.entering && r.running == s.running + [started];
      CountAdd(s.running, started, x, d);
    }
  }

  lemma AddCounts(s: seq<Op>, g: Option<Op>, x: nat, d: nat)
    ensures Count(Add(s, g), x, d) == Count(s, x, d) + Given(g, x, d)
  {
    if g.Some? { CountAdd(s, g.value, x, d); }
  }

  lemma LockCounts(s: State, k: nat, x: nat, d: nat)
    requires Enabled(s, Lock(k))
    ensures Places(Apply(s, Lock(k)), x, d) == Places(s, x, d)
  {
    AdmitCounts(s.pool, s.entering[k], x, d);
    CountRemove(s.entering, k, x, d);
    AddCounts(s.running, Admit(s.pool, s.entering[k]).1, x, d);
  }

  lemma GrabCounts(s: State, x: nat, d: nat)
    requires Enabled(s, Grab)
    ensures Places(Apply(s, Grab), x, d) == Places(s, x, d)
  {
    NextCounts(s.pool, x, d);
    AddCounts(s.inHand, Take(s.pool).1, x, d);
  }

  lemma StepCounts(s: State, a: Step, x: nat, d: nat)
    requires Enabled(s, a)
    ensures Places(Apply(s, a), x, d) == Places(s, x, d) + Change(s, a, x, d)
  {
    match a
    case Issue(op) => BeginCounts(s, op, x, d);
    case Resubmit(k) =>
      CountRemove(s.inHand, k, x, d);
      BeginCounts(s.(inHand := Remove(s.inHand, k)), s.inHand[k], x, d);
    case Lock(k) => LockCounts(s, k, x, d);
    case Clear(k) => CountRemove(s.running, k, x, d);
    case Grab => GrabCounts(s, x, d);
    case _ =>
  }

  /** Ops with that id and depth that were issued in a run less those that ended */
  ghost function Balance(s: State, acts: seq<Step>, x: nat, d: nat): (n: int)
    requires Runs(s, acts)
    decreases |acts|
  {
    if acts == [] then 0 else Change(s, acts[0], x, d) + Balance(Apply(s, acts[0]), acts[1..], x, d)
  }

  lemma {:induction false} RunCounts(s: State, acts: seq<Step>, x: nat, d: nat)
    requires Runs(s, acts)
    ensures Places(Exec(s, acts), x, d) == Places(s, x, d) + Balance(s, acts, x, d)
    decreases |acts|
  {
    if acts != [] {
      StepCounts(s, acts[0], x, d);
      RunCounts(Apply(s, acts[0]), acts[1..], x, d);
    }
  }

  lemma {:induction false} EmptyStacks(reserve: seq<seq<Op>>, x: nat, d: nat)
    requires forall i :: 0 <= i < |reserve| ==> reserve[i] == []
    ensures Stacked(reserve, x, d) == 0
  {
    if reserve != [] { EmptyStacks(reserve[..|reserve| - 1], x, d); }
  }

  /** In every run, however threads interleave, an op that was issued and has not ended is in just one place,
      with its depth. */
  lemma OpsOverRuns(maxConc: nat, levels: nat, acts: seq<Step>, x: nat, d: nat)
    requires Runs(Init(maxConc, levels), acts)
    ensures Places(Exec(Init(maxConc, levels), acts), x, d) == Balance(Init(maxConc, levels), acts, x, d)
  {
    RunCounts(Init(maxConc, levels), acts, x, d);
    EmptyStacks(Init(maxConc, levels).pool.reserve, x, d);
  }

  // ---------------------------------------------------------------- last reserved, first released

  /** A stack after something was put on it, or its top taken off, or neither */
  ghost predicate TopOnly(was: seq<Op>, now: seq<Op>) {
    now == was || (was != [] && now == was[1..]) || (now != [] && now[1..] == was)
  }

  lemma NextTops(p: Pool, l: nat)
    requires Shape(p) && l < |p.reserve|
    ensures |Next(p).0.reserve| == |p.reserve|
    ensures Next(p).0.reserve[l] == p.reserve[l] || (p.reserve[l] != [] && Next(p).0.reserve[l] == p.reserve[l][1..])
  {
  }

  lemma AdmitTops(p: Pool, op: Op, l: nat)
    requires Shape(p) && SlotOk(op, |p.slots|) && l < |p.reserve|
    ensures |Admit(p, op).0.reserve| == |p.reserve| && TopOnly(p.reserve[l], Admit(p, op).0.reserve[l])
  {
    var v := Level(op.depth, |p.slots|);
    var q := p.(nOverflow := p.nOverflow + 1, reserve := p.reserve[v := [op] + p.reserve[v]]);
    NextTops(q, l);
    assert ([op] + p.reserve[v])[1..] == p.reserve[v];
  }

  lemma StepTops(s: State, a: Step, l: nat)
    requires Enabled(s, a) && l < |s.pool.reserve|
    ensures |Apply(s, a).pool.reserve| == |s.pool.reserve| && TopOnly(s.pool.reserve[l], Apply(s, a).pool.reserve[l])
  {
    match a
    case Lock(k) => AdmitTops(s.pool, s.entering[k], l);
    case Grab => NextTops(s.pool, l);
    case _ =>
  }

  function Bottom(stack: seq<Op>, b: nat): (r: seq<Op>)
    requires b <= |stack|
  {
    stack[|stack| - b..]
  }

  /** The stack of level `l` holds at least `b` ops all through the run. */
  ghost predicate NeverBelow(s: State, acts: seq<Step>, l: nat, b: nat)
    requires Runs(s, acts)
    decreases |acts|
  {
    && l < |s.pool.reserve| && b <= |s.pool.reserve[l]|
    && (acts == [] || NeverBelow(Apply(s, acts[0]), acts[1..], l, b))
  }

  lemma BottomStep(s: State, a: Step, l: nat, b: nat)
    requires Enabled(s, a) && l < |s.pool.reserve| && b <= |s.pool.reserve[l]|
    requires l < |Apply(s, a).pool.reserve| && b <= |Apply(s, a).pool.reserve[l]|
    ensures Bottom(Apply(s, a).pool.reserve[l], b) == Bottom(s.pool.reserve[l], b)
  {
    StepTops(s, a, l);
  }

  /** Last reserved, first released: as long as a stack does not shrink below a height, what is up to that
      height stays, in order. */
  lemma {:induction false} LastFirst(s: State, acts: seq<Step>, l: nat, b: nat)
    requires Runs(s, acts) && NeverBelow(s, acts, l, b)
    ensures l < |Exec(s, acts).pool.reserve| && b <= |Exec(s, acts).pool.reserve[l]|
    ensures Bottom(Exec(s, acts).pool.reserve[l], b) == Bottom(s.pool.reserve[l], b)
    decreases |acts|
  {
    if acts != [] {
      BottomStep(s, acts[0], l, b);
      LastFirst(Apply(s, acts[0]), acts[1..], l, b);
    }
  }
}
