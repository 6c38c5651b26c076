/** When ops that wait for deeper ops can all get stuck, and when they cannot. */
module ThreadPoolDeadlock {
  import opened ThreadPool
  import opened ThreadPoolRuns

  /** No thread is inside the scheduler's own code. */
  ghost predicate Quiet(s: State) {
    s.entering == [] && s.leaving == [] && s.inHand == [] && s.checking == 0
  }

  ghost predicate Reserved(s: State, op: Op) {
    exists l :: 0 <= l < |s.pool.reserve| && op in s.pool.reserve[l]
  }

  /** Whenever a running op waits for another live op, that op is deeper. `waits` holds pairs of
      (waiting, awaited) op ids. */
  ghost predicate WaitsDeeper(s: State, waits: set<(nat, nat)>) {
    forall a, b :: a in s.running && (b in s.running || Reserved(s, b)) && (a.id, b.id) in waits ==>
      a.depth < b.depth
  }

  ghost predicate Blocked(s: State, a: Op, waits: set<(nat, nat)>) {
    exists b :: (b in s.running || Reserved(s, b)) && (a.id, b.id) in waits
  }

  /** The pushed ops that have a thread, when no thread is busy otherwise */
  function Served(s: State): (ops: seq<Op>)
    ensures forall op :: op in ops ==> op in s.running
  {
    if |s.running| <= Threads(s.pool) then s.running else s.running[..Threads(s.pool)]
  }

  /** Work is left, no thread is about to move any of it, and every op that has a thread waits for a
      live op: no thread will ever be free again. */
  ghost predicate Stuck(s: State, waits: set<(nat, nat)>) {
    && Quiet(s)
    && (s.running != [] || Total(s.pool.reserve) > 0)
    && forall a :: a in Served(s) ==> Blocked(s, a, waits)
  }

  ghost predicate AllDepths(s: State, lo: nat, hi: nat) {
    && (forall op :: op in s.running + s.entering + s.inHand ==> lo <= op.depth <= hi)
    && (forall l, op :: 0 <= l < |s.pool.reserve| && op in s.pool.reserve[l] ==> lo <= op.depth <= hi)
  }

  function Deepest(ops: seq<Op>): (m: Op)
    requires ops != []
    ensures m in ops && forall op :: op in ops ==> op.depth <= m.depth
  {
    if |ops| == 1 then ops[0]
    else
      var m := Deepest(ops[1..]);
      assert ops == [ops[0]] + ops[1..];
      if ops[0].depth > m.depth then ops[0] else m
  }

  /** Reserved work means running work. */
  lemma SomethingRuns(s: State)
    requires Inv(s) && Quiet(s) && Total(s.pool.reserve) > 0
    ensures s.running != []
  {
    var l :| 0 <= l < |s.pool.reserve| && s.pool.reserve[l] != [];
    var ops := s.running + s.entering + s.inHand;
    assert Dominates(ops, l, |s.pool.slots|);
    var r :| r in ops && Level(r.depth, |s.pool.slots|) >= l;
    assert r in s.running;
  }

  /** While no op is deeper than the last level, the deepest running op is the deepest live op. */
  lemma NothingDeeper(s: State, b: Op)
    requires Inv(s) && Quiet(s) && s.running != [] && (b in s.running || Reserved(s, b))
    requires AllDepths(s, 0, |s.pool.slots| - 1)
    ensures b.depth <= Deepest(s.running).depth
  {
    var ops := s.running + s.entering + s.inHand;
    assert Deepest(s.running) in ops;
    if b !in s.running {
      var l :| 0 <= l < |s.pool.reserve| && b in s.pool.reserve[l];
      assert Dominates(ops, l, |s.pool.slots|);
      var r :| r in ops && Level(r.depth, |s.pool.slots|) >= l;
      assert r in s.running;
    }
  }

  /** So, if the threads cover the running ops, one that has a thread waits for nothing live. */
  lemma SomeoneProceeds(s: State, waits: set<(nat, nat)>)
    requires Inv(s) && Quiet(s) && (s.running != [] || Total(s.pool.reserve) > 0)
    requires AllDepths(s, 0, |s.pool.slots| - 1) && |s.running| <= Threads(s.pool)
    requires WaitsDeeper(s, waits)
    ensures exists a :: a in Served(s) && !Blocked(s, a, waits)
  {
    if s.running == [] { SomethingRuns(s); }
    var a := Deepest(s.running);
    forall b | (b in s.running || Reserved(s, b)) ensures (a.id, b.id) !in waits {
      NothingDeeper(s, b);
    }
    assert a in Served(s);
  }

  /** Without nesting, every op that has a thread can go on, and one has. */
  lemma UnnestedProceeds(s: State, waits: set<(nat, nat)>)
    requires Inv(s) && Quiet(s) && (s.running != [] || Total(s.pool.reserve) > 0)
    requires AllDepths(s, 1, 1) && WaitsDeeper(s, waits)
    ensures exists a :: a in Served(s) && !Blocked(s, a, waits)
  {
    if s.running == [] { SomethingRuns(s); }
    var a := Served(s)[0];
    assert a in Served(s);
    forall op | op in s.running ensures op.depth == 1 { assert op in s.running + s.entering + s.inHand; }
    assert forall b :: (b in s.running || Reserved(s, b)) ==> b.depth == 1;
  }

  lemma PopDepths(p: Pool, lo: nat, hi: nat)
    requires Shape(p)
    requires forall l, op :: 0 <= l < |p.reserve| && op in p.reserve[l] ==> lo <= op.depth <= hi
    ensures forall l, op :: 0 <= l < |Next(p).0.reserve| && op in Next(p).0.reserve[l] ==> lo <= op.depth <= hi
    ensures Next(p).1.Some? ==> lo <= Next(p).1.value.depth <= hi
  {
  }

  lemma DepthStep(s: State, a: Step, lo: nat, hi: nat)
    requires Inv(s) && Enabled(s, a) && AllDepths(s, lo, hi)
    requires a.Issue? ==> lo <= a.op.depth <= hi
    ensures AllDepths(Apply(s, a), lo, hi)
  {
    var r := Apply(s, a);
    match a
    case Lock(k) =>
      assert s.entering[k] in s.running + s.entering + s.inHand;
      RemoveMembers(s.entering, k);
      PopDepths(Pushed(s.pool, s.entering[k]), lo, hi);
    case Grab => PopDepths(s.pool, lo, hi);
    case Resubmit(k) =>
      assert s.inHand[k] in s.running + s.entering + s.inHand;
      RemoveMembers(s.inHand, k);
    case Clear(k) => RemoveMembers(s.running, k);
    case _ =>
    forall op | op in r.running + r.entering + r.inHand ensures lo <= op.depth <= hi {
      if op in s.running + s.entering + s.inHand { }
    }
  }

  lemma {:induction false} DepthRun(s: State, acts: seq<Step>, d: nat)
    requires Inv(s) && ReservedSubmitted(s.pool) && Runs(s, acts)
    requires AllDepths(s, 1, d) && DepthsWithin(acts, d)
    ensures AllDepths(Exec(s, acts), 1, d)
    decreases |acts|
  {
    if acts != [] {
      StepKeeps(s, acts[0]);
      DepthStep(s, acts[0], 1, d);
      assert forall i :: 0 <= i < |acts[1..]| ==> acts[1..][i] == acts[i + 1];
      DepthRun(Apply(s, acts[0]), acts[1..], d);
    }
  }

  lemma {:induction false} LevelsConstant(s: State, acts: seq<Step>)
    requires Inv(s) && ReservedSubmitted(s.pool) && Runs(s, acts)
    ensures |Exec(s, acts).pool.slots| == |s.pool.slots|
    decreases |acts|
  {
    if acts != [] {
      StepKeeps(s, acts[0]);
      assert |Apply(s, acts[0]).pool.slots| == |s.pool.slots|;
      LevelsConstant(Apply(s, acts[0]), acts[1..]);
    }
  }
}
