/** The thread bound of the pool: it holds when the epilogue of an op is not interrupted between its
    pick and its submit, and fails without that. */
module ThreadPoolAtomic {
  import opened ThreadPool
  import opened ThreadPoolRuns

  /** A pool between steps, each submit and each epilogue being one step. */
  datatype AState = AState(pool: Pool, running: seq<Op>)

  datatype AStep = ASubmit(op: Op) | AFinish(k: nat) | ASync(op: Op)

  function Lift(a: AState): (s: State) {
    State(a.pool, a.running, [], [], 0, [])
  }

  ghost predicate AEnabled(a: AState, x: AStep) {
    Typed(Lift(a)) &&
    match x
    case ASubmit(op) => op.slot == -1
    case AFinish(k) => k < |a.running|
    case ASync(op) => op.slot == -1 && !op.viaSubmit
  }

  ghost function AApply(a: AState, x: AStep): (r: AState)
    requires AEnabled(a, x)
  {
    match x
    case ASubmit(op) =>
      var (q, g) := Submit(a.pool, op);
      AState(q, Add(a.running, g))
    case AFinish(k) =>
      assert a.running[k] in a.running;
      var (q, g) := Finish(a.pool, a.running[k]);
      AState(q, Add(Remove(a.running, k), g))
    case ASync(op) =>
      var (q, g) := Finish(a.pool, op);
      AState(q, Add(a.running, g))
  }

  ghost predicate ARuns(a: AState, xs: seq<AStep>)
    decreases |xs|
  {
    xs == [] || (AEnabled(a, xs[0]) && ARuns(AApply(a, xs[0]), xs[1..]))
  }

  ghost function AExec(a: AState, xs: seq<AStep>): (r: AState)
    requires ARuns(a, xs)
    decreases |xs|
  {
    if xs == [] then a else AExec(AApply(a, xs[0]), xs[1..])
  }

  function Unslotted(s: seq<Op>): (n: nat)
    ensures n <= |s|
  {
    if s == [] then 0
    else Unslotted(s[..|s| - 1]) + (if s[|s| - 1].slot == -1 then 1 else 0)
  }

  lemma UnslottedSnoc(s: seq<Op>, op: Op)
    ensures Unslotted(s + [op]) == Unslotted(s) + (if op.slot == -1 then 1 else 0)
  {
    assert (s + [op])[..|s|] == s;
  }

  lemma {:induction false} UnslottedRemove(s: seq<Op>, k: nat)
    requires k < |s|
    ensures Unslotted(Remove(s, k)) == Unslotted(s) - (if s[k].slot == -1 then 1 else 0)
  {
    var last := |s| - 1;
    if k == last {
      assert Remove(s, k) == s[..last];
    } else {
      UnslottedRemove(s[..last], k);
      assert Remove(s, k) == Remove(s[..last], k) + [s[last]];
      UnslottedSnoc(Remove(s[..last], k), s[last]);
    }
  }

  /** Running ops with a slot hold pairwise different ones, each marked with their level. */
  ghost predicate Owned(slots: seq<int>, running: seq<Op>) {
    && |slots| >= 1
    && (forall i :: 0 <= i < |running| && running[i].slot != -1 ==>
          0 <= running[i].slot < |slots| && slots[running[i].slot] != -1)
    && (forall i, j :: 0 <= i < j < |running| && running[i].slot != -1 ==> running[i].slot != running[j].slot)
  }

  ghost predicate Clean(p: Pool) {
    forall l, op :: 0 <= l < |p.reserve| && op in p.reserve[l] ==> op.slot == -1 && op.viaSubmit
  }

  ghost predicate Placed(p: Pool, running: seq<Op>) {
    && PoolOk(p) && Clean(p) && Owned(p.slots, running)
    && p.nRunning == |running| && (forall op :: op in running ==> op.viaSubmit)
    && Unslotted(running) <= p.maxConc
  }

  ghost predicate AInv(a: AState) {
    && Placed(a.pool, a.running)
    && (Total(a.pool.reserve) > 0 ==> a.pool.nRunning >= a.pool.maxConc)
  }

  function Used(slots: seq<int>): (u: set<int>) {
    set k | 0 <= k < |slots| && slots[k] != -1
  }

  ghost predicate HeldBy(running: seq<Op>, k: int) { exists i :: 0 <= i < |running| && running[i].slot == k }

  lemma HeldGrows(front: seq<Op>, op: Op, k: int)
    requires HeldBy(front, k)
    ensures HeldBy(front + [op], k)
  {
    var i :| 0 <= i < |front| && front[i].slot == k;
    assert (front + [op])[i].slot == k;
  }

  lemma {:induction false} SlottedCard(slots: seq<int>, running: seq<Op>) returns (held: set<int>)
    requires Owned(slots, running)
    ensures |held| == |running| - Unslotted(running)
    ensures forall k :: k in held ==> k in Used(slots) && HeldBy(running, k)
  {
    if running == [] {
      held := {};
    } else {
      var last := |running| - 1;
      var front, op := running[..last], running[last];
      held := SlottedCard(slots, front);
      assert op.slot != -1 ==> !HeldBy(front, op.slot);
      assert running == front + [op];
      forall k | k in held
        ensures HeldBy(running, k)
      {
        HeldGrows(front, op, k);
      }
      if op.slot != -1 {
        assert HeldBy(running, op.slot);
        held := held + {op.slot};
      }
    }
  }

  /** Never more ops run than the free places plus the slots in use, which the threads cover. */
  lemma ThreadBound(a: AState)
    requires AInv(a)
    ensures a.pool.nRunning <= a.pool.maxConc + |Used(a.pool.slots)|
    ensures |Used(a.pool.slots)| <= |a.pool.slots|
  {
    var held := SlottedCard(a.pool.slots, a.running);
    assert held <= Used(a.pool.slots);
    CardMonotone(held, Used(a.pool.slots));
    assert Used(a.pool.slots) <= Below(|a.pool.slots|);
    CardMonotone(Used(a.pool.slots), Below(|a.pool.slots|));
  }

  // ---------------------------------------------------------------- an uninterrupted epilogue

  lemma PickDependsOnEmptiness(r: seq<seq<Op>>, r': seq<seq<Op>>, dmax: int)
    requires -1 <= dmax && |r| == |r'|
    requires forall l :: 0 <= l < |r| ==> (r[l] == [] <==> r'[l] == [])
    ensures Pick(r, dmax) == Pick(r', dmax)
  {
  }

  /** Submitting a picked op again releases exactly that op: the slot it was given, then lost, is
      given to it once more. */
  lemma ResubmitReleasesSame(p: Pool)
    requires PoolOk(p) && Clean(p) && Next(p).1.Some?
    ensures Submit(Take(p).0, Take(p).1.value) ==
            (Next(p).0.(nRunning := p.nRunning + 1), Next(p).1)
  {
    TakeFacts(p);
    NextKeepsPool(p);
    NextGivesSlot(p);
    var (q, gg) := Next(p);
    var g := gg.value;
    var t := Take(p).0;
    var full := p.nRunning >= p.maxConc;
    var dmax := if full then Dmax(p.slots) else -1;
    var i := Pick(p.reserve, dmax);
    assert p.reserve[i][0] in p.reserve[i];
    assert g.viaSubmit && g.(viaSubmit := true) == g && Level(g.depth, |p.slots|) == i;
    if full {
      var m := Pushed(Enter(t), g);
      assert m.reserve == p.reserve[i := [g] + p.reserve[i][1..]];
      PickDependsOnEmptiness(p.reserve, m.reserve, dmax);
      assert m.reserve[i][1..] == p.reserve[i][1..];
      assert m.reserve[i := m.reserve[i][1..]] == q.reserve;
    }
  }

  lemma LeavePool(p: Pool, op: Op)
    requires PoolOk(p) && Clean(p) && SlotOk(op, |p.slots|)
    ensures PoolOk(Leave(p, op)) && Clean(Leave(p, op))
  {
    var q := Leave(p, op);
    assert q.reserve == p.reserve;
  }

  lemma OwnedRemove(slots: seq<int>, running: seq<Op>, k: nat)
    requires Owned(slots, running) && k < |running| && SlotOk(running[k], |slots|)
    ensures Owned(FreeSlot(slots, running[k]), Remove(running, k))
  {
    var rest := Remove(running, k);
    forall i | 0 <= i < |rest| ensures rest[i] == running[if i < k then i else i + 1] { }
  }

  lemma LeaveKeeps(p: Pool, running: seq<Op>, k: nat)
    requires Placed(p, running) && k < |running|
    ensures SlotOk(running[k], |p.slots|)
    ensures Placed(Leave(p, running[k]), Remove(running, k))
  {
    var op := running[k];
    assert op in running;
    assert SlotOk(op, |p.slots|);
    UnslottedRemove(running, k);
    LeavePool(p, op);
    OwnedRemove(p.slots, running, k);
    RemoveMembers(running, k);
  }

  /** Releasing the picked op, from a pool that has lost one op or none. */
  lemma ReleaseKeeps(q: Pool, running: seq<Op>)
    requires Placed(q, running)
    requires q.nOverflow > 0 ==> q.nRunning + 1 >= q.maxConc
    ensures var (n, g) := Next(q);
            AInv(AState(if g.Some? then n.(nRunning := q.nRunning + 1) else n, Add(running, g)))
  {
    NextKeepsPool(q);
    if Next(q).1.Some? {
      ReleasedPlaced(q, running);
      ReleasedClean(q);
    } else if Total(q.reserve) > 0 {
      var l :| 0 <= l < |q.reserve| && q.reserve[l] != [];
      NextLeaves(q, l);
    }
  }

  lemma ReleasedPlaced(q: Pool, running: seq<Op>)
    requires Placed(q, running) && Next(q).1.Some?
    ensures Placed(Next(q).0.(nRunning := q.nRunning + 1), Add(running, Next(q).1))
  {
    NextKeepsPool(q);
    NextGivesSlot(q);
    UnslottedSnoc(running, Next(q).1.value);
    ReleasedOwned(q, running);
    ReleasedClean(q);
  }

  lemma ReleasedClean(q: Pool)
    requires PoolOk(q) && Clean(q) && Next(q).1.Some?
    ensures Clean(Next(q).0) && Next(q).1.value.viaSubmit && Total(q.reserve) > 0
  {
    var dmax := if q.nRunning >= q.maxConc then Dmax(q.slots) else -1;
    var i := Pick(q.reserve, dmax);
    assert q.reserve[i][0] in q.reserve[i];
    var n := Next(q).0;
    assert n.reserve == q.reserve[i := q.reserve[i][1..]];
    assert forall op :: op in q.reserve[i][1..] ==> op in q.reserve[i];
  }

  lemma ReleasedOwned(q: Pool, running: seq<Op>)
    requires PoolOk(q) && Owned(q.slots, running) && Next(q).1.Some?
    ensures Owned(Next(q).0.slots, running + [Next(q).1.value])
  {
    NextGivesSlot(q);
    NextKeepsPool(q);
  }

  lemma FinishIsRelease(p: Pool, op: Op)
    requires PoolOk(p) && SlotOk(op, |p.slots|) && PoolOk(Leave(p, op)) && Clean(Leave(p, op))
    ensures var q := Leave(p, op);
            var (n, g) := Next(q);
            Finish(p, op) == (if g.Some? then n.(nRunning := q.nRunning + 1) else n, g)
  {
    var q := Leave(p, op);
    NextKeepsPool(q);
    TakeFacts(q);
    var g := Next(q).1;
    if g.Some? {
      ReleasedClean(q);
      ResubmitReleasesSame(q);
    } else if q.nOverflow > 0 {
      assert Take(q) == (q, None);
    }
  }

  lemma SubmitFreeKeeps(a: AState, op: Op)
    requires AInv(a) && op.slot == -1 && op.viaSubmit && a.pool.nRunning < a.pool.maxConc
    ensures AInv(AState(Enter(a.pool), a.running + [op]))
  {
    UnslottedSnoc(a.running, op);
    assert Enter(a.pool).reserve == a.pool.reserve;
  }

  /** Submitting beyond the limit pushes the op and releases from there. */
  lemma SubmitIsRelease(p: Pool, op: Op)
    requires PoolOk(p) && op.slot == -1 && p.nRunning >= p.maxConc
    ensures var m := Pushed(p, op.(viaSubmit := true));
            && PoolOk(m)
            && Submit(p, op) ==
                 (if Next(m).1.Some? then Next(m).0.(nRunning := p.nRunning + 1) else Next(m).0, Next(m).1)
  {
    var started := op.(viaSubmit := true);
    ReservePush(p, started);
    var m := Pushed(p, started);
    NextUncounted(Pushed(Enter(p), started), m);
    NextKeepsPool(m);
  }

  lemma PushKeeps(p: Pool, running: seq<Op>, op: Op)
    requires Placed(p, running) && op.slot == -1 && op.viaSubmit
    ensures Placed(Pushed(p, op), running)
  {
    ReservePush(p, op);
  }

  lemma SubmitKeeps(a: AState, op: Op)
    requires AInv(a) && op.slot == -1
    ensures AInv(AState(Submit(a.pool, op).0, Add(a.running, Submit(a.pool, op).1)))
  {
    var started := op.(viaSubmit := true);
    if a.pool.nRunning < a.pool.maxConc {
      SubmitFreeKeeps(a, started);
    } else {
      PushKeeps(a.pool, a.running, started);
      SubmitIsRelease(a.pool, op);
      ReleaseKeeps(Pushed(a.pool, started), a.running);
    }
  }

  /** At or above the limit, the count does not affect which op is released. */
  lemma NextUncounted(e: Pool, m: Pool)
    requires Shape(m) && m.nRunning >= m.maxConc && e == m.(nRunning := m.nRunning + 1)
    ensures Next(e) == (Next(m).0.(nRunning := e.nRunning), Next(m).1)
  {
  }

  lemma FinishKeeps(a: AState, k: nat)
    requires AInv(a) && k < |a.running|
    ensures SlotOk(a.running[k], |a.pool.slots|)
    ensures var (q, g) := Finish(a.pool, a.running[k]);
            AInv(AState(q, Add(Remove(a.running, k), g)))
  {
    LeaveKeeps(a.pool, a.running, k);
    FinishIsRelease(a.pool, a.running[k]);
    assert a.running[k] in a.running;
    ReleaseKeeps(Leave(a.pool, a.running[k]), Remove(a.running, k));
  }

  lemma SyncKeeps(a: AState, op: Op)
    requires AInv(a) && op.slot == -1 && !op.viaSubmit
    ensures AInv(AState(Finish(a.pool, op).0, Add(a.running, Finish(a.pool, op).1)))
  {
    assert Leave(a.pool, op) == a.pool;
    FinishIsRelease(a.pool, op);
    ReleaseKeeps(a.pool, a.running);
  }

  lemma AStepKeeps(a: AState, x: AStep)
    requires AInv(a) && AEnabled(a, x)
    ensures AInv(AApply(a, x))
  {
    match x
    case ASubmit(op) => SubmitKeeps(a, op);
    case AFinish(k) => FinishKeeps(a, k);
    case ASync(op) => SyncKeeps(a, op);
  }

  lemma {:induction false} ARunKeeps(a: AState, xs: seq<AStep>)
    requires AInv(a) && ARuns(a, xs)
    ensures AInv(AExec(a, xs))
    decreases |xs|
  {
    if xs != [] {
      AStepKeeps(a, xs[0]);
      ARunKeeps(AApply(a, xs[0]), xs[1..]);
    }
  }

  /** In every such run the thread bound holds, and reserved work means a full complement of running
      ops. */
  lemma AtomicRuns(maxConc: nat, levels: nat, xs: seq<AStep>)
    requires levels >= 1 && ARuns(AState(Empty(maxConc, levels), []), xs)
    ensures var a := AExec(AState(Empty(maxConc, levels), []), xs);
            && a.pool.nRunning <= a.pool.maxConc + |Used(a.pool.slots)|
            && a.pool.nRunning <= a.pool.maxConc + |a.pool.slots|
            && a.pool.nOverflow == Total(a.pool.reserve)
            && (a.pool.nOverflow > 0 ==> a.pool.nRunning == |a.running| >= a.pool.maxConc)
  {
    var init := AState(Empty(maxConc, levels), []);
    ARunKeeps(init, xs);
    ThreadBound(AExec(init, xs));
  }

  // ---------------------------------------------------------------- uninterrupted steps are runs

  /** A submit that has been counted takes the lock at once, if it has to. */
  lemma BeginIsRun(init: State, acts: seq<Step>, a: AState, op: Op) returns (acts': seq<Step>)
    requires Inv(init) && ReservedSubmitted(init.pool) && Shape(a.pool) && SlotOk(op, |a.pool.slots|)
    requires Runs(init, acts) && Exec(init, acts) == Begin(Lift(a), op)
    ensures Runs(init, acts') && (acts' == acts || acts' == acts + [Lock(0)])
    ensures Exec(init, acts') == Lift(AState(Submit(a.pool, op).0, Add(a.running, Submit(a.pool, op).1)))
  {
    RunKeeps(init, acts);
    var t := Begin(Lift(a), op);
    acts' := acts;
    if t.pool.nRunning > t.pool.maxConc {
      ExecSnoc(init, acts, Lock(0));
      assert Remove(t.entering, 0) == [];
      acts' := acts + [Lock(0)];
    }
  }

  lemma SubmitIsRun(a: AState, op: Op) returns (acts: seq<Step>)
    requires Inv(Lift(a)) && ReservedSubmitted(a.pool) && op.slot == -1
    ensures Runs(Lift(a), acts) && (op.depth >= 1 ==> DepthsWithin(acts, op.depth))
    ensures Exec(Lift(a), acts) == Lift(AState(Submit(a.pool, op).0, Add(a.running, Submit(a.pool, op).1)))
  {
    ExecSnoc(Lift(a), [], Issue(op));
    assert [] + [Issue(op)] == [Issue(op)];
    acts := BeginIsRun(Lift(a), [Issue(op)], a, op);
  }

  /** An op ends: its slot is freed, it is uncounted, and its thread is about to look for work. */
  lemma LeaveIsRun(a: AState, k: nat) returns (acts: seq<Step>)
    requires AInv(a) && Inv(Lift(a)) && ReservedSubmitted(a.pool) && k < |a.running| && SlotOk(a.running[k], |a.pool.slots|)
    ensures Runs(Lift(a), acts) && DepthsWithin(acts, 0)
    ensures Exec(Lift(a), acts) == State(Leave(a.pool, a.running[k]), Remove(a.running, k), [], [], 1, [])
  {
    var s0 := Lift(a);
    var op := a.running[k];
    assert op in a.running;
    var s1 := Apply(s0, Clear(k));
    StepKeeps(s0, Clear(k));
    StepKeeps(s1, Dec(0));
    assert Remove(s1.leaving, 0) == [];
    ExecSnoc(s0, [], Clear(k));
    assert [] + [Clear(k)] == [Clear(k)];
    ExecSnoc(s0, [Clear(k)], Dec(0));
    acts := [Clear(k)] + [Dec(0)];
  }

  /** What a finishing thread does with the pool once its op is uncounted */
  function Look(q: Pool): (r: (Pool, Option<Op>))
    requires Shape(q)
  {
    if q.nOverflow > 0 then
      var (q', g) := Take(q);
      if g.Some? then Submit(q', g.value) else (q', None)
    else (q, None)
  }

  lemma LookIsRun(init: State, acts: seq<Step>, q: Pool, rest: seq<Op>) returns (acts': seq<Step>)
    requires Inv(init) && ReservedSubmitted(init.pool)
    requires Runs(init, acts) && DepthsWithin(acts, 0) && Exec(init, acts) == State(q, rest, [], [], 1, [])
    ensures Shape(q) && Runs(init, acts') && DepthsWithin(acts', 0)
    ensures Exec(init, acts') == Lift(AState(Look(q).0, Add(rest, Look(q).1)))
  {
    RunKeeps(init, acts);
    var s := Exec(init, acts);
    if q.nOverflow <= 0 {
      ExecSnoc(init, acts, Skip);
      acts' := acts + [Skip];
    } else {
      StepKeeps(s, Grab);
      ExecSnoc(init, acts, Grab);
      acts' := acts + [Grab];
      var g := Take(q).1;
      if g.Some? { acts' := HandIsRun(init, acts', AState(Take(q).0, rest), g.value); }
    }
  }

  lemma FinishIsRun(a: AState, k: nat) returns (acts: seq<Step>)
    requires AInv(a) && Inv(Lift(a)) && ReservedSubmitted(a.pool) && k < |a.running|
    ensures Runs(Lift(a), acts) && DepthsWithin(acts, 0)
    ensures SlotOk(a.running[k], |a.pool.slots|)
    ensures var (q, g) := Finish(a.pool, a.running[k]);
            Exec(Lift(a), acts) == Lift(AState(q, Add(Remove(a.running, k), g)))
  {
    assert a.running[k] in a.running;
    var leave := LeaveIsRun(a, k);
    acts := LookIsRun(Lift(a), leave, Leave(a.pool, a.running[k]), Remove(a.running, k));
  }

  /** The end of an op that ran in its parent's thread */
  lemma SyncIsRun(a: AState, op: Op) returns (acts: seq<Step>)
    requires Inv(Lift(a)) && ReservedSubmitted(a.pool) && op.slot == -1 && !op.viaSubmit
    ensures Runs(Lift(a), acts) && DepthsWithin(acts, 0)
    ensures var (q, g) := Finish(a.pool, op); Exec(Lift(a), acts) == Lift(AState(q, Add(a.running, g)))
  {
    var s := Lift(a);
    ExecSnoc(s, [], Sync);
    assert [] + [Sync] == [Sync];
    assert Leave(a.pool, op) == a.pool;
    acts := LookIsRun(s, [Sync], a.pool, a.running);
  }

  /** The op in hand is submitted again at once. */
  lemma HandIsRun(init: State, acts: seq<Step>, a: AState, g: Op) returns (acts': seq<Step>)
    requires Inv(init) && ReservedSubmitted(init.pool)
    requires Runs(init, acts) && DepthsWithin(acts, 0) && Exec(init, acts) == Lift(a).(inHand := [g])
    ensures Shape(a.pool) && SlotOk(g, |a.pool.slots|) && Runs(init, acts') && DepthsWithin(acts', 0)
    ensures Exec(init, acts') == Lift(AState(Submit(a.pool, g).0, Add(a.running, Submit(a.pool, g).1)))
  {
    RunKeeps(init, acts);
    var s := Lift(a).(inHand := [g]);
    assert g in s.inHand;
    ExecSnoc(init, acts, Resubmit(0));
    assert Remove(s.inHand, 0) == [];
    acts' := BeginIsRun(init, acts + [Resubmit(0)], a, g);
  }

  ghost predicate ADepthsWithin(xs: seq<AStep>, d: nat) {
    forall i :: 0 <= i < |xs| && xs[i].ASubmit? ==> 1 <= xs[i].op.depth <= d
  }

  lemma StepIsRun(a: AState, x: AStep, d: nat) returns (acts: seq<Step>)
    requires AInv(a) && Inv(Lift(a)) && ReservedSubmitted(a.pool) && AEnabled(a, x)
    requires x.ASubmit? ==> 1 <= x.op.depth <= d
    ensures Runs(Lift(a), acts) && Exec(Lift(a), acts) == Lift(AApply(a, x)) && DepthsWithin(acts, d)
  {
    match x
    case ASubmit(op) => acts := SubmitIsRun(a, op);
    case AFinish(k) => acts := FinishIsRun(a, k);
    case ASync(op) => acts := SyncIsRun(a, op);
  }

  /** Every uninterrupted run is one of the interleaved runs, with the same ops issued. */
  lemma {:induction false} AtomicIsRun(a: AState, xs: seq<AStep>, d: nat) returns (acts: seq<Step>)
    requires AInv(a) && Inv(Lift(a)) && ReservedSubmitted(a.pool) && ARuns(a, xs) && ADepthsWithin(xs, d)
    ensures Runs(Lift(a), acts) && Exec(Lift(a), acts) == Lift(AExec(a, xs)) && DepthsWithin(acts, d)
    decreases |xs|
  {
    if xs == [] {
      acts := [];
    } else {
      var one := StepIsRun(a, xs[0], d);
      AStepKeeps(a, xs[0]);
      RunKeeps(Lift(a), one);
      assert forall i :: 0 <= i < |xs[1..]| ==> xs[1..][i] == xs[i + 1];
      var rest := AtomicIsRun(AApply(a, xs[0]), xs[1..], d);
      RunsConcat(Lift(a), one, rest);
      acts := one + rest;
    }
  }

  lemma {:induction false} AExecSnoc(a: AState, xs: seq<AStep>, x: AStep)
    requires ARuns(a, xs) && AEnabled(AExec(a, xs), x)
    ensures ARuns(a, xs + [x]) && AExec(a, xs + [x]) == AApply(AExec(a, xs), x)
    decreases |xs|
  {
    if xs == [] {
      assert xs + [x] == [x];
      assert ARuns(AApply(a, x), [x][1..]);
    } else {
      AExecSnoc(AApply(a, xs[0]), xs[1..], x);
      assert (xs + [x])[1..] == xs[1..] + [x];
    }
  }
}
