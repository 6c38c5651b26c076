/** Every interleaving of the overflow scheduler at the grain of its lock and atomic counters.

    Threads submit ops, finish them and pick reserved work concurrently. The scheduler drops its lock
    between picking an op and submitting it again, so an op in hand carries an overflow slot that may
    by then belong to another op. The results here hold in spite of that. */
module ThreadPoolRuns {
  import opened ThreadPool

  /** `running` ops execute; an `entering` op has been counted by its submitter, who has yet to take
      the lock; a `leaving` op has freed its slot and has yet to be uncounted; `checking` threads are
      about to look for overflow work; an op `inHand` was picked and has yet to be submitted again. */
  datatype State = State(pool: Pool, running: seq<Op>, entering: seq<Op>, leaving: seq<Op>,
                         checking: nat, inHand: seq<Op>)

  datatype Step =
    | Issue(op: Op)     // a new op is submitted
    | Resubmit(k: nat)  // a picked op is submitted again
    | Lock(k: nat)      // the locked section of a submit
    | Clear(k: nat)     // a running op ends and frees its slot
    | Dec(k: nat)       // ... and is uncounted
    | Sync              // an op executed in its parent's thread ends
    | Skip              // no overflow work is seen
    | Grab              // the locked pick at the end of an op

  function Remove<T>(s: seq<T>, k: nat): (r: seq<T>)
    requires k < |s|
  {
    s[..k] + s[k + 1..]
  }

  function Add(s: seq<Op>, g: Option<Op>): (r: seq<Op>) {
    if g.Some? then s + [g.value] else s
  }

  ghost predicate AllSlotsOk(s: seq<Op>, levels: nat) {
    forall op :: op in s ==> SlotOk(op, levels)
  }

  ghost predicate Typed(s: State) {
    && Shape(s.pool)
    && AllSlotsOk(s.running, |s.pool.slots|)
    && AllSlotsOk(s.entering, |s.pool.slots|)
    && AllSlotsOk(s.inHand, |s.pool.slots|)
  }

  ghost predicate Enabled(s: State, a: Step) {
    Typed(s) &&
    match a
    case Issue(op) => op.slot == -1
    case Resubmit(k) => k < |s.inHand|
    case Lock(k) => k < |s.entering|
    case Clear(k) => k < |s.running|
    case Dec(k) => k < |s.leaving|
    case Sync => true
    case Skip => s.checking > 0 && s.pool.nOverflow <= 0
    case Grab => s.checking > 0
  }

  /** The unlocked start of `_tp_submit_op`. */
  function Begin(s: State, op: Op): (r: State) {
    var started := op.(viaSubmit := true);
    var q := Enter(s.pool);
    if q.nRunning > q.maxConc then s.(pool := q, entering := s.entering + [started])
    else s.(pool := q, running := s.running + [started])
  }

  ghost function Apply(s: State, a: Step): (r: State)
    requires Enabled(s, a)
  {
    match a
    case Issue(op) => Begin(s, op)
    case Resubmit(k) => Begin(s.(inHand := Remove(s.inHand, k)), s.inHand[k])
    case Lock(k) =>
      var (q, g) := Admit(s.pool, s.entering[k]);
      s.(pool := q, entering := Remove(s.entering, k), running := Add(s.running, g))
    case Clear(k) =>
      var op := s.running[k];
      s.(pool := s.pool.(slots := FreeSlot(s.pool.slots, op)),
         running := Remove(s.running, k), leaving := s.leaving + [op])
    case Dec(k) =>
      var n := if s.leaving[k].viaSubmit then s.pool.nRunning - 1 else s.pool.nRunning;
      s.(pool := s.pool.(nRunning := n), leaving := Remove(s.leaving, k), checking := s.checking + 1)
    case Sync => s.(checking := s.checking + 1)
    case Skip => s.(checking := s.checking - 1)
    case Grab =>
      var (q, g) := Take(s.pool);
      s.(pool := q, checking := s.checking - 1, inHand := Add(s.inHand, g))
  }

  ghost predicate Runs(s: State, acts: seq<Step>)
    decreases |acts|
  {
    acts == [] || (Enabled(s, acts[0]) && Runs(Apply(s, acts[0]), acts[1..]))
  }

  ghost function Exec(s: State, acts: seq<Step>): (r: State)
    requires Runs(s, acts)
    decreases |acts|
  {
    if acts == [] then s else Exec(Apply(s, acts[0]), acts[1..])
  }

  function Init(maxConc: nat, levels: nat): (s: State) {
    State(Empty(maxConc, levels), [], [], [], 0, [])
  }

  // ---------------------------------------------------------------- the invariant

  ghost predicate Distinct(slots: seq<int>) {
    forall i, j :: 0 <= i < j < |slots| && slots[i] != -1 ==> slots[i] != slots[j]
  }

  ghost predicate ReserveOk(p: Pool)
    requires Shape(p)
  {
    && p.nOverflow == Total(p.reserve)
    && forall l, op :: 0 <= l < |p.reserve| && op in p.reserve[l] ==>
         SlotOk(op, |p.slots|) && Level(op.depth, |p.slots|) == l
  }

  ghost predicate PoolOk(p: Pool) {
    Shape(p) && Distinct(p.slots) && ReserveOk(p)
  }

  /** Every taken slot names a running op that took it, at that op's level. */
  ghost predicate Truthful(slots: seq<int>, running: seq<Op>) {
    |slots| >= 1 &&
    forall k :: 0 <= k < |slots| && slots[k] != -1 ==>
      exists r :: r in running && r.slot == k && Level(r.depth, |slots|) == slots[k]
  }

  ghost predicate Dominates(ops: seq<Op>, l: int, levels: nat)
    requires levels >= 1
  {
    exists r :: r in ops && Level(r.depth, levels) >= l
  }

  /** Every non-empty reserve stack lies at or below the level of some active op. */
  ghost predicate Dominated(s: State)
    requires Shape(s.pool)
  {
    forall l :: 0 <= l < |s.pool.reserve| && s.pool.reserve[l] != [] ==>
      Dominates(s.running + s.entering + s.inHand, l, |s.pool.slots|)
  }

  ghost predicate Counted(s: State) {
    && s.pool.nRunning == |s.running| + |s.entering| + |s.leaving|
    && forall op :: op in s.running + s.entering + s.leaving ==> op.viaSubmit
  }

  ghost predicate Inv(s: State) {
    && Typed(s) && PoolOk(s.pool)
    && Truthful(s.pool.slots, s.running)
    && Counted(s)
    && (s.leaving == [] && s.checking == 0 ==> Dominated(s))
  }

  // ---------------------------------------------------------------- one critical section

  function Below(n: nat): (s: set<int>)
    ensures |s| == n && forall i :: i in s <==> 0 <= i < n
  {
    if n == 0 then {} else Below(n - 1) + {n - 1}
  }

  lemma {:induction false} DistinctCard(slots: seq<int>, n: nat)
    requires n <= |slots| && Distinct(slots) && -1 !in slots
    ensures |set k | 0 <= k < n :: slots[k]| == n
  {
    if n > 0 {
      DistinctCard(slots, n - 1);
      assert (set k | 0 <= k < n :: slots[k]) == (set k | 0 <= k < n - 1 :: slots[k]) + {slots[n - 1]};
    }
  }

  lemma {:induction false} CardMonotone<T>(a: set<T>, b: set<T>)
    requires a <= b
    ensures |a| <= |b|
  {
    if a != {} {
      var x :| x in a;
      CardMonotone(a - {x}, b - {x});
    }
  }

  /** The pigeonhole step: when no slot is free, the distinct depths in them reach the last level. */
  lemma FullSlotsReachTop(slots: seq<int>)
    requires |slots| >= 1 && Distinct(slots)
    requires forall k :: 0 <= k < |slots| ==> -1 <= slots[k] < |slots|
    ensures LastFree(slots) == -1 ==> Dmax(slots) == |slots| - 1
  {
    var n := |slots|;
    if LastFree(slots) == -1 && n - 1 !in slots {
      DistinctCard(slots, n);
      var vals := set k | 0 <= k < n :: slots[k];
      assert vals <= Below(n) - {n - 1};
      CardMonotone(vals, Below(n) - {n - 1});
      assert false;
    }
  }

  /** A release takes a free slot at a level above every other one. */
  lemma NextSlots(p: Pool)
    requires Shape(p) && Distinct(p.slots)
    ensures Shape(Next(p).0) && Distinct(Next(p).0.slots) && |Next(p).0.slots| == |p.slots|
  {
  }

  lemma PopKeepsReserve(p: Pool, q: Pool, i: nat)
    requires Shape(p) && ReserveOk(p) && i < |p.reserve| && p.reserve[i] != []
    requires Shape(q) && |q.slots| == |p.slots|
    requires q.reserve == p.reserve[i := p.reserve[i][1..]] && q.nOverflow == p.nOverflow - 1
    ensures ReserveOk(q)
  {
    TotalUpdate(p.reserve, i, p.reserve[i][1..]);
    assert forall op :: op in p.reserve[i][1..] ==> op in p.reserve[i];
  }

  lemma NextReserve(p: Pool)
    requires Shape(p) && ReserveOk(p) && Shape(Next(p).0) && |Next(p).0.slots| == |p.slots|
    ensures ReserveOk(Next(p).0)
  {
    var i := Pick(p.reserve, if p.nRunning >= p.maxConc then Dmax(p.slots) else -1);
    if i != -1 { PopKeepsReserve(p, Next(p).0, i); }
  }

  lemma NextKeepsPool(p: Pool)
    requires PoolOk(p)
    ensures PoolOk(Next(p).0) && |Next(p).0.slots| == |p.slots|
    ensures Next(p).0.maxConc == p.maxConc && Next(p).0.nRunning == p.nRunning
    ensures Next(p).1.None? ==> Next(p).0 == p
  {
    NextSlots(p);
    NextReserve(p);
  }

  /** An op released at or above the concurrency limit gets a real slot, which was free. */
  lemma NextGivesSlot(p: Pool)
    requires PoolOk(p) && Next(p).1.Some?
    ensures var g := Next(p).1.value;
            && SlotOk(g, |p.slots|)
            && (p.nRunning < p.maxConc ==> g.slot == -1 && Next(p).0.slots == p.slots)
            && (p.nRunning >= p.maxConc ==>
                  g.slot != -1 && p.slots[g.slot] == -1 &&
                  Next(p).0.slots == p.slots[g.slot := Level(g.depth, |p.slots|)])
  {
    var dmax := if p.nRunning >= p.maxConc then Dmax(p.slots) else -1;
    var i := Pick(p.reserve, dmax);
    assert p.reserve[i][0] in p.reserve[i];
    FullSlotsReachTop(p.slots);
  }

  /** What stays reserved lies no deeper than the released op or a taken slot. */
  lemma NextLeaves(p: Pool, l: nat)
    requires PoolOk(p) && l < |Next(p).0.reserve| && Next(p).0.reserve[l] != []
    ensures || (Next(p).1.Some? && l <= Level(Next(p).1.value.depth, |p.slots|))
            || (p.nRunning >= p.maxConc && l <= Dmax(p.slots))
  {
    var dmax := if p.nRunning >= p.maxConc then Dmax(p.slots) else -1;
    var i := Pick(p.reserve, dmax);
    if i != -1 {
      assert p.reserve[i][0] in p.reserve[i];
    }
  }

  // ---------------------------------------------------------------- preservation, step by step

  lemma RemoveMembers<T>(s: seq<T>, k: nat)
    requires k < |s|
    ensures |Remove(s, k)| == |s| - 1
    ensures forall x :: x in Remove(s, k) ==> x in s
    ensures forall x :: x in s && x != s[k] ==> x in Remove(s, k)
  {
    forall x | x in s && x != s[k] ensures x in Remove(s, k) {
      var j :| 0 <= j < |s| && s[j] == x;
      assert Remove(s, k)[if j < k then j else j - 1] == x;
    }
  }

  lemma TruthfulGrows(slots: seq<int>, running: seq<Op>, more: seq<Op>)
    requires Truthful(slots, running) && forall r :: r in running ==> r in more
    ensures Truthful(slots, more)
  {
    forall k | 0 <= k < |slots| && slots[k] != -1
      ensures exists r :: r in more && r.slot == k && Level(r.depth, |slots|) == slots[k]
    {
      var r :| r in running && r.slot == k && Level(r.depth, |slots|) == slots[k];
      assert r in more;
    }
  }

  /** A slot at or above level `l` means some running op dominates that level. */
  lemma SlotDominates(slots: seq<int>, running: seq<Op>, l: int)
    requires Truthful(slots, running) && 0 <= l <= Dmax(slots)
    ensures Dominates(running, l, |slots|)
  {
    var k :| 0 <= k < |slots| && slots[k] == Dmax(slots);
    var r :| r in running && r.slot == k && Level(r.depth, |slots|) == slots[k];
  }

  /** A pick leaves every reserved level dominated: by the picked op, or by a slot holder. */
  lemma NextDominates(p: Pool, running: seq<Op>, ops: seq<Op>)
    requires PoolOk(p) && Truthful(p.slots, running)
    requires forall r :: r in running ==> r in ops
    requires Next(p).1.Some? ==>
      exists r :: r in ops && r.depth == Next(p).1.value.depth
    ensures forall l :: 0 <= l < |Next(p).0.reserve| && Next(p).0.reserve[l] != [] ==>
              Dominates(ops, l, |p.slots|)
  {
    NextKeepsPool(p);
    var (q, g) := Next(p);
    forall l | 0 <= l < |q.reserve| && q.reserve[l] != []
      ensures Dominates(ops, l, |p.slots|)
    {
      NextLeaves(p, l);
      if g.Some? && l <= Level(g.value.depth, |p.slots|) {
        var r :| r in ops && r.depth == g.value.depth;
      } else {
        SlotDominates(p.slots, running, l);
        var r :| r in running && Level(r.depth, |p.slots|) >= l;
        assert r in ops;
      }
    }
  }

  lemma BeginKeeps(s: State, t: State, op: Op)
    requires Inv(s) && SlotOk(op, |s.pool.slots|)
    requires t.pool == s.pool && t.running == s.running && t.entering == s.entering
    requires t.leaving == s.leaving && t.checking == s.checking
    requires forall x :: x in t.inHand ==> x in s.inHand
    requires forall x :: x in s.inHand && x != op ==> x in t.inHand
    ensures Inv(Begin(t, op))
  {
    var r := Begin(t, op);
    var started := op.(viaSubmit := true);
    TruthfulGrows(s.pool.slots, s.running, r.running);
    if s.leaving == [] && s.checking == 0 {
      forall l | 0 <= l < |r.pool.reserve| && r.pool.reserve[l] != []
        ensures Dominates(r.running + r.entering + r.inHand, l, |r.pool.slots|)
      {
        assert Dominates(s.running + s.entering + s.inHand, l, |s.pool.slots|);
        var d :| d in s.running + s.entering + s.inHand && Level(d.depth, |s.pool.slots|) >= l;
        var d' := if d == op then started else d;
        assert d' in r.running + r.entering + r.inHand || d in r.running + r.entering + r.inHand;
      }
    }
  }

  lemma ReservePush(p: Pool, op: Op)
    requires PoolOk(p) && SlotOk(op, |p.slots|)
    ensures PoolOk(Pushed(p, op))
  {
    var l := Level(op.depth, |p.slots|);
    TotalUpdate(p.reserve, l, [op] + p.reserve[l]);
  }

  function Pushed(p: Pool, op: Op): (q: Pool)
    requires Shape(p)
  {
    var l := Level(op.depth, |p.slots|);
    p.(nOverflow := p.nOverflow + 1, reserve := p.reserve[l := [op] + p.reserve[l]])
  }

  lemma FreeKeeps(p: Pool, op: Op, running: seq<Op>)
    requires PoolOk(p) && SlotOk(op, |p.slots|) && Truthful(p.slots, running)
    ensures PoolOk(p.(slots := FreeSlot(p.slots, op)))
    ensures Truthful(FreeSlot(p.slots, op), running)
  {
    var slots := FreeSlot(p.slots, op);
    forall k | 0 <= k < |slots| && slots[k] != -1
      ensures exists r :: r in running && r.slot == k && Level(r.depth, |slots|) == slots[k]
    {
      assert slots[k] == p.slots[k];
    }
  }

  /** The locked section of a submit, on a pool whose slots tell the truth about `running`. */
  lemma AdmitKeeps(p: Pool, op: Op, running: seq<Op>)
    requires PoolOk(p) && SlotOk(op, |p.slots|) && Truthful(p.slots, running)
    ensures var (q, g) := Admit(p, op);
            && PoolOk(q) && |q.slots| == |p.slots| && q.maxConc == p.maxConc
            && (g.Some? ==> SlotOk(g.value, |p.slots|) && q.nRunning == p.nRunning)
            && (g.None? ==> q.nRunning == p.nRunning - 1)
            && Truthful(q.slots, Add(running, g))
  {
    var m := Pushed(p, op);
    ReservePush(p, op);
    NextKeepsPool(m);
    if Next(m).1.None? {
      assert Admit(p, op) == (m.(nRunning := m.nRunning - 1, slots := FreeSlot(m.slots, op)), None);
      FreeKeeps(m, op, running);
    } else {
      assert Admit(p, op) == Next(m);
      NextTruthful(m, running);
    }
  }

  /** The slot a released op takes says the truth about it. */
  lemma NextTruthful(p: Pool, running: seq<Op>)
    requires PoolOk(p) && Truthful(p.slots, running) && Next(p).1.Some?
    ensures SlotOk(Next(p).1.value, |p.slots|) && Truthful(Next(p).0.slots, Add(running, Next(p).1))
  {
    var g := Next(p).1;
    NextGivesSlot(p);
    var more := Add(running, g);
    assert g.value in more;
    TruthfulGrows(p.slots, running, more);
    if g.value.slot != -1 { TruthfulUpdate(p.slots, more, g.value); }
  }

  lemma AdmitDominates(p: Pool, op: Op, running: seq<Op>)
    requires PoolOk(p) && SlotOk(op, |p.slots|) && Truthful(p.slots, running)
    ensures var (q, g) := Admit(p, op);
            forall l :: 0 <= l < |q.reserve| && q.reserve[l] != [] ==>
              Dominates(Add(running, g), l, |p.slots|)
  {
    var m := Pushed(p, op);
    ReservePush(p, op);
    var g := Next(m).1;
    assert g == Admit(p, op).1 && Admit(p, op).0.reserve == Next(m).0.reserve;
    if g.Some? { assert g.value in Add(running, g); }
    NextDominates(m, running, Add(running, g));
  }

  lemma TruthfulUpdate(slots: seq<int>, running: seq<Op>, op: Op)
    requires Truthful(slots, running) && op in running && 0 <= op.slot < |slots|
    ensures Truthful(slots[op.slot := Level(op.depth, |slots|)], running)
  {
    var slots' := slots[op.slot := Level(op.depth, |slots|)];
    forall k | 0 <= k < |slots'| && slots'[k] != -1
      ensures exists r :: r in running && r.slot == k && Level(r.depth, |slots'|) == slots'[k]
    {
      if k == op.slot {
        assert op in running;
      } else {
        var r :| r in running && r.slot == k && Level(r.depth, |slots|) == slots[k];
      }
    }
  }

  /** Popped ops were submitted before: every reserved op is marked as such. */
  ghost predicate ReservedSubmitted(p: Pool) {
    forall l, op :: 0 <= l < |p.reserve| && op in p.reserve[l] ==> op.viaSubmit
  }

  lemma LockKeeps(s: State, k: nat)
    requires Inv(s) && ReservedSubmitted(s.pool) && k < |s.entering|
    ensures Inv(Apply(s, Lock(k)))
  {
    var op := s.entering[k];
    assert op in s.entering;
    assert op in s.running + s.entering + s.leaving;
    var (q, g) := Admit(s.pool, op);
    AdmitKeeps(s.pool, op, s.running);
    AdmitDominates(s.pool, op, s.running);
    RemoveMembers(s.entering, k);
    var r := Apply(s, Lock(k));
    if g.Some? { AdmitReleasesSubmitted(s.pool, op); }
    forall x | x in r.running + r.entering + r.leaving ensures x.viaSubmit {
      if g.Some? && x == g.value {
      } else {
        assert x in s.running + s.entering + s.leaving;
      }
    }
    forall l | 0 <= l < |q.reserve| && q.reserve[l] != []
      ensures Dominates(r.running + r.entering + r.inHand, l, |q.slots|)
    {
      var d :| d in r.running && Level(d.depth, |q.slots|) >= l;
      assert d in r.running + r.entering + r.inHand;
    }
  }

  lemma AdmitReleasesSubmitted(p: Pool, op: Op)
    requires PoolOk(p) && SlotOk(op, |p.slots|) && op.viaSubmit && ReservedSubmitted(p)
    ensures Admit(p, op).1.Some? ==> Admit(p, op).1.value.viaSubmit
    ensures ReservedSubmitted(Admit(p, op).0)
  {
  }

  lemma ClearKeeps(s: State, k: nat)
    requires Inv(s) && k < |s.running|
    ensures Inv(Apply(s, Clear(k)))
  {
    var op := s.running[k];
    assert op in s.running;
    RemoveMembers(s.running, k);
    var r := Apply(s, Clear(k));
    forall j | 0 <= j < |r.pool.slots| && r.pool.slots[j] != -1
      ensures exists x :: x in r.running && x.slot == j && Level(x.depth, |r.pool.slots|) == r.pool.slots[j]
    {
      var x :| x in s.running && x.slot == j && Level(x.depth, |s.pool.slots|) == s.pool.slots[j];
      assert x in r.running;
    }
    forall x | x in r.running + r.entering + r.leaving ensures x.viaSubmit {
      assert x in s.running + s.entering + s.leaving;
    }
  }

  lemma DecKeeps(s: State, k: nat)
    requires Inv(s) && k < |s.leaving|
    ensures Inv(Apply(s, Dec(k)))
  {
    RemoveMembers(s.leaving, k);
    assert s.leaving[k] in s.running + s.entering + s.leaving;
    var r := Apply(s, Dec(k));
    forall x | x in r.running + r.entering + r.leaving ensures x.viaSubmit {
      assert x in s.running + s.entering + s.leaving;
    }
  }

  /** Picking and undoing the slot changes the reserve stacks only. */
  lemma TakeFacts(p: Pool)
    requires PoolOk(p)
    ensures Take(p).1 == Next(p).1
    ensures Take(p).0 == Next(p).0.(slots := p.slots) && PoolOk(Take(p).0)
  {
    NextKeepsPool(p);
    var (q, g) := Next(p);
    if g.Some? {
      NextGivesSlot(p);
      assert FreeSlot(q.slots, g.value) == p.slots;
    }
  }

  lemma GrabKeeps(s: State)
    requires Inv(s) && s.checking > 0
    ensures Inv(Apply(s, Grab))
  {
    TakeFacts(s.pool);
    NextKeepsPool(s.pool);
    var r := Apply(s, Grab);
    var ops := r.running + r.entering + r.inHand;
    var g := Take(s.pool).1;
    if g.Some? { assert g.value in ops; }
    NextDominates(s.pool, s.running, ops);
  }

  lemma SkipKeeps(s: State)
    requires Inv(s) && s.checking > 0 && s.pool.nOverflow <= 0
    ensures Inv(Apply(s, Skip))
  {
  }

  lemma ReservedSubmittedKept(s: State, a: Step)
    requires Inv(s) && ReservedSubmitted(s.pool) && Enabled(s, a)
    ensures ReservedSubmitted(Apply(s, a).pool)
  {
    match a
    case Lock(k) =>
      assert s.entering[k] in s.running + s.entering + s.leaving;
      assert s.entering[k] in s.entering;
      AdmitReleasesSubmitted(s.pool, s.entering[k]);
    case _ =>
  }

  lemma StepKeeps(s: State, a: Step)
    requires Inv(s) && ReservedSubmitted(s.pool) && Enabled(s, a)
    ensures Inv(Apply(s, a)) && ReservedSubmitted(Apply(s, a).pool)
  {
    ReservedSubmittedKept(s, a);
    match a
    case Issue(op) => BeginKeeps(s, s, op);
    case Resubmit(k) =>
      RemoveMembers(s.inHand, k);
      assert s.inHand[k] in s.inHand;
      BeginKeeps(s, s.(inHand := Remove(s.inHand, k)), s.inHand[k]);
    case Lock(k) => LockKeeps(s, k);
    case Clear(k) => ClearKeeps(s, k);
    case Dec(k) => DecKeeps(s, k);
    case Sync =>
    case Skip => SkipKeeps(s);
    case Grab => GrabKeeps(s);
  }

  lemma InitHolds(maxConc: nat, levels: nat)
    requires levels >= 1
    ensures Inv(Init(maxConc, levels)) && ReservedSubmitted(Init(maxConc, levels).pool)
  {
  }

  lemma {:induction false} RunKeeps(s: State, acts: seq<Step>)
    requires Inv(s) && ReservedSubmitted(s.pool) && Runs(s, acts)
    ensures Inv(Exec(s, acts)) && ReservedSubmitted(Exec(s, acts).pool)
    decreases |acts|
  {
    if acts != [] {
      StepKeeps(s, acts[0]);
      RunKeeps(Apply(s, acts[0]), acts[1..]);
    }
  }

  lemma {:induction false} ExecSnoc(s: State, acts: seq<Step>, a: Step)
    requires Runs(s, acts) && Enabled(Exec(s, acts), a)
    ensures Runs(s, acts + [a]) && Exec(s, acts + [a]) == Apply(Exec(s, acts), a)
    decreases |acts|
  {
    if acts == [] {
      assert acts + [a] == [a];
      assert Runs(Apply(s, a), [a][1..]);
    } else {
      ExecSnoc(Apply(s, acts[0]), acts[1..], a);
      assert (acts + [a])[1..] == acts[1..] + [a];
    }
  }

  lemma {:induction false} RunsConcat(s: State, a: seq<Step>, b: seq<Step>)
    requires Runs(s, a) && Runs(Exec(s, a), b)
    ensures Runs(s, a + b) && Exec(s, a + b) == Exec(Exec(s, a), b)
    decreases |a|
  {
    if a == [] {
      assert a + b == b;
    } else {
      RunsConcat(Apply(s, a[0]), a[1..], b);
      assert (a + b)[1..] == a[1..] + b;
    }
  }

  // ---------------------------------------------------------------- threads, depths and ids of a run

  /** The threads of the pool, which is created with one per free place and one per level. */
  function Threads(p: Pool): (n: nat) { p.maxConc + |p.slots| }

  /** Pushed ops get threads first come, first served, so `running` starts with those that have one. A
      thread inside the scheduler's own code serves no op. */
  function Serving(s: State): (n: int) { Threads(s.pool) - |s.leaving| - s.checking - |s.inHand| }

  /** Only ops that have a thread end. */
  ghost predicate Fed(s: State, acts: seq<Step>)
    requires Runs(s, acts)
    decreases |acts|
  {
    acts == [] || ((acts[0].Clear? ==> acts[0].k < Serving(s)) && Fed(Apply(s, acts[0]), acts[1..]))
  }

  lemma {:induction false} FedSnoc(s: State, acts: seq<Step>, a: Step)
    requires Runs(s, acts) && Fed(s, acts) && Enabled(Exec(s, acts), a)
    requires a.Clear? ==> a.k < Serving(Exec(s, acts))
    ensures Runs(s, acts + [a]) && Fed(s, acts + [a])
    decreases |acts|
  {
    ExecSnoc(s, acts, a);
    if acts == [] {
      assert acts + [a] == [a];
    } else {
      FedSnoc(Apply(s, acts[0]), acts[1..], a);
      assert (acts + [a])[1..] == acts[1..] + [a];
    }
  }

  /** Ops are issued at depths 1 to `d`; the outermost op has depth 1. */
  ghost predicate DepthsWithin(acts: seq<Step>, d: nat) {
    forall i :: 0 <= i < |acts| && acts[i].Issue? ==> 1 <= acts[i].op.depth <= d
  }

  /** The ops issued have different ids, below `n`. */
  ghost predicate IdsBelow(acts: seq<Step>, n: nat) {
    && (forall i :: 0 <= i < |acts| && acts[i].Issue? ==> acts[i].op.id < n)
    && (forall i, j :: 0 <= i < j < |acts| && acts[i].Issue? && acts[j].Issue? ==> acts[i].op.id != acts[j].op.id)
  }

  /** A run of ops with different ids, at depths 1 to `d`, in which only ops with threads end. */
  ghost predicate Legal(s: State, acts: seq<Step>, d: nat) {
    Runs(s, acts) && Fed(s, acts) && DepthsWithin(acts, d) && exists n :: IdsBelow(acts, n)
  }
}
