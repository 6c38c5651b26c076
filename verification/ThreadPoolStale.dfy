/** What the dropped lock costs: an op in hand keeps the number of a slot it no longer owns, frees the
    slot of whichever op took it meanwhile, and so lets one op too many run. Repeated, this lets any
    number of ops run, whatever the pool was sized for, until ops that all wait for one that is deeper
    hold every thread and the one they wait for has none. */
module ThreadPoolStale {
  import opened ThreadPool
  import opened ThreadPoolRuns
  import opened ThreadPoolDeadlock

  /** The level of ops at depth 1 */
  function Low(lv: nat): (l: nat)
    requires lv >= 1
    ensures l < lv && l == Level(1, lv)
  {
    if lv >= 2 then 1 else 0
  }

  /** The slots of a pool whose last one is taken by an op at depth 1, or is not */
  function Slots(lv: nat, taken: bool): (s: seq<int>)
    requires lv >= 1
    ensures |s| == lv && s[lv - 1] == (if taken then Low(lv) else -1) && forall k :: 0 <= k < lv - 1 ==> s[k] == -1
  {
    Empty(0, lv).slots[lv - 1 := if taken then Low(lv) else -1]
  }

  /** Reserve stacks with `res` at the level of depth 1 and nothing elsewhere */
  function Reserve(lv: nat, res: seq<Op>): (r: seq<seq<Op>>)
    requires lv >= 1
    ensures |r| == lv && r[Low(lv)] == res && forall k :: 0 <= k < lv && k != Low(lv) ==> r[k] == []
  {
    Empty(0, lv).reserve[Low(lv) := res]
  }

  function Small(m: nat, lv: nat, n: nat, taken: bool, res: seq<Op>): (p: Pool)
    requires lv >= 1
  {
    Pool(m, Slots(lv, taken), Reserve(lv, res), n, |res|)
  }

  /** A pool of `m` places and `lv` levels whose ops are all at depth 1 */
  function Flat(m: nat, lv: nat, n: nat, taken: bool, res: seq<Op>, running: seq<Op>, inHand: seq<Op>): (s: State)
    requires lv >= 1
  {
    State(Small(m, lv, n, taken, res), running, [], [], 0, inHand)
  }

  /** A legal run at depths 1 to `d` with ids below `ids` that leads to `s` */
  ghost predicate Reached(m: nat, lv: nat, acts: seq<Step>, d: nat, ids: nat, s: State) {
    && Runs(Init(m, lv), acts) && Fed(Init(m, lv), acts) && DepthsWithin(acts, d) && IdsBelow(acts, ids)
    && Exec(Init(m, lv), acts) == s
  }

  lemma Extend(m: nat, lv: nat, acts: seq<Step>, d: nat, ids: nat, s: State, a: Step) returns (acts': seq<Step>)
    requires lv >= 1 && Reached(m, lv, acts, d, ids, s)
    requires match a
             case Issue(op) => op.slot == -1 && op.id == ids && 1 <= op.depth <= d
             case Resubmit(k) => k < |s.inHand|
             case Lock(k) => k < |s.entering|
             case Clear(k) => k < |s.running| && k < Serving(s)
             case Dec(k) => k < |s.leaving|
             case Grab => s.checking > 0
             case Skip => s.checking > 0 && s.pool.nOverflow <= 0
             case Sync => true
    ensures Enabled(s, a) && Reached(m, lv, acts', d, if a.Issue? then ids + 1 else ids, Apply(s, a))
  {
    InitHolds(m, lv);
    RunKeeps(Init(m, lv), acts);
    ExecSnoc(Init(m, lv), acts, a);
    FedSnoc(Init(m, lv), acts, a);
    acts' := acts + [a];
  }

  lemma SlotFacts(lv: nat, taken: bool)
    requires lv >= 1
    ensures Dmax(Slots(lv, taken)) == if taken then Low(lv) else -1
    ensures !taken ==> LastFree(Slots(lv, taken)) == lv - 1
    ensures Slots(lv, taken)[lv - 1 := Low(lv)] == Slots(lv, true) && Slots(lv, taken)[lv - 1 := -1] == Slots(lv, false)
  {
    assert Slots(lv, taken)[lv - 1] == if taken then Low(lv) else -1;
  }

  lemma ReserveFacts(lv: nat, op: Op, res: seq<Op>)
    requires lv >= 1
    ensures Pick(Reserve(lv, [op] + res), -1) == Low(lv) && Pick(Reserve(lv, res), Low(lv)) == -1
    ensures Reserve(lv, [op] + res)[Low(lv)][1..] == res && Reserve(lv, [op] + res)[Low(lv) := res] == Reserve(lv, res)
    ensures Reserve(lv, res)[Low(lv) := [op] + res] == Reserve(lv, [op] + res)
  {
    assert Reserve(lv, [op] + res)[Low(lv)] == [op] + res;
  }

  /** Picking from a pool without free places: what is on top, if the last slot is free. */
  lemma SmallNext(m: nat, lv: nat, n: nat, taken: bool, op: Op, res: seq<Op>)
    requires lv >= 1 && n >= m
    ensures Shape(Small(m, lv, n, taken, [op] + res))
    ensures Next(Small(m, lv, n, taken, [op] + res)) ==
            if taken then (Small(m, lv, n, true, [op] + res), None)
            else (Small(m, lv, n, true, res), Some(op.(slot := lv - 1)))
  {
    SlotFacts(lv, taken);
    ReserveFacts(lv, op, res);
    ReserveFacts(lv, op, [op] + res);
  }

  /** The locked section of a submit on such a pool: granted if the slot is not taken, refused if it
      is, and a refused op frees the slot recorded in it. */
  lemma SmallAdmit(m: nat, lv: nat, n: nat, taken: bool, res: seq<Op>, op: Op)
    requires lv >= 1 && n + 1 >= m && Level(op.depth, lv) == Low(lv) && op.slot in {-1, lv - 1}
    ensures Shape(Small(m, lv, n + 1, taken, res))
    ensures Admit(Small(m, lv, n + 1, taken, res), op) ==
            if taken then (Small(m, lv, n, op.slot == -1, [op] + res), None)
            else (Small(m, lv, n + 1, true, res), Some(op.(slot := lv - 1)))
  {
    SlotFacts(lv, taken);
    ReserveFacts(lv, op, res);
    assert Pushed(Small(m, lv, n + 1, taken, res), op) == Small(m, lv, n + 1, taken, [op] + res);
    SmallNext(m, lv, n + 1, taken, op, res);
  }

  function Given(id: nat, lv: nat): (op: Op) { Op(id, 1, lv - 1, true) }

  lemma Grant(m: nat, lv: nat, acts: seq<Step>, d: nat, ids: nat, n: nat, res: seq<Op>, running: seq<Op>, inHand: seq<Op>)
    returns (acts': seq<Step>)
    requires lv >= 1 && n >= m && d >= 1 && Reached(m, lv, acts, d, ids, Flat(m, lv, n, false, res, running, inHand))
    ensures Reached(m, lv, acts', d, ids + 1, Flat(m, lv, n + 1, true, res, running + [Given(ids, lv)], inHand))
  {
    var s := Flat(m, lv, n, false, res, running, inHand);
    var op := Op(ids, 1, -1, false);
    var one := Extend(m, lv, acts, d, ids, s, Issue(op));
    var t := Apply(s, Issue(op));
    assert t.entering == [Op(ids, 1, -1, true)];
    SmallAdmit(m, lv, n, false, res, t.entering[0]);
    acts' := Extend(m, lv, one, d, ids + 1, t, Lock(0));
    assert Remove(t.entering, 0) == [];
  }

  /** A submit at the level of depth 1 that is refused, because the last slot is taken there */
  lemma Refuse(m: nat, lv: nat, acts: seq<Step>, d: nat, ids: nat, n: nat, res: seq<Op>, running: seq<Op>, depth: nat)
    returns (acts': seq<Step>)
    requires lv >= 1 && n >= m && 1 <= depth <= d && Level(depth, lv) == Low(lv)
    requires Reached(m, lv, acts, d, ids, Flat(m, lv, n, true, res, running, []))
    ensures Reached(m, lv, acts', d, ids + 1, Flat(m, lv, n, true, [Op(ids, depth, -1, true)] + res, running, []))
  {
    var s := Flat(m, lv, n, true, res, running, []);
    var op := Op(ids, depth, -1, false);
    var one := Extend(m, lv, acts, d, ids, s, Issue(op));
    var t := Apply(s, Issue(op));
    assert t.entering == [Op(ids, depth, -1, true)];
    SmallAdmit(m, lv, n, true, res, t.entering[0]);
    acts' := Extend(m, lv, one, d, ids + 1, t, Lock(0));
    assert Remove(t.entering, 0) == [];
  }

  /** The op at `k`, which has a thread, ends, and its thread picks the reserved op, which is now in hand
      with a slot. */
  lemma End(m: nat, lv: nat, acts: seq<Step>, d: nat, ids: nat, n: nat, c: Op, running: seq<Op>, k: nat)
    returns (acts': seq<Step>)
    requires lv >= 1 && n > m && k < |running| && k <= m && running[k].slot == lv - 1 && running[k].viaSubmit
    requires Reached(m, lv, acts, d, ids, Flat(m, lv, n, true, [c], running, []))
    ensures Reached(m, lv, acts', d, ids, Flat(m, lv, n - 1, false, [], Remove(running, k), [c.(slot := lv - 1)]))
  {
    var s := Flat(m, lv, n, true, [c], running, []);
    SlotFacts(lv, true);
    var a1 := Extend(m, lv, acts, d, ids, s, Clear(k));
    var s1 := Apply(s, Clear(k));
    var a2 := Extend(m, lv, a1, d, ids, s1, Dec(0));
    var s2 := Apply(s1, Dec(0));
    assert Remove(s1.leaving, 0) == [];
    acts' := Extend(m, lv, a2, d, ids, s2, Grab);
    assert [c] + [] == [c];
    SmallNext(m, lv, n - 1, false, c, []);
    assert s2.pool == Small(m, lv, n - 1, false, [c]);
    assert Take(s2.pool) == (Small(m, lv, n - 1, false, []), Some(c.(slot := lv - 1)));
  }

  /** The op in hand is refused, and frees the slot another op holds. */
  lemma Wipe(m: nat, lv: nat, acts: seq<Step>, d: nat, ids: nat, n: nat, c: Op, running: seq<Op>) returns (acts': seq<Step>)
    requires lv >= 1 && n >= m && c.depth == 1 && c.slot == lv - 1 && c.viaSubmit
    requires Reached(m, lv, acts, d, ids, Flat(m, lv, n, true, [], running, [c]))
    ensures Reached(m, lv, acts', d, ids, Flat(m, lv, n, false, [c], running, []))
  {
    var s := Flat(m, lv, n, true, [], running, [c]);
    var one := Extend(m, lv, acts, d, ids, s, Resubmit(0));
    var t := Apply(s, Resubmit(0));
    assert Remove(s.inHand, 0) == [];
    assert t.entering == [c];
    SmallAdmit(m, lv, n, true, [], c);
    acts' := Extend(m, lv, one, d, ids, t, Lock(0));
    assert Remove(t.entering, 0) == [];
    assert [c] + [] == [c];
  }

  /** `m` ops in the free places, and from there on ops that recorded the last slot, all at depth 1 */
  ghost predicate Full(m: nat, lv: nat, running: seq<Op>, ids: nat) {
    && |running| > m
    && (forall i :: 0 <= i < |running| ==> running[i].depth == 1 && running[i].id < ids && running[i].viaSubmit)
    && (forall i :: m <= i < |running| ==> running[i].slot == lv - 1)
  }

  ghost predicate Waiting(lv: nat, c: Op, ids: nat) {
    c.depth == 1 && c.viaSubmit && c.id < ids && c.slot in {-1, lv - 1}
  }

  lemma RoundFull(m: nat, lv: nat, ids: nat, running: seq<Op>)
    requires Full(m, lv, running, ids)
    ensures var r := Remove(running, m) + [Given(ids, lv)] + [Given(ids + 1, lv)];
            Full(m, lv, r, ids + 2) && |r| == |running| + 1
  {
  }

  /** One round of ending, granting, wiping and granting adds a running op. */
  lemma Round(m: nat, lv: nat, acts: seq<Step>, d: nat, ids: nat, c: Op, running: seq<Op>)
    returns (acts': seq<Step>, running': seq<Op>)
    requires lv >= 1 && d >= 1 && Full(m, lv, running, ids) && Waiting(lv, c, ids)
    requires Reached(m, lv, acts, d, ids, Flat(m, lv, |running|, true, [c], running, []))
    ensures Full(m, lv, running', ids + 2) && |running'| == |running| + 1
    ensures Reached(m, lv, acts', d, ids + 2, Flat(m, lv, |running'|, true, [c.(slot := lv - 1)], running', []))
  {
    var n, held := |running|, c.(slot := lv - 1);
    var a1 := End(m, lv, acts, d, ids, n, c, running, m);
    var r1 := Remove(running, m);
    var a2 := Grant(m, lv, a1, d, ids, n - 1, [], r1, [held]);
    var r2 := r1 + [Given(ids, lv)];
    var a3 := Wipe(m, lv, a2, d, ids + 1, n, held, r2);
    acts' := Grant(m, lv, a3, d, ids + 1, n, [held], r2, []);
    running' := r2 + [Given(ids + 1, lv)];
    RoundFull(m, lv, ids, running);
  }

  lemma {:induction false} Fill(m: nat, lv: nat, d: nat, n: nat) returns (acts: seq<Step>, running: seq<Op>)
    requires lv >= 1 && d >= 1 && n <= m
    ensures |running| == n && forall i :: 0 <= i < n ==> running[i] == Op(i, 1, -1, true)
    ensures Reached(m, lv, acts, d, n, Flat(m, lv, n, false, [], running, []))
  {
    if n == 0 {
      acts, running := [], [];
      assert Slots(lv, false) == Empty(m, lv).slots && Reserve(lv, []) == Empty(m, lv).reserve;
    } else {
      var prev, r := Fill(m, lv, d, n - 1);
      acts := Extend(m, lv, prev, d, n - 1, Flat(m, lv, n - 1, false, [], r, []), Issue(Op(n - 1, 1, -1, false)));
      running := r + [Op(n - 1, 1, -1, true)];
    }
  }

  /** The pool full, its last slot taken and one op reserved */
  lemma Start(m: nat, lv: nat, d: nat) returns (acts: seq<Step>, running: seq<Op>, c: Op)
    requires lv >= 1 && d >= 1
    ensures Full(m, lv, running, m + 2) && |running| == m + 1 && Waiting(lv, c, m + 2)
    ensures Reached(m, lv, acts, d, m + 2, Flat(m, lv, m + 1, true, [c], running, []))
  {
    var a1, free := Fill(m, lv, d, m);
    var a2 := Grant(m, lv, a1, d, m, m, [], free, []);
    running := free + [Given(m, lv)];
    acts := Refuse(m, lv, a2, d, m + 1, m + 1, [], running, 1);
    c := Op(m + 1, 1, -1, true);
    assert [c] + [] == [c];
  }

  lemma {:induction false} Rounds(m: nat, lv: nat, d: nat, n: nat)
    returns (acts: seq<Step>, running: seq<Op>, c: Op, ids: nat)
    requires lv >= 1 && d >= 1 && n > m
    ensures Full(m, lv, running, ids) && |running| == n && Waiting(lv, c, ids)
    ensures Reached(m, lv, acts, d, ids, Flat(m, lv, n, true, [c], running, []))
    decreases n
  {
    if n == m + 1 {
      acts, running, c := Start(m, lv, d);
      ids := m + 2;
    } else {
      var prev, r, c0, i := Rounds(m, lv, d, n - 1);
      acts, running := Round(m, lv, prev, d, i, c0, r);
      c, ids := c0.(slot := lv - 1), i + 2;
    }
  }

  /** With the lock dropped the number of running ops has no bound, whatever the number of places and
      levels, although no op is nested and only ops that have a thread end. */
  lemma ThreadBoundFails(maxConc: nat, levels: nat, n: nat)
    requires levels >= 1
    ensures exists acts :: Legal(Init(maxConc, levels), acts, 1) && |Exec(Init(maxConc, levels), acts).running| >= n
  {
    var acts, running, _, ids := Rounds(maxConc, levels, 1, if n <= maxConc then maxConc + 1 else n);
    assert IdsBelow(acts, ids);
    assert |Exec(Init(maxConc, levels), acts).running| >= n;
  }

  // ---------------------------------------------------------------- threads that never come back

  /** Everyone with an id below `n` waits for op `n`. */
  function AllFor(n: nat, k: nat): (w: set<(nat, nat)>)
    ensures forall i: nat, j: nat :: (i, j) in w <==> i < k && j == n
  {
    if k == 0 then {} else AllFor(n, k - 1) + {(k - 1, n)}
  }

  /** With three levels or more an op at depth 2 is released past the ops at depth 1. */
  lemma DeepAdmit(m: nat, lv: nat, n: nat, res: seq<Op>, id: nat)
    requires lv >= 3 && n >= m
    ensures var k := Op(id, 2, -1, true);
            var p := Small(m, lv, n + 1, true, res);
            && Shape(p)
            && Admit(p, k) == (p.(slots := p.slots[lv - 2 := 2]), Some(k.(slot := lv - 2)))
  {
    var k := Op(id, 2, -1, true);
    var p := Small(m, lv, n + 1, true, res);
    var q := Pushed(p, k);
    SlotFacts(lv, true);
    assert q.reserve == p.reserve[2 := [k] + p.reserve[2]] && p.reserve[2] == [];
    assert LastFree(p.slots) == lv - 2 by { assert p.slots[lv - 2] == -1 && p.slots[lv - 1] == 1; }
    assert q.reserve[2] == [k];
    assert Pick(q.reserve, 1) == 2;
    assert q.reserve[2][1..] == [];
    assert q.reserve[2 := []] == p.reserve;
  }

  lemma SubmitDeep(m: nat, lv: nat, acts: seq<Step>, d: nat, ids: nat, n: nat, res: seq<Op>, running: seq<Op>)
    returns (acts': seq<Step>, s: State)
    requires lv >= 3 && n >= m && d >= 2 && Reached(m, lv, acts, d, ids, Flat(m, lv, n, true, res, running, []))
    ensures Reached(m, lv, acts', d, ids + 1, s)
    ensures s.running == running + [Op(ids, 2, lv - 2, true)] && Quiet(s) && s.pool.reserve == Reserve(lv, res)
    ensures Threads(s.pool) == m + lv
  {
    var f := Flat(m, lv, n, true, res, running, []);
    var one := Extend(m, lv, acts, d, ids, f, Issue(Op(ids, 2, -1, false)));
    var t := Apply(f, Issue(Op(ids, 2, -1, false)));
    assert t.entering == [Op(ids, 2, -1, true)];
    DeepAdmit(m, lv, n, res, ids);
    acts' := Extend(m, lv, one, d, ids + 1, t, Lock(0));
    assert Remove(t.entering, 0) == [];
    s := Apply(t, Lock(0));
  }

  /** A state in which ops at depth 1 hold every thread and wait for op `ids` at depth 2, which is reserved
      or has been pushed behind them, is stuck. */
  lemma HeldUp(m: nat, lv: nat, s: State, running: seq<Op>, res: seq<Op>, ids: nat, k: Op)
    requires lv >= 1 && Full(m, lv, running, ids) && |running| == m + lv && Threads(s.pool) == m + lv && Quiet(s)
    requires k.id == ids && k.depth == 2
    requires (s.running == running + [k] && s.pool.reserve == Reserve(lv, res)) ||
             (s.running == running && s.pool.reserve == Reserve(lv, [k] + res))
    requires forall op :: op in res ==> op.id < ids
    ensures WaitsDeeper(s, AllFor(ids, ids)) && Stuck(s, AllFor(ids, ids))
  {
    var waits := AllFor(ids, ids);
    assert Served(s) == running;
    assert k in s.running || Reserved(s, k) by {
      if s.running == running {
        assert k in ([k] + res) && s.pool.reserve[Low(lv)] == [k] + res;
      } else {
        assert s.running[|running|] == k;
      }
    }
    forall a | a in Served(s)
      ensures Blocked(s, a, waits)
    {
      assert (a.id, k.id) in waits;
    }
    forall a, b | a in s.running && (b in s.running || Reserved(s, b)) && (a.id, b.id) in waits
      ensures a.depth < b.depth
    {
      OnlyDeep(m, lv, s, running, res, ids, k, b);
    }
  }

  /** Op `ids` is the only live one with that id. */
  lemma OnlyDeep(m: nat, lv: nat, s: State, running: seq<Op>, res: seq<Op>, ids: nat, k: Op, b: Op)
    requires lv >= 1 && Full(m, lv, running, ids)
    requires (s.running == running + [k] && s.pool.reserve == Reserve(lv, res)) ||
             (s.running == running && s.pool.reserve == Reserve(lv, [k] + res))
    requires forall op :: op in res ==> op.id < ids
    requires (b in s.running || Reserved(s, b)) && b.id == ids
    ensures b == k
  {
    if b !in s.running {
      var l :| 0 <= l < |s.pool.reserve| && b in s.pool.reserve[l];
      assert l == Low(lv);
    }
  }

  /** Ops at depth 1 take every thread, and one at depth 2 comes after them. */
  lemma StuckInRange(m: nat, lv: nat) returns (acts: seq<Step>, waits: set<(nat, nat)>)
    requires lv >= 1
    ensures Legal(Init(m, lv), acts, 2)
    ensures var s := Exec(Init(m, lv), acts); WaitsDeeper(s, waits) && Stuck(s, waits)
  {
    var prev, running, c, ids := Rounds(m, lv, 2, m + lv);
    waits := AllFor(ids, ids);
    if lv >= 3 {
      var s;
      acts, s := SubmitDeep(m, lv, prev, 2, ids, m + lv, [c], running);
      HeldUp(m, lv, s, running, [c], ids, Op(ids, 2, lv - 2, true));
    } else {
      acts := Refuse(m, lv, prev, 2, ids, m + lv, [c], running, 2);
      var k := Op(ids, 2, -1, true);
      HeldUp(m, lv, Flat(m, lv, m + lv, true, [k] + [c], running, []), running, [c], ids, k);
    }
    assert IdsBelow(acts, ids + 1);
  }

  /** No legal run of the code as it is, with depths 1 to `d` and ops waiting only for deeper ones, ever
      gets stuck. */
  ghost predicate InterleavedFree(maxConc: nat, levels: nat, d: nat) {
    forall acts, waits ::
      Legal(Init(maxConc, levels), acts, d) ==>
        var s := Exec(Init(maxConc, levels), acts);
        WaitsDeeper(s, waits) ==> !Stuck(s, waits)
  }

  lemma UnnestedFree(maxConc: nat, levels: nat, d: nat, acts: seq<Step>, waits: set<(nat, nat)>)
    requires levels >= 1 && d < 2 && Runs(Init(maxConc, levels), acts) && DepthsWithin(acts, d)
    requires WaitsDeeper(Exec(Init(maxConc, levels), acts), waits)
    ensures !Stuck(Exec(Init(maxConc, levels), acts), waits)
  {
    var init, s := Init(maxConc, levels), Exec(Init(maxConc, levels), acts);
    InitHolds(maxConc, levels);
    RunKeeps(init, acts);
    DepthRun(init, acts, d);
    if Quiet(s) && (s.running != [] || Total(s.pool.reserve) > 0) { UnnestedProceeds(s, waits); }
  }

  /** With the lock dropped nested waiting is not safe at any depth, whatever the number of levels: only
      ops that do not nest never get stuck. */
  lemma InterleavedFreeIff(maxConc: nat, levels: nat, d: nat)
    requires levels >= 1
    ensures InterleavedFree(maxConc, levels, d) <==> d < 2
  {
    if d < 2 {
      forall acts, waits | Legal(Init(maxConc, levels), acts, d) && WaitsDeeper(Exec(Init(maxConc, levels), acts), waits)
        ensures !Stuck(Exec(Init(maxConc, levels), acts), waits)
      {
        UnnestedFree(maxConc, levels, d, acts, waits);
      }
    } else {
      var acts, waits := StuckInRange(maxConc, levels);
      assert Legal(Init(maxConc, levels), acts, d);
    }
  }
}
