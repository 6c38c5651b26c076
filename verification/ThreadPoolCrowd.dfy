/** For exactly which depths nested waiting is safe when the end of an op and the submit of the op it
    picked are not interrupted. */
module ThreadPoolCrowd {
  import opened ThreadPool
  import opened ThreadPoolRuns
  import opened ThreadPoolAtomic
  import opened ThreadPoolDeadlock

  // ---------------------------------------------------------------- a run that gets stuck

  function Fresh(id: nat, depth: nat): (op: Op) { Op(id, depth, -1, false) }

  /** `n` parents at depth `d`, with ids from 0, as the worker threads see them. */
  function Parents(n: nat, d: nat): (s: seq<Op>) {
    seq(n, i requires 0 <= i => Op(i, d, -1, true))
  }

  /** `n` children at depth `d`, the newest on top. */
  function Children(n: nat, base: nat, d: nat): (s: seq<Op>) {
    seq(n, i requires 0 <= i < n => Op(base + n - 1 - i, d, -1, true))
  }

  /** `n` ops running freely, one more in the last slot, and `k` ops on the last reserve stack. */
  function Crowded(maxConc: nat, levels: nat, d: nat, k: nat): (s: State)
    requires levels >= 1
  {
    var p := Empty(maxConc, levels);
    State(p.(slots := p.slots[levels - 1 := levels - 1],
             reserve := p.reserve[levels - 1 := Children(k, maxConc + 1, d + 1)],
             nRunning := maxConc + 1, nOverflow := k),
          Parents(maxConc, d) + [Op(maxConc, d, levels - 1, true)], [], [], 0, [])
  }

  /** The first op beyond the limit takes the last slot. */
  lemma TakeLastSlot(maxConc: nat, levels: nat, d: nat)
    requires levels >= 1 && d >= 1 && d >= levels - 1
    ensures var p := Empty(maxConc, levels).(nRunning := maxConc + 1);
            Admit(p, Op(maxConc, d, -1, true)) ==
              (Crowded(maxConc, levels, d, 0).pool, Some(Op(maxConc, d, levels - 1, true)))
  {
    var p := Empty(maxConc, levels).(nRunning := maxConc + 1);
    var op := Op(maxConc, d, -1, true);
    var q := Pushed(p, op);
    assert Dmax(q.slots) == -1;
    assert LastFree(q.slots) == levels - 1 by { assert q.slots[levels - 1] == -1; }
    assert q.reserve[levels - 1] == [op];
    assert Pick(q.reserve, -1) == levels - 1;
    assert q.reserve[levels - 1][1..] == [];
    assert Children(0, maxConc + 1, d + 1) == [];
    assert q.reserve[levels - 1 := []] == p.reserve[levels - 1 := []];
  }

  /** A child clamped to the last level stays reserved while that level holds a slot. */
  lemma ReserveChild(maxConc: nat, levels: nat, d: nat, k: nat)
    requires levels >= 1 && d >= 1 && d >= levels - 1
    ensures Admit(Enter(Crowded(maxConc, levels, d, k).pool), Op(maxConc + 1 + k, d + 1, -1, true)) ==
            (Crowded(maxConc, levels, d, k + 1).pool, None)
  {
    var p := Enter(Crowded(maxConc, levels, d, k).pool);
    var q := Pushed(p, Op(maxConc + 1 + k, d + 1, -1, true));
    assert Dmax(q.slots) == levels - 1 by { assert q.slots[levels - 1] == levels - 1; }
    assert Children(k + 1, maxConc + 1, d + 1) == [Op(maxConc + 1 + k, d + 1, -1, true)] + Children(k, maxConc + 1, d + 1);
    assert q.reserve == Crowded(maxConc, levels, d, k + 1).pool.reserve;
  }

  function Start(maxConc: nat, levels: nat): (a: AState) { AState(Empty(maxConc, levels), []) }

  /** Run `xs` from the start leads to `a`, its ops numbered as they are submitted. */
  ghost predicate Reached(maxConc: nat, levels: nat, xs: seq<AStep>, a: AState) {
    && ARuns(Start(maxConc, levels), xs) && AExec(Start(maxConc, levels), xs) == a
    && forall i :: 0 <= i < |xs| ==> xs[i].ASubmit? && xs[i].op.id == i
  }

  lemma StartHolds(maxConc: nat, levels: nat)
    requires levels >= 1
    ensures AInv(Start(maxConc, levels)) && Inv(Lift(Start(maxConc, levels))) && ReservedSubmitted(Empty(maxConc, levels))
    ensures Lift(Start(maxConc, levels)) == Init(maxConc, levels)
  {
    InitHolds(maxConc, levels);
    assert Total(Empty(maxConc, levels).reserve) == 0;
  }

  lemma SubmitNext(maxConc: nat, levels: nat, xs: seq<AStep>, a: AState, depth: nat) returns (xs': seq<AStep>)
    requires levels >= 1 && Reached(maxConc, levels, xs, a)
    ensures xs' == xs + [ASubmit(Fresh(|xs|, depth))] && Shape(a.pool)
    ensures var (q, g) := Submit(a.pool, Fresh(|xs|, depth)); Reached(maxConc, levels, xs', AState(q, Add(a.running, g)))
  {
    StartHolds(maxConc, levels);
    ARunKeeps(Start(maxConc, levels), xs);
    xs' := xs + [ASubmit(Fresh(|xs|, depth))];
    forall op | op in a.running ensures SlotOk(op, |a.pool.slots|) {
      var i :| 0 <= i < |a.running| && a.running[i] == op;
    }
    AExecSnoc(Start(maxConc, levels), xs, ASubmit(Fresh(|xs|, depth)));
  }

  lemma {:induction false} Fill(maxConc: nat, levels: nat, d: nat, n: nat) returns (xs: seq<AStep>)
    requires levels >= 1 && 1 <= d && n <= maxConc
    ensures |xs| == n && ADepthsWithin(xs, d)
    ensures Reached(maxConc, levels, xs, AState(Empty(maxConc, levels).(nRunning := n), Parents(n, d)))
  {
    if n == 0 {
      xs := [];
      assert Parents(0, d) == [];
    } else {
      var prev := Fill(maxConc, levels, d, n - 1);
      xs := SubmitNext(maxConc, levels, prev, AState(Empty(maxConc, levels).(nRunning := n - 1), Parents(n - 1, d)), d);
      assert Parents(n, d) == Parents(n - 1, d) + [Op(n - 1, d, -1, true)];
    }
  }

  function CrowdedA(maxConc: nat, levels: nat, d: nat, k: nat): (a: AState)
    requires levels >= 1
  {
    AState(Crowded(maxConc, levels, d, k).pool, Crowded(maxConc, levels, d, k).running)
  }

  lemma CrowdStart(maxConc: nat, levels: nat, d: nat) returns (xs: seq<AStep>)
    requires levels >= 1 && d >= 1 && d >= levels - 1
    ensures |xs| == maxConc + 1 && ADepthsWithin(xs, d + 1)
    ensures Reached(maxConc, levels, xs, CrowdedA(maxConc, levels, d, 0))
  {
    var prev := Fill(maxConc, levels, d, maxConc);
    xs := SubmitNext(maxConc, levels, prev, AState(Empty(maxConc, levels).(nRunning := maxConc), Parents(maxConc, d)), d);
    TakeLastSlot(maxConc, levels, d);
  }

  lemma CrowdMore(maxConc: nat, levels: nat, d: nat, k: nat, prev: seq<AStep>) returns (xs: seq<AStep>)
    requires levels >= 1 && d >= 1 && d >= levels - 1
    requires |prev| == maxConc + 1 + k && ADepthsWithin(prev, d + 1)
    requires Reached(maxConc, levels, prev, CrowdedA(maxConc, levels, d, k))
    ensures |xs| == maxConc + 2 + k && ADepthsWithin(xs, d + 1)
    ensures Reached(maxConc, levels, xs, CrowdedA(maxConc, levels, d, k + 1))
  {
    xs := SubmitNext(maxConc, levels, prev, CrowdedA(maxConc, levels, d, k), d + 1);
    ReserveChild(maxConc, levels, d, k);
  }

  /** Every place and the last slot taken at depth `d`, and then `k` children reserved one level down */
  lemma {:induction false} Crowd(maxConc: nat, levels: nat, d: nat, k: nat) returns (xs: seq<AStep>)
    requires levels >= 1 && d >= 1 && d >= levels - 1
    ensures |xs| == maxConc + 1 + k && ADepthsWithin(xs, d + 1)
    ensures Reached(maxConc, levels, xs, CrowdedA(maxConc, levels, d, k))
    decreases k
  {
    if k == 0 {
      xs := CrowdStart(maxConc, levels, d);
    } else {
      var prev := Crowd(maxConc, levels, d, k - 1);
      xs := CrowdMore(maxConc, levels, d, k - 1, prev);
    }
  }

  /** Parent `i` waits for child `i`. */
  function Pairs(n: nat, base: nat): (w: set<(nat, nat)>)
    ensures forall i: nat, j: nat :: (i, j) in w <==> i < n && j == base + i
  {
    if n == 0 then {} else Pairs(n - 1, base) + {(n - 1, base + n - 1)}
  }

  lemma CrowdedIsStuck(maxConc: nat, levels: nat, d: nat)
    requires levels >= 1
    ensures var s := Crowded(maxConc, levels, d, maxConc + 1);
            WaitsDeeper(s, Pairs(maxConc + 1, maxConc + 1)) && Stuck(s, Pairs(maxConc + 1, maxConc + 1))
  {
    var s := Crowded(maxConc, levels, d, maxConc + 1);
    var kids := s.pool.reserve[levels - 1];
    assert kids == Children(maxConc + 1, maxConc + 1, d + 1);
    forall a | a in s.running ensures Blocked(s, a, Pairs(maxConc + 1, maxConc + 1)) {
      var b := Op(maxConc + 1 + a.id, d + 1, -1, true);
      assert kids[maxConc - a.id] == b;
      assert Reserved(s, b);
      assert (a.id, b.id) in Pairs(maxConc + 1, maxConc + 1);
    }
    forall a, b | a in s.running && (b in s.running || Reserved(s, b)) && (a.id, b.id) in Pairs(maxConc + 1, maxConc + 1)
      ensures a.depth < b.depth
    {
      assert b.id >= maxConc + 1;
      if Reserved(s, b) {
        var l :| 0 <= l < |s.pool.reserve| && b in s.pool.reserve[l];
        assert l == levels - 1;
      }
    }
  }

  // ---------------------------------------------------------------- the exact limit

  ghost predicate AFreshIds(xs: seq<AStep>) {
    forall i, j :: 0 <= i < j < |xs| && xs[i].ASubmit? && xs[j].ASubmit? ==> xs[i].op.id != xs[j].op.id
  }

  /** No uninterrupted run whose ops have depths 1 to `d`, waiting only for deeper ops, ever gets stuck. */
  ghost predicate AtomicFree(maxConc: nat, levels: nat, d: nat) {
    forall xs, waits ::
      ARuns(Start(maxConc, levels), xs) && ADepthsWithin(xs, d) && AFreshIds(xs) ==>
        var s := Lift(AExec(Start(maxConc, levels), xs));
        WaitsDeeper(s, waits) ==> !Stuck(s, waits)
  }

  lemma AtomicProceeds(maxConc: nat, levels: nat, d: nat, xs: seq<AStep>, waits: set<(nat, nat)>)
    requires levels >= 1 && (d < levels || d < 2)
    requires ARuns(Start(maxConc, levels), xs) && ADepthsWithin(xs, d)
    requires WaitsDeeper(Lift(AExec(Start(maxConc, levels), xs)), waits)
    ensures !Stuck(Lift(AExec(Start(maxConc, levels), xs)), waits)
  {
    var init := Init(maxConc, levels);
    var a := AExec(Start(maxConc, levels), xs);
    StartHolds(maxConc, levels);
    var acts := AtomicIsRun(Start(maxConc, levels), xs, d);
    RunKeeps(init, acts);
    DepthRun(init, acts, d);
    LevelsConstant(init, acts);
    ARunKeeps(Start(maxConc, levels), xs);
    ThreadBound(a);
    var s := Lift(a);
    if s.running != [] || Total(s.pool.reserve) > 0 {
      if d < levels { SomeoneProceeds(s, waits); } else { UnnestedProceeds(s, waits); }
    }
  }

  /** Without interruption nested waiting is safe exactly for depths below the number of levels (a single
      depth never nests, whatever the number of levels). */
  lemma AtomicFreeIff(maxConc: nat, levels: nat, d: nat)
    requires levels >= 1
    ensures AtomicFree(maxConc, levels, d) <==> d < levels || d < 2
  {
    var start := Start(maxConc, levels);
    if d < levels || d < 2 {
      forall xs, waits | ARuns(start, xs) && ADepthsWithin(xs, d) && WaitsDeeper(Lift(AExec(start, xs)), waits)
        ensures !Stuck(Lift(AExec(start, xs)), waits)
      {
        AtomicProceeds(maxConc, levels, d, xs, waits);
      }
    } else {
      var d' := if levels == 1 then 1 else levels - 1;
      var xs := Crowd(maxConc, levels, d', maxConc + 1);
      CrowdedIsStuck(maxConc, levels, d');
      assert ADepthsWithin(xs, d) && AFreshIds(xs);
      assert Stuck(Lift(AExec(start, xs)), Pairs(maxConc + 1, maxConc + 1));
    }
  }
}
