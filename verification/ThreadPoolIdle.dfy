/** Whether ops stay reserved while places are free. A submitter is counted before it takes the lock, so
    ops that end in between find nothing reserved, and the submitters are refused afterwards. */
module ThreadPoolIdle {
  import opened ThreadPool
  import opened ThreadPoolRuns
  import opened ThreadPoolDeadlock
  import opened ThreadPoolStale

  /** As in `Flat`, with submitters that have been counted and wait for the lock */
  function Counted(m: nat, lv: nat, n: nat, res: seq<Op>, running: seq<Op>, entering: seq<Op>): (s: State)
    requires lv >= 1
  {
    State(Small(m, lv, n, true, res), running, entering, [], 0, [])
  }

  lemma Count(m: nat, lv: nat, acts: seq<Step>, ids: nat, n: nat, running: seq<Op>, entering: seq<Op>)
    returns (acts': seq<Step>)
    requires lv >= 1 && n >= m && Reached(m, lv, acts, 1, ids, Counted(m, lv, n, [], running, entering))
    ensures Reached(m, lv, acts', 1, ids + 1, Counted(m, lv, n + 1, [], running, entering + [Op(ids, 1, -1, true)]))
  {
    acts' := Extend(m, lv, acts, 1, ids, Counted(m, lv, n, [], running, entering), Issue(Op(ids, 1, -1, false)));
  }

  /** The first op, which took no slot, ends and finds nothing reserved. */
  lemma EndFree(m: nat, lv: nat, acts: seq<Step>, ids: nat, n: nat, running: seq<Op>, entering: seq<Op>)
    returns (acts': seq<Step>)
    requires lv >= 1 && n >= 1 && running != [] && running[0].slot == -1 && running[0].viaSubmit
    requires Reached(m, lv, acts, 1, ids, Counted(m, lv, n, [], running, entering))
    ensures Reached(m, lv, acts', 1, ids, Counted(m, lv, n - 1, [], running[1..], entering))
  {
    var s := Counted(m, lv, n, [], running, entering);
    var a1 := Extend(m, lv, acts, 1, ids, s, Clear(0));
    var s1 := Apply(s, Clear(0));
    var a2 := Extend(m, lv, a1, 1, ids, s1, Dec(0));
    var s2 := Apply(s1, Dec(0));
    assert Remove(s1.leaving, 0) == [] && Remove(running, 0) == running[1..];
    acts' := Extend(m, lv, a2, 1, ids, s2, Skip);
  }

  /** A submitter takes the lock and is refused. */
  lemma TurnAway(m: nat, lv: nat, acts: seq<Step>, ids: nat, n: nat, res: seq<Op>, running: seq<Op>, entering: seq<Op>)
    returns (acts': seq<Step>)
    requires lv >= 1 && n >= m && n >= 1 && entering != [] && entering[0].depth == 1 && entering[0].slot == -1
    requires Reached(m, lv, acts, 1, ids, Counted(m, lv, n, res, running, entering))
    ensures Reached(m, lv, acts', 1, ids, Counted(m, lv, n - 1, [entering[0]] + res, running, entering[1..]))
  {
    var s := Counted(m, lv, n, res, running, entering);
    SmallAdmit(m, lv, n - 1, true, res, entering[0]);
    acts' := Extend(m, lv, acts, 1, ids, s, Lock(0));
    assert Remove(entering, 0) == entering[1..];
  }

  /** Two submitters are counted, two ops end, and both submitters are refused. */
  lemma IdleRun(m: nat, lv: nat) returns (acts: seq<Step>)
    requires lv >= 1 && m >= 2
    ensures Legal(Init(m, lv), acts, 1)
    ensures var s := Exec(Init(m, lv), acts); Quiet(s) && s.pool.nRunning == m - 1 && Total(s.pool.reserve) > 0
  {
    var a0, free := Fill(m, lv, 1, m);
    var a1 := Grant(m, lv, a0, 1, m, m, [], free, []);
    var running := free + [Given(m, lv)];
    var x, y := Op(m + 1, 1, -1, true), Op(m + 2, 1, -1, true);
    var a2 := Count(m, lv, a1, m + 1, m + 1, running, []);
    var a3 := Count(m, lv, a2, m + 2, m + 2, running, [] + [x]);
    assert [] + [x] + [y] == [x, y];
    var a4 := EndFree(m, lv, a3, m + 3, m + 3, running, [x, y]);
    var a5 := EndFree(m, lv, a4, m + 3, m + 2, running[1..], [x, y]);
    var a6 := TurnAway(m, lv, a5, m + 3, m + 1, [], running[1..][1..], [x, y]);
    assert [x, y][1..] == [y];
    acts := TurnAway(m, lv, a6, m + 3, m, [x] + [], running[1..][1..], [y]);
    assert IdsBelow(acts, m + 3);
    var s := Exec(Init(m, lv), acts);
    assert s.pool.reserve[Low(lv)] != [];
  }

  /** In every legal run of ops that do not nest, reserved work means that all places are busy. */
  ghost predicate KeepsBusy(maxConc: nat, levels: nat) {
    forall acts :: Legal(Init(maxConc, levels), acts, 1) ==>
      var s := Exec(Init(maxConc, levels), acts);
      Quiet(s) && Total(s.pool.reserve) > 0 ==> s.pool.nRunning >= maxConc
  }

  lemma OnePlaceBusy(maxConc: nat, levels: nat, acts: seq<Step>)
    requires levels >= 1 && maxConc <= 1 && Runs(Init(maxConc, levels), acts)
    ensures var s := Exec(Init(maxConc, levels), acts);
            Quiet(s) && Total(s.pool.reserve) > 0 ==> s.pool.nRunning >= maxConc
  {
    InitHolds(maxConc, levels);
    RunKeeps(Init(maxConc, levels), acts);
    var s := Exec(Init(maxConc, levels), acts);
    if Quiet(s) && Total(s.pool.reserve) > 0 { SomethingRuns(s); }
  }

  /** With the code as it is, ops can stay reserved while places are free exactly when the pool has more
      than one place. */
  lemma KeepsBusyIff(maxConc: nat, levels: nat)
    requires levels >= 1
    ensures KeepsBusy(maxConc, levels) <==> maxConc <= 1
  {
    if maxConc <= 1 {
      forall acts | Legal(Init(maxConc, levels), acts, 1)
        ensures var s := Exec(Init(maxConc, levels), acts);
                Quiet(s) && Total(s.pool.reserve) > 0 ==> s.pool.nRunning >= maxConc
      {
        OnePlaceBusy(maxConc, levels, acts);
      }
    } else {
      var acts := IdleRun(maxConc, levels);
    }
  }
}
