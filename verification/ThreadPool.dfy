/** The overflow scheduler of the thread pool (thread_pool_op.c, thread_pool_config.c).

    A pool runs `maxConc` ops freely. Later ops wait on one reserve stack per recursion level, and
    one of them is released beyond `maxConc` only if it is deeper than every op that already holds
    an overflow slot. This module defines what the scheduler's critical sections do to the pool and
    proves the imperative code against those definitions. */
module ThreadPool {

  datatype Option<+T> = None | Some(value: T)

  /** A thread pool op: its recursion depth, the overflow slot recorded in it (-1 for none) and
      whether it was started through the submit function. */
  datatype Op = Op(id: nat, depth: nat, slot: int, viaSubmit: bool)

  /** The part of the pool context guarded by `_tp_lock`, with its atomic counters. Stacks have
      their top at index 0. */
  datatype Pool = Pool(maxConc: nat, slots: seq<int>, reserve: seq<seq<Op>>,
                       nRunning: int, nOverflow: int)

  ghost predicate Shape(p: Pool) {
    && |p.slots| == |p.reserve| >= 1
    && forall k :: 0 <= k < |p.slots| ==> -1 <= p.slots[k] < |p.slots|
  }

  predicate SlotOk(op: Op, levels: nat) {
    -1 <= op.slot < levels
  }

  /** The reserve stack an op of the given depth belongs to. */
  function Level(depth: nat, levels: nat): (l: nat)
    requires levels >= 1
    ensures l < levels
  {
    if depth >= levels then levels - 1 else depth
  }

  /** The greatest depth holding an overflow slot, or -1. */
  function Dmax(slots: seq<int>): (d: int)
    ensures -1 <= d
    ensures d == -1 || d in slots
    ensures forall k :: 0 <= k < |slots| ==> slots[k] <= d
  {
    if slots == [] then -1
    else
      var last := |slots| - 1;
      var d := Dmax(slots[..last]);
      assert forall k :: 0 <= k < last ==> slots[..last][k] == slots[k];
      if slots[last] > d then slots[last] else d
  }

  /** The last free overflow slot, or -1. */
  function LastFree(slots: seq<int>): (k: int)
    ensures -1 <= k < |slots|
    ensures k >= 0 ==> slots[k] == -1
    ensures forall j :: k < j < |slots| ==> slots[j] != -1
  {
    if slots == [] then -1
    else
      var last := |slots| - 1;
      if slots[last] == -1 then last else LastFree(slots[..last])
  }

  /** The deepest non-empty reserve stack above `dmax`, or -1. */
  function Pick(reserve: seq<seq<Op>>, dmax: int): (i: int)
    requires -1 <= dmax
    ensures i == -1 || (dmax < i < |reserve| && reserve[i] != [])
    ensures forall j :: i < j < |reserve| && dmax < j ==> reserve[j] == []
  {
    var last := |reserve| - 1;
    if last <= dmax then -1
    else if reserve[last] != [] then last
    else Pick(reserve[..last], dmax)
  }

  /** Number of ops on all reserve stacks. */
  function Total(reserve: seq<seq<Op>>): (n: nat)
    ensures n == 0 <==> forall i :: 0 <= i < |reserve| ==> reserve[i] == []
  {
    if reserve == [] then 0
    else
      var last := |reserve| - 1;
      var n := Total(reserve[..last]);
      assert forall k :: 0 <= k < last ==> reserve[..last][k] == reserve[k];
      n + |reserve[last]|
  }

  lemma {:induction false} TotalUpdate(reserve: seq<seq<Op>>, i: nat, s: seq<Op>)
    requires i < |reserve|
    ensures Total(reserve[i := s]) == Total(reserve) - |reserve[i]| + |s|
  {
    var last := |reserve| - 1;
    if i == last {
      assert reserve[i := s][..last] == reserve[..last];
    } else {
      assert reserve[i := s][..last] == reserve[..last][i := s];
      TotalUpdate(reserve[..last], i, s);
    }
  }

  /** `slots` with the op's recorded slot freed. */
  function FreeSlot(slots: seq<int>, op: Op): (r: seq<int>)
    requires SlotOk(op, |slots|)
  {
    if op.slot != -1 then slots[op.slot := -1] else slots
  }

  /** `_tpc_overflow_next`: the op to release, and the pool after releasing it. */
  function Next(p: Pool): (r: (Pool, Option<Op>))
    requires Shape(p)
  {
    var full := p.nRunning >= p.maxConc;
    var dmax := if full then Dmax(p.slots) else -1;
    var slot := if full then LastFree(p.slots) else -1;
    var i := Pick(p.reserve, dmax);
    if i == -1 then (p, None)
    else
      var op := p.reserve[i][0].(slot := slot);
      (p.(reserve := p.reserve[i := p.reserve[i][1..]],
          nOverflow := p.nOverflow - 1,
          slots := if slot > -1 then p.slots[slot := i] else p.slots),
       Some(op))
  }

  /** The counter update that opens `_tp_submit_op`, before any lock is taken. */
  function Enter(p: Pool): (r: Pool) {
    p.(nRunning := p.nRunning + 1)
  }

  /** The locked section of `_tp_submit_op`: push the op, then release one op or roll back. */
  function Admit(p: Pool, op: Op): (r: (Pool, Option<Op>))
    requires Shape(p) && SlotOk(op, |p.slots|)
  {
    var l := Level(op.depth, |p.slots|);
    var q := p.(nOverflow := p.nOverflow + 1, reserve := p.reserve[l := [op] + p.reserve[l]]);
    var (q', g) := Next(q);
    if g.Some? then (q', g)
    else (q'.(nRunning := q'.nRunning - 1, slots := FreeSlot(q'.slots, op)), None)
  }

  /** `_tp_submit_op` run without interruption. */
  function Submit(p: Pool, op: Op): (r: (Pool, Option<Op>))
    requires Shape(p) && SlotOk(op, |p.slots|)
  {
    var started := op.(viaSubmit := true);
    var q := Enter(p);
    if q.nRunning > q.maxConc then Admit(q, started) else (q, Some(started))
  }

  /** The epilogue of `thread_pool_exec_fn` up to the test for overflow work. */
  function Leave(p: Pool, op: Op): (r: Pool)
    requires SlotOk(op, |p.slots|)
  {
    p.(slots := FreeSlot(p.slots, op),
       nRunning := if op.viaSubmit then p.nRunning - 1 else p.nRunning)
  }

  /** The locked section that ends `thread_pool_exec_fn`: pick an op and undo its slot again. */
  function Take(p: Pool): (r: (Pool, Option<Op>))
    requires Shape(p)
    ensures Shape(r.0) && |r.0.slots| == |p.slots|
    ensures r.1.Some? ==> SlotOk(r.1.value, |p.slots|)
  {
    var (q, g) := Next(p);
    if g.Some? then (q.(slots := FreeSlot(q.slots, g.value)), g) else (q, g)
  }

  /** The epilogue of `thread_pool_exec_fn` run without interruption. */
  function Finish(p: Pool, op: Op): (r: (Pool, Option<Op>))
    requires Shape(p) && SlotOk(op, |p.slots|)
  {
    var q := Leave(p, op);
    if q.nOverflow > 0 then
      var (q', g) := Take(q);
      if g.Some? then Submit(q', g.value) else (q', None)
    else (q, None)
  }

  /** The pool context itself. */
  class Context {
    const maxThreads: int
    const maxConc: nat
    var overflowRunningDepth: array<int>
    var reserveStack: array<seq<Op>>
    var nRunning: int
    var nOverflow: int

    ghost predicate Valid()
      reads this, overflowRunningDepth, reserveStack
    {
      overflowRunningDepth.Length == reserveStack.Length && Shape(View())
    }

    ghost function View(): Pool
      reads this, overflowRunningDepth, reserveStack
    {
      Pool(maxConc, overflowRunningDepth[..], reserveStack[..], nRunning, nOverflow)
    }

    /** `gop_tp_context_create`: whatever limits are asked for, at least one op runs freely and the
        threads cover the free ops plus one overflow slot per level. */
    constructor (maxThreadsAsked: int, maxRecursionDepth: nat)
      ensures Valid() && fresh(overflowRunningDepth) && fresh(reserveStack)
      ensures maxConc >= 1 && maxThreads == maxConc + overflowRunningDepth.Length
      ensures overflowRunningDepth.Length == maxRecursionDepth + 1
      ensures maxThreadsAsked > maxRecursionDepth ==> maxThreads == maxThreadsAsked + 1
      ensures View() == Empty(maxConc, maxRecursionDepth + 1)
    {
      var threads := if maxThreadsAsked > 0 then maxThreadsAsked + 1 else 4;
      var levels := maxRecursionDepth + 1;
      var conc := threads - levels;
      if conc <= 0 {
        threads := threads + 5 - conc;
        conc := threads - levels;
      }
      maxThreads := threads;
      maxConc := conc;
      nRunning, nOverflow := 0, 0;
      var depths := new int[levels];
      var stacks := new seq<Op>[levels];
      for i := 0 to levels
        invariant forall k :: 0 <= k < i ==> depths[k] == -1 && stacks[k] == []
      {
        depths[i] := -1;
        stacks[i] := [];
      }
      overflowRunningDepth := depths;
      reserveStack := stacks;
    }

    /** `_tpc_overflow_next` */
    method OverflowNext() returns (g: Option<Op>)
      requires Valid()
      modifies this`nOverflow, overflowRunningDepth, reserveStack
      ensures Valid()
      ensures (View(), g) == Next(old(View()))
    {
      ghost var p := View();
      var dmax, slot := -1, -1;
      if nRunning >= maxConc {
        for i := 0 to overflowRunningDepth.Length
          invariant dmax == Dmax(p.slots[..i]) && slot == LastFree(p.slots[..i])
        {
          assert p.slots[..i + 1][..i] == p.slots[..i];
          if overflowRunningDepth[i] > dmax { dmax := overflowRunningDepth[i]; }
          if overflowRunningDepth[i] == -1 { slot := i; }
        }
        assert p.slots[..|p.slots|] == p.slots;
      }
      var i := reserveStack.Length - 1;
      assert p.reserve[..i + 1] == p.reserve;
      while i > dmax && reserveStack[i] == []
        invariant -1 <= i < reserveStack.Length
        invariant Pick(p.reserve, dmax) == Pick(p.reserve[..i + 1], dmax)
      {
        assert p.reserve[..i + 1][..i] == p.reserve[..i];
        i := i - 1;
      }
      if i <= dmax { return None; }
      var op := reserveStack[i][0];
      reserveStack[i] := reserveStack[i][1..];
      nOverflow := nOverflow - 1;
      op := op.(slot := slot);
      if slot > -1 { overflowRunningDepth[slot] := i; }
      assert reserveStack[..] == p.reserve[i := p.reserve[i][1..]];
      assert overflowRunningDepth[..] == if slot > -1 then p.slots[slot := i] else p.slots;
      return Some(op);
    }

    /** The push that starts the locked section of `_tp_submit_op`. */
    method Reserve(op: Op)
      requires Valid()
      modifies this`nOverflow, reserveStack
      ensures Valid()
      ensures var p := old(View());
              var l := Level(op.depth, |p.slots|);
              View() == p.(nOverflow := p.nOverflow + 1, reserve := p.reserve[l := [op] + p.reserve[l]])
    {
      ghost var p := View();
      nOverflow := nOverflow + 1;
      var l := if op.depth >= reserveStack.Length then reserveStack.Length - 1 else op.depth;
      reserveStack[l] := [op] + reserveStack[l];
      assert reserveStack[..] == p.reserve[l := [op] + p.reserve[l]];
    }

    /** Frees the overflow slot recorded in `op`. */
    method ClearSlot(op: Op)
      requires Valid() && SlotOk(op, overflowRunningDepth.Length)
      modifies overflowRunningDepth
      ensures Valid()
      ensures View() == old(View()).(slots := FreeSlot(old(View()).slots, op))
    {
      ghost var p := View();
      if op.slot != -1 { overflowRunningDepth[op.slot] := -1; }
      assert overflowRunningDepth[..] == FreeSlot(p.slots, op);
    }

    /** The locked section of `_tp_submit_op`. */
    method AdmitOp(op: Op) returns (started: Option<Op>)
      requires Valid() && SlotOk(op, overflowRunningDepth.Length)
      modifies this`nRunning, this`nOverflow, overflowRunningDepth, reserveStack
      ensures Valid()
      ensures (View(), started) == Admit(old(View()), op)
    {
      Reserve(op);
      started := OverflowNext();
      if started.None? {
        nRunning := nRunning - 1;
        ClearSlot(op);
      }
    }

    /** `_tp_submit_op`: the op handed to the worker threads, if any. */
    method SubmitOp(op0: Op) returns (started: Option<Op>)
      requires Valid() && SlotOk(op0, overflowRunningDepth.Length)
      modifies this`nRunning, this`nOverflow, overflowRunningDepth, reserveStack
      ensures Valid()
      ensures (View(), started) == Submit(old(View()), op0)
    {
      var op := op0.(viaSubmit := true);
      nRunning := nRunning + 1;
      assert View() == Enter(old(View()));
      if nRunning <= maxConc { return Some(op); }
      started := AdmitOp(op);
    }

    /** The epilogue of `thread_pool_exec_fn`, with the submit it ends in. */
    method FinishOp(op: Op) returns (started: Option<Op>)
      requires Valid() && SlotOk(op, overflowRunningDepth.Length)
      modifies this`nRunning, this`nOverflow, overflowRunningDepth, reserveStack
      ensures Valid()
      ensures (View(), started) == Finish(old(View()), op)
    {
      ClearSlot(op);
      if op.viaSubmit { nRunning := nRunning - 1; }
      if nOverflow <= 0 { return None; }
      started := OverflowNext();
      if started.Some? {
        var g := started.value;
        ClearSlot(g);
        started := SubmitOp(g);
      }
    }
  }

  function Empty(maxConc: nat, levels: nat): (p: Pool) {
    Pool(maxConc, seq(levels, _ => -1), seq(levels, _ => []), 0, 0)
  }
}
