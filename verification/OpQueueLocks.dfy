/** Queues completed by several threads at once (opque.c, gop.c).

    A thread takes one queue's lock at a time: ending an operation and each report to a queue are steps
    of their own, and the steps of different threads interleave in any way. */
module OpQueueLocks {

  import opened OpQueue

  datatype Step = End(n: Node, st: Status) | Tell(n: Node)

  /** The queues, and who has completed without having told the queue above. */
  datatype World = World(s: State, pending: set<Node>)

  function Start(t: Tree): (w: World) { World(Init(t), {}) }

  ghost predicate Enabled(t: Tree, w: World, a: Step) {
    Typed(t, w.s) && a.n in t.parent && t.parent[a.n] in t.kids &&
    match a
    case End(n, _) => IsLeaf(t, n) && n !in w.s.status
    case Tell(n) => n in w.pending && n in w.s.status
  }

  /** `_opque_cb` up to where it calls the queue's own callbacks */
  ghost function Apply(t: Tree, w: World, a: Step): (r: World)
    requires Enabled(t, w, a)
    ensures Typed(t, r.s)
  {
    match a
    case End(n, st) => World(w.s.(status := w.s.status[n := st]), w.pending + {n})
    case Tell(n) =>
      var s1 := Report(t, w.s, n, t.parent[n]);
      var d := s1.qs[t.parent[n]];
      if d.nleft <= 0 && (d.failed == [] || d.retries == 0)
      then World(Finished(t, w.s, n), Passed(t, w.pending, n))
      else World(s1, w.pending - {n})
  }

  ghost predicate Runs(t: Tree, w: World, acts: seq<Step>)
    decreases |acts|
  {
    acts == [] || (Enabled(t, w, acts[0]) && Runs(t, Apply(t, w, acts[0]), acts[1..]))
  }

  ghost function Exec(t: Tree, w: World, acts: seq<Step>): (r: World)
    requires Runs(t, w, acts)
    decreases |acts|
  {
    if acts == [] then w else Exec(t, Apply(t, w, acts[0]), acts[1..])
  }

  lemma StepKeeps(t: Tree, w: World, a: Step)
    requires Pending(t, w.s, w.pending) && Enabled(t, w, a)
    ensures Pending(t, Apply(t, w, a).s, Apply(t, w, a).pending)
  {
    match a
    case End(n, st) => EndKeeps(t, w.s, w.pending, n, st);
    case Tell(n) =>
      assert Unreported(t, w.s, n);
      PendingFacts(t, w.s, w.pending, n);
      if Report(t, w.s, n, t.parent[n]).qs[t.parent[n]].nleft > 0 {
        ReportKeeps(t, w.s, w.pending, n);
      } else {
        FinishedPends(t, w.s, w.pending, n);
      }
  }

  lemma {:induction false} RunKeeps(t: Tree, w: World, acts: seq<Step>)
    requires Pending(t, w.s, w.pending) && Runs(t, w, acts)
    ensures Pending(t, Exec(t, w, acts).s, Exec(t, w, acts).pending)
    decreases |acts|
  {
    if acts != [] {
      StepKeeps(t, w, acts[0]);
      RunKeeps(t, Apply(t, w, acts[0]), acts[1..]);
    }
  }

  // ---------------------------------------------------------------- what a status means meanwhile

  lemma MembersOnly(t: Tree, s: State, pending: set<Node>, q: Node)
    requires InvBut(t, s, pending) && q in t.kids && q in s.status
    ensures forall k :: k in t.kids[q] ==> k in s.status
    ensures s.status[q] == if exists k :: k in t.kids[q] && k in s.status && s.status[k] == Failure then Failure else Success
  {
    assert Local(t, s, q) && QueueOk(t, q);
    Counting(s.qs[q].finished, t.kids[q]);
    if s.qs[q].failed != [] { assert s.qs[q].failed[0] in s.qs[q].failed; }
  }

  /** With reports still to come, a queue that has completed did so because all below it has. */
  lemma {:induction false} DoneOnly(t: Tree, s: State, pending: set<Node>, n: Node)
    requires InvBut(t, s, pending) && n in s.status
    ensures AllDone(t, s, n) && (s.status[n] == Failure <==> SomeFailed(t, s, n))
    decreases Rank(t, n)
  {
    if n !in t.kids {
      LeafAlone(t, n);
      assert Under(t, n, n);
    } else {
      MembersOnly(t, s, pending, n);
      assert QueueOk(t, n);
      forall k | k in t.kids[n]
        ensures AllDone(t, s, k) && (s.status[k] == Failure <==> SomeFailed(t, s, k))
      {
        assert MemberOk(t, k);
        DoneOnly(t, s, pending, k);
      }
      MembersAllDone(t, s, n);
      MembersSomeFailed(t, s, n);
    }
  }

  // ---------------------------------------------------------------- every interleaving

  ghost predicate Ended(acts: seq<Step>, x: Node, st: Status) { End(x, st) in acts }

  ghost predicate EndedAny(acts: seq<Step>, x: Node) { exists st :: Ended(acts, x, st) }

  lemma StepLeaves(t: Tree, w: World, a: Step, x: Node)
    requires Enabled(t, w, a) && IsLeaf(t, x)
    ensures var r := Apply(t, w, a).s;
            if a.End? && a.n == x then x in r.status && r.status[x] == a.st
            else (x in r.status <==> x in w.s.status) && (x in r.status ==> r.status[x] == w.s.status[x])
  {
  }

  /** An operation has the status it ended with. */
  lemma {:induction false} ExecLeaves(t: Tree, w: World, acts: seq<Step>, x: Node)
    requires Runs(t, w, acts) && IsLeaf(t, x)
    ensures var r := Exec(t, w, acts).s;
            && (x in w.s.status ==> x in r.status && r.status[x] == w.s.status[x] && !EndedAny(acts, x))
            && (x !in w.s.status ==> forall st :: (x in r.status && r.status[x] == st) <==> Ended(acts, x, st))
    decreases |acts|
  {
    if acts != [] {
      StepLeaves(t, w, acts[0], x);
      ExecLeaves(t, Apply(t, w, acts[0]), acts[1..], x);
      assert forall st :: Ended(acts, x, st) <==> acts[0] == End(x, st) || Ended(acts[1..], x, st);
    }
  }

  ghost predicate AllEnded(t: Tree, acts: seq<Step>, q: Node)
    requires WellFormed(t)
  {
    forall x :: Under(t, q, x) && IsLeaf(t, x) ==> EndedAny(acts, x)
  }

  ghost predicate OneFailed(t: Tree, acts: seq<Step>, q: Node)
    requires WellFormed(t)
  {
    exists x :: Under(t, q, x) && IsLeaf(t, x) && Ended(acts, x, Failure)
  }

  lemma LeavesEnded(t: Tree, acts: seq<Step>, q: Node)
    requires WellFormed(t) && Runs(t, Start(t), acts)
    ensures AllDone(t, Exec(t, Start(t), acts).s, q) <==> AllEnded(t, acts, q)
    ensures SomeFailed(t, Exec(t, Start(t), acts).s, q) <==> OneFailed(t, acts, q)
  {
    var r := Exec(t, Start(t), acts).s;
    forall x | IsLeaf(t, x)
      ensures x in r.status <==> EndedAny(acts, x)
      ensures (x in r.status && r.status[x] == Failure) <==> Ended(acts, x, Failure)
    {
      ExecLeaves(t, Start(t), acts, x);
      assert x in r.status ==> Ended(acts, x, r.status[x]);
    }
  }

  /** However the threads interleave, a queue's callbacks are run at most once, never before every
      operation below has ended, and with the failure status exactly when one of those failed; once no
      report is outstanding they have been run if every operation has ended. */
  lemma FiresOnceInterleaved(t: Tree, acts: seq<Step>, q: Node)
    requires WellFormed(t) && Runs(t, Start(t), acts) && q in t.kids
    ensures var w := Exec(t, Start(t), acts);
            && Times(w.s.fired, q) == (if q in w.s.status then 1 else 0)
            && (q in w.s.status ==> AllEnded(t, acts, q) && (q, w.s.status[q]) in w.s.fired)
            && (q in w.s.status ==> w.s.status[q] == if OneFailed(t, acts, q) then Failure else Success)
            && (w.pending == {} && AllEnded(t, acts, q) ==> q in w.s.status)
  {
    var w := Exec(t, Start(t), acts);
    InitHolds(t);
    RunKeeps(t, Start(t), acts);
    LeavesEnded(t, acts, q);
    assert Local(t, w.s, q);
    if q in w.s.status {
      DoneOnly(t, w.s, w.pending, q);
      MembersOnly(t, w.s, w.pending, q);
      var i := FiredAt(w.s.fired, q);
    }
    if w.pending == {} { DoneIff(t, w.s, q); }
  }

  // ---------------------------------------------------------------- reports get through

  /** The members that their queue does not yet know to be finished */
  ghost function Left(t: Tree, s: State): (r: set<Node>)
    requires WellFormed(t) && Typed(t, s)
  {
    set k | k in t.parent && MemberOk(t, k) && k !in s.qs[t.parent[k]].finished
  }

  lemma TellLeaves(t: Tree, w: World, n: Node)
    requires WellFormed(t) && Enabled(t, w, Tell(n)) && Unreported(t, w.s, n)
    ensures Left(t, Apply(t, w, Tell(n)).s) == Left(t, w.s) - {n} && n in Left(t, w.s)
  {
    var r := Apply(t, w, Tell(n)).s;
    forall k | k in t.parent && MemberOk(t, k)
      ensures k in r.qs[t.parent[k]].finished <==> k in w.s.qs[t.parent[k]].finished || k == n
    {
      assert r.qs[t.parent[n]].finished == w.s.qs[t.parent[n]].finished + [n];
    }
  }

  /** No report is ever stuck: from any point reports alone lead to where none is outstanding. */
  lemma {:induction false} ReportsGetThrough(t: Tree, w: World) returns (acts: seq<Step>)
    requires Pending(t, w.s, w.pending)
    ensures Runs(t, w, acts) && Exec(t, w, acts).pending == {} && forall a :: a in acts ==> a.Tell?
    decreases Left(t, w.s)
  {
    if w.pending == {} {
      acts := [];
    } else {
      var n :| n in w.pending;
      assert Unreported(t, w.s, n);
      TellLeaves(t, w, n);
      StepKeeps(t, w, Tell(n));
      var rest := ReportsGetThrough(t, Apply(t, w, Tell(n)));
      acts := [Tell(n)] + rest;
      assert acts[1..] == rest;
    }
  }

  /** Once every report is in, the threads have left each queue as one thread would have that completed
      the operations one after the other with the same results. */
  lemma AsOneThread(t: Tree, acts: seq<Step>, order: seq<(Node, Status)>, q: Node)
    requires WellFormed(t) && Runs(t, Start(t), acts) && Exec(t, Start(t), acts).pending == {} && q in t.kids
    requires OpQueue.Runs(t, Init(t), order) && forall x, st :: Ended(acts, x, st) <==> Result(order, x, st)
    ensures var r, s := Exec(t, Start(t), acts).s, OpQueue.Exec(t, Init(t), order);
            && Times(r.fired, q) == Times(s.fired, q)
            && (q in r.status <==> q in s.status) && (q in r.status ==> r.status[q] == s.status[q])
  {
    FiresOnceInterleaved(t, acts, q);
    FiresOnce(t, order, q);
    InitHolds(t);
    OpQueue.RunKeeps(t, Init(t), order);
    assert Local(t, OpQueue.Exec(t, Init(t), order), q);
    assert forall x :: EndedAny(acts, x) <==> Completed(order, x);
  }
}
