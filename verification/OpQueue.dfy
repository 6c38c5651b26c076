/** Trees of operation queues completed by callbacks (opque.c, gop.c).

    A queue counts the members it still waits for. When a member completes, its callback reports it to
    the queue; the last report completes the queue, whose own callback reports to the queue above. */
module OpQueue {

  type Node = nat

  datatype Status = Success | Failure | Other(code: int)

  /** The queues with their members in the order added, each member's queue, and a height for every
      node that grows towards the root. */
  datatype Tree = Tree(kids: map<Node, seq<Node>>, parent: map<Node, Node>, rank: map<Node, nat>, height: nat)

  function Rank(t: Tree, n: Node): (r: nat) { if n in t.rank then t.rank[n] else 0 }

  ghost predicate Distinct(s: seq<Node>) { forall i, j :: 0 <= i < j < |s| ==> s[i] != s[j] }

  ghost predicate QueueShape(t: Tree, q: Node)
    requires q in t.kids
  {
    Distinct(t.kids[q]) && (forall k :: k in t.kids[q] ==> k in t.parent && t.parent[k] == q)
  }

  ghost predicate QueueOk(t: Tree, q: Node)
    requires q in t.kids
  {
    t.kids[q] != [] && QueueShape(t, q)
  }

  ghost predicate MemberOk(t: Tree, k: Node)
    requires k in t.parent
  {
    t.parent[k] in t.kids && k in t.kids[t.parent[k]] && Rank(t, k) < Rank(t, t.parent[k]) <= t.height
  }

  /** A finite forest in which every queue has a member. */
  ghost predicate WellFormed(t: Tree) {
    && (forall q {:trigger QueueOk(t, q)} :: q in t.kids ==> QueueOk(t, q))
    && (forall k {:trigger MemberOk(t, k)} :: k in t.parent ==> MemberOk(t, k))
  }

  /** The same while queues are still being filled. */
  ghost predicate Shape(t: Tree) {
    && (forall q {:trigger QueueShape(t, q)} :: q in t.kids ==> QueueShape(t, q))
    && (forall k {:trigger MemberOk(t, k)} :: k in t.parent ==> MemberOk(t, k))
  }

  /** `internal_gop_opque_add` on the structure */
  function AddTo(t: Tree, q: Node, n: Node): (r: Tree)
    requires q in t.kids
  {
    t.(kids := t.kids[q := t.kids[q] + [n]], parent := t.parent[n := q])
  }

  /** Filling queues with nodes that are in no queue yet and stand lower keeps the structure; it is
      ready to run once no queue is empty. */
  lemma AddKeepsShape(t: Tree, q: Node, n: Node)
    requires Shape(t) && q in t.kids && n !in t.parent && Rank(t, n) < Rank(t, q) <= t.height
    ensures Shape(AddTo(t, q, n))
    ensures (forall p :: p in t.kids && p != q ==> t.kids[p] != []) ==> WellFormed(AddTo(t, q, n))
  {
    var r := AddTo(t, q, n);
    forall p | p in r.kids
      ensures QueueShape(r, p)
    {
      assert QueueShape(t, p);
    }
    forall k | k in r.parent
      ensures MemberOk(r, k)
    {
      if k != n { assert MemberOk(t, k); }
    }
    if forall p :: p in t.kids && p != q ==> t.kids[p] != [] {
      forall p | p in r.kids
        ensures QueueOk(r, p)
      {
        assert QueueShape(r, p);
      }
    }
  }

  /** `gop_que_data_t` */
  datatype Que = Que(nleft: int, finished: seq<Node>, failed: seq<Node>, retries: int)

  /** The mutable part: each queue's data, the status of each completed node, and the callbacks run so
      far. */
  datatype State = State(qs: map<Node, Que>, status: map<Node, Status>, fired: seq<(Node, Status)>)

  predicate Typed(t: Tree, s: State) { s.qs.Keys == t.kids.Keys }

  function Init(t: Tree): (s: State) {
    State(map q | q in t.kids :: Que(|t.kids[q]|, [], [], 0), map[], [])
  }

  // ---------------------------------------------------------------- the callback

  /** What `_opque_cb` takes as the outcome of member `n` */
  function Outcome(t: Tree, s: State, n: Node): (st: Status)
    requires Typed(t, s) && n in s.status
  {
    if n in t.kids && s.qs[n].failed != [] then Failure else s.status[n]
  }

  /** The bookkeeping of `_opque_cb` for member `n` of queue `q` */
  function Report(t: Tree, s: State, n: Node, q: Node): (r: State)
    requires Typed(t, s) && n in s.status && q in t.kids
    ensures Typed(t, r)
  {
    var d := s.qs[q];
    var failed := if Outcome(t, s, n) == Failure then [n] + d.failed else d.failed;
    s.(qs := s.qs[q := Que(d.nleft - 1, d.finished + [n], failed, d.retries)])
  }

  /** `_opque_cb` */
  function Notify(t: Tree, s: State, n: Node): (r: State)
    requires WellFormed(t) && Typed(t, s) && n in t.parent && n in s.status
    ensures Typed(t, r)
    decreases t.height - Rank(t, n), 0
  {
    assert MemberOk(t, n);
    var q := t.parent[n];
    var s1 := Report(t, s, n, q);
    var d := s1.qs[q];
    if d.nleft > 0 then s1
    else if d.failed == [] then Fire(t, s1, q, Success)
    else if d.retries == 0 then Fire(t, s1.(qs := s1.qs[q := d.(nleft := 0, retries := 1)]), q, Failure)
    else s1
  }

  /** A queue gets its status and runs its callbacks, that of the queue above among them. */
  function Fire(t: Tree, s: State, q: Node, st: Status): (r: State)
    requires WellFormed(t) && Typed(t, s) && q in t.kids
    requires Rank(t, q) <= t.height
    ensures Typed(t, r)
    decreases t.height - Rank(t, q), 1
  {
    var s1 := s.(status := s.status[q := st], fired := s.fired + [(q, st)]);
    if q in t.parent then Notify(t, s1, q) else s1
  }

  /** `single_gop_mark_completed` for an operation */
  function Complete(t: Tree, s: State, n: Node, st: Status): (r: State)
    requires WellFormed(t) && Typed(t, s) && n in t.parent
    ensures Typed(t, r)
  {
    Notify(t, s.(status := s.status[n := st]), n)
  }

  // ---------------------------------------------------------------- the invariant

  function Times(fired: seq<(Node, Status)>, n: Node): (k: nat) {
    if fired == [] then 0
    else Times(fired[..|fired| - 1], n) + (if fired[|fired| - 1].0 == n then 1 else 0)
  }

  /** A queue's lists and counters say the same: it has its status exactly when every member has
      reported, that is the moment its callbacks ran, and it failed if a member did. */
  ghost predicate Local(t: Tree, s: State, q: Node)
    requires Typed(t, s) && q in t.kids
  {
    && Distinct(s.qs[q].finished) && (forall k :: k in s.qs[q].finished ==> k in t.kids[q] && k in s.status)
    && s.qs[q].nleft == |t.kids[q]| - |s.qs[q].finished|
    && (forall k :: k in s.qs[q].failed <==> k in s.qs[q].finished && k in s.status && s.status[k] == Failure)
    && (q in s.status <==> |s.qs[q].finished| == |t.kids[q]|)
    && (q in s.status ==> s.status[q] == if s.qs[q].failed == [] then Success else Failure)
    && s.qs[q].retries == (if q in s.status && s.status[q] == Failure then 1 else 0)
    && Times(s.fired, q) == (if q in s.status then 1 else 0)
  }

  ghost predicate Reported(t: Tree, s: State, k: Node)
    requires Typed(t, s) && k in t.parent && t.parent[k] in t.kids
  {
    k in s.qs[t.parent[k]].finished <==> k in s.status
  }

  /** Every completed member has been reported, but for some of `pending`. */
  ghost predicate InvBut(t: Tree, s: State, pending: set<Node>) {
    && WellFormed(t) && Typed(t, s)
    && (forall q {:trigger Local(t, s, q)} :: q in t.kids ==> Local(t, s, q))
    && (forall k {:trigger Reported(t, s, k)} :: k in t.parent && k !in pending ==> MemberOk(t, k) && Reported(t, s, k))
    && (forall i :: 0 <= i < |s.fired| ==> s.fired[i].0 in s.status && s.fired[i].1 == s.status[s.fired[i].0])
  }

  ghost predicate Inv(t: Tree, s: State) { InvBut(t, s, {}) }

  /** `n` has completed and its report is still to come. */
  ghost predicate Unreported(t: Tree, s: State, n: Node)
    requires Typed(t, s)
  {
    n in t.parent && n in s.status && MemberOk(t, n) && n !in s.qs[t.parent[n]].finished
  }

  /** The reports still to come are those of `pending`. */
  ghost predicate Pending(t: Tree, s: State, pending: set<Node>) {
    InvBut(t, s, pending) && forall n :: n in pending ==> Unreported(t, s, n)
  }

  lemma InitHolds(t: Tree)
    requires WellFormed(t)
    ensures Inv(t, Init(t))
  {
    var s := Init(t);
    forall q | q in t.kids
      ensures Local(t, s, q)
    {
      assert QueueOk(t, q);
    }
    forall k | k in t.parent
      ensures MemberOk(t, k) && Reported(t, s, k)
    {
      assert MemberOk(t, k);
    }
  }

  /** Distinct members of a list are no more than its length, and as many only if they are all of it. */
  lemma {:induction false} Counting(a: seq<Node>, b: seq<Node>)
    requires Distinct(a) && (forall x :: x in a ==> x in b)
    ensures |a| <= |b|
    ensures |a| == |b| ==> forall x :: x in b ==> x in a
    decreases |a|
  {
    if a != [] {
      assert a[0] in b;
      var i :| 0 <= i < |b| && b[i] == a[0];
      var b' := b[..i] + b[i + 1..];
      assert forall x :: x in b ==> x == a[0] || x in b';
      Counting(a[1..], b');
    }
  }

  /** What the queue's lists hold once `n` has been put on them */
  ghost predicate Listed(t: Tree, r: State, q: Node)
    requires Typed(t, r) && q in t.kids
  {
    && Distinct(r.qs[q].finished) && (forall k :: k in r.qs[q].finished ==> k in t.kids[q] && k in r.status)
    && r.qs[q].nleft == |t.kids[q]| - |r.qs[q].finished| && |r.qs[q].finished| <= |t.kids[q]|
    && (forall k :: k in r.qs[q].failed <==> k in r.qs[q].finished && k in r.status && r.status[k] == Failure)
  }

  lemma OutcomeIsStatus(t: Tree, s: State, n: Node)
    requires Typed(t, s) && n in s.status && (n in t.kids ==> Local(t, s, n))
    ensures Outcome(t, s, n) == s.status[n]
  {
  }

  /** While a member has still to report, its queue has not completed. */
  lemma ReportLists(t: Tree, s: State, n: Node, q: Node)
    requires Typed(t, s) && q in t.kids && Local(t, s, q)
    requires n in s.status && n in t.kids[q] && n !in s.qs[q].finished && Outcome(t, s, n) == s.status[n]
    ensures q !in s.status && s.qs[q].retries == 0 && Listed(t, Report(t, s, n, q), q)
  {
    var r := Report(t, s, n, q);
    Counting(s.qs[q].finished, t.kids[q]);
    assert forall k :: k in r.qs[q].finished <==> k in s.qs[q].finished || k == n;
    Counting(r.qs[q].finished, t.kids[q]);
  }

  lemma ReportOther(t: Tree, s: State, n: Node, q: Node, p: Node)
    requires Typed(t, s) && n in s.status && q in t.kids && p in t.kids && p != q && Local(t, s, p)
    ensures Local(t, Report(t, s, n, q), p)
  {
  }

  lemma PendingFacts(t: Tree, s: State, pending: set<Node>, n: Node)
    requires Pending(t, s, pending) && n in pending
    ensures var q := t.parent[n];
            && q in t.kids && q !in s.status && s.qs[q].retries == 0
            && Local(t, s, q) && Outcome(t, s, n) == s.status[n] && Listed(t, Report(t, s, n, q), q)
  {
    var q := t.parent[n];
    assert Unreported(t, s, n);
    assert Local(t, s, q);
    if n in t.kids { assert Local(t, s, n); }
    OutcomeIsStatus(t, s, n);
    ReportLists(t, s, n, q);
  }

  /** A report that is not the last */
  lemma ReportKeeps(t: Tree, s: State, pending: set<Node>, n: Node)
    requires Pending(t, s, pending) && n in pending
    requires Unreported(t, s, n) && Report(t, s, n, t.parent[n]).qs[t.parent[n]].nleft > 0
    ensures Pending(t, Report(t, s, n, t.parent[n]), pending - {n})
  {
    var q := t.parent[n];
    var r := Report(t, s, n, q);
    PendingFacts(t, s, pending, n);
    assert Local(t, r, q);
    forall p | p in t.kids
      ensures Local(t, r, p)
    {
      assert Local(t, s, p);
      if p != q { ReportOther(t, s, n, q, p); }
    }
    forall k | k in t.parent && k !in pending - {n}
      ensures MemberOk(t, k) && Reported(t, r, k)
    {
      ReportReported(t, s, n, k);
    }
    forall k | k in pending - {n}
      ensures Unreported(t, r, k)
    {
      assert Unreported(t, s, k);
    }
  }

  lemma ReportReported(t: Tree, s: State, n: Node, k: Node)
    requires Typed(t, s) && n in t.parent && n in s.status && MemberOk(t, n) && k in t.parent && MemberOk(t, k)
    requires k != n ==> Reported(t, s, k)
    ensures Reported(t, Report(t, s, n, t.parent[n]), k)
  {
  }

  /** The queue's own completion, after the last report */
  function Finished(t: Tree, s: State, n: Node): (r: State)
    requires Typed(t, s) && n in s.status && n in t.parent && t.parent[n] in t.kids
    ensures Typed(t, r)
  {
    var q := t.parent[n];
    var s1 := Report(t, s, n, q);
    var d := s1.qs[q];
    var st := if d.failed == [] then Success else Failure;
    State(s1.qs[q := if st == Failure then d.(nleft := 0, retries := 1) else d], s1.status[q := st], s1.fired + [(q, st)])
  }

  lemma FinishedSelf(t: Tree, s: State, n: Node, q: Node)
    requires Typed(t, s) && n in s.status && n in t.parent && q == t.parent[n] && q in t.kids
    requires Local(t, s, q) && q !in s.status && s.qs[q].retries == 0 && q !in t.kids[q]
    requires Listed(t, Report(t, s, n, q), q) && Report(t, s, n, q).qs[q].nleft <= 0
    ensures Local(t, Finished(t, s, n), q)
  {
    var r := Finished(t, s, n);
    assert r.fired[..|r.fired| - 1] == s.fired;
    assert q !in r.qs[q].finished;
  }

  lemma FinishedOther(t: Tree, s: State, n: Node, p: Node)
    requires Typed(t, s) && n in s.status && n in t.parent && t.parent[n] in t.kids && t.parent[n] !in s.status
    requires p in t.kids && p != t.parent[n] && Local(t, s, p)
    ensures Local(t, Finished(t, s, n), p)
  {
    var r := Finished(t, s, n);
    assert r.fired[..|r.fired| - 1] == s.fired;
    assert t.parent[n] !in s.qs[p].finished;
  }

  lemma NotOwnMember(t: Tree, q: Node)
    requires WellFormed(t) && q in t.kids
    ensures q !in t.kids[q]
  {
    assert QueueOk(t, q);
    if q in t.parent { assert MemberOk(t, q); }
  }

  lemma FinishedLocal(t: Tree, s: State, pending: set<Node>, n: Node)
    requires Pending(t, s, pending) && n in pending
    requires Unreported(t, s, n) && Report(t, s, n, t.parent[n]).qs[t.parent[n]].nleft <= 0
    ensures var r := Finished(t, s, n); forall p :: p in t.kids ==> Local(t, r, p)
  {
    var q, r := t.parent[n], Finished(t, s, n);
    PendingFacts(t, s, pending, n);
    NotOwnMember(t, q);
    forall p | p in t.kids
      ensures Local(t, r, p)
    {
      assert Local(t, s, p);
      if p == q { FinishedSelf(t, s, n, q); } else { FinishedOther(t, s, n, p); }
    }
  }

  lemma FinishedReported(t: Tree, s: State, n: Node, k: Node)
    requires Typed(t, s) && n in t.parent && n in s.status && MemberOk(t, n) && k in t.parent && MemberOk(t, k)
    requires (k != n ==> Reported(t, s, k)) && k != t.parent[n]
    ensures Reported(t, Finished(t, s, n), k)
  {
  }

  /** Who has still to report once the last member of `n`'s queue has */
  function Passed(t: Tree, pending: set<Node>, n: Node): (r: set<Node>)
    requires n in t.parent
  {
    pending - {n} + (if t.parent[n] in t.parent then {t.parent[n]} else {})
  }

  lemma FinishedPends(t: Tree, s: State, pending: set<Node>, n: Node)
    requires Pending(t, s, pending) && n in pending
    requires Unreported(t, s, n) && Report(t, s, n, t.parent[n]).qs[t.parent[n]].nleft <= 0
    ensures Pending(t, Finished(t, s, n), Passed(t, pending, n))
  {
    var q, r := t.parent[n], Finished(t, s, n);
    FinishedLocal(t, s, pending, n);
    PendingFacts(t, s, pending, n);
    forall k | k in t.parent && k !in Passed(t, pending, n)
      ensures MemberOk(t, k) && Reported(t, r, k)
    {
      assert MemberOk(t, k) && (k != n ==> Reported(t, s, k));
      FinishedReported(t, s, n, k);
    }
    FiredGrows(t, s, n);
    forall k | k in Passed(t, pending, n)
      ensures Unreported(t, r, k)
    {
      if k == q { assert MemberOk(t, q) && Reported(t, s, q); } else { assert Unreported(t, s, k); }
    }
  }

  lemma FiredGrows(t: Tree, s: State, n: Node)
    requires Typed(t, s) && n in s.status && n in t.parent && t.parent[n] in t.kids && t.parent[n] !in s.status
    requires forall i :: 0 <= i < |s.fired| ==> s.fired[i].0 in s.status && s.fired[i].1 == s.status[s.fired[i].0]
    ensures var r := Finished(t, s, n);
            forall i :: 0 <= i < |r.fired| ==> r.fired[i].0 in r.status && r.fired[i].1 == r.status[r.fired[i].0]
  {
  }

  lemma {:induction false} NotifyKeeps(t: Tree, s: State, n: Node)
    requires Pending(t, s, {n})
    ensures Unreported(t, s, n) && Inv(t, Notify(t, s, n))
    decreases t.height - Rank(t, n)
  {
    assert Unreported(t, s, n);
    var q := t.parent[n];
    var s1 := Report(t, s, n, q);
    if s1.qs[q].nleft > 0 {
      ReportKeeps(t, s, {n}, n);
      assert {n} - {n} == {};
    } else {
      PendingFacts(t, s, {n}, n);
      FinishedPends(t, s, {n}, n);
      assert s1.qs[q := s1.qs[q]] == s1.qs;
      assert Notify(t, s, n) == if q in t.parent then Notify(t, Finished(t, s, n), q) else Finished(t, s, n);
      assert Passed(t, {n}, n) == if q in t.parent then {q} else {};
      if q in t.parent { NotifyKeeps(t, Finished(t, s, n), q); }
    }
  }

  lemma EndLocal(t: Tree, s: State, n: Node, st: Status, q: Node)
    requires Typed(t, s) && q in t.kids && n !in t.kids && n !in s.status && Local(t, s, q)
    ensures Local(t, s.(status := s.status[n := st]), q)
  {
    assert n !in s.qs[q].finished;
  }

  lemma EndReported(t: Tree, s: State, n: Node, st: Status, k: Node)
    requires Typed(t, s) && k in t.parent && MemberOk(t, k) && k != n
    ensures var s1 := s.(status := s.status[n := st]);
            (Reported(t, s, k) <==> Reported(t, s1, k)) && (Unreported(t, s, k) <==> Unreported(t, s1, k))
  {
  }

  /** An operation ends; its report comes later. */
  lemma EndKeeps(t: Tree, s: State, pending: set<Node>, n: Node, st: Status)
    requires Pending(t, s, pending) && n in t.parent && n !in t.kids && n !in s.status
    ensures Pending(t, s.(status := s.status[n := st]), pending + {n})
  {
    var s1 := s.(status := s.status[n := st]);
    assert n !in pending;
    assert MemberOk(t, n) && Reported(t, s, n);
    assert forall q :: q in t.kids ==> Local(t, s1, q) by {
      forall q | q in t.kids
        ensures Local(t, s1, q)
      {
        assert Local(t, s, q);
        EndLocal(t, s, n, st, q);
      }
    }
    forall k | k in t.parent && k != n
      ensures MemberOk(t, k) && (k !in pending ==> Reported(t, s1, k)) && (k in pending ==> Unreported(t, s1, k))
    {
      assert MemberOk(t, k);
      EndReported(t, s, n, st, k);
    }
    assert InvBut(t, s1, pending + {n});
    assert Unreported(t, s1, n);
    forall k | k in pending + {n}
      ensures Unreported(t, s1, k)
    {
      if k != n { assert Unreported(t, s, k); }
    }
  }

  lemma CompleteKeeps(t: Tree, s: State, n: Node, st: Status)
    requires Inv(t, s) && n in t.parent && n !in t.kids && n !in s.status
    ensures Inv(t, Complete(t, s, n, st))
  {
    EndKeeps(t, s, {}, n, st);
    assert {} + {n} == {n};
    NotifyKeeps(t, s.(status := s.status[n := st]), n);
  }

  // ---------------------------------------------------------------- what a status means

  predicate IsLeaf(t: Tree, n: Node) { n !in t.kids }

  /** `x` is `q` or below it. */
  ghost predicate Under(t: Tree, q: Node, x: Node)
    requires WellFormed(t)
    decreases t.height - Rank(t, x)
  {
    x == q || (x in t.parent && MemberOk(t, x) && Under(t, q, t.parent[x]))
  }

  lemma {:induction false} UnderTrans(t: Tree, q: Node, k: Node, x: Node)
    requires WellFormed(t) && k in t.parent && t.parent[k] == q && Under(t, k, x)
    ensures Under(t, q, x)
    decreases t.height - Rank(t, x)
  {
    assert MemberOk(t, k);
    assert Under(t, q, q);
    if x != k { UnderTrans(t, q, k, t.parent[x]); }
  }

  lemma {:induction false} UnderVia(t: Tree, q: Node, x: Node) returns (k: Node)
    requires WellFormed(t) && Under(t, q, x) && x != q
    ensures q in t.kids && k in t.kids[q] && Under(t, k, x)
    decreases t.height - Rank(t, x)
  {
    var p := t.parent[x];
    if p == q {
      k := x;
    } else {
      k := UnderVia(t, q, p);
    }
  }

  /** A node below is never higher. */
  lemma {:induction false} UnderRank(t: Tree, q: Node, x: Node)
    requires WellFormed(t) && Under(t, q, x)
    ensures Rank(t, x) <= Rank(t, q) && (x != q ==> Rank(t, x) < Rank(t, q))
    decreases t.height - Rank(t, x)
  {
    if x != q { UnderRank(t, q, t.parent[x]); }
  }

  /** Every operation below `n` has completed. */
  ghost predicate AllDone(t: Tree, s: State, n: Node)
    requires WellFormed(t)
  {
    forall x :: Under(t, n, x) && IsLeaf(t, x) ==> x in s.status
  }

  ghost predicate SomeFailed(t: Tree, s: State, n: Node)
    requires WellFormed(t)
  {
    exists x :: Under(t, n, x) && IsLeaf(t, x) && x in s.status && s.status[x] == Failure
  }

  lemma MembersDone(t: Tree, s: State, q: Node)
    requires Inv(t, s) && q in t.kids
    ensures q in s.status <==> forall k :: k in t.kids[q] ==> k in s.status
    ensures q in s.status ==> (s.status[q] == Failure <==> exists k :: k in t.kids[q] && k in s.status && s.status[k] == Failure)
    ensures q in s.status ==> s.status[q] in {Success, Failure}
  {
    assert Local(t, s, q) && QueueOk(t, q);
    var fin, failed := s.qs[q].finished, s.qs[q].failed;
    Counting(fin, t.kids[q]);
    forall k | k in t.kids[q]
      ensures k in fin <==> k in s.status
    {
      assert MemberOk(t, k) && Reported(t, s, k);
    }
    if forall k :: k in t.kids[q] ==> k in s.status {
      Counting(t.kids[q], fin);
    }
    if q in s.status && s.status[q] == Failure {
      assert failed[0] in failed;
    }
  }

  /** A queue has completed exactly when every operation below it has, whatever the order; and it
      failed exactly when one of those did. */
  lemma {:induction false} DoneIff(t: Tree, s: State, n: Node)
    requires Inv(t, s)
    ensures n in s.status <==> AllDone(t, s, n)
    ensures n in s.status ==> (s.status[n] == Failure <==> SomeFailed(t, s, n))
    decreases Rank(t, n)
  {
    if n !in t.kids {
      LeafAlone(t, n);
      assert Under(t, n, n);
    } else {
      MembersDone(t, s, n);
      assert QueueOk(t, n);
      forall k | k in t.kids[n]
        ensures k in s.status <==> AllDone(t, s, k)
        ensures k in s.status ==> (s.status[k] == Failure <==> SomeFailed(t, s, k))
      {
        assert MemberOk(t, k);
        DoneIff(t, s, k);
      }
      MembersAllDone(t, s, n);
      MembersSomeFailed(t, s, n);
    }
  }

  lemma LeafAlone(t: Tree, n: Node)
    requires WellFormed(t) && n !in t.kids
    ensures forall x :: Under(t, n, x) ==> x == n
  {
    forall x | Under(t, n, x)
      ensures x == n
    {
      if x != n { var k := UnderVia(t, n, x); }
    }
  }

  lemma MembersAllDone(t: Tree, s: State, n: Node)
    requires WellFormed(t) && n in t.kids
    ensures AllDone(t, s, n) <==> forall k :: k in t.kids[n] ==> AllDone(t, s, k)
  {
    assert QueueOk(t, n);
    if AllDone(t, s, n) {
      forall k, x | k in t.kids[n] && Under(t, k, x) && IsLeaf(t, x)
        ensures x in s.status
      {
        UnderTrans(t, n, k, x);
      }
    }
    if forall k :: k in t.kids[n] ==> AllDone(t, s, k) {
      forall x | Under(t, n, x) && IsLeaf(t, x)
        ensures x in s.status
      {
        var k := UnderVia(t, n, x);
      }
    }
  }

  lemma MembersSomeFailed(t: Tree, s: State, n: Node)
    requires WellFormed(t) && n in t.kids
    ensures SomeFailed(t, s, n) <==> exists k :: k in t.kids[n] && SomeFailed(t, s, k)
  {
    assert QueueOk(t, n);
    if x :| Under(t, n, x) && IsLeaf(t, x) && x in s.status && s.status[x] == Failure {
      var k := UnderVia(t, n, x);
      assert SomeFailed(t, s, k);
    }
    if k :| k in t.kids[n] && SomeFailed(t, s, k) {
      var x :| Under(t, k, x) && IsLeaf(t, x) && x in s.status && s.status[x] == Failure;
      UnderTrans(t, n, k, x);
    }
  }

  // ---------------------------------------------------------------- every order of completion

  /** Operations complete one after the other, each once. */
  ghost predicate Runs(t: Tree, s: State, order: seq<(Node, Status)>)
    requires WellFormed(t) && Typed(t, s)
    decreases |order|
  {
    order == [] || (&& order[0].0 in t.parent && IsLeaf(t, order[0].0) && order[0].0 !in s.status
                    && Runs(t, Complete(t, s, order[0].0, order[0].1), order[1..]))
  }

  ghost function Exec(t: Tree, s: State, order: seq<(Node, Status)>): (r: State)
    requires WellFormed(t) && Typed(t, s) && Runs(t, s, order)
    ensures Typed(t, r)
    decreases |order|
  {
    if order == [] then s else Exec(t, Complete(t, s, order[0].0, order[0].1), order[1..])
  }

  lemma {:induction false} RunKeeps(t: Tree, s: State, order: seq<(Node, Status)>)
    requires Inv(t, s) && Runs(t, s, order)
    ensures Inv(t, Exec(t, s, order))
    decreases |order|
  {
    if order != [] {
      CompleteKeeps(t, s, order[0].0, order[0].1);
      RunKeeps(t, Complete(t, s, order[0].0, order[0].1), order[1..]);
    }
  }

  /** A report changes the status of no operation. */
  lemma {:induction false} NotifyLeaves(t: Tree, s: State, n: Node, x: Node)
    requires WellFormed(t) && Typed(t, s) && n in t.parent && n in s.status && IsLeaf(t, x)
    ensures var r := Notify(t, s, n);
            (x in r.status <==> x in s.status) && (x in s.status ==> r.status[x] == s.status[x])
    decreases t.height - Rank(t, n)
  {
    assert MemberOk(t, n);
    var q := t.parent[n];
    var s1 := Report(t, s, n, q);
    var d := s1.qs[q];
    if d.nleft <= 0 && q in t.parent {
      if d.failed == [] {
        NotifyLeaves(t, s1.(status := s1.status[q := Success], fired := s1.fired + [(q, Success)]), q, x);
      } else if d.retries == 0 {
        var s2 := s1.(qs := s1.qs[q := d.(nleft := 0, retries := 1)]);
        NotifyLeaves(t, s2.(status := s2.status[q := Failure], fired := s2.fired + [(q, Failure)]), q, x);
      }
    }
  }

  ghost predicate Result(order: seq<(Node, Status)>, x: Node, st: Status) { (x, st) in order }

  ghost predicate Completed(order: seq<(Node, Status)>, x: Node) { exists st :: Result(order, x, st) }

  lemma {:induction false} ExecLeaves(t: Tree, s: State, order: seq<(Node, Status)>, x: Node)
    requires WellFormed(t) && Typed(t, s) && Runs(t, s, order) && IsLeaf(t, x)
    ensures var r := Exec(t, s, order);
            && (x in s.status ==> x in r.status && r.status[x] == s.status[x] && !Completed(order, x))
            && (x !in s.status ==> forall st :: (x in r.status && r.status[x] == st) <==> Result(order, x, st))
    decreases |order|
  {
    if order != [] {
      var n, st := order[0].0, order[0].1;
      NotifyLeaves(t, s.(status := s.status[n := st]), n, x);
      ExecLeaves(t, Complete(t, s, n, st), order[1..], x);
      assert forall st' :: Result(order, x, st') <==> (n == x && st == st') || Result(order[1..], x, st');
    }
  }

  ghost predicate FailedBelow(t: Tree, order: seq<(Node, Status)>, q: Node)
    requires WellFormed(t)
  {
    exists x :: Under(t, q, x) && IsLeaf(t, x) && Result(order, x, Failure)
  }

  /** After any run a queue's callbacks have been run once if every operation below it has completed,
      and not at all otherwise; they got the failure status exactly when one of those operations ended
      in failure. */
  lemma FiresOnce(t: Tree, order: seq<(Node, Status)>, q: Node)
    requires WellFormed(t) && Runs(t, Init(t), order) && q in t.kids
    ensures var r := Exec(t, Init(t), order);
            var done := forall x :: Under(t, q, x) && IsLeaf(t, x) ==> Completed(order, x);
            && Times(r.fired, q) == (if done then 1 else 0)
            && (done ==> q in r.status && (q, r.status[q]) in r.fired)
            && (done ==> r.status[q] == if FailedBelow(t, order, q) then Failure else Success)
  {
    var r := Exec(t, Init(t), order);
    InitHolds(t);
    RunKeeps(t, Init(t), order);
    DoneIff(t, r, q);
    MembersDone(t, r, q);
    forall x | IsLeaf(t, x)
      ensures x in r.status <==> Completed(order, x)
      ensures (x in r.status && r.status[x] == Failure) <==> Result(order, x, Failure)
    {
      ExecLeaves(t, Init(t), order, x);
      assert x in r.status ==> Result(order, x, r.status[x]);
    }
    assert Local(t, r, q);
    if q in r.status { var i := FiredAt(r.fired, q); }
  }

  lemma {:induction false} FiredAt(fired: seq<(Node, Status)>, q: Node) returns (i: nat)
    requires Times(fired, q) > 0
    ensures i < |fired| && fired[i].0 == q
  {
    var last := |fired| - 1;
    if fired[last].0 == q { i := last; } else { i := FiredAt(fired[..last], q); }
  }

  /** The queue's callbacks run inside the completion of the last operation below it. */
  lemma FiresAtLast(t: Tree, s: State, x: Node, st: Status, q: Node)
    requires Inv(t, s) && x in t.parent && IsLeaf(t, x) && x !in s.status && q in t.kids
    ensures var r := Complete(t, s, x, st);
            (Times(r.fired, q) == Times(s.fired, q) + 1) <==>
            (Under(t, q, x) && forall y :: Under(t, q, y) && IsLeaf(t, y) && y != x ==> y in s.status)
  {
    var r := Complete(t, s, x, st);
    CompleteKeeps(t, s, x, st);
    DoneIff(t, s, q);
    DoneIff(t, r, q);
    assert Local(t, s, q) && Local(t, r, q);
    forall y | IsLeaf(t, y)
      ensures y in r.status <==> y in s.status || y == x
    {
      NotifyLeaves(t, s.(status := s.status[x := st]), x, y);
    }
  }

  /** Two runs that give every operation the same result leave every queue with the same status and the
      same callbacks run. */
  lemma OrderIndependent(t: Tree, a: seq<(Node, Status)>, b: seq<(Node, Status)>, q: Node)
    requires WellFormed(t) && Runs(t, Init(t), a) && Runs(t, Init(t), b) && q in t.kids
    requires forall x, st :: Result(a, x, st) <==> Result(b, x, st)
    ensures var r, s := Exec(t, Init(t), a), Exec(t, Init(t), b);
            && Times(r.fired, q) == Times(s.fired, q)
            && (q in r.status <==> q in s.status) && (q in r.status ==> r.status[q] == s.status[q])
  {
    FiresOnce(t, a, q);
    FiresOnce(t, b, q);
    InitHolds(t);
    RunKeeps(t, Init(t), a);
    RunKeeps(t, Init(t), b);
    var r, s := Exec(t, Init(t), a), Exec(t, Init(t), b);
    assert Local(t, r, q) && Local(t, s, q);
    assert forall x :: Completed(a, x) <==> Completed(b, x);
  }
}
