/** Building, starting and completing queues in place (opque.c, gop.c). */
module OpQueueExec {

  import opened OpQueue

  // ---------------------------------------------------------------- the order of submission

  /** The operations below `q`, depth first and in the order they were added; queues that have been
      started are passed over. */
  ghost function Order(t: Tree, started: set<Node>, q: Node): (s: seq<Node>)
    requires WellFormed(t) && q in t.kids
    decreases Rank(t, q), |t.kids[q]| + 1
  {
    if q in started then [] else OrderOf(t, started, q, |t.kids[q]|)
  }

  /** Those below the first `i` members of `q` */
  ghost function OrderOf(t: Tree, started: set<Node>, q: Node, i: nat): (s: seq<Node>)
    requires WellFormed(t) && q in t.kids && i <= |t.kids[q]|
    decreases Rank(t, q), i
  {
    if i == 0 then []
    else
      var k := t.kids[q][i - 1];
      assert QueueOk(t, q) && k in t.kids[q];
      assert MemberOk(t, k);
      OrderOf(t, started, q, i - 1) + (if k in t.kids then Order(t, started, k) else [k])
  }

  /** `x` is below `q`, and no queue from `x` up to `q` has been started. */
  ghost predicate Open(t: Tree, started: set<Node>, q: Node, x: Node)
    requires WellFormed(t)
    decreases t.height - Rank(t, x)
  {
    (x in t.kids ==> x !in started) && (x == q || (x in t.parent && MemberOk(t, x) && Open(t, started, q, t.parent[x])))
  }

  lemma {:induction false} OpenUnder(t: Tree, started: set<Node>, q: Node, x: Node)
    requires WellFormed(t) && Open(t, started, q, x)
    ensures Under(t, q, x) && (q in t.kids ==> q !in started)
    decreases t.height - Rank(t, x)
  {
    if x != q { OpenUnder(t, started, q, t.parent[x]); }
  }

  lemma {:induction false} OpenVia(t: Tree, started: set<Node>, q: Node, x: Node) returns (k: Node)
    requires WellFormed(t) && Open(t, started, q, x) && x != q
    ensures q in t.kids && q !in started && k in t.kids[q] && Open(t, started, k, x)
    decreases t.height - Rank(t, x)
  {
    var p := t.parent[x];
    if p == q { k := x; } else { k := OpenVia(t, started, q, p); }
  }

  lemma {:induction false} OpenTrans(t: Tree, started: set<Node>, q: Node, k: Node, x: Node)
    requires WellFormed(t) && k in t.parent && t.parent[k] == q && q !in started && Open(t, started, k, x)
    ensures Open(t, started, q, x)
    decreases t.height - Rank(t, x)
  {
    assert MemberOk(t, k);
    assert Open(t, started, q, q);
    if x != k { OpenTrans(t, started, q, k, t.parent[x]); }
  }

  /** Only what has been started below `q` matters. */
  ghost predicate AgreeBelow(t: Tree, a: set<Node>, b: set<Node>, q: Node)
    requires WellFormed(t)
  {
    forall x :: Under(t, q, x) && x in t.kids ==> (x in a <==> x in b)
  }

  lemma {:induction false} OpenSame(t: Tree, a: set<Node>, b: set<Node>, q: Node, x: Node)
    requires WellFormed(t) && AgreeBelow(t, a, b, q) && Open(t, a, q, x)
    ensures Open(t, b, q, x)
    decreases t.height - Rank(t, x)
  {
    OpenUnder(t, a, q, x);
    if x != q { OpenSame(t, a, b, q, t.parent[x]); }
  }

  lemma AgreeMember(t: Tree, a: set<Node>, b: set<Node>, q: Node, k: Node)
    requires WellFormed(t) && AgreeBelow(t, a, b, q) && k in t.parent && t.parent[k] == q
    ensures AgreeBelow(t, a, b, k)
  {
    forall x | Under(t, k, x) && x in t.kids
      ensures x in a <==> x in b
    {
      UnderTrans(t, q, k, x);
    }
  }

  lemma OrderSame(t: Tree, a: set<Node>, b: set<Node>, q: Node)
    requires WellFormed(t) && q in t.kids && AgreeBelow(t, a, b, q)
    ensures Order(t, a, q) == Order(t, b, q)
    decreases Rank(t, q), |t.kids[q]| + 1
  {
    assert Under(t, q, q);
    OrderOfSame(t, a, b, q, |t.kids[q]|);
  }

  lemma {:induction false} OrderOfSame(t: Tree, a: set<Node>, b: set<Node>, q: Node, i: nat)
    requires WellFormed(t) && q in t.kids && AgreeBelow(t, a, b, q) && i <= |t.kids[q]|
    ensures OrderOf(t, a, q, i) == OrderOf(t, b, q, i)
    decreases Rank(t, q), i
  {
    if i > 0 {
      var k := t.kids[q][i - 1];
      assert QueueOk(t, q) && k in t.kids[q];
      assert MemberOk(t, k);
      OrderOfSame(t, a, b, q, i - 1);
      if k in t.kids {
        AgreeMember(t, a, b, q, k);
        OrderSame(t, a, b, k);
      }
    }
  }

  /** The members of one queue have nothing below them in common. */
  lemma {:induction false} Apart(t: Tree, q: Node, j: Node, k: Node, x: Node)
    requires WellFormed(t) && q in t.kids && j in t.kids[q] && k in t.kids[q] && Under(t, j, x) && Under(t, k, x)
    ensures j == k
    decreases t.height - Rank(t, x)
  {
    assert QueueOk(t, q);
    assert MemberOk(t, j) && MemberOk(t, k);
    if x == j || x == k {
      if x == j && j != k { UnderRank(t, k, q); }
      if x == k && j != k { UnderRank(t, j, q); }
    } else {
      Apart(t, q, j, k, t.parent[x]);
    }
  }

  ghost predicate OpenFirst(t: Tree, started: set<Node>, q: Node, i: nat, x: Node)
    requires WellFormed(t) && q in t.kids && i <= |t.kids[q]|
  {
    exists j :: 0 <= j < i && Open(t, started, t.kids[q][j], x)
  }

  /** What is open below one member is not below those before it. */
  lemma OpenFirstNext(t: Tree, started: set<Node>, q: Node, i: nat, x: Node)
    requires WellFormed(t) && q in t.kids && 0 < i <= |t.kids[q]|
    ensures OpenFirst(t, started, q, i, x) <==>
              OpenFirst(t, started, q, i - 1, x) || Open(t, started, t.kids[q][i - 1], x)
    ensures !(OpenFirst(t, started, q, i - 1, x) && Under(t, t.kids[q][i - 1], x))
  {
    assert QueueOk(t, q);
    if j :| 0 <= j < i - 1 && Open(t, started, t.kids[q][j], x) {
      OpenUnder(t, started, t.kids[q][j], x);
      if Under(t, t.kids[q][i - 1], x) { Apart(t, q, t.kids[q][j], t.kids[q][i - 1], x); }
    }
  }

  lemma NotBelowMember(t: Tree, q: Node, k: Node)
    requires WellFormed(t) && q in t.kids && k in t.kids[q]
    ensures !Under(t, k, q)
  {
    assert QueueOk(t, q);
    assert MemberOk(t, k);
    if Under(t, k, q) { UnderRank(t, k, q); }
  }

  lemma OpenAll(t: Tree, started: set<Node>, q: Node, x: Node)
    requires WellFormed(t) && q in t.kids && q !in started
    ensures Open(t, started, q, x) <==> x == q || OpenFirst(t, started, q, |t.kids[q]|, x)
    ensures !OpenFirst(t, started, q, |t.kids[q]|, q)
  {
    assert QueueOk(t, q);
    if Open(t, started, q, x) && x != q {
      var k := OpenVia(t, started, q, x);
    }
    forall j | 0 <= j < |t.kids[q]| && Open(t, started, t.kids[q][j], x)
      ensures Open(t, started, q, x)
    {
      assert t.kids[q][j] in t.kids[q];
      OpenTrans(t, started, q, t.kids[q][j], x);
    }
    forall j | 0 <= j < |t.kids[q]|
      ensures !Open(t, started, t.kids[q][j], q)
    {
      NotBelowMember(t, q, t.kids[q][j]);
      if Open(t, started, t.kids[q][j], q) { OpenUnder(t, started, t.kids[q][j], q); }
    }
  }

  function Occurs(s: seq<Node>, x: Node): (n: nat) {
    if s == [] then 0 else Occurs(s[..|s| - 1], x) + (if s[|s| - 1] == x then 1 else 0)
  }

  /** Each operation below the queue that no started queue holds comes exactly once; nothing else does. */
  lemma OrderOnce(t: Tree, started: set<Node>, q: Node, x: Node)
    requires WellFormed(t) && q in t.kids
    ensures Occurs(Order(t, started, q), x) == if IsLeaf(t, x) && Open(t, started, q, x) then 1 else 0
    decreases Rank(t, q), |t.kids[q]| + 1
  {
    if q in started {
      if Open(t, started, q, x) { OpenUnder(t, started, q, x); }
    } else {
      OrderOfOnce(t, started, q, |t.kids[q]|, x);
      OpenAll(t, started, q, x);
    }
  }

  lemma {:induction false} OrderOfOnce(t: Tree, started: set<Node>, q: Node, i: nat, x: Node)
    requires WellFormed(t) && q in t.kids && i <= |t.kids[q]|
    ensures Occurs(OrderOf(t, started, q, i), x) == if IsLeaf(t, x) && OpenFirst(t, started, q, i, x) then 1 else 0
    decreases Rank(t, q), i
  {
    if i > 0 {
      var k := t.kids[q][i - 1];
      assert MemberOk(t, k) by { assert QueueOk(t, q) && k in t.kids[q]; }
      OrderOfOnce(t, started, q, i - 1, x);
      OpenFirstNext(t, started, q, i, x);
      if Open(t, started, k, x) { OpenUnder(t, started, k, x); }
      if k in t.kids {
        OrderOnce(t, started, k, x);
        OccursConcat(OrderOf(t, started, q, i - 1), Order(t, started, k), x);
      } else {
        SingleOnce(t, started, k, x);
        OccursConcat(OrderOf(t, started, q, i - 1), [k], x);
      }
    }
  }

  lemma SingleOnce(t: Tree, started: set<Node>, k: Node, x: Node)
    requires WellFormed(t) && k !in t.kids
    ensures Occurs([k], x) == if IsLeaf(t, x) && Open(t, started, k, x) then 1 else 0
  {
    LeafAlone(t, k);
    if Open(t, started, k, x) { OpenUnder(t, started, k, x); }
    assert Open(t, started, k, k);
  }

  lemma {:induction false} OccursConcat(a: seq<Node>, b: seq<Node>, x: Node)
    ensures Occurs(a + b, x) == Occurs(a, x) + Occurs(b, x)
  {
    if b == [] {
      assert a + b == a;
    } else {
      var last := |b| - 1;
      assert (a + b)[..|a + b| - 1] == a + b[..last];
      OccursConcat(a, b[..last], x);
    }
  }

  // ---- earlier members first

  ghost predicate Before(s: seq<Node>, x: Node, y: Node) { exists i, j :: 0 <= i < j < |s| && s[i] == x && s[j] == y }

  lemma {:induction false} OccursAt(s: seq<Node>, x: Node) returns (i: nat)
    requires Occurs(s, x) > 0
    ensures i < |s| && s[i] == x
  {
    var last := |s| - 1;
    if s[last] == x { i := last; } else { i := OccursAt(s[..last], x); }
  }

  lemma BeforeIn(a: seq<Node>, b: seq<Node>, tail: seq<Node>, x: Node, y: Node)
    requires Occurs(a, x) > 0 && Occurs(b, y) > 0
    ensures Before(a + b + tail, x, y)
  {
    var i := OccursAt(a, x);
    var j := OccursAt(b, y);
    assert (a + b + tail)[i] == x && (a + b + tail)[|a| + j] == y;
  }

  lemma BeforeWithin(a: seq<Node>, b: seq<Node>, tail: seq<Node>, x: Node, y: Node)
    requires Before(b, x, y)
    ensures Before(a + b + tail, x, y)
  {
    var i, j :| 0 <= i < j < |b| && b[i] == x && b[j] == y;
    assert (a + b + tail)[|a| + i] == x && (a + b + tail)[|a| + j] == y;
  }

  /** What is submitted for member `i` of `q` */
  ghost function Part(t: Tree, started: set<Node>, q: Node, i: nat): (s: seq<Node>)
    requires WellFormed(t) && q in t.kids && i < |t.kids[q]|
  {
    var k := t.kids[q][i];
    if k in t.kids then Order(t, started, k) else [k]
  }

  lemma PartOnce(t: Tree, started: set<Node>, q: Node, i: nat, x: Node)
    requires WellFormed(t) && q in t.kids && i < |t.kids[q]|
    ensures Occurs(Part(t, started, q, i), x) == if IsLeaf(t, x) && Open(t, started, t.kids[q][i], x) then 1 else 0
  {
    var k := t.kids[q][i];
    if k in t.kids { OrderOnce(t, started, k, x); } else { SingleOnce(t, started, k, x); }
  }

  /** The order of a queue is that of its members before `i`, then the part of `i`, then the rest. */
  lemma {:induction false} OrderSplits(t: Tree, started: set<Node>, q: Node, i: nat, n: nat) returns (rest: seq<Node>)
    requires WellFormed(t) && q in t.kids && i < n <= |t.kids[q]|
    ensures OrderOf(t, started, q, n) == OrderOf(t, started, q, i) + Part(t, started, q, i) + rest
    decreases n
  {
    if i + 1 == n {
      rest := [];
    } else {
      rest := OrderSplits(t, started, q, i, n - 1);
      rest := rest + Part(t, started, q, n - 1);
    }
  }

  /** Of two operations below different members of a queue that is started, the one below the earlier
      member is submitted first; this holds of every queue below it as well. */
  lemma {:induction false} EarlierFirst(t: Tree, started: set<Node>, q: Node, p: Node, i: nat, j: nat, x: Node, y: Node)
    requires WellFormed(t) && q in t.kids && p in t.kids && Open(t, started, q, p) && i < j < |t.kids[p]|
    requires IsLeaf(t, x) && Open(t, started, t.kids[p][i], x) && IsLeaf(t, y) && Open(t, started, t.kids[p][j], y)
    ensures Before(Order(t, started, q), x, y)
    decreases Rank(t, q)
  {
    if p == q {
      var rest := OrderSplits(t, started, q, j, |t.kids[q]|);
      PartOnce(t, started, q, j, y);
      OrderOfOnce(t, started, q, j, x);
      BeforeIn(OrderOf(t, started, q, j), Part(t, started, q, j), rest, x, y);
    } else {
      var k := OpenVia(t, started, q, p);
      assert QueueOk(t, q) && MemberOk(t, k);
      OpenUnder(t, started, k, p);
      if k !in t.kids { LeafAlone(t, k); }
      EarlierFirst(t, started, k, p, i, j, x, y);
      var m :| 0 <= m < |t.kids[q]| && t.kids[q][m] == k;
      var rest := OrderSplits(t, started, q, m, |t.kids[q]|);
      BeforeWithin(OrderOf(t, started, q, m), Order(t, started, k), rest, x, y);
    }
  }

  // ---- in the order added

  /** The queues below `high` are the same in both trees. */
  ghost predicate SameBelow(t: Tree, u: Tree, high: nat) {
    && u.rank == t.rank && u.height == t.height
    && forall k :: Rank(t, k) < high ==> (k in t.kids <==> k in u.kids) && (k in t.kids ==> u.kids[k] == t.kids[k])
  }

  lemma {:induction false} OrderOfBelow(t: Tree, u: Tree, started: set<Node>, high: nat, q: Node, i: nat)
    requires WellFormed(t) && WellFormed(u) && SameBelow(t, u, high) && q in t.kids && Rank(t, q) < high && i <= |t.kids[q]|
    ensures OrderOf(u, started, q, i) == OrderOf(t, started, q, i)
    decreases Rank(t, q), i
  {
    if i > 0 {
      var k := t.kids[q][i - 1];
      assert QueueOk(t, q) && k in t.kids[q];
      assert MemberOk(t, k);
      OrderOfBelow(t, u, started, high, q, i - 1);
      if k in t.kids { OrderOfBelow(t, u, started, high, k, |t.kids[k]|); }
    }
  }

  lemma {:induction false} OrderOfAdded(t: Tree, u: Tree, started: set<Node>, q: Node, i: nat)
    requires WellFormed(t) && WellFormed(u) && q in t.kids && q in u.kids && SameBelow(t, u, Rank(t, q))
    requires t.kids[q] <= u.kids[q] && i <= |t.kids[q]|
    ensures OrderOf(u, started, q, i) == OrderOf(t, started, q, i)
    decreases i
  {
    if i > 0 {
      var k := t.kids[q][i - 1];
      assert QueueOk(t, q) && k in t.kids[q];
      assert MemberOk(t, k);
      OrderOfAdded(t, u, started, q, i - 1);
      if k in t.kids { OrderOfBelow(t, u, started, Rank(t, q), k, |t.kids[k]|); }
    }
  }

  /** An operation that is added to a queue is submitted behind all that were added before it. */
  lemma AddedLast(t: Tree, started: set<Node>, q: Node, n: Node)
    requires WellFormed(t) && q in t.kids && n !in t.parent && IsLeaf(t, n) && Rank(t, n) < Rank(t, q) <= t.height && q !in started
    ensures WellFormed(AddTo(t, q, n)) && Order(AddTo(t, q, n), started, q) == Order(t, started, q) + [n]
  {
    var u := AddTo(t, q, n);
    forall p | p in t.kids ensures QueueShape(t, p) && t.kids[p] != [] { assert QueueOk(t, p); }
    AddKeepsShape(t, q, n);
    OrderOfAdded(t, u, started, q, |t.kids[q]|);
    assert u.kids[q][|t.kids[q]|] == n;
  }

  /** Part way through starting `q`, with `now` started: what is below the next member is as it was. */
  lemma NextUntouched(t: Tree, was: set<Node>, now: set<Node>, q: Node, i: nat)
    requires WellFormed(t) && q in t.kids && i < |t.kids[q]|
    requires forall x :: x in t.kids ==> (x in now <==> x in was || x == q || OpenFirst(t, was, q, i, x))
    ensures t.kids[q][i] in t.kids ==> Order(t, was, t.kids[q][i]) == Order(t, now, t.kids[q][i])
    ensures forall x :: Open(t, was, t.kids[q][i], x) <==> Open(t, now, t.kids[q][i], x)
  {
    var k := t.kids[q][i];
    NotBelowMember(t, q, k);
    forall x | Under(t, k, x) && x in t.kids
      ensures x in now <==> x in was
    {
      OpenFirstNext(t, was, q, i + 1, x);
    }
    if k in t.kids { OrderSame(t, was, now, k); }
    forall x
      ensures Open(t, was, k, x) <==> Open(t, now, k, x)
    {
      if Open(t, was, k, x) { OpenSame(t, was, now, k, x); }
      if Open(t, now, k, x) { OpenSame(t, now, was, k, x); }
    }
  }

  // ---------------------------------------------------------------- the queues

  class Queues {
    var tree: Tree
    var qs: map<Node, Que>
    var status: map<Node, Status>
    var fired: seq<(Node, Status)>
    var started: set<Node>
    var submitted: seq<Node>

    ghost function View(): (s: State)
      reads this
    {
      State(qs, status, fired)
    }

    /** `internal_gop_opque_add`, before the queue has been started */
    method Add(q: Node, n: Node)
      requires Shape(tree) && q in tree.kids && n !in tree.parent && Rank(tree, n) < Rank(tree, q) <= tree.height
      requires View() == Init(tree) && q !in started
      modifies this`tree, this`qs
      ensures tree == AddTo(old(tree), q, n) && Shape(tree) && View() == Init(tree)
    {
      AddKeepsShape(tree, q, n);
      tree := tree.(kids := tree.kids[q := tree.kids[q] + [n]], parent := tree.parent[n := q]);
      qs := qs[q := qs[q].(nleft := qs[q].nleft + 1)];
      assert qs == Init(tree).qs;
    }

    /** `_opque_cb` */
    method OpqueCb(n: Node)
      requires WellFormed(tree) && Typed(tree, View()) && n in tree.parent && n in status
      modifies this`qs, this`status, this`fired
      ensures View() == Notify(tree, old(View()), n)
      decreases tree.height - Rank(tree, n), 0
    {
      assert MemberOk(tree, n);
      var q := tree.parent[n];
      var failed := n in tree.kids && qs[n].failed != [];
      var success := if failed then Failure else status[n];
      var d := qs[q];
      d := d.(finished := d.finished + [n]);
      if success == Failure { d := d.(failed := [n] + d.failed); }
      d := d.(nleft := d.nleft - 1);
      qs := qs[q := d];
      if d.nleft <= 0 {
        if d.failed == [] {
          CompleteQueue(q, Success);
        } else if d.retries == 0 {
          qs := qs[q := d.(nleft := 0, retries := 1)];
          CompleteQueue(q, Failure);
        }
      }
    }

    /** The queue's status is set and `callback_execute` runs its callbacks, that of the queue above
        among them. */
    method CompleteQueue(q: Node, st: Status)
      requires WellFormed(tree) && Typed(tree, View()) && q in tree.kids && Rank(tree, q) <= tree.height
      modifies this`qs, this`status, this`fired
      ensures View() == Fire(tree, old(View()), q, st)
      decreases tree.height - Rank(tree, q), 1
    {
      status := status[q := st];
      fired := fired + [(q, st)];
      if q in tree.parent { OpqueCb(q); }
    }

    /** `single_gop_mark_completed` */
    method MarkCompleted(n: Node, st: Status)
      requires Inv(tree, View()) && n in tree.parent && IsLeaf(tree, n) && n !in status
      modifies this`qs, this`status, this`fired
      ensures View() == Complete(tree, old(View()), n, st) && Inv(tree, View())
    {
      CompleteKeeps(tree, View(), n, st);
      status := status[n := st];
      OpqueCb(n);
    }

    /** `_opque_start_execution`: every operation below the queue is submitted once, in order, but for those
        in a queue that has been started before. */
    method StartExecution(q: Node)
      requires WellFormed(tree) && q in tree.kids
      modifies this`started, this`submitted
      ensures submitted == old(submitted) + Order(tree, old(started), q)
      ensures forall x :: x in tree.kids ==> (x in started <==> x in old(started) || Open(tree, old(started), q, x))
      decreases Rank(tree, q)
    {
      ghost var was := started;
      if q in started {
        forall x
          ensures !Open(tree, was, q, x)
        {
          if Open(tree, was, q, x) { OpenUnder(tree, was, q, x); }
        }
        return;
      }
      started := started + {q};
      var list := tree.kids[q];
      assert QueueOk(tree, q);
      for i := 0 to |list|
        invariant submitted == old(submitted) + OrderOf(tree, was, q, i)
        invariant forall x :: x in tree.kids ==> (x in started <==> x in was || x == q || OpenFirst(tree, was, q, i, x))
      {
        var n := list[i];
        assert n in tree.kids[q];
        assert MemberOk(tree, n);
        forall x
          ensures OpenFirst(tree, was, q, i + 1, x) <==> OpenFirst(tree, was, q, i, x) || Open(tree, was, n, x)
        {
          OpenFirstNext(tree, was, q, i + 1, x);
        }
        if n !in tree.kids {
          forall x | Open(tree, was, n, x)
            ensures x !in tree.kids
          {
            OpenUnder(tree, was, n, x);
            LeafAlone(tree, n);
          }
          submitted := submitted + [n];
        } else {
          NextUntouched(tree, was, started, q, i);
          StartExecution(n);
        }
      }
      forall x
        ensures Open(tree, was, q, x) <==> x == q || OpenFirst(tree, was, q, |list|, x)
      {
        OpenAll(tree, was, q, x);
      }
    }
  }
}
