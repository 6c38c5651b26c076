/** The invariant of the whole host portal: every counter it keeps is a sum over its connections, and
    every issued op is in exactly one place. */
module HostPortalInv {
  import opened HostPortal
  import opened HostPortalConn

  // ---------------------------------------------------------------- messages by connection

  predicate Concerns(m: Msg, k: nat) { !m.Gop? && m.c == k }

  /** The messages of connection `k` on the central queue, oldest first. */
  function Outbox(que: seq<Msg>, k: nat): (q: seq<Msg>) {
    if que == [] then []
    else (if Concerns(que[0], k) then [que[0]] else []) + Outbox(que[1..], k)
  }

  lemma {:induction false} OutboxSnoc(que: seq<Msg>, m: Msg, k: nat)
    ensures Outbox(que + [m], k) == if Concerns(m, k) then Outbox(que, k) + [m] else Outbox(que, k)
  {
    var all := que + [m];
    if que == [] {
      assert all == [m] && all[1..] == [];
      assert Outbox(all[1..], k) == [];
    } else {
      var first := if Concerns(que[0], k) then [que[0]] else [];
      assert all[0] == que[0] && all[1..] == que[1..] + [m];
      OutboxSnoc(que[1..], m, k);
      assert Outbox(all, k) == first + Outbox(que[1..] + [m], k);
      assert Outbox(que, k) == first + Outbox(que[1..], k);
      assert first + (Outbox(que[1..], k) + [m]) == first + Outbox(que[1..], k) + [m];
    }
  }

  // ---------------------------------------------------------------- sums over connections

  datatype Measure =
    | Live(wt: Weight) | WorkIn(h: nat) | TasksIn(h: nat) | LimboIn(h: nat) | ReqIn(h: nat)
    | OpenAll | ReqAll

  function Entry(c: Conn, q: seq<Msg>, m: Measure): (n: int) {
    match m
    case Live(wt) => Ledger(c, q, wt)
    case WorkIn(h) => if c.host == h then Ledger(c, q, Work) else 0
    case TasksIn(h) => if c.host == h then c.ntasks else 0
    case LimboIn(h) => if c.host == h && c.open && c.state == 0 then 1 else 0
    case ReqIn(h) => if c.open && c.req == Some(h) then 1 else 0
    case OpenAll => if c.open then 1 else 0
    case ReqAll => if c.open && c.req.Some? then 1 else 0
  }

  function Sum(conns: seq<Conn>, que: seq<Msg>, m: Measure, n: nat): (t: int)
    requires n <= |conns|
  {
    if n == 0 then 0
    else Sum(conns, que, m, n - 1) + Entry(conns[n - 1], Outbox(que, n - 1), m)
  }

  function Total(s: State, m: Measure): (t: int) { Sum(s.conns, s.que, m, |s.conns|) }

  /** Apart from connection `j` the two states agree on connections and their messages. */
  ghost predicate AgreeBut(s: State, t: State, j: nat) {
    && |s.conns| == |t.conns|
    && forall k {:trigger Outbox(t.que, k)} {:trigger t.conns[k]} :: 0 <= k < |s.conns| && k != j ==>
         t.conns[k] == s.conns[k] && Outbox(t.que, k) == Outbox(s.que, k)
  }

  lemma {:induction false} SumPoint(s: State, t: State, j: nat, m: Measure, n: nat)
    requires AgreeBut(s, t, j) && n <= |s.conns| && j < |s.conns|
    ensures Sum(t.conns, t.que, m, n) - Sum(s.conns, s.que, m, n) ==
            if j < n then Entry(t.conns[j], Outbox(t.que, j), m) - Entry(s.conns[j], Outbox(s.que, j), m) else 0
  {
    if n > 0 {
      SumPoint(s, t, j, m, n - 1);
      if n - 1 != j {
        assert Outbox(t.que, n - 1) == Outbox(s.que, n - 1);
      }
    }
  }

  lemma TotalPoint(s: State, t: State, j: nat, m: Measure)
    requires AgreeBut(s, t, j) && j < |s.conns|
    ensures Total(t, m) - Total(s, m) ==
            Entry(t.conns[j], Outbox(t.que, j), m) - Entry(s.conns[j], Outbox(s.que, j), m)
  {
    SumPoint(s, t, j, m, |s.conns|);
  }

  lemma {:induction false} SumSame(conns: seq<Conn>, que: seq<Msg>, conns': seq<Conn>, que': seq<Msg>, m: Measure, n: nat)
    requires n <= |conns| && n <= |conns'|
    requires forall k {:trigger conns'[k]} {:trigger Outbox(que', k)} :: 0 <= k < n ==>
               conns'[k] == conns[k] && Outbox(que', k) == Outbox(que, k)
    ensures Sum(conns', que', m, n) == Sum(conns, que, m, n)
  {
    if n > 0 {
      SumSame(conns, que, conns', que', m, n - 1);
      assert conns'[n - 1] == conns[n - 1];
    }
  }

  lemma {:induction false} SumOrder(conns: seq<Conn>, que: seq<Msg>, h: nat, n: nat)
    requires n <= |conns|
    ensures 0 <= Sum(conns, que, ReqAll, n) <= Sum(conns, que, OpenAll, n)
    ensures 0 <= Sum(conns, que, ReqIn(h), n)
  {
    if n > 0 { SumOrder(conns, que, h, n - 1); }
  }

  lemma {:induction false} OpenCountUpdate(conns: seq<Conn>, c: nat, hc: Conn, h: nat)
    requires c < |conns| && hc.host == conns[c].host
    ensures OpenCount(conns[c := hc], h) ==
            OpenCount(conns, h) + (if hc.host != h || hc.open == conns[c].open then 0 else if hc.open then 1 else -1)
  {
    var last := |conns| - 1;
    if c == last {
      assert conns[c := hc][..last] == conns[..last];
    } else {
      assert conns[c := hc][..last] == conns[..last][c := hc];
      OpenCountUpdate(conns[..last], c, hc, h);
    }
  }

  lemma OpenCountSnoc(conns: seq<Conn>, hc: Conn, h: nat)
    ensures OpenCount(conns + [hc], h) == OpenCount(conns, h) + (if hc.open && hc.host == h then 1 else 0)
  {
    assert (conns + [hc])[..|conns|] == conns;
  }

  /** Number of hosts, among the first `n`, that have a connection. */
  function Active(conns: seq<Conn>, n: nat): (k: nat) {
    if n == 0 then 0 else Active(conns, n - 1) + (if OpenCount(conns, n - 1) > 0 then 1 else 0)
  }

  lemma {:induction false} ActivePoint(a: seq<Conn>, b: seq<Conn>, x: nat, n: nat)
    requires forall h {:trigger OpenCount(b, h)} :: h != x ==> OpenCount(b, h) == OpenCount(a, h)
    ensures Active(b, n) == Active(a, n) +
            (if x < n then (if OpenCount(b, x) > 0 then 1 else 0) - (if OpenCount(a, x) > 0 then 1 else 0) else 0)
  {
    if n > 0 { ActivePoint(a, b, x, n - 1); }
  }

  // ---------------------------------------------------------------- ops outside connections

  function OpsTally(ops: seq<Op>, wt: Weight): (n: int) {
    if ops == [] then 0 else OpsTally(ops[..|ops| - 1], wt) + OpWeight(ops[|ops| - 1], wt)
  }

  lemma {:induction false} OpsPush(op: Op, ops: seq<Op>, wt: Weight)
    ensures OpsTally([op] + ops, wt) == OpWeight(op, wt) + OpsTally(ops, wt)
  {
    var all := [op] + ops;
    if ops == [] {
      assert all == [op] && all[..0] == [];
    } else {
      assert all[..|all| - 1] == [op] + ops[..|ops| - 1];
      OpsPush(op, ops[..|ops| - 1], wt);
    }
  }

  function PendTally(hosts: seq<Host>, wt: Weight, n: nat): (t: int)
    requires n <= |hosts|
  {
    if n == 0 then 0 else PendTally(hosts, wt, n - 1) + OpsTally(hosts[n - 1].pending, wt)
  }

  lemma {:induction false} PendPoint(a: seq<Host>, b: seq<Host>, wt: Weight, j: nat, n: nat)
    requires |a| == |b| && n <= |a| && j < |a|
    requires forall k {:trigger b[k]} :: 0 <= k < |a| && k != j ==> b[k].pending == a[k].pending
    ensures PendTally(b, wt, n) - PendTally(a, wt, n) ==
            if j < n then OpsTally(b[j].pending, wt) - OpsTally(a[j].pending, wt) else 0
  {
    if n > 0 {
      PendPoint(a, b, wt, j, n - 1);
      if n - 1 != j { assert b[n - 1].pending == a[n - 1].pending; }
    }
  }

  function GopTally(que: seq<Msg>, wt: Weight): (n: int) {
    if que == [] then 0 else (if que[0].Gop? then OpWeight(que[0].op, wt) else 0) + GopTally(que[1..], wt)
  }

  lemma {:induction false} GopSnoc(que: seq<Msg>, m: Msg, wt: Weight)
    ensures GopTally(que + [m], wt) == GopTally(que, wt) + (if m.Gop? then OpWeight(m.op, wt) else 0)
  {
    if que != [] {
      assert (que + [m])[1..] == que[1..] + [m];
      GopSnoc(que[1..], m, wt);
    }
  }

  /** Occurrences of op `x` in all places an op can be. */
  function Places(s: State, x: nat): (n: int) {
    GopTally(s.que, Id(x)) + PendTally(s.hosts, Id(x), |s.hosts|) + Total(s, Live(Id(x))) + IdTally(s.completed, Id(x))
  }

  // ---------------------------------------------------------------- the invariant

  ghost predicate QueOk(que: seq<Msg>, nconns: nat, nh: nat) {
    forall i :: 0 <= i < |que| ==> if que[i].Gop? then que[i].op.host < nh else que[i].c < nconns
  }

  ghost predicate PendOk(hosts: seq<Host>) {
    forall h, i :: 0 <= h < |hosts| && 0 <= i < |hosts[h].pending| ==> hosts[h].pending[i].host < |hosts|
  }

  ghost predicate ConnAt(s: State, k: nat)
    requires k < |s.conns|
  {
    ConnInv(s.conns[k], Outbox(s.que, k), k, |s.hosts|)
  }

  ghost predicate ConnsOk(s: State) {
    forall k {:trigger ConnAt(s, k)} :: 0 <= k < |s.conns| ==> ConnAt(s, k)
  }

  /** Each counter of a host is a sum over its connections or its pending ops. */
  ghost predicate HostOk(s: State, h: nat)
    requires h < |s.hosts|
  {
    var hp := s.hosts[h];
    && hp.workPending == OpsTally(hp.pending, Work)
    && hp.executing == Total(s, WorkIn(h))
    && hp.submitted - hp.processed == Total(s, TasksIn(h))
    && hp.limbo == Total(s, LimboIn(h))
    && hp.pendingConn == Total(s, ReqIn(h))
  }

  ghost predicate HostsOk(s: State) {
    forall h {:trigger HostOk(s, h)} :: 0 <= h < |s.hosts| ==> HostOk(s, h)
  }

  ghost predicate TotalsOk(s: State) {
    && s.running == Total(s, OpenAll)
    && s.pendingTotal == Total(s, ReqAll)
    && s.hpRunning == Active(s.conns, |s.hosts|)
  }

  ghost predicate PlacesOk(s: State) {
    forall x: nat {:trigger Places(s, x)} ::
      Places(s, x) == IdTally(s.issued, Id(x)) == if x in s.issued then 1 else 0
  }

  ghost predicate Inv(s: State) {
    && QueOk(s.que, |s.conns|, |s.hosts|) && PendOk(s.hosts)
    && ConnsOk(s) && HostsOk(s) && TotalsOk(s) && PlacesOk(s)
  }

  // ---------------------------------------------------------------- steps that keep every sum

  lemma HeadMsgOk(s: State)
    requires Inv(s) && s.que != []
    ensures MsgOk(s, s.que[0])
  {
    var m := s.que[0];
    if !m.Gop? {
      var q := Outbox(s.que, m.c);
      assert q[0] == m;
      assert ConnAt(s, m.c);
    }
  }

  lemma PopAgree(s: State)
    requires s.que != [] && QueOk(s.que, |s.conns|, |s.hosts|)
    ensures QueOk(s.que[1..], |s.conns|, |s.hosts|)
    ensures forall k {:trigger Outbox(s.que[1..], k)} :: !Concerns(s.que[0], k) ==> Outbox(s.que[1..], k) == Outbox(s.que, k)
    ensures forall k :: Concerns(s.que[0], k) ==>
              Outbox(s.que, k) != [] && Outbox(s.que, k)[0] == s.que[0] && Outbox(s.que[1..], k) == Outbox(s.que, k)[1..]
  {
  }

  // ---- a connection thread acts

  lemma ThreadAgree(s: State, k: nat, e: Event)
    requires k < |s.conns| && CanDo(s.conns[k], e)
    ensures var f := Do(s.conns[k], k, e);
            var t := s.(conns := s.conns[k := f.conn], que := s.que + f.out, completed := s.completed + f.done);
            && AgreeBut(s, t, k) && Outbox(t.que, k) == Outbox(s.que, k) + f.out
            && forall wt :: GopTally(t.que, wt) == GopTally(s.que, wt)
  {
    var f := Do(s.conns[k], k, e);
    if f.out == [] {
      assert s.que + f.out == s.que;
    } else {
      assert s.que + f.out == s.que + [f.out[0]];
      forall j: nat ensures Outbox(s.que + f.out, j) == if j == k then Outbox(s.que, j) + f.out else Outbox(s.que, j) {
        OutboxSnoc(s.que, f.out[0], j);
      }
      forall wt ensures GopTally(s.que + f.out, wt) == GopTally(s.que, wt) {
        GopSnoc(s.que, f.out[0], wt);
      }
    }
  }

  lemma ThreadTotals(s: State, t: State, k: nat, e: Event, m: Measure)
    requires k < |s.conns| && CanDo(s.conns[k], e)
    requires var f := Do(s.conns[k], k, e);
             t == s.(conns := s.conns[k := f.conn], que := s.que + f.out, completed := s.completed + f.done)
    ensures Total(t, m) + (if m.Live? then IdTally(Do(s.conns[k], k, e).done, m.wt) else 0) == Total(s, m)
  {
    ThreadAgree(s, k, e);
    TotalPoint(s, t, k, m);
    ThreadEntry(s.conns[k], Outbox(s.que, k), k, e, m);
  }

  /** A thread step changes a connection's entry in no sum, but for completed ops. */
  lemma ThreadEntry(c: Conn, q: seq<Msg>, k: nat, e: Event, m: Measure)
    requires CanDo(c, e)
    ensures var f := Do(c, k, e);
            Entry(f.conn, q + f.out, m) + (if m.Live? then IdTally(f.done, m.wt) else 0) == Entry(c, q, m)
  {
    if m.Live? { LedgerKept(c, q, k, e, m.wt); }
    if m.WorkIn? {
      LedgerKept(c, q, k, e, Work);
      CountOfDone(Do(c, k, e).done);
    }
  }

  lemma ConnsFrom(s: State, t: State, j: nat)
    requires ConnsOk(s) && AgreeBut(s, t, j) && j < |s.conns| && |t.hosts| == |s.hosts|
    requires ConnInv(t.conns[j], Outbox(t.que, j), j, |t.hosts|)
    ensures ConnsOk(t)
  {
    forall k | 0 <= k < |t.conns| ensures ConnAt(t, k) {
      if k != j { assert t.conns[k] == s.conns[k] && ConnAt(s, k); }
    }
  }

  lemma HostsFromSame(s: State, t: State)
    requires HostsOk(s) && t.hosts == s.hosts
    requires forall m: Measure {:trigger Total(t, m)} :: !m.Live? ==> Total(t, m) == Total(s, m)
    ensures HostsOk(t)
  {
    forall h | 0 <= h < |t.hosts| ensures HostOk(t, h) { assert HostOk(s, h); }
  }

  lemma ActiveSame(s: State, t: State, j: nat)
    requires j < |s.conns| == |t.conns| && |t.hosts| == |s.hosts| && t.conns == s.conns[j := t.conns[j]]
    requires t.conns[j].host == s.conns[j].host && t.conns[j].open == s.conns[j].open
    ensures forall h: nat {:trigger OpenCount(t.conns, h)} :: OpenCount(t.conns, h) == OpenCount(s.conns, h)
    ensures Active(t.conns, |t.hosts|) == Active(s.conns, |s.hosts|)
  {
    forall h: nat ensures OpenCount(t.conns, h) == OpenCount(s.conns, h) { OpenCountUpdate(s.conns, j, t.conns[j], h); }
    ActivePoint(s.conns, t.conns, 0, |s.hosts|);
  }

  lemma ThreadConns(s: State, t: State, k: nat, e: Event)
    requires ConnsOk(s) && k < |s.conns| && s.conns[k].open && CanDo(s.conns[k], e)
    requires var f := Do(s.conns[k], k, e);
             t == s.(conns := s.conns[k := f.conn], que := s.que + f.out, completed := s.completed + f.done)
    ensures ConnsOk(t)
  {
    ThreadAgree(s, k, e);
    assert ConnAt(s, k);
    ThreadKeepsConn(s.conns[k], Outbox(s.que, k), k, |s.hosts|, e);
    ConnsFrom(s, t, k);
  }

  lemma ThreadPlaces(s: State, t: State, k: nat, e: Event)
    requires PlacesOk(s) && k < |s.conns| && CanDo(s.conns[k], e)
    requires var f := Do(s.conns[k], k, e);
             t == s.(conns := s.conns[k := f.conn], que := s.que + f.out, completed := s.completed + f.done)
    ensures PlacesOk(t)
  {
    ThreadAgree(s, k, e);
    forall x: nat ensures Places(t, x) == IdTally(t.issued, Id(x)) == if x in t.issued then 1 else 0 {
      ThreadTotals(s, t, k, e, Live(Id(x)));
      IdConcat(s.completed, Do(s.conns[k], k, e).done, Id(x));
      assert GopTally(t.que, Id(x)) == GopTally(s.que, Id(x));
      assert Places(t, x) == Places(s, x);
    }
  }

  lemma ThreadSums(s: State, t: State, k: nat, e: Event)
    requires HostsOk(s) && TotalsOk(s) && k < |s.conns| && CanDo(s.conns[k], e)
    requires var f := Do(s.conns[k], k, e);
             t == s.(conns := s.conns[k := f.conn], que := s.que + f.out, completed := s.completed + f.done)
    ensures HostsOk(t) && TotalsOk(t)
  {
    forall m: Measure ensures !m.Live? ==> Total(t, m) == Total(s, m) { ThreadTotals(s, t, k, e, m); }
    HostsFromSame(s, t);
    ActiveSame(s, t, k);
  }

  lemma ThreadQue(s: State, k: nat, e: Event)
    requires QueOk(s.que, |s.conns|, |s.hosts|) && k < |s.conns| && CanDo(s.conns[k], e)
    ensures QueOk(s.que + Do(s.conns[k], k, e).out, |s.conns|, |s.hosts|)
  {
  }

  lemma ThreadKeeps(s: State, t: State, k: nat, e: Event)
    requires Inv(s) && k < |s.conns| && s.conns[k].open && CanDo(s.conns[k], e)
    requires var f := Do(s.conns[k], k, e);
             t == s.(conns := s.conns[k := f.conn], que := s.que + f.out, completed := s.completed + f.done)
    ensures Inv(t)
  {
    ThreadQue(s, k, e);
    ThreadConns(s, t, k, e);
    ThreadPlaces(s, t, k, e);
    ThreadSums(s, t, k, e);
  }
}
