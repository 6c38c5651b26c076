/** How the host portal's central thread chooses connections, and what a whole pass over a host's pending
    ops does: `hp_submit_tasks` with `hconn_least_busy`, and `find_conn_to_close`. */
module HostPortalPass {
  import opened HostPortal

  // ---------------------------------------------------------------- choosing connections

  predicate Usable(c: Conn, h: nat) { IsReady(c) && c.host == h }

  /** The result of `hconn_least_busy`: the first least loaded ready connection of host `h` whose
      load is at most `maxWork`. */
  ghost predicate IsLeastBusy(conns: seq<Conn>, h: nat, maxWork: nat, best: Option<nat>) {
    match best
    case None => forall c :: 0 <= c < |conns| && Usable(conns[c], h) ==> conns[c].workload > maxWork
    case Some(b) =>
      && b < |conns| && Usable(conns[b], h) && conns[b].workload <= maxWork
      && (forall c :: 0 <= c < |conns| && Usable(conns[c], h) ==> conns[b].workload <= conns[c].workload)
      && (forall c :: 0 <= c < b && Usable(conns[c], h) ==> conns[b].workload < conns[c].workload)
  }

  /** `hconn_least_busy`, which walks the list from its oldest connection. */
  method LeastBusy(conns: seq<Conn>, h: nat, maxWork: nat) returns (best: Option<nat>)
    ensures IsLeastBusy(conns, h, maxWork, best)
  {
    var bestLoad := maxWork + 1;
    best := None;
    for c := 0 to |conns|
      invariant best.None? ==> bestLoad == maxWork + 1
      invariant best.Some? ==> best.value < c && Usable(conns[best.value], h) && conns[best.value].workload == bestLoad <= maxWork
      invariant forall k :: 0 <= k < c && Usable(conns[k], h) ==> bestLoad <= conns[k].workload
      invariant best.Some? ==> forall k :: 0 <= k < best.value && Usable(conns[k], h) ==> bestLoad < conns[k].workload
    {
      if Usable(conns[c], h) && conns[c].workload < bestLoad {
        bestLoad := conns[c].workload;
        best := Some(c);
      }
    }
  }

  /** The same as a function, over the first `n` connections */
  function LeastUpTo(conns: seq<Conn>, h: nat, maxWork: nat, n: nat): (best: Option<nat>)
    requires n <= |conns|
    ensures best.Some? ==> best.value < n
    ensures IsLeastBusy(conns[..n], h, maxWork, best)
  {
    if n == 0 then None
    else
      var best := LeastUpTo(conns, h, maxWork, n - 1);
      assert forall k :: 0 <= k < n - 1 ==> conns[..n][k] == conns[..n - 1][k];
      if Usable(conns[n - 1], h) && conns[n - 1].workload < (if best.Some? then conns[best.value].workload else maxWork + 1)
      then Some(n - 1) else best
  }

  function Least(conns: seq<Conn>, h: nat, maxWork: nat): (best: Option<nat>)
    ensures IsLeastBusy(conns, h, maxWork, best)
  {
    assert conns[..|conns|] == conns;
    LeastUpTo(conns, h, maxWork, |conns|)
  }

  // ---------------------------------------------------------------- one pass, turn by turn

  /** The loop of `hp_submit_tasks` with a connection selected, or over */
  datatype Loop = Going(s: State, c: nat) | Over(s: State)

  ghost predicate LoopOk(l: Loop, h: nat) {
    h < |l.s.hosts| && (l.Going? ==> l.c < |l.s.conns|)
  }

  /** The part before the loop: without a usable connection a try may be used up. */
  function Begin(lim: Limits, s: State, h: nat): (l: Loop)
    requires h < |s.hosts|
    ensures LoopOk(l, h)
  {
    if s.hosts[h].pending == [] then Over(s)
    else
      var best := Least(s.conns, h, lim.maxWork);
      if best.Some? then Going(s, best.value)
      else if s.hosts[h].stable == 0 then Over(UseUpTry(s, h))
      else Over(s)
  }

  /** One turn: an op goes to the selected connection, or another one is selected, or the loop ends. */
  function Turn(lim: Limits, l: Loop, h: nat): (r: Loop)
    requires LoopOk(l, h)
    ensures LoopOk(r, h)
  {
    if l.Over? || l.s.hosts[h].pending == [] then Over(l.s)
    else if l.s.conns[l.c].workload < lim.maxWork then Going(Dispatch(l.s, h, l.c), l.c)
    else
      var best := Least(l.s.conns, h, lim.maxWork);
      if best.Some? then
        if l.s.conns[best.value].workload > lim.maxWork then Over(l.s) else Going(l.s, best.value)
      else if l.s.hosts[h].stable == 0 && OpenCount(l.s.conns, h) == 0 then Over(UseUpTry(l.s, h))
      else Over(l.s)
  }

  function Turns(lim: Limits, l: Loop, h: nat, n: nat): (r: Loop)
    requires LoopOk(l, h)
    ensures LoopOk(r, h)
    decreases n
  {
    if n == 0 then l else Turns(lim, Turn(lim, l, h), h, n - 1)
  }

  ghost predicate Ends(lim: Limits, s: State, h: nat)
    requires h < |s.hosts|
  {
    exists n :: Turns(lim, Begin(lim, s, h), h, n).Over?
  }

  // ---------------------------------------------------------------- one pass, as a whole

  /** Ops go to connection `c` until it carries the maximum or nothing is pending. */
  function FillConn(lim: Limits, s: State, h: nat, c: nat): (r: State)
    requires h < |s.hosts| && c < |s.conns|
    ensures |r.hosts| == |s.hosts| && |r.conns| == |s.conns| && |r.hosts[h].pending| <= |s.hosts[h].pending|
    ensures r.hosts[h].pending == [] || r.conns[c].workload >= lim.maxWork
    ensures s.hosts[h].pending != [] && s.conns[c].workload < lim.maxWork ==> |r.hosts[h].pending| < |s.hosts[h].pending|
    decreases |s.hosts[h].pending|
  {
    if s.hosts[h].pending == [] || s.conns[c].workload >= lim.maxWork then s
    else FillConn(lim, Dispatch(s, h, c), h, c)
  }

  /** The least loaded connection is filled, then the least loaded one of those left below the maximum,
      and so on. */
  function Place(lim: Limits, s: State, h: nat): (r: State)
    requires h < |s.hosts|
    ensures |r.hosts| == |s.hosts|
    decreases |s.hosts[h].pending|
  {
    if s.hosts[h].pending == [] then s
    else
      var best := Least(s.conns, h, lim.maxWork);
      if best.None? || s.conns[best.value].workload >= lim.maxWork then s
      else Place(lim, FillConn(lim, s, h, best.value), h)
  }

  /** Ops are left when every usable connection is filled, and one of these carries exactly the maximum. */
  ghost predicate Overhangs(lim: Limits, s: State, h: nat)
    requires h < |s.hosts|
  {
    var t := Place(lim, s, h);
    && t.hosts[h].pending != []
    && (forall c :: 0 <= c < |t.conns| && Usable(t.conns[c], h) ==> t.conns[c].workload >= lim.maxWork)
    && (exists c :: 0 <= c < |t.conns| && Usable(t.conns[c], h) && t.conns[c].workload == lim.maxWork)
  }

  // ---------------------------------------------------------------- the two agree

  lemma {:induction false} TurnsMore(lim: Limits, l: Loop, h: nat, m: nat, n: nat)
    requires LoopOk(l, h)
    ensures Turns(lim, l, h, m + n) == Turns(lim, Turns(lim, l, h, m), h, n)
    decreases m
  {
    if m > 0 {
      var r := Turn(lim, l, h);
      TurnsMore(lim, r, h, m - 1, n);
      assert Turns(lim, l, h, m + n) == Turns(lim, r, h, (m - 1) + n);
    }
  }

  lemma {:induction false} OverStays(lim: Limits, l: Loop, h: nat, n: nat)
    requires LoopOk(l, h) && l.Over?
    ensures Turns(lim, l, h, n) == l
    decreases n
  {
    if n > 0 { OverStays(lim, l, h, n - 1); }
  }

  lemma {:induction false} Standstill(lim: Limits, l: Loop, h: nat, n: nat)
    requires LoopOk(l, h) && Turn(lim, l, h) == l
    ensures Turns(lim, l, h, n) == l
    decreases n
  {
    if n > 0 { Standstill(lim, l, h, n - 1); }
  }

  lemma {:induction false} FillTurns(lim: Limits, s: State, h: nat, c: nat) returns (n: nat)
    requires h < |s.hosts| && c < |s.conns|
    ensures Turns(lim, Going(s, c), h, n) == Going(FillConn(lim, s, h, c), c)
    decreases |s.hosts[h].pending|
  {
    if s.hosts[h].pending == [] || s.conns[c].workload >= lim.maxWork {
      n := 0;
    } else {
      n := FillTurns(lim, Dispatch(s, h, c), h, c);
      n := n + 1;
    }
  }

  /** Dispatching keeps a usable connection usable, and so the host has one. */
  lemma {:induction false} FillKeepsUsable(lim: Limits, s: State, h: nat, c: nat)
    requires h < |s.hosts| && c < |s.conns| && Usable(s.conns[c], h)
    ensures Usable(FillConn(lim, s, h, c).conns[c], h)
    decreases |s.hosts[h].pending|
  {
    if s.hosts[h].pending != [] && s.conns[c].workload < lim.maxWork { FillKeepsUsable(lim, Dispatch(s, h, c), h, c); }
  }

  lemma {:induction false} OpenCountPositive(conns: seq<Conn>, h: nat, c: nat)
    requires c < |conns| && conns[c].open && conns[c].host == h
    ensures OpenCount(conns, h) > 0
  {
    if c < |conns| - 1 { OpenCountPositive(conns[..|conns| - 1], h, c); }
  }

  /** From a usable selected connection, filled or with nothing pending, to the whole pass placed */
  lemma {:induction false} PlaceTurns(lim: Limits, s: State, h: nat, c: nat) returns (n: nat, c': nat)
    requires h < |s.hosts| && c < |s.conns| && Usable(s.conns[c], h)
    requires s.hosts[h].pending == [] || s.conns[c].workload >= lim.maxWork
    ensures c' < |Place(lim, s, h).conns| && Usable(Place(lim, s, h).conns[c'], h)
    ensures Turns(lim, Going(s, c), h, n) == Going(Place(lim, s, h), c')
    ensures Place(lim, s, h).hosts[h].pending == [] || Place(lim, s, h).conns[c'].workload >= lim.maxWork
    decreases |s.hosts[h].pending|
  {
    n, c' := 0, c;
    if s.hosts[h].pending != [] {
      var best := Least(s.conns, h, lim.maxWork);
      if best.Some? && s.conns[best.value].workload < lim.maxWork {
        var b := best.value;
        var t := FillConn(lim, s, h, b);
        assert Turn(lim, Going(s, c), h) == Going(s, b);
        var f := FillTurns(lim, s, h, b);
        FillKeepsUsable(lim, s, h, b);
        var m;
        m, c' := PlaceTurns(lim, t, h, b);
        TurnsMore(lim, Going(s, b), h, f, m);
        n := 1 + (f + m);
      }
    }
  }

  /** What happens once everything is placed */
  lemma PlacedEnds(lim: Limits, s: State, h: nat, c: nat)
    requires h < |s.hosts| && c < |s.conns| && Usable(s.conns[c], h) && Place(lim, s, h) == s
    requires s.hosts[h].pending == [] || s.conns[c].workload >= lim.maxWork
    ensures Overhangs(lim, s, h) ==> exists b: nat :: b < |s.conns| && Turn(lim, Going(s, c), h) == Going(s, b) &&
                                                 Turn(lim, Going(s, b), h) == Going(s, b)
    ensures !Overhangs(lim, s, h) ==> Turn(lim, Going(s, c), h) == Over(s)
  {
    var best := Least(s.conns, h, lim.maxWork);
    OpenCountPositive(s.conns, h, c);
    if s.hosts[h].pending != [] && best.Some? {
      var b := best.value;
      PlaceIdle(lim, s, h);
      assert s.conns[b].workload == lim.maxWork;
      assert Turn(lim, Going(s, c), h) == Going(s, b) && Turn(lim, Going(s, b), h) == Going(s, b);
    }
  }

  /** Placing is over when no usable connection is below the maximum. */
  lemma PlaceIdle(lim: Limits, s: State, h: nat)
    requires h < |s.hosts| && Place(lim, s, h) == s && s.hosts[h].pending != []
    ensures var best := Least(s.conns, h, lim.maxWork); best.Some? ==> s.conns[best.value].workload >= lim.maxWork
  {
    var best := Least(s.conns, h, lim.maxWork);
    if best.Some? && s.conns[best.value].workload < lim.maxWork {
      PlaceShrinks(lim, FillConn(lim, s, h, best.value), h);
    }
  }

  lemma {:induction false} PlaceShrinks(lim: Limits, s: State, h: nat)
    requires h < |s.hosts|
    ensures |Place(lim, s, h).hosts[h].pending| <= |s.hosts[h].pending|
    decreases |s.hosts[h].pending|
  {
    if s.hosts[h].pending != [] {
      var best := Least(s.conns, h, lim.maxWork);
      if best.Some? && s.conns[best.value].workload < lim.maxWork {
        PlaceShrinks(lim, FillConn(lim, s, h, best.value), h);
      }
    }
  }

  lemma {:induction false} PlaceTwice(lim: Limits, s: State, h: nat)
    requires h < |s.hosts|
    ensures Place(lim, Place(lim, s, h), h) == Place(lim, s, h)
    decreases |s.hosts[h].pending|
  {
    if s.hosts[h].pending != [] {
      var best := Least(s.conns, h, lim.maxWork);
      if best.Some? && s.conns[best.value].workload < lim.maxWork {
        PlaceTwice(lim, FillConn(lim, s, h, best.value), h);
      }
    }
  }

  /** A pass that starts with a usable connection: where it gets to, and whether it ends there. */
  lemma PassWithConn(lim: Limits, s: State, h: nat) returns (n: nat)
    requires h < |s.hosts| && s.hosts[h].pending != [] && Least(s.conns, h, lim.maxWork).Some?
    ensures !Overhangs(lim, s, h) ==> Turns(lim, Begin(lim, s, h), h, n) == Over(Place(lim, s, h))
    ensures Overhangs(lim, s, h) ==> var l := Turns(lim, Begin(lim, s, h), h, n); l.Going? && Turn(lim, l, h) == l
  {
    var b := Least(s.conns, h, lim.maxWork).value;
    var f := FillTurns(lim, s, h, b);
    FillKeepsUsable(lim, s, h, b);
    var t := FillConn(lim, s, h, b);
    var m, c := PlaceTurns(lim, t, h, b);
    TurnsMore(lim, Going(s, b), h, f, m);
    var p := Place(lim, t, h);
    assert p == Place(lim, s, h) by { FilledSame(lim, s, h, b); }
    PlaceTwice(lim, s, h);
    PlacedEnds(lim, p, h, c);
    TurnsMore(lim, Going(s, b), h, f + m, 1);
    n := f + m + 1;
    assert Turns(lim, Going(p, c), h, 1) == Turn(lim, Going(p, c), h);
  }

  /** Filling the least loaded connection first is how placing starts. */
  lemma FilledSame(lim: Limits, s: State, h: nat, b: nat)
    requires h < |s.hosts| && Least(s.conns, h, lim.maxWork) == Some(b)
    ensures Place(lim, FillConn(lim, s, h, b), h) == Place(lim, s, h)
  {
  }

  /** A whole pass over the pending ops ends exactly when placing them leaves none over, or leaves every
      usable connection above the maximum. */
  lemma PassEndsIff(lim: Limits, s: State, h: nat)
    requires h < |s.hosts|
    ensures Ends(lim, s, h) <==> !Overhangs(lim, s, h)
  {
    var l := Begin(lim, s, h);
    if s.hosts[h].pending != [] && Least(s.conns, h, lim.maxWork).Some? {
      var n := PassWithConn(lim, s, h);
      if Overhangs(lim, s, h) {
        forall k | Turns(lim, l, h, k).Over?
          ensures false
        {
          NeverOver(lim, l, h, n, k);
        }
      }
    } else {
      assert Turns(lim, l, h, 0).Over?;
      assert Place(lim, s, h) == s;
    }
  }

  lemma NeverOver(lim: Limits, l: Loop, h: nat, n: nat, k: nat)
    requires LoopOk(l, h) && Turns(lim, l, h, n).Going? && Turn(lim, Turns(lim, l, h, n), h) == Turns(lim, l, h, n)
    ensures Turns(lim, l, h, k).Going?
  {
    if k <= n {
      TurnsMore(lim, l, h, k, n - k);
      if Turns(lim, l, h, k).Over? { OverStays(lim, Turns(lim, l, h, k), h, n - k); }
    } else {
      TurnsMore(lim, l, h, n, k - n);
      Standstill(lim, Turns(lim, l, h, n), h, k - n);
    }
  }

  /** A pass that ends has placed the ops as said. */
  lemma PassPlaces(lim: Limits, s: State, h: nat, n: nat)
    requires h < |s.hosts| && s.hosts[h].pending != [] && Least(s.conns, h, lim.maxWork).Some?
    requires Turns(lim, Begin(lim, s, h), h, n).Over?
    ensures Turns(lim, Begin(lim, s, h), h, n) == Over(Place(lim, s, h))
  {
    var l := Begin(lim, s, h);
    var m := PassWithConn(lim, s, h);
    if Overhangs(lim, s, h) { NeverOver(lim, l, h, m, n); }
    if n <= m {
      TurnsMore(lim, l, h, n, m - n);
      OverStays(lim, Turns(lim, l, h, n), h, m - n);
    } else {
      TurnsMore(lim, l, h, m, n - m);
      OverStays(lim, Turns(lim, l, h, m), h, n - m);
    }
  }

  // ---------------------------------------------------------------- a host with one usable connection

  /** The work of the `k` oldest pending ops */
  function OldWork(pending: seq<Op>, k: nat): (n: nat)
    requires k <= |pending|
  {
    if k == 0 then 0 else OldWork(pending, k - 1) + pending[|pending| - k].work
  }

  lemma {:induction false} OldWorkFirst(pending: seq<Op>, k: nat)
    requires k < |pending|
    ensures OldWork(pending, k + 1) == pending[|pending| - 1].work + OldWork(pending[..|pending| - 1], k)
  {
    if k > 0 { OldWorkFirst(pending, k - 1); }
  }

  lemma {:induction false} OldWorkGrows(pending: seq<Op>, j: nat, k: nat)
    requires j <= k <= |pending|
    ensures OldWork(pending, j) <= OldWork(pending, k)
  {
    if j < k { OldWorkGrows(pending, j, k - 1); }
  }

  /** Filling takes the oldest ops, up to the one with which the maximum is reached. */
  lemma {:induction false} FillTakes(lim: Limits, s: State, h: nat, c: nat) returns (k: nat)
    requires h < |s.hosts| && c < |s.conns|
    ensures k <= |s.hosts[h].pending|
    ensures var r, p := FillConn(lim, s, h, c), s.hosts[h].pending;
            && |r.hosts[h].pending| == |p| - k
            && r.conns[c].workload == s.conns[c].workload + OldWork(p, k)
            && (forall j :: 0 <= j < k ==> s.conns[c].workload + OldWork(p, j) < lim.maxWork)
            && (forall d :: 0 <= d < |s.conns| ==> r.conns[d].host == s.conns[d].host && IsReady(r.conns[d]) == IsReady(s.conns[d]))
    decreases |s.hosts[h].pending|
  {
    var p := s.hosts[h].pending;
    k := 0;
    if p != [] && s.conns[c].workload < lim.maxWork {
      k := FillTakes(lim, Dispatch(s, h, c), h, c);
      OldWorkFirst(p, k);
      forall j | 0 < j < k + 1
        ensures s.conns[c].workload + OldWork(p, j) < lim.maxWork
      {
        OldWorkFirst(p, j - 1);
      }
      k := k + 1;
    }
  }

  lemma OneConnPlace(lim: Limits, s: State, h: nat, c: nat)
    requires h < |s.hosts| && c < |s.conns| && Usable(s.conns[c], h) && s.conns[c].workload <= lim.maxWork
    requires forall d :: 0 <= d < |s.conns| && d != c ==> !Usable(s.conns[d], h)
    requires s.hosts[h].pending != []
    ensures var t := FillConn(lim, s, h, c);
            && Place(lim, s, h) == t && Usable(t.conns[c], h)
            && forall d :: 0 <= d < |t.conns| && d != c ==> !Usable(t.conns[d], h)
  {
    assert Least(s.conns, h, lim.maxWork) == Some(c);
    FilledSame(lim, s, h, c);
    var t := FillConn(lim, s, h, c);
    var k := FillTakes(lim, s, h, c);
    FillKeepsUsable(lim, s, h, c);
    if t.hosts[h].pending != [] { assert Least(t.conns, h, lim.maxWork) in {None, Some(c)}; }
  }

  /** Where only one connection is usable, the pass goes on for ever exactly when some of the oldest ops,
      but not all, bring that connection to the maximum and no further. */
  lemma OneConnEndsIff(lim: Limits, s: State, h: nat, c: nat)
    requires h < |s.hosts| && c < |s.conns| && Usable(s.conns[c], h) && s.conns[c].workload <= lim.maxWork
    requires forall d :: 0 <= d < |s.conns| && d != c ==> !Usable(s.conns[d], h)
    ensures Ends(lim, s, h) <==>
            forall k :: 0 <= k < |s.hosts[h].pending| ==> s.conns[c].workload + OldWork(s.hosts[h].pending, k) != lim.maxWork
  {
    PassEndsIff(lim, s, h);
    var p := s.hosts[h].pending;
    if p != [] {
      OneConnPlace(lim, s, h, c);
      var k := FillTakes(lim, s, h, c);
      forall j | k < j < |p|
        ensures OldWork(p, k) <= OldWork(p, j)
      {
        OldWorkGrows(p, k, j);
      }
    }
  }

  // ---------------------------------------------------------------- choosing a connection to close

  function Waiting(s: State, c: nat): (n: nat)
    requires c < |s.conns|
  {
    if s.conns[c].host < |s.hosts| then |s.hosts[s.conns[c].host].pending| else 0
  }

  /** `e` is at least as good a choice as `b` by its own load and by what its host has waiting, better in
      one of them, and not its host's only connection. */
  ghost predicate Better(s: State, e: nat, b: nat)
    requires e < |s.conns| && b < |s.conns|
  {
    && OpenCount(s.conns, s.conns[e].host) > 1
    && s.conns[e].workload <= s.conns[b].workload && Waiting(s, e) <= Waiting(s, b)
    && (s.conns[e].workload < s.conns[b].workload || Waiting(s, e) < Waiting(s, b))
  }

  /** None of the connections seen so far is better than `best`, and without it none was ready. Those of
      the hosts `hs` have been seen, and those of host `h` from index `n`. */
  ghost predicate Unbeaten(s: State, best: Option<nat>, hs: seq<nat>, h: nat, n: int) {
    && (best.Some? ==> best.value < |s.conns| && IsReady(s.conns[best.value]))
    && forall e :: 0 <= e < |s.conns| && IsReady(s.conns[e]) && (s.conns[e].host in hs || (s.conns[e].host == h && e >= n)) ==>
         best.Some? && !Better(s, e, best.value)
  }

  /** `find_conn_to_close`, over the hosts in the order the hash table happens to give and each host's
      connections from the newest. Whatever that order, a ready connection is found if there is one, and no
      better one can be closed without leaving its host without any. */
  method FindConnToClose(s: State, order: seq<nat>) returns (best: Option<nat>)
    requires forall i :: 0 <= i < |order| ==> order[i] < |s.hosts|
    requires forall c :: 0 <= c < |s.conns| && s.conns[c].open ==> s.conns[c].host in order
    ensures best.None? ==> forall c :: 0 <= c < |s.conns| ==> !IsReady(s.conns[c])
    ensures best.Some? ==> best.value < |s.conns| && IsReady(s.conns[best.value])
    ensures best.Some? ==> forall e :: 0 <= e < |s.conns| && IsReady(s.conns[e]) ==> !Better(s, e, best.value)
  {
    best := None;
    var bestWork, leastBusy := -1, -1;
    for i := 0 to |order|
      invariant Unbeaten(s, best, order[..i], 0, |s.conns|)
      invariant best.Some? ==> bestWork == s.conns[best.value].workload && leastBusy == Waiting(s, best.value)
    {
      var h := order[i];
      var busy := |s.hosts[h].pending|;
      var c := |s.conns|;
      while c > 0
        invariant 0 <= c <= |s.conns| && Unbeaten(s, best, order[..i], h, c)
        invariant best.Some? ==> bestWork == s.conns[best.value].workload && leastBusy == Waiting(s, best.value)
      {
        c := c - 1;
        var hc := s.conns[c];
        if hc.open && hc.host == h && hc.state == 1 && (best.None? || bestWork >= hc.workload) {
          if best.None? || (OpenCount(s.conns, h) > 1 && leastBusy >= busy) {
            bestWork, best, leastBusy := hc.workload, Some(c), busy;
          }
        }
      }
      assert order[..i + 1] == order[..i] + [h];
    }
    assert order[..|order|] == order;
  }
}
