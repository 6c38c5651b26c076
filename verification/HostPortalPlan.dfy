/** How many connections a host gets: what the sizing decision amounts to, in the host's own figures. */
module HostPortalPlan {
  import opened HostPortal
  import opened HostPortalConn
  import opened HostPortalInv
  import opened HostPortalSteps
  import opened HostPortalTheorems

  function Least(a: int, b: int): (m: int) { if a < b then a else b }

  function Most(a: int, b: int): (m: int) { if a < b then b else a }

  /** Pending and submitted ops of a host */
  function Ops(hp: Host): (n: int) { |hp.pending| + hp.submitted - hp.processed }

  /** One connection for each `maxWork` of work and at least one, but no more than ops or `maxConn` */
  function Ideal(lim: Limits, hp: Host): (n: int)
    requires LimitsOk(lim)
  {
    Least(Least(Most(1, (hp.workPending + hp.executing) / lim.maxWork), Ops(hp)), lim.maxConn)
  }

  /** The connections a host would have if all were shared out evenly */
  function Share(lim: Limits, hpRunning: int): (n: int) {
    if hpRunning > 0 then lim.maxTotal / hpRunning else 1
  }

  /** What the counters satisfy in every reachable state */
  ghost predicate Sane(lim: Limits, hp: Host, hpconn: int, running: int, pendingTotal: int) {
    && LimitsOk(lim) && 0 <= hp.workPending + hp.executing && 0 <= hpconn && 0 <= hp.pendingConn
    && 0 <= pendingTotal <= running <= lim.maxTotal
  }

  /** A dead host, and one that has or waits for as many connections as it should have, gets nothing. */
  lemma Enough(lim: Limits, hp: Host, hpconn: int, hpRunning: int, running: int, pendingTotal: int, late: bool,
                  unpaused: bool)
    requires Sane(lim, hp, hpconn, running, pendingTotal)
    ensures var p := MakePlan(lim, hp, hpconn, hpRunning, running, pendingTotal, late, unpaused);
            hp.dead || hpconn + hp.pendingConn >= Ideal(lim, hp) ==> p == Plan(0, 0, hp.stable)
  {
  }

  /** A live host within its stable count, with room for what it lacks, is brought to just the number of
      connections it should have, and nothing is closed for it. */
  lemma ReachesIdeal(lim: Limits, hp: Host, hpconn: int, hpRunning: int, running: int, pendingTotal: int, late: bool,
                     unpaused: bool)
    requires Sane(lim, hp, hpconn, running, pendingTotal) && !hp.dead && Ideal(lim, hp) <= hp.stable
    requires hpconn + hp.pendingConn <= Ideal(lim, hp) && running + Ideal(lim, hp) - hpconn - hp.pendingConn <= lim.maxTotal
    ensures var p := MakePlan(lim, hp, hpconn, hpRunning, running, pendingTotal, late, unpaused);
            hpconn + hp.pendingConn + p.create == Ideal(lim, hp) && p.close == 0 && p.stable == hp.stable
  {
  }

  /** Without that room it gets what there is; the rest is asked of others exactly when it has no
      connection at all or should have no more than its share. */
  lemma ShortOfRoom(lim: Limits, hp: Host, hpconn: int, hpRunning: int, running: int, pendingTotal: int, late: bool,
                    unpaused: bool)
    requires Sane(lim, hp, hpconn, running, pendingTotal) && !hp.dead && Ideal(lim, hp) <= hp.stable
    requires running + Ideal(lim, hp) - hpconn - hp.pendingConn > lim.maxTotal && hpconn + hp.pendingConn < Ideal(lim, hp)
    ensures var p := MakePlan(lim, hp, hpconn, hpRunning, running, pendingTotal, late, unpaused);
            var want, room := Ideal(lim, hp) - hpconn - hp.pendingConn, lim.maxTotal - running;
            && p.create == room && p.stable == hp.stable
            && p.close == if Ideal(lim, hp) <= Share(lim, hpRunning) then Least(want, lim.maxTotal - pendingTotal) - room
                          else if hpconn + hp.pendingConn == 0 && room == 0 && pendingTotal < lim.maxTotal then 1 else 0
  {
  }

  /** Beyond its stable count a host gets one connection at a time: after the pause, when the stable count
      goes up with it, or at once if it has none and never paused. Otherwise one that has a connection gets
      no more. */
  lemma BeyondStable(lim: Limits, hp: Host, hpconn: int, hpRunning: int, running: int, pendingTotal: int, late: bool,
                     unpaused: bool)
    requires Sane(lim, hp, hpconn, running, pendingTotal) && !hp.dead && Ideal(lim, hp) > hp.stable
    requires hpconn + hp.pendingConn < Ideal(lim, hp) && (late || hpconn > 0 || unpaused)
    ensures var p := MakePlan(lim, hp, hpconn, hpRunning, running, pendingTotal, late, unpaused);
            var one := if late then hp.stable < lim.maxTotal else hpconn == 0;
            && p.stable == (if late then Least(hp.stable + 1, lim.maxTotal) else hp.stable)
            && p.create == (if one && running < lim.maxTotal then 1 else 0)
            && p.close == (if one && running >= lim.maxTotal && pendingTotal < lim.maxTotal then 1 else 0)
  {
  }

  /** While it pauses, a host without a connection is treated as if it were within its stable count. */
  lemma PausedWithout(lim: Limits, hp: Host, hpRunning: int, running: int, pendingTotal: int)
    requires Sane(lim, hp, 0, running, pendingTotal) && !hp.dead && Ideal(lim, hp) > hp.stable
    ensures var p := MakePlan(lim, hp, 0, hpRunning, running, pendingTotal, false, false);
            p == MakePlan(lim, hp.(stable := Ideal(lim, hp)), 0, hpRunning, running, pendingTotal, false, false)
                   .(stable := hp.stable)
  {
  }

  /** The stable count goes up exactly when a live host that lacks connections is at it after its pause. */
  lemma StableRisesIff(lim: Limits, hp: Host, hpconn: int, hpRunning: int, running: int, pendingTotal: int, late: bool,
                       unpaused: bool)
    requires Sane(lim, hp, hpconn, running, pendingTotal) && hp.stable < lim.maxTotal
    ensures var p := MakePlan(lim, hp, hpconn, hpRunning, running, pendingTotal, late, unpaused);
            p.stable == hp.stable + (if late && !hp.dead && hpconn + hp.pendingConn < Ideal(lim, hp) && hp.stable < Ideal(lim, hp)
                                     then 1 else 0)
  {
  }

  /** A live host with ops and no connection, none asked for either, always gets one, or one is closed for
      it, unless as many closes are under way as there may be connections or its stable count is at that. */
  lemma NeverPassedOver(lim: Limits, hp: Host, hpRunning: int, running: int, pendingTotal: int, late: bool, unpaused: bool)
    requires Sane(lim, hp, 0, running, pendingTotal) && !hp.dead && Ops(hp) > 0 && hp.pendingConn == 0
    requires pendingTotal < lim.maxTotal && (late ==> hp.stable < lim.maxTotal)
    ensures var p := MakePlan(lim, hp, 0, hpRunning, running, pendingTotal, late, unpaused); p.create + p.close >= 1
  {
  }

  // ---------------------------------------------------------------- over every run

  lemma {:induction false} WorkPendingNat(ops: seq<Op>)
    ensures OpsTally(ops, Work) >= 0
  {
    if ops != [] { WorkPendingNat(ops[..|ops| - 1]); }
  }

  lemma ReachableIsSane(lim: Limits, s: State, h: nat)
    requires LimitsOk(lim) && Inv(s) && Caps(lim, s) && h < |s.hosts|
    ensures Sane(lim, s.hosts[h], OpenCount(s.conns, h), s.running, s.pendingTotal)
  {
    PendingWithinRunning(s, h);
    assert HostOk(s, h);
    WorkPendingNat(s.hosts[h].pending);
    WorkNat(s.conns, s.que, h, |s.conns|);
  }

  /** What a sizing step does to the number of open connections */
  lemma ResizeOpens(lim: Limits, s: State, h: nat, vs: seq<nat>, late: bool, unpaused: bool)
    requires LimitsOk(lim) && Inv(s) && Caps(lim, s) && h < |s.hosts| && Victims(s, vs)
    ensures var p := MakePlan(lim, s.hosts[h], OpenCount(s.conns, h), s.hpRunning, s.running, s.pendingTotal, late, unpaused);
            var t := Adjust(lim, s, h, vs, late, unpaused);
            && p.create >= 0 && forall g: nat :: OpenCount(t.conns, g) == OpenCount(s.conns, g) + (if g == h then p.create else 0)
  {
    ReachableIsSane(lim, s, h);
    var p := MakePlan(lim, s.hosts[h], OpenCount(s.conns, h), s.hpRunning, s.running, s.pendingTotal, late, unpaused);
    var s1 := s.(hosts := s.hosts[h := s.hosts[h].(stable := p.stable)]);
    MarkKeeps(s, h, s.hosts[h].dead, p.stable);
    assert s1 == s.(hosts := s.hosts[h := s.hosts[h].(dead := s.hosts[h].dead, stable := p.stable)]);
    assert Victims(s1, vs);
    CloseAllKeeps(s1, h, vs);
    AddConnsKeeps(CloseAll(s1, h, vs), h, p.create);
  }

  /** In every run, sizing a live host that is within its stable count, with no close under way for it and
      room for what it lacks, leaves it with as many connections as it should have, or as it had if that is
      more; every other host keeps its own. */
  lemma SizedOverRuns(lim: Limits, nhosts: nat, acts: seq<Step>, h: nat, vs: seq<nat>, late: bool, unpaused: bool)
    requires LimitsOk(lim) && Runs(lim, Init(lim, nhosts), acts)
    requires Enabled(lim, Exec(lim, Init(lim, nhosts), acts), Resize(h, vs, late, unpaused))
    ensures var s := Exec(lim, Init(lim, nhosts), acts);
            var t := Apply(lim, s, Resize(h, vs, late, unpaused));
            var hp, n := s.hosts[h], OpenCount(s.conns, h);
            && (!hp.dead && hp.pendingConn == 0 && Ideal(lim, hp) <= hp.stable &&
                s.running + Ideal(lim, hp) - n <= lim.maxTotal ==>
                  OpenCount(t.conns, h) == Most(n, Ideal(lim, hp)))
            && forall g: nat :: g != h ==> OpenCount(t.conns, g) == OpenCount(s.conns, g)
  {
    InitHolds(lim, nhosts);
    RunKeeps(lim, Init(lim, nhosts), acts);
    var s := Exec(lim, Init(lim, nhosts), acts);
    ResizeOpens(lim, s, h, vs, late, unpaused);
    ReachableIsSane(lim, s, h);
    var hp, n := s.hosts[h], OpenCount(s.conns, h);
    Enough(lim, hp, n, s.hpRunning, s.running, s.pendingTotal, late, unpaused);
    if !hp.dead && hp.pendingConn == 0 && Ideal(lim, hp) <= hp.stable && n < Ideal(lim, hp) &&
       s.running + Ideal(lim, hp) - n <= lim.maxTotal {
      ReachesIdeal(lim, hp, n, s.hpRunning, s.running, s.pendingTotal, late, unpaused);
    }
  }
}
