/** Heartbeat registrations of a client (mq_ongoing.c).

    Callers register interest in an id at a remote host and give it up again; a thread sends heartbeats
    for all that is registered, without holding the lock while they are under way. */
module MqOngoing {

  /** A remote host and an id there */
  type Key = (nat, nat)

  /** `gop_ongoing_hb_t`; `serial` tells one allocation of it from another. */
  datatype Hb = Hb(count: int, inProgress: bool, serial: nat)

  /** `hosts` are the per-host counts; `flying` the heartbeats under way, with the entry they were made
      from; `regs` the registrations not given up yet. */
  datatype State = State(hbs: map<Key, Hb>, hosts: map<nat, int>, flying: map<Key, nat>, next: nat, regs: map<Key, nat>)

  function Regs(s: State, k: Key): (n: nat) { if k in s.regs then s.regs[k] else 0 }

  // ---------------------------------------------------------------- operations

  /** `gop_mq_ongoing_host_inc` */
  function Inc(s: State, k: Key): (r: State) {
    var hosts := s.hosts[k.0 := if k.0 in s.hosts then s.hosts[k.0] + 1 else 1];
    var regs := s.regs[k := Regs(s, k) + 1];
    if k in s.hbs then
      s.(hosts := hosts, regs := regs, hbs := s.hbs[k := s.hbs[k].(count := s.hbs[k].count + 1)])
    else
      s.(hosts := hosts, regs := regs, hbs := s.hbs[k := Hb(1, false, s.next)], next := s.next + 1)
  }

  /** `gop_mq_ongoing_host_dec`, on a registration that was made */
  function Dec(s: State, k: Key): (r: State)
    requires Regs(s, k) > 0
  {
    var regs := s.regs[k := Regs(s, k) - 1];
    if k.0 !in s.hosts then s.(regs := regs)
    else
      var hosts := s.hosts[k.0 := s.hosts[k.0] - 1];
      if k !in s.hbs then s.(hosts := hosts, regs := regs)
      else
        var hb := s.hbs[k].(count := s.hbs[k].count - 1);
        if hb.count <= 0 && !hb.inProgress then s.(hosts := hosts, regs := regs, hbs := s.hbs - {k})
        else s.(hosts := hosts, regs := regs, hbs := s.hbs[k := hb])
  }

  /** The scan of `ongoing_heartbeat_thread`: heartbeats go out for the entries that are due. */
  function Send(s: State, due: set<Key>): (r: State)
    requires due <= s.hbs.Keys && s.flying == map[]
  {
    s.(hbs := map k | k in s.hbs :: if k in due then s.hbs[k].(inProgress := true) else s.hbs[k],
       flying := map k | k in due :: s.hbs[k].serial)
  }

  function Landed(flying: map<Key, nat>, h: nat): (r: map<Key, nat>) { map k | k in flying && k.0 != h :: flying[k] }

  /** One finished heartbeat is collected: the whole table of its host is gone through. */
  function Collect(s: State, h: nat): (r: State)
    requires h in s.hosts
  {
    s.(hosts := s.hosts[h := s.hosts[h] - 1],
       hbs := map k | k in s.hbs && (k.0 != h || s.hbs[k].count > 0) :: if k.0 == h then s.hbs[k].(inProgress := false) else s.hbs[k],
       flying := Landed(s.flying, h))
  }

  // ---------------------------------------------------------------- the invariant

  /** An entry is there exactly while it is registered or its heartbeat is under way, its count is the
      number of registrations, and a heartbeat under way has the entry it was made from. */
  ghost predicate EntryOk(s: State, k: Key) {
    && (k in s.hbs <==> Regs(s, k) > 0 || k in s.flying)
    && (k in s.hbs ==> s.hbs[k].count == Regs(s, k) && s.hbs[k].inProgress == (k in s.flying) && s.hbs[k].serial < s.next)
    && (k in s.flying ==> k in s.hbs && s.hbs[k].serial == s.flying[k])
    && (k in s.hbs ==> k.0 in s.hosts)
  }

  ghost predicate Inv(s: State) { forall k :: EntryOk(s, k) }

  datatype Step = Register(k: Key) | Drop(k: Key) | Beat(due: set<Key>) | Reap(h: nat)

  /** Heartbeats are sent only when none is under way, and one can be collected once they have all
      finished. */
  ghost predicate Enabled(s: State, e: Step) {
    match e
    case Register(_) => true
    case Drop(k) => Regs(s, k) > 0
    case Beat(due) => due <= s.hbs.Keys && s.flying == map[]
    case Reap(h) => h in s.hosts && exists k :: k in s.flying && k.0 == h
  }

  function Apply(s: State, e: Step): (r: State)
    requires Enabled(s, e)
  {
    match e
    case Register(k) => Inc(s, k)
    case Drop(k) => Dec(s, k)
    case Beat(due) => Send(s, due)
    case Reap(h) => Collect(s, h)
  }

  lemma StepKeeps(s: State, e: Step)
    requires Inv(s) && Enabled(s, e)
    ensures Inv(Apply(s, e))
  {
    var r := Apply(s, e);
    forall k
      ensures EntryOk(r, k)
    {
      assert EntryOk(s, k);
      if e.Drop? { assert EntryOk(s, e.k); }
    }
  }

  const START: State := State(map[], map[], map[], 0, map[])

  ghost predicate Follows(s: State, e: Step, r: State) { Enabled(s, e) && r == Apply(s, e) }

  ghost predicate IsRun(trace: seq<State>, steps: seq<Step>) {
    && |trace| == |steps| + 1 && trace[0] == START
    && forall i :: 0 <= i < |steps| ==> Follows(trace[i], steps[i], trace[i + 1])
  }

  lemma {:induction false} RunKeeps(trace: seq<State>, steps: seq<Step>, i: nat)
    requires IsRun(trace, steps) && i < |trace|
    ensures Inv(trace[i])
  {
    if i == 0 {
      assert forall k :: EntryOk(START, k);
    } else {
      RunKeeps(trace, steps, i - 1);
      assert Follows(trace[i - 1], steps[i - 1], trace[i]);
      StepKeeps(trace[i - 1], steps[i - 1]);
    }
  }

  /** Registrations of `k` in the first `i` steps less those given up again */
  function Registered(steps: seq<Step>, i: nat, k: Key): (n: int)
    requires i <= |steps|
  {
    if i == 0 then 0
    else Registered(steps, i - 1, k) + (if steps[i - 1] == Register(k) then 1 else if steps[i - 1] == Drop(k) then -1 else 0)
  }

  /** A heartbeat for `k` went out and none of its host's has been collected since. */
  ghost predicate UnderWay(steps: seq<Step>, i: nat, k: Key)
    requires i <= |steps|
  {
    exists b :: 0 <= b < i && SentAt(steps, b, k) && forall j :: b < j < i ==> steps[j] != Reap(k.0)
  }

  ghost predicate SentAt(steps: seq<Step>, b: nat, k: Key)
    requires b < |steps|
  {
    steps[b].Beat? && k in steps[b].due
  }

  lemma UnderWayNext(steps: seq<Step>, i: nat, k: Key)
    requires 0 < i <= |steps|
    ensures UnderWay(steps, i, k) <==> SentAt(steps, i - 1, k) || (UnderWay(steps, i - 1, k) && steps[i - 1] != Reap(k.0))
  {
    if UnderWay(steps, i - 1, k) && steps[i - 1] != Reap(k.0) {
      var b :| 0 <= b < i - 1 && SentAt(steps, b, k) && forall j :: b < j < i - 1 ==> steps[j] != Reap(k.0);
      assert forall j :: b < j < i ==> steps[j] != Reap(k.0);
    }
  }

  lemma {:induction false} HistoryOverRuns(trace: seq<State>, steps: seq<Step>, i: nat, k: Key)
    requires IsRun(trace, steps) && i < |trace|
    ensures Regs(trace[i], k) == Registered(steps, i, k) && (k in trace[i].flying <==> UnderWay(steps, i, k))
  {
    if i > 0 {
      HistoryOverRuns(trace, steps, i - 1, k);
      UnderWayNext(steps, i, k);
      assert Follows(trace[i - 1], steps[i - 1], trace[i]);
      StepHistory(trace[i - 1], steps[i - 1], k);
    }
  }

  lemma StepHistory(s: State, e: Step, k: Key)
    requires Enabled(s, e)
    ensures var r := Apply(s, e);
            && Regs(r, k) == Regs(s, k) + (if e == Register(k) then 1 else if e == Drop(k) then -1 else 0)
            && (k in r.flying <==> (e.Beat? && k in e.due) || (k in s.flying && e != Reap(k.0)))
  {
  }

  /** In every run an entry exists exactly while a registration has not been given up or a heartbeat sent
      for it has not been collected, and it counts the registrations. */
  lemma CountsRegistrations(trace: seq<State>, steps: seq<Step>, i: nat, k: Key)
    requires IsRun(trace, steps) && i < |trace|
    ensures var s := trace[i];
            && (k in s.hbs <==> Registered(steps, i, k) > 0 || UnderWay(steps, i, k))
            && (k in s.hbs ==> s.hbs[k].count == Registered(steps, i, k) && s.hbs[k].inProgress == UnderWay(steps, i, k))
  {
    RunKeeps(trace, steps, i);
    HistoryOverRuns(trace, steps, i, k);
    assert EntryOk(trace[i], k);
  }

  /** From the moment a heartbeat is sent until it is collected, its entry stays the one it was made
      from, whatever callers do in between. */
  lemma {:induction false} NotFreedInFlight(trace: seq<State>, steps: seq<Step>, i: nat, j: nat, k: Key)
    requires IsRun(trace, steps) && i <= j < |trace| && k in trace[i].flying
    requires forall m :: i <= m < j ==> steps[m] != Reap(k.0)
    ensures k in trace[j].flying && trace[j].flying[k] == trace[i].flying[k]
    ensures k in trace[j].hbs && trace[j].hbs[k].serial == trace[i].flying[k]
    decreases j - i
  {
    RunKeeps(trace, steps, j);
    assert EntryOk(trace[j], k);
    if i < j {
      NotFreedInFlight(trace, steps, i, j - 1, k);
      assert Follows(trace[j - 1], steps[j - 1], trace[j]);
    }
  }

  // ---------------------------------------------------------------- in place

  class Ongoing {
    var hbs: map<Key, Hb>
    var hosts: map<nat, int>
    var flying: map<Key, nat>
    var next: nat
    var regs: map<Key, nat>

    ghost function View(): (s: State)
      reads this
    {
      State(hbs, hosts, flying, next, regs)
    }

    constructor ()
      ensures View() == START && Inv(View())
    {
      hbs, hosts, flying, next, regs := map[], map[], map[], 0, map[];
      new;
      assert forall k :: EntryOk(START, k);
    }

    method HostInc(k: Key)
      requires Inv(View())
      modifies this`hbs, this`hosts, this`next, this`regs
      ensures View() == Inc(old(View()), k) && Inv(View())
    {
      Bump(k);
      StepKeeps(old(View()), Register(k));
    }

    method Bump(k: Key)
      modifies this`hbs, this`hosts, this`next, this`regs
      ensures View() == Inc(old(View()), k)
    {
      regs := regs[k := (if k in regs then regs[k] else 0) + 1];
      var host := if k.0 in hosts then hosts[k.0] else 0;
      hosts := hosts[k.0 := host + 1];
      var hb;
      if k !in hbs {
        hb := Hb(0, false, next);
        next := next + 1;
      } else {
        hb := hbs[k];
      }
      hbs := hbs[k := hb.(count := hb.count + 1)];
    }

    method HostDec(k: Key)
      requires Inv(View()) && k in regs && regs[k] > 0
      modifies this`hbs, this`hosts, this`regs
      ensures View() == Dec(old(View()), k) && Inv(View())
    {
      StepKeeps(View(), Drop(k));
      regs := regs[k := regs[k] - 1];
      if k.0 !in hosts { return; }
      hosts := hosts[k.0 := hosts[k.0] - 1];
      if k in hbs {
        hbs := hbs[k := hbs[k].(count := hbs[k].count - 1)];
        if hbs[k].count <= 0 && !hbs[k].inProgress { hbs := hbs - {k}; }
      }
      assert hbs == Dec(old(View()), k).hbs;
    }

    /** The scan of the heartbeat loop: entries that are due are marked and their heartbeats sent. */
    method SendDue(due: set<Key>)
      requires Inv(View()) && due <= hbs.Keys && flying == map[]
      modifies this`hbs, this`flying
      ensures View() == Send(old(View()), due) && Inv(View())
    {
      Mark(due);
      StepKeeps(old(View()), Beat(due));
    }

    method Mark(due: set<Key>)
      requires due <= hbs.Keys && flying == map[]
      modifies this`hbs, this`flying
      ensures View() == Send(old(View()), due)
    {
      var todo := due;
      while todo != {}
        invariant todo <= due && hbs.Keys == old(hbs).Keys && flying.Keys == due - todo
        invariant forall k :: k in flying ==> flying[k] == old(hbs)[k].serial
        invariant forall k :: k in flying ==> hbs[k] == old(hbs)[k].(inProgress := true)
        invariant forall k :: k in hbs && k !in flying ==> hbs[k] == old(hbs)[k]
        decreases todo
      {
        var k :| k in todo;
        todo := todo - {k};
        flying := flying[k := hbs[k].serial];
        hbs := hbs[k := hbs[k].(inProgress := true)];
      }
      ghost var r := Send(old(View()), due);
      assert flying == r.flying;
      assert hbs == r.hbs;
    }

    /** The tail of the heartbeat loop: every heartbeat under way has finished and is collected, in any
        order. Afterwards only what is registered is left. */
    method CollectAll()
      requires Inv(View())
      modifies this`hbs, this`hosts, this`flying
      ensures Inv(View()) && flying == map[]
      ensures forall k :: k in hbs <==> Regs(View(), k) > 0
    {
      var gops := flying.Keys;
      forall k | k in gops
        ensures k.0 in hosts
      {
        assert EntryOk(View(), k);
      }
      while gops != {}
        invariant Inv(View()) && flying.Keys <= gops && regs == old(regs)
        invariant forall k :: k in gops ==> k.0 in hosts
        decreases gops
      {
        var k :| k in gops;
        CollectHost(k.0);
        gops := gops - {k};
      }
      assert flying == map[];
      forall k
        ensures k in hbs <==> Regs(View(), k) > 0
      {
        assert EntryOk(View(), k);
      }
    }

    method CollectHost(h: nat)
      requires Inv(View()) && h in hosts
      modifies this`hbs, this`hosts, this`flying
      ensures View() == Collect(old(View()), h) && Inv(View())
    {
      Sweep(h);
      CollectKeeps(old(View()), h);
    }

    /** Going through the table of one host */
    method Sweep(h: nat)
      requires h in hosts
      modifies this`hbs, this`hosts, this`flying
      ensures View() == Collect(old(View()), h)
    {
      hosts := hosts[h := hosts[h] - 1];
      SweepTable(h);
      CollectHbs(old(View()), h, hbs);
      flying := Landed(flying, h);
    }

    method SweepTable(h: nat)
      modifies this`hbs
      ensures forall k :: k in hbs <==> k in old(hbs) && (k.0 != h || old(hbs)[k].count > 0)
      ensures forall k :: k in hbs ==> hbs[k] == if k.0 == h then old(hbs)[k].(inProgress := false) else old(hbs)[k]
    {
      var todo := hbs.Keys;
      while todo != {}
        invariant todo <= hbs.Keys
        invariant forall k :: k in hbs <==> k in old(hbs) && (k in todo || k.0 != h || old(hbs)[k].count > 0)
        invariant forall k :: k in hbs && (k in todo || k.0 != h) ==> hbs[k] == old(hbs)[k]
        invariant forall k :: k in hbs && k !in todo && k.0 == h ==> hbs[k] == old(hbs)[k].(inProgress := false)
        decreases todo
      {
        var k :| k in todo;
        todo := todo - {k};
        if k.0 == h {
          var hb := hbs[k].(inProgress := false);
          hbs := if hb.count <= 0 then hbs - {k} else hbs[k := hb];
        }
      }
    }
  }

  lemma CollectHbs(s: State, h: nat, m: map<Key, Hb>)
    requires h in s.hosts
    requires forall k :: k in m <==> k in s.hbs && (k.0 != h || s.hbs[k].count > 0)
    requires forall k :: k in m ==> m[k] == if k.0 == h then s.hbs[k].(inProgress := false) else s.hbs[k]
    ensures m == Collect(s, h).hbs
  {
  }

  /** Collecting a second heartbeat of a host changes no entry. */
  lemma CollectKeeps(s: State, h: nat)
    requires Inv(s) && h in s.hosts
    ensures Inv(Collect(s, h))
  {
    var r := Collect(s, h);
    forall k
      ensures EntryOk(r, k)
    {
      assert EntryOk(s, k);
    }
  }
}
