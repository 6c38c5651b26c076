/** The connection object of mq_portal.c: each routine updates the tables in place and is proved
    against the operation of MqConn that it stands for. */
module MqConnPortal {

  import opened MqConn

  /** Every completion from position `k` on is a failure. */
  ghost predicate FailedFrom(done: seq<Completion>, k: nat) {
    forall i :: k <= i < |done| ==> done[i].fate == Failed
  }

  predicate Late(e: Entry, now: int, limit: int) { now - e.lastCheck > limit }

  /** A task that the destination scan leaves alone */
  ghost predicate Unharmed(c: Conn, m: Monitor, now: int, fail: int) {
    m.tracking.Some? && m.tracking.value in c.heap ==> !Late(c.heap[m.tracking.value], now, fail)
  }

  /** The entry is checked on: quiet for longer than `check`, but not dead. */
  predicate Quiet(c: Conn, p: Ptr, now: int, fail: int, check: int) {
    p in c.heap && !Late(c.heap[p], now, fail) && Late(c.heap[p], now, check)
  }

  /** The destinations the scan itself pings; a winding-down connection leaves its uplink for later. */
  function Checked(c: Conn, npoll: int, now: int, fail: int, check: int): (ps: set<Ptr>) {
    set p | p in c.heap && Quiet(c, p, now, fail, check) && !(npoll == 1 && c.uplink == Some(p))
  }

  predicate UplinkLate(c: Conn, now: int, limit: int) {
    c.uplink.Some? && c.uplink.value in c.heap && Late(c.heap[c.uplink.value], now, limit)
  }

  lemma {:induction false} FailAllSnoc(c: Conn, ids: seq<Id>, id: Id)
    requires Listed(c.waiting, ids + [id])
    ensures Listed(c.waiting, ids) && id in FailAll(c, ids).waiting
    ensures FailAll(c, ids + [id]) == Leave(FailAll(c, ids), id, Failed)
    decreases |ids|
  {
    assert forall i :: 0 <= i < |ids| ==> (ids + [id])[i] == ids[i];
    assert (ids + [id])[|ids|] == id;
    if ids != [] {
      assert (ids + [id])[1..] == ids[1..] + [id];
      FailAllSnoc(Leave(c, ids[0], Failed), ids[1..], id);
    }
  }

  lemma {:induction false} FailAllDone(c: Conn, ids: seq<Id>)
    requires Listed(c.waiting, ids)
    ensures c.done <= FailAll(c, ids).done && FailedFrom(FailAll(c, ids).done, |c.done|)
    decreases |ids|
  {
    if ids != [] { FailAllDone(Leave(c, ids[0], Failed), ids[1..]); }
  }

  class Connection {
    var heap: map<Ptr, Entry>
    var dest: map<string, Ptr>
    var lut: map<nat, Ptr>
    var waiting: map<Id, Monitor>
    var uplink: Option<Ptr>
    var next: Ptr
    var issued: map<Id, nat>
    var done: seq<Completion>

    ghost function View(): (c: Conn)
      reads this
    {
      Conn(heap, dest, lut, waiting, uplink, next, issued, done)
    }

    /** The tables part of `mq_conn_make`, for a client connection */
    constructor (host: string, lutId: nat, now: int)
      ensures View() == Client(host, lutId, now) && Inv(View())
    {
      heap, dest, lut := map[0 := Entry(host, lutId, 1, now)], map[host := 0], map[lutId := 0];
      waiting, uplink, next, issued, done := map[], Some(0), 1, map[], [];
      new;
      InitHolds(host, lutId, now);
    }

    method HeartbeatDec(p: Ptr)
      requires p in heap
      modifies this`heap, this`dest, this`lut
      ensures View() == Dec(old(View()), p)
    {
      var entry := heap[p];
      heap := heap[p := entry.(count := entry.count - 1)];
      if heap[p].count <= 0 {
        dest := dest - {entry.key};
        lut := lut - {entry.lutId};
        heap := heap - {p};
        assert heap == old(heap) - {p};
      }
    }

    method ProcessTask(id: Id, task: nat, timeout: int, tracked: bool, sent: bool)
      requires Inv(View()) && id !in issued
      modifies this`waiting, this`issued, this`done
      ensures View() == Process(old(View()), id, task, timeout, tracked, sent) && Inv(View())
      ensures if tracked && sent then done == old(done) && waiting == old(waiting)[id := Monitor(task, timeout, None)]
              else done == old(done) + [Completion(id, task, if sent then Sent else Failed)] && waiting == old(waiting)
    {
      ProcessKeeps(View(), id, task, timeout, tracked, sent);
      issued := issued[id := task];
      if !sent {
        done := done + [Completion(id, task, Failed)];
      } else if !tracked {
        done := done + [Completion(id, task, Sent)];
      } else {
        waiting := waiting[id := Monitor(task, timeout, None)];
      }
    }

    method OnResponse(id: Id)
      requires Inv(View())
      modifies this`waiting, this`done, this`heap, this`dest, this`lut
      ensures View() == Respond(old(View()), id) && Inv(View())
      ensures id !in waiting
      ensures done == if id in old(waiting) then old(done) + [Completion(id, old(waiting)[id].task, Responded)] else old(done)
    {
      Answer(id);
      RespondKeeps(old(View()), id);
    }

    method Answer(id: Id)
      requires id in waiting && waiting[id].tracking.Some? ==> waiting[id].tracking.value in heap
      modifies this`waiting, this`done, this`heap, this`dest, this`lut
      ensures View() == Respond(old(View()), id)
    {
      if id !in waiting { return; }
      var monitor := waiting[id];
      waiting := waiting - {id};
      if monitor.tracking.Some? { HeartbeatDec(monitor.tracking.value); }
      done := done + [Completion(id, monitor.task, Responded)];
    }

    method OnTrackAddress(id: Id, key: string, lutId: nat, now: int)
      requires Inv(View()) && lutId !in lut
      modifies this`waiting, this`heap, this`dest, this`lut, this`next
      ensures View() == TrackAddress(old(View()), id, key, lutId, now) && Inv(View())
    {
      Attach(id, key, lutId, now);
      TrackAddressKeeps(old(View()), id, key, lutId, now);
    }

    method Attach(id: Id, key: string, lutId: nat, now: int)
      requires key in dest ==> dest[key] in heap
      modifies this`waiting, this`heap, this`dest, this`lut, this`next
      ensures View() == TrackAddress(old(View()), id, key, lutId, now)
    {
      if id !in waiting { return; }
      if waiting[id].tracking.Some? { return; }
      var p;
      if key !in dest {
        p := next;
        next := next + 1;
        heap := heap[p := Entry(key, lutId, 0, now)];
        dest := dest[key := p];
        lut := lut[lutId := p];
        assert heap[p := heap[p].(count := 1)] == old(heap)[p := Entry(key, lutId, 1, now)];
      } else {
        p := dest[key];
      }
      waiting := waiting[id := waiting[id].(tracking := Some(p))];
      heap := heap[p := heap[p].(count := heap[p].count + 1)];
    }

    method OnPong(lutId: nat, now: int)
      requires Inv(View())
      modifies this`heap
      ensures View() == Pong(old(View()), lutId, now) && Inv(View())
    {
      PongKeeps(View(), lutId, now);
      if lutId in lut {
        var p := lut[lutId];
        heap := heap[p := heap[p].(lastCheck := now)];
      }
    }

    /** Fails the waiting tasks that refer to `p`, or all of them; the hash table decides the order. */
    method FailThose(all: bool, p: Ptr) returns (ghost ids: seq<Id>)
      modifies this`waiting, this`done
      ensures Listed(old(waiting), ids)
      ensures Lists(ids, if all then old(waiting).Keys else Trackers(old(waiting), p))
      ensures View() == FailAll(old(View()), ids)
    {
      ids := [];
      ghost var c := View();
      var todo := waiting.Keys;
      while todo != {}
        invariant todo <= waiting.Keys && Listed(c.waiting, ids) && View() == FailAll(c, ids)
        invariant forall id :: id in waiting ==> id in c.waiting && waiting[id] == c.waiting[id]
        invariant forall id :: id in ids <==> id in c.waiting && id !in todo && (all || c.waiting[id].tracking == Some(p))
        decreases todo
      {
        var id :| id in todo;
        todo := todo - {id};
        if all || waiting[id].tracking == Some(p) {
          FailAllSnoc(c, ids, id);
          ids := ids + [id];
          done := done + [Completion(id, waiting[id].task, Failed)];
          waiting := waiting - {id};
        }
      }
    }

    method HeartbeatCleanup()
      requires Inv(View())
      modifies this`heap, this`dest, this`lut, this`waiting, this`done
      ensures Inv(View()) && waiting == map[] && heap == map[] && dest == map[] && lut == map[]
      ensures forall id :: id in issued ==> Times(done, id) == 1
      ensures old(done) <= done && FailedFrom(done, |old(done)|)
    {
      ghost var c := View();
      heap, dest, lut := map[], map[], map[];
      ghost var mid := View();
      var ids := FailThose(true, 0);
      CleanupKeeps(c, ids);
      FailAllDone(mid, ids);
    }

    /** The destination scan meets a dead entry. */
    method KillEntry(p: Ptr)
      requires Inv(View()) && p in heap
      modifies this`heap, this`dest, this`lut, this`waiting, this`done
      ensures Inv(View())
      ensures Killed(old(View()), View(), p)
    {
      ghost var c := View();
      var ids := FailThose(false, p);
      FailAllFrame(c, ids);
      FailAllDone(c, ids);
      DeadKeeps(c, p, ids);
      dest := dest - {heap[p].key};
      lut := lut - {heap[p].lutId};
      heap := heap - {p};
      assert View() == Dead(c, p, ids);
      assert forall id :: id in ids <==> id in Trackers(c.waiting, p);
    }

    /** One entry of the destination scan */
    method VisitDestination(p: Ptr, npoll: int, now: int, fail: int, check: int, ghost c: Conn, ghost todo: set<Ptr>,
                            pings0: set<Ptr>, connDead0: bool, connQuiet0: bool)
      returns (pings: set<Ptr>, connDead: bool, connQuiet: bool)
      requires Inv(View()) && p in heap && p in todo && uplink == c.uplink
      requires Scanned(c, View(), todo, now, fail)
      requires Noted(c, todo, npoll, now, fail, check, pings0, connDead0, connQuiet0)
      modifies this`heap, this`dest, this`lut, this`waiting, this`done
      ensures Inv(View()) && heap.Keys >= old(heap).Keys - {p}
      ensures Scanned(c, View(), todo - {p}, now, fail)
      ensures Noted(c, todo - {p}, npoll, now, fail, check, pings, connDead, connQuiet)
    {
      pings, connDead, connQuiet := pings0, connDead0, connQuiet0;
      NoteVisit(c, todo, npoll, now, fail, check, pings, connDead, connQuiet, p);
      if Late(heap[p], now, fail) {
        if uplink == Some(p) { connDead := true; }
        ghost var v := View();
        KillEntry(p);
        ScanKill(c, v, View(), todo, now, fail, p);
      } else {
        ScanSkip(c, View(), todo, now, fail, p);
        if Late(heap[p], now, check) {
          if npoll == 1 && uplink == Some(p) {
            connQuiet := true;
          } else {
            pings := pings + {p};
          }
        }
      }
    }

    /** The destination scan of `mqc_heartbeat` */
    method ScanDestinations(npoll: int, now: int, fail: int, check: int)
      returns (pings: set<Ptr>, connDead: bool, connQuiet: bool)
      requires Inv(View())
      modifies this`heap, this`dest, this`lut, this`waiting, this`done
      ensures Inv(View()) && Scanned(old(View()), View(), {}, now, fail)
      ensures Noted(old(View()), {}, npoll, now, fail, check, pings, connDead, connQuiet)
    {
      pings, connDead, connQuiet := {}, false, false;
      ghost var c := View();
      ScanStart(c, npoll, now, fail, check);
      var todo := heap.Keys;
      while todo != {}
        invariant Inv(View()) && uplink == c.uplink && todo <= heap.Keys
        invariant Scanned(c, View(), todo, now, fail)
        invariant Noted(c, todo, npoll, now, fail, check, pings, connDead, connQuiet)
        decreases todo
      {
        var p :| p in todo;
        pings, connDead, connQuiet := VisitDestination(p, npoll, now, fail, check, c, todo, pings, connDead, connQuiet);
        todo := todo - {p};
      }
    }

    method Expire(id: Id)
      requires Inv(View()) && id in waiting
      modifies this`waiting, this`done, this`heap, this`dest, this`lut
      ensures View() == Finish(old(View()), id, Failed) && Inv(View())
    {
      FinishKeeps(View(), id, Failed);
      var monitor := waiting[id];
      if monitor.tracking.Some? { HeartbeatDec(monitor.tracking.value); }
      waiting := waiting - {id};
      done := done + [Completion(id, monitor.task, Failed)];
    }

    /** The scan of `mqc_heartbeat` over single commands */
    method ScanWaiting(later: int) returns (pending: nat)
      requires Inv(View())
      modifies this`waiting, this`done, this`heap, this`dest, this`lut
      ensures Inv(View()) && Swept(old(View()), View(), {}, later) && pending == |waiting|
    {
      pending := 0;
      ghost var c := View();
      var todo := waiting.Keys;
      while todo != {}
        invariant Inv(View()) && todo <= waiting.Keys && Swept(c, View(), todo, later)
        invariant pending == |waiting.Keys - todo|
        decreases todo
      {
        var id :| id in todo;
        var kept := VisitWaiting(id, later, c, todo);
        if kept { pending := pending + 1; }
        todo := todo - {id};
      }
    }

    method VisitWaiting(id: Id, later: int, ghost c: Conn, ghost todo: set<Id>) returns (kept: bool)
      requires Inv(View()) && id in waiting && id in todo && Swept(c, View(), todo, later)
      modifies this`waiting, this`done, this`heap, this`dest, this`lut
      ensures Inv(View()) && Swept(c, View(), todo - {id}, later)
      ensures waiting.Keys == if kept then old(waiting).Keys else old(waiting).Keys - {id}
      ensures kept ==> |waiting.Keys - (todo - {id})| == |old(waiting).Keys - todo| + 1
      ensures !kept ==> |waiting.Keys - (todo - {id})| == |old(waiting).Keys - todo|
    {
      ghost var v := View();
      kept := later <= waiting[id].timeout;
      OneLess(waiting.Keys, todo, id);
      if !kept {
        SweepFinish(c, v, todo, later, id);
        Expire(id);
        assert waiting.Keys == v.waiting.Keys - {id};
      } else {
        SweepKept(c, v, todo, later, id);
      }
    }

    /** The two scans, one after the other */
    method Scan(npoll: int, now: int, later: int, fail: int, check: int)
      returns (left: nat, pings: set<Ptr>, connDead: bool, connQuiet: bool)
      requires Inv(View())
      modifies this`heap, this`dest, this`lut, this`waiting, this`done
      ensures Inv(View()) && Beaten(old(View()), View(), now, later, fail)
      ensures Noted(old(View()), {}, npoll, now, fail, check, pings, connDead, connQuiet)
      ensures left == |waiting|
      ensures connQuiet ==> npoll == 1 && uplink.Some? && uplink.value in heap && uplink.value !in pings
    {
      ghost var c := View();
      pings, connDead, connQuiet := ScanDestinations(npoll, now, fail, check);
      ghost var v := View();
      left := ScanWaiting(later);
      Beat(c, v, View(), now, later, fail);
      if connQuiet { UplinkStays(c, v, View(), npoll, now, later, fail, check, pings, connDead); }
    }

    /** `mqc_heartbeat`. The result is not zero when the connection is to end. */
    method Heartbeat(npoll: int, now: int, later: int, fail: int, check: int) returns (n: int, pings: set<Ptr>)
      requires Inv(View())
      modifies this`heap, this`dest, this`lut, this`waiting, this`done
      ensures Inv(View()) && Beaten(old(View()), View(), now, later, fail)
      ensures pings == Pinged(old(View()), npoll, now, fail, check, |waiting|)
      ensures UplinkLate(old(View()), now, fail) ==> n >= 1
      ensures !UplinkLate(old(View()), now, fail) ==> (n != 0 <==> npoll == 1 && |waiting| == 0 && pings == {})
    {
      var left, noted, connDead, connQuiet := Scan(npoll, now, later, fail, check);
      n, pings := Conclude(npoll, left, noted, connDead, connQuiet);
      assert noted == Checked(old(View()), npoll, now, fail, check);
    }

    /** The end of `mqc_heartbeat`: a last ping for the uplink, whose entry is still live whatever the
        scans removed, and the verdict. */
    method Conclude(npoll: int, left: nat, pings0: set<Ptr>, connDead: bool, connQuiet: bool)
      returns (n: int, pings: set<Ptr>)
      requires connQuiet ==> npoll == 1 && uplink.Some? && uplink.value in heap && uplink.value !in pings0
      ensures pings == if connQuiet && left + |pings0| > 0 then pings0 + {uplink.value} else pings0
      ensures n == (if npoll == 1 && left == 0 && pings == {} then 1 else 0) + (if connDead then 1 else 0)
    {
      pings := pings0;
      var pending := left + |pings|;
      if connQuiet && ((pending == 0 && npoll > 1) || pending > 0) {
        pings := pings + {uplink.value};
        pending := pending + 1;
      }
      assert pending == left + |pings|;
      n := 0;
      if npoll == 1 && pending == 0 { n := 1; }
      if connDead { n := n + 1; }
    }
  }

  /** Not yet failed with the entries outside `todo` visited */
  ghost predicate Spared(c: Conn, m: Monitor, todo: set<Ptr>, now: int, fail: int) {
    m.tracking.Some? && m.tracking.value in c.heap && m.tracking.value !in todo
    ==> !Late(c.heap[m.tracking.value], now, fail)
  }

  /** The tables with the entries outside `todo` visited */
  ghost predicate Scanned(c: Conn, v: Conn, todo: set<Ptr>, now: int, fail: int) {
    && (forall p :: p in v.heap <==> p in c.heap && (p in todo || !Late(c.heap[p], now, fail)))
    && (forall p :: p in v.heap ==> v.heap[p] == c.heap[p])
    && (forall id :: id in v.waiting <==> id in c.waiting && Spared(c, c.waiting[id], todo, now, fail))
    && (forall id :: id in v.waiting ==> v.waiting[id] == c.waiting[id])
    && c.done <= v.done && FailedFrom(v.done, |c.done|)
  }

  /** Entry `p` of `v` killed, its tasks failed */
  ghost predicate Killed(v: Conn, w: Conn, p: Ptr) {
    && w.heap == v.heap - {p}
    && (forall id :: id in w.waiting <==> id in v.waiting && v.waiting[id].tracking != Some(p))
    && (forall id :: id in w.waiting ==> w.waiting[id] == v.waiting[id])
    && v.done <= w.done && FailedFrom(w.done, |v.done|)
  }

  lemma ScanKill(c: Conn, v: Conn, w: Conn, todo: set<Ptr>, now: int, fail: int, p: Ptr)
    requires Scanned(c, v, todo, now, fail) && p in todo && p in v.heap && Late(v.heap[p], now, fail)
    requires Killed(v, w, p)
    ensures Scanned(c, w, todo - {p}, now, fail)
  {
    forall id | id in c.waiting
      ensures id in w.waiting <==> Spared(c, c.waiting[id], todo - {p}, now, fail)
    {
      assert id in v.waiting <==> Spared(c, c.waiting[id], todo, now, fail);
    }
  }

  lemma ScanSkip(c: Conn, v: Conn, todo: set<Ptr>, now: int, fail: int, p: Ptr)
    requires Scanned(c, v, todo, now, fail) && p in todo && p in v.heap && !Late(v.heap[p], now, fail)
    ensures Scanned(c, v, todo - {p}, now, fail)
  {
    forall id | id in c.waiting
      ensures id in v.waiting <==> Spared(c, c.waiting[id], todo - {p}, now, fail)
    {
      assert id in v.waiting <==> Spared(c, c.waiting[id], todo, now, fail);
    }
  }

  /** What the scan has noted with the entries outside `todo` visited */
  ghost predicate Noted(c: Conn, todo: set<Ptr>, npoll: int, now: int, fail: int, check: int, pings: set<Ptr>,
                        connDead: bool, connQuiet: bool) {
    && pings == Checked(c, npoll, now, fail, check) - todo
    && connDead == (UplinkLate(c, now, fail) && c.uplink.value !in todo)
    && connQuiet == (npoll == 1 && c.uplink.Some? && Quiet(c, c.uplink.value, now, fail, check) && c.uplink.value !in todo)
  }

  lemma ScanStart(c: Conn, npoll: int, now: int, fail: int, check: int)
    ensures Scanned(c, c, c.heap.Keys, now, fail)
    ensures Noted(c, c.heap.Keys, npoll, now, fail, check, {}, false, false)
  {
    assert Checked(c, npoll, now, fail, check) - c.heap.Keys == {};
  }

  lemma NoteVisit(c: Conn, todo: set<Ptr>, npoll: int, now: int, fail: int, check: int, pings: set<Ptr>,
                  connDead: bool, connQuiet: bool, p: Ptr)
    requires Noted(c, todo, npoll, now, fail, check, pings, connDead, connQuiet) && p in todo && p in c.heap
    ensures var dead, late := Late(c.heap[p], now, fail), Late(c.heap[p], now, check);
            var up := c.uplink == Some(p);
            Noted(c, todo - {p}, npoll, now, fail, check,
                  if !dead && late && !(npoll == 1 && up) then pings + {p} else pings,
                  connDead || (dead && up), connQuiet || (!dead && late && npoll == 1 && up))
  {
  }

  /** The tables with the waiting tasks outside `todo` checked for their timeout */
  ghost predicate Swept(c: Conn, v: Conn, todo: set<Id>, later: int) {
    && v.uplink == c.uplink && v.issued == c.issued && v.next == c.next
    && (forall id :: id in v.waiting <==> id in c.waiting && (id in todo || later <= c.waiting[id].timeout))
    && (forall id :: id in v.waiting ==> v.waiting[id] == c.waiting[id])
    && (forall p :: p in v.heap ==> p in c.heap && SameEntry(v.heap[p], c.heap[p]))
    && (c.uplink.Some? && c.uplink.value in c.heap ==> c.uplink.value in v.heap)
    && c.done <= v.done && FailedFrom(v.done, |c.done|)
  }

  ghost predicate SameEntry(a: Entry, b: Entry) { a.key == b.key && a.lutId == b.lutId && a.lastCheck == b.lastCheck }

  /** A task that leaves takes away at most its own entry, and never the uplink's. */
  lemma FinishHeap(v: Conn, id: Id)
    requires Inv(v) && id in v.waiting
    ensures var w := Finish(v, id, Failed);
            && (forall p :: p in w.heap ==> p in v.heap && SameEntry(w.heap[p], v.heap[p]))
            && (v.uplink.Some? && v.uplink.value in v.heap ==> v.uplink.value in w.heap)
  {
    if v.uplink.Some? && v.uplink.value in v.heap && v.waiting[id].tracking == v.uplink {
      assert CountOk(v, v.uplink.value);
      assert id in Trackers(v.waiting, v.uplink.value);
    }
  }

  lemma SweepExpired(c: Conn, v: Conn, w: Conn, todo: set<Id>, later: int, id: Id)
    requires Swept(c, v, todo, later) && id in v.waiting && id in todo && later > v.waiting[id].timeout
    requires w == v.(heap := w.heap, dest := w.dest, lut := w.lut, waiting := v.waiting - {id},
                     done := v.done + [Completion(id, v.waiting[id].task, Failed)])
    requires forall p :: p in w.heap ==> p in v.heap && SameEntry(w.heap[p], v.heap[p])
    requires v.uplink.Some? && v.uplink.value in v.heap ==> v.uplink.value in w.heap
    ensures Swept(c, w, todo - {id}, later)
  {
  }

  lemma SweepFinish(c: Conn, v: Conn, todo: set<Id>, later: int, id: Id)
    requires Inv(v) && Swept(c, v, todo, later) && id in v.waiting && id in todo && later > v.waiting[id].timeout
    ensures Swept(c, Finish(v, id, Failed), todo - {id}, later)
  {
    FinishHeap(v, id);
    SweepExpired(c, v, Finish(v, id, Failed), todo, later, id);
  }

  lemma OneLess(keys: set<Id>, todo: set<Id>, id: Id)
    requires id in keys && id in todo
    ensures |keys - (todo - {id})| == |keys - todo| + 1
    ensures |(keys - {id}) - (todo - {id})| == |keys - todo|
  {
    assert keys - (todo - {id}) == (keys - todo) + {id};
    assert (keys - {id}) - (todo - {id}) == keys - todo;
  }

  lemma SweepKept(c: Conn, v: Conn, todo: set<Id>, later: int, id: Id)
    requires Swept(c, v, todo, later) && id in v.waiting && id in todo && later <= v.waiting[id].timeout
    ensures Swept(c, v, todo - {id}, later)
  {
  }

  /** What one heartbeat pass does to the tables */
  ghost predicate Beaten(c: Conn, v: Conn, now: int, later: int, fail: int) {
    && (forall id :: id in v.waiting <==>
          id in c.waiting && Unharmed(c, c.waiting[id], now, fail) && later <= c.waiting[id].timeout)
    && (forall id :: id in v.waiting ==> v.waiting[id] == c.waiting[id])
    && (forall p :: p in v.heap ==> p in c.heap && !Late(c.heap[p], now, fail))
    && (forall p :: p in v.heap ==> SameEntry(v.heap[p], c.heap[p]))
    && c.done <= v.done && FailedFrom(v.done, |c.done|)
  }

  lemma Beat(c: Conn, v: Conn, w: Conn, now: int, later: int, fail: int)
    requires Scanned(c, v, {}, now, fail) && Swept(v, w, {}, later)
    ensures Beaten(c, w, now, later, fail)
  {
    forall id | id in c.waiting
      ensures id in v.waiting <==> Unharmed(c, c.waiting[id], now, fail)
    {
      assert id in v.waiting <==> Spared(c, c.waiting[id], {}, now, fail);
    }
  }

  lemma UplinkStays(c: Conn, v: Conn, w: Conn, npoll: int, now: int, later: int, fail: int, check: int,
                    pings: set<Ptr>, connDead: bool)
    requires Scanned(c, v, {}, now, fail) && Swept(v, w, {}, later) && v.uplink == c.uplink
    requires Noted(c, {}, npoll, now, fail, check, pings, connDead, true)
    ensures c.uplink.Some? && c.uplink.value in w.heap && c.uplink.value !in pings
  {
  }

  /** The destinations one pass pings: the quiet ones, but a connection that is winding down pings its
      uplink only while something else is pending. */
  function Pinged(c: Conn, npoll: int, now: int, fail: int, check: int, left: nat): (ps: set<Ptr>) {
    var ps := Checked(c, npoll, now, fail, check);
    if npoll == 1 && c.uplink.Some? && Quiet(c, c.uplink.value, now, fail, check) && left + |ps| > 0
    then ps + {c.uplink.value} else ps
  }

  /** After a heartbeat pass every entry that is left has been heard of within `fail`; one not heard of within
      `check` has been pinged, unless it is the uplink of a connection that winds down with nothing else
      pending. Nothing else has been pinged, and what still waits is within its timeout. */
  lemma NoneForgotten(c: Conn, v: Conn, npoll: int, now: int, later: int, fail: int, check: int, pings: set<Ptr>)
    requires Beaten(c, v, now, later, fail) && pings == Pinged(c, npoll, now, fail, check, |v.waiting|)
    ensures forall p :: p in v.heap ==> now - v.heap[p].lastCheck <= fail
    ensures forall p :: p in v.heap && now - v.heap[p].lastCheck > check && p !in pings ==>
              npoll == 1 && c.uplink == Some(p) && v.waiting == map[] && pings == {}
    ensures forall p :: p in pings ==> p in c.heap && check < now - c.heap[p].lastCheck <= fail
    ensures forall id :: id in v.waiting ==> v.waiting[id].timeout >= later
  {
    var ps := Checked(c, npoll, now, fail, check);
    assert forall p :: p in v.heap ==> SameEntry(v.heap[p], c.heap[p]);
    forall p | p in v.heap && now - v.heap[p].lastCheck > check && p !in pings
      ensures npoll == 1 && c.uplink == Some(p) && v.waiting == map[] && pings == {}
    {
      assert Quiet(c, p, now, fail, check) && p !in ps;
    }
  }
}
