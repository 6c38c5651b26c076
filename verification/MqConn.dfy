/** The tables of one message-queue connection (mq_portal.c).

    A tracked task waits for its response in `waiting`. When its destination answers with a tracking
    address, it refers to a heartbeat entry for that address. Entries are reference counted and
    found through two tables, by address and by lookup id. */
module MqConn {

  datatype Option<T> = None | Some(value: T)

  type Ptr = nat
  type Id = nat

  /** `gop_mq_heartbeat_entry_t` */
  datatype Entry = Entry(key: string, lutId: nat, count: int, lastCheck: int)

  /** `gop_mq_task_monitor_t`, with the absolute timeout of its task */
  datatype Monitor = Monitor(task: nat, timeout: int, tracking: Option<Ptr>)

  datatype Fate = Sent | Responded | Failed

  datatype Completion = Completion(id: Id, task: nat, fate: Fate)

  /** `heap` holds the live entries by their pointer; `issued` and `done` record the tasks taken and
      the completions they were given. */
  datatype Conn = Conn(
    heap: map<Ptr, Entry>,
    dest: map<string, Ptr>,
    lut: map<nat, Ptr>,
    waiting: map<Id, Monitor>,
    uplink: Option<Ptr>,
    next: Ptr,
    issued: map<Id, nat>,
    done: seq<Completion>)

  // ---------------------------------------------------------------- operations

  /** Taking a heartbeat entry out of both tables and freeing it */
  function Drop(c: Conn, p: Ptr): (r: Conn)
    requires p in c.heap
  {
    c.(heap := c.heap - {p}, dest := c.dest - {c.heap[p].key}, lut := c.lut - {c.heap[p].lutId})
  }

  /** `mqc_heartbeat_dec` */
  function Dec(c: Conn, p: Ptr): (r: Conn)
    requires p in c.heap
  {
    var n := c.heap[p].count - 1;
    if n <= 0 then Drop(c, p) else c.(heap := c.heap[p := c.heap[p].(count := n)])
  }

  /** Taking a task out of `waiting` and completing it */
  function Leave(c: Conn, id: Id, fate: Fate): (r: Conn)
    requires id in c.waiting
  {
    c.(waiting := c.waiting - {id}, done := c.done + [Completion(id, c.waiting[id].task, fate)])
  }

  /** A task leaves and gives up its reference: a response, or a timeout in the heartbeat pass. */
  function Finish(c: Conn, id: Id, fate: Fate): (r: Conn)
    requires id in c.waiting && (c.waiting[id].tracking.Some? ==> c.waiting[id].tracking.value in c.heap)
  {
    var tracking := c.waiting[id].tracking;
    Leave(if tracking.Some? then Dec(c, tracking.value) else c, id, fate)
  }

  /** `mqc_process_task`, for one well-formed task */
  function Process(c: Conn, id: Id, task: nat, timeout: int, tracked: bool, sent: bool): (r: Conn) {
    var c' := c.(issued := c.issued[id := task]);
    if !sent then c'.(done := c.done + [Completion(id, task, Failed)])
    else if !tracked then c'.(done := c.done + [Completion(id, task, Sent)])
    else c'.(waiting := c.waiting[id := Monitor(task, timeout, None)])
  }

  /** `mqc_response` */
  function Respond(c: Conn, id: Id): (r: Conn)
    requires id in c.waiting && c.waiting[id].tracking.Some? ==> c.waiting[id].tracking.value in c.heap
  {
    if id !in c.waiting then c else Finish(c, id, Responded)
  }

  /** `mqc_trackaddress`. A new entry takes `lutId` from the global counter. */
  function TrackAddress(c: Conn, id: Id, key: string, lutId: nat, now: int): (r: Conn)
    requires key in c.dest ==> c.dest[key] in c.heap
  {
    if id !in c.waiting || c.waiting[id].tracking.Some? then c
    else if key in c.dest then
      var p := c.dest[key];
      c.(waiting := c.waiting[id := c.waiting[id].(tracking := Some(p))],
         heap := c.heap[p := c.heap[p].(count := c.heap[p].count + 1)])
    else
      c.(waiting := c.waiting[id := c.waiting[id].(tracking := Some(c.next))],
         heap := c.heap[c.next := Entry(key, lutId, 1, now)],
         dest := c.dest[key := c.next],
         lut := c.lut[lutId := c.next],
         next := c.next + 1)
  }

  /** `mqc_pong` */
  function Pong(c: Conn, lutId: nat, now: int): (r: Conn)
    requires lutId in c.lut ==> c.lut[lutId] in c.heap
  {
    if lutId !in c.lut then c
    else var p := c.lut[lutId]; c.(heap := c.heap[p := c.heap[p].(lastCheck := now)])
  }

  /** The waiting tasks that refer to an entry */
  function Trackers(waiting: map<Id, Monitor>, p: Ptr): (ids: set<Id>) {
    set id | id in waiting && waiting[id].tracking == Some(p)
  }

  /** Failing a list of waiting tasks without touching the reference counts */
  function FailAll(c: Conn, ids: seq<Id>): (r: Conn)
    requires Listed(c.waiting, ids)
    decreases |ids|
  {
    if ids == [] then c else FailAll(Leave(c, ids[0], Failed), ids[1..])
  }

  /** `ids` names waiting tasks, none of them twice. */
  ghost predicate Listed(waiting: map<Id, Monitor>, ids: seq<Id>) {
    (forall i :: 0 <= i < |ids| ==> ids[i] in waiting) && (forall i, j :: 0 <= i < j < |ids| ==> ids[i] != ids[j])
  }

  ghost predicate Lists(ids: seq<Id>, all: set<Id>) {
    forall id :: id in all <==> id in ids
  }

  /** The heartbeat pass finding a destination dead: its tasks fail, in the order of the hash table. */
  function Dead(c: Conn, p: Ptr, ids: seq<Id>): (r: Conn)
    requires p in c.heap && Listed(c.waiting, ids)
    ensures r.dest == c.dest - {c.heap[p].key} && r.lut == c.lut - {c.heap[p].lutId}
  {
    FailAllFrame(c, ids);
    Drop(FailAll(c, ids), p)
  }

  /** `mqc_heartbeat_cleanup` */
  function Cleanup(c: Conn, ids: seq<Id>): (r: Conn)
    requires Listed(c.waiting, ids)
  {
    FailAll(c.(heap := map[], dest := map[], lut := map[]), ids)
  }

  /** The tables of a new connection: a client pings its uplink, a server starts empty. */
  function Server(): (c: Conn) { Conn(map[], map[], map[], map[], None, 0, map[], []) }

  function Client(host: string, lutId: nat, now: int): (c: Conn) {
    Conn(map[0 := Entry(host, lutId, 1, now)], map[host := 0], map[lutId := 0], map[], Some(0), 1, map[], [])
  }

  // ---------------------------------------------------------------- the invariant

  /** The two tables and the live entries are one and the same set. */
  ghost predicate Agree(c: Conn) {
    && (forall k :: k in c.dest ==> c.dest[k] in c.heap && c.heap[c.dest[k]].key == k)
    && (forall l :: l in c.lut ==> c.lut[l] in c.heap && c.heap[c.lut[l]].lutId == l)
    && (forall p {:trigger InTables(c, p)} :: p in c.heap ==> InTables(c, p))
  }

  ghost predicate InTables(c: Conn, p: Ptr)
    requires p in c.heap
  {
    && p < c.next
    && c.heap[p].key in c.dest && c.dest[c.heap[p].key] == p
    && c.heap[p].lutId in c.lut && c.lut[c.heap[p].lutId] == p
  }

  ghost predicate NoDangling(c: Conn) {
    && (forall id :: id in c.waiting && c.waiting[id].tracking.Some? ==> c.waiting[id].tracking.value in c.heap)
    && (c.uplink.Some? ==> c.uplink.value < c.next)
  }

  function UplinkRef(c: Conn, p: Ptr): (n: nat) { if c.uplink == Some(p) then 1 else 0 }

  ghost predicate CountOk(c: Conn, p: Ptr)
    requires p in c.heap
  {
    c.heap[p].count == |Trackers(c.waiting, p)| + UplinkRef(c, p) && c.heap[p].count >= 1
  }

  ghost predicate Counted(c: Conn) { forall p {:trigger CountOk(c, p)} :: p in c.heap ==> CountOk(c, p) }

  function Times(done: seq<Completion>, id: Id): (n: nat) {
    if done == [] then 0 else Times(done[..|done| - 1], id) + (if done[|done| - 1].id == id then 1 else 0)
  }

  ghost predicate FateOk(c: Conn, id: Id) {
    && (if id in c.waiting then 1 else 0) + Times(c.done, id) == (if id in c.issued then 1 else 0)
    && (id in c.waiting && id in c.issued ==> c.waiting[id].task == c.issued[id])
  }

  /** Every task taken is waiting or has been completed once; a completion names what it is for. */
  ghost predicate Fates(c: Conn) {
    && (forall id :: FateOk(c, id))
    && (forall i :: 0 <= i < |c.done| ==> c.done[i].id in c.issued && c.issued[c.done[i].id] == c.done[i].task)
  }

  ghost predicate Inv(c: Conn) { Agree(c) && NoDangling(c) && Counted(c) && Fates(c) }

  // ---------------------------------------------------------------- what each operation keeps

  lemma DropAgrees(c: Conn, p: Ptr)
    requires Agree(c) && p in c.heap
    ensures Agree(Drop(c, p))
  {
    var r := Drop(c, p);
    assert InTables(c, p);
    forall q | q in r.heap
      ensures InTables(r, q)
    {
      assert InTables(c, q);
    }
  }

  lemma LeaveFates(c: Conn, id: Id, fate: Fate)
    requires Fates(c) && id in c.waiting
    ensures Fates(Leave(c, id, fate))
  {
    var r := Leave(c, id, fate);
    assert FateOk(c, id);
    assert r.done[..|r.done| - 1] == c.done;
    forall x
      ensures FateOk(r, x)
    {
      assert FateOk(c, x);
    }
  }

  lemma TrackersLess(waiting: map<Id, Monitor>, id: Id, p: Ptr)
    requires id in waiting
    ensures |Trackers(waiting - {id}, p)| == |Trackers(waiting, p)| - (if waiting[id].tracking == Some(p) then 1 else 0)
  {
    assert Trackers(waiting - {id}, p) == Trackers(waiting, p) - {id};
  }

  lemma TrackersMore(waiting: map<Id, Monitor>, id: Id, m: Monitor, p: Ptr)
    requires id in waiting ==> waiting[id].tracking == None
    ensures |Trackers(waiting[id := m], p)| == |Trackers(waiting, p)| + (if m.tracking == Some(p) then 1 else 0)
  {
    if m.tracking == Some(p) {
      assert Trackers(waiting[id := m], p) == Trackers(waiting, p) + {id};
    } else {
      assert Trackers(waiting[id := m], p) == Trackers(waiting, p);
    }
  }

  lemma DecAgrees(c: Conn, p: Ptr)
    requires Agree(c) && p in c.heap
    ensures Agree(Dec(c, p))
  {
    if c.heap[p].count <= 1 {
      DropAgrees(c, p);
    } else {
      var r := Dec(c, p);
      forall q | q in r.heap
        ensures InTables(r, q)
      {
        assert InTables(c, q);
      }
    }
  }

  lemma FinishCounts(c: Conn, id: Id, fate: Fate)
    requires Inv(c) && id in c.waiting
    ensures Counted(Finish(c, id, fate))
  {
    var r := Finish(c, id, fate);
    forall q | q in r.heap
      ensures CountOk(r, q)
    {
      assert CountOk(c, q);
      TrackersLess(c.waiting, id, q);
    }
  }

  /** An entry is freed only when nothing refers to it any more. */
  lemma FinishNoDangling(c: Conn, id: Id, fate: Fate)
    requires Inv(c) && id in c.waiting
    ensures NoDangling(Finish(c, id, fate))
  {
    var r := Finish(c, id, fate);
    var tracking := c.waiting[id].tracking;
    forall x | x in r.waiting && r.waiting[x].tracking.Some?
      ensures r.waiting[x].tracking.value in r.heap
    {
      if r.waiting[x].tracking == tracking {
        var p := tracking.value;
        assert CountOk(c, p);
        assert {x, id} <= Trackers(c.waiting, p);
        SubsetSize({x, id}, Trackers(c.waiting, p));
      }
    }
  }

  lemma {:induction false} SubsetSize<T>(a: set<T>, b: set<T>)
    requires a <= b
    ensures |a| <= |b|
  {
    if a != {} {
      var x :| x in a;
      SubsetSize(a - {x}, b - {x});
    }
  }

  lemma FinishKeeps(c: Conn, id: Id, fate: Fate)
    requires Inv(c) && id in c.waiting
    ensures Inv(Finish(c, id, fate))
  {
    FinishCounts(c, id, fate);
    FinishNoDangling(c, id, fate);
    var tracking := c.waiting[id].tracking;
    if tracking.Some? { DecAgrees(c, tracking.value); }
    var mid := if tracking.Some? then Dec(c, tracking.value) else c;
    assert Fates(mid) by {
      forall x
        ensures FateOk(mid, x)
      {
        assert FateOk(c, x);
      }
    }
    LeaveFates(mid, id, fate);
    var r := Finish(c, id, fate);
    forall q | q in r.heap
      ensures InTables(r, q)
    {
      assert InTables(mid, q);
    }
  }

  lemma RespondKeeps(c: Conn, id: Id)
    requires Inv(c)
    ensures Inv(Respond(c, id))
  {
    if id in c.waiting { FinishKeeps(c, id, Responded); }
  }

  lemma ProcessFates(c: Conn, id: Id, task: nat, timeout: int, tracked: bool, sent: bool)
    requires Fates(c) && id !in c.issued
    ensures Fates(Process(c, id, task, timeout, tracked, sent))
  {
    var r := Process(c, id, task, timeout, tracked, sent);
    assert FateOk(c, id);
    assert r.done != c.done ==> r.done[..|r.done| - 1] == c.done;
    forall x
      ensures FateOk(r, x)
    {
      assert FateOk(c, x);
    }
  }

  lemma ProcessKeeps(c: Conn, id: Id, task: nat, timeout: int, tracked: bool, sent: bool)
    requires Inv(c) && id !in c.issued
    ensures Inv(Process(c, id, task, timeout, tracked, sent))
    ensures id in Process(c, id, task, timeout, tracked, sent).waiting <==> tracked && sent
  {
    var r := Process(c, id, task, timeout, tracked, sent);
    assert FateOk(c, id);
    ProcessFates(c, id, task, timeout, tracked, sent);
    forall q | q in r.heap
      ensures InTables(r, q) && CountOk(r, q)
    {
      assert InTables(c, q) && CountOk(c, q);
      TrackersMore(c.waiting, id, Monitor(task, timeout, None), q);
    }
    assert Agree(r) && Counted(r) && NoDangling(r);
  }

  lemma TrackAddressKeeps(c: Conn, id: Id, key: string, lutId: nat, now: int)
    requires Inv(c) && lutId !in c.lut
    ensures Inv(TrackAddress(c, id, key, lutId, now))
    ensures var r := TrackAddress(c, id, key, lutId, now);
            if id in c.waiting && c.waiting[id].tracking.None?
            then key in r.dest && r.waiting[id].tracking == Some(r.dest[key]) else r == c
  {
    var r := TrackAddress(c, id, key, lutId, now);
    if id in c.waiting && c.waiting[id].tracking.None? {
      TrackAddressAgrees(c, id, key, lutId, now);
      TrackAddressCounts(c, id, key, lutId, now);
      forall x
        ensures FateOk(r, x)
      {
        assert FateOk(c, x);
      }
    }
  }

  lemma TrackAddressAgrees(c: Conn, id: Id, key: string, lutId: nat, now: int)
    requires Agree(c) && lutId !in c.lut && id in c.waiting && c.waiting[id].tracking.None?
    ensures Agree(TrackAddress(c, id, key, lutId, now))
  {
    var r := TrackAddress(c, id, key, lutId, now);
    forall q | q in r.heap
      ensures InTables(r, q)
    {
      if q in c.heap { assert InTables(c, q); }
    }
    if key !in c.dest {
      forall p | p in c.heap
        ensures p != c.next
      {
        assert InTables(c, p);
      }
    }
  }

  lemma TrackAddressCounts(c: Conn, id: Id, key: string, lutId: nat, now: int)
    requires Inv(c) && lutId !in c.lut && id in c.waiting && c.waiting[id].tracking.None?
    ensures var r := TrackAddress(c, id, key, lutId, now); Counted(r) && NoDangling(r)
  {
    var r := TrackAddress(c, id, key, lutId, now);
    forall q | q in r.heap
      ensures CountOk(r, q)
    {
      TrackersMore(c.waiting, id, r.waiting[id], q);
      if q in c.heap {
        assert InTables(c, q) && CountOk(c, q);
      } else {
        NoneTrackNew(c, q);
      }
    }
  }

  lemma NoneTrackNew(c: Conn, q: Ptr)
    requires Inv(c) && q !in c.heap
    ensures Trackers(c.waiting, q) == {}
  {
  }

  lemma PongKeeps(c: Conn, lutId: nat, now: int)
    requires Inv(c)
    ensures Inv(Pong(c, lutId, now))
    ensures forall p :: p in c.heap ==>
              Pong(c, lutId, now).heap[p] == if c.heap[p].lutId == lutId then c.heap[p].(lastCheck := now) else c.heap[p]
  {
    var r := Pong(c, lutId, now);
    forall x
      ensures FateOk(r, x)
    {
      assert FateOk(c, x);
    }
    forall q | q in r.heap
      ensures InTables(r, q) && CountOk(r, q)
    {
      assert InTables(c, q) && CountOk(c, q);
    }
  }

  lemma {:induction false} FailAllFrame(c: Conn, ids: seq<Id>)
    requires Listed(c.waiting, ids)
    ensures var r := FailAll(c, ids);
            && r == c.(waiting := r.waiting, done := r.done)
            && (forall id :: id in r.waiting <==> id in c.waiting && id !in ids)
            && (forall id :: id in r.waiting ==> r.waiting[id] == c.waiting[id])
    decreases |ids|
  {
    if ids != [] { FailAllFrame(Leave(c, ids[0], Failed), ids[1..]); }
  }

  lemma {:induction false} FailAllFates(c: Conn, ids: seq<Id>)
    requires Fates(c) && Listed(c.waiting, ids)
    ensures Fates(FailAll(c, ids))
    decreases |ids|
  {
    if ids != [] {
      LeaveFates(c, ids[0], Failed);
      FailAllFates(Leave(c, ids[0], Failed), ids[1..]);
    }
  }

  lemma DeadKeeps(c: Conn, p: Ptr, ids: seq<Id>)
    requires Inv(c) && p in c.heap && Listed(c.waiting, ids) && Lists(ids, Trackers(c.waiting, p))
    ensures Inv(Dead(c, p, ids)) && Dead(c, p, ids).heap == c.heap - {p}
    ensures forall id :: id in Dead(c, p, ids).waiting <==> id in c.waiting && c.waiting[id].tracking != Some(p)
  {
    var mid, r := FailAll(c, ids), Dead(c, p, ids);
    FailAllFrame(c, ids);
    FailAllFates(c, ids);
    forall q | q in mid.heap
      ensures InTables(mid, q)
    {
      assert InTables(c, q);
    }
    DropAgrees(mid, p);
    forall x
      ensures FateOk(r, x)
    {
      assert FateOk(mid, x);
    }
    forall q | q in r.heap
      ensures CountOk(r, q)
    {
      assert CountOk(c, q);
      assert Trackers(r.waiting, q) == Trackers(c.waiting, q);
    }
    forall x | x in r.waiting && r.waiting[x].tracking.Some?
      ensures r.waiting[x].tracking.value in r.heap
    {
      assert x in Trackers(c.waiting, p) <==> x in ids;
    }
  }

  /** After teardown nothing waits, both tables are empty and every task taken was completed once. */
  lemma CleanupKeeps(c: Conn, ids: seq<Id>)
    requires Inv(c) && Listed(c.waiting, ids) && Lists(ids, c.waiting.Keys)
    ensures var r := Cleanup(c, ids);
            && Inv(r) && r.waiting == map[] && r.heap == map[] && r.dest == map[] && r.lut == map[]
            && forall id :: id in c.issued ==> Times(r.done, id) == 1
  {
    var mid, r := c.(heap := map[], dest := map[], lut := map[]), Cleanup(c, ids);
    FailAllFrame(mid, ids);
    forall x
      ensures FateOk(mid, x)
    {
      assert FateOk(c, x);
    }
    FailAllFates(mid, ids);
    forall id | id in c.issued
      ensures Times(r.done, id) == 1
    {
      assert FateOk(r, id);
    }
  }

  // ---------------------------------------------------------------- every run

  datatype Step =
    | Task(id: Id, task: nat, timeout: int, tracked: bool, sent: bool)
    | Response(id: Id)
    | Address(id: Id, key: string, lutId: nat, now: int)
    | PongFrom(lutId: nat, now: int)
    | Died(p: Ptr, ids: seq<Id>)
    | TimedOut(id: Id)
    | Teardown(ids: seq<Id>)

  ghost predicate Enabled(c: Conn, e: Step) {
    match e
    case Task(id, _, _, _, _) => id !in c.issued
    case Response(id) => true
    case Address(_, _, lutId, _) => lutId !in c.lut
    case PongFrom(_, _) => true
    case Died(p, ids) => p in c.heap && Listed(c.waiting, ids) && Lists(ids, Trackers(c.waiting, p))
    case TimedOut(id) => id in c.waiting
    case Teardown(ids) => Listed(c.waiting, ids) && Lists(ids, c.waiting.Keys)
  }

  ghost function Apply(c: Conn, e: Step): (r: Conn)
    requires Agree(c) && NoDangling(c) && Enabled(c, e)
  {
    match e
    case Task(id, task, timeout, tracked, sent) => Process(c, id, task, timeout, tracked, sent)
    case Response(id) => Respond(c, id)
    case Address(id, key, lutId, now) => TrackAddress(c, id, key, lutId, now)
    case PongFrom(lutId, now) => Pong(c, lutId, now)
    case Died(p, ids) => Dead(c, p, ids)
    case TimedOut(id) => Finish(c, id, Failed)
    case Teardown(ids) => Cleanup(c, ids)
  }

  lemma StepKeeps(c: Conn, e: Step)
    requires Inv(c) && Enabled(c, e)
    ensures Inv(Apply(c, e))
  {
    match e
    case Task(id, task, timeout, tracked, sent) => ProcessKeeps(c, id, task, timeout, tracked, sent);
    case Response(id) => RespondKeeps(c, id);
    case Address(id, key, lutId, now) => TrackAddressKeeps(c, id, key, lutId, now);
    case PongFrom(lutId, now) => PongKeeps(c, lutId, now);
    case Died(p, ids) => DeadKeeps(c, p, ids);
    case TimedOut(id) => FinishKeeps(c, id, Failed);
    case Teardown(ids) => CleanupKeeps(c, ids);
  }

  /** `trace` is a run: each state follows from the one before by an enabled step. */
  ghost predicate IsRun(trace: seq<Conn>, steps: seq<Step>) {
    && |trace| == |steps| + 1
    && (trace[0] == Server() || exists host, lutId, now :: trace[0] == Client(host, lutId, now))
    && forall i :: 0 <= i < |steps| ==> Follows(trace[i], steps[i], trace[i + 1])
  }

  ghost predicate Follows(c: Conn, e: Step, r: Conn) {
    Agree(c) && NoDangling(c) && Enabled(c, e) && r == Apply(c, e)
  }

  lemma InitHolds(host: string, lutId: nat, now: int)
    ensures Inv(Server()) && Inv(Client(host, lutId, now))
  {
    var c := Client(host, lutId, now);
    assert InTables(c, 0);
    assert Trackers(c.waiting, 0) == {};
    assert CountOk(c, 0);
    assert forall id :: FateOk(c, id) && FateOk(Server(), id);
  }

  lemma {:induction false} RunKeeps(trace: seq<Conn>, steps: seq<Step>, i: nat)
    requires IsRun(trace, steps) && i < |trace|
    ensures Inv(trace[i])
    decreases i
  {
    if i == 0 {
      InitHolds("", 0, 0);
      if host, lutId, now :| trace[0] == Client(host, lutId, now) {
        InitHolds(host, lutId, now);
      }
    } else {
      RunKeeps(trace, steps, i - 1);
      assert Follows(trace[i - 1], steps[i - 1], trace[i]);
      StepKeeps(trace[i - 1], steps[i - 1]);
    }
  }

  /** In every reachable state the two tables hold the same entries, and an entry's count is the number
      of waiting tasks that refer to it plus one for a live uplink. */
  lemma TablesOverRuns(trace: seq<Conn>, steps: seq<Step>, i: nat)
    requires IsRun(trace, steps) && i < |trace|
    ensures var c := trace[i];
            && c.dest.Values == c.lut.Values == c.heap.Keys
            && (forall p :: p in c.heap ==> c.heap[p].count == |Trackers(c.waiting, p)| + UplinkRef(c, p))
            && (forall id :: id in c.waiting && c.waiting[id].tracking.Some? ==> c.waiting[id].tracking.value in c.heap)
  {
    RunKeeps(trace, steps, i);
    var c := trace[i];
    forall p | p in c.heap
      ensures p in c.dest.Values && p in c.lut.Values && CountOk(c, p)
    {
      assert InTables(c, p) && CountOk(c, p);
    }
  }

  /** An entry lives exactly as long as something refers to it. */
  lemma EntryLivesIffUsed(trace: seq<Conn>, steps: seq<Step>, i: nat, p: Ptr)
    requires IsRun(trace, steps) && i < |trace| && trace[i].uplink != Some(p)
    ensures p in trace[i].heap <==> exists id :: id in Trackers(trace[i].waiting, p)
  {
    RunKeeps(trace, steps, i);
    var c := trace[i];
    if p in c.heap {
      assert CountOk(c, p);
      assert Trackers(c.waiting, p) != {};
    }
  }

  /** Every task taken is, in every reachable state, either still waiting or completed exactly once. */
  lemma OneCompletion(trace: seq<Conn>, steps: seq<Step>, i: nat, id: Id)
    requires IsRun(trace, steps) && i < |trace| && id in trace[i].issued
    ensures var c := trace[i];
            if id in c.waiting then Times(c.done, id) == 0 && c.waiting[id].task == c.issued[id]
            else Times(c.done, id) == 1
  {
    RunKeeps(trace, steps, i);
    assert FateOk(trace[i], id);
  }

  /** A second response with the same id, or one after a timeout, changes nothing. */
  lemma LateResponseIgnored(c: Conn, id: Id, fate: Fate)
    requires Inv(c) && id in c.waiting
    ensures Respond(Finish(c, id, fate), id) == Finish(c, id, fate)
  {
  }
}
