/** With what outcome each task ends, and what each entry stands for, over every run of a connection. */
module MqConnFates {
  import opened MqConn

  // ---------------------------------------------------------------- how a task ends

  /** The outcome a step brings to task `id`, if any: the failure or success of sending it untracked, its
      response, the death of the destination it refers to, its timeout, or the end of the connection. */
  function Ends(c: Conn, e: Step, id: Id): (f: Option<Fate>) {
    match e
    case Task(x, _, _, tracked, sent) =>
      if x != id then None else if !sent then Some(Failed) else if !tracked then Some(Sent) else None
    case Response(x) => if x == id && id in c.waiting then Some(Responded) else None
    case Died(p, _) => if id in c.waiting && c.waiting[id].tracking == Some(p) then Some(Failed) else None
    case TimedOut(x) => if x == id then Some(Failed) else None
    case Teardown(_) => if id in c.waiting then Some(Failed) else None
    case _ => None
  }

  ghost predicate Given(done: seq<Completion>, id: Id, fate: Fate) { exists task :: Completion(id, task, fate) in done }

  lemma GivenSnoc(done: seq<Completion>, last: Completion, id: Id, fate: Fate)
    ensures Given(done + [last], id, fate) <==> Given(done, id, fate) || (last.id == id && last.fate == fate)
  {
    if Given(done, id, fate) {
      var task :| Completion(id, task, fate) in done;
      assert Completion(id, task, fate) in done + [last];
    }
    if last.id == id && last.fate == fate {
      assert last == Completion(id, last.task, fate) && last in done + [last];
    }
  }

  lemma {:induction false} FailAllGiven(c: Conn, ids: seq<Id>, id: Id, fate: Fate)
    requires Listed(c.waiting, ids)
    ensures Given(FailAll(c, ids).done, id, fate) <==> Given(c.done, id, fate) || (id in ids && fate == Failed)
    decreases |ids|
  {
    if ids != [] {
      GivenSnoc(c.done, Completion(ids[0], c.waiting[ids[0]].task, Failed), id, fate);
      FailAllGiven(Leave(c, ids[0], Failed), ids[1..], id, fate);
    }
  }

  /** A step gives a task just the outcome it should, and no other task one. */
  lemma StepGives(c: Conn, e: Step, id: Id, fate: Fate)
    requires Inv(c) && Enabled(c, e)
    ensures Given(Apply(c, e).done, id, fate) <==> Given(c.done, id, fate) || Ends(c, e, id) == Some(fate)
  {
    match e
    case Task(x, task, timeout, tracked, sent) =>
      GivenSnoc(c.done, Completion(x, task, if sent then Sent else Failed), id, fate);
    case Response(x) => if x in c.waiting { GivenSnoc(c.done, Completion(x, c.waiting[x].task, Responded), id, fate); }
    case TimedOut(x) => GivenSnoc(c.done, Completion(x, c.waiting[x].task, Failed), id, fate);
    case Died(p, ids) =>
      FailAllGiven(c, ids, id, fate);
      assert id in Trackers(c.waiting, p) <==> id in ids;
    case Teardown(ids) =>
      FailAllGiven(c.(heap := map[], dest := map[], lut := map[]), ids, id, fate);
      assert id in c.waiting.Keys <==> id in ids;
    case _ =>
  }

  /** In every run a task has been completed with an outcome exactly when one of the steps so far was of
      the kind that brings it. With `OneCompletion` there is but one. */
  lemma {:induction false} FateOverRuns(trace: seq<Conn>, steps: seq<Step>, n: nat, id: Id, fate: Fate)
    requires IsRun(trace, steps) && n < |trace|
    ensures Given(trace[n].done, id, fate) <==> exists i :: 0 <= i < n && Ends(trace[i], steps[i], id) == Some(fate)
    decreases n
  {
    if n > 0 {
      FateOverRuns(trace, steps, n - 1, id, fate);
      RunKeeps(trace, steps, n - 1);
      assert Follows(trace[n - 1], steps[n - 1], trace[n]);
      StepGives(trace[n - 1], steps[n - 1], id, fate);
    }
  }

  /** In every run the tasks taken are those of the steps so far. */
  lemma {:induction false} TakenOverRuns(trace: seq<Conn>, steps: seq<Step>, n: nat, id: Id)
    requires IsRun(trace, steps) && n < |trace|
    ensures id in trace[n].issued <==> exists i :: 0 <= i < n && steps[i].Task? && steps[i].id == id
    ensures forall i :: 0 <= i < n && steps[i].Task? && steps[i].id == id ==> trace[n].issued[id] == steps[i].task
    decreases n
  {
    if n > 0 {
      TakenOverRuns(trace, steps, n - 1, id);
      RunKeeps(trace, steps, n - 1);
      assert Follows(trace[n - 1], steps[n - 1], trace[n]);
      StepTakes(trace[n - 1], steps[n - 1]);
    }
  }

  lemma StepTakes(c: Conn, e: Step)
    requires Inv(c) && Enabled(c, e)
    ensures Apply(c, e).issued == if e.Task? then c.issued[e.id := e.task] else c.issued
  {
    match e
    case Died(p, ids) => FailAllFrame(c, ids);
    case Teardown(ids) => FailAllFrame(c.(heap := map[], dest := map[], lut := map[]), ids);
    case _ =>
  }

  // ---------------------------------------------------------------- what a waiting task is

  /** A step takes a task out of `waiting` exactly when it ends it, and changes nothing about it but to
      attach it to the first address it is told. */
  lemma StepWaits(c: Conn, e: Step, id: Id)
    requires Inv(c) && Enabled(c, e)
    ensures var r := Apply(c, e);
            if id in c.waiting && Ends(c, e, id).None? then
              && id in r.waiting && r.waiting[id].task == c.waiting[id].task && r.waiting[id].timeout == c.waiting[id].timeout
              && (if c.waiting[id].tracking.None? && e.Address? && e.id == id
                  then e.key in r.dest && r.waiting[id].tracking == Some(r.dest[e.key])
                  else r.waiting[id].tracking == c.waiting[id].tracking)
            else if e.Task? && e.id == id && e.tracked && e.sent then
              id in r.waiting && r.waiting[id] == Monitor(e.task, e.timeout, None)
            else id !in r.waiting
  {
    assert FateOk(c, id);
    match e
    case Died(p, ids) =>
      FailAllFrame(c, ids);
      assert id in Trackers(c.waiting, p) <==> id in ids;
    case Teardown(ids) =>
      FailAllFrame(c.(heap := map[], dest := map[], lut := map[]), ids);
      assert id in c.waiting.Keys <==> id in ids;
    case _ =>
  }

  /** In every run a waiting task was sent tracked, waits with the timeout it came with, and nothing has
      ended it since. */
  lemma {:induction false} WaitingSince(trace: seq<Conn>, steps: seq<Step>, n: nat, id: Id) returns (i: nat)
    requires IsRun(trace, steps) && n < |trace| && id in trace[n].waiting
    ensures i < n && steps[i] == Task(id, trace[n].waiting[id].task, trace[n].waiting[id].timeout, true, true)
    ensures forall j :: i <= j < n ==> Ends(trace[j], steps[j], id).None?
    decreases n
  {
    assert n > 0;
    RunKeeps(trace, steps, n - 1);
    assert Follows(trace[n - 1], steps[n - 1], trace[n]);
    StepWaits(trace[n - 1], steps[n - 1], id);
    if id in trace[n - 1].waiting && Ends(trace[n - 1], steps[n - 1], id).None? {
      i := WaitingSince(trace, steps, n - 1, id);
    } else {
      i := n - 1;
    }
  }

  // ---------------------------------------------------------------- what an entry stands for

  /** An entry after a step: one that was there keeps its address and id, and is heard of by an answer with that
      id; one that was not is for a new address. */
  ghost predicate EntryFollows(c: Conn, e: Step, r: Conn, p: Ptr)
    requires p in r.heap
  {
    var entry := r.heap[p];
    if p in c.heap then
      && entry.key == c.heap[p].key && entry.lutId == c.heap[p].lutId
      && entry.lastCheck == if e.PongFrom? && e.lutId == c.heap[p].lutId then e.now else c.heap[p].lastCheck
    else
      e.Address? && e.key !in c.dest && entry.key == e.key && entry.lutId == e.lutId && entry.lastCheck == e.now
  }

  lemma PongEntries(c: Conn, lutId: nat, now: int, p: Ptr)
    requires Inv(c) && p in Pong(c, lutId, now).heap
    ensures EntryFollows(c, PongFrom(lutId, now), Pong(c, lutId, now), p)
  {
    PongKeeps(c, lutId, now);
  }

  lemma AddressEntries(c: Conn, id: Id, key: string, lutId: nat, now: int, p: Ptr)
    requires Inv(c) && lutId !in c.lut && p in TrackAddress(c, id, key, lutId, now).heap
    ensures EntryFollows(c, Address(id, key, lutId, now), TrackAddress(c, id, key, lutId, now), p)
  {
    if p in c.heap { assert InTables(c, p); }
  }

  lemma StepEntries(c: Conn, e: Step, p: Ptr)
    requires Inv(c) && Enabled(c, e) && p in Apply(c, e).heap
    ensures EntryFollows(c, e, Apply(c, e), p)
  {
    match e
    case Died(q, ids) => FailAllFrame(c, ids);
    case Teardown(ids) => FailAllFrame(c.(heap := map[], dest := map[], lut := map[]), ids);
    case PongFrom(lutId, now) => PongEntries(c, lutId, now, p);
    case Address(id, key, lutId, now) => AddressEntries(c, id, key, lutId, now, p);
    case _ =>
  }

  ghost predicate NoPongSince(steps: seq<Step>, i: int, n: nat, lutId: nat)
    requires 0 <= i && n <= |steps|
  {
    forall j :: i <= j < n ==> !(steps[j].PongFrom? && steps[j].lutId == lutId)
  }

  /** Step `i` is when entry `p` was last heard of: the last answer with its id, or its making. */
  ghost predicate HeardAt(steps: seq<Step>, i: nat, n: nat, entry: Entry)
    requires i < n <= |steps|
  {
    && (steps[i] == PongFrom(entry.lutId, entry.lastCheck) ||
        (steps[i].Address? && steps[i].key == entry.key && steps[i].lutId == entry.lutId && steps[i].now == entry.lastCheck))
    && NoPongSince(steps, i + 1, n, entry.lutId)
  }

  /** In every run an entry's time is that of the last answer with its id, or that of its making. */
  lemma {:induction false} LastHeard(trace: seq<Conn>, steps: seq<Step>, n: nat, p: Ptr)
    requires IsRun(trace, steps) && n < |trace| && p in trace[n].heap
    ensures (exists i :: 0 <= i < n && HeardAt(steps, i, n, trace[n].heap[p])) ||
            (p in trace[0].heap && trace[n].heap[p].lastCheck == trace[0].heap[p].lastCheck && NoPongSince(steps, 0, n, trace[n].heap[p].lutId))
    decreases n
  {
    if n > 0 {
      var m, e := n - 1, steps[n - 1];
      RunKeeps(trace, steps, m);
      assert Follows(trace[m], e, trace[n]);
      StepEntries(trace[m], e, p);
      if p !in trace[m].heap || (e.PongFrom? && e.lutId == trace[n].heap[p].lutId) {
        assert HeardAt(steps, m, n, trace[n].heap[p]);
      } else {
        LastHeard(trace, steps, m, p);
        StillHeard(steps, m, n, trace[m].heap[p], trace[n].heap[p]);
      }
    }
  }

  lemma StillHeard(steps: seq<Step>, m: nat, n: nat, was: Entry, now: Entry)
    requires m + 1 == n <= |steps| && now.key == was.key && now.lutId == was.lutId && now.lastCheck == was.lastCheck
    requires !(steps[m].PongFrom? && steps[m].lutId == now.lutId)
    ensures (exists i :: 0 <= i < m && HeardAt(steps, i, m, was)) ==> exists i :: 0 <= i < n && HeardAt(steps, i, n, now)
    ensures NoPongSince(steps, 0, m, was.lutId) ==> NoPongSince(steps, 0, n, now.lutId)
  {
    if exists i :: 0 <= i < m && HeardAt(steps, i, m, was) {
      var i :| 0 <= i < m && HeardAt(steps, i, m, was);
      assert HeardAt(steps, i, n, now);
    }
  }
}
