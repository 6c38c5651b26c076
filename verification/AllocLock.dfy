/** The depot's allocation locks and the size updates made under them (lock_alloc.c, handle_commands.c).

    Allocations share a table of mutexes by the low byte of their id. Any number of threads lock one or
    two allocations, and those that have written to one then bring its stored size up to date. */
module AllocLock {

  const LOCK_MAX: nat := 256

  /** `id_slot`: the low eight bits */
  function Slot(id: nat): (s: nat)
    ensures s < 256 && (id - s) % 256 == 0
  {
    id % LOCK_MAX
  }

  /** The mutexes `lock_osd_id_pair` takes, in order */
  function PairLocks(id1: nat, id2: nat): (order: seq<nat>) {
    var slot1, slot2 := Slot(id1), Slot(id2);
    if slot1 == slot2 then [slot1]
    else if slot1 > slot2 then [slot1, slot2]
    else [slot2, slot1]
  }

  /** The mutexes `unlock_osd_id_pair` lets go, in order */
  function PairUnlocks(id1: nat, id2: nat): (order: seq<nat>) {
    var slot1, slot2 := Slot(id1), Slot(id2);
    if slot1 == slot2 then [slot1]
    else if slot1 > slot2 then [slot2, slot1]
    else [slot1, slot2]
  }

  const INT_LIMIT: nat := 0x8000_0000

  /** An offset as `same_depot_copy` keeps it, in a C int */
  type Offset = x: int | 0 <= x < INT_LIMIT

  /** A value stored in a C int */
  function CutInt(v: int): (r: int)
    ensures 0 - INT_LIMIT <= r < INT_LIMIT && (v - r) % (2 * INT_LIMIT) == 0 && (0 <= v < INT_LIMIT ==> r == v)
  {
    var m := v % (2 * INT_LIMIT);
    if m >= INT_LIMIT then m - 2 * INT_LIMIT else m
  }

  /** What a thread does with the locks: a write that reads the size first, a copy, or a command on two
      allocations. */
  datatype Job = Write(id: nat, end: nat) | Copy(id: nat, off: Offset, len: nat) | Both(id1: nat, id2: nat)

  /** Where the bytes of a write or copy end, and where the code takes them to end: a copy's end is put
      back into an int. */
  function End(j: Job): (n: nat)
    requires !j.Both?
  {
    if j.Write? then j.end else j.off + j.len
  }

  function KeptEnd(j: Job): (n: int)
    requires !j.Both?
    ensures n == End(j) || (j.Copy? && End(j) >= INT_LIMIT && n < INT_LIMIT)
  {
    if j.Write? then j.end else CutInt(j.off + j.len)
  }

  function Locks(j: Job): (order: seq<nat>) {
    if j.Both? then PairLocks(j.id1, j.id2) else [Slot(j.id)]
  }

  function Unlocks(j: Job): (order: seq<nat>) {
    if j.Both? then PairUnlocks(j.id1, j.id2) else [Slot(j.id)]
  }

  /** Locks are taken from the highest slot down and let go in the opposite order, all of them once. */
  lemma LocksDescend(j: Job)
    ensures |Locks(j)| == |Unlocks(j)| > 0
    ensures forall i, k :: 0 <= i < k < |Locks(j)| ==> Locks(j)[i] > Locks(j)[k]
    ensures forall i :: 0 <= i < |Locks(j)| ==> Unlocks(j)[i] == Locks(j)[|Locks(j)| - 1 - i]
    ensures !j.Both? ==> Slot(j.id) in Locks(j)
    ensures j.Both? ==> Slot(j.id1) in Locks(j) && Slot(j.id2) in Locks(j)
  {
  }

  // ---------------------------------------------------------------- threads

  datatype Phase = Peeking | Locking | Looking | Storing | Unlocking

  /** A thread with the jobs it still has to do; `taken` counts the locks of the first it holds, `local`
      is its own copy of the size and `seen` the size it has read under the lock. */
  datatype Thread = Thread(jobs: seq<Job>, phase: Phase, taken: nat, local: int, seen: nat)

  /** `owner` is the mutex table; `done` lists the writes and copies whose size has been stored. */
  datatype State = State(threads: seq<Thread>, owner: map<nat, nat>, sizes: map<nat, nat>, done: seq<Job>)

  function Size(sizes: map<nat, nat>, id: nat): (n: nat) { if id in sizes then sizes[id] else 0 }

  function Max(a: int, b: int): (m: int) { if a > b then a else b }

  /** The thread waits for a mutex that is taken. */
  predicate Blocked(s: State, i: nat)
    requires i < |s.threads|
  {
    var t := s.threads[i];
    t.jobs != [] && t.phase == Locking && t.taken < |Locks(t.jobs[0])| && Locks(t.jobs[0])[t.taken] in s.owner
  }

  predicate Enabled(s: State, i: nat) {
    i < |s.threads| && s.threads[i].jobs != [] && !Blocked(s, i)
  }

  ghost predicate ThreadOk(t: Thread) {
    if t.jobs == [] then t.phase == Peeking && t.taken == 0
    else
      var n := |Locks(t.jobs[0])|;
      match t.phase
      case Peeking => t.taken == 0
      case Locking => t.taken < n
      case Looking => t.taken == n && !t.jobs[0].Both?
      case Storing => t.taken == n && !t.jobs[0].Both?
      case Unlocking => 0 < t.taken <= n
  }

  /** What thread `i` does next, up to its next access to anything shared */
  function Next(s: State, i: nat): (r: State)
    requires Enabled(s, i) && ThreadOk(s.threads[i])
  {
    var t := s.threads[i];
    var j := t.jobs[0];
    match t.phase
    case Peeking =>
      var local := match j
        case Write(id, end) => Max(Size(s.sizes, id), end)
        case Copy(_, _, _) => KeptEnd(j)
        case Both(_, _) => 0;
      s.(threads := s.threads[i := t.(phase := Locking, local := local)])
    case Locking =>
      var slot := Locks(j)[t.taken];
      var phase := if t.taken + 1 < |Locks(j)| then Locking else if j.Both? then Unlocking else Looking;
      s.(owner := s.owner[slot := i], threads := s.threads[i := t.(taken := t.taken + 1, phase := phase)])
    case Looking => s.(threads := s.threads[i := t.(seen := Size(s.sizes, j.id), phase := Storing)])
    case Storing =>
      s.(sizes := if t.local > t.seen then s.sizes[j.id := t.local] else s.sizes,
         done := s.done + [j], threads := s.threads[i := t.(phase := Unlocking)])
    case Unlocking =>
      LocksDescend(j);
      var slot := Unlocks(j)[|Unlocks(j)| - t.taken];
      var t' := if t.taken == 1 then t.(taken := 0, phase := Peeking, jobs := t.jobs[1..]) else t.(taken := t.taken - 1);
      s.(owner := s.owner - {slot}, threads := s.threads[i := t'])
  }

  function Init(work: seq<seq<Job>>, sizes: map<nat, nat>): (s: State)
    ensures |s.threads| == |work| && forall i :: 0 <= i < |work| ==> s.threads[i] == Thread(work[i], Peeking, 0, 0, 0)
  {
    State(seq(|work|, i requires 0 <= i < |work| => Thread(work[i], Peeking, 0, 0, 0)), map[], sizes, [])
  }

  // ---------------------------------------------------------------- who holds what

  ghost predicate Holds(t: Thread, slot: nat) {
    t.jobs != [] && t.taken <= |Locks(t.jobs[0])| && exists k :: 0 <= k < t.taken && Locks(t.jobs[0])[k] == slot
  }

  /** A mutex is owned by the thread that holds it, and by no other. */
  ghost predicate Owned(s: State) {
    && (forall slot :: slot in s.owner ==> s.owner[slot] < |s.threads| && Holds(s.threads[s.owner[slot]], slot))
    && (forall i, slot :: 0 <= i < |s.threads| && Holds(s.threads[i], slot) ==> slot in s.owner && s.owner[slot] == i)
  }

  ghost predicate LockInv(s: State) {
    (forall i :: 0 <= i < |s.threads| ==> ThreadOk(s.threads[i])) && Owned(s)
  }

  /** Only thread `i` has changed, and only what it owns. */
  ghost predicate OnlyBy(s: State, r: State, i: nat) {
    && i < |s.threads| == |r.threads|
    && (forall k :: 0 <= k < |s.threads| && k != i ==> r.threads[k] == s.threads[k])
    && (forall slot :: (slot in r.owner && r.owner[slot] != i) <==> (slot in s.owner && s.owner[slot] != i))
    && (forall slot :: slot in r.owner && r.owner[slot] != i ==> r.owner[slot] == s.owner[slot])
  }

  lemma OwnerHolds(s: State, r: State, i: nat, slot: nat)
    requires Owned(s) && OnlyBy(s, r, i) && slot in r.owner && (r.owner[slot] == i ==> Holds(r.threads[i], slot))
    ensures r.owner[slot] < |r.threads| && Holds(r.threads[r.owner[slot]], slot)
  {
    if r.owner[slot] != i { assert r.threads[r.owner[slot]] == s.threads[s.owner[slot]]; }
  }

  lemma HolderOwns(s: State, r: State, i: nat, k: nat, slot: nat)
    requires Owned(s) && OnlyBy(s, r, i) && k < |r.threads| && Holds(r.threads[k], slot)
    requires Holds(r.threads[i], slot) ==> slot in r.owner && r.owner[slot] == i
    ensures slot in r.owner && r.owner[slot] == k
  {
    if k != i { assert r.threads[k] == s.threads[k] && Holds(s.threads[k], slot); }
  }

  lemma OthersHold(s: State, r: State, i: nat)
    requires LockInv(s) && OnlyBy(s, r, i) && ThreadOk(r.threads[i])
    requires forall slot :: Holds(r.threads[i], slot) <==> slot in r.owner && r.owner[slot] == i
    ensures LockInv(r)
  {
    forall k | 0 <= k < |r.threads|
      ensures ThreadOk(r.threads[k])
    {
      if k != i { assert r.threads[k] == s.threads[k]; }
    }
    forall slot | slot in r.owner
      ensures r.owner[slot] < |r.threads| && Holds(r.threads[r.owner[slot]], slot)
    {
      OwnerHolds(s, r, i, slot);
    }
    forall k, slot | 0 <= k < |r.threads| && Holds(r.threads[k], slot)
      ensures slot in r.owner && r.owner[slot] == k
    {
      HolderOwns(s, r, i, k, slot);
    }
  }

  lemma LockStepHolds(s: State, i: nat)
    requires LockInv(s) && Enabled(s, i) && s.threads[i].phase == Locking
    ensures LockInv(Next(s, i))
  {
    var t, r := s.threads[i], Next(s, i);
    var u := r.threads[i];
    var slot := Locks(t.jobs[0])[t.taken];
    LocksDescend(t.jobs[0]);
    forall x
      ensures Holds(u, x) <==> Holds(t, x) || x == slot
    {
      if Holds(t, x) {
        var k :| 0 <= k < t.taken && Locks(t.jobs[0])[k] == x;
        assert k < u.taken && Locks(u.jobs[0])[k] == x;
      }
      assert Locks(u.jobs[0])[t.taken] == slot;
    }
    OthersHold(s, r, i);
  }

  /** What a thread holds once it has let go of the last slot it took */
  lemma UnlockHolds(t: Thread, u: Thread, x: nat)
    requires t.jobs != [] && 0 < t.taken <= |Locks(t.jobs[0])|
    requires u == if t.taken == 1 then t.(taken := 0, phase := Peeking, jobs := t.jobs[1..]) else t.(taken := t.taken - 1)
    ensures Holds(u, x) <==> Holds(t, x) && x != Locks(t.jobs[0])[t.taken - 1]
  {
    LocksDescend(t.jobs[0]);
    if Holds(t, x) && x != Locks(t.jobs[0])[t.taken - 1] {
      var k :| 0 <= k < t.taken && Locks(t.jobs[0])[k] == x;
      assert k < t.taken - 1 && Locks(u.jobs[0])[k] == x;
    }
  }

  lemma UnlockedOnlyBy(s: State, r: State, i: nat, u: Thread, slot: nat)
    requires i < |s.threads| && slot in s.owner && s.owner[slot] == i
    requires r.threads == s.threads[i := u] && r.owner == s.owner - {slot}
    ensures OnlyBy(s, r, i)
  {
  }

  lemma UnlockedOwns(s: State, r: State, i: nat, slot: nat, x: nat)
    requires Owned(s) && i < |s.threads| && i < |r.threads| && r.owner == s.owner - {slot}
    requires Holds(r.threads[i], x) <==> Holds(s.threads[i], x) && x != slot
    ensures Holds(r.threads[i], x) <==> x in r.owner && r.owner[x] == i
  {
    if x in s.owner && s.owner[x] == i { assert Holds(s.threads[i], x); }
  }

  lemma UnlockStepHolds(s: State, i: nat)
    requires LockInv(s) && Enabled(s, i) && s.threads[i].phase == Unlocking
    ensures LockInv(Next(s, i))
  {
    var t, r := s.threads[i], Next(s, i);
    LocksDescend(t.jobs[0]);
    var slot := Locks(t.jobs[0])[t.taken - 1];
    assert Unlocks(t.jobs[0])[|Unlocks(t.jobs[0])| - t.taken] == slot && Holds(t, slot);
    UnlockedOnlyBy(s, r, i, r.threads[i], slot);
    forall x
      ensures Holds(r.threads[i], x) <==> x in r.owner && r.owner[x] == i
    {
      UnlockHolds(t, r.threads[i], x);
      UnlockedOwns(s, r, i, slot, x);
    }
    OthersHold(s, r, i);
  }

  lemma LockStep(s: State, i: nat)
    requires LockInv(s) && Enabled(s, i)
    ensures LockInv(Next(s, i))
  {
    var t, r := s.threads[i], Next(s, i);
    match t.phase
    case Locking => LockStepHolds(s, i);
    case Unlocking => UnlockStepHolds(s, i);
    case _ =>
      var u := r.threads[i];
      assert forall x :: Holds(u, x) <==> Holds(t, x);
      OthersHold(s, r, i);
  }

  // ---------------------------------------------------------------- no deadlock

  /** A waiting thread wants a slot below every slot it holds. */
  lemma WantsLower(s: State, i: nat, slot: nat)
    requires LockInv(s) && i < |s.threads| && Blocked(s, i) && Holds(s.threads[i], slot)
    ensures Locks(s.threads[i].jobs[0])[s.threads[i].taken] < slot
  {
    LocksDescend(s.threads[i].jobs[0]);
  }

  function Wanted(s: State, i: nat): (slot: nat)
    requires i < |s.threads| && Blocked(s, i)
  {
    Locks(s.threads[i].jobs[0])[s.threads[i].taken]
  }

  /** `chain[k]` waits for a mutex that `chain[k + 1]` owns. */
  ghost predicate WaitChain(s: State, chain: seq<nat>) {
    && (forall k :: 0 <= k < |chain| ==> chain[k] < |s.threads| && Blocked(s, chain[k]))
    && (forall k :: 0 <= k < |chain| - 1 ==> s.owner[Wanted(s, chain[k])] == chain[k + 1])
  }

  lemma {:induction false} ChainDescends(s: State, chain: seq<nat>, k: nat)
    requires LockInv(s) && WaitChain(s, chain) && 0 < k < |chain|
    ensures Wanted(s, chain[k]) < Wanted(s, chain[0])
  {
    var slot := Wanted(s, chain[k - 1]);
    assert s.owner[slot] == chain[k];
    WantsLower(s, chain[k], slot);
    if k > 1 { ChainDescends(s, chain, k - 1); }
  }

  lemma ChainFrom(s: State, chain: seq<nat>, k: nat)
    requires WaitChain(s, chain) && k < |chain|
    ensures WaitChain(s, chain[k..])
  {
    var rest := chain[k..];
    forall m | 0 <= m < |rest|
      ensures rest[m] < |s.threads| && Blocked(s, rest[m])
    {
      assert rest[m] == chain[k + m];
    }
    forall m | 0 <= m < |rest| - 1
      ensures s.owner[Wanted(s, rest[m])] == rest[m + 1]
    {
      assert rest[m] == chain[k + m] && rest[m + 1] == chain[k + m + 1];
    }
  }

  /** The last of a chain wants no slot that the first one holds. */
  lemma EndsApart(s: State, chain: seq<nat>)
    requires LockInv(s) && WaitChain(s, chain) && chain != []
    ensures s.owner[Wanted(s, chain[|chain| - 1])] != chain[0]
  {
    var slot := Wanted(s, chain[|chain| - 1]);
    if |chain| > 1 { ChainDescends(s, chain, |chain| - 1); }
    if Holds(s.threads[chain[0]], slot) { WantsLower(s, chain[0], slot); }
  }

  /** Threads never wait for each other in a circle. */
  lemma NoCircularWait(s: State, chain: seq<nat>)
    requires LockInv(s) && WaitChain(s, chain) && chain != []
    ensures s.owner[Wanted(s, chain[|chain| - 1])] !in chain
  {
    forall k | 0 <= k < |chain|
      ensures chain[k] != s.owner[Wanted(s, chain[|chain| - 1])]
    {
      ChainFrom(s, chain, k);
      EndsApart(s, chain[k..]);
      assert chain[k..][|chain| - k - 1] == chain[|chain| - 1];
    }
  }

  /** Following owners from a blocked thread leads to one that can go on. */
  lemma {:induction false} SomeoneFree(s: State, i: nat) returns (k: nat)
    requires LockInv(s) && i < |s.threads| && s.threads[i].jobs != []
    ensures k < |s.threads| && Enabled(s, k)
    decreases if Blocked(s, i) then Wanted(s, i) + 1 else 0
  {
    k := i;
    if Blocked(s, i) {
      var slot := Wanted(s, i);
      var o := s.owner[slot];
      assert Holds(s.threads[o], slot);
      if Blocked(s, o) { WantsLower(s, o, slot); }
      k := SomeoneFree(s, o);
    }
  }

  // ---------------------------------------------------------------- sizes

  /** What is looked at in a list of jobs: where they really end, where the code takes them to end, or
      only the writes among them */
  datatype Kind = Real | Kept | Written

  function Value(j: Job, kind: Kind): (n: int)
    requires !j.Both?
  {
    match kind
    case Real => End(j)
    case Kept => KeptEnd(j)
    case Written => if j.Write? then j.end else 0
  }

  /** The larger of `n` and the values of the jobs on allocation `id` */
  function MaxEnd(n: nat, done: seq<Job>, id: nat, kind: Kind): (m: nat)
    ensures m >= n
  {
    if done == [] then n
    else
      var m := MaxEnd(n, done[..|done| - 1], id, kind);
      var j := done[|done| - 1];
      if !j.Both? && j.id == id then Max(m, Value(j, kind)) else m
  }

  ghost predicate On(j: Job, id: nat) { !j.Both? && j.id == id }

  lemma {:induction false} MaxEndIsMax(n: nat, done: seq<Job>, id: nat, kind: Kind)
    ensures var m := MaxEnd(n, done, id, kind);
            && (forall j :: j in done && On(j, id) ==> Value(j, kind) <= m)
            && (m == n || exists j :: j in done && On(j, id) && Value(j, kind) == m)
  {
    if done != [] {
      var front, last := done[..|done| - 1], done[|done| - 1];
      MaxEndIsMax(n, front, id, kind);
      assert done == front + [last];
    }
  }

  /** A copy that ends where an int does not reach, beyond the first size and every write */
  ghost predicate Wraps(n: nat, done: seq<Job>, id: nat, j: Job) {
    j in done && On(j, id) && j.Copy? && End(j) >= INT_LIMIT && End(j) > MaxEnd(n, done, id, Written)
  }

  /** The ends the code takes are as good as the real ones exactly when no copy wraps. */
  lemma KeptIsRealIff(n: nat, done: seq<Job>, id: nat)
    ensures MaxEnd(n, done, id, Kept) == MaxEnd(n, done, id, Real) <==> forall j :: !Wraps(n, done, id, j)
  {
    MaxEndIsMax(n, done, id, Kept);
    MaxEndIsMax(n, done, id, Real);
    MaxEndIsMax(n, done, id, Written);
    var kept, truth, written := MaxEnd(n, done, id, Kept), MaxEnd(n, done, id, Real), MaxEnd(n, done, id, Written);
    assert kept >= written by {
      if written > n {
        var j :| j in done && On(j, id) && Value(j, Written) == written;
        assert Value(j, Kept) == written;
      }
    }
    assert kept < INT_LIMIT || kept == written by {
      if kept > n {
        var j :| j in done && On(j, id) && Value(j, Kept) == kept;
        assert j.Write? ==> Value(j, Written) == kept;
      }
    }
    if forall j :: !Wraps(n, done, id, j) {
      forall j | j in done && On(j, id)
        ensures End(j) <= kept
      {
        assert !Wraps(n, done, id, j) && Value(j, Kept) <= kept;
      }
      KeptAtMostReal(n, done, id);
      if truth > n { var j :| j in done && On(j, id) && Value(j, Real) == truth; }
    }
    if j :| Wraps(n, done, id, j) {
      assert Value(j, Real) <= truth;
    }
  }

  lemma {:induction false} KeptAtMostReal(n: nat, done: seq<Job>, id: nat)
    ensures MaxEnd(n, done, id, Kept) <= MaxEnd(n, done, id, Real)
  {
    if done != [] { KeptAtMostReal(n, done[..|done| - 1], id); }
  }

  /** A thread's own size is never above what the stored size will be with the end it takes. */
  ghost predicate LocalOk(s: State, t: Thread) {
    t.jobs != [] && !t.jobs[0].Both? && t.phase in {Locking, Looking, Storing} ==>
      && KeptEnd(t.jobs[0]) <= t.local <= Max(Size(s.sizes, t.jobs[0].id), KeptEnd(t.jobs[0]))
      && (t.phase == Storing ==> t.seen == Size(s.sizes, t.jobs[0].id))
  }

  ghost predicate Inv(s: State, start: map<nat, nat>) {
    && LockInv(s)
    && (forall i :: 0 <= i < |s.threads| ==> LocalOk(s, s.threads[i]))
    && (forall id :: Size(s.sizes, id) == MaxEnd(Size(start, id), s.done, id, Kept))
  }

  /** Two threads that hold the lock of the same allocation are one. */
  lemma Exclusive(s: State, i: nat, k: nat)
    requires LockInv(s) && i < |s.threads| && k < |s.threads|
    requires s.threads[i].phase in {Looking, Storing} && s.threads[k].phase in {Looking, Storing}
    requires s.threads[i].jobs != [] && s.threads[k].jobs != []
    requires Slot(s.threads[i].jobs[0].id) == Slot(s.threads[k].jobs[0].id)
    ensures i == k
  {
    var slot := Slot(s.threads[i].jobs[0].id);
    assert ThreadOk(s.threads[i]) && ThreadOk(s.threads[k]);
    assert Locks(s.threads[i].jobs[0])[0] == slot && Holds(s.threads[i], slot);
    assert Locks(s.threads[k].jobs[0])[0] == slot && Holds(s.threads[k], slot);
    assert s.owner[slot] == i && s.owner[slot] == k;
  }

  lemma StoreKeeps(s: State, i: nat, start: map<nat, nat>)
    requires Inv(s, start) && Enabled(s, i) && s.threads[i].phase == Storing
    ensures Inv(Next(s, i), start)
  {
    var t, r := s.threads[i], Next(s, i);
    LockStep(s, i);
    var j := t.jobs[0];
    assert r.done[..|r.done| - 1] == s.done;
    forall id
      ensures Size(r.sizes, id) == MaxEnd(Size(start, id), r.done, id, Kept)
    {
      assert LocalOk(s, t);
    }
    forall k | 0 <= k < |r.threads|
      ensures LocalOk(r, r.threads[k])
    {
      assert LocalOk(s, s.threads[k]) && LocalOk(s, t);
      if k != i && s.threads[k].phase == Storing && s.threads[k].jobs[0].id == j.id { Exclusive(s, i, k); }
    }
  }

  lemma StepKeeps(s: State, i: nat, start: map<nat, nat>)
    requires Inv(s, start) && Enabled(s, i)
    ensures Inv(Next(s, i), start)
  {
    LockStep(s, i);
    if s.threads[i].phase == Storing {
      StoreKeeps(s, i, start);
    } else {
      var r := Next(s, i);
      forall k | 0 <= k < |r.threads|
        ensures LocalOk(r, r.threads[k])
      {
        assert LocalOk(s, s.threads[k]);
      }
    }
  }

  // ---------------------------------------------------------------- every run

  ghost predicate Follows(s: State, i: nat, r: State) {
    Enabled(s, i) && ThreadOk(s.threads[i]) && r == Next(s, i)
  }

  /** An interleaving: `who` names the thread that moves at each step. */
  ghost predicate IsRun(trace: seq<State>, who: seq<nat>, work: seq<seq<Job>>, start: map<nat, nat>) {
    && |trace| == |who| + 1 && trace[0] == Init(work, start)
    && forall i :: 0 <= i < |who| ==> Follows(trace[i], who[i], trace[i + 1])
  }

  lemma {:induction false} RunKeeps(trace: seq<State>, who: seq<nat>, work: seq<seq<Job>>, start: map<nat, nat>, i: nat)
    requires IsRun(trace, who, work, start) && i < |trace|
    ensures Inv(trace[i], start)
    decreases i
  {
    if i > 0 {
      RunKeeps(trace, who, work, start, i - 1);
      assert Follows(trace[i - 1], who[i - 1], trace[i]);
      StepKeeps(trace[i - 1], who[i - 1], start);
    }
  }

  /** In every reachable state in which some thread has work left, some thread can go on. */
  lemma NoDeadlock(trace: seq<State>, who: seq<nat>, work: seq<seq<Job>>, start: map<nat, nat>, i: nat, t: nat)
    requires IsRun(trace, who, work, start) && i < |trace| && t < |trace[i].threads| && trace[i].threads[t].jobs != []
    ensures exists k: nat :: Enabled(trace[i], k)
  {
    RunKeeps(trace, who, work, start, i);
    var k := SomeoneFree(trace[i], t);
  }

  /** The stored size is always the larger of the first one and the ends the code took the completed
      writes and copies to have, and never goes down. It is the larger of the first one and the real ends
      exactly when no completed copy wraps: no update is lost otherwise. */
  lemma NoLostUpdateIff(trace: seq<State>, who: seq<nat>, work: seq<seq<Job>>, start: map<nat, nat>, i: nat, id: nat)
    requires IsRun(trace, who, work, start) && i < |trace|
    ensures var s := trace[i];
            && Size(s.sizes, id) == MaxEnd(Size(start, id), s.done, id, Kept)
            && (Size(s.sizes, id) == MaxEnd(Size(start, id), s.done, id, Real) <==>
                forall j :: !Wraps(Size(start, id), s.done, id, j))
    ensures i + 1 < |trace| ==> Size(trace[i].sizes, id) <= Size(trace[i + 1].sizes, id)
  {
    RunKeeps(trace, who, work, start, i);
    KeptIsRealIff(Size(start, id), trace[i].done, id);
    if i + 1 < |trace| {
      RunKeeps(trace, who, work, start, i + 1);
      var s, k := trace[i], who[i];
      assert Follows(s, k, trace[i + 1]);
      assert LocalOk(s, s.threads[k]);
    }
  }

  // ---------------------------------------------------------------- every job gets done, once

  function Count(jobs: seq<Job>, j: Job): (n: nat) {
    if jobs == [] then 0 else (if jobs[0] == j then 1 else 0) + Count(jobs[1..], j)
  }

  lemma {:induction false} CountSnoc(jobs: seq<Job>, last: Job, j: Job)
    ensures Count(jobs + [last], j) == Count(jobs, j) + (if last == j then 1 else 0)
  {
    if jobs == [] {
      assert [last][1..] == [];
    } else {
      assert (jobs + [last])[1..] == jobs[1..] + [last];
      CountSnoc(jobs[1..], last, j);
    }
  }

  /** Occurrences of `j` among the jobs whose size a thread has still to store */
  function ToDo(t: Thread, j: Job): (n: nat) {
    if t.jobs != [] && t.phase == Unlocking then Count(t.jobs[1..], j) else Count(t.jobs, j)
  }

  function AllToDo(threads: seq<Thread>, j: Job, n: nat): (k: nat)
    requires n <= |threads|
  {
    if n == 0 then 0 else AllToDo(threads, j, n - 1) + ToDo(threads[n - 1], j)
  }

  function AllWork(work: seq<seq<Job>>, j: Job, n: nat): (k: nat)
    requires n <= |work|
  {
    if n == 0 then 0 else AllWork(work, j, n - 1) + Count(work[n - 1], j)
  }

  lemma {:induction false} ToDoPoint(threads: seq<Thread>, i: nat, t: Thread, j: Job, n: nat)
    requires i < |threads| && n <= |threads|
    ensures AllToDo(threads[i := t], j, n) == AllToDo(threads, j, n) + (if i < n then ToDo(t, j) - ToDo(threads[i], j) else 0)
  {
    if n > 0 { ToDoPoint(threads, i, t, j, n - 1); }
  }

  lemma {:induction false} ToDoAtFirst(work: seq<seq<Job>>, start: map<nat, nat>, j: Job, n: nat)
    requires n <= |work|
    ensures AllToDo(Init(work, start).threads, j, n) == AllWork(work, j, n)
  {
    if n > 0 { ToDoAtFirst(work, start, j, n - 1); }
  }

  lemma {:induction false} NothingToDo(threads: seq<Thread>, j: Job, n: nat)
    requires n <= |threads| && forall i :: 0 <= i < n ==> threads[i].jobs == []
    ensures AllToDo(threads, j, n) == 0
  {
    if n > 0 { NothingToDo(threads, j, n - 1); }
  }

  lemma StepCounts(s: State, i: nat, j: Job)
    requires Enabled(s, i) && ThreadOk(s.threads[i]) && !j.Both?
    ensures var r := Next(s, i);
            |r.threads| == |s.threads| &&
            Count(r.done, j) + AllToDo(r.threads, j, |r.threads|) == Count(s.done, j) + AllToDo(s.threads, j, |s.threads|)
  {
    var r := Next(s, i);
    assert r.threads == s.threads[i := r.threads[i]];
    ToDoPoint(s.threads, i, r.threads[i], j, |s.threads|);
    if s.threads[i].phase == Storing { CountSnoc(s.done, s.threads[i].jobs[0], j); }
  }

  /** In every run each write and copy that was asked for has had its size stored just once or has still to
      have it stored; when no thread has a job left, all have. */
  lemma {:induction false} EveryJobOnce(trace: seq<State>, who: seq<nat>, work: seq<seq<Job>>, start: map<nat, nat>, i: nat, j: Job)
    requires IsRun(trace, who, work, start) && i < |trace| && !j.Both?
    ensures Count(trace[i].done, j) + AllToDo(trace[i].threads, j, |trace[i].threads|) == AllWork(work, j, |work|)
    ensures (forall t :: 0 <= t < |trace[i].threads| ==> trace[i].threads[t].jobs == []) ==>
              Count(trace[i].done, j) == AllWork(work, j, |work|)
    decreases i
  {
    if i == 0 {
      ToDoAtFirst(work, start, j, |work|);
    } else {
      EveryJobOnce(trace, who, work, start, i - 1, j);
      assert Follows(trace[i - 1], who[i - 1], trace[i]);
      StepCounts(trace[i - 1], who[i - 1], j);
    }
    if forall t :: 0 <= t < |trace[i].threads| ==> trace[i].threads[t].jobs == [] {
      NothingToDo(trace[i].threads, j, |trace[i].threads|);
    }
  }

  // ---------------------------------------------------------------- a copy that wraps

  lemma Extend(trace: seq<State>, who: seq<nat>, work: seq<seq<Job>>, start: map<nat, nat>)
    returns (trace': seq<State>)
    requires IsRun(trace, who, work, start) && Enabled(trace[|trace| - 1], 0)
    ensures ThreadOk(trace[|trace| - 1].threads[0])
    ensures trace' == trace + [Next(trace[|trace| - 1], 0)] && IsRun(trace', who + [0], work, start)
  {
    RunKeeps(trace, who, work, start, |trace| - 1);
    trace' := trace + [Next(trace[|trace| - 1], 0)];
    var who' := who + [0];
    forall i | 0 <= i < |who'|
      ensures Follows(trace'[i], who'[i], trace'[i + 1])
    {
      if i < |who| { assert Follows(trace[i], who[i], trace[i + 1]); }
    }
  }

  /** A copy into an empty allocation that starts where an int reaches and ends where it does not: it
      completes, and the stored size is not its end. */
  lemma CopyLosesSize(id: nat, off: Offset, len: nat) returns (trace: seq<State>, who: seq<nat>)
    requires off + len >= INT_LIMIT
    ensures IsRun(trace, who, [[Copy(id, off, len)]], map[])
    ensures var s := trace[|trace| - 1]; s.done == [Copy(id, off, len)] && Size(s.sizes, id) < INT_LIMIT <= End(s.done[0])
  {
    var j := Copy(id, off, len);
    var work := [[j]];
    var init := Init(work, map[]);
    trace, who := [init], [];
    assert init.threads == [Thread([j], Peeking, 0, 0, 0)];
    trace := Extend(trace, who, work, map[]);
    who := who + [0];
    assert trace[1].threads[0] == Thread([j], Locking, 0, KeptEnd(j), 0) && trace[1].owner == map[];
    trace := Extend(trace, who, work, map[]);
    who := who + [0];
    assert trace[2].threads[0] == Thread([j], Looking, 1, KeptEnd(j), 0);
    trace := Extend(trace, who, work, map[]);
    who := who + [0];
    trace := Extend(trace, who, work, map[]);
    who := who + [0];
  }
}
