/** The handshake between a stream's reader and the handlers of its responses (mq_stream.c).

    The reader asks for the next packet while it consumes the current one. Each response is handled by
    a thread of its own, which offers its packet, waits until the reader accepts it, installs it and
    holds on to it until the reader is done. One step here is what a thread does under the lock before
    it waits or unlocks. */
module MqStream {

  datatype Option<T> = None | Some(value: T)

  /** Where the reader stands in `gop_mq_stream_read_wait`, and the handler of a request in
      `mqs_response_client_more` */
  datatype Reader = Idle | Released(err: bool) | AtWait | Accepting | Accepted | Flipped | Asking
  datatype Handler = Asked | Offering | Holding | Finished

  /** Request `r` is `handlers[r - 1]`; packet 0 came with the stream. `unpacked` lists the packets
      given to the unpacker by handlers; `failed` tells whether the last call reported an error. */
  datatype State = State(
    reader: Reader,
    handlers: seq<Handler>,
    waiting: int,
    processed: int,
    data: Option<nat>,
    gopWaiting: Option<nat>,
    gopProcessed: Option<nat>,
    abort: bool,
    deadConnection: bool,
    unpacked: seq<nat>,
    failed: bool)

  predicate Is(s: State, r: nat, h: Handler) { 1 <= r <= |s.handlers| && s.handlers[r - 1] == h }

  function Set(s: State, r: nat, h: Handler): (hs: seq<Handler>)
    requires 1 <= r <= |s.handlers|
  {
    s.handlers[r - 1 := h]
  }

  /** `gop_mq_stream_read_request` */
  function Request(s: State): (r: State) {
    s.(handlers := s.handlers + [Asked], gopWaiting := Some(|s.handlers| + 1), waiting := 1)
  }

  /** `gop_mq_stream_read_create`. `more` holds the packets that say more is to come. */
  function Create(more: set<nat>): (s: State) {
    var s := State(Idle, [], 0, 0, Some(0), None, None, false, false, [], false);
    if 0 in more then Request(s) else s
  }

  // ---------------------------------------------------------------- steps

  datatype Step =
    | Begin | Reap | Wake | Seen | Flip | Check | Ask | Abort
    | Respond(r: nat) | Install(r: nat) | Release(r: nat)

  predicate Enabled(s: State, e: Step) {
    match e
    case Begin => s.reader == Idle
    case Reap => s.reader.Released? && (s.gopProcessed.None? || Is(s, s.gopProcessed.value, Finished))
    case Wake => s.reader == AtWait && s.waiting != 1
    case Seen => s.reader == Accepting && s.waiting == -2
    case Flip => s.reader == Accepted
    case Check => s.reader == Flipped
    case Ask => s.reader == Asking
    case Abort => s.reader == Idle
    case Respond(r) => Is(s, r, Asked)
    case Install(r) => Is(s, r, Offering) && s.waiting != 0
    case Release(r) => Is(s, r, Holding) && s.processed != 0
  }

  function Apply(s: State, e: Step, more: set<nat>): (r: State)
    requires Enabled(s, e)
  {
    match e
    case Begin =>
      s.(processed := if s.gopProcessed.Some? then 1 else s.processed,
         reader := Released(s.data.Some? && s.data.value !in more))
    case Reap =>
      s.(gopProcessed := None, reader := if s.reader.err then Idle else AtWait, failed := s.reader.err || s.failed)
    case Wake => if s.waiting == 0 then s.(waiting := -1, reader := Accepting) else s.(reader := Accepted)
    case Seen => s.(reader := Accepted)
    case Flip => s.(gopProcessed := s.gopWaiting, gopWaiting := None, reader := Flipped)
    case Check =>
      if s.data.Some? && s.data.value in more && !s.abort then s.(reader := Asking)
      else if s.data.Some? && s.data.value in more && !s.deadConnection then s.(deadConnection := true, reader := Asking)
      else s.(reader := Idle, failed := false)
    case Ask => Request(s).(reader := Idle, failed := false)
    case Abort => s.(abort := true)
    case Respond(r) => s.(handlers := Set(s, r, Offering), waiting := 0)
    case Install(r) =>
      s.(handlers := Set(s, r, Holding), data := Some(r), unpacked := s.unpacked + [r], waiting := -2)
    case Release(r) => s.(handlers := Set(s, r, Finished), data := None, processed := 0)
  }

  // ---------------------------------------------------------------- the invariant

  /** 1, 2, ..., n */
  function UpTo(n: nat): (s: seq<nat>)
    ensures |s| == n && forall i :: 0 <= i < n ==> s[i] == i + 1
  {
    if n == 0 then [] else UpTo(n - 1) + [n]
  }

  /** Every request but the last one outstanding is over, or is the one being consumed. */
  ghost predicate Past(s: State) {
    forall i :: 0 <= i < |s.handlers| && s.gopWaiting != Some(i + 1) ==>
      s.handlers[i] == Finished || (s.handlers[i] == Holding && s.gopProcessed == Some(i + 1))
  }

  /** The outstanding request, its handler and `waiting` go together. */
  ghost predicate Outstanding(s: State, r: nat) {
    && r == |s.handlers| > 0
    && (match s.handlers[r - 1]
        case Asked => s.waiting == 1 && s.reader !in {Accepting, Accepted}
        case Offering => (s.waiting == 0 && s.reader !in {Accepting, Accepted}) || (s.waiting == -1 && s.reader == Accepting)
        case Holding => s.waiting == -2 && s.reader in {Accepting, Accepted}
        case Finished => false)
    && s.reader !in {Flipped, Asking}
  }

  ghost predicate Current(s: State, r: nat) {
    && 1 <= r <= |s.handlers|
    && (s.handlers[r - 1] == Holding || (s.handlers[r - 1] == Finished && s.reader.Released?))
    && s.reader !in {AtWait, Accepting, Accepted}
  }

  /** The packet in `data` belongs to the handler that holds it; packet 0 belongs to none. */
  ghost predicate Owned(s: State) {
    && (forall i :: 0 <= i < |s.handlers| && s.handlers[i] == Holding ==> s.data == Some(i + 1))
    && (s.data.Some? && s.data.value > 0 ==> Is(s, s.data.value, Holding))
    && (s.data == Some(0) ==> s.unpacked == [])
  }

  /** How many packets have been installed: all, or all but that of the outstanding request. */
  function Installed(s: State): (n: int) {
    |s.handlers| - (if s.gopWaiting.Some? && !Is(s, s.gopWaiting.value, Holding) then 1 else 0)
  }

  ghost predicate Inv(s: State, more: set<nat>) {
    && Past(s) && Owned(s)
    && (s.gopWaiting.Some? ==> Outstanding(s, s.gopWaiting.value))
    && (s.gopWaiting.None? ==> s.waiting == (if s.handlers == [] then 0 else -2))
    && (s.gopWaiting.None? && s.handlers == [] ==> s.data == Some(0) && 0 !in more && s.reader in {Idle, Released(true)})
    && (s.gopWaiting.None? ==> s.reader != Accepting)
    && (s.gopProcessed.Some? ==> Current(s, s.gopProcessed.value))
    && s.processed == (if s.reader.Released? && s.gopProcessed.Some? && Is(s, s.gopProcessed.value, Holding) then 1 else 0)
    && (s.reader == Asking ==> s.data.Some?)
    && Installed(s) >= 0 && s.unpacked == UpTo(Installed(s))
  }

  lemma CreateHolds(more: set<nat>)
    ensures Inv(Create(more), more)
  {
    var s := Create(more);
    assert s.handlers == [] || s.handlers == [Asked];
  }

  lemma BeginKeeps(s: State, more: set<nat>)
    requires Inv(s, more) && Enabled(s, Begin)
    ensures Inv(Apply(s, Begin, more), more)
  {
  }

  lemma ReapKeeps(s: State, more: set<nat>)
    requires Inv(s, more) && Enabled(s, Reap)
    ensures Inv(Apply(s, Reap, more), more)
  {
    var t := Apply(s, Reap, more);
    assert Past(t) && Owned(t);
    assert Installed(t) == Installed(s);
  }

  lemma WakeKeeps(s: State, more: set<nat>)
    requires Inv(s, more) && Enabled(s, Wake)
    ensures Inv(Apply(s, Wake, more), more)
  {
  }

  lemma FlipKeeps(s: State, more: set<nat>)
    requires Inv(s, more) && Enabled(s, Flip)
    ensures Inv(Apply(s, Flip, more), more)
  {
  }

  lemma SeenKeeps(s: State, more: set<nat>)
    requires Inv(s, more) && Enabled(s, Seen)
    ensures Inv(Apply(s, Seen, more), more)
  {
  }

  lemma CheckKeeps(s: State, more: set<nat>)
    requires Inv(s, more) && Enabled(s, Check)
    ensures Inv(Apply(s, Check, more), more)
  {
    var t := Apply(s, Check, more);
    assert Past(t) && Owned(t);
    assert Installed(t) == Installed(s);
  }

  lemma AbortKeeps(s: State, more: set<nat>)
    requires Inv(s, more) && Enabled(s, Abort)
    ensures Inv(Apply(s, Abort, more), more)
  {
  }

  lemma AskKeeps(s: State, more: set<nat>)
    requires Inv(s, more) && s.reader == Asking
    ensures Inv(Apply(s, Ask, more), more)
  {
    var t := Apply(s, Ask, more);
    assert forall i :: 0 <= i < |s.handlers| ==> t.handlers[i] == s.handlers[i];
  }

  lemma RespondKeeps(s: State, r: nat, more: set<nat>)
    requires Inv(s, more) && Is(s, r, Asked)
    ensures Inv(Apply(s, Respond(r), more), more)
  {
    assert s.gopWaiting == Some(r);
  }

  /** When a handler installs its packet, no other handler holds one. */
  lemma InstallKeeps(s: State, r: nat, more: set<nat>)
    requires Inv(s, more) && Enabled(s, Install(r))
    ensures Inv(Apply(s, Install(r), more), more)
    ensures s.reader == Accepting && s.gopWaiting == Some(r) && s.gopProcessed == None && s.unpacked == UpTo(r - 1)
    ensures forall i :: 0 <= i < |s.handlers| ==> s.handlers[i] != Holding
  {
    assert s.gopWaiting == Some(r);
    assert UpTo(r) == UpTo(r - 1) + [r];
  }

  lemma ReleaseKeeps(s: State, r: nat, more: set<nat>)
    requires Inv(s, more) && Enabled(s, Release(r))
    ensures Inv(Apply(s, Release(r), more), more)
    ensures s.reader.Released? && s.gopProcessed == Some(r) && s.data == Some(r)
  {
    assert s.gopProcessed == Some(r);
  }

  lemma StepKeeps(s: State, e: Step, more: set<nat>)
    requires Inv(s, more) && Enabled(s, e)
    ensures Inv(Apply(s, e, more), more)
  {
    match e
    case Respond(r) => RespondKeeps(s, r, more);
    case Install(r) => InstallKeeps(s, r, more);
    case Release(r) => ReleaseKeeps(s, r, more);
    case Ask => AskKeeps(s, more);
    case Begin => BeginKeeps(s, more);
    case Reap => ReapKeeps(s, more);
    case Wake => WakeKeeps(s, more);
    case Flip => FlipKeeps(s, more);
    case Seen => SeenKeeps(s, more);
    case Check => CheckKeeps(s, more);
    case Abort => AbortKeeps(s, more);
  }

  // ---------------------------------------------------------------- every run

  ghost predicate Follows(s: State, e: Step, t: State, more: set<nat>) { Enabled(s, e) && t == Apply(s, e, more) }

  ghost predicate IsRun(trace: seq<State>, steps: seq<Step>, more: set<nat>) {
    && |trace| == |steps| + 1 && trace[0] == Create(more)
    && forall i :: 0 <= i < |steps| ==> Follows(trace[i], steps[i], trace[i + 1], more)
  }

  lemma {:induction false} RunKeeps(trace: seq<State>, steps: seq<Step>, more: set<nat>, i: nat)
    requires IsRun(trace, steps, more) && i < |trace|
    ensures Inv(trace[i], more)
  {
    if i == 0 {
      CreateHolds(more);
    } else {
      RunKeeps(trace, steps, more, i - 1);
      assert Follows(trace[i - 1], steps[i - 1], trace[i], more);
      StepKeeps(trace[i - 1], steps[i - 1], more);
    }
  }

  /** Packets reach the unpacker in the order of the requests, each once; a packet not yet there is that
      of the outstanding request. */
  lemma InOrder(trace: seq<State>, steps: seq<Step>, more: set<nat>, i: nat)
    requires IsRun(trace, steps, more) && i < |trace|
    ensures var s := trace[i];
            && s.unpacked == UpTo(|s.unpacked|)
            && |s.unpacked| == |s.handlers| - (if s.gopWaiting.Some? && !Is(s, s.gopWaiting.value, Holding) then 1 else 0)
            && (s.gopWaiting.Some? ==> s.gopWaiting.value == |s.handlers|)
  {
    RunKeeps(trace, steps, more, i);
  }

  /** A packet is installed only while no handler holds one, and a held packet stays in place until its
      own handler lets it go. */
  lemma NeverOverwritten(trace: seq<State>, steps: seq<Step>, more: set<nat>, i: nat, r: nat)
    requires IsRun(trace, steps, more) && i < |steps|
    ensures steps[i] == Install(r) ==> forall k :: !Is(trace[i], k, Holding)
    ensures Is(trace[i], r, Holding) && steps[i] != Release(r) ==> trace[i].data == trace[i + 1].data == Some(r)
  {
    RunKeeps(trace, steps, more, i);
    RunKeeps(trace, steps, more, i + 1);
    assert Follows(trace[i], steps[i], trace[i + 1], more);
    if steps[i].Install? { InstallKeeps(trace[i], steps[i].r, more); }
    if steps[i].Release? { ReleaseKeeps(trace[i], steps[i].r, more); }
  }

  /** While the reader is in the middle of a call, it or a handler can go on. */
  lemma NeverStuck(trace: seq<State>, steps: seq<Step>, more: set<nat>, i: nat) returns (e: Step)
    requires IsRun(trace, steps, more) && i < |trace| && trace[i].reader != Idle
    ensures e !in {Begin, Abort} && Enabled(trace[i], e)
  {
    RunKeeps(trace, steps, more, i);
    var s := trace[i];
    match s.reader
    case Released(_) =>
      e := if s.gopProcessed.Some? && Is(s, s.gopProcessed.value, Holding) then Release(s.gopProcessed.value) else Reap;
    case AtWait => e := if s.waiting == 1 then Respond(s.gopWaiting.value) else Wake;
    case Accepting => e := if s.waiting == -2 then Seen else Install(s.gopWaiting.value);
    case Accepted => e := Flip;
    case Flipped => e := Check;
    case Asking => e := Ask;
  }

  // ---------------------------------------------------------------- every call ends

  function ReaderWork(r: Reader): (n: nat) {
    match r
    case Idle => 0
    case Released(_) => 9
    case AtWait => 8
    case Accepting => 7
    case Accepted => 6
    case Flipped => 5
    case Asking => 4
  }

  function HandlerWork(h: Handler): (n: nat) {
    match h case Asked => 3 case Offering => 2 case Holding => 1 case Finished => 0
  }

  function HandlersWork(hs: seq<Handler>): (n: nat) {
    if hs == [] then 0 else HandlersWork(hs[..|hs| - 1]) + HandlerWork(hs[|hs| - 1])
  }

  function Work(s: State): (n: nat) { ReaderWork(s.reader) + HandlersWork(s.handlers) }

  lemma {:induction false} WorkUpdate(hs: seq<Handler>, i: nat, h: Handler)
    requires i < |hs|
    ensures HandlersWork(hs[i := h]) == HandlersWork(hs) - HandlerWork(hs[i]) + HandlerWork(h)
  {
    var last := |hs| - 1;
    if i < last {
      WorkUpdate(hs[..last], i, h);
      assert hs[i := h][..last] == hs[..last][i := h];
    } else {
      assert hs[i := h][..last] == hs[..last];
    }
  }

  /** Every step of a call and of the handlers uses up work, so with no new call at most `Work` steps
      are left; and the reader, never stuck, gets to the end of its call. */
  lemma StepsUseWork(s: State, e: Step, more: set<nat>)
    requires Enabled(s, e) && e !in {Begin, Abort}
    ensures Work(Apply(s, e, more)) < Work(s)
  {
    match e
    case Respond(r) => WorkUpdate(s.handlers, r - 1, Offering);
    case Install(r) => WorkUpdate(s.handlers, r - 1, Holding);
    case Release(r) => WorkUpdate(s.handlers, r - 1, Finished);
    case Ask => assert (s.handlers + [Asked])[..|s.handlers|] == s.handlers;
    case _ =>
  }

  lemma {:induction false} CallsEnd(trace: seq<State>, steps: seq<Step>, more: set<nat>, i: nat, j: nat)
    requires IsRun(trace, steps, more) && i <= j < |trace|
    requires forall k :: i <= k < j ==> steps[k] !in {Begin, Abort}
    ensures j - i <= Work(trace[i]) - Work(trace[j])
    decreases j - i
  {
    if i < j {
      assert Follows(trace[i], steps[i], trace[i + 1], more);
      StepsUseWork(trace[i], steps[i], more);
      CallsEnd(trace, steps, more, i + 1, j);
    }
  }
}
