/** What each call of a stream's reader brings, and when it asks for the next packet. */
module MqStreamCalls {
  import opened MqStream

  // ---------------------------------------------------------------- a request is always out

  /** With the reader idle, a packet that says more is to come has its successor asked for, unless the
      stream was aborted and that has been passed on. */
  ghost predicate Requested(s: State, more: set<nat>) {
    && (s.deadConnection ==> s.abort)
    && (s.reader == Released(true) ==> s.data.None? || s.data.value !in more)
    && (s.reader == Idle && s.data.Some? && s.data.value in more && !s.deadConnection ==> s.gopWaiting.Some?)
  }

  lemma RequestedStep(s: State, e: Step, more: set<nat>)
    requires Inv(s, more) && Enabled(s, e) && Requested(s, more)
    ensures Requested(Apply(s, e, more), more)
  {
    match e
    case Respond(r) => RespondKeeps(s, r, more);
    case Install(r) => InstallKeeps(s, r, more);
    case Release(r) => ReleaseKeeps(s, r, more);
    case _ =>
  }

  lemma {:induction false} RequestedOverRuns(trace: seq<State>, steps: seq<Step>, more: set<nat>, i: nat)
    requires IsRun(trace, steps, more) && i < |trace|
    ensures Requested(trace[i], more)
  {
    if i > 0 {
      RequestedOverRuns(trace, steps, more, i - 1);
      RunKeeps(trace, steps, more, i - 1);
      assert Follows(trace[i - 1], steps[i - 1], trace[i], more);
      RequestedStep(trace[i - 1], steps[i - 1], more);
    }
  }

  /** After an abort at most one more request is made, the one that passes it on, and `deadConnection` tells
      that it has been. */
  lemma {:induction false} AbortAsksOnce(trace: seq<State>, steps: seq<Step>, more: set<nat>, i: nat, j: nat)
    requires IsRun(trace, steps, more) && i < j < |trace| && steps[i] == Abort && !trace[i].abort
    ensures trace[j].abort && (trace[j].reader == Asking ==> trace[j].deadConnection)
    ensures |trace[j].handlers| ==
            |trace[i].handlers| + (if trace[j].deadConnection && trace[j].reader != Asking then 1 else 0)
    decreases j
  {
    assert Follows(trace[j - 1], steps[j - 1], trace[j], more);
    RequestedOverRuns(trace, steps, more, i);
    if i + 1 < j { AbortAsksOnce(trace, steps, more, i, j - 1); }
  }

  // ---------------------------------------------------------------- call by call

  /** `last` is the first packet that does not say more is to come. */
  ghost predicate EndsAt(more: set<nat>, last: nat) { last !in more && forall k :: 0 <= k < last ==> k in more }

  function Least(a: nat, b: nat): (m: nat) { if a < b then a else b }

  /** The packet at hand after `n` calls. The packet that came with the stream is never let go. */
  function AtHand(n: nat, last: nat): (d: Option<nat>) {
    if n == 0 || last == 0 then Some(0) else if n <= last then Some(n) else None
  }

  /** Whether the `n`-th call reports the end of the stream */
  predicate ReportsEnd(n: nat, last: nat) { last == 0 || n == last + 1 }

  /** Where the reader is in its `n`-th call, or between calls after it. */
  ghost predicate Stage(s: State, last: nat, n: nat) {
    && !s.abort && !s.deadConnection
    && match s.reader
       case Idle =>
         && |s.handlers| == Least(n + 1, last) && |s.unpacked| == Least(n, last) && s.data == AtHand(n, last)
         && (s.gopWaiting.Some? <==> n < last) && (n > 0 ==> (s.failed <==> ReportsEnd(n, last)))
       case Released(err) =>
         && n > 0 && |s.handlers| == Least(n, last) && |s.unpacked| == Least(n - 1, last) && (err <==> ReportsEnd(n, last))
         && (s.gopWaiting.Some? <==> n <= last) && (s.gopProcessed.None? ==> s.data == if n == 1 || last == 0 then Some(0) else None)
         && (s.data == AtHand(n - 1, last) || (s.data == None && n > 1 && last > 0))
       case AtWait =>
         && n > 0 && !ReportsEnd(n, last) && |s.handlers| == Least(n, last) && |s.unpacked| == Least(n - 1, last)
         && (s.gopWaiting.Some? <==> n <= last) && s.data == if n == 1 then Some(0) else None
       case Accepting => n > 0 && !ReportsEnd(n, last) && |s.handlers| == n <= last
       case Accepted =>
         && n > 0 && !ReportsEnd(n, last) && |s.handlers| == Least(n, last) && |s.unpacked| == Least(n, last)
         && (s.gopWaiting.Some? <==> n <= last) && s.data == AtHand(n, last)
       case Flipped =>
         && n > 0 && !ReportsEnd(n, last) && |s.handlers| == Least(n, last) && |s.unpacked| == Least(n, last)
         && s.data == AtHand(n, last)
       case Asking => 0 < n < last && |s.handlers| == n && |s.unpacked| == n && s.data == Some(n)
  }

  lemma StageStep(s: State, e: Step, more: set<nat>, last: nat, n: nat)
    requires Inv(s, more) && EndsAt(more, last) && Enabled(s, e) && e != Abort && Stage(s, last, n)
    ensures Stage(Apply(s, e, more), last, if e == Begin then n + 1 else n)
  {
    match e
    case Respond(r) => RespondKeeps(s, r, more);
    case Install(r) => InstallKeeps(s, r, more);
    case Release(r) => ReleaseKeeps(s, r, more);
    case _ =>
  }

  /** Calls begun in the first `i` steps */
  function Calls(steps: seq<Step>, i: nat): (n: nat)
    requires i <= |steps|
  {
    if i == 0 then 0 else Calls(steps, i - 1) + (if steps[i - 1] == Begin then 1 else 0)
  }

  lemma {:induction false} StageOverRuns(trace: seq<State>, steps: seq<Step>, more: set<nat>, last: nat, i: nat)
    requires IsRun(trace, steps, more) && i < |trace| && EndsAt(more, last) && forall k :: 0 <= k < i ==> steps[k] != Abort
    ensures Stage(trace[i], last, Calls(steps, i))
  {
    if i > 0 {
      StageOverRuns(trace, steps, more, last, i - 1);
      RunKeeps(trace, steps, more, i - 1);
      assert Follows(trace[i - 1], steps[i - 1], trace[i], more);
      StageStep(trace[i - 1], steps[i - 1], more, last, Calls(steps, i - 1));
    }
  }

  /** In every run without an abort, after `n` calls of a stream whose last packet is `last` just the
      packets 1 to `n` have been unpacked, or all there are, and one more is asked for if there is one. The
      end is reported by the call after the one that brought the last packet, and by no other, unless
      the stream has but one packet: then by every call. */
  lemma CallByCall(trace: seq<State>, steps: seq<Step>, more: set<nat>, last: nat, i: nat)
    requires IsRun(trace, steps, more) && i < |trace| && EndsAt(more, last) && forall k :: 0 <= k < i ==> steps[k] != Abort
    requires trace[i].reader == Idle
    ensures var s, n := trace[i], Calls(steps, i);
            && s.unpacked == UpTo(Least(n, last)) && |s.handlers| == Least(n + 1, last)
            && (s.gopWaiting == if n < last then Some(n + 1) else None)
            && (n > 0 ==> (s.failed <==> last == 0 || n == last + 1))
  {
    StageOverRuns(trace, steps, more, last, i);
    InOrder(trace, steps, more, i);
  }
}
