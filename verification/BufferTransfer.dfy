/** Resumable scatter and gather between a connection and an allocation (buffer_transfer.c).

    A request names a list of extents. Reading sends their bytes, in order, over a network that may
    take any number of bytes at a time; writing stores a received stream into them. Either may stop
    after any byte and go on from there in a later call. */
module BufferTransfer {

  type byte = x: int | 0 <= x < 256

  /** An extent with the total length of all extents up to and including it. */
  datatype Extent = Extent(off: nat, len: nat, cum: nat)

  function Length(vec: seq<Extent>): (n: nat) {
    if vec == [] then 0 else Length(vec[..|vec| - 1]) + vec[|vec| - 1].len
  }

  /** As the command parsers build it: no extent is empty and `cum` is a running total. */
  ghost predicate WellFormed(vec: seq<Extent>) {
    forall i :: 0 <= i < |vec| ==> ExtentOk(vec, i)
  }

  ghost predicate ExtentOk(vec: seq<Extent>, i: nat)
    requires i < |vec|
  {
    vec[i].len >= 1 && vec[i].cum == Length(vec[..i + 1])
  }

  /** The address of byte `p` of the stream: the extents laid end to end. */
  function Addr(vec: seq<Extent>, p: nat): (a: nat)
    requires p < Length(vec)
  {
    var last := |vec| - 1;
    var start := Length(vec[..last]);
    if p >= start then vec[last].off + (p - start) else Addr(vec[..last], p)
  }

  function Get(disk: map<nat, byte>, a: nat): (b: byte) {
    if a in disk then disk[a] else 0
  }

  function Bytes(disk: map<nat, byte>, off: nat, len: nat): (s: seq<byte>)
    ensures |s| == len && forall i :: 0 <= i < len ==> s[i] == Get(disk, off + i)
    decreases len
  {
    if len == 0 then [] else Bytes(disk, off, len - 1) + [Get(disk, off + len - 1)]
  }

  /** The stream a reader is to receive. */
  function Stream(disk: map<nat, byte>, vec: seq<Extent>): (s: seq<byte>)
    ensures |s| == Length(vec)
  {
    if vec == [] then []
    else
      var last := vec[|vec| - 1];
      Stream(disk, vec[..|vec| - 1]) + Bytes(disk, last.off, last.len)
  }

  /** The concatenated extents, byte by byte. */
  lemma {:induction false} StreamAt(disk: map<nat, byte>, vec: seq<Extent>, p: nat)
    requires p < Length(vec)
    ensures Stream(disk, vec)[p] == Get(disk, Addr(vec, p))
  {
    var front := vec[..|vec| - 1];
    if p < Length(front) {
      StreamAt(disk, front, p);
    }
  }

  /** The disk after the stream bytes `data` have been stored one by one from stream position `p`. */
  function Spread(disk: map<nat, byte>, vec: seq<Extent>, p: nat, data: seq<byte>): (d: map<nat, byte>)
    requires p + |data| <= Length(vec)
    decreases |data|
  {
    if data == [] then disk
    else Spread(disk[Addr(vec, p) := data[0]], vec, p + 1, data[1..])
  }

  /** The allocation's size after the bytes at stream positions `p` to `q` have been stored. */
  function Grown(size: nat, vec: seq<Extent>, p: nat, q: nat): (n: nat)
    requires p <= q <= Length(vec)
    decreases q
  {
    if p == q then size
    else
      var n := Grown(size, vec, p, q - 1);
      var last := Addr(vec, q - 1);
      if last >= n then last + 1 else n
  }

  /** That size is the larger of the old one and the furthest end of a stored byte. */
  lemma {:induction false} GrownIsFurthest(size: nat, vec: seq<Extent>, p: nat, q: nat)
    requires p <= q <= Length(vec)
    ensures var n := Grown(size, vec, p, q);
            && n >= size && (forall r :: p <= r < q ==> Addr(vec, r) < n)
            && (n > size ==> exists r :: p <= r < q && Addr(vec, r) == n - 1)
    decreases q
  {
    if p < q {
      GrownIsFurthest(size, vec, p, q - 1);
      assert Addr(vec, q - 1) < Grown(size, vec, p, q);
    }
  }

  // ---------------------------------------------------------------- positions in the list

  lemma {:induction false} LengthMonotone(vec: seq<Extent>, i: nat, j: nat)
    requires i <= j <= |vec|
    ensures Length(vec[..i]) <= Length(vec[..j])
  {
    if i < j {
      assert vec[..j][..j - 1] == vec[..j - 1];
      LengthMonotone(vec, i, j - 1);
    }
  }

  /** Extent `i` starts where the extents before it end. */
  lemma ExtentBounds(vec: seq<Extent>, i: nat)
    requires WellFormed(vec) && i < |vec|
    ensures vec[i].len >= 1 && vec[i].cum - vec[i].len == Length(vec[..i])
    ensures Length(vec[..i + 1]) == vec[i].cum <= Length(vec)
  {
    assert ExtentOk(vec, i);
    assert vec[..i + 1][..i] == vec[..i];
    assert vec[..|vec|] == vec;
    LengthMonotone(vec, i + 1, |vec|);
  }

  lemma {:induction false} AddrIn(vec: seq<Extent>, i: nat, p: nat)
    requires i < |vec| && Length(vec[..i]) <= p < Length(vec[..i]) + vec[i].len
    ensures p < Length(vec) && Addr(vec, p) == vec[i].off + (p - Length(vec[..i]))
  {
    var last := |vec| - 1;
    if i < last {
      var front := vec[..last];
      assert front[..i] == vec[..i];
      AddrIn(front, i, p);
    }
  }

  /** Stream position `p` is `ioff` in extent `index`, with `ileft` bytes of it to come. */
  ghost predicate At(vec: seq<Extent>, index: int, ioff: int, ileft: int, p: nat) {
    && 0 <= index < |vec|
    && vec[index].cum - vec[index].len <= p < vec[index].cum
    && ioff == vec[index].off + (p - (vec[index].cum - vec[index].len))
    && ileft == vec[index].cum - p
  }

  /** `iovec_start` */
  method IovecStart(vec: seq<Extent>, transferTotal: nat) returns (index: int, ioff: int, ileft: int)
    requires WellFormed(vec)
    ensures transferTotal < Length(vec) ==> At(vec, index, ioff, ileft, transferTotal)
    ensures transferTotal >= Length(vec) ==> index == -1 && ioff == 0 && ileft == 0
  {
    var i := 0;
    assert vec[..0] == [];
    while i < |vec| && transferTotal >= vec[i].cum
      invariant 0 <= i <= |vec|
      invariant Length(vec[..i]) <= transferTotal
    {
      ExtentBounds(vec, i);
      i := i + 1;
    }
    if i < |vec| {
      index := i;
      ExtentBounds(vec, i);
      var n := transferTotal;
      if i > 0 {
        ExtentBounds(vec, i - 1);
        n := transferTotal - vec[i - 1].cum;
      }
      ioff := vec[i].off + n;
      ileft := vec[i].len - n;
    } else {
      assert vec[..|vec|] == vec;
      index, ioff, ileft := -1, 0, 0;
    }
  }

  /** The `n` stream bytes from position `p` lie side by side from address `off`. */
  ghost predicate Run(vec: seq<Extent>, p: nat, n: nat, off: nat) {
    p + n <= Length(vec) && forall r :: p <= r < p + n ==> Addr(vec, r) == off + (r - p)
  }

  lemma PieceRun(vec: seq<Extent>, index: int, ioff: int, ileft: int, p: nat, n: nat)
    requires WellFormed(vec) && At(vec, index, ioff, ileft, p) && n <= ileft
    ensures ioff >= 0 && Run(vec, p, n, ioff)
  {
    ExtentBounds(vec, index);
    forall r | p <= r < p + n
      ensures r < Length(vec) && Addr(vec, r) == ioff + (r - p)
    {
      AddrIn(vec, index, r);
    }
  }

  /** `s` is what the stream holds from position `p` on. */
  ghost predicate Slice(disk: map<nat, byte>, vec: seq<Extent>, p: nat, s: seq<byte>) {
    p + |s| <= Length(vec) && s == Stream(disk, vec)[p..p + |s|]
  }

  lemma RunSlice(disk: map<nat, byte>, vec: seq<Extent>, p: nat, n: nat, off: nat)
    requires Run(vec, p, n, off)
    ensures Slice(disk, vec, p, Bytes(disk, off, n))
  {
    forall r | p <= r < p + n
      ensures Stream(disk, vec)[r] == Get(disk, off + (r - p))
    {
      StreamAt(disk, vec, r);
    }
  }

  lemma SliceExtend(disk: map<nat, byte>, vec: seq<Extent>, p: nat, a: seq<byte>, b: seq<byte>)
    requires Slice(disk, vec, p, a) && Slice(disk, vec, p + |a|, b)
    ensures Slice(disk, vec, p, a + b)
  {
  }

  /** `s` is what the stream holds from position `p` on, but for `junk` at the positions `lost`. */
  ghost predicate Mixed(disk: map<nat, byte>, vec: seq<Extent>, p: nat, s: seq<byte>, lost: set<nat>, junk: nat -> byte) {
    && p + |s| <= Length(vec)
    && forall i :: 0 <= i < |s| ==> s[i] == if p + i in lost then junk(p + i) else Stream(disk, vec)[p + i]
  }

  ghost predicate Within(lost: set<nat>, lo: int, hi: int) { forall x :: x in lost ==> lo <= x < hi }

  ghost function Span(p: nat, n: nat): (r: set<nat>)
    ensures forall x :: x in r <==> p <= x < p + n
  {
    if n == 0 then {} else Span(p, n - 1) + {p + n - 1}
  }

  lemma MixedNone(disk: map<nat, byte>, vec: seq<Extent>, p: nat, s: seq<byte>, junk: nat -> byte)
    requires p + |s| <= Length(vec)
    ensures Mixed(disk, vec, p, s, {}, junk) <==> Slice(disk, vec, p, s)
  {
    if Slice(disk, vec, p, s) {
      forall i | 0 <= i < |s|
        ensures s[i] == Stream(disk, vec)[p + i]
      {
        assert s[i] == Stream(disk, vec)[p..p + |s|][i];
      }
    }
  }

  lemma MixedExtend(disk: map<nat, byte>, vec: seq<Extent>, p: nat, a: seq<byte>, b: seq<byte>, la: set<nat>,
                    lb: set<nat>, junk: nat -> byte)
    requires Mixed(disk, vec, p, a, la, junk) && Within(la, p, p + |a|)
    requires Mixed(disk, vec, p + |a|, b, lb, junk) && Within(lb, p + |a|, Length(vec))
    ensures Mixed(disk, vec, p, a + b, la + lb, junk)
  {
    forall i | 0 <= i < |a + b|
      ensures (a + b)[i] == if p + i in la + lb then junk(p + i) else Stream(disk, vec)[p + i]
    {
      if i >= |a| { assert (a + b)[i] == b[i - |a|]; }
    }
  }

  /** What a reading call from position `p` on has sent, with nothing lost further back than one buffer */
  ghost predicate Sent(disk: map<nat, byte>, vec: seq<Extent>, p: nat, sent: seq<byte>, lost: set<nat>,
                       junk: nat -> byte, bufsize: nat) {
    Mixed(disk, vec, p, sent, lost, junk) && Within(lost, p, Length(vec)) && Within(lost, p + |sent| - bufsize, Length(vec))
  }

  lemma SentMore(disk: map<nat, byte>, vec: seq<Extent>, p: nat, sent: seq<byte>, buffer: seq<byte>, n: nat,
                 lost: set<nat>, junk: nat -> byte, bufsize: nat)
    requires Mixed(disk, vec, p, sent, {}, junk) && n <= |buffer| <= bufsize
    requires Mixed(disk, vec, p + |sent|, buffer, lost, junk) && Within(lost, p + |sent|, p + |sent| + |buffer|)
    ensures Sent(disk, vec, p, sent + buffer[..n], lost, junk, bufsize)
  {
    MixedExtend(disk, vec, p, sent, buffer[..n], {}, lost, junk);
    assert {} + lost == lost;
  }

  /** Moving `n` bytes on inside an extent, and to the next one at its end. */
  lemma Advance(vec: seq<Extent>, index: int, ioff: int, ileft: int, p: nat, n: nat)
    requires WellFormed(vec) && At(vec, index, ioff, ileft, p) && n <= ileft
    ensures n < ileft ==> At(vec, index, ioff + n, ileft - n, p + n)
    ensures n == ileft && index < |vec| - 1 ==> At(vec, index + 1, vec[index + 1].off, vec[index + 1].len, p + n)
    ensures n == ileft && index == |vec| - 1 ==> p + n == Length(vec)
  {
    ExtentBounds(vec, index);
    assert vec[..|vec|] == vec;
    if n == ileft && index < |vec| - 1 { ExtentBounds(vec, index + 1); }
  }

  // ---------------------------------------------------------------- spreading in pieces

  lemma {:induction false} SpreadConcat(disk: map<nat, byte>, vec: seq<Extent>, p: nat, a: seq<byte>, b: seq<byte>)
    requires p + |a| + |b| <= Length(vec)
    ensures Spread(disk, vec, p, a + b) == Spread(Spread(disk, vec, p, a), vec, p + |a|, b)
    decreases |a|
  {
    if a == [] {
      assert a + b == b;
    } else {
      assert (a + b)[1..] == a[1..] + b;
      SpreadConcat(disk[Addr(vec, p) := a[0]], vec, p + 1, a[1..], b);
    }
  }

  lemma SpreadMore(disk: map<nat, byte>, vec: seq<Extent>, p: nat, data: seq<byte>, i: nat, n: nat)
    requires i + n <= |data| && p + i + n <= Length(vec)
    ensures Spread(Spread(disk, vec, p, data[..i]), vec, p + i, data[i..i + n]) == Spread(disk, vec, p, data[..i + n])
  {
    assert data[..i] + data[i..i + n] == data[..i + n];
    SpreadConcat(disk, vec, p, data[..i], data[i..i + n]);
  }

  /** `write_allocation` */
  function WriteAt(disk: map<nat, byte>, off: nat, data: seq<byte>): (d: map<nat, byte>)
    decreases |data|
  {
    if data == [] then disk else WriteAt(disk[off := data[0]], off + 1, data[1..])
  }

  lemma {:induction false} WriteAtIsSpread(disk: map<nat, byte>, vec: seq<Extent>, off: nat, p: nat, data: seq<byte>)
    requires Run(vec, p, |data|, off)
    ensures WriteAt(disk, off, data) == Spread(disk, vec, p, data)
    decreases |data|
  {
    if data != [] {
      WriteAtIsSpread(disk[off := data[0]], vec, off + 1, p + 1, data[1..]);
    }
  }

  lemma {:induction false} GrownConcat(size: nat, vec: seq<Extent>, p: nat, q: nat, r: nat)
    requires p <= q <= r <= Length(vec)
    ensures Grown(Grown(size, vec, p, q), vec, q, r) == Grown(size, vec, p, r)
    decreases r
  {
    if q < r { GrownConcat(size, vec, p, q, r - 1); }
  }

  lemma {:induction false} GrownRun(size: nat, vec: seq<Extent>, off: nat, p: nat, n: nat)
    requires Run(vec, p, n, off)
    ensures Grown(size, vec, p, p + n) == if n > 0 && off + n > size then off + n else size
  {
    if n > 0 {
      GrownRun(size, vec, off, p, n - 1);
      assert Addr(vec, p + n - 1) == off + (n - 1);
    }
  }

  // ---------------------------------------------------------------- the two transfer routines

  /** The `i`-th result of a network call; one that is not there transfers nothing. */
  function Result(net: seq<int>, i: nat): (n: int) { if i < |net| then net[i] else 0 }

  predicate Fails(errs: seq<bool>, i: nat) { i < |errs| && errs[i] }

  /** What the network calls from `a` up to `b` took in all, how many took nothing and how many took
      something, and whether one found the connection dead */
  function Sum(net: seq<int>, a: nat, b: nat): (n: nat)
    requires a <= b
    decreases b
  {
    if a == b then 0 else Sum(net, a, b - 1) + (if Result(net, b - 1) > 0 then Result(net, b - 1) else 0)
  }

  function Empties(net: seq<int>, a: nat, b: nat): (n: nat)
    requires a <= b
    decreases b
  {
    if a == b then 0 else Empties(net, a, b - 1) + (if Result(net, b - 1) == 0 then 1 else 0)
  }

  function Takes(net: seq<int>, a: nat, b: nat): (n: nat)
    requires a <= b
    decreases b
  {
    if a == b then 0 else Takes(net, a, b - 1) + (if Result(net, b - 1) > 0 then 1 else 0)
  }

  predicate Dead(net: seq<int>, a: nat, b: nat)
    requires a <= b
    decreases b
  {
    a < b && (Dead(net, a, b - 1) || Result(net, b - 1) < 0)
  }

  lemma {:induction false} SplitCalls(net: seq<int>, a: nat, b: nat, c: nat)
    requires a <= b <= c
    ensures Sum(net, a, c) == Sum(net, a, b) + Sum(net, b, c) && Empties(net, a, c) == Empties(net, a, b) + Empties(net, b, c)
    ensures Takes(net, a, c) == Takes(net, a, b) + Takes(net, b, c) && (Dead(net, a, c) <==> Dead(net, a, b) || Dead(net, b, c))
    decreases c
  {
    if b < c { SplitCalls(net, a, b, c - 1); }
  }

  lemma {:induction false} TakesSomething(net: seq<int>, a: nat, b: nat)
    requires a <= b
    ensures Takes(net, a, b) <= Sum(net, a, b)
    ensures (forall i :: a <= i < b ==> Result(net, i) > 0) ==> Empties(net, a, b) == 0 && !Dead(net, a, b)
    decreases b
  {
    if a < b { TakesSomething(net, a, b - 1); }
  }

  /** After the calls from `a` up to `j` there is reason for another: bytes are wanted, fewer than three
      calls have come up empty and the connection is alive. */
  ghost predicate Going(net: seq<int>, a: nat, j: nat, want: nat, short: nat)
    requires a <= j
  {
    Sum(net, a, j) < want && short + Empties(net, a, j) < 3 && !Dead(net, a, j)
  }

  /** The calls from `a` up to `b` are those made for `want` bytes: at least one, and no more than needed. */
  ghost predicate Called(net: seq<int>, a: nat, b: nat, want: nat, short: nat) {
    a < b && (forall j :: a < j < b ==> Going(net, a, j, want, short)) && !Going(net, a, b, want, short)
  }

  ghost predicate DiskFault(errs: seq<bool>) { exists i: nat :: Fails(errs, i) }

  function Min(a: int, b: int): (m: int) { if a < b then a else b }

  /** One call of the reading routine, as its caller sees it: `sent` went out from stream position
      `p`, and the next call starts at `q`. `fault` reports a failed disk read. */
  ghost predicate Gathers(vec: seq<Extent>, disk: map<nat, byte>, p: nat, q: nat, sent: seq<byte>, status: int,
                          fault: bool) {
    && p <= q <= Length(vec) && |sent| == q - p
    && (fault ==> status == -1)
    && (!fault ==> Slice(disk, vec, p, sent))
    && (status == 1 ==> q == Length(vec))
    && (status == 0 ==> q < Length(vec))
    && status in {-1, 0, 1}
  }

  /** One call of the writing routine: the bytes `data` came in and were stored from position `p`. */
  ghost predicate Scatters(vec: seq<Extent>, before: map<nat, byte>, size: nat, p: nat, after: map<nat, byte>,
                           size': nat, q: nat, data: seq<byte>, status: int) {
    && p <= q <= Length(vec) && |data| == q - p
    && after == Spread(before, vec, p, data)
    && size' == Grown(size, vec, p, q)
    && (status == 1 ==> q == Length(vec))
    && (status == 0 ==> q < Length(vec))
    && status in {-1, 0, 1}
  }

  /** Sends the buffer until it is gone or the network is stuck; `short` counts the empty writes and
      is 100 or more once the connection or the disk has failed. A buffer with a `bad` part is offered once. */
  method Send(buffer: seq<byte>, net: seq<int>, k0: nat, bad: bool)
    returns (sent: nat, k: nat, short: nat)
    requires buffer != []
    ensures k0 < k && sent == Min(Sum(net, k0, k), |buffer|)
    ensures !bad ==> Called(net, k0, k, |buffer|, 0) && short == if Dead(net, k0, k) then 100 else Empties(net, k0, k)
    ensures bad ==> k == k0 + 1 && short >= 100
    ensures sent >= Takes(net, k0, k)
  {
    sent, k, short := 0, k0, if bad then 100 else 0;
    var again := true;
    while again
      invariant k0 <= k && sent == Min(Sum(net, k0, k), |buffer|) && (again ==> sent < |buffer|) && sent >= Takes(net, k0, k)
      invariant !bad ==> short == if Dead(net, k0, k) then 100 else Empties(net, k0, k)
      invariant !bad && again ==> forall j :: k0 <= j <= k ==> Going(net, k0, j, |buffer|, 0)
      invariant !bad && !again ==> Called(net, k0, k, |buffer|, 0)
      invariant bad ==> k == (if again then k0 else k0 + 1) && short >= 100
      decreases again, |buffer| - sent, if short < 3 then 3 - short else 0
    {
      assert !bad ==> Going(net, k0, k, |buffer|, 0);
      var n := Min(Result(net, k), |buffer| - sent);
      if n > 0 {
        sent := sent + n;
      } else if n == 0 {
        short := short + 1;
      } else {
        short := if bad then short else 100;
      }
      k := k + 1;
      again := sent < |buffer| && short < 3;
    }
  }

  /** Reads from the network until `want` bytes are in or three reads have come up empty. */
  method Receive(want: nat, net: seq<int>, k0: nat, short0: nat) returns (got: nat, k: nat, short: nat)
    requires want > 0 && short0 < 3
    ensures Called(net, k0, k, want, short0) && got == Min(Sum(net, k0, k), want)
    ensures short == if Dead(net, k0, k) then 100 else short0 + Empties(net, k0, k)
  {
    got, k, short := 0, k0, short0;
    var again := true;
    while again
      invariant k0 <= k && got == Min(Sum(net, k0, k), want) && (again ==> got < want)
      invariant short == if Dead(net, k0, k) then 100 else short0 + Empties(net, k0, k)
      invariant again ==> forall j :: k0 <= j <= k ==> Going(net, k0, j, want, short0)
      invariant !again ==> Called(net, k0, k, want, short0)
      decreases again, want - got, if short < 3 then 3 - short else 0
    {
      assert Going(net, k0, k, want, short0);
      var n := Min(Result(net, k), want - got);
      if n > 0 {
        got := got + n;
      } else if n == 0 {
        short := short + 1;
      } else {
        short := 100;
      }
      k := k + 1;
      again := got < want && short < 3;
    }
  }

  /** How a call ends that made the first `k` network calls and moved `n` bytes: it reports a dead connection
      exactly if a network call or the disk failed, it gives up only after three empty calls, and what the
      network takes is what moves, so that a network that always takes something brings it to the end. */
  ghost predicate Ended(net: seq<int>, k: nat, n: nat, status: int, fault: bool) {
    && Takes(net, 0, k) <= n <= Sum(net, 0, k)
    && (status == -1 <==> fault || Dead(net, 0, k))
    && (status == 0 ==> k > 0 && Empties(net, 0, k) >= 3 && Result(net, k - 1) == 0)
    && (!fault && (forall i :: 0 <= i < k ==> Result(net, i) > 0) ==> status == 1)
  }

  lemma EndedBy(net: seq<int>, k: nat, n: nat, status: int, fault: bool)
    requires Takes(net, 0, k) <= n <= Sum(net, 0, k) && status in {-1, 0, 1} && (status == -1 <==> fault || Dead(net, 0, k))
    requires status == 0 ==> k > 0 && Empties(net, 0, k) >= 3 && Result(net, k - 1) == 0
    ensures Ended(net, k, n, status, fault)
  {
    TakesSomething(net, 0, k);
  }

  /** The last of the calls made for `want` bytes that did not bring them all is an empty one or a dead one. */
  lemma LastCall(net: seq<int>, a: nat, b: nat, want: nat, short: nat)
    requires Called(net, a, b, want, short) && want > 0 && short < 3
    ensures !Dead(net, a, b) && short + Empties(net, a, b) >= 3 ==> Result(net, b - 1) == 0 && Sum(net, a, b) < want
    ensures short + Empties(net, a, b) <= 3
  {
    if a + 1 < b {
      assert Going(net, a, b - 1, want, short);
    } else {
      assert Empties(net, a, b - 1) == 0 && Sum(net, a, b - 1) == 0;
    }
  }

  /** The bytes the other end sends, from the `a`-th up to the `b`-th */
  function Wire(wire: nat -> byte, a: nat, b: nat): (s: seq<byte>)
    requires a <= b
    ensures |s| == b - a && forall i :: 0 <= i < b - a ==> s[i] == wire(a + i)
  {
    seq(b - a, i requires 0 <= i => wire(a + i))
  }

  /** One request and the allocation it works on. */
  class Request {
    const vec: seq<Extent>
    const bufsize: nat
    var transferTotal: nat
    var left: nat
    var disk: map<nat, byte>
    var size: nat

    ghost predicate Valid()
      reads this
    {
      WellFormed(vec) && bufsize >= 1 && transferTotal + left == Length(vec)
    }

    constructor (vec: seq<Extent>, bufsize: nat, disk: map<nat, byte>, size: nat)
      requires WellFormed(vec) && bufsize >= 1
      ensures Valid() && transferTotal == 0 && this.vec == vec && this.disk == disk && this.size == size
      ensures this.bufsize == bufsize
    {
      this.vec := vec;
      this.bufsize := bufsize;
      this.disk := disk;
      this.size := size;
      transferTotal := 0;
      left := Length(vec);
    }

    /** Fills the buffer from the extents. `bad` reports a failed disk read, which leaves `junk` in its part
        of the buffer: at the positions `lost`. */
    method Fill(index0: int, ioff0: int, ileft0: int, p: nat, errs: seq<bool>, e0: nat, junk: nat -> byte)
      returns (buffer: seq<byte>, index: int, ioff: int, ileft: int, e: nat, bad: bool, ghost lost: set<nat>)
      requires WellFormed(vec) && bufsize >= 1 && At(vec, index0, ioff0, ileft0, p)
      ensures |buffer| == Min(bufsize, Length(vec) - p) > 0
      ensures p + |buffer| < Length(vec) ==> At(vec, index, ioff, ileft, p + |buffer|)
      ensures Mixed(disk, vec, p, buffer, lost, junk) && Within(lost, p, p + |buffer|)
      ensures bad <==> lost != {}
      ensures bad ==> DiskFault(errs)
    {
      buffer, index, ioff, ileft, e, bad, lost := [], index0, ioff0, ileft0, e0, false, {};
      ExtentBounds(vec, index);
      var bleft, finished := bufsize, false;
      while bleft > 0 && !finished
        invariant 0 <= bleft && bleft + |buffer| == bufsize && p + |buffer| <= Length(vec)
        invariant p + |buffer| < Length(vec) ==> At(vec, index, ioff, ileft, p + |buffer|)
        invariant p + |buffer| == Length(vec) ==> finished
        invariant finished ==> |buffer| > 0 && (bleft == 0 || p + |buffer| == Length(vec))
        invariant Mixed(disk, vec, p, buffer, lost, junk) && Within(lost, p, p + |buffer|)
        invariant bad <==> lost != {}
        invariant bad ==> DiskFault(errs)
      {
        var cleft := if bleft > ileft then ileft else bleft;
        ghost var more;
        PieceRun(vec, index, ioff, ileft, p + |buffer|, cleft);
        var piece;
        piece, more := ReadAllocation(ioff, cleft, p + |buffer|, junk, Fails(errs, e));
        MixedExtend(disk, vec, p, buffer, piece, lost, more, junk);
        lost := lost + more;
        bad := bad || Fails(errs, e);
        bleft := bleft - cleft;
        index, ioff, ileft, finished := Move(index, ioff, ileft, p + |buffer|, cleft);
        buffer := buffer + piece;
        e := e + 1;
      }
    }

    /** Moves on by `n` bytes, to the next extent at the end of one. `last` tells of the last extent. */
    method Move(index0: int, ioff0: int, ileft0: int, p: nat, n: nat)
      returns (index: int, ioff: int, ileft: int, last: bool)
      requires WellFormed(vec) && At(vec, index0, ioff0, ileft0, p) && n <= ileft0
      ensures p + n <= Length(vec)
      ensures p + n < Length(vec) ==> At(vec, index, ioff, ileft, p + n)
      ensures p + n == Length(vec) ==> last
      ensures last && n == ileft0 ==> p + n == Length(vec)
    {
      Advance(vec, index0, ioff0, ileft0, p, n);
      ExtentBounds(vec, index0);
      index, ioff, ileft, last := index0, ioff0 + n, ileft0 - n, false;
      if ileft <= 0 && index < |vec| - 1 {
        index := index + 1;
        ileft := vec[index].len;
        ioff := vec[index].off;
        ExtentBounds(vec, index);
      } else if index >= |vec| - 1 {
        last := true;
      }
    }

    /** `read_allocation` for stream position `p`; a failed one leaves the buffer as it was. */
    method ReadAllocation(off: nat, len: nat, p: nat, junk: nat -> byte, fails: bool)
      returns (piece: seq<byte>, ghost lost: set<nat>)
      requires Run(vec, p, len, off) && len > 0
      ensures |piece| == len && Mixed(disk, vec, p, piece, lost, junk) && Within(lost, p, p + len)
      ensures fails <==> lost != {}
    {
      if fails {
        piece := seq(len, i requires 0 <= i => junk(p + i));
        lost := Span(p, len);
        assert p in lost;
      } else {
        piece, lost := Bytes(disk, off, len), {};
        RunSlice(disk, vec, p, len, off);
        MixedNone(disk, vec, p, piece, junk);
      }
    }

    /** One turn of `read_from_disk_user`: a buffer is filled and sent. */
    method SendNext(index0: int, ioff0: int, ileft0: int, net: seq<int>, k0: nat, errs: seq<bool>, e0: nat,
                    junk: nat -> byte, ghost p: nat, sent0: seq<byte>)
      returns (sent: seq<byte>, index: int, ioff: int, ileft: int, k: nat, e: nat, short: nat, bad: bool, ghost lost: set<nat>)
      requires Valid() && At(vec, index0, ioff0, ileft0, transferTotal) && p + |sent0| == transferTotal
      requires Mixed(disk, vec, p, sent0, {}, junk) && ReadTally(net, k0, |sent0|, 0, false)
      modifies this`transferTotal, this`left
      ensures Valid() && p + |sent| == transferTotal && left <= old(left) && (short < 3 ==> left < old(left))
      ensures left > 0 && short < 3 ==> At(vec, index, ioff, ileft, transferTotal)
      ensures Sent(disk, vec, p, sent, lost, junk, bufsize) && (bad <==> lost != {}) && (bad ==> DiskFault(errs))
      ensures ReadTally(net, k, |sent|, short, bad) && (3 <= short < 100 ==> left > 0)
    {
      var buffer;
      buffer, index, ioff, ileft, e, bad, lost := Fill(index0, ioff0, ileft0, transferTotal, errs, e0, junk);
      var btotal;
      btotal, k, short := Send(buffer, net, k0, bad);
      ReadTallyMore(net, k0, k, |sent0|, |buffer|, btotal, short, bad);
      SentMore(disk, vec, p, sent0, buffer, btotal, lost, junk, bufsize);
      sent := sent0 + buffer[..btotal];
      left := left - btotal;
      transferTotal := transferTotal + btotal;
    }

    /** `read_from_disk_user`, with `k` the number of network calls it made. After a failed disk read the
        buffer is sent and counted all the same: what went out is the stream, but for `junk` at the positions
        `lost`, none of them further back than the last buffer. */
    method ReadFromDisk(net: seq<int>, errs: seq<bool>, junk: nat -> byte)
      returns (sent: seq<byte>, status: int, fault: bool, k: nat, ghost lost: set<nat>)
      requires Valid()
      modifies this`transferTotal, this`left
      ensures Valid()
      ensures Gathers(vec, disk, old(transferTotal), transferTotal, sent, status, fault)
      ensures fault <==> lost != {}
      ensures Sent(disk, vec, old(transferTotal), sent, lost, junk, bufsize)
      ensures fault ==> DiskFault(errs)
      ensures Ended(net, k, |sent|, status, fault)
    {
      sent, fault, k, lost := [], false, 0, {};
      if left == 0 { return sent, 1, false, 0, {}; }
      ghost var p := transferTotal;
      var index, ioff, ileft := IovecStart(vec, transferTotal);
      var e, short := 0, 0;
      while left > 0 && short < 3
        invariant Valid() && p + |sent| == transferTotal
        invariant left > 0 && short < 3 ==> At(vec, index, ioff, ileft, transferTotal)
        invariant fault <==> lost != {}
        invariant Sent(disk, vec, p, sent, lost, junk, bufsize)
        invariant fault ==> DiskFault(errs)
        invariant ReadTally(net, k, |sent|, short, fault) && (3 <= short < 100 ==> left > 0)
        decreases left, short < 3
      {
        assert lost == {} && !fault;
        sent, index, ioff, ileft, k, e, short, fault, lost := SendNext(index, ioff, ileft, net, k, errs, e, junk, p, sent);
      }
      status := if short >= 100 then -1 else if left == 0 then 1 else 0;
      if !fault { MixedNone(disk, vec, p, sent, junk); }
      EndedBy(net, k, |sent|, status, fault);
    }

    /** Stores the received bytes, extent by extent. A failed write stores nothing of its piece and
        ends the loop with code 1. */
    method Store(data: seq<byte>, index0: int, ioff0: int, ileft0: int, errs: seq<bool>, e0: nat)
      returns (index: int, ioff: int, ileft: int, e: nat, bad: bool)
      requires Valid() && data != [] && |data| <= left
      requires At(vec, index0, ioff0, ileft0, transferTotal)
      modifies this`transferTotal, this`left, this`disk, this`size
      ensures Valid() && old(transferTotal) < transferTotal <= old(transferTotal) + |data|
      ensures left > 0 ==> At(vec, index, ioff, ileft, transferTotal)
      ensures size == Grown(old(size), vec, old(transferTotal), transferTotal)
      ensures !bad ==> transferTotal == old(transferTotal) + |data|
      ensures !bad ==> disk == Spread(old(disk), vec, old(transferTotal), data)
      ensures bad ==> DiskFault(errs)
    {
      index, ioff, ileft, e, bad := index0, ioff0, ileft0, e0, false;
      ghost var p, was, grew := transferTotal, disk, size;
      var bpos, nread := 0, |data|;
      while nread > 0
        invariant Valid() && 0 <= bpos <= |data| && transferTotal == p + bpos
        invariant bpos > 0 || nread == |data|
        invariant left > 0 ==> At(vec, index, ioff, ileft, transferTotal)
        invariant !bad ==> nread == |data| - bpos && disk == Spread(was, vec, p, data[..bpos])
        invariant size == Grown(grew, vec, p, transferTotal)
        invariant bad ==> DiskFault(errs) && nread <= 0
      {
        var cleft := if nread > ileft then ileft else nread;
        var piece := data[bpos..bpos + cleft];
        SpreadMore(was, vec, p, data, bpos, cleft);
        GrownConcat(grew, vec, p, p + bpos, p + bpos + cleft);
        bad := Fails(errs, e);
        if bad { nread := 1; }
        index, ioff, ileft := StorePiece(piece, index, ioff, ileft, bad);
        e := e + 1;
        bpos := bpos + cleft;
        nread := nread - cleft;
      }
      assert data[..|data|] == data;
    }

    method StorePiece(piece: seq<byte>, index0: int, ioff0: int, ileft0: int, fails: bool)
      returns (index: int, ioff: int, ileft: int)
      requires Valid() && At(vec, index0, ioff0, ileft0, transferTotal) && 0 < |piece| <= ileft0
      modifies this`transferTotal, this`left, this`disk, this`size
      ensures Valid() && transferTotal == old(transferTotal) + |piece|
      ensures left > 0 ==> At(vec, index, ioff, ileft, transferTotal)
      ensures disk == if fails then old(disk) else Spread(old(disk), vec, old(transferTotal), piece)
      ensures size == Grown(old(size), vec, old(transferTotal), transferTotal)
    {
      PieceRun(vec, index0, ioff0, ileft0, transferTotal, |piece|);
      WriteAtIsSpread(disk, vec, ioff0, transferTotal, piece);
      GrownRun(size, vec, ioff0, transferTotal, |piece|);
      if !fails {
        disk := WriteAt(disk, ioff0, piece);
      }
      if ioff0 + |piece| > size { size := ioff0 + |piece|; }
      var last;
      index, ioff, ileft, last := Move(index0, ioff0, ileft0, transferTotal, |piece|);
      transferTotal := transferTotal + |piece|;
      left := left - |piece|;
    }

    /** One turn of `write_to_disk_user`: a buffer is received and stored. */
    method StoreNext(wire: nat -> byte, w0: nat, index0: int, ioff0: int, ileft0: int, net: seq<int>, k0: nat,
                     errs: seq<bool>, e0: nat, short0: nat, ghost p: nat, ghost was: map<nat, byte>, ghost grew: nat)
      returns (w: nat, index: int, ioff: int, ileft: int, k: nat, e: nat, short: nat, fault: bool)
      requires Valid() && At(vec, index0, ioff0, ileft0, transferTotal) && left > 0 && short0 < 3
      requires Stored(vec, was, grew, p, wire, w0, disk, size, transferTotal) && Tally(net, k0, w0, short0)
      modifies this`transferTotal, this`left, this`disk, this`size
      ensures Valid() && p <= transferTotal && size == Grown(grew, vec, p, transferTotal)
      ensures left <= old(left) && (short < 3 ==> left < old(left))
      ensures left > 0 && !fault ==> At(vec, index, ioff, ileft, transferTotal)
      ensures !fault ==> Stored(vec, was, grew, p, wire, w, disk, size, transferTotal) && Tally(net, k, w, short)
      ensures !fault && 3 <= short < 100 ==> left > 0
      ensures fault ==> DiskFault(errs) && short >= 100
    {
      var got, want;
      w, index, ioff, ileft, e, fault := w0, index0, ioff0, ileft0, e0, false;
      want := if left < bufsize then left else bufsize;
      got, k, short := Receive(want, net, k0, short0);
      TallyMore(net, k0, k, w, want, short0, short);
      if got > 0 {
        ghost var t := transferTotal;
        index, ioff, ileft, e, fault := Store(Wire(wire, w, w + got), index, ioff, ileft, errs, e);
        if fault { short := 100; }
        GrownConcat(grew, vec, p, t, transferTotal);
        if !fault {
          assert Wire(wire, 0, w) + Wire(wire, w, w + got) == Wire(wire, 0, w + got);
          SpreadConcat(was, vec, p, Wire(wire, 0, w), Wire(wire, w, w + got));
        }
        w := w + got;
      } else {
        short := short + 1;
      }
    }

    /** `write_to_disk_user`, for a byte-array allocation, with `k` the number of network calls it made */
    method WriteToDisk(wire: nat -> byte, net: seq<int>, errs: seq<bool>) returns (status: int, fault: bool, k: nat)
      requires Valid()
      modifies this`transferTotal, this`left, this`disk, this`size
      ensures Valid() && old(transferTotal) <= transferTotal
      ensures size == Grown(old(size), vec, old(transferTotal), transferTotal)
      ensures !fault ==> Scatters(vec, old(disk), old(size), old(transferTotal), disk, size, transferTotal,
                                  Wire(wire, 0, transferTotal - old(transferTotal)), status)
      ensures fault ==> DiskFault(errs) && status == -1
      ensures !fault ==> Ended(net, k, transferTotal - old(transferTotal), status, false)
    {
      fault, k := false, 0;
      if left == 0 { return 1, false, 0; }
      ghost var p, was, grew := transferTotal, disk, size;
      var index, ioff, ileft := IovecStart(vec, transferTotal);
      var e, short, w := 0, 0, 0;
      while left > 0 && short < 3
        invariant Valid() && p <= transferTotal && size == Grown(grew, vec, p, transferTotal)
        invariant left > 0 && !fault ==> At(vec, index, ioff, ileft, transferTotal)
        invariant !fault ==> Stored(vec, was, grew, p, wire, w, disk, size, transferTotal) && Tally(net, k, w, short)
        invariant !fault && 3 <= short < 100 ==> left > 0
        invariant fault ==> DiskFault(errs) && short >= 100
        decreases left, if short < 3 then 1 else 0
      {
        w, index, ioff, ileft, k, e, short, fault :=
          StoreNext(wire, w, index, ioff, ileft, net, k, errs, e, short, p, was, grew);
      }
      status := if short >= 100 then -1 else if left == 0 then 1 else 0;
      if !fault { EndedBy(net, k, w, status, false); }
    }
  }

  /** The first `w` bytes from the wire have been stored from position `p` on. */
  ghost predicate Stored(vec: seq<Extent>, was: map<nat, byte>, grew: nat, p: nat, wire: nat -> byte, w: nat,
                         disk: map<nat, byte>, size: nat, total: nat) {
    && total == p + w <= Length(vec)
    && disk == Spread(was, vec, p, Wire(wire, 0, w)) && size == Grown(grew, vec, p, total)
  }

  /** The account a reading call keeps of its network calls: `n` bytes have gone out, and `short` says how often
      nothing did while the last buffer was sent. */
  ghost predicate ReadTally(net: seq<int>, k: nat, n: nat, short: nat, fault: bool) {
    && Takes(net, 0, k) <= n <= Sum(net, 0, k)
    && (short >= 100 <==> fault || Dead(net, 0, k))
    && (3 <= short < 100 ==> k > 0 && Empties(net, 0, k) >= 3 && Result(net, k - 1) == 0)
  }

  lemma ReadTallyMore(net: seq<int>, k0: nat, k: nat, n: nat, want: nat, sent: nat, short: nat, bad: bool)
    requires Takes(net, 0, k0) <= n <= Sum(net, 0, k0) && !Dead(net, 0, k0) && want > 0
    requires k0 < k && sent == Min(Sum(net, k0, k), want) && sent >= Takes(net, k0, k)
    requires !bad ==> Called(net, k0, k, want, 0) && short == if Dead(net, k0, k) then 100 else Empties(net, k0, k)
    requires bad ==> short >= 100
    ensures ReadTally(net, k, n + sent, short, bad)
    ensures short < 3 ==> sent == want
    ensures 3 <= short < 100 ==> sent < want
  {
    SplitCalls(net, 0, k0, k);
    if !bad { LastCall(net, k0, k, want, 0); }
  }

  /** The account a writing call keeps of its network calls: `w` bytes have come in, and `short` says how often
      nothing did. */
  ghost predicate Tally(net: seq<int>, k: nat, w: nat, short: nat) {
    && Takes(net, 0, k) <= w <= Sum(net, 0, k)
    && (short < 3 ==> short == Empties(net, 0, k)) && (short >= 100 <==> Dead(net, 0, k))
    && (3 <= short < 100 ==> k > 0 && Empties(net, 0, k) == 3 && Result(net, k - 1) == 0)
  }

  lemma TallyMore(net: seq<int>, k0: nat, k: nat, w: nat, want: nat, short0: nat, short: nat)
    requires Tally(net, k0, w, short0) && short0 < 3 && want > 0 && Called(net, k0, k, want, short0)
    requires short == if Dead(net, k0, k) then 100 else short0 + Empties(net, k0, k)
    ensures Tally(net, k, w + Min(Sum(net, k0, k), want), short) && (3 <= short < 100 ==> Sum(net, k0, k) < want)
    ensures Min(Sum(net, k0, k), want) == 0 ==> short >= 3 && Tally(net, k, w, short + 1)
  {
    SplitCalls(net, 0, k0, k);
    LastCall(net, k0, k, want, short0);
    TakesWithin(net, k0, k, want, short0);
  }

  /** Each call made that took something brought at least one of the bytes wanted. */
  lemma TakesWithin(net: seq<int>, a: nat, b: nat, want: nat, short: nat)
    requires Called(net, a, b, want, short) && want > 0
    ensures Takes(net, a, b) <= Min(Sum(net, a, b), want)
  {
    TakesSomething(net, a, b);
    TakesSomething(net, a, b - 1);
    if a + 1 < b { assert Going(net, a, b - 1, want, short); }
  }

  // ---------------------------------------------------------------- over repeated calls

  datatype Call = Call(end: nat, data: seq<byte>, status: int)

  function All(calls: seq<Call>): (data: seq<byte>) {
    if calls == [] then [] else calls[0].data + All(calls[1..])
  }

  /** Successive calls of the reading routine, each going on where the last one stopped. */
  ghost predicate GatherCalls(vec: seq<Extent>, disk: map<nat, byte>, p: nat, calls: seq<Call>)
    decreases |calls|
  {
    calls == [] || (Gathers(vec, disk, p, calls[0].end, calls[0].data, calls[0].status, false) &&
                    GatherCalls(vec, disk, calls[0].end, calls[1..]))
  }

  /** What goes out over any number of calls is a run of the stream, nothing lost or repeated; a call
      that reports completion is the one that sends its last byte. */
  lemma {:induction false} GatherAll(vec: seq<Extent>, disk: map<nat, byte>, p: nat, calls: seq<Call>)
    requires p <= Length(vec) && GatherCalls(vec, disk, p, calls)
    ensures Slice(disk, vec, p, All(calls))
    ensures calls != [] ==> p + |All(calls)| == calls[|calls| - 1].end
    ensures calls != [] && calls[|calls| - 1].status == 1 ==> All(calls) == Stream(disk, vec)[p..]
    ensures calls != [] && calls[|calls| - 1].status == 0 ==> p + |All(calls)| < Length(vec)
    decreases |calls|
  {
    if calls != [] {
      var rest := calls[1..];
      GatherAll(vec, disk, calls[0].end, rest);
      SliceExtend(disk, vec, p, calls[0].data, All(rest));
      assert rest != [] ==> rest[|rest| - 1] == calls[|calls| - 1];
      assert rest == [] ==> All(rest) == [] && All(calls) == calls[0].data;
    }
  }

  /** Successive calls of the writing routine, from one state of the allocation to another. */
  ghost predicate ScatterCalls(vec: seq<Extent>, before: map<nat, byte>, size: nat, p: nat, calls: seq<Call>,
                               after: map<nat, byte>, size': nat)
    decreases |calls|
  {
    if calls == [] then after == before && size' == size
    else exists disk, n :: (&& Scatters(vec, before, size, p, disk, n, calls[0].end, calls[0].data, calls[0].status)
                            && ScatterCalls(vec, disk, n, calls[0].end, calls[1..], after, size'))
  }

  /** Over any number of calls the allocation holds the whole received stream, spread over the extents
      in order, and its size reaches the furthest byte stored. */
  lemma {:induction false} ScatterAll(vec: seq<Extent>, before: map<nat, byte>, size: nat, p: nat, calls: seq<Call>,
                                      after: map<nat, byte>, size': nat)
    requires p <= Length(vec) && ScatterCalls(vec, before, size, p, calls, after, size')
    ensures var data := All(calls);
            && p + |data| <= Length(vec)
            && after == Spread(before, vec, p, data)
            && size' == Grown(size, vec, p, p + |data|)
            && (calls != [] && calls[|calls| - 1].status == 1 ==> p + |data| == Length(vec))
    decreases |calls|
  {
    if calls != [] {
      var c, rest := calls[0], calls[1..];
      var disk, n :| && Scatters(vec, before, size, p, disk, n, c.end, c.data, c.status)
                     && ScatterCalls(vec, disk, n, c.end, rest, after, size');
      ScatterAll(vec, disk, n, c.end, rest, after, size');
      SpreadConcat(before, vec, p, c.data, All(rest));
      GrownConcat(size, vec, p, c.end, c.end + |All(rest)|);
      assert rest != [] ==> rest[|rest| - 1] == calls[|calls| - 1];
      assert rest == [] ==> All(rest) == [];
    }
  }

  // ---------------------------------------------------------------- what is stored where

  lemma {:induction false} SpreadMisses(disk: map<nat, byte>, vec: seq<Extent>, p: nat, data: seq<byte>, a: nat)
    requires p + |data| <= Length(vec)
    requires forall r :: p <= r < p + |data| ==> Addr(vec, r) != a
    ensures var d := Spread(disk, vec, p, data); (a in d <==> a in disk) && Get(d, a) == Get(disk, a)
    decreases |data|
  {
    if data != [] {
      SpreadMisses(disk[Addr(vec, p) := data[0]], vec, p + 1, data[1..], a);
    }
  }

  /** The last stream byte meant for an address is the one found there. */
  lemma {:induction false} SpreadHits(disk: map<nat, byte>, vec: seq<Extent>, p: nat, data: seq<byte>, i: nat)
    requires p + |data| <= Length(vec) && i < |data|
    requires forall r :: p + i < r < p + |data| ==> Addr(vec, r) != Addr(vec, p + i)
    ensures Get(Spread(disk, vec, p, data), Addr(vec, p + i)) == data[i]
    decreases i
  {
    var d := disk[Addr(vec, p) := data[0]];
    if i == 0 {
      SpreadMisses(d, vec, p + 1, data[1..], Addr(vec, p));
    } else {
      SpreadHits(d, vec, p + 1, data[1..], i - 1);
    }
  }

  ghost predicate Disjoint(x: Extent, y: Extent) { x.off + x.len <= y.off || y.off + y.len <= x.off }

  ghost predicate NoOverlap(vec: seq<Extent>) {
    forall i, j :: 0 <= i < j < |vec| ==> Disjoint(vec[i], vec[j])
  }

  lemma {:induction false} ExtentOf(vec: seq<Extent>, p: nat) returns (i: nat)
    requires p < Length(vec)
    ensures i < |vec| && Length(vec[..i]) <= p < Length(vec[..i]) + vec[i].len
    ensures Addr(vec, p) == vec[i].off + (p - Length(vec[..i]))
  {
    var last := |vec| - 1;
    if p >= Length(vec[..last]) {
      i := last;
    } else {
      i := ExtentOf(vec[..last], p);
      assert vec[..last][..i] == vec[..i];
    }
  }

  lemma NoOverlapInjective(vec: seq<Extent>, p: nat, q: nat)
    requires NoOverlap(vec) && p < q < Length(vec)
    ensures Addr(vec, p) != Addr(vec, q)
  {
    var i := ExtentOf(vec, p);
    var j := ExtentOf(vec, q);
    if i < j {
      assert Disjoint(vec[i], vec[j]);
    } else if j < i {
      assert Disjoint(vec[j], vec[i]);
    }
  }

  /** Reading back what was written gives the same bytes when no two extents share an address. */
  lemma RoundTrip(disk: map<nat, byte>, vec: seq<Extent>, data: seq<byte>)
    requires NoOverlap(vec) && |data| == Length(vec)
    ensures Stream(Spread(disk, vec, 0, data), vec) == data
  {
    var d := Spread(disk, vec, 0, data);
    forall i | 0 <= i < |data|
      ensures Stream(d, vec)[i] == data[i]
    {
      StreamAt(d, vec, i);
      forall r | i < r < |data|
        ensures Addr(vec, r) != Addr(vec, i)
      {
        NoOverlapInjective(vec, i, r);
      }
      SpreadHits(disk, vec, 0, data, i);
    }
  }

  lemma OverlapMeets(vec: seq<Extent>, i: nat, j: nat) returns (p: nat, q: nat)
    requires WellFormed(vec) && i < j < |vec| && !Disjoint(vec[i], vec[j])
    ensures p < q < Length(vec) && Addr(vec, p) == Addr(vec, q)
  {
    var a := if vec[i].off < vec[j].off then vec[j].off else vec[i].off;
    p := Length(vec[..i]) + (a - vec[i].off);
    q := Length(vec[..j]) + (a - vec[j].off);
    ExtentBounds(vec, i);
    ExtentBounds(vec, j);
    AddrIn(vec, i, p);
    AddrIn(vec, j, q);
    LengthMonotone(vec, i + 1, j);
  }

  /** Bytes that differ at two stream positions with one address cannot both be read back. */
  lemma MeetingLoses(disk: map<nat, byte>, vec: seq<Extent>, p: nat, q: nat) returns (data: seq<byte>)
    requires p < q < Length(vec) && Addr(vec, p) == Addr(vec, q)
    ensures |data| == Length(vec) && Stream(Spread(disk, vec, 0, data), vec) != data
  {
    data := seq(Length(vec), i => if i == p then 1 else 0);
    var d := Spread(disk, vec, 0, data);
    StreamAt(d, vec, p);
    StreamAt(d, vec, q);
    assert data[p] != data[q];
  }

  ghost predicate ReadsBack(disk: map<nat, byte>, vec: seq<Extent>, data: seq<byte>)
    requires |data| == Length(vec)
  {
    Stream(Spread(disk, vec, 0, data), vec) == data
  }

  /** Every write reads back unchanged exactly when no two extents of the request overlap. */
  lemma RoundTripIff(disk: map<nat, byte>, vec: seq<Extent>)
    requires WellFormed(vec)
    ensures (forall data: seq<byte> :: |data| == Length(vec) ==> ReadsBack(disk, vec, data)) <==> NoOverlap(vec)
  {
    if NoOverlap(vec) {
      forall data: seq<byte> | |data| == Length(vec)
        ensures ReadsBack(disk, vec, data)
      {
        RoundTrip(disk, vec, data);
      }
    } else {
      var i, j :| 0 <= i < j < |vec| && !Disjoint(vec[i], vec[j]);
      var p, q := OverlapMeets(vec, i, j);
      var data := MeetingLoses(disk, vec, p, q);
      assert !ReadsBack(disk, vec, data);
    }
  }

  /** An upload in any number of calls followed by a download in any number of calls. */
  lemma UploadDownload(vec: seq<Extent>, before: map<nat, byte>, size: nat, ups: seq<Call>, after: map<nat, byte>,
                       size': nat, downs: seq<Call>)
    requires NoOverlap(vec)
    requires ScatterCalls(vec, before, size, 0, ups, after, size') && ups != [] && ups[|ups| - 1].status == 1
    requires GatherCalls(vec, after, 0, downs) && downs != [] && downs[|downs| - 1].status == 1
    ensures All(downs) == All(ups)
  {
    ScatterAll(vec, before, size, 0, ups, after, size');
    GatherAll(vec, after, 0, downs);
    RoundTrip(before, vec, All(ups));
  }
}
