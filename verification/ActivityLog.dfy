/** Copy records of the depot's activity log (activity_log.c).

    A record is a header, whose thread id takes one byte or two, and one of four packed layouts: sizes
    and offsets in 32 or 64 bits, with or without the id of the alias that was used. */
module ActivityLog {

  type byte = x: int | 0 <= x < 256
  type u64 = x: int | 0 <= x < 0x1_0000_0000_0000_0000

  const ALIAS_COPY64: byte := 214
  const ALIAS_COPY32: byte := 215
  const COPY64: byte := 216
  const COPY32: byte := 217
  const IBP_TCP: int := 1
  const AF_INET: int := 2
  const AF_INET6: int := 10
  const UINT32_MAX: int := 0xFFFF_FFFF
  const PATH_BUFFER: nat := 4096
  const PATH_LABEL: nat := 5

  /** The arguments of `alog_append_dd_copy` with the time of the record. C strings are without their
      terminating zero. */
  datatype Record = Record(
    time: u64, tid: int, cmd: int, ri: int, pid: u64, id: u64, size: u64, offset: u64, offset2: u64,
    wmode: int, ctype: int, path: seq<byte>,
    port: int, family: int, address: seq<byte>, key: seq<byte>, typekey: seq<byte>)

  datatype Parsed<T> = Fail | Ok(value: T, rest: seq<byte>)

  // ---------------------------------------------------------------- packed integers

  function Pow256(n: nat): (p: nat)
    ensures p > 0
  {
    if n == 0 then 1 else 256 * Pow256(n - 1)
  }

  /** The low `n` bytes of a value, lowest first */
  function Put(n: nat, v: int): (s: seq<byte>)
    ensures |s| == n
  {
    if n == 0 then [] else [v % 256] + Put(n - 1, v / 256)
  }

  function Get(s: seq<byte>): (v: nat) { if s == [] then 0 else s[0] + 256 * Get(s[1..]) }

  lemma SmallMultiple(m: nat, d: int)
    requires 0 - m < m * d < m
    ensures d == 0
  {
  }

  lemma ModUnique(v: int, m: nat, a: int, c: nat)
    requires v == m * a + c && c < m
    ensures v % m == c
  {
    var q, r := v / m, v % m;
    assert m * (a - q) == m * a - m * q == r - c;
    SmallMultiple(m, a - q);
  }

  /** What is read back is the value cut to `n` bytes. */
  lemma {:induction false} GetPut(n: nat, v: int)
    ensures Get(Put(n, v)) == v % Pow256(n)
  {
    if n > 0 {
      var m, q := Pow256(n - 1), v / 256;
      GetPut(n - 1, q);
      assert Put(n, v)[1..] == Put(n - 1, q);
      var a, b := q / m, q % m;
      assert 256 * q == 256 * (m * a) + 256 * b by { assert q == m * a + b; }
      assert (256 * m) * a == 256 * (m * a);
      ModUnique(v, 256 * m, a, 256 * b + v % 256);
    }
  }

  /** The fields of packed structures one after the other */
  function PutAll(widths: seq<nat>, values: seq<int>): (s: seq<byte>)
    requires |widths| == |values|
  {
    if widths == [] then [] else Put(widths[0], values[0]) + PutAll(widths[1..], values[1..])
  }

  function GetAll(widths: seq<nat>, s: seq<byte>): (r: Parsed<seq<int>>)
    ensures r.Ok? ==> |r.value| == |widths|
  {
    if widths == [] then Ok([], s)
    else if |s| < widths[0] then Fail
    else
      var r := GetAll(widths[1..], s[widths[0]..]);
      if r.Fail? then Fail else Ok([Get(s[..widths[0]])] + r.value, r.rest)
  }

  /** Each field cut to its width */
  function Cut(widths: seq<nat>, values: seq<int>): (r: seq<int>)
    requires |widths| == |values|
    ensures |r| == |values| && forall i :: 0 <= i < |r| ==> r[i] == values[i] % Pow256(widths[i])
  {
    if widths == [] then [] else [values[0] % Pow256(widths[0])] + Cut(widths[1..], values[1..])
  }

  lemma {:induction false} GetPutAll(widths: seq<nat>, values: seq<int>, rest: seq<byte>)
    requires |widths| == |values|
    ensures GetAll(widths, PutAll(widths, values) + rest) == Ok(Cut(widths, values), rest)
    decreases |widths|
  {
    var s := PutAll(widths, values) + rest;
    if widths == [] {
      assert s == rest;
    } else {
      var w := widths[0];
      var tail := PutAll(widths[1..], values[1..]) + rest;
      assert s == Put(w, values[0]) + tail;
      assert s[..w] == Put(w, values[0]) && s[w..] == tail;
      GetPut(w, values[0]);
      GetPutAll(widths[1..], values[1..], rest);
    }
  }

  function GetBytes(n: nat, s: seq<byte>): (r: Parsed<seq<byte>>) {
    if |s| < n then Fail else Ok(s[..n], s[n..])
  }

  lemma GetBytesOf(a: seq<byte>, rest: seq<byte>)
    ensures GetBytes(|a|, a + rest) == Ok(a, rest)
  {
  }

  /** A C string in a buffer ends at its first zero. */
  function CString(s: seq<byte>): (r: seq<byte>) {
    if s == [] || s[0] == 0 then [] else [s[0]] + CString(s[1..])
  }

  lemma {:induction false} CStringOf(a: seq<byte>)
    requires 0 !in a
    ensures CString(a + [0]) == a
  {
    if a != [] {
      assert (a + [0])[1..] == a[1..] + [0];
      CStringOf(a[1..]);
    }
  }

  // ---------------------------------------------------------------- the layouts

  predicate Small(r: Record) { r.size < UINT32_MAX && r.offset < UINT32_MAX && r.offset2 < UINT32_MAX }

  /** The form `alog_append_dd_copy` chooses */
  function Command(r: Record): (c: byte) {
    if Small(r) then (if r.pid == 0 then COPY32 else ALIAS_COPY32)
    else (if r.pid == 0 then COPY64 else ALIAS_COPY64)
  }

  function HeaderWidths(idBytes: nat): (ws: seq<nat>) { [8, 1, idBytes] }

  /** The id of the alias comes first where there is one. */
  function AliasWidths(command: int): (ws: seq<nat>) {
    if command == ALIAS_COPY32 || command == ALIAS_COPY64 then [8] else []
  }

  function Width(command: int): (w: nat) { if command == COPY64 || command == ALIAS_COPY64 then 8 else 4 }

  /** Id, size, offset and resource; command, mode and type; second offset; port, family and the sizes
      of key and type key */
  function BodyWidths(w: nat): (ws: seq<nat>) { [8, w, w, 1, 1, 1, 1, w, 2, 1, 1, 1] }

  function AddressSize(family: int): (n: nat) { if family == AF_INET then 4 else 16 }

  function Alias(r: Record): (vs: seq<int>) { if r.pid == 0 then [] else [r.pid] }

  function Body(r: Record): (vs: seq<int>) {
    [r.id, r.size, r.offset, r.ri, r.cmd, r.wmode, r.ctype, r.offset2, r.port, if r.family == AF_INET then 0 else 1,
     |r.key| + 1, |r.typekey| + 1]
  }

  /** `_alog_append_cap` writes as many bytes of a string as its size field, one byte, says. */
  function CapString(a: seq<byte>): (s: seq<byte>)
    ensures |s| == (|a| + 1) % Pow256(1)
  {
    Pow256Values();
    (a + [0])[..(|a| + 1) % Pow256(1)]
  }

  /** `_alog_append_string16` */
  function String16(a: seq<byte>): (s: seq<byte>) { Put(2, |a| + 1) + a + [0] }

  function PathPart(r: Record): (s: seq<byte>) { if r.ctype != IBP_TCP then String16(r.path) else [] }

  /** What the four `_alog_append_*copy*` routines write */
  function Encode(r: Record, idBytes: nat): (s: seq<byte>) {
    PutAll(HeaderWidths(idBytes), [r.time, Command(r), r.tid]) + EncodeFields(r)
  }

  function EncodeFields(r: Record): (s: seq<byte>) {
    PutAll(AliasWidths(Command(r)), Alias(r)) +
    (PutAll(BodyWidths(Width(Command(r))), Body(r)) +
     (r.address + (CapString(r.key) + (CapString(r.typekey) + PathPart(r)))))
  }

  /** A record as its routine is called: the address is as long as the family says, and strings are C
      strings. */
  ghost predicate Shape(r: Record) {
    |r.address| == AddressSize(r.family) && 0 !in r.key && 0 !in r.typekey && 0 !in r.path
  }

  /** Every field but the thread id fits the place it is stored in and the place it is read into. A path
      is stored only for types other than TCP, and is read into a buffer that holds a label before it and a
      zero behind it. */
  ghost predicate FieldsFit(r: Record) {
    && 0 <= r.ri < 256 && 0 <= r.cmd < 256 && 0 <= r.wmode < 256 && 0 <= r.ctype < 256 && 0 <= r.port < 65536
    && r.family in {AF_INET, AF_INET6}
    && |r.key| + 1 < 256 && |r.typekey| + 1 < 256
    && (if r.ctype == IBP_TCP then r.path == [] else PATH_LABEL + |r.path| + 1 <= PATH_BUFFER)
  }

  ghost predicate InRange(r: Record, idBytes: nat) { 0 <= r.tid < Pow256(idBytes) && FieldsFit(r) }

  // ---------------------------------------------------------------- reading

  /** `_alog_read_string16` */
  function GetString16(s: seq<byte>): (r: Parsed<seq<byte>>)
    ensures r.Ok? ==> |s| >= 2
  {
    if |s| < 2 then Fail
    else
      var b := GetBytes(Get(s[..2]), s[2..]);
      if b.Fail? then Fail else Ok(CString(b.value), b.rest)
  }

  /** The string fits the reader's first buffer, and with the label the second. */
  predicate Held(n: nat, path: seq<byte>) { n <= PATH_BUFFER && PATH_LABEL + |path| + 1 <= PATH_BUFFER }

  /** The path, if the type that was stored has one. One that the reader's buffers do not hold is not read. */
  function GetPath(ctype: int, s: seq<byte>): (r: Parsed<seq<byte>>) {
    if ctype == IBP_TCP then Ok([], s)
    else
      var p := GetString16(s);
      if p.Ok? && Held(Get(s[..2]), p.value) then p else Fail
  }

  /** The strings of `_alog_read_cap` and the path, behind the fixed fields */
  function GetStrings(family: int, n: int, k: int, ctype: int, s: seq<byte>):
    (r: Parsed<(seq<byte>, seq<byte>, seq<byte>, seq<byte>)>)
  {
    if n < 0 || k < 0 then Fail
    else
      var a := GetBytes(if family == 0 then 4 else 16, s);
      if a.Fail? then Fail
      else
        var key := GetBytes(n, a.rest);
        if key.Fail? then Fail
        else
          var typekey := GetBytes(k, key.rest);
          if typekey.Fail? then Fail
          else
            var path := GetPath(ctype, typekey.rest);
            if path.Fail? then Fail
            else Ok((a.value, CString(key.value), CString(typekey.value), path.value), path.rest)
  }

  predicate IsU64(v: int) { 0 <= v < 0x1_0000_0000_0000_0000 }

  /** The values of the fixed fields and the strings as a record */
  function Assemble(time: int, tid: int, pid: int, b: seq<int>, strings: (seq<byte>, seq<byte>, seq<byte>, seq<byte>)):
    (r: Parsed<Record>)
    requires |b| == 12
  {
    if IsU64(time) && IsU64(pid) && IsU64(b[0]) && IsU64(b[1]) && IsU64(b[2]) && IsU64(b[7]) then
      Ok(Record(time, tid, b[4], b[3], pid, b[0], b[1], b[2], b[7], b[5], b[6], strings.3, b[8],
                if b[9] == 0 then AF_INET else AF_INET6, strings.0, strings.1, strings.2), [])
    else Fail
  }

  /** `alog_read_copy32` and the other three, by the record's command */
  function DecodeFields(time: int, command: int, tid: int, s: seq<byte>): (r: Parsed<Record>) {
    var alias := GetAll(AliasWidths(command), s);
    if alias.Fail? then Fail
    else DecodeBody(time, tid, if alias.value == [] then 0 else alias.value[0], BodyWidths(Width(command)), alias.rest)
  }

  function DecodeBody(time: int, tid: int, pid: int, widths: seq<nat>, s: seq<byte>): (r: Parsed<Record>)
    requires |widths| == 12
  {
    var body := GetAll(widths, s);
    if body.Fail? then Fail else DecodeStrings(time, tid, pid, body.value, body.rest)
  }

  function DecodeStrings(time: int, tid: int, pid: int, b: seq<int>, s: seq<byte>): (r: Parsed<Record>)
    requires |b| == 12
  {
    var strings := GetStrings(b[9], b[10], b[11], b[6], s);
    if strings.Fail? then Fail
    else
      var r := Assemble(time, tid, pid, b, strings.value);
      if r.Fail? then Fail else Ok(r.value, strings.rest)
  }

  /** `activity_log_read_next_entry`, with the four copy readers in its table */
  function Decode(s: seq<byte>, idBytes: nat): (r: Parsed<Record>) {
    var head := GetAll(HeaderWidths(idBytes), s);
    if head.Fail? then Fail
    else if head.value[1] !in {COPY32, COPY64, ALIAS_COPY32, ALIAS_COPY64} then Fail
    else DecodeFields(head.value[0], head.value[1], head.value[2], head.rest)
  }

  // ---------------------------------------------------------------- reading what was written

  lemma Pow256Values()
    ensures Pow256(1) == 256 && Pow256(2) == 65536 && Pow256(4) == 0x1_0000_0000
    ensures Pow256(8) == 0x1_0000_0000_0000_0000
  {
    assert Pow256(2) == 256 * Pow256(1);
    assert Pow256(3) == 256 * Pow256(2);
    assert Pow256(4) == 256 * Pow256(3);
    assert Pow256(5) == 256 * Pow256(4);
    assert Pow256(6) == 256 * Pow256(5);
    assert Pow256(7) == 256 * Pow256(6);
    assert Pow256(8) == 256 * Pow256(7);
  }

  /** The strings come back as they were cut, and what is left is read as the path. */
  lemma StringsOf(r: Record, ctype: int, tail: seq<byte>)
    requires Shape(r)
    ensures var s := r.address + (CapString(r.key) + (CapString(r.typekey) + tail));
            var p := GetPath(ctype, tail);
            GetStrings(if r.family == AF_INET then 0 else 1, |CapString(r.key)|, |CapString(r.typekey)|, ctype, s) ==
            if p.Fail? then Fail
            else Ok((r.address, CString(CapString(r.key)), CString(CapString(r.typekey)), p.value), p.rest)
  {
    GetBytesOf(r.address, CapString(r.key) + (CapString(r.typekey) + tail));
    GetBytesOf(CapString(r.key), CapString(r.typekey) + tail);
    GetBytesOf(CapString(r.typekey), tail);
  }

  /** The record that comes back: numbers cut to their fields, strings to what was stored of them */
  function Norm(r: Record, tid: int, path: seq<byte>): (n: Record) {
    Record(r.time, tid, r.cmd % Pow256(1), r.ri % Pow256(1), r.pid, r.id, r.size, r.offset, r.offset2, r.wmode % Pow256(1),
           r.ctype % Pow256(1), path, r.port % Pow256(2), if r.family == AF_INET then AF_INET else AF_INET6, r.address,
           CString(CapString(r.key)), CString(CapString(r.typekey)))
  }

  lemma Keep(n: nat, v: nat)
    requires v < Pow256(n)
    ensures v % Pow256(n) == v
  {
    ModUnique(v, Pow256(n), 0, v);
  }

  /** Sizes, offsets and ids fit the fields of the form that was chosen. */
  lemma FormFits(r: Record)
    ensures r.time < Pow256(8) && r.pid < Pow256(8) && r.id < Pow256(8) && Command(r) < Pow256(1)
    ensures var p := Pow256(Width(Command(r))); r.size < p && r.offset < p && r.offset2 < p
  {
    Pow256Values();
  }

  /** The body's fields as they come back */
  function CutBody(r: Record): (b: seq<int>) {
    [r.id, r.size, r.offset, r.ri % Pow256(1), r.cmd % Pow256(1), r.wmode % Pow256(1), r.ctype % Pow256(1), r.offset2,
     r.port % Pow256(2), if r.family == AF_INET then 0 else 1, |CapString(r.key)|, |CapString(r.typekey)|]
  }

  lemma BodyCut(r: Record)
    ensures Cut(BodyWidths(Width(Command(r))), Body(r)) == CutBody(r)
  {
    var w := Width(Command(r));
    var v, ws := Body(r), BodyWidths(w);
    FormFits(r);
    Keep(8, r.id);
    Keep(w, r.size);
    Keep(w, r.offset);
    Keep(w, r.offset2);
    assert 1 < Pow256(1) by { Pow256Values(); }
    Keep(1, v[9]);
    assert Cut(ws, v)[10] == v[10] % Pow256(ws[10]) && Cut(ws, v)[11] == v[11] % Pow256(ws[11]);
  }

  lemma AliasRead(r: Record, rest: seq<byte>)
    ensures var a := GetAll(AliasWidths(Command(r)), PutAll(AliasWidths(Command(r)), Alias(r)) + rest);
            a.Ok? && a.rest == rest && (if a.value == [] then 0 else a.value[0]) == r.pid
  {
    GetPutAll(AliasWidths(Command(r)), Alias(r), rest);
    FormFits(r);
    Keep(8, r.pid);
  }

  lemma AssembleOf(r: Record, tid: int, path: seq<byte>)
    ensures Assemble(r.time, tid, r.pid, CutBody(r),
                     (r.address, CString(CapString(r.key)), CString(CapString(r.typekey)), path)) == Ok(Norm(r, tid, path), [])
  {
  }

  lemma StringsDecoded(r: Record, tid: int, tail: seq<byte>)
    requires Shape(r)
    ensures var p := GetPath(r.ctype % Pow256(1), tail);
            DecodeStrings(r.time, tid, r.pid, CutBody(r), r.address + (CapString(r.key) + (CapString(r.typekey) + tail))) ==
            if p.Fail? then Fail else Ok(Norm(r, tid, p.value), p.rest)
  {
    StringsOf(r, r.ctype % Pow256(1), tail);
    var p := GetPath(r.ctype % Pow256(1), tail);
    if p.Ok? { AssembleOf(r, tid, p.value); }
  }

  lemma BodyDecoded(r: Record, tid: int, pid: int, rest: seq<byte>)
    ensures DecodeBody(r.time, tid, pid, BodyWidths(Width(Command(r))),
                       PutAll(BodyWidths(Width(Command(r))), Body(r)) + rest) ==
            DecodeStrings(r.time, tid, pid, CutBody(r), rest)
  {
    GetPutAll(BodyWidths(Width(Command(r))), Body(r), rest);
    BodyCut(r);
  }

  lemma FieldsOf(r: Record, tid: int, tail: seq<byte>)
    requires Shape(r)
    ensures var p := GetPath(r.ctype % Pow256(1), PathPart(r) + tail);
            DecodeFields(r.time, Command(r), tid, EncodeFields(r) + tail) ==
            if p.Fail? then Fail else Ok(Norm(r, tid, p.value), p.rest)
  {
    var strings := r.address + (CapString(r.key) + (CapString(r.typekey) + (PathPart(r) + tail)));
    var body := PutAll(BodyWidths(Width(Command(r))), Body(r)) + strings;
    assert EncodeFields(r) + tail == PutAll(AliasWidths(Command(r)), Alias(r)) + body;
    AliasRead(r, body);
    BodyDecoded(r, tid, r.pid, strings);
    StringsDecoded(r, tid, PathPart(r) + tail);
  }

  lemma DecodeOf(r: Record, idBytes: nat, tail: seq<byte>)
    requires Shape(r)
    ensures var p := GetPath(r.ctype % Pow256(1), PathPart(r) + tail);
            Decode(Encode(r, idBytes) + tail, idBytes) ==
            if p.Fail? then Fail else Ok(Norm(r, r.tid % Pow256(idBytes), p.value), p.rest)
  {
    var head := [r.time, Command(r), r.tid];
    assert Encode(r, idBytes) + tail == PutAll(HeaderWidths(idBytes), head) + (EncodeFields(r) + tail);
    GetPutAll(HeaderWidths(idBytes), head, EncodeFields(r) + tail);
    FormFits(r);
    Keep(8, r.time);
    Keep(1, Command(r));
    assert Cut(HeaderWidths(idBytes), head) == [r.time, Command(r), r.tid % Pow256(idBytes)];
    FieldsOf(r, r.tid % Pow256(idBytes), tail);
  }

  lemma SizeRead(n: nat, rest: seq<byte>)
    ensures var s := Put(2, n) + rest; Get(s[..2]) == n % 65536 && s[2..] == rest
  {
    var s := Put(2, n) + rest;
    assert s[..2] == Put(2, n);
    GetPut(2, n);
    Pow256Values();
  }

  lemma PathOf(ctype: int, path: seq<byte>, tail: seq<byte>)
    requires 0 !in path && PATH_LABEL + |path| + 1 <= PATH_BUFFER && ctype != IBP_TCP
    ensures GetPath(ctype, String16(path) + tail) == Ok(path, tail)
  {
    SizeRead(|path| + 1, path + [0] + tail);
    assert String16(path) + tail == Put(2, |path| + 1) + (path + [0] + tail);
    GetBytesOf(path + [0], tail);
    CStringOf(path);
  }

  lemma CapStringOf(a: seq<byte>)
    requires 0 !in a
    ensures CString(CapString(a)) == a <==> |a| + 1 < 256
  {
    Pow256Values();
    if |a| + 1 < 256 {
      assert CapString(a) == a + [0];
      CStringOf(a);
    } else {
      CStringShort(CapString(a));
    }
  }

  lemma {:induction false} CStringShort(s: seq<byte>)
    ensures |CString(s)| <= |s|
  {
    if s != [] { CStringShort(s[1..]); }
  }

  lemma NormSame(r: Record, idBytes: nat)
    requires Shape(r) && InRange(r, idBytes)
    ensures Norm(r, r.tid % Pow256(idBytes), r.path) == r
  {
    CapStringOf(r.key);
    CapStringOf(r.typekey);
    Keep(idBytes, r.tid);
    Pow256Values();
  }

  /** A record in range comes back as it was, and reading stops where the record ends. */
  lemma ReadBack(r: Record, idBytes: nat, tail: seq<byte>)
    requires Shape(r) && InRange(r, idBytes)
    ensures Decode(Encode(r, idBytes) + tail, idBytes) == Ok(r, tail)
  {
    DecodeOf(r, idBytes, tail);
    NormSame(r, idBytes);
    assert r.ctype % Pow256(1) == r.ctype by { Pow256Values(); }
    if r.ctype != IBP_TCP { PathOf(r.ctype, r.path, tail); } else { assert PathPart(r) + tail == tail; }
  }

  /** A path the buffers do not hold is not read; one too long for its size field leaves bytes behind. */
  lemma LongPath(ctype: int, path: seq<byte>)
    requires 0 !in path && PATH_LABEL + |path| + 1 > PATH_BUFFER && ctype != IBP_TCP
    ensures var p := GetPath(ctype, String16(path)); p.Ok? ==> p.rest != []
    ensures |path| + 1 < 65536 ==> GetPath(ctype, String16(path)).Fail?
  {
    SizeRead(|path| + 1, path + [0]);
    assert String16(path) == Put(2, |path| + 1) + (path + [0]);
    if |path| + 1 < 65536 {
      assert path + [0] + [] == path + [0];
      GetBytesOf(path + [0], []);
      CStringOf(path);
    }
  }

  /** A single record reads back as itself, with nothing left over, exactly when its fields are in range. */
  lemma ReadBackIff(r: Record, idBytes: nat)
    requires Shape(r)
    ensures Decode(Encode(r, idBytes), idBytes) == Ok(r, []) <==> InRange(r, idBytes)
  {
    if InRange(r, idBytes) {
      ReadBack(r, idBytes, []);
      assert Encode(r, idBytes) + [] == Encode(r, idBytes);
    } else {
      OutOfRange(r, idBytes);
    }
  }

  lemma OutOfRange(r: Record, idBytes: nat)
    requires Shape(r) && !InRange(r, idBytes)
    ensures Decode(Encode(r, idBytes), idBytes) != Ok(r, [])
  {
    assert Encode(r, idBytes) + [] == Encode(r, idBytes) && PathPart(r) + [] == PathPart(r);
    DecodeOf(r, idBytes, []);
    var p := GetPath(r.ctype % Pow256(1), PathPart(r));
    if p.Ok? && p.rest == [] {
      PathFits(r);
      NormDiffers(r, idBytes, p.value);
    }
  }

  lemma PathFits(r: Record)
    requires Shape(r)
    requires var p := GetPath(r.ctype % Pow256(1), PathPart(r)); p.Ok? && p.rest == []
    ensures r.ctype == IBP_TCP ==> GetPath(r.ctype % Pow256(1), PathPart(r)).value == []
    ensures r.ctype != IBP_TCP && 0 <= r.ctype < 256 ==> PATH_LABEL + |r.path| + 1 <= PATH_BUFFER
  {
    Pow256Values();
    if r.ctype != IBP_TCP && 0 <= r.ctype < 256 && PATH_LABEL + |r.path| + 1 > PATH_BUFFER { LongPath(r.ctype, r.path); }
  }

  /** The shortest path that does not come back */
  lemma PathOf4091(r: Record, idBytes: nat)
    requires Shape(r) && |r.path| == 4091 && r.ctype != IBP_TCP && 0 <= r.ctype < 256
    ensures Decode(Encode(r, idBytes), idBytes) == Fail
  {
    assert Encode(r, idBytes) + [] == Encode(r, idBytes) && PathPart(r) + [] == PathPart(r);
    DecodeOf(r, idBytes, []);
    LongPath(r.ctype, r.path);
    Pow256Values();
  }

  lemma NormDiffers(r: Record, idBytes: nat, path: seq<byte>)
    requires Shape(r) && !InRange(r, idBytes)
    requires r.ctype == IBP_TCP ==> path == []
    requires r.ctype != IBP_TCP && 0 <= r.ctype < 256 ==> PATH_LABEL + |r.path| + 1 <= PATH_BUFFER
    ensures Norm(r, r.tid % Pow256(idBytes), path) != r
  {
    CapStringOf(r.key);
    CapStringOf(r.typekey);
    Pow256Values();
  }

  // ---------------------------------------------------------------- whole logs

  function EncodeAll(rs: seq<Record>, idBytes: nat): (s: seq<byte>) {
    if rs == [] then [] else Encode(rs[0], idBytes) + EncodeAll(rs[1..], idBytes)
  }

  /** The read loop: entries until one cannot be read; what is left then is not part of a record. */
  function DecodeAll(s: seq<byte>, idBytes: nat): (r: (seq<Record>, seq<byte>))
    decreases |s|
  {
    var e := Decode(s, idBytes);
    if e.Fail? || |e.rest| >= |s| then ([], s)
    else
      var r := DecodeAll(e.rest, idBytes);
      ([e.value] + r.0, r.1)
  }

  lemma DecodeAllStep(s: seq<byte>, idBytes: nat, r: Record, rest: seq<byte>)
    requires Decode(s, idBytes) == Ok(r, rest) && |rest| < |s|
    ensures DecodeAll(s, idBytes) == ([r] + DecodeAll(rest, idBytes).0, DecodeAll(rest, idBytes).1)
  {
  }

  lemma EncodeNotEmpty(r: Record, idBytes: nat)
    ensures |Encode(r, idBytes)| > 0
  {
    assert |Put(8, r.time)| == 8;
  }

  /** A log of records in range reads back as the same records with nothing left over. */
  lemma {:induction false} LogRoundTrip(rs: seq<Record>, idBytes: nat)
    requires forall i :: 0 <= i < |rs| ==> Shape(rs[i]) && InRange(rs[i], idBytes)
    ensures DecodeAll(EncodeAll(rs, idBytes), idBytes) == (rs, [])
    decreases |rs|
  {
    if rs == [] {
      assert GetAll(HeaderWidths(idBytes), []).Fail?;
    } else {
      var tail := EncodeAll(rs[1..], idBytes);
      ReadBack(rs[0], idBytes, tail);
      EncodeNotEmpty(rs[0], idBytes);
      DecodeAllStep(Encode(rs[0], idBytes) + tail, idBytes, rs[0], tail);
      LogRoundTrip(rs[1..], idBytes);
      assert rs == [rs[0]] + rs[1..];
    }
  }

  /** The width of thread ids in a log opened for `maxId` threads */
  function IdBytes(maxId: nat): (n: nat) { if maxId < 256 then 1 else 2 }

  ghost predicate ReadsBack(r: Record, idBytes: nat) { Decode(Encode(r, idBytes), idBytes) == Ok(r, []) }

  lemma ReadsBackIff(r: Record, idBytes: nat)
    requires Shape(r)
    ensures ReadsBack(r, idBytes) <==> InRange(r, idBytes)
  {
    ReadBackIff(r, idBytes);
  }

  function Plain(tid: int, address: seq<byte>): (r: Record)
    requires |address| == 4
    ensures Shape(r) && FieldsFit(r) && r.tid == tid
  {
    Record(0, tid, 0, 0, 0, 0, 0, 0, 0, 0, IBP_TCP, [], 0, AF_INET, address, [], [])
  }

  /** A log opened for `maxId` threads gives back whatever any of them writes exactly when there are no
      more than 65536 of them. */
  lemma ThreadsReadBackIff(maxId: nat)
    ensures (forall r {:trigger ReadsBack(r, IdBytes(maxId))} ::
               Shape(r) && FieldsFit(r) && 0 <= r.tid < maxId ==> ReadsBack(r, IdBytes(maxId)))
            <==> maxId <= 65536
  {
    var n := IdBytes(maxId);
    assert Pow256(n) == if maxId < 256 then 256 else 65536 by { Pow256Values(); }
    forall r | Shape(r)
      ensures ReadsBack(r, n) <==> InRange(r, n)
    {
      ReadsBackIff(r, n);
    }
    if maxId > 65536 {
      var r := Plain(maxId - 1, seq(4, _ => 0));
      assert !InRange(r, n);
    }
  }

  // ---------------------------------------------------------------- the log file

  class Log {
    var file: seq<byte>
    var pos: nat
    const idBytes: nat

    /** A log opened for up to `maxId` threads */
    constructor (maxId: nat, file: seq<byte>)
      ensures this.file == file && pos == 0 && idBytes == IdBytes(maxId)
    {
      this.file := file;
      pos := 0;
      idBytes := IdBytes(maxId);
    }

    method Write(s: seq<byte>)
      modifies this`file
      ensures file == old(file) + s
    {
      file := file + s;
    }

    /** A packed structure, field by field */
    method AppendFields(ws: seq<nat>, vs: seq<int>)
      requires |ws| == |vs|
      modifies this`file
      ensures file == old(file) + PutAll(ws, vs)
    {
      for i := 0 to |ws|
        invariant file == old(file) + PutAll(ws[..i], vs[..i])
      {
        PutAllNext(ws, vs, i);
        Write(Put(ws[i], vs[i]));
      }
      assert ws[..|ws|] == ws && vs[..|vs|] == vs;
    }

    /** `_alog_append_string16` */
    method AppendString16(a: seq<byte>)
      modifies this`file
      ensures file == old(file) + String16(a)
    {
      Write(Put(2, |a| + 1));
      Write(a + [0]);
    }

    /** `_alog_append_cap` behind its fixed fields, and the path */
    method AppendStrings(r: Record)
      modifies this`file
      ensures file == old(file) + (r.address + (CapString(r.key) + (CapString(r.typekey) + PathPart(r))))
    {
      Write(r.address);
      Write(CapString(r.key));
      Write(CapString(r.typekey));
      if r.ctype != IBP_TCP { AppendString16(r.path); }
    }

    /** `alog_append_dd_copy`, with the form it selects */
    method AppendDdCopy(r: Record)
      requires |r.address| == AddressSize(r.family)
      modifies this`file
      ensures file == old(file) + Encode(r, idBytes)
    {
      var small := r.size < UINT32_MAX && r.offset < UINT32_MAX && r.offset2 < UINT32_MAX;
      var command, alias;
      if small {
        if r.pid == 0 { command, alias := COPY32, []; } else { command, alias := ALIAS_COPY32, [r.pid]; }
      } else {
        if r.pid == 0 { command, alias := COPY64, []; } else { command, alias := ALIAS_COPY64, [r.pid]; }
      }
      AppendForm(r, command, alias);
    }

    /** `_alog_append_copy32` and the other three */
    method AppendForm(r: Record, command: byte, alias: seq<int>)
      requires command == Command(r) && alias == Alias(r)
      modifies this`file
      ensures file == old(file) + Encode(r, idBytes)
    {
      AppendFields(HeaderWidths(idBytes), [r.time, command, r.tid]);
      ghost var head := file;
      AppendFields(AliasWidths(command), alias);
      AppendFields(BodyWidths(Width(command)), Body(r));
      AppendStrings(r);
      assert file == head + EncodeFields(r);
    }

    /** `aread` */
    method ReadBytes(n: nat) returns (r: Parsed<seq<byte>>)
      requires pos <= |file|
      modifies this`pos
      ensures r == GetBytes(n, file[old(pos)..]) && At(r)
    {
      if |file| - pos < n { return Fail; }
      pos := pos + n;
      r := Ok(file[pos - n..pos], file[pos..]);
      assert file[old(pos)..][..n] == r.value && file[old(pos)..][n..] == r.rest;
    }

    /** What was read ends where the file now stands. */
    ghost predicate At<T>(r: Parsed<T>)
      reads this
    {
      pos <= |file| && (r.Ok? ==> r.rest == file[pos..])
    }

    /** A packed structure, field by field */
    method ReadFields(ws: seq<nat>) returns (r: Parsed<seq<int>>)
      requires pos <= |file|
      modifies this`pos
      ensures r == GetAll(ws, file[old(pos)..]) && At(r)
    {
      var vs: seq<int> := [];
      ghost var all := GetAll(ws, file[pos..]);
      assert ws[0..] == ws;
      assert all.Ok? ==> vs + all.value == all.value;
      for i := 0 to |ws|
        invariant pos <= |file| && all == Behind(vs, GetAll(ws[i..], file[pos..]))
      {
        assert ws[i..][0] == ws[i] && ws[i..][1..] == ws[i + 1..];
        var b := ReadBytes(ws[i]);
        if b.Fail? { return Fail; }
        BehindNext(vs, Get(b.value), GetAll(ws[i + 1..], b.rest));
        vs := vs + [Get(b.value)];
      }
      assert ws[|ws|..] == [] && vs + [] == vs;
      r := Ok(vs, file[pos..]);
    }

    /** `_alog_read_string16` with the reader's two buffers */
    method ReadPath() returns (r: Parsed<seq<byte>>)
      requires pos <= |file|
      modifies this`pos
      ensures forall ctype :: ctype != IBP_TCP ==> r == GetPath(ctype, file[old(pos)..])
      ensures At(r)
    {
      var n := ReadBytes(2);
      if n.Fail? { return Fail; }
      var tmp := ReadBytes(Get(n.value));
      if tmp.Fail? || !Held(Get(n.value), CString(tmp.value)) { return Fail; }
      r := Ok(CString(tmp.value), file[pos..]);
    }

    /** `_alog_read_cap` behind its fixed fields, and the path */
    method ReadStrings(family: int, n: int, k: int, ctype: int)
      returns (r: Parsed<(seq<byte>, seq<byte>, seq<byte>, seq<byte>)>)
      requires pos <= |file|
      modifies this`pos
      ensures r == GetStrings(family, n, k, ctype, file[old(pos)..]) && At(r)
    {
      if n < 0 || k < 0 { return Fail; }
      var address := ReadBytes(if family == 0 then 4 else 16);
      if address.Fail? { return Fail; }
      var key := ReadBytes(n);
      if key.Fail? { return Fail; }
      var typekey := ReadBytes(k);
      if typekey.Fail? { return Fail; }
      var path := Ok([], file[pos..]);
      if ctype != IBP_TCP { path := ReadPath(); }
      if path.Fail? { return Fail; }
      r := Ok((address.value, CString(key.value), CString(typekey.value), path.value), file[pos..]);
    }

    /** `alog_read_copy32` and the other three, by the record's command */
    method ReadCopy(time: int, command: int, tid: int) returns (r: Parsed<Record>)
      requires pos <= |file|
      modifies this`pos
      ensures r == DecodeFields(time, command, tid, file[old(pos)..]) && At(r)
    {
      var alias := ReadFields(AliasWidths(command));
      if alias.Fail? { return Fail; }
      var body := ReadFields(BodyWidths(Width(command)));
      if body.Fail? { return Fail; }
      var b := body.value;
      var strings := ReadStrings(b[9], b[10], b[11], b[6]);
      if strings.Fail? { return Fail; }
      var record := Assemble(time, tid, if alias.value == [] then 0 else alias.value[0], b, strings.value);
      if record.Fail? { return Fail; }
      r := Ok(record.value, file[pos..]);
    }

    /** `activity_log_read_next_entry`: the header, and then the reader its command calls for. A record in
        range that stands at the position is returned, and the position is behind it. */
    method ReadNextEntry() returns (entry: Parsed<Record>)
      requires pos <= |file|
      modifies this`pos
      ensures entry == Decode(file[old(pos)..], idBytes) && At(entry)
      ensures forall r, tail :: Shape(r) && InRange(r, idBytes) && file[old(pos)..] == Encode(r, idBytes) + tail ==>
                entry == Ok(r, tail) && file[pos..] == tail
    {
      ghost var s := file[pos..];
      forall r, tail | Shape(r) && InRange(r, idBytes) && s == Encode(r, idBytes) + tail
        ensures Decode(s, idBytes) == Ok(r, tail)
      {
        ReadBack(r, idBytes, tail);
      }
      var head := ReadFields(HeaderWidths(idBytes));
      if head.Fail? { return Fail; }
      var command := head.value[1];
      if command !in {COPY32, COPY64, ALIAS_COPY32, ALIAS_COPY64} { return Fail; }
      entry := ReadCopy(head.value[0], command, head.value[2]);
    }
  }

  function Behind(vs: seq<int>, r: Parsed<seq<int>>): (p: Parsed<seq<int>>) {
    if r.Fail? then Fail else Ok(vs + r.value, r.rest)
  }

  lemma BehindNext(vs: seq<int>, v: int, r: Parsed<seq<int>>)
    ensures Behind(vs, if r.Fail? then Fail else Ok([v] + r.value, r.rest)) == Behind(vs + [v], r)
  {
    if r.Ok? { assert vs + ([v] + r.value) == vs + [v] + r.value; }
  }

  lemma {:induction false} PutAllConcat(ws: seq<nat>, vs: seq<int>, ws': seq<nat>, vs': seq<int>)
    requires |ws| == |vs| && |ws'| == |vs'|
    ensures PutAll(ws + ws', vs + vs') == PutAll(ws, vs) + PutAll(ws', vs')
    decreases |ws|
  {
    if ws == [] {
      assert ws + ws' == ws' && vs + vs' == vs';
    } else {
      assert (ws + ws')[1..] == ws[1..] + ws' && (vs + vs')[1..] == vs[1..] + vs';
      PutAllConcat(ws[1..], vs[1..], ws', vs');
    }
  }

  lemma PutAllNext(ws: seq<nat>, vs: seq<int>, i: nat)
    requires |ws| == |vs| && i < |ws|
    ensures PutAll(ws[..i + 1], vs[..i + 1]) == PutAll(ws[..i], vs[..i]) + Put(ws[i], vs[i])
  {
    PutAllConcat(ws[..i], vs[..i], [ws[i]], [vs[i]]);
    assert ws[..i + 1] == ws[..i] + [ws[i]] && vs[..i + 1] == vs[..i] + [vs[i]];
    assert PutAll([ws[i]][1..], [vs[i]][1..]) == [];
  }
}
