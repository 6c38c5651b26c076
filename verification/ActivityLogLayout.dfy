/** Where each field of a copy record lies in the file (activity_log.c), and which of the four forms is chosen. */
module ActivityLogLayout {
  import opened ActivityLog

  /** Where field `i` starts */
  function Start(widths: seq<nat>, i: nat): (n: nat)
    requires i <= |widths|
  {
    if i == 0 then 0 else Start(widths, i - 1) + widths[i - 1]
  }

  lemma {:induction false} StartTail(widths: seq<nat>, i: nat)
    requires 0 < i <= |widths|
    ensures Start(widths, i) == widths[0] + Start(widths[1..], i - 1)
  {
    if i > 1 { StartTail(widths, i - 1); }
  }

  ghost predicate Holds(s: seq<byte>, at: nat, field: seq<byte>) { at + |field| <= |s| && s[at..at + |field|] == field }

  lemma HoldsIn(a: seq<byte>, s: seq<byte>, b: seq<byte>, at: nat, field: seq<byte>)
    requires Holds(s, at, field)
    ensures Holds(a + (s + b), |a| + at, field)
  {
    assert (a + (s + b))[|a| + at..|a| + at + |field|] == s[at..at + |field|];
  }

  lemma {:induction false} FieldLies(widths: seq<nat>, values: seq<int>, i: nat)
    requires |widths| == |values| && i < |widths|
    ensures Holds(PutAll(widths, values), Start(widths, i), Put(widths[i], values[i]))
    decreases i
  {
    if i > 0 {
      FieldLies(widths[1..], values[1..], i - 1);
      StartTail(widths, i);
      HoldsIn(Put(widths[0], values[0]), PutAll(widths[1..], values[1..]), [], Start(widths[1..], i - 1), Put(widths[i], values[i]));
      assert PutAll(widths[1..], values[1..]) + [] == PutAll(widths[1..], values[1..]);
    }
  }

  lemma {:induction false} AllStart(widths: seq<nat>, values: seq<int>)
    requires |widths| == |values|
    ensures |PutAll(widths, values)| == Start(widths, |widths|)
  {
    if widths != [] {
      AllStart(widths[1..], values[1..]);
      StartTail(widths, |widths|);
    }
  }

  // ---------------------------------------------------------------- the form

  predicate Wide(c: int) { c == COPY64 || c == ALIAS_COPY64 }

  predicate Aliased(c: int) { c == ALIAS_COPY32 || c == ALIAS_COPY64 }

  /** The fixed part of a form */
  function FixedLength(c: int): (n: nat) { (if Aliased(c) then 8 else 0) + (if Wide(c) then 41 else 29) }

  /** The record can be stored in the form without loss. */
  predicate Fits(r: Record, c: int) {
    && c in {COPY32, COPY64, ALIAS_COPY32, ALIAS_COPY64}
    && (Wide(c) || (r.size <= UINT32_MAX && r.offset <= UINT32_MAX && r.offset2 <= UINT32_MAX))
    && (Aliased(c) || r.pid == 0)
  }

  /** The form chosen always fits, and it is the shortest that does unless a size or offset is exactly the
      largest 32-bit number: that is stored in 64 bits. */
  lemma ShortestForm(r: Record)
    ensures Fits(r, Command(r))
    ensures forall c :: Fits(r, c) ==> (FixedLength(Command(r)) <= FixedLength(c) <==>
              Wide(c) || (r.size != UINT32_MAX && r.offset != UINT32_MAX && r.offset2 != UINT32_MAX))
  {
  }

  lemma FixedIs(r: Record)
    ensures |PutAll(AliasWidths(Command(r)), Alias(r))| + |PutAll(BodyWidths(Width(Command(r))), Body(r))| == FixedLength(Command(r))
  {
    AllStart(AliasWidths(Command(r)), Alias(r));
    var w := Width(Command(r));
    var ws := BodyWidths(w);
    AllStart(ws, Body(r));
    BodyStarts(w);
  }

  lemma BodyStarts(w: nat)
    ensures var ws := BodyWidths(w);
            && Start(ws, 0) == 0 && Start(ws, 1) == 8 && Start(ws, 2) == 8 + w && Start(ws, 3) == 8 + 2 * w
            && Start(ws, 4) == 9 + 2 * w && Start(ws, 5) == 10 + 2 * w && Start(ws, 6) == 11 + 2 * w
            && Start(ws, 7) == 12 + 2 * w && Start(ws, 8) == 12 + 3 * w && Start(ws, 9) == 14 + 3 * w
            && Start(ws, 10) == 15 + 3 * w && Start(ws, 11) == 16 + 3 * w && Start(ws, 12) == 17 + 3 * w
  {
  }

  // ---------------------------------------------------------------- the layout

  /** The body of a record starts behind the header and the alias. */
  function BodyAt(r: Record, idBytes: nat): (n: nat) { 9 + idBytes + (if r.pid == 0 then 0 else 8) }

  /** A record is its header and alias, its body, and the rest. */
  lemma Parts(r: Record, idBytes: nat) returns (front: seq<byte>, rest: seq<byte>)
    ensures |front| == BodyAt(r, idBytes)
    ensures Encode(r, idBytes) == front + (PutAll(BodyWidths(Width(Command(r))), Body(r)) + rest)
  {
    var head := PutAll(HeaderWidths(idBytes), [r.time, Command(r), r.tid]);
    var alias := PutAll(AliasWidths(Command(r)), Alias(r));
    var body := PutAll(BodyWidths(Width(Command(r))), Body(r));
    rest := r.address + (CapString(r.key) + (CapString(r.typekey) + PathPart(r)));
    front := head + alias;
    HeadLength(r, idBytes);
    assert head + (alias + (body + rest)) == front + (body + rest);
  }

  lemma BodyLies(r: Record, idBytes: nat, at: nat, field: seq<byte>)
    requires Holds(PutAll(BodyWidths(Width(Command(r))), Body(r)), at, field)
    ensures Holds(Encode(r, idBytes), BodyAt(r, idBytes) + at, field)
  {
    var front, rest := Parts(r, idBytes);
    HoldsIn(front, PutAll(BodyWidths(Width(Command(r))), Body(r)), rest, at, field);
  }

  lemma HeadLength(r: Record, idBytes: nat)
    ensures |PutAll(HeaderWidths(idBytes), [r.time, Command(r), r.tid])| == 9 + idBytes
    ensures |PutAll(AliasWidths(Command(r)), Alias(r))| == if r.pid == 0 then 0 else 8
  {
    AllStart(HeaderWidths(idBytes), [r.time, Command(r), r.tid]);
    var ws := HeaderWidths(idBytes);
    assert Start(ws, 0) == 0;
    assert Start(ws, 1) == 8;
    assert Start(ws, 2) == 9;
    AllStart(AliasWidths(Command(r)), Alias(r));
  }

  /** The header: time, form and thread */
  lemma HeaderLies(r: Record, idBytes: nat)
    ensures var s := Encode(r, idBytes);
            && Holds(s, 0, Put(8, r.time)) && Holds(s, 8, Put(1, Command(r))) && Holds(s, 9, Put(idBytes, r.tid))
            && (r.pid != 0 ==> Holds(s, 9 + idBytes, Put(8, r.pid)))
  {
    var ws, vs := HeaderWidths(idBytes), [r.time, Command(r) as int, r.tid];
    var head := PutAll(ws, vs);
    FieldLies(ws, vs, 0);
    FieldLies(ws, vs, 1);
    FieldLies(ws, vs, 2);
    assert Start(ws, 0) == 0 && Start(ws, 1) == 8 && Start(ws, 2) == 9;
    HoldsIn([], head, EncodeFields(r), 0, Put(8, r.time));
    HoldsIn([], head, EncodeFields(r), 8, Put(1, Command(r)));
    HoldsIn([], head, EncodeFields(r), 9, Put(idBytes, r.tid));
    assert [] + (head + EncodeFields(r)) == Encode(r, idBytes);
    if r.pid != 0 { AliasLies(r, idBytes); }
  }

  lemma AliasLies(r: Record, idBytes: nat)
    requires r.pid != 0
    ensures Holds(Encode(r, idBytes), 9 + idBytes, Put(8, r.pid))
  {
    var head := PutAll(HeaderWidths(idBytes), [r.time, Command(r), r.tid]);
    var alias := PutAll(AliasWidths(Command(r)), Alias(r));
    var rest := PutAll(BodyWidths(Width(Command(r))), Body(r)) +
                (r.address + (CapString(r.key) + (CapString(r.typekey) + PathPart(r))));
    HeadLength(r, idBytes);
    FieldLies(AliasWidths(Command(r)), Alias(r), 0);
    HoldsIn(head, alias, rest, 0, Put(8, r.pid));
    assert Encode(r, idBytes) == head + (alias + rest);
  }

  lemma FieldAt(r: Record, idBytes: nat, i: nat, at: nat, width: nat, value: int)
    requires i < 12 && Start(BodyWidths(Width(Command(r))), i) == at && BodyWidths(Width(Command(r)))[i] == width
    requires Body(r)[i] == value
    ensures Holds(Encode(r, idBytes), BodyAt(r, idBytes) + at, Put(width, value))
  {
    FieldLies(BodyWidths(Width(Command(r))), Body(r), i);
    BodyLies(r, idBytes, at, Put(width, value));
  }

  /** The body starts with the id, size, offset and resource of the copy, */
  lemma CopyLies(r: Record, idBytes: nat)
    ensures var s, at, w := Encode(r, idBytes), BodyAt(r, idBytes), if Wide(Command(r)) then 8 else 4;
            && Holds(s, at, Put(8, r.id)) && Holds(s, at + 8, Put(w, r.size)) && Holds(s, at + 8 + w, Put(w, r.offset))
            && Holds(s, at + 8 + 2 * w, Put(1, r.ri))
  {
    var w := Width(Command(r));
    BodyStarts(w);
    FieldAt(r, idBytes, 0, 0, 8, r.id);
    FieldAt(r, idBytes, 1, 8, w, r.size);
    FieldAt(r, idBytes, 2, 8 + w, w, r.offset);
    FieldAt(r, idBytes, 3, 8 + 2 * w, 1, r.ri);
  }

  /** then its command, mode and type and the second offset, */
  lemma ModeLies(r: Record, idBytes: nat)
    ensures var s, at, w := Encode(r, idBytes), BodyAt(r, idBytes), if Wide(Command(r)) then 8 else 4;
            && Holds(s, at + 9 + 2 * w, Put(1, r.cmd)) && Holds(s, at + 10 + 2 * w, Put(1, r.wmode))
            && Holds(s, at + 11 + 2 * w, Put(1, r.ctype)) && Holds(s, at + 12 + 2 * w, Put(w, r.offset2))
  {
    var w := Width(Command(r));
    BodyStarts(w);
    FieldAt(r, idBytes, 4, 9 + 2 * w, 1, r.cmd);
    FieldAt(r, idBytes, 5, 10 + 2 * w, 1, r.wmode);
    FieldAt(r, idBytes, 6, 11 + 2 * w, 1, r.ctype);
    FieldAt(r, idBytes, 7, 12 + 2 * w, w, r.offset2);
  }

  /** and port, family and the sizes of the two strings. */
  lemma CapLies(r: Record, idBytes: nat)
    ensures var s, at, w := Encode(r, idBytes), BodyAt(r, idBytes), if Wide(Command(r)) then 8 else 4;
            && Holds(s, at + 12 + 3 * w, Put(2, r.port)) && Holds(s, at + 14 + 3 * w, Put(1, if r.family == AF_INET then 0 else 1))
            && Holds(s, at + 15 + 3 * w, Put(1, |r.key| + 1)) && Holds(s, at + 16 + 3 * w, Put(1, |r.typekey| + 1))
  {
    var w := Width(Command(r));
    BodyStarts(w);
    FieldAt(r, idBytes, 8, 12 + 3 * w, 2, r.port);
    FieldAt(r, idBytes, 9, 14 + 3 * w, 1, if r.family == AF_INET then 0 else 1);
    FieldAt(r, idBytes, 10, 15 + 3 * w, 1, |r.key| + 1);
    FieldAt(r, idBytes, 11, 16 + 3 * w, 1, |r.typekey| + 1);
  }

  /** Behind it come the address, the two strings and the path, if there is one, to the end. */
  lemma TailLies(r: Record, idBytes: nat)
    ensures var at := 9 + idBytes + FixedLength(Command(r));
            at <= |Encode(r, idBytes)| &&
            Encode(r, idBytes)[at..] == r.address + CapString(r.key) + CapString(r.typekey) +
                                        (if r.ctype == IBP_TCP then [] else Put(2, |r.path| + 1) + r.path + [0])
  {
    var head := PutAll(HeaderWidths(idBytes), [r.time, Command(r), r.tid]);
    var alias := PutAll(AliasWidths(Command(r)), Alias(r));
    var body := PutAll(BodyWidths(Width(Command(r))), Body(r));
    var rest := r.address + (CapString(r.key) + (CapString(r.typekey) + PathPart(r)));
    HeadLength(r, idBytes);
    FixedIs(r);
    assert Encode(r, idBytes) == (head + alias + body) + rest;
    assert rest == r.address + CapString(r.key) + CapString(r.typekey) + PathPart(r);
  }

  /** How long a record in range is */
  lemma EncodedLength(r: Record, idBytes: nat)
    requires Shape(r) && InRange(r, idBytes)
    ensures |Encode(r, idBytes)| == 9 + idBytes + FixedLength(Command(r)) + (if r.family == AF_INET then 4 else 16)
                                    + |r.key| + 1 + |r.typekey| + 1 + (if r.ctype == IBP_TCP then 0 else |r.path| + 3)
  {
    TailLies(r, idBytes);
    Pow256Values();
    assert |CapString(r.key)| == |r.key| + 1 && |CapString(r.typekey)| == |r.typekey| + 1;
  }
}
