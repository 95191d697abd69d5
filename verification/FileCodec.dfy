/** Parsing, serialization, merging and sizing of the `_file` message. */
module FileCodec {
  import opened Arithmetic
  import opened Bytes
  import opened Wire

  datatype File = File(cmd: seq<byte>, stS: int32, stE: int32, data: seq<byte>, total: int64, id: int32,
                       unknown: seq<Unknown>)

  function Default(): File {
    File([], 0, 0, [], 0, 0, [])
  }

  /** How _InternalParse ends: at the end of the input, on a zero or end-group tag, or in failure. */
  datatype Outcome =
    | Done(msg: File)
    | Stopped(msg: File, tag: nat, rest: seq<byte>)
    | Failed

  /** The tags of the fields the message declares. */
  const KNOWN: set<nat> := {10, 16, 24, 34, 40, 48}

  function TakeUnusual(m: File, tag: nat, s: seq<byte>, depth: nat): (r: Option<(File, seq<byte>)>)
    ensures r.Some? ==> |r.value.1| <= |s|
  {
    match ParseField(tag, s, depth)
    case None => None
    case Some((u, rest)) => Some((m.(unknown := m.unknown + [u]), rest))
  }

  /** The switch on the field number, once the tag has been read. */
  function TakeField(m: File, tag: nat, s: seq<byte>, depth: nat): (r: Option<(File, seq<byte>)>)
    ensures r.Some? ==> |r.value.1| <= |s|
  {
    match tag / 8
    case 1 =>
      if tag % 256 != 10 then TakeUnusual(m, tag, s, depth) else
      (match ReadBytes(s) case None => None case Some((v, rest)) => Some((m.(cmd := v), rest)))
    case 2 =>
      if tag % 256 != 16 then TakeUnusual(m, tag, s, depth) else
      (match ReadVarint64(s) case None => None case Some((v, rest)) => Some((m.(stS := ToInt32(v)), rest)))
    case 3 =>
      if tag % 256 != 24 then TakeUnusual(m, tag, s, depth) else
      (match ReadVarint64(s) case None => None case Some((v, rest)) => Some((m.(stE := ToInt32(v)), rest)))
    case 4 =>
      if tag % 256 != 34 then TakeUnusual(m, tag, s, depth) else
      (match ReadBytes(s) case None => None case Some((v, rest)) => Some((m.(data := v), rest)))
    case 5 =>
      if tag % 256 != 40 then TakeUnusual(m, tag, s, depth) else
      (match ReadVarint64(s) case None => None case Some((v, rest)) => Some((m.(total := ToInt64(v)), rest)))
    case 6 =>
      if tag % 256 != 48 then TakeUnusual(m, tag, s, depth) else
      (match ReadVarint32(s) case None => None case Some((v, rest)) => Some((m.(id := ToInt32(v)), rest)))
    case _ => TakeUnusual(m, tag, s, depth)
  }

  /** The parse loop. */
  function Parse(m: File, s: seq<byte>, depth: nat): Outcome
    decreases |s|
  {
    if s == [] then Done(m) else
    match ReadTag(s)
    case None => Failed
    case Some((tag, rest)) =>
      if EndTag(tag) then Stopped(m, tag, rest) else
      match TakeField(m, tag, rest, depth)
      case None => Failed
      case Some((next, after)) => Parse(next, after, depth)
  }

  function Serialize(m: File): seq<byte> {
    BytesChunk(1, m.cmd) + (NumberChunk(2, m.stS) + (NumberChunk(3, m.stE) + (BytesChunk(4, m.data) +
    (NumberChunk(5, m.total) + (NumberChunk(6, m.id) + SerializeUnknowns(m.unknown))))))
  }

  /** MergeImpl: the fields of `b` that are not at their defaults replace those of `a`. */
  function Merge(a: File, b: File): File {
    File(if b.cmd == [] then a.cmd else b.cmd,
         if b.stS == 0 then a.stS else b.stS,
         if b.stE == 0 then a.stE else b.stE,
         if b.data == [] then a.data else b.data,
         if b.total == 0 then a.total else b.total,
         if b.id == 0 then a.id else b.id,
         a.unknown + b.unknown)
  }

  function ByteSize(m: File): nat {
    (if m.cmd == [] then 0 else 1 + BytesSize(m.cmd)) +
    (if m.data == [] then 0 else 1 + BytesSize(m.data)) +
    (if m.stS == 0 then 0 else 1 + VarintSize(ToUnsigned(m.stS))) +
    (if m.stE == 0 then 0 else 1 + VarintSize(ToUnsigned(m.stE))) +
    (if m.total == 0 then 0 else VarintSizePlusOne(ToUnsigned(m.total))) +
    (if m.id == 0 then 0 else VarintSizePlusOne(ToUnsigned(m.id))) +
    UnknownsSize(m.unknown)
  }

  /** The bytes of a message, field by field: which fields are written, in what order, and how. */
  lemma FileFormat(m: File)
    ensures Serialize(m) ==
              (if m.cmd == [] then [] else [10] + (Varint(|m.cmd|) + m.cmd)) +
              (if m.stS == 0 then [] else [16] + Varint(m.stS % 0x1_0000_0000_0000_0000)) +
              (if m.stE == 0 then [] else [24] + Varint(m.stE % 0x1_0000_0000_0000_0000)) +
              (if m.data == [] then [] else [34] + (Varint(|m.data|) + m.data)) +
              (if m.total == 0 then [] else [40] + Varint(m.total % 0x1_0000_0000_0000_0000)) +
              (if m.id == 0 then [] else [48] + Varint(m.id % 0x1_0000_0000_0000_0000)) +
              SerializeUnknowns(m.unknown)
  {
    BytesFormat(1, m.cmd);
    NumberFormat(2, m.stS);
    NumberFormat(3, m.stE);
    BytesFormat(4, m.data);
    NumberFormat(5, m.total);
    NumberFormat(6, m.id);
    FromTheLeft(BytesChunk(1, m.cmd), NumberChunk(2, m.stS), NumberChunk(3, m.stE), BytesChunk(4, m.data),
                NumberChunk(5, m.total), NumberChunk(6, m.id), SerializeUnknowns(m.unknown));
  }

  lemma FromTheLeft(c1: seq<byte>, c2: seq<byte>, c3: seq<byte>, c4: seq<byte>,
                    c5: seq<byte>, c6: seq<byte>, c7: seq<byte>)
    ensures c1 + c2 + c3 + c4 + c5 + c6 + c7 == c1 + (c2 + (c3 + (c4 + (c5 + (c6 + c7)))))
  {
  }

  // ---------------------------------------------------------------- what a message can hold

  /** The two bytes fields are short enough to be read back. */
  predicate Fits(m: File) {
    |m.cmd| <= MAX_SIZE && |m.data| <= MAX_SIZE
  }

  // ---------------------------------------------------------------- one field

  lemma {:induction false} ParseStep(m: File, tag: nat, body: seq<byte>, rest: seq<byte>, next: File, depth: nat)
    requires 0 < tag < TWO32 && !EndTag(tag)
    requires TakeField(m, tag, body + rest, depth) == Some((next, rest))
    ensures Parse(m, Varint(tag) + body + rest, depth) == Parse(next, rest, depth)
  {
    Regroup(Varint(tag), body, rest);
    TagRoundTrip(tag, body + rest);
  }

  /** A zero tag and an end-group tag end the loop, and what follows is left alone. */
  lemma EndTagStops(m: File, tag: nat, rest: seq<byte>, depth: nat)
    requires tag < TWO32 && (tag == 0 || tag % 8 == 4)
    ensures Parse(m, Varint(tag) + rest, depth) == Stopped(m, tag, rest)
  {
    TagRoundTrip(tag, rest);
  }

  /** A number field takes any varint of up to ten bytes, reduced to the width of the field. */
  lemma NumberFieldExact(m: File, s: seq<byte>, n: nat, depth: nat)
    requires FrontVarint(s, n, 10)
    ensures exists v: int32 :: (v - Groups(s, n)) % 0x1_0000_0000 == 0
              && TakeField(m, 16, s, depth) == Some((m.(stS := v), s[n..]))
              && TakeField(m, 24, s, depth) == Some((m.(stE := v), s[n..]))
              && TakeField(m, 48, s, depth) == Some((m.(id := v), s[n..]))
    ensures exists v: int64 :: (v - Groups(s, n)) % 0x1_0000_0000_0000_0000 == 0
              && TakeField(m, 40, s, depth) == Some((m.(total := v), s[n..]))
  {
    ReadersExact(s, n);
    var g := Groups(s, n);
    var v: int32, w: int64 := ToInt32(g), ToInt64(g);
    ToInt32IsModular(g);
    ToInt64IsModular(g);
    LowBits(g);
    assert TakeField(m, 16, s, depth) == Some((m.(stS := v), s[n..]));
    assert TakeField(m, 40, s, depth) == Some((m.(total := w), s[n..]));
  }

  lemma LowBits(u: nat)
    ensures ToInt32(u % TWO64) == ToInt32(u) == ToInt32(u % TWO32) && ToInt64(u % TWO64) == ToInt64(u)
  {
    var a, r := u / TWO64, u % TWO64;
    var b, c := r / TWO32, r % TWO32;
    QuotientRemainder(u, TWO32, a * TWO32 + b, c);
  }

  lemma ParseStepFails(m: File, tag: nat, body: seq<byte>, depth: nat)
    requires 0 < tag < TWO32 && !EndTag(tag)
    requires TakeField(m, tag, body, depth) == None
    ensures Parse(m, Varint(tag) + body, depth) == Failed
  {
    TagRoundTrip(tag, body);
  }

  lemma BytesField1(m: File, v: seq<byte>, rest: seq<byte>, depth: nat)
    requires |v| < TWO32
    ensures Parse(m, BytesChunk(1, v) + rest, depth)
         == if |v| > MAX_SIZE then Failed else Parse(if v == [] then m else m.(cmd := v), rest, depth)
  {
    BytesRoundTrip(v, rest);
    if v == [] {
      assert BytesChunk(1, v) + rest == rest;
    } else if |v| <= MAX_SIZE {
      ParseStep(m, 10, Varint(|v|) + v, rest, m.(cmd := v), depth);
    } else {
      Regroup(Varint(10), Varint(|v|) + v, rest);
      ParseStepFails(m, 10, Varint(|v|) + v + rest, depth);
    }
  }

  lemma BytesField4(m: File, v: seq<byte>, rest: seq<byte>, depth: nat)
    requires |v| < TWO32
    ensures Parse(m, BytesChunk(4, v) + rest, depth)
         == if |v| > MAX_SIZE then Failed else Parse(if v == [] then m else m.(data := v), rest, depth)
  {
    BytesRoundTrip(v, rest);
    if v == [] {
      assert BytesChunk(4, v) + rest == rest;
    } else if |v| <= MAX_SIZE {
      ParseStep(m, 34, Varint(|v|) + v, rest, m.(data := v), depth);
    } else {
      Regroup(Varint(34), Varint(|v|) + v, rest);
      ParseStepFails(m, 34, Varint(|v|) + v + rest, depth);
    }
  }

  /** The field that a number chunk of this tag sets. */
  function SetNumber(m: File, num: nat, v: int64): File
    requires num in {2, 3, 5, 6}
    requires num != 5 ==> -TWO31 <= v < TWO31
  {
    if v == 0 then m else
    match num
    case 2 => m.(stS := v)
    case 3 => m.(stE := v)
    case 5 => m.(total := v)
    case _ => m.(id := v)
  }

  lemma NumberField(m: File, num: nat, v: int64, rest: seq<byte>, depth: nat)
    requires num in {2, 3, 5, 6}
    requires num != 5 ==> -TWO31 <= v < TWO31
    ensures Parse(m, NumberChunk(num, v) + rest, depth) == Parse(SetNumber(m, num, v), rest, depth)
  {
    if v == 0 {
      assert NumberChunk(num, v) + rest == rest;
    } else {
      Int64Survives(v);
      if num != 5 { Int32Survives(v); }
      Varint64RoundTrip(ToUnsigned(v), rest);
      ParseStep(m, num * 8, Varint(ToUnsigned(v)), rest, SetNumber(m, num, v), depth);
    }
  }

  lemma TakeUnknown(m: File, u: Unknown, tail: seq<byte>, depth: nat)
    requires UnknownOk(u, depth) && u.num * 8 + WireType(u) !in KNOWN
    ensures TakeField(m, u.num * 8 + WireType(u), Payload(u) + tail, depth)
         == Some((m.(unknown := m.unknown + [u]), tail))
  {
    TagParts(u.num, WireType(u));
    NotKnown(m, u.num * 8 + WireType(u), Payload(u) + tail, depth);
    UnknownRoundTrip(u, depth, tail);
  }

  lemma UnknownStep(m: File, us: seq<Unknown>, rest: seq<byte>, depth: nat)
    requires us != [] && UnknownKept(us, depth, KNOWN)
    ensures Parse(m, SerializeUnknowns(us) + rest, depth)
         == Parse(m.(unknown := m.unknown + [us[0]]), SerializeUnknowns(us[1..]) + rest, depth)
  {
    var u, tail := us[0], SerializeUnknowns(us[1..]) + rest;
    var tag, next := u.num * 8 + WireType(u), m.(unknown := m.unknown + [u]);
    HeadOk(us, depth);
    assert TakeField(m, tag, Payload(u) + tail, depth) == Some((next, tail)) by { TakeUnknown(m, u, tail, depth); }
    assert SerializeUnknowns(us) + rest == Varint(tag) + Payload(u) + tail by {
      UnknownsUnfold(us, rest);
      Regroup(Varint(tag), Payload(u), tail);
    }
    ParseStep(m, tag, Payload(u), tail, next, depth);
  }

  /** Parsing `s` into `m` goes on as parsing `t` into `n`. */
  predicate Leads(m: File, s: seq<byte>, n: File, t: seq<byte>, depth: nat) {
    Parse(m, s, depth) == Parse(n, t, depth)
  }

  lemma LeadsOn(m: File, s: seq<byte>, n: File, t: seq<byte>, o: File, u: seq<byte>, depth: nat)
    requires Leads(m, s, n, t, depth) && Leads(n, t, o, u, depth)
    ensures Leads(m, s, o, u, depth)
  {
  }

  lemma UnknownStepLeads(m: File, us: seq<Unknown>, rest: seq<byte>, depth: nat)
    requires us != [] && UnknownKept(us, depth, KNOWN)
    ensures Leads(m, SerializeUnknowns(us) + rest,
                  m.(unknown := m.unknown + [us[0]]), SerializeUnknowns(us[1..]) + rest, depth)
  {
    UnknownStep(m, us, rest, depth);
  }

  lemma {:induction false} UnknownFields(m: File, us: seq<Unknown>, rest: seq<byte>, depth: nat)
    requires UnknownKept(us, depth, KNOWN)
    ensures Leads(m, SerializeUnknowns(us) + rest, m.(unknown := m.unknown + us), rest, depth)
    decreases |us|
  {
    if us == [] {
      assert SerializeUnknowns(us) + rest == rest && m.unknown + us == m.unknown;
    } else {
      var next := m.(unknown := m.unknown + [us[0]]);
      var s, t := SerializeUnknowns(us) + rest, SerializeUnknowns(us[1..]) + rest;
      UnknownStepLeads(m, us, rest, depth);
      KeptTail(us, depth, KNOWN);
      UnknownFields(next, us[1..], rest, depth);
      assert m.unknown + [us[0]] + us[1..] == m.unknown + us;
      LeadsOn(m, s, next, t, m.(unknown := m.unknown + us), rest, depth);
    }
  }

  lemma NotKnown(m: File, tag: nat, s: seq<byte>, depth: nat)
    requires tag < TWO32 && tag !in KNOWN
    ensures TakeField(m, tag, s, depth) == TakeUnusual(m, tag, s, depth)
  {
  }

  // ---------------------------------------------------------------- whole messages

  function TailFrom4(f: File): seq<byte> {
    BytesChunk(4, f.data) + (NumberChunk(5, f.total) + (NumberChunk(6, f.id) + SerializeUnknowns(f.unknown)))
  }

  function TailFrom2(f: File): seq<byte> {
    NumberChunk(2, f.stS) + (NumberChunk(3, f.stE) + TailFrom4(f))
  }

  lemma ParseTailFrom4(m: File, f: File, rest: seq<byte>, depth: nat)
    requires UnknownKept(f.unknown, depth, KNOWN) && |f.data| < TWO32
    ensures Parse(m, TailFrom4(f) + rest, depth)
         == if |f.data| > MAX_SIZE then Failed
            else Parse(m.(data := if f.data == [] then m.data else f.data,
                          total := if f.total == 0 then m.total else f.total,
                          id := if f.id == 0 then m.id else f.id,
                          unknown := m.unknown + f.unknown), rest, depth)
  {
    var c, d := NumberChunk(6, f.id), SerializeUnknowns(f.unknown);
    var b := NumberChunk(5, f.total);
    Regroup(BytesChunk(4, f.data), b + (c + d), rest);
    Regroup(b, c + d, rest);
    Regroup(c, d, rest);
    BytesField4(m, f.data, b + (c + (d + rest)), depth);
    var m1 := if f.data == [] then m else m.(data := f.data);
    NumberField(m1, 5, f.total, c + (d + rest), depth);
    var m2 := SetNumber(m1, 5, f.total);
    NumberField(m2, 6, f.id, d + rest, depth);
    UnknownFields(SetNumber(m2, 6, f.id), f.unknown, rest, depth);
  }

  lemma ParseTailFrom2(m: File, f: File, rest: seq<byte>, depth: nat)
    requires UnknownKept(f.unknown, depth, KNOWN) && |f.data| < TWO32
    ensures Parse(m, TailFrom2(f) + rest, depth)
         == Parse(m.(stS := if f.stS == 0 then m.stS else f.stS, stE := if f.stE == 0 then m.stE else f.stE),
                  TailFrom4(f) + rest, depth)
  {
    var b := NumberChunk(3, f.stE);
    Regroup(NumberChunk(2, f.stS), b + TailFrom4(f), rest);
    Regroup(b, TailFrom4(f), rest);
    NumberField(m, 2, f.stS, b + (TailFrom4(f) + rest), depth);
    NumberField(SetNumber(m, 2, f.stS), 3, f.stE, TailFrom4(f) + rest, depth);
  }

  /**
   Parsing a serialized message into `m` merges it into `m` and goes on with what follows.
   It fails exactly when a bytes field is too long to be read back.
   */
  lemma ParseMerges(m: File, f: File, rest: seq<byte>, depth: nat)
    requires UnknownKept(f.unknown, depth, KNOWN) && |f.cmd| < TWO32 && |f.data| < TWO32
    ensures Parse(m, Serialize(f) + rest, depth) == if Fits(f) then Parse(Merge(m, f), rest, depth) else Failed
  {
    assert Serialize(f) == BytesChunk(1, f.cmd) + TailFrom2(f);
    Regroup(BytesChunk(1, f.cmd), TailFrom2(f), rest);
    BytesField1(m, f.cmd, TailFrom2(f) + rest, depth);
    var m1 := if f.cmd == [] then m else m.(cmd := f.cmd);
    ParseTailFrom2(m1, f, rest, depth);
    ParseTailFrom4(m1.(stS := if f.stS == 0 then m1.stS else f.stS, stE := if f.stE == 0 then m1.stE else f.stE),
                   f, rest, depth);
  }

  /**
   Round trip: a message is read back from its own serialization, negative numbers and unlisted
   enum values included, if and only if its bytes fields are within the length limit.
   */
  lemma {:induction false} RoundTrip(f: File, depth: nat)
    requires UnknownKept(f.unknown, depth, KNOWN) && |f.cmd| < TWO32 && |f.data| < TWO32
    ensures Parse(Default(), Serialize(f), depth) == Done(f) <==> Fits(f)
  {
    ParseMerges(Default(), f, [], depth);
    assert Serialize(f) + [] == Serialize(f);
    assert Default().unknown + f.unknown == f.unknown;
  }

  /** Parsing the concatenation of two serializations is merging the two messages. */
  lemma {:induction false} ConcatenationMerges(a: File, b: File, depth: nat)
    requires UnknownKept(a.unknown, depth, KNOWN) && UnknownKept(b.unknown, depth, KNOWN) && Fits(a) && Fits(b)
    ensures Parse(Default(), Serialize(a) + Serialize(b), depth) == Done(Merge(a, b))
  {
    ParseMerges(Default(), a, Serialize(b), depth);
    assert Merge(Default(), a) == a by { assert Default().unknown + a.unknown == a.unknown; }
    ParseMerges(a, b, [], depth);
    assert Serialize(b) + [] == Serialize(b);
  }

  /** The announced size is the number of bytes written. */
  lemma {:induction false} ByteSizeIsLength(m: File, depth: nat)
    requires UnknownsOk(m.unknown, depth) && |m.cmd| < TWO32 && |m.data| < TWO32
    ensures ByteSize(m) == |Serialize(m)|
  {
    BytesChunkSize(1, m.cmd);
    BytesChunkSize(4, m.data);
    NumberChunkSize(2, m.stS);
    NumberChunkSize(3, m.stE);
    NumberChunkSize(5, m.total);
    NumberChunkSize(6, m.id);
    UnknownsSizeIsLength(m.unknown, depth);
    assert |TailFrom4(m)|
        == |BytesChunk(4, m.data)| + |NumberChunk(5, m.total)| + |NumberChunk(6, m.id)| + UnknownsSize(m.unknown);
    assert |TailFrom2(m)| == |NumberChunk(2, m.stS)| + |NumberChunk(3, m.stE)| + |TailFrom4(m)|;
    assert Serialize(m) == BytesChunk(1, m.cmd) + TailFrom2(m);
  }
}
