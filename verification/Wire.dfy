/**
 The wire primitives of the Protocol Buffers encoding: sections "Base 128 Varints",
 "Message Structure" and "Length-Delimited Records" of the encoding specification, with the limits
 of the parse routines the generated code calls.
 */
module Wire {
  import opened Arithmetic
  import opened Bytes

  datatype Option<T> = None | Some(value: T)

  const TWO31: int := 0x8000_0000
  const TWO32: int := 0x1_0000_0000
  const TWO63: int := 0x8000_0000_0000_0000
  const TWO64: int := 0x1_0000_0000_0000_0000

  /** Length prefixes above INT_MAX - kSlopBytes are refused. */
  const MAX_SIZE: nat := 0x7fff_ffff - 16

  // ---------------------------------------------------------------- machine integers

  type int32 = x: int | -TWO31 <= x < TWO31
  type int64 = x: int | -TWO63 <= x < TWO63

  /** static_cast<uint64_t>: negative numbers are sign-extended. */
  function ToUnsigned(v: int64): nat {
    if v < 0 then v + TWO64 else v
  }

  /** A uint64_t stored into an int64_t. */
  function ToInt64(u: nat): int64 {
    var w := u % TWO64;
    if w >= TWO63 then w - TWO64 else w
  }

  /** A uint64_t stored into an int32_t or an enum: the low 32 bits. */
  function ToInt32(u: nat): int32 {
    var w := u % TWO32;
    if w >= TWO31 then w - TWO32 else w
  }

  lemma Int64Survives(v: int64)
    ensures ToUnsigned(v) < TWO64 && ToInt64(ToUnsigned(v)) == v
  {
  }

  /** Sign extension to 64 bits followed by truncation to 32 bits is the identity on int32. */
  lemma Int32Survives(v: int32)
    ensures ToUnsigned(v) < TWO64 && ToInt32(ToUnsigned(v)) == v
  {
  }

  lemma ToInt64IsModular(u: nat)
    ensures (ToInt64(u) - u) % 0x1_0000_0000_0000_0000 == 0
  {
    var q := u / TWO64;
    QuotientRemainder(ToInt64(u) - u, TWO64, if u % TWO64 >= TWO63 then -q - 1 else -q, 0);
  }

  lemma ToInt32IsModular(u: nat)
    ensures -0x8000_0000 <= ToInt32(u) < 0x8000_0000 && (ToInt32(u) - u) % 0x1_0000_0000 == 0
  {
    var q := u / TWO32;
    QuotientRemainder(ToInt32(u) - u, TWO32, if u % TWO32 >= TWO31 then -q - 1 else -q, 0);
  }

  lemma ToUnsignedIsModular(v: int64)
    ensures 0 <= ToUnsigned(v) < 0x1_0000_0000_0000_0000 && (ToUnsigned(v) - v) % 0x1_0000_0000_0000_0000 == 0
  {
  }

  /** The conversions are those of two's complement: in range, and congruent to their argument. */
  lemma ConversionsAreModular(v: int64, u: nat)
    ensures 0 <= ToUnsigned(v) < 0x1_0000_0000_0000_0000 && (ToUnsigned(v) - v) % 0x1_0000_0000_0000_0000 == 0
    ensures -0x8000_0000_0000_0000 <= ToInt64(u) < 0x8000_0000_0000_0000
    ensures (ToInt64(u) - u) % 0x1_0000_0000_0000_0000 == 0
    ensures -0x8000_0000 <= ToInt32(u) < 0x8000_0000 && (ToInt32(u) - u) % 0x1_0000_0000 == 0
  {
    ToUnsignedIsModular(v);
    ToInt64IsModular(u);
    ToInt32IsModular(u);
  }

  // ---------------------------------------------------------------- varints

  function Varint(v: nat): seq<byte> {
    if v < 128 then [v] else [v % 128 + 128] + Varint(v / 128)
  }

  /** A varint of at most `max` bytes at the front of `s`, and what follows it. */
  function ReadVarint(s: seq<byte>, max: nat): (r: Option<(nat, seq<byte>)>)
    ensures r.Some? ==> |r.value.1| < |s|
  {
    if max == 0 || s == [] then None
    else if s[0] < 128 then Some((s[0], s[1..]))
    else
      match ReadVarint(s[1..], max - 1)
      case None => None
      case Some((high, rest)) => Some((s[0] - 128 + 128 * high, rest))
  }

  function Pow128(n: nat): (p: nat)
    ensures 0 < p
  {
    if n == 0 then 1 else 128 * Pow128(n - 1)
  }

  lemma Pow128Values()
    ensures Pow128(5) == 0x8_0000_0000
    ensures Pow128(10) == 0x40_0000_0000_0000_0000
  {
  }

  lemma QuotientOfQuotient(v: nat, p: nat)
    requires 0 < p
    ensures v / 128 / p == v / (128 * p)
  {
    var a, r := v / 128, v % 128;
    var b, c := a / p, a % p;
    assert v == 128 * a + r && a == b * p + c;
    assert b * (128 * p) == 128 * (b * p);
    QuotientRemainder(v, 128 * p, b, 128 * c + r);
  }

  /**
   The bytes of a varint: byte `i` carries bits 7 * i to 7 * i + 6, every byte but the last has its
   top bit set, and no byte more is written than the number needs.
   */
  lemma {:induction false} VarintBytes(v: nat, i: nat)
    requires i < |Varint(v)|
    ensures Varint(v)[i] % 128 == v / Pow128(i) % 128
    ensures Varint(v)[i] >= 128 <==> i + 1 < |Varint(v)|
    ensures v < Pow128(|Varint(v)|) && (i > 0 ==> Pow128(i) <= v)
  {
    if v < 128 {
      assert Pow128(1) == 128;
    } else if i == 0 {
      VarintBytes(v / 128, 0);
    } else {
      VarintBytes(v / 128, i - 1);
      QuotientOfQuotient(v, Pow128(i - 1));
    }
  }

  /** The number the first `n` bytes spell: seven bits of each, low ones first. */
  function Groups(s: seq<byte>, n: nat): nat
    requires n <= |s|
  {
    if n == 0 then 0 else Groups(s, n - 1) + s[n - 1] % 128 * Pow128(n - 1)
  }

  /** Byte `n - 1` is the first one without its top bit, and not more than `max` bytes come up to it. */
  predicate FrontVarint(s: seq<byte>, n: nat, max: nat) {
    0 < n <= max && n <= |s| && s[n - 1] < 128 && forall i :: 0 <= i < n - 1 ==> s[i] >= 128
  }

  lemma {:induction false} GroupsFromFront(s: seq<byte>, n: nat)
    requires 0 < n <= |s|
    ensures Groups(s, n) == s[0] % 128 + 128 * Groups(s[1..], n - 1)
  {
    if n == 1 {
      assert Groups(s, 0) == 0 && Pow128(0) == 1;
    } else {
      GroupsFromFront(s, n - 1);
      assert s[1..][n - 2] == s[n - 1];
      assert s[n - 1] % 128 * Pow128(n - 1) == 128 * (s[n - 1] % 128 * Pow128(n - 2));
    }
  }

  /** A varint at the front of the input is read as the number its bytes spell. */
  lemma {:induction false} ReadVarintValue(s: seq<byte>, n: nat, max: nat)
    requires FrontVarint(s, n, max)
    ensures ReadVarint(s, max) == Some((Groups(s, n), s[n..]))
  {
    GroupsFromFront(s, n);
    if n == 1 {
      assert Groups(s[1..], 0) == 0;
    } else {
      ReadVarintValue(s[1..], n - 1, max - 1);
      assert s[1..][n - 1..] == s[n..];
    }
  }

  /** Nothing else is read: the bytes taken are a varint of at most `max` bytes. */
  lemma {:induction false} ReadVarintOnly(s: seq<byte>, max: nat)
    requires ReadVarint(s, max).Some?
    ensures FrontVarint(s, |s| - |ReadVarint(s, max).value.1|, max)
  {
    if s[0] >= 128 {
      ReadVarintOnly(s[1..], max - 1);
      var n := |s| - |ReadVarint(s, max).value.1|;
      assert forall i :: 1 <= i < n ==> s[i] == s[1..][i - 1];
    }
  }

  lemma {:induction false} VarintRoundTrip(v: nat, max: nat, rest: seq<byte>)
    requires 0 < max && v < Pow128(max)
    ensures ReadVarint(Varint(v) + rest, max) == Some((v, rest))
  {
    if v < 128 {
      assert (Varint(v) + rest)[1..] == rest;
    } else {
      var tail := Varint(v / 128);
      assert (Varint(v) + rest)[0] == v % 128 + 128;
      assert (Varint(v) + rest)[1..] == tail + rest;
      VarintRoundTrip(v / 128, max - 1, rest);
      assert v == 128 * (v / 128) + v % 128;
    }
  }

  /** ReadVarint64: at most ten bytes, kept modulo 2^64. */
  function ReadVarint64(s: seq<byte>): (r: Option<(nat, seq<byte>)>)
    ensures r.Some? ==> |r.value.1| < |s| && r.value.0 < TWO64
  {
    match ReadVarint(s, 10)
    case None => None
    case Some((v, rest)) => Some((v % TWO64, rest))
  }

  /** ReadVarint32: at most ten bytes, kept modulo 2^32. */
  function ReadVarint32(s: seq<byte>): (r: Option<(nat, seq<byte>)>)
    ensures r.Some? ==> |r.value.1| < |s| && r.value.0 < TWO32
  {
    match ReadVarint(s, 10)
    case None => None
    case Some((v, rest)) => Some((v % TWO32, rest))
  }

  /** ReadTag: at most five bytes, kept modulo 2^32. */
  function ReadTag(s: seq<byte>): (r: Option<(nat, seq<byte>)>)
    ensures r.Some? ==> |r.value.1| < |s| && r.value.0 < TWO32
  {
    match ReadVarint(s, 5)
    case None => None
    case Some((v, rest)) => Some((v % TWO32, rest))
  }

  /** ReadSize: at most five bytes and not above MAX_SIZE. */
  function ReadSize(s: seq<byte>): (r: Option<(nat, seq<byte>)>)
    ensures r.Some? ==> |r.value.1| < |s| && r.value.0 <= MAX_SIZE
  {
    match ReadVarint(s, 5)
    case None => None
    case Some((v, rest)) => if v > MAX_SIZE then None else Some((v, rest))
  }

  /** What each reader makes of a varint at the front of the input. */
  lemma ReadersExact(s: seq<byte>, n: nat)
    requires FrontVarint(s, n, 10)
    ensures ReadVarint64(s) == Some((Groups(s, n) % 0x1_0000_0000_0000_0000, s[n..]))
    ensures ReadVarint32(s) == Some((Groups(s, n) % 0x1_0000_0000, s[n..]))
    ensures if n <= 5 then ReadTag(s) == Some((Groups(s, n) % 0x1_0000_0000, s[n..])) else ReadTag(s) == None
    ensures ReadSize(s) == if n <= 5 && Groups(s, n) <= 0x7fff_ffef then Some((Groups(s, n), s[n..])) else None
  {
    ReadVarintValue(s, n, 10);
    if n <= 5 {
      ReadVarintValue(s, n, 5);
    } else if ReadVarint(s, 5).Some? {
      ReadVarintOnly(s, 5);
      assert false;
    }
  }

  lemma FrontVarintWider(s: seq<byte>, n: nat)
    ensures FrontVarint(s, n, 5) ==> FrontVarint(s, n, 10)
  {
  }

  /** Without a varint of at most ten bytes at the front of the input, every reader fails. */
  lemma ReadersFail(s: seq<byte>)
    requires forall n :: !FrontVarint(s, n, 10)
    ensures ReadVarint64(s) == ReadVarint32(s) == ReadTag(s) == ReadSize(s) == None
  {
    if ReadVarint(s, 10).Some? {
      ReadVarintOnly(s, 10);
    }
    if ReadVarint(s, 5).Some? {
      FrontVarintWider(s, |s| - |ReadVarint(s, 5).value.1|);
      ReadVarintOnly(s, 5);
    }
  }

  lemma SmallRemainder(n: nat)
    ensures n < TWO32 ==> n % TWO32 == n
    ensures n < TWO64 ==> n % TWO64 == n
  {
  }

  lemma Varint64RoundTrip(v: nat, rest: seq<byte>)
    requires v < TWO64
    ensures ReadVarint64(Varint(v) + rest) == Some((v, rest))
    ensures ReadVarint32(Varint(v) + rest) == Some((v % TWO32, rest))
  {
    Pow128Values();
    SmallRemainder(v);
    VarintRoundTrip(v, 10, rest);
  }

  lemma TagRoundTrip(tag: nat, rest: seq<byte>)
    requires tag < TWO32
    ensures ReadTag(Varint(tag) + rest) == Some((tag, rest))
  {
    Pow128Values();
    SmallRemainder(tag);
    VarintRoundTrip(tag, 5, rest);
  }

  lemma SizeRoundTrip(n: nat, rest: seq<byte>)
    requires n < TWO32
    ensures ReadSize(Varint(n) + rest) == if n <= MAX_SIZE then Some((n, rest)) else None
  {
    Pow128Values();
    VarintRoundTrip(n, 5, rest);
  }

  // ---------------------------------------------------------------- varint sizes

  function Log2Floor(n: nat): nat
    requires 0 < n
  {
    if n == 1 then 0 else 1 + Log2Floor(n / 2)
  }

  /** value | 1 */
  function OrOne(v: nat): nat {
    if v % 2 == 0 then v + 1 else v
  }

  /** VarintSize32 and VarintSize64: a logarithm, a multiplication and a shift instead of a loop. */
  function VarintSize(v: nat): nat {
    (Log2Floor(OrOne(v)) * 9 + 73) / 64
  }

  function VarintSizePlusOne(v: nat): nat {
    (Log2Floor(OrOne(v)) * 9 + 73 + 64) / 64
  }

  lemma Log2Or(v: nat)
    requires 0 < v
    ensures Log2Floor(OrOne(v)) == Log2Floor(v)
  {
  }

  lemma Log2Of128(v: nat)
    requires 128 <= v
    ensures Log2Floor(v) == 7 + Log2Floor(v / 128)
  {
    assert v / 2 / 2 / 2 / 2 / 2 / 2 / 2 == v / 128;
    var a := v / 2;
    var b := a / 2;
    var c := b / 2;
    var d := c / 2;
    var e := d / 2;
    var f := e / 2;
    assert Log2Floor(v) == 1 + Log2Floor(a) == 2 + Log2Floor(b) == 3 + Log2Floor(c);
    assert Log2Floor(c) == 1 + Log2Floor(d) == 2 + Log2Floor(e) == 3 + Log2Floor(f) == 4 + Log2Floor(f / 2);
  }

  lemma {:induction false} VarintLength(v: nat)
    requires 0 < v
    ensures |Varint(v)| == Log2Floor(v) / 7 + 1
  {
    if v < 128 {
      Log2Small(v);
    } else {
      VarintLength(v / 128);
      Log2Of128(v);
    }
  }

  lemma Log2Small(v: nat)
    requires 0 < v < 128
    ensures Log2Floor(v) < 7
  {
    Log2Below(v, 7, 128);
  }

  lemma {:induction false} Log2Below(v: nat, k: nat, bound: nat)
    requires 0 < v < bound && bound == Pow2(k)
    ensures Log2Floor(v) < k
  {
    if v == 1 {
    } else {
      assert v / 2 < Pow2(k - 1);
      Log2Below(v / 2, k - 1, Pow2(k - 1));
    }
  }

  function Pow2(n: nat): nat {
    if n == 0 then 1 else 2 * Pow2(n - 1)
  }

  lemma {:induction false} Pow2Sum(a: nat, b: nat)
    ensures Pow2(a + b) == Pow2(a) * Pow2(b)
  {
    if a == 0 {
    } else {
      Pow2Sum(a - 1, b);
      assert Pow2(a + b) == 2 * Pow2(a - 1 + b);
    }
  }

  lemma Pow2Of64()
    ensures Pow2(64) == TWO64
  {
    assert Pow2(2) == 4;
    Pow2Sum(2, 2);
    Pow2Sum(4, 4);
    Pow2Sum(8, 8);
    Pow2Sum(16, 16);
    Pow2Sum(32, 32);
  }

  /** The logarithm formula counts the bytes of the encoding, for every 64-bit value. */
  lemma VarintSizeIsLength(v: nat)
    requires v < TWO64
    ensures VarintSize(v) == |Varint(v)|
    ensures VarintSizePlusOne(v) == |Varint(v)| + 1
  {
    if v == 0 {
      assert Log2Floor(OrOne(0)) == 0;
    } else {
      Log2Or(v);
      VarintLength(v);
      Pow2Of64();
      Log2Below(v, 64, TWO64);
      var k := Log2Floor(v);
      assert 0 <= k < 64 ==> (k * 9 + 73) / 64 == k / 7 + 1;
    }
  }

  // ---------------------------------------------------------------- fields of no known number

  /** A field kept in the UnknownFieldSet.  Fixed-width values are kept as their raw bytes. */
  datatype Unknown =
    | VarintField(num: nat, value: nat)
    | Fixed64Field(num: nat, raw: seq<byte>)
    | BytesField(num: nat, data: seq<byte>)
    | GroupField(num: nat, fields: seq<Unknown>)
    | Fixed32Field(num: nat, raw: seq<byte>)

  function Tag(num: nat, wireType: nat): seq<byte> {
    Varint(num * 8 + wireType)
  }

  function WireType(u: Unknown): nat {
    match u
    case VarintField(_, _) => 0
    case Fixed64Field(_, _) => 1
    case BytesField(_, _) => 2
    case GroupField(_, _) => 3
    case Fixed32Field(_, _) => 5
  }

  /** What UnknownFieldParse can produce with `depth` nested groups to spare. */
  predicate UnknownOk(u: Unknown, depth: nat)
    decreases u
  {
    && 1 <= u.num < 0x2000_0000
    && match u
       case VarintField(_, value) => value < TWO64
       case Fixed64Field(_, raw) => |raw| == 8
       case BytesField(_, data) => |data| <= MAX_SIZE
       case GroupField(_, fields) => 0 < depth && UnknownsOk(fields, depth - 1)
       case Fixed32Field(_, raw) => |raw| == 4
  }

  predicate UnknownsOk(us: seq<Unknown>, depth: nat)
    decreases us
  {
    us == [] || (UnknownOk(us[0], depth) && UnknownsOk(us[1..], depth))
  }

  /** The unknown fields a message can hold: parseable ones, none with a tag of its known fields. */
  predicate UnknownKept(us: seq<Unknown>, depth: nat, known: set<nat>) {
    UnknownsOk(us, depth) && forall i :: 0 <= i < |us| ==> us[i].num * 8 + WireType(us[i]) !in known
  }

  /** The tags that end a parse loop. */
  predicate EndTag(tag: nat) {
    tag == 0 || tag % 8 == 4
  }

  /** How a parse loop over a message object ends. */
  datatype Ended = AtEnd | AtTag(tag: nat, rest: seq<byte>) | Failure

  function SerializeUnknown(u: Unknown): seq<byte>
    decreases u, 1
  {
    Tag(u.num, WireType(u)) + Payload(u)
  }

  function Payload(u: Unknown): seq<byte>
    decreases u, 0
  {
    match u
    case VarintField(_, value) => Varint(value)
    case Fixed64Field(_, raw) => raw
    case BytesField(_, data) => Varint(|data|) + data
    case GroupField(num, fields) => SerializeUnknowns(fields) + Tag(num, 4)
    case Fixed32Field(_, raw) => raw
  }

  function SerializeUnknowns(us: seq<Unknown>): seq<byte>
    decreases us
  {
    if us == [] then [] else SerializeUnknown(us[0]) + SerializeUnknowns(us[1..])
  }

  function ReadRaw(s: seq<byte>, n: nat): (r: Option<(seq<byte>, seq<byte>)>)
    ensures r.Some? ==> |r.value.1| == |s| - n && |r.value.0| == n
  {
    if n <= |s| then Some((s[..n], s[n..])) else None
  }

  /** InlineGreedyStringParser: a size and that many bytes. */
  function ReadBytes(s: seq<byte>): (r: Option<(seq<byte>, seq<byte>)>)
    ensures r.Some? ==> |r.value.1| < |s| && |r.value.0| <= MAX_SIZE
  {
    match ReadSize(s)
    case None => None
    case Some((n, rest)) => ReadRaw(rest, n)
  }

  /** FieldParser: the value of a field whose tag has been read. */
  function ParseField(tag: nat, s: seq<byte>, depth: nat): (r: Option<(Unknown, seq<byte>)>)
    ensures r.Some? ==> |r.value.1| <= |s|
    decreases |s|, 1
  {
    var num := tag / 8;
    if num == 0 then None
    else match tag % 8
      case 0 =>
        (match ReadVarint64(s)
         case None => None
         case Some((v, rest)) => Some((VarintField(num, v), rest)))
      case 1 =>
        (match ReadRaw(s, 8)
         case None => None
         case Some((raw, rest)) => Some((Fixed64Field(num, raw), rest)))
      case 2 =>
        (match ReadBytes(s)
         case None => None
         case Some((data, rest)) => Some((BytesField(num, data), rest)))
      case 3 =>
        if depth == 0 then None else
        (match ParseGroup(num, s, depth - 1)
         case None => None
         case Some((fields, rest)) => Some((GroupField(num, fields), rest)))
      case 5 =>
        (match ReadRaw(s, 4)
         case None => None
         case Some((raw, rest)) => Some((Fixed32Field(num, raw), rest)))
      case _ => None
  }

  /** WireFormatParser inside a group, up to the end tag that matches its start tag. */
  function ParseGroup(num: nat, s: seq<byte>, depth: nat): (r: Option<(seq<Unknown>, seq<byte>)>)
    ensures r.Some? ==> |r.value.1| <= |s|
    decreases |s|, 0
  {
    match ReadTag(s)
    case None => None
    case Some((tag, rest)) =>
      if EndTag(tag) then
        if tag == num * 8 + 4 then Some(([], rest)) else None
      else
        match ParseField(tag, rest, depth)
        case None => None
        case Some((u, after)) =>
          match ParseGroup(num, after, depth)
          case None => None
          case Some((us, last)) => Some(([u] + us, last))
  }

  /** Which bytes an unknown field is written as. */
  lemma {:induction false} UnknownFormat(u: Unknown)
    ensures SerializeUnknown(u) ==
              match u
              case VarintField(num, value) => Varint(8 * num) + Varint(value)
              case Fixed64Field(num, raw) => Varint(8 * num + 1) + raw
              case BytesField(num, data) => Varint(8 * num + 2) + (Varint(|data|) + data)
              case GroupField(num, fields) =>
                Varint(8 * num + 3) + (SerializeUnknowns(fields) + Varint(8 * num + 4))
              case Fixed32Field(num, raw) => Varint(8 * num + 5) + raw
  {
  }

  /** Which field the bytes after a tag are read as, groups aside. */
  lemma UnknownFieldExact(tag: nat, s: seq<byte>, n: nat, depth: nat)
    requires FrontVarint(s, n, 10)
    ensures tag < 8 || tag % 8 in {4, 6, 7} ==> ParseField(tag, s, depth) == None
    ensures 8 <= tag && tag % 8 == 0 ==>
              ParseField(tag, s, depth)
                == Some((VarintField(tag / 8, Groups(s, n) % 0x1_0000_0000_0000_0000), s[n..]))
    ensures 8 <= tag && tag % 8 == 1 ==>
              ParseField(tag, s, depth)
                == if |s| >= 8 then Some((Fixed64Field(tag / 8, s[..8]), s[8..])) else None
    ensures 8 <= tag && tag % 8 == 2 ==>
              var k := Groups(s, n);
              ParseField(tag, s, depth)
                == if n <= 5 && k <= 0x7fff_ffef && n + k <= |s|
                   then Some((BytesField(tag / 8, s[n..n + k]), s[n + k..])) else None
    ensures 8 <= tag && tag % 8 == 5 ==>
              ParseField(tag, s, depth)
                == if |s| >= 4 then Some((Fixed32Field(tag / 8, s[..4]), s[4..])) else None
  {
    ReadersExact(s, n);
    var k := Groups(s, n);
    if n + k <= |s| {
      assert s[n..][..k] == s[n..n + k] && s[n..][k..] == s[n + k..];
    }
  }

  lemma RawRoundTrip(raw: seq<byte>, rest: seq<byte>)
    ensures ReadRaw(raw + rest, |raw|) == Some((raw, rest))
  {
  }

  lemma BytesRoundTrip(data: seq<byte>, rest: seq<byte>)
    requires |data| < TWO32
    ensures ReadBytes(Varint(|data|) + data + rest)
         == if |data| <= MAX_SIZE then Some((data, rest)) else None
  {
    Regroup(Varint(|data|), data, rest);
    SizeRoundTrip(|data|, data + rest);
    RawRoundTrip(data, rest);
  }

  lemma TagParts(num: nat, wireType: nat)
    requires num < 0x2000_0000 && wireType < 8
    ensures var tag := num * 8 + wireType; tag < TWO32 && tag / 8 == num && tag % 8 == wireType
  {
  }

  lemma HeadOk(us: seq<Unknown>, depth: nat)
    requires UnknownsOk(us, depth) && us != []
    ensures UnknownOk(us[0], depth) && UnknownsOk(us[1..], depth)
    ensures var tag := us[0].num * 8 + WireType(us[0]);
            8 <= tag < TWO32 && tag % 8 == WireType(us[0]) != 4
  {
  }

  lemma KeptTail(us: seq<Unknown>, depth: nat, known: set<nat>)
    requires us != [] && UnknownKept(us, depth, known)
    ensures UnknownKept(us[1..], depth, known)
  {
  }

  lemma {:induction false} UnknownsOkAppend(us: seq<Unknown>, u: Unknown, depth: nat)
    requires UnknownsOk(us, depth) && UnknownOk(u, depth)
    ensures UnknownsOk(us + [u], depth)
    decreases |us|
  {
    if us == [] {
      assert us + [u] == [u] && [u][1..] == [];
    } else {
      UnknownsOkAppend(us[1..], u, depth);
      assert (us + [u])[1..] == us[1..] + [u];
    }
  }

  lemma KeptAppend(us: seq<Unknown>, u: Unknown, depth: nat, known: set<nat>)
    requires UnknownKept(us, depth, known) && UnknownOk(u, depth) && u.num * 8 + WireType(u) !in known
    ensures UnknownKept(us + [u], depth, known)
  {
    UnknownsOkAppend(us, u, depth);
  }

  lemma AppendedUnknown(p: seq<Unknown>, q: seq<Unknown>, r: seq<Unknown>, a: seq<Unknown>)
    requires |p| <= |q| <= |r| && q[..|p|] == p && r[..|q|] == q
    ensures r[..|p|] == p
    ensures a + q[|p|..] + r[|q|..] == a + r[|p|..]
  {
  }

  lemma {:induction false} UnknownRoundTrip(u: Unknown, depth: nat, rest: seq<byte>)
    requires UnknownOk(u, depth)
    ensures ParseField(u.num * 8 + WireType(u), Payload(u) + rest, depth) == Some((u, rest))
    decreases u
  {
    TagParts(u.num, WireType(u));
    match u
    case VarintField(_, value) => Varint64RoundTrip(value, rest);
    case Fixed64Field(_, raw) => RawRoundTrip(raw, rest);
    case BytesField(_, data) => BytesRoundTrip(data, rest);
    case GroupField(num, fields) =>
      Regroup(SerializeUnknowns(fields), Tag(num, 4), rest);
      GroupRoundTrip(num, fields, depth - 1, rest);
    case Fixed32Field(_, raw) => RawRoundTrip(raw, rest);
  }

  lemma UnknownsUnfold(us: seq<Unknown>, rest: seq<byte>)
    requires us != []
    ensures SerializeUnknowns(us) + rest
         == Varint(us[0].num * 8 + WireType(us[0])) + (Payload(us[0]) + (SerializeUnknowns(us[1..]) + rest))
  {
  }

  lemma GroupStep(num: nat, tag: nat, s: seq<byte>, body: seq<byte>, u: Unknown, after: seq<byte>,
                  us: seq<Unknown>, last: seq<byte>, depth: nat)
    requires ReadTag(s) == Some((tag, body)) && 8 <= tag && tag % 8 != 4
    requires ParseField(tag, body, depth) == Some((u, after)) && ParseGroup(num, after, depth) == Some((us, last))
    ensures ParseGroup(num, s, depth) == Some(([u] + us, last))
  {
  }

  lemma {:induction false} GroupRoundTrip(num: nat, us: seq<Unknown>, depth: nat, rest: seq<byte>)
    requires 1 <= num < 0x2000_0000 && UnknownsOk(us, depth)
    ensures ParseGroup(num, SerializeUnknowns(us) + (Tag(num, 4) + rest), depth) == Some((us, rest))
    decreases us
  {
    if us == [] {
      assert SerializeUnknowns(us) + (Tag(num, 4) + rest) == Tag(num, 4) + rest;
      TagParts(num, 4);
      TagRoundTrip(num * 8 + 4, rest);
    } else {
      var u, tail := us[0], SerializeUnknowns(us[1..]) + (Tag(num, 4) + rest);
      var tag, s := u.num * 8 + WireType(u), SerializeUnknowns(us) + (Tag(num, 4) + rest);
      HeadOk(us, depth);
      UnknownsUnfold(us, Tag(num, 4) + rest);
      TagRoundTrip(tag, Payload(u) + tail);
      UnknownRoundTrip(u, depth, tail);
      GroupRoundTrip(num, us[1..], depth, rest);
      GroupStep(num, tag, s, Payload(u) + tail, u, tail, us[1..], rest, depth);
      assert us == [u] + us[1..];
    }
  }

  // ---------------------------------------------------------------- reading with more input behind

  lemma {:induction false} ReadVarintMore(s: seq<byte>, max: nat, more: seq<byte>)
    requires ReadVarint(s, max).Some?
    ensures ReadVarint(s + more, max) == Some((ReadVarint(s, max).value.0, ReadVarint(s, max).value.1 + more))
  {
    assert (s + more)[1..] == s[1..] + more;
    if s[0] >= 128 {
      ReadVarintMore(s[1..], max - 1, more);
    }
  }

  lemma ReadRawMore(s: seq<byte>, n: nat, more: seq<byte>)
    requires n <= |s|
    ensures ReadRaw(s + more, n) == Some((s[..n], s[n..] + more))
  {
    assert (s + more)[..n] == s[..n] && (s + more)[n..] == s[n..] + more;
  }

  lemma ReadBytesMore(s: seq<byte>, more: seq<byte>)
    requires ReadBytes(s).Some?
    ensures ReadBytes(s + more) == Some((ReadBytes(s).value.0, ReadBytes(s).value.1 + more))
  {
    ReadVarintMore(s, 5, more);
    var (n, rest) := ReadSize(s).value;
    ReadRawMore(rest, n, more);
  }

  lemma {:induction false} ParseFieldMore(tag: nat, s: seq<byte>, depth: nat, more: seq<byte>)
    requires ParseField(tag, s, depth).Some?
    ensures ParseField(tag, s + more, depth)
         == Some((ParseField(tag, s, depth).value.0, ParseField(tag, s, depth).value.1 + more))
    decreases |s|, 1
  {
    match tag % 8
    case 0 => ReadVarintMore(s, 10, more);
    case 1 => ReadRawMore(s, 8, more);
    case 2 => ReadBytesMore(s, more);
    case 3 => ParseGroupMore(tag / 8, s, depth - 1, more);
    case 5 => ReadRawMore(s, 4, more);
    case _ =>
  }

  lemma {:induction false} ParseGroupMore(num: nat, s: seq<byte>, depth: nat, more: seq<byte>)
    requires ParseGroup(num, s, depth).Some?
    ensures ParseGroup(num, s + more, depth)
         == Some((ParseGroup(num, s, depth).value.0, ParseGroup(num, s, depth).value.1 + more))
    decreases |s|, 0
  {
    ReadVarintMore(s, 5, more);
    var (tag, rest) := ReadTag(s).value;
    if !(tag == 0 || tag % 8 == 4) {
      ParseFieldMore(tag, rest, depth, more);
      ParseGroupMore(num, ParseField(tag, rest, depth).value.1, depth, more);
    }
  }

  /** Whatever the bytes, a parsed field is one the serializer can write and the parser read back. */
  lemma {:induction false} ParsedFieldOk(tag: nat, s: seq<byte>, depth: nat)
    requires tag < TWO32 && ParseField(tag, s, depth).Some?
    ensures var u := ParseField(tag, s, depth).value.0;
            UnknownOk(u, depth) && u.num * 8 + WireType(u) == tag
    decreases |s|, 1
  {
    if tag % 8 == 3 {
      ParsedGroupOk(tag / 8, s, depth - 1);
    }
  }

  lemma {:induction false} ParsedGroupOk(num: nat, s: seq<byte>, depth: nat)
    requires ParseGroup(num, s, depth).Some?
    ensures UnknownsOk(ParseGroup(num, s, depth).value.0, depth)
    decreases |s|, 0
  {
    var (tag, rest) := ReadTag(s).value;
    if !(tag == 0 || tag % 8 == 4) {
      ParsedFieldOk(tag, rest, depth);
      ParsedGroupOk(num, ParseField(tag, rest, depth).value.1, depth);
    }
  }

  /** `r` is the end of `s`. */
  predicate EndOf(r: seq<byte>, s: seq<byte>) {
    |r| <= |s| && r == s[|s| - |r|..]
  }

  lemma EndOfEnd(r: seq<byte>, s: seq<byte>, t: seq<byte>)
    requires EndOf(r, s) && EndOf(s, t)
    ensures EndOf(r, t)
  {
  }

  lemma ReadVarintLeavesEnd(s: seq<byte>, max: nat)
    requires ReadVarint(s, max).Some?
    ensures EndOf(ReadVarint(s, max).value.1, s)
  {
    ReadVarintOnly(s, max);
    ReadVarintValue(s, |s| - |ReadVarint(s, max).value.1|, max);
  }

  lemma {:induction false} ParseFieldLeavesEnd(tag: nat, s: seq<byte>, depth: nat)
    requires ParseField(tag, s, depth).Some?
    ensures EndOf(ParseField(tag, s, depth).value.1, s)
    decreases |s|, 2
  {
    match tag % 8
    case 0 => ReadVarintLeavesEnd(s, 10);
    case 2 =>
      ReadVarintLeavesEnd(s, 5);
      EndOfEnd(ParseField(tag, s, depth).value.1, ReadSize(s).value.1, s);
    case 3 => ParseGroupLeavesEnd(tag / 8, s, depth - 1);
    case _ =>
  }

  lemma {:induction false} ParseGroupLeavesEnd(num: nat, s: seq<byte>, depth: nat)
    requires ParseGroup(num, s, depth).Some?
    ensures EndOf(ParseGroup(num, s, depth).value.1, s)
    decreases |s|, 1
  {
    var at := GroupEndsWithItsTag(num, s, depth);
    ReadVarintLeavesEnd(s[at..], 5);
  }

  /** A group that is read ends with its own end tag, inside the input. */
  lemma {:induction false} GroupEndsWithItsTag(num: nat, s: seq<byte>, depth: nat) returns (at: nat)
    requires ParseGroup(num, s, depth).Some?
    ensures at <= |s| && ReadTag(s[at..]) == Some((num * 8 + 4, ParseGroup(num, s, depth).value.1))
    decreases |s|, 0
  {
    var (tag, rest) := ReadTag(s).value;
    if tag == 0 || tag % 8 == 4 {
      at := 0;
      assert s[0..] == s;
    } else {
      var after := ParseField(tag, rest, depth).value.1;
      ParseFieldLeavesEnd(tag, rest, depth);
      ReadVarintLeavesEnd(s, 5);
      EndOfEnd(after, rest, s);
      var deep := GroupEndsWithItsTag(num, after, depth);
      at := |s| - |after| + deep;
      assert s[at..] == after[deep..];
    }
  }

  /** How deeply groups are nested in a field. */
  function Nesting(u: Unknown): nat
    decreases u
  {
    match u
    case GroupField(_, fields) => 1 + NestingOf(fields)
    case _ => 0
  }

  function NestingOf(us: seq<Unknown>): nat
    decreases us
  {
    if us == [] then 0
    else if Nesting(us[0]) > NestingOf(us[1..]) then Nesting(us[0]) else NestingOf(us[1..])
  }

  /** The nesting limit decides only whether a field is read, and refuses exactly what is nested deeper. */
  lemma {:induction false} NestingLimit(tag: nat, s: seq<byte>, depth: nat, limit: nat)
    requires ParseField(tag, s, depth).Some?
    ensures var (u, rest) := ParseField(tag, s, depth).value;
            && Nesting(u) <= depth
            && ParseField(tag, s, limit) == if Nesting(u) <= limit then Some((u, rest)) else None
    decreases |s|, 1
  {
    if tag % 8 == 3 && limit > 0 {
      GroupNestingLimit(tag / 8, s, depth - 1, limit - 1);
    } else if tag % 8 == 3 {
      GroupNestingLimit(tag / 8, s, depth - 1, 0);
    }
  }

  lemma {:induction false} GroupNestingLimit(num: nat, s: seq<byte>, depth: nat, limit: nat)
    requires ParseGroup(num, s, depth).Some?
    ensures var (us, rest) := ParseGroup(num, s, depth).value;
            && NestingOf(us) <= depth
            && ParseGroup(num, s, limit) == if NestingOf(us) <= limit then Some((us, rest)) else None
    decreases |s|, 0
  {
    var (tag, rest) := ReadTag(s).value;
    if !(tag == 0 || tag % 8 == 4) {
      var (u, after) := ParseField(tag, rest, depth).value;
      var (us, last) := ParseGroup(num, after, depth).value;
      NestingLimit(tag, rest, depth, limit);
      GroupNestingLimit(num, after, depth, limit);
      assert ([u] + us)[1..] == us;
    }
  }

  // ---------------------------------------------------------------- sizes of unknown fields

  function UnknownSize(u: Unknown): nat
    decreases u, 1
  {
    VarintSize(u.num * 8 + WireType(u)) + PayloadSize(u)
  }

  function PayloadSize(u: Unknown): nat
    decreases u, 0
  {
    match u
    case VarintField(_, value) => VarintSize(value)
    case Fixed64Field(_, _) => 8
    case BytesField(_, data) => BytesSize(data)
    case GroupField(num, fields) => UnknownsSize(fields) + VarintSize(num * 8 + 4)
    case Fixed32Field(_, _) => 4
  }

  function UnknownsSize(us: seq<Unknown>): nat
    decreases us
  {
    if us == [] then 0 else UnknownSize(us[0]) + UnknownsSize(us[1..])
  }

  /** LengthDelimitedSize: the length is truncated to 32 bits before its prefix is measured. */
  function BytesSize(v: seq<byte>): nat {
    |v| + VarintSize(|v| % TWO32)
  }

  lemma SizedLength(v: seq<byte>)
    requires |v| < TWO32
    ensures |Varint(|v|) + v| == BytesSize(v)
  {
    var n := |v|;
    SmallRemainder(n);
    VarintSizeIsLength(n);
    assert BytesSize(v) == n + VarintSize(n);
  }

  lemma {:induction false} UnknownSizeIsLength(u: Unknown, depth: nat)
    requires UnknownOk(u, depth)
    ensures UnknownSize(u) == |SerializeUnknown(u)|
    decreases u, 1
  {
    VarintSizeIsLength(u.num * 8 + WireType(u));
    PayloadSizeIsLength(u, depth);
  }

  lemma {:induction false} PayloadSizeIsLength(u: Unknown, depth: nat)
    requires UnknownOk(u, depth)
    ensures PayloadSize(u) == |Payload(u)|
    decreases u, 0
  {
    match u
    case VarintField(_, value) => VarintSizeIsLength(value);
    case Fixed64Field(_, _) =>
    case BytesField(_, data) => SizedLength(data);
    case GroupField(num, fields) =>
      VarintSizeIsLength(num * 8 + 4);
      UnknownsSizeIsLength(fields, depth - 1);
    case Fixed32Field(_, _) =>
  }

  lemma {:induction false} UnknownsSizeIsLength(us: seq<Unknown>, depth: nat)
    requires UnknownsOk(us, depth)
    ensures UnknownsSize(us) == |SerializeUnknowns(us)|
    decreases us
  {
    if us == [] {
    } else {
      UnknownSizeIsLength(us[0], depth);
      UnknownsSizeIsLength(us[1..], depth);
    }
  }

  // ---------------------------------------------------------------- fields with implicit presence

  /** A bytes field is written unless it is empty. */
  function BytesChunk(num: nat, v: seq<byte>): seq<byte> {
    if v == [] then [] else Tag(num, 2) + (Varint(|v|) + v)
  }

  /** An enum, int64 or int32 field is written, sign-extended to 64 bits, unless it is 0. */
  function NumberChunk(num: nat, v: int64): seq<byte> {
    if v == 0 then [] else Tag(num, 0) + Varint(ToUnsigned(v))
  }

  /** The tag of a field with a number below 16 is one byte. */
  lemma OneByteTag(num: nat, wireType: nat)
    requires 0 < num < 16 && wireType < 8
    ensures Tag(num, wireType) == [8 * num + wireType]
  {
  }

  lemma BytesFormat(num: nat, v: seq<byte>)
    requires 0 < num < 16
    ensures BytesChunk(num, v) == if v == [] then [] else [8 * num + 2] + (Varint(|v|) + v)
  {
    OneByteTag(num, 2);
  }

  lemma NumberFormat(num: nat, v: int64)
    requires 0 < num < 16
    ensures NumberChunk(num, v) == if v == 0 then [] else [8 * num] + Varint(v % 0x1_0000_0000_0000_0000)
  {
    ToUnsignedIsModular(v);
    OneByteTag(num, 0);
  }

  lemma BytesChunkSize(num: nat, v: seq<byte>)
    requires 0 < num < 16 && |v| < TWO32
    ensures |BytesChunk(num, v)| == if v == [] then 0 else 1 + BytesSize(v)
  {
    SizedLength(v);
    assert |Tag(num, 2)| == 1;
  }

  lemma NumberChunkSize(num: nat, v: int64)
    requires 0 < num < 16
    ensures |NumberChunk(num, v)| == if v == 0 then 0 else 1 + VarintSize(ToUnsigned(v))
    ensures VarintSizePlusOne(ToUnsigned(v)) == 1 + VarintSize(ToUnsigned(v))
  {
    VarintSizeIsLength(ToUnsigned(v));
  }
}
