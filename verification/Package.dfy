/** The `proto_package` message: two bytes fields with implicit presence. */
module Packages {
  import opened Bytes
  import opened Wire
  import opened Output

  datatype Package = Package(name: seq<byte>, data: seq<byte>, unknown: seq<Unknown>)

  function Default(): Package {
    Package([], [], [])
  }

  datatype Outcome =
    | Done(msg: Package)
    | Stopped(msg: Package, tag: nat, rest: seq<byte>)
    | Failed

  /** The tags of the fields the message declares. */
  const KNOWN: set<nat> := {10, 18}

  function TakeUnusual(m: Package, tag: nat, s: seq<byte>, depth: nat): (r: Option<(Package, seq<byte>)>)
    ensures r.Some? ==> |r.value.1| <= |s|
  {
    match ParseField(tag, s, depth)
    case None => None
    case Some((u, rest)) => Some((m.(unknown := m.unknown + [u]), rest))
  }

  function TakeField(m: Package, tag: nat, s: seq<byte>, depth: nat): (r: Option<(Package, seq<byte>)>)
    ensures r.Some? ==> |r.value.1| <= |s|
  {
    match tag / 8
    case 1 =>
      if tag % 256 != 10 then TakeUnusual(m, tag, s, depth) else
      (match ReadBytes(s) case None => None case Some((v, rest)) => Some((m.(name := v), rest)))
    case 2 =>
      if tag % 256 != 18 then TakeUnusual(m, tag, s, depth) else
      (match ReadBytes(s) case None => None case Some((v, rest)) => Some((m.(data := v), rest)))
    case _ => TakeUnusual(m, tag, s, depth)
  }

  function Parse(m: Package, s: seq<byte>, depth: nat): Outcome
    decreases |s|
  {
    if s == [] then Done(m) else
    match ReadTag(s)
    case None => Failed
    case Some((tag, rest)) =>
      if EndTag(tag) then Stopped(m, tag, rest) else
      match TakeField(m, tag, rest, depth)
      case None => Failed
      case Some((next, after)) => Parse(next, after, depth)
  }

  function Serialize(m: Package): seq<byte> {
    BytesChunk(1, m.name) + (BytesChunk(2, m.data) + SerializeUnknowns(m.unknown))
  }

  function Merge(a: Package, b: Package): Package {
    Package(if b.name == [] then a.name else b.name,
            if b.data == [] then a.data else b.data,
            a.unknown + b.unknown)
  }

  function ByteSize(m: Package): nat {
    (if m.name == [] then 0 else 1 + BytesSize(m.name)) +
    (if m.data == [] then 0 else 1 + BytesSize(m.data)) +
    UnknownsSize(m.unknown)
  }

  predicate Fits(m: Package) {
    |m.name| <= MAX_SIZE && |m.data| <= MAX_SIZE
  }

  /** The bytes of a package, field by field. */
  lemma PackageFormat(m: Package)
    ensures Serialize(m) ==
              (if m.name == [] then [] else [10] + (Varint(|m.name|) + m.name)) +
              (if m.data == [] then [] else [18] + (Varint(|m.data|) + m.data)) +
              SerializeUnknowns(m.unknown)
  {
    BytesFormat(1, m.name);
    BytesFormat(2, m.data);
    Regroup(BytesChunk(1, m.name), BytesChunk(2, m.data), SerializeUnknowns(m.unknown));
  }

  // ---------------------------------------------------------------- one field

  lemma ParseStep(m: Package, tag: nat, body: seq<byte>, rest: seq<byte>, next: Package, depth: nat)
    requires 0 < tag < TWO32 && !EndTag(tag)
    requires TakeField(m, tag, body + rest, depth) == Some((next, rest))
    ensures Parse(m, Varint(tag) + body + rest, depth) == Parse(next, rest, depth)
  {
    Regroup(Varint(tag), body, rest);
    TagRoundTrip(tag, body + rest);
  }

  /** A zero tag and an end-group tag end the loop, and what follows is left alone. */
  lemma EndTagStops(m: Package, tag: nat, rest: seq<byte>, depth: nat)
    requires tag < TWO32 && (tag == 0 || tag % 8 == 4)
    ensures Parse(m, Varint(tag) + rest, depth) == Stopped(m, tag, rest)
  {
    TagRoundTrip(tag, rest);
  }

  lemma ParseStepFails(m: Package, tag: nat, body: seq<byte>, depth: nat)
    requires 0 < tag < TWO32 && !EndTag(tag)
    requires TakeField(m, tag, body, depth) == None
    ensures Parse(m, Varint(tag) + body, depth) == Failed
  {
    TagRoundTrip(tag, body);
  }

  /** The message after the bytes field `num` has been read. */
  function SetBytes(m: Package, num: nat, v: seq<byte>): Package {
    if v == [] then m else if num == 1 then m.(name := v) else m.(data := v)
  }

  lemma BytesFieldRead(m: Package, num: nat, v: seq<byte>, rest: seq<byte>, depth: nat)
    requires num in {1, 2} && |v| < TWO32
    ensures Parse(m, BytesChunk(num, v) + rest, depth)
         == if |v| > MAX_SIZE then Failed else Parse(SetBytes(m, num, v), rest, depth)
  {
    BytesRoundTrip(v, rest);
    if v == [] {
      assert BytesChunk(num, v) + rest == rest;
    } else if |v| <= MAX_SIZE {
      ParseStep(m, num * 8 + 2, Varint(|v|) + v, rest, SetBytes(m, num, v), depth);
    } else {
      Regroup(Varint(num * 8 + 2), Varint(|v|) + v, rest);
      ParseStepFails(m, num * 8 + 2, Varint(|v|) + v + rest, depth);
    }
  }

  lemma TakeUnknown(m: Package, u: Unknown, tail: seq<byte>, depth: nat)
    requires UnknownOk(u, depth) && u.num * 8 + WireType(u) !in KNOWN
    ensures TakeField(m, u.num * 8 + WireType(u), Payload(u) + tail, depth)
         == Some((m.(unknown := m.unknown + [u]), tail))
  {
    TagParts(u.num, WireType(u));
    UnknownRoundTrip(u, depth, tail);
  }

  lemma UnknownStep(m: Package, us: seq<Unknown>, rest: seq<byte>, depth: nat)
    requires us != [] && UnknownKept(us, depth, KNOWN)
    ensures Parse(m, SerializeUnknowns(us) + rest, depth)
         == Parse(m.(unknown := m.unknown + [us[0]]), SerializeUnknowns(us[1..]) + rest, depth)
  {
    var u, tail := us[0], SerializeUnknowns(us[1..]) + rest;
    var tag, next := u.num * 8 + WireType(u), m.(unknown := m.unknown + [u]);
    HeadOk(us, depth);
    assert TakeField(m, tag, Payload(u) + tail, depth) == Some((next, tail)) by { TakeUnknown(m, u, tail, depth); }
    assert SerializeUnknowns(us) + rest == Varint(tag) + Payload(u) + tail by {
      UnknownsUnfold(us, rest);
      Regroup(Varint(tag), Payload(u), tail);
    }
    ParseStep(m, tag, Payload(u), tail, next, depth);
  }

  /** Parsing `s` into `m` goes on as parsing `t` into `n`. */
  predicate Leads(m: Package, s: seq<byte>, n: Package, t: seq<byte>, depth: nat) {
    Parse(m, s, depth) == Parse(n, t, depth)
  }

  lemma LeadsOn(m: Package, s: seq<byte>, n: Package, t: seq<byte>, o: Package, u: seq<byte>, depth: nat)
    requires Leads(m, s, n, t, depth) && Leads(n, t, o, u, depth)
    ensures Leads(m, s, o, u, depth)
  {
  }

  lemma UnknownStepLeads(m: Package, us: seq<Unknown>, rest: seq<byte>, depth: nat)
    requires us != [] && UnknownKept(us, depth, KNOWN)
    ensures Leads(m, SerializeUnknowns(us) + rest,
                  m.(unknown := m.unknown + [us[0]]), SerializeUnknowns(us[1..]) + rest, depth)
  {
    UnknownStep(m, us, rest, depth);
  }

  lemma {:induction false} UnknownFields(m: Package, us: seq<Unknown>, rest: seq<byte>, depth: nat)
    requires UnknownKept(us, depth, KNOWN)
    ensures Leads(m, SerializeUnknowns(us) + rest, m.(unknown := m.unknown + us), rest, depth)
    decreases |us|
  {
    if us == [] {
      assert SerializeUnknowns(us) + rest == rest && m.unknown + us == m.unknown;
    } else {
      var next := m.(unknown := m.unknown + [us[0]]);
      var s, t := SerializeUnknowns(us) + rest, SerializeUnknowns(us[1..]) + rest;
      UnknownStepLeads(m, us, rest, depth);
      KeptTail(us, depth, KNOWN);
      UnknownFields(next, us[1..], rest, depth);
      assert m.unknown + [us[0]] + us[1..] == m.unknown + us;
      LeadsOn(m, s, next, t, m.(unknown := m.unknown + us), rest, depth);
    }
  }

  // ---------------------------------------------------------------- whole messages

  /** Parsing a serialized package into `m` merges it into `m`, unless a bytes field is too long. */
  lemma ParseMerges(m: Package, f: Package, rest: seq<byte>, depth: nat)
    requires UnknownKept(f.unknown, depth, KNOWN) && |f.name| < TWO32 && |f.data| < TWO32
    ensures Parse(m, Serialize(f) + rest, depth) == if Fits(f) then Parse(Merge(m, f), rest, depth) else Failed
  {
    var b, c := BytesChunk(2, f.data), SerializeUnknowns(f.unknown);
    Regroup(BytesChunk(1, f.name), b + c, rest);
    Regroup(b, c, rest);
    BytesFieldRead(m, 1, f.name, b + (c + rest), depth);
    var m1 := SetBytes(m, 1, f.name);
    BytesFieldRead(m1, 2, f.data, c + rest, depth);
    UnknownFields(SetBytes(m1, 2, f.data), f.unknown, rest, depth);
  }

  /** Round trip, exactly for the packages whose fields are within the length limit. */
  lemma {:induction false} RoundTrip(f: Package, depth: nat)
    requires UnknownKept(f.unknown, depth, KNOWN) && |f.name| < TWO32 && |f.data| < TWO32
    ensures Parse(Default(), Serialize(f), depth) == Done(f) <==> Fits(f)
  {
    ParseMerges(Default(), f, [], depth);
    assert Serialize(f) + [] == Serialize(f);
    assert Default().unknown + f.unknown == f.unknown;
  }

  lemma MergeIntoDefault(a: Package)
    ensures Merge(Default(), a) == a
  {
    assert Default().unknown + a.unknown == a.unknown;
  }

  /** Parsing the concatenation of two serializations is merging the two packages. */
  lemma {:induction false} ConcatenationMerges(a: Package, b: Package, depth: nat)
    requires UnknownKept(a.unknown, depth, KNOWN) && UnknownKept(b.unknown, depth, KNOWN) && Fits(a) && Fits(b)
    ensures Parse(Default(), Serialize(a) + Serialize(b), depth) == Done(Merge(a, b))
  {
    ParseMerges(Default(), a, Serialize(b), depth);
    MergeIntoDefault(a);
    ParseMerges(a, b, [], depth);
    assert Serialize(b) + [] == Serialize(b);
  }

  /** The announced size is the number of bytes written. */
  lemma {:induction false} ByteSizeIsLength(m: Package, depth: nat)
    requires UnknownsOk(m.unknown, depth) && |m.name| < TWO32 && |m.data| < TWO32
    ensures ByteSize(m) == |Serialize(m)|
  {
    BytesChunkSize(1, m.name);
    BytesChunkSize(2, m.data);
    UnknownsSizeIsLength(m.unknown, depth);
  }

  // ---------------------------------------------------------------- the message object

  /** The chunks of a serialization, in the order they are written. */
  lemma SerializeInOrder(m: Package)
    ensures var c1, c2, c3 := BytesChunk(1, m.name), BytesChunk(2, m.data), SerializeUnknowns(m.unknown);
            && [] + c1 + c2 + c3 == Serialize(m)
            && |Serialize(m)| == |c1| + |c2| + |c3|
  {
  }

  class PackageMessage {
    var name: seq<byte>
    var data: seq<byte>
    var unknown: seq<Unknown>

    function View(): Package
      reads this
    {
      Package(name, data, unknown)
    }

    constructor ()
      ensures View() == Default()
    {
      name, data, unknown := [], [], [];
    }

    method Clear()
      modifies this
      ensures View() == Default() == Package([], [], [])
    {
      name := [];
      data := [];
      unknown := [];
    }

    /** One pass of the parse loop's switch, with the tag already read. */
    method ParseOne(tag: nat, s: seq<byte>, depth: nat) returns (rest: Option<seq<byte>>)
      modifies this
      ensures match TakeField(old(View()), tag, s, depth)
              case None => rest == None
              case Some((m, after)) => rest == Some(after) && View() == m
    {
      if tag / 8 == 1 && tag % 256 == 10 {
        var r := ReadBytes(s);
        if r == None { return None; }
        name := r.value.0;
        return Some(r.value.1);
      } else if tag / 8 == 2 && tag % 256 == 18 {
        var r := ReadBytes(s);
        if r == None { return None; }
        data := r.value.0;
        return Some(r.value.1);
      }
      var r := ParseField(tag, s, depth);
      if r == None { return None; }
      unknown := unknown + [r.value.0];
      return Some(r.value.1);
    }

    method InternalParse(input: seq<byte>, depth: nat) returns (ended: Ended)
      modifies this
      ensures match Parse(old(View()), input, depth)
              case Done(m) => ended == AtEnd && View() == m
              case Stopped(m, tag, rest) => ended == AtTag(tag, rest) && View() == m
              case Failed => ended == Failure
    {
      var s := input;
      while s != []
        invariant Parse(View(), s, depth) == Parse(old(View()), input, depth)
        decreases |s|
      {
        var t := ReadTag(s);
        if t == None {
          return Failure;
        }
        var (tag, rest) := t.value;
        if EndTag(tag) {
          return AtTag(tag, rest);
        }
        ghost var before := View();
        var after := ParseOne(tag, rest, depth);
        if after == None {
          return Failure;
        }
        assert TakeField(before, tag, rest, depth) == Some((View(), after.value));
        s := after.value;
      }
      return AtEnd;
    }

    /** _InternalSerialize: advances through `target` from `at`, writing nothing else. */
    method InternalSerialize(target: array<byte>, at: nat) returns (end: nat)
      requires at + |Serialize(View())| <= target.Length
      modifies target
      ensures end == at + |Serialize(View())|
      ensures Wrote(old(target[..]), target[..], at, Serialize(View()))
    {
      ghost var start, m := target[..], View();
      ghost var c1, c2 := BytesChunk(1, m.name), BytesChunk(2, m.data);
      SerializeInOrder(m);
      end := WriteBytes(target, at, 1, name, start, at, []);
      end := WriteBytes(target, end, 2, data, start, at, [] + c1);
      end := WriteUnknowns(target, end, unknown, start, at, [] + c1 + c2);
    }

    method MergeFrom(from: PackageMessage)
      requires from != this
      modifies this
      ensures View() == Merge(old(View()), from.View())
    {
      if from.name != [] { name := from.name; }
      if from.data != [] { data := from.data; }
      unknown := unknown + from.unknown;
    }

    method CopyFrom(from: PackageMessage)
      modifies this
      ensures View() == old(from.View())
    {
      if from == this {
        return;
      }
      Clear();
      MergeFrom(from);
    }
  }
}
