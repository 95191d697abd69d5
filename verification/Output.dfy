/** Writing encoded fields through an output pointer that moves along a byte array. */
module Output {
  import opened Bytes
  import opened Wire

  /** `after` is `before` with `v` at position `at`, and nothing else changed. */
  ghost predicate Wrote(before: seq<byte>, after: seq<byte>, at: nat, v: seq<byte>) {
    at + |v| <= |before| && after == before[..at] + v + before[at + |v|..]
  }

  /** Two writes in a row are one write of the concatenation. */
  lemma WroteBoth(before: seq<byte>, mid: seq<byte>, after: seq<byte>, at: nat, v: seq<byte>, w: seq<byte>)
    requires Wrote(before, mid, at, v) && Wrote(mid, after, at + |v|, w)
    ensures Wrote(before, after, at, v + w)
  {
  }

  /**
   The state of an output pointer: since the target was `start`, the bytes `done` have been
   written at `origin`, and the pointer stands behind them at `at`.
   */
  ghost predicate Pointer(start: seq<byte>, target: seq<byte>, origin: nat, done: seq<byte>, at: nat) {
    Wrote(start, target, origin, done) && at == origin + |done|
  }

  lemma PointerMoves(start: seq<byte>, mid: seq<byte>, target: seq<byte>, origin: nat, done: seq<byte>,
                     at: nat, w: seq<byte>)
    requires Pointer(start, mid, origin, done, at) && Wrote(mid, target, at, w)
    ensures Pointer(start, target, origin, done + w, at + |w|)
  {
  }

  method PutByte(target: array<byte>, at: nat, b: byte)
    requires at < target.Length
    modifies target
    ensures Wrote(old(target[..]), target[..], at, [b])
  {
    target[at] := b;
  }

  /** From `at` to `end` stands `v`, seven bits a byte and low ones first, the last byte without its top bit. */
  ghost predicate SevenBitsEach(s: seq<byte>, at: nat, end: nat, v: nat) {
    && at < end <= |s| && v < Pow128(end - at)
    && forall i :: at <= i < end ==> s[i] % 128 == v / Pow128(i - at) % 128 && (s[i] >= 128 <==> i + 1 < end)
  }

  lemma VarintWritten(before: seq<byte>, after: seq<byte>, at: nat, v: nat)
    requires Wrote(before, after, at, Varint(v))
    ensures SevenBitsEach(after, at, at + |Varint(v)|, v)
  {
    VarintBytes(v, 0);
    forall i | at <= i < at + |Varint(v)|
      ensures after[i] % 128 == v / Pow128(i - at) % 128 && (after[i] >= 128 <==> i + 1 < at + |Varint(v)|)
    {
      assert after[i] == Varint(v)[i - at];
      VarintBytes(v, i - at);
    }
  }

  /** The lowest group of `value`, with the continuation bit; `done` of the varint `all` has been written at `at`. */
  method PutGroup(target: array<byte>, end: nat, value: nat, ghost start: seq<byte>, ghost at: nat,
                  ghost done: seq<byte>, ghost all: seq<byte>) returns (ghost more: seq<byte>)
    requires value >= 128 && done + Varint(value) == all && at + |all| <= target.Length
    requires Pointer(start, target[..], at, done, end)
    modifies target
    ensures more + Varint(value / 128) == all && Pointer(start, target[..], at, more, end + 1)
  {
    ghost var mid, low := target[..], [(value % 128 + 128) as byte];
    assert Varint(value) == low + Varint(value / 128);
    Regroup(done, low, Varint(value / 128));
    more := done + low;
    PutByte(target, end, value % 128 + 128);
    PointerMoves(start, mid, target[..], at, done, end, low);
  }

  /** The loop of UnsafeVarint and UnsafeWriteSize. */
  method PutVarint(target: array<byte>, at: nat, v: nat) returns (end: nat)
    requires at + |Varint(v)| <= target.Length
    modifies target
    ensures end == at + |Varint(v)|
    ensures Wrote(old(target[..]), target[..], at, Varint(v))
  {
    end := at;
    var value := v;
    ghost var start, done: seq<byte>, all := target[..], [], Varint(v);
    while value >= 128
      invariant done + Varint(value) == all && Pointer(start, target[..], at, done, end)
    {
      done := PutGroup(target, end, value, start, at, done, all);
      value := value / 128;
      end := end + 1;
    }
    ghost var mid := target[..];
    assert done + [value] == all;
    PutByte(target, end, value);
    PointerMoves(start, mid, target[..], at, done, end, [value]);
    end := end + 1;
  }

  /** A varint at the output pointer: seven bits a byte, low ones first. */
  method WriteVarint(target: array<byte>, at: nat, v: nat) returns (end: nat)
    requires at + |Varint(v)| <= target.Length
    modifies target
    ensures end == at + |Varint(v)|
    ensures Wrote(old(target[..]), target[..], at, Varint(v))
    ensures SevenBitsEach(target[..], at, end, v)
  {
    end := PutVarint(target, at, v);
    VarintWritten(old(target[..]), target[..], at, v);
  }

  method WriteRaw(target: array<byte>, at: nat, v: seq<byte>) returns (end: nat)
    requires at + |v| <= target.Length
    modifies target
    ensures end == at + |v|
    ensures Wrote(old(target[..]), target[..], at, v)
  {
    forall i | 0 <= i < |v| {
      target[at + i] := v[i];
    }
    end := at + |v|;
  }

  method WriteSized(target: array<byte>, at: nat, num: nat, v: seq<byte>) returns (end: nat)
    requires at + |Tag(num, 2) + (Varint(|v|) + v)| <= target.Length
    modifies target
    ensures end == at + |Tag(num, 2) + (Varint(|v|) + v)|
    ensures Wrote(old(target[..]), target[..], at, Tag(num, 2) + (Varint(|v|) + v))
  {
    ghost var s0 := target[..];
    var a := WriteVarint(target, at, num * 8 + 2);
    ghost var s1 := target[..];
    var b := WriteVarint(target, a, |v|);
    ghost var s2 := target[..];
    end := WriteRaw(target, b, v);
    WroteBoth(s1, s2, target[..], a, Varint(|v|), v);
    WroteBoth(s0, s1, target[..], at, Varint(num * 8 + 2), Varint(|v|) + v);
  }

  method WriteScalar(target: array<byte>, at: nat, num: nat, v: int64) returns (end: nat)
    requires at + |Tag(num, 0) + Varint(ToUnsigned(v))| <= target.Length
    modifies target
    ensures end == at + |Tag(num, 0) + Varint(ToUnsigned(v))|
    ensures Wrote(old(target[..]), target[..], at, Tag(num, 0) + Varint(ToUnsigned(v)))
  {
    ghost var s0 := target[..];
    var a := WriteVarint(target, at, num * 8 + 0);
    ghost var s1 := target[..];
    end := WriteVarint(target, a, ToUnsigned(v));
    WroteBoth(s0, s1, target[..], at, Varint(num * 8 + 0), Varint(ToUnsigned(v)));
  }

  /** A bytes field, when it is not empty. */
  method WriteBytes(target: array<byte>, at: nat, num: nat, v: seq<byte>,
                    ghost start: seq<byte>, ghost origin: nat, ghost done: seq<byte>) returns (end: nat)
    requires Pointer(start, target[..], origin, done, at)
    requires at + |BytesChunk(num, v)| <= target.Length
    modifies target
    ensures Pointer(start, target[..], origin, done + BytesChunk(num, v), end)
  {
    end := at;
    ghost var mid := target[..];
    if v != [] {
      end := WriteSized(target, at, num, v);
    }
    PointerMoves(start, mid, target[..], origin, done, at, BytesChunk(num, v));
  }

  /** An enum, int64 or int32 field, when it is not 0. */
  method WriteNumber(target: array<byte>, at: nat, num: nat, v: int64,
                     ghost start: seq<byte>, ghost origin: nat, ghost done: seq<byte>) returns (end: nat)
    requires Pointer(start, target[..], origin, done, at)
    requires at + |NumberChunk(num, v)| <= target.Length
    modifies target
    ensures Pointer(start, target[..], origin, done + NumberChunk(num, v), end)
  {
    end := at;
    ghost var mid := target[..];
    if v != 0 {
      end := WriteScalar(target, at, num, v);
    }
    PointerMoves(start, mid, target[..], origin, done, at, NumberChunk(num, v));
  }

  /** The unknown fields, which the library serializes as a block. */
  method WriteUnknowns(target: array<byte>, at: nat, us: seq<Unknown>,
                       ghost start: seq<byte>, ghost origin: nat, ghost done: seq<byte>) returns (end: nat)
    requires Pointer(start, target[..], origin, done, at)
    requires at + |SerializeUnknowns(us)| <= target.Length
    modifies target
    ensures Pointer(start, target[..], origin, done + SerializeUnknowns(us), end)
  {
    ghost var mid := target[..];
    end := WriteRaw(target, at, SerializeUnknowns(us));
    PointerMoves(start, mid, target[..], origin, done, at, SerializeUnknowns(us));
  }
}
