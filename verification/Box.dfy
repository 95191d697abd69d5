/** A queue of received boxes read as one stream of bytes, through a cursor into the oldest box. */
module Boxes {
  import opened Arithmetic
  import opened Bytes

  const UINT64: nat := 0x1_0000_0000_0000_0000

  /** A cursor into a box; a default-made cursor points nowhere. */
  class BoxIndex {
    var data: seq<byte>
    var p: nat
    var len: nat
    var pointing: bool

    ghost predicate Valid()
      reads this
    {
      p + len == |data|
    }

    /** The bytes still ahead of the cursor. */
    function Ahead(): seq<byte>
      requires Valid()
      reads this
    {
      data[p..]
    }

    constructor Nowhere()
      ensures Valid() && !pointing
    {
      data, p, len, pointing := [], 0, 0, false;
    }

    /** ReadBox::CreateIndex() */
    constructor On(box: seq<byte>)
      ensures Valid() && pointing && data == box && p == 0
    {
      data, p, len, pointing := box, 0, |box|, true;
    }

    /** read(bf, len): copies into `bf` from position `at`. */
    method ReadInto(bf: array<byte>, at: nat, n: nat) returns (ret: nat)
      requires Valid() && at + Min(|Ahead()|, n) <= bf.Length
      modifies this`p, this`len, bf
      ensures Valid() && ret == Min(|old(Ahead())|, n)
      ensures bf[..at] == old(bf[..at]) && bf[at + ret..] == old(bf[at + ret..])
      ensures bf[at..at + ret] == old(Ahead())[..ret]
      ensures Ahead() == old(Ahead())[ret..]
    {
      if len == 0 {
        return 0;
      }
      ret := if len > n then n else len;
      forall i | 0 <= i < ret {
        bf[at + i] := data[p + i];
      }
      assert bf[at..at + ret] == data[p..p + ret] == Ahead()[..ret];
      p := p + ret;
      len := len - ret;
    }

    /** read(len) */
    method ReadString(n: nat) returns (ret: seq<byte>)
      requires Valid()
      modifies this`p, this`len
      ensures Valid() && ret == old(Ahead())[..Min(|old(Ahead())|, n)]
      ensures Ahead() == old(Ahead())[|ret|..]
    {
      if len == 0 {
        return [];
      }
      var le := if len > n then n else len;
      ret := data[p..p + le];
      p := p + le;
      len := len - le;
    }
  }

  /** The counter after bytes have come in. */
  lemma CountedUp(x: nat, k: nat)
    ensures (x % UINT64 + k) % UINT64 == (x + k) % UINT64
  {
    assert x == x / UINT64 * UINT64 + x % UINT64;
  }

  /** The counter after bytes have been taken off the front. */
  lemma CountedDown(x: nat, k: nat)
    requires k <= x
    ensures (x % UINT64 + UINT64 - k % UINT64) % UINT64 == (x - k) % UINT64
  {
    assert x == x / UINT64 * UINT64 + x % UINT64 && k == k / UINT64 * UINT64 + k % UINT64;
  }

  class ReadBoxQueue {
    var boxqueue: seq<seq<byte>>
    var index: BoxIndex
    var allBytes: nat
    /** What the uninitialised counter held at construction. */
    ghost const initial: nat

    ghost predicate Valid()
      reads this, index
    {
      && index.Valid()
      && (index.pointing ==> boxqueue != [] && index.data == boxqueue[0])
      && initial < UINT64
      && allBytes == (initial + |Content()|) % UINT64
    }

    /** The unread bytes, whatever boxes they are in. */
    ghost function Content(): seq<byte>
      requires index.Valid() && (index.pointing ==> boxqueue != [])
      reads this, index
    {
      if index.pointing then index.Ahead() + Joined(boxqueue[1..]) else Joined(boxqueue)
    }

    /** Nothing is left once no box can be pointed at. */
    lemma Drained()
      requires Valid() && !index.pointing && boxqueue == []
      ensures Content() == []
    {
    }

    constructor (garbage: nat)
      requires garbage < UINT64
      ensures Valid() && Content() == [] && initial == garbage && fresh(index)
    {
      boxqueue, allBytes, initial := [], garbage, garbage;
      index := new BoxIndex.Nowhere();
    }

    method Push(box: seq<byte>)
      requires Valid()
      modifies this
      ensures Valid() && index == old(index)
      ensures Content() == old(Content()) + box
    {
      JoinedAppend(boxqueue, box);
      if index.pointing {
        JoinedAppend(boxqueue[1..], box);
        assert (boxqueue + [box])[1..] == boxqueue[1..] + [box];
      }
      ghost var content := Content();
      CountedUp(initial + |content|, |box|);
      boxqueue := boxqueue + [box];
      allBytes := (allBytes + |box|) % UINT64;
      assert Content() == content + box;
    }

    /** lenght(): right for every stream that fits the counter exactly when the counter started at 0. */
    method Length() returns (n: nat)
      requires Valid()
      ensures n == (initial + |Content()|) % UINT64
      ensures |Content()| < UINT64 ==> (n == |Content()| <==> initial == 0)
    {
      n := allBytes;
    }

    method NextBoxIndex() returns (next: BoxIndex, isEnd: bool)
      ensures fresh(next) && next.Valid()
      ensures isEnd <==> boxqueue == []
      ensures next.pointing <==> !isEnd
      ensures !isEnd ==> next.data == boxqueue[0] && next.p == 0
    {
      if |boxqueue| == 0 {
        isEnd := true;
        next := new BoxIndex.Nowhere();
        return;
      }
      isEnd := false;
      next := new BoxIndex.On(boxqueue[0]);
    }

    /** An exhausted box is dropped and the cursor set on the next one; no unread byte is lost. */
    method DropBox() returns (isEnd: bool)
      requires index.Valid() && index.pointing && boxqueue != [] && index.data == boxqueue[0] && index.len == 0
      modifies this`boxqueue, this`index
      ensures fresh(index) && index.Valid() && boxqueue == old(boxqueue)[1..]
      ensures index.pointing ==> boxqueue != [] && index.data == boxqueue[0]
      ensures index.pointing || boxqueue == []
      ensures Content() == old(Content()) && (isEnd ==> Content() == [])
    {
      boxqueue := boxqueue[1..];
      index, isEnd := NextBoxIndex();
    }

    /** One pass of the reading loop after the cursor has moved over `ret` bytes. */
    method AfterRead(ret: nat, ghost before: seq<byte>) returns (isEnd: bool)
      requires index.Valid() && index.pointing && boxqueue != [] && index.data == boxqueue[0]
      requires initial < UINT64 && allBytes == (initial + |before|) % UINT64
      requires ret <= |before| && Content() == before[ret..]
      requires ret == 0 ==> index.len == 0
      modifies this
      ensures Valid() && Content() == before[ret..]
      ensures index == old(index) || fresh(index)
      ensures index.pointing || boxqueue == []
      ensures isEnd ==> Content() == []
      ensures |boxqueue| <= |old(boxqueue)|
      ensures old(index.len) == 0 ==> |boxqueue| < |old(boxqueue)|
    {
      isEnd := false;
      CountedDown(initial + |before|, ret);
      allBytes := (allBytes + UINT64 - ret % UINT64) % UINT64;
      assert allBytes == (initial + |before[ret..]|) % UINT64;
      if ret == 0 || index.len == 0 {
        isEnd := DropBox();
      }
    }

    /** `done` of the bytes `all` have been read, and the cursor stands where there is more, if any. */
    ghost predicate Reading(all: seq<byte>, done: nat)
      reads this, index
    {
      Valid() && done <= |all| && Content() == all[done..] && (index.pointing || boxqueue == [])
    }

    lemma AheadAndRest(all: seq<byte>, done: nat, k: nat)
      requires Reading(all, done) && index.pointing && k <= |index.Ahead()|
      ensures done + k <= |all| && all[done..done + k] == index.Ahead()[..k]
      ensures all[done + k..] == index.Ahead()[k..] + Joined(boxqueue[1..])
      ensures |all[done..]| >= |index.Ahead()|
    {
      var ahead, rest := index.Ahead(), Joined(boxqueue[1..]);
      assert all[done..][..k] == (ahead + rest)[..k] == ahead[..k];
      assert all[done..][k..] == (ahead + rest)[k..] == ahead[k..] + rest;
    }

    /** When the reading loop ends, it has read all it could. */
    lemma ReadAll(all: seq<byte>, done: nat, n: nat)
      requires Reading(all, done) && done <= n && (done == n || !index.pointing)
      ensures done == Min(|all|, n)
    {
      if !index.pointing {
        Drained();
      }
    }

    /** The body of read(len)'s loop. */
    method SomeString(n: nat, ghost all: seq<byte>, ghost done: nat) returns (ret: seq<byte>, isEnd: bool)
      requires Reading(all, done) && index.pointing && 0 < n
      modifies this, index
      ensures index == old(index) || fresh(index)
      ensures |ret| <= n && Reading(all, done + |ret|) && ret == all[done..done + |ret|]
      ensures isEnd ==> Content() == []
      ensures |boxqueue| < |old(boxqueue)| || (|boxqueue| == |old(boxqueue)| && |ret| == n)
    {
      AheadAndRest(all, done, Min(|index.Ahead()|, n));
      ret := index.ReadString(n);
      isEnd := AfterRead(|ret|, all[done..]);
    }

    /** The body of read(buf, len)'s loop; it fills `buf` from position `done`. */
    method SomeInto(buf: array<byte>, n: nat, ghost all: seq<byte>, done: nat) returns (ret: nat, isEnd: bool)
      requires Reading(all, done) && index.pointing && 0 < n
      requires done + Min(|Content()|, n) <= buf.Length
      modifies this, index, buf
      ensures index == old(index) || fresh(index)
      ensures ret <= n && Reading(all, done + ret)
      ensures done + ret <= buf.Length && buf[done..done + ret] == all[done..done + ret]
      ensures buf[..done] == old(buf[..done]) && buf[done + ret..] == old(buf[done + ret..])
      ensures isEnd ==> Content() == []
      ensures |boxqueue| < |old(boxqueue)| || (|boxqueue| == |old(boxqueue)| && ret == n)
    {
      AheadAndRest(all, done, Min(|index.Ahead()|, n));
      ret := index.ReadInto(buf, done, n);
      isEnd := AfterRead(ret, all[done..]);
    }

    /** The string read so far grows by what the next box gives. */
    method MoreString(r: seq<byte>, left: nat, ghost all: seq<byte>) returns (longer: seq<byte>, isEnd: bool)
      requires Reading(all, |r|) && index.pointing && 0 < left && r == all[..|r|]
      modifies this, index
      ensures index == old(index) || fresh(index)
      ensures |longer| <= |r| + left && Reading(all, |longer|) && longer == all[..|longer|]
      ensures isEnd ==> Content() == []
      ensures |boxqueue| < |old(boxqueue)| || (|boxqueue| == |old(boxqueue)| && |longer| == |r| + left)
    {
      var ret;
      ret, isEnd := SomeString(left, all, |r|);
      Extended(all, |r|, |ret|);
      longer := r + ret;
    }

    /** read(len): the next bytes, at most `n` of them, as a string. */
    method ReadString(n: nat) returns (r: seq<byte>)
      requires Valid()
      modifies this, index
      ensures Valid() && (index == old(index) || fresh(index))
      ensures |r| == Min(|old(Content())|, n)
      ensures r == old(Content())[..|r|] && Content() == old(Content())[|r|..]
    {
      var isEnd := false;
      var left := n;
      ghost var all := Content();
      r := [];
      if !index.pointing {
        index, isEnd := NextBoxIndex();
      }
      while 0 < left && index.pointing
        invariant index == old(index) || fresh(index)
        invariant 0 <= left && |r| + left == n
        invariant Reading(all, |r|) && r == all[..|r|]
        invariant isEnd ==> Content() == []
        decreases |boxqueue|, left
      {
        if isEnd {
          return;
        }
        r, isEnd := MoreString(r, left, all);
        left := n - |r|;
      }
      ReadAll(all, |r|, n);
    }

    /** read(buf, len): the same bytes into a buffer; the rest of the buffer is untouched. */
    method ReadInto(buf: array<byte>, n: nat) returns (readBytes: nat)
      requires Valid() && Min(|Content()|, n) <= buf.Length
      modifies this, index, buf
      ensures Valid() && (index == old(index) || fresh(index))
      ensures readBytes == Min(|old(Content())|, n)
      ensures buf[..readBytes] == old(Content())[..readBytes] && buf[readBytes..] == old(buf[readBytes..])
      ensures Content() == old(Content())[readBytes..]
    {
      var isEnd := false;
      var left := n;
      ghost var all, kept := Content(), buf[..];
      readBytes := 0;
      if !index.pointing {
        index, isEnd := NextBoxIndex();
      }
      while 0 < left && index.pointing
        invariant index == old(index) || fresh(index)
        invariant 0 <= left && readBytes + left == n
        invariant Reading(all, readBytes) && Filled(buf[..], all, kept, readBytes)
        invariant isEnd ==> Content() == []
        decreases |boxqueue|, left
      {
        if isEnd {
          return;
        }
        ghost var before := buf[..];
        var ret;
        ret, isEnd := SomeInto(buf, left, all, readBytes);
        FilledMore(before, buf[..], all, kept, readBytes, ret);
        readBytes := readBytes + ret;
        left := left - ret;
      }
      ReadAll(all, readBytes, n);
    }
  }

  /** The first `i` bytes of `s` are those of `all`; the others are as they were. */
  ghost predicate Filled(s: seq<byte>, all: seq<byte>, kept: seq<byte>, i: nat) {
    && |s| == |kept| && i <= |s| && i <= |all|
    && s[..i] == all[..i] && s[i..] == kept[i..]
  }

  lemma FilledMore(s: seq<byte>, t: seq<byte>, all: seq<byte>, kept: seq<byte>, i: nat, k: nat)
    requires Filled(s, all, kept, i) && |t| == |s| && i + k <= |t| && i + k <= |all|
    requires t[..i] == s[..i] && t[i..i + k] == all[i..i + k] && t[i + k..] == s[i + k..]
    ensures Filled(t, all, kept, i + k)
  {
    assert t[..i + k] == t[..i] + t[i..i + k];
    assert all[..i + k] == all[..i] + all[i..i + k];
    assert s[i + k..] == s[i..][k..] && kept[i + k..] == kept[i..][k..];
  }

  /** Reading `k` more bytes after the first `i`. */
  lemma Extended(all: seq<byte>, i: nat, k: nat)
    requires i + k <= |all|
    ensures all[..i + k] == all[..i] + all[i..i + k]
  {
  }

  // ---------------------------------------------------------------- runs of the queue

  /** push(box), read(n) and read(buf, n). */
  datatype StreamOp = PushBox(box: seq<byte>) | ReadUpTo(n: nat) | ReadIntoUpTo(n: nat)

  /** The same call on a flat byte queue: its bytes afterwards, and the bytes handed out. */
  function Flat(q: seq<byte>, op: StreamOp): (seq<byte>, seq<byte>) {
    if op.PushBox? then (q + op.box, []) else (q[Min(|q|, op.n)..], q[..Min(|q|, op.n)])
  }

  function RunStream(q: seq<byte>, ops: seq<StreamOp>): (seq<byte>, seq<byte>)
    decreases |ops|
  {
    if ops == [] then (q, []) else
    var (after, first) := Flat(q, ops[0]);
    var (left, out) := RunStream(after, ops[1..]);
    (left, first + out)
  }

  function PushedBy(ops: seq<StreamOp>): seq<byte> {
    if ops == [] then [] else
    (if ops[0].PushBox? then ops[0].box else []) + PushedBy(ops[1..])
  }

  lemma FlatConserves(q: seq<byte>, op: StreamOp)
    ensures Flat(q, op).1 + Flat(q, op).0 == q + PushedBy([op])
  {
    assert [op][1..] == [];
  }

  /**
   On the flat queue no byte is lost, repeated or reordered: what was handed out, then what is
   unread, is what was pushed.
   */
  lemma {:induction false} StreamConserves(q: seq<byte>, ops: seq<StreamOp>)
    ensures RunStream(q, ops).1 + RunStream(q, ops).0 == q + PushedBy(ops)
    decreases |ops|
  {
    if ops == [] {
    } else {
      var (after, first) := Flat(q, ops[0]);
      var (left, out) := RunStream(after, ops[1..]);
      var box := if ops[0].PushBox? then ops[0].box else [];
      FlatConserves(q, ops[0]);
      StreamConserves(after, ops[1..]);
      assert PushedBy([ops[0]]) == box by { assert [ops[0]][1..] == []; }
      Regroup(first, out, left);
      Regroup(first, after, PushedBy(ops[1..]));
      Regroup(q, box, PushedBy(ops[1..]));
    }
  }

  lemma OneOp(q: seq<byte>, op: StreamOp)
    ensures RunStream(q, [op]) == Flat(q, op)
  {
    assert [op][1..] == [] && Flat(q, op).1 + [] == Flat(q, op).1;
  }

  lemma SameFlat(q: seq<byte>, n: nat)
    ensures Flat(q, ReadUpTo(n)) == Flat(q, ReadIntoUpTo(n)) == (q[Min(|q|, n)..], q[..Min(|q|, n)])
  {
  }

  /** On the flat queue read(a) and then read(b) are read(a + b), by either overload. */
  lemma ReadsCompose(q: seq<byte>, a: nat, b: nat)
    ensures RunStream(q, [ReadUpTo(a), ReadUpTo(b)]) == Flat(q, ReadUpTo(a + b)) == Flat(q, ReadIntoUpTo(a + b))
  {
    var (rest, first) := Flat(q, ReadUpTo(a));
    assert [ReadUpTo(a), ReadUpTo(b)][1..] == [ReadUpTo(b)];
    OneOp(rest, ReadUpTo(b));
    assert first + Flat(rest, ReadUpTo(b)).1 == q[..Min(|q|, a + b)];
    assert Flat(rest, ReadUpTo(b)).0 == q[Min(|q|, a + b)..];
  }

  /** One call on the queue, with a buffer of the caller's for read(buf, n). */
  method Perform(q: ReadBoxQueue, op: StreamOp) returns (out: seq<byte>)
    requires q.Valid()
    modifies q, q.index
    ensures q.Valid() && (q.index == old(q.index) || fresh(q.index))
    ensures (q.Content(), out) == Flat(old(q.Content()), op)
  {
    match op
    case PushBox(box) =>
      q.Push(box);
      out := [];
    case ReadUpTo(n) =>
      out := q.ReadString(n);
    case ReadIntoUpTo(n) =>
      var buf := new byte[n](_ => 0);
      var k := q.ReadInto(buf, n);
      out := buf[..k];
  }

  /**
   Any calls on a queue in any state, whatever its boxes and wherever its cursor: it hands out and
   keeps what the flat queue does, so nothing is lost, repeated or reordered.
   */
  method RunQueue(q: ReadBoxQueue, ops: seq<StreamOp>) returns (out: seq<byte>)
    requires q.Valid()
    modifies q, q.index
    ensures q.Valid() && (q.index == old(q.index) || fresh(q.index))
    ensures (q.Content(), out) == RunStream(old(q.Content()), ops)
    ensures out + q.Content() == old(q.Content()) + PushedBy(ops)
    decreases |ops|
  {
    StreamConserves(q.Content(), ops);
    if ops == [] {
      return [];
    }
    var first := Perform(q, ops[0]);
    var rest := RunQueue(q, ops[1..]);
    out := first + rest;
  }

  /** Every run from the constructor: the bytes read, then those unread, are the bytes pushed. */
  method RunFromStart(garbage: nat, ops: seq<StreamOp>) returns (q: ReadBoxQueue, out: seq<byte>)
    requires garbage < UINT64
    ensures fresh(q) && q.Valid() && out + q.Content() == PushedBy(ops)
    ensures (q.Content(), out) == RunStream([], ops)
  {
    q := new ReadBoxQueue(garbage);
    out := RunQueue(q, ops);
    assert [] + PushedBy(ops) == PushedBy(ops);
  }

  /** read(a) and then read(b) on a queue hand out and leave what read(a + b) does. */
  method ReadTwice(q: ReadBoxQueue, a: nat, b: nat) returns (out: seq<byte>)
    requires q.Valid()
    modifies q, q.index
    ensures q.Valid() && (q.index == old(q.index) || fresh(q.index))
    ensures (q.Content(), out) == Flat(old(q.Content()), ReadUpTo(a + b))
  {
    ReadsCompose(q.Content(), a, b);
    out := RunQueue(q, [ReadUpTo(a), ReadUpTo(b)]);
  }

  /**
   Two queues with the same unread bytes, however these are cut into boxes: read(a) and then
   read(b) on the one hands out and leaves what read(buf, a + b) does on the other.
   */
  method ReadsAgree(q: ReadBoxQueue, p: ReadBoxQueue, a: nat, b: nat) returns (twice: seq<byte>, once: seq<byte>)
    requires q.Valid() && p.Valid() && q.Content() == p.Content()
    requires q != p && q.index != p.index
    modifies q, q.index, p, p.index
    ensures q.Valid() && p.Valid() && twice == once && q.Content() == p.Content()
    ensures once == old(q.Content())[..Min(|old(q.Content())|, a + b)]
  {
    ghost var c := q.Content();
    SameFlat(c, a + b);
    twice := ReadTwice(q, a, b);
    assert (q.Content(), twice) == Flat(c, ReadUpTo(a + b)) && p.Content() == c;
    once := Perform(p, ReadIntoUpTo(a + b));
    assert (p.Content(), once) == Flat(c, ReadIntoUpTo(a + b));
  }
}
