/** The growable ring of blocks as the program keeps it: a list of nodes and two indices. */
module ByteArray {
  import opened Arithmetic
  import opened RingCells

  ghost function Blocks(nodes: seq<array<char>>): seq<seq<char>>
    reads nodes
  {
    seq(|nodes|, i requires 0 <= i < |nodes| reads nodes => nodes[i][..])
  }

  /** `after` is `before` with one node put in as number `k`. */
  ghost predicate Inserted(before: seq<array<char>>, after: seq<array<char>>, k: nat) {
    && k < |after| == |before| + 1
    && (forall i :: 0 <= i < k ==> after[i] == before[i])
    && (forall i :: k < i < |after| ==> after[i] == before[i - 1])
  }

  lemma BlocksInserted(nodes: seq<array<char>>, k: nat, node: array<char>)
    requires k <= |nodes|
    ensures Blocks(nodes[..k] + [node] + nodes[k..]) == Blocks(nodes)[..k] + [node[..]] + Blocks(nodes)[k..]
  {
  }

  /** Position of a node in a list. */
  function Find(nodes: seq<array<char>>, node: array<char>): (i: nat)
    requires node in nodes
    ensures i < |nodes| && nodes[i] == node
  {
    if nodes[0] == node then 0 else 1 + Find(nodes[1..], node)
  }

  /** The list of blocks.  A list iterator is the node it denotes; null is the end iterator. */
  class BlockList {
    var nodes: seq<array<char>>

    ghost predicate Valid(size: nat)
      reads this
    {
      && 0 < |nodes|
      && (forall i :: 0 <= i < |nodes| ==> nodes[i].Length == size)
      && (forall i, j :: 0 <= i < j < |nodes| ==> nodes[i] != nodes[j])
    }

    ghost function Arrays(): set<array<char>>
      reads this
    {
      set node | node in nodes
    }

    constructor (size: nat)
      ensures Valid(size) && |nodes| == 1 && fresh(nodes[0])
      ensures nodes[0][..] == Zeros(size)
    {
      var block := new char[size](_ => '\0');
      nodes := [block];
      new;
      assert block[..] == Zeros(size);
    }

    function After(node: array<char>): array?<char>
      requires node in nodes
      reads this
    {
      var i := Find(nodes, node);
      if i + 1 < |nodes| then nodes[i + 1] else null
    }

    function Before(node: array<char>): array<char>
      requires node in nodes && node != nodes[0]
      reads this
    {
      nodes[Find(nodes, node) - 1]
    }

    lemma FindAt(size: nat, i: nat)
      requires Valid(size) && i < |nodes|
      ensures Find(nodes, nodes[i]) == i
    {
    }

    /** Inserts a copy of `block` before `place`, which is node number `k` (or the end). */
    method Insert(place: array?<char>, block: seq<char>, ghost k: nat)
      requires Valid(|block|)
      requires k <= |nodes|
      requires if k == |nodes| then place == null else place == nodes[k]
      modifies this
      ensures Valid(|block|)
      ensures Inserted(old(nodes), nodes, k) && fresh(nodes[k])
      ensures Blocks(nodes) == old(Blocks(nodes))[..k] + [block] + old(Blocks(nodes))[k..]
    {
      var node := new char[|block|](i requires 0 <= i < |block| => block[i]);
      assert node[..] == block;
      if k < |nodes| { FindAt(|block|, k); }
      var i := if place == null then |nodes| else Find(nodes, place);
      BlocksInserted(nodes, i, node);
      nodes := nodes[..i] + [node] + nodes[i..];
    }

    /** Replaces the list by fresh copies of another list's blocks. */
    method CopyFrom(other: BlockList, size: nat)
      requires other.Valid(size)
      modifies this
      ensures Valid(size)
      ensures Blocks(nodes) == old(Blocks(other.nodes))
      ensures forall i :: 0 <= i < |nodes| ==> fresh(nodes[i])
    {
      var copies: seq<array<char>> := [];
      var i := 0;
      while i < |other.nodes|
        invariant 0 <= i <= |other.nodes|
        invariant nodes == old(nodes) && other.nodes == old(other.nodes)
        invariant |copies| == i
        invariant forall k :: 0 <= k < i ==> fresh(copies[k]) && copies[k].Length == size
        invariant forall k :: 0 <= k < i ==> copies[k][..] == old(other.nodes[k][..])
        invariant forall j, k :: 0 <= j < k < i ==> copies[j] != copies[k]
      {
        var source := other.nodes[i];
        var node := new char[size](k requires 0 <= k < source.Length reads source => source[k]);
        assert node[..] == source[..];
        copies := copies + [node];
        i := i + 1;
      }
      nodes := copies;
    }
  }

  lemma Extend(ts: seq<char>, q: seq<char>, i: nat, c: char)
    requires i < |ts| && i < |q| && ts[..i] == q[..i] && c == q[i]
    ensures ts[i := c][..i + 1] == q[..i + 1]
  {
    assert ts[i := c][..i + 1] == ts[..i] + [c] && q[..i + 1] == q[..i] + [c];
  }

  /** The result of read_to_string(int): a string, or a write outside the string being filled. */
  datatype Text = Read(text: seq<char>) | Overrun

  function ReadOf(q: seq<char>, size: nat): Text {
    if size >= |q| then Read(q)
    else if size + 1 == |q| && q[size] == '\0' then Read(q[..size])
    else Overrun
  }

  /** Storing byte `i` of a string: a zero just behind it is still defined, anything else there is not. */
  function StoreIn(ts: seq<char>, i: nat, c: char): Text {
    if i < |ts| then Read(ts[i := c]) else if i == |ts| && c == '\0' then Read(ts) else Overrun
  }

  /** The string after the first `i` bytes of `q` have been stored, one behind its end at most. */
  ghost predicate Stored(ts: seq<char>, q: seq<char>, size: nat, i: nat) {
    && |ts| == Min(|q|, size) && i <= |q|
    && (if i <= |ts| then ts[..i] == q[..i] else i == |ts| + 1 && q[|ts|] == '\0' && ts == q[..|ts|])
  }

  lemma StoredMore(ts: seq<char>, q: seq<char>, size: nat, i: nat)
    requires Stored(ts, q, size, i) && i < |q|
    ensures match StoreIn(ts, i, q[i])
            case Read(t) => Stored(t, q, size, i + 1)
            case Overrun => ReadOf(q, size) == Overrun
  {
    if i < |ts| {
      Extend(ts, q, i, q[i]);
    }
    assert ts[..|ts|] == ts;
  }

  lemma FullPrefix(ts: seq<char>, q: seq<char>, n: nat)
    requires n == |ts| == |q| && ts[..n] == q[..n]
    ensures ts == q
  {
  }

  lemma StoredAll(ts: seq<char>, q: seq<char>, size: nat)
    requires Stored(ts, q, size, |q|)
    ensures ReadOf(q, size) == Read(ts)
  {
    assert ts[..|ts|] == ts && q[..|q|] == q;
  }

  /** `s` is `kept` with its first `i` bytes replaced by those of `q`. */
  ghost predicate Filled(s: seq<char>, q: seq<char>, kept: seq<char>, i: nat) {
    i <= |q| && i <= |kept| && s == q[..i] + kept[i..]
  }

  lemma FilledMore(s: seq<char>, q: seq<char>, kept: seq<char>, i: nat)
    requires Filled(s, q, kept, i) && i < |q| && i < |kept|
    ensures Filled(s[i := q[i]], q, kept, i + 1)
  {
  }

  method Put(dest: array<char>, i: nat, c: char)
    requires i < dest.Length
    modifies dest
    ensures dest[..] == old(dest[..])[i := c]
  {
    dest[i] := c;
  }

  /** A position in the ring together with the list node it stands on. */
  class Index {
    var blockIndex: nat
    var arrayIndex: nat
    var cachePtr: BlockList
    var iter: array<char>
    var sizeIncrease: nat

    /** Iterator agreement: `iter` denotes node number `blockIndex`. */
    ghost predicate Valid()
      reads this, cachePtr
    {
      && 0 < sizeIncrease
      && cachePtr.Valid(sizeIncrease)
      && blockIndex < |cachePtr.nodes|
      && arrayIndex < sizeIncrease
      && iter == cachePtr.nodes[blockIndex]
    }

    function At(): Pos
      reads this
    {
      Pos(blockIndex, arrayIndex)
    }

    constructor (block: nat, cell: nat, list: BlockList, node: array<char>, size: nat)
      ensures blockIndex == block && arrayIndex == cell && cachePtr == list && iter == node && sizeIncrease == size
    {
      blockIndex, arrayIndex, cachePtr, iter, sizeIncrease := block, cell, list, node, size;
    }

    /** operator- */
    method Minus(other: Index) returns (distance: int)
      ensures distance == Offset(At(), sizeIncrease) - Offset(other.At(), sizeIncrease)
    {
      distance := (blockIndex * sizeIncrease + arrayIndex) - (other.blockIndex * sizeIncrease + other.arrayIndex);
    }

    /** operator== */
    method Equals(other: Index) returns (same: bool)
      ensures same <==> At() == other.At()
    {
      same := other.arrayIndex == arrayIndex && other.blockIndex == blockIndex;
    }

    /** The new coordinates `v` cells further, and the list walk that reaches the new node. */
    method Move(v: nat) returns (b: nat, a: nat, it: array<char>)
      requires Valid()
      ensures Pos(b, a) == Plus(At(), v, |cachePtr.nodes|, sizeIncrease)
      ensures PosOk(Pos(b, a), |cachePtr.nodes|, sizeIncrease)
      ensures it == cachePtr.nodes[b]
    {
      PlusIsCyclic(At(), v, |cachePtr.nodes|, sizeIncrease);
      it := iter;
      a := (v + blockIndex * sizeIncrease + arrayIndex) % sizeIncrease;
      b := ((v + blockIndex * sizeIncrease + arrayIndex) / sizeIncrease) % |cachePtr.nodes|;
      var distance := b - blockIndex;
      if b == 0 {
        it := cachePtr.nodes[0];
      } else if distance > 0 {
        for i := 0 to distance
          invariant it == cachePtr.nodes[blockIndex + i]
        {
          cachePtr.FindAt(sizeIncrease, blockIndex + i);
          it := cachePtr.After(it);
        }
      } else if distance < 0 {
        for i := 0 to -distance
          invariant it == cachePtr.nodes[blockIndex - i]
        {
          cachePtr.FindAt(sizeIncrease, blockIndex - i);
          it := cachePtr.Before(it);
        }
      }
    }

    /** operator+ */
    method Add(v: nat) returns (r: Index)
      requires Valid()
      ensures fresh(r) && r.Valid()
      ensures r.cachePtr == cachePtr && r.sizeIncrease == sizeIncrease
      ensures r.At() == Plus(At(), v, |cachePtr.nodes|, sizeIncrease)
    {
      var b, a, it := Move(v);
      r := new Index(b, a, cachePtr, it, sizeIncrease);
    }

    /** operator++ */
    method Increment()
      requires Valid()
      modifies this
      ensures Valid() && cachePtr == old(cachePtr) && sizeIncrease == old(sizeIncrease)
      ensures At() == Plus(old(At()), 1, |cachePtr.nodes|, sizeIncrease)
    {
      var b, a, it := Move(1);
      blockIndex, arrayIndex, iter := b, a, it;
    }

    /** Stores a byte in the cell the index stands on. */
    method Store(c: char)
      requires Valid()
      modifies iter
      ensures Valid()
      ensures Blocks(cachePtr.nodes)
           == old(Blocks(cachePtr.nodes))[blockIndex := old(Blocks(cachePtr.nodes))[blockIndex][arrayIndex := c]]
    {
      iter[arrayIndex] := c;
      assert iter[..] == old(iter[..])[arrayIndex := c];
    }

    /** Stores `size` bytes and moves past each; `begin` names the ring's other index. */
    method PushUnsafe(data: seq<char>, size: nat, ghost begin: Pos) returns (ret: nat)
      requires Valid() && size <= |data|
      requires PosOk(begin, |cachePtr.nodes|, sizeIncrease)
      modifies this, cachePtr.Arrays()
      ensures Valid() && cachePtr == old(cachePtr) && sizeIncrease == old(sizeIncrease)
      ensures Ring(Blocks(cachePtr.nodes), begin, At())
           == WriteAll(old(Ring(Blocks(cachePtr.nodes), begin, At())), sizeIncrease, data[..size])
      ensures ret == size
    {
      ret := 0;
      ghost var r := Ring(Blocks(cachePtr.nodes), begin, At());
      while ret < size
        invariant 0 <= ret <= size
        invariant Valid() && cachePtr == old(cachePtr) && sizeIncrease == old(sizeIncrease)
        invariant Ring(Blocks(cachePtr.nodes), begin, At()) == WriteAll(r, sizeIncrease, data[..ret])
      {
        assert data[..ret + 1][..ret] == data[..ret];
        Store(data[ret]);
        Increment();
        ret := ret + 1;
      }
    }

    /** Reads the cell the index stands on, zeroes it and moves past it. */
    method TakeOne(ghost end: Pos) returns (c: char)
      requires Valid() && PosOk(end, |cachePtr.nodes|, sizeIncrease)
      modifies this, iter
      ensures Valid() && cachePtr == old(cachePtr) && sizeIncrease == old(sizeIncrease)
      ensures Ring(Blocks(cachePtr.nodes), At(), end)
           == Take(old(Ring(Blocks(cachePtr.nodes), At(), end)), sizeIncrease)
      ensures c == old(Blocks(cachePtr.nodes))[old(blockIndex)][old(arrayIndex)]
    {
      c := iter[arrayIndex];
      Store('\0');
      Increment();
    }

    /** This index has taken the first `i` of the bytes `q` of the ring `r`, whose other index is `end`. */
    ghost predicate Taken(r: Ring, end: Pos, q: seq<char>, i: nat)
      reads this, cachePtr, cachePtr.nodes
    {
      && Valid() && Ok(r, sizeIncrease) && q == Contents(r, sizeIncrease) && i <= |q|
      && Ring(Blocks(cachePtr.nodes), At(), end) == TakeAll(r, sizeIncrease, i)
    }

    method TakeNext(ghost r: Ring, ghost end: Pos, ghost q: seq<char>, i: nat) returns (c: char)
      requires Taken(r, end, q, i) && i < |q|
      modifies this, cachePtr.Arrays()
      ensures cachePtr == old(cachePtr) && sizeIncrease == old(sizeIncrease) && cachePtr.nodes == old(cachePtr.nodes)
      ensures Taken(r, end, q, i + 1) && c == q[i]
    {
      NextTaken(r, sizeIncrease, i);
      c := TakeOne(end);
    }

    /** Copies `size` bytes out, zeroing each cell; `end` names the ring's other index. */
    method PopUnsafe(dest: array<char>, size: nat, ghost end: Pos) returns (ret: nat)
      requires Valid() && size <= dest.Length && dest !in cachePtr.nodes
      requires PosOk(end, |cachePtr.nodes|, sizeIncrease)
      requires size <= |Contents(Ring(Blocks(cachePtr.nodes), At(), end), sizeIncrease)|
      modifies this, cachePtr.Arrays(), dest
      ensures Valid() && cachePtr == old(cachePtr) && sizeIncrease == old(sizeIncrease)
      ensures Ring(Blocks(cachePtr.nodes), At(), end)
           == TakeAll(old(Ring(Blocks(cachePtr.nodes), At(), end)), sizeIncrease, size)
      ensures dest[..size] == Contents(old(Ring(Blocks(cachePtr.nodes), At(), end)), sizeIncrease)[..size]
      ensures dest[size..] == old(dest[size..])
      ensures ret == size
    {
      ret := 0;
      ghost var r := Ring(Blocks(cachePtr.nodes), At(), end);
      ghost var q, kept := Contents(r, sizeIncrease), dest[..];
      while ret < size
        invariant 0 <= ret <= size
        invariant cachePtr == old(cachePtr) && sizeIncrease == old(sizeIncrease)
        invariant cachePtr.nodes == old(cachePtr.nodes)
        invariant Taken(r, end, q, ret) && Filled(dest[..], q, kept, ret)
      {
        FilledMore(dest[..], q, kept, ret);
        var c := TakeNext(r, end, q, ret);
        Put(dest, ret, c);
        ret := ret + 1;
      }
    }
  }

  class PByteArray {
    var sizeIncrease: nat
    const cache: BlockList
    const begin: Index
    const end: Index

    ghost predicate Valid()
      reads this, cache, begin, end
    {
      && begin != end
      && begin.cachePtr == cache && begin.Valid() && begin.sizeIncrease == sizeIncrease
      && end.cachePtr == cache && end.Valid() && end.sizeIncrease == sizeIncrease
    }

    ghost function Model(): Ring
      reads this, cache, begin, end, cache.nodes
    {
      Ring(Blocks(cache.nodes), begin.At(), end.At())
    }

    /** The bytes held, first to be popped first. */
    ghost function Held(): seq<char>
      requires Valid()
      reads this, cache, begin, end, cache.nodes
    {
      Contents(Model(), sizeIncrease)
    }

    constructor (size: nat)
      requires 0 < size
      ensures Valid() && sizeIncrease == size
      ensures Model() == Empty(size) && Held() == [] && Cells(Model(), size) == size
      ensures Model().blocks == [seq(size, _ => '\0')]
      ensures fresh({cache, begin, end}) && fresh(cache.Arrays())
    {
      var list := new BlockList(size);
      cache := list;
      begin := new Index(0, 0, list, list.nodes[0], size);
      end := new Index(0, 0, list, list.nodes[0], size);
      sizeIncrease := size;
      new;
      assert Blocks(cache.nodes) == [Zeros(size)];
      SizeIsLength(Model(), size);
    }

    method Capacity() returns (n: int)
      requires Valid()
      ensures n == Cells(Model(), sizeIncrease) - 1
      ensures |Held()| <= n
    {
      SizeIsLength(Model(), sizeIncrease);
      n := |cache.nodes| * sizeIncrease - 1;
    }

    /** size() */
    method Count() returns (n: nat)
      requires Valid()
      ensures n == |Held()| == Size(Model(), sizeIncrease)
    {
      SizeIsLength(Model(), sizeIncrease);
      OkOffsets(Model(), sizeIncrease);
      var now := end.Minus(begin);
      var cells := |cache.nodes| * sizeIncrease;
      n := (now + cells) % cells;
    }

    /** cache.insert(begin.iter, zeros) */
    method InsertZeros()
      requires Valid()
      modifies cache
      ensures cache.Valid(sizeIncrease)
      ensures Inserted(old(cache.nodes), cache.nodes, begin.blockIndex) && fresh(cache.nodes[begin.blockIndex])
      ensures var b := begin.blockIndex;
              Blocks(cache.nodes)
                == old(Blocks(cache.nodes))[..b] + [Zeros(sizeIncrease)] + old(Blocks(cache.nodes))[b..]
    {
      var fill := seq(sizeIncrease, _ => '\0');
      cache.Insert(begin.iter, fill, begin.blockIndex);
    }

    /** A copy of the head's block, inserted after it. */
    method InsertCopy()
      requires Valid()
      modifies cache
      ensures cache.Valid(sizeIncrease)
      ensures Inserted(old(cache.nodes), cache.nodes, begin.blockIndex + 1) && fresh(cache.nodes[begin.blockIndex + 1])
      ensures var b, blocks := begin.blockIndex, old(Blocks(cache.nodes));
              Blocks(cache.nodes) == blocks[..b + 1] + [blocks[b]] + blocks[b + 1..]
    {
      cache.FindAt(sizeIncrease, begin.blockIndex);
      var next := cache.After(begin.iter);
      var copy := begin.iter[..];
      cache.Insert(next, copy, begin.blockIndex + 1);
    }

    /** The tail wraps to an earlier block: only the head moves. */
    method GrowAcross()
      requires Valid() && begin.blockIndex > end.blockIndex
      modifies cache, begin
      ensures Valid() && sizeIncrease == old(sizeIncrease)
      ensures Model() == Grow(old(Model()), sizeIncrease)
      ensures fresh(cache.Arrays() - old(cache.Arrays()))
    {
      InsertZeros();
      begin.blockIndex := begin.blockIndex + 1;
    }

    /** The tail wraps inside the head's block: the block is doubled and the head moves to the copy. */
    method GrowInside()
      requires Valid() && begin.blockIndex == end.blockIndex && begin.arrayIndex > end.arrayIndex
      modifies cache, begin
      ensures Valid() && sizeIncrease == old(sizeIncrease)
      ensures Model() == Grow(old(Model()), sizeIncrease)
      ensures fresh(cache.Arrays() - old(cache.Arrays()))
    {
      InsertCopy();
      cache.FindAt(sizeIncrease, begin.blockIndex);
      begin.iter := cache.After(begin.iter);
      begin.blockIndex := begin.blockIndex + 1;
    }

    /** The ring does not wrap: both indices move with their blocks. */
    method GrowStraight()
      requires Valid()
      requires begin.blockIndex < end.blockIndex
            || (begin.blockIndex == end.blockIndex && begin.arrayIndex <= end.arrayIndex)
      modifies cache, begin, end
      ensures Valid() && sizeIncrease == old(sizeIncrease)
      ensures Model() == Grow(old(Model()), sizeIncrease)
      ensures fresh(cache.Arrays() - old(cache.Arrays()))
    {
      InsertZeros();
      begin.blockIndex := begin.blockIndex + 1;
      end.blockIndex := end.blockIndex + 1;
    }

    /** One iteration of the growth loop of push() and push_from_string(). */
    method GrowOnce()
      requires Valid()
      modifies cache, begin, end
      ensures Valid() && sizeIncrease == old(sizeIncrease)
      ensures Model() == Grow(old(Model()), sizeIncrease)
      ensures Held() == old(Held()) && Cells(Model(), sizeIncrease) == old(Cells(Model(), sizeIncrease)) + sizeIncrease
      ensures fresh(cache.Arrays() - old(cache.Arrays()))
    {
      GrowKeepsContents(Model(), sizeIncrease);
      if begin.blockIndex > end.blockIndex {
        GrowAcross();
      } else if begin.blockIndex == end.blockIndex {
        if begin.arrayIndex > end.arrayIndex {
          GrowInside();
        } else {
          GrowStraight();
        }
      } else {
        GrowStraight();
      }
    }

    /** The growth loop. */
    method GrowBy(time: nat)
      requires Valid()
      modifies cache, begin, end
      ensures Valid() && sizeIncrease == old(sizeIncrease)
      ensures Model() == GrowTimes(old(Model()), sizeIncrease, time)
      ensures fresh(cache.Arrays() - old(cache.Arrays()))
    {
      for j := 0 to time
        invariant Valid() && sizeIncrease == old(sizeIncrease)
        invariant Model() == GrowTimes(old(Model()), sizeIncrease, j)
        invariant fresh(cache.Arrays() - old(cache.Arrays()))
      {
        GrowOnce();
      }
    }

    /** end.push_unsafe on the whole of `data` */
    method WriteBytes(data: seq<char>) returns (ret: nat)
      requires Valid()
      modifies end, cache.Arrays()
      ensures Valid() && sizeIncrease == old(sizeIncrease)
      ensures Model() == WriteAll(old(Model()), sizeIncrease, data)
      ensures ret == |data|
    {
      assert data[..|data|] == data;
      ret := end.PushUnsafe(data, |data|, begin.At());
    }

    /** How often push() runs its growth loop. */
    static method PushRounds(capacity: int, used: nat, size: nat, block: nat) returns (time: nat)
      requires 0 < block && 0 <= capacity
      ensures time == PushGrowth(used, size, capacity + 1, block)
    {
      if capacity > used + size {
        time := 0;
      } else {
        time := ((used + size) - capacity) / block + 1;
      }
    }

    method PushBlocks(size: nat) returns (time: nat)
      requires Valid()
      ensures GrowTimes(Model(), sizeIncrease, time) == ReservedForPush(Model(), sizeIncrease, size)
    {
      var capacity := Capacity();
      var used := Count();
      time := PushRounds(capacity, used, size, sizeIncrease);
    }

    /** The growth phase of push(). */
    method ReserveForPush(size: nat)
      requires Valid()
      modifies cache, begin, end
      ensures Valid() && sizeIncrease == old(sizeIncrease)
      ensures Model() == ReservedForPush(old(Model()), sizeIncrease, size)
      ensures LeastRoom(old(Cells(Model(), sizeIncrease)), Cells(Model(), sizeIncrease), |old(Held())| + size,
                        sizeIncrease)
      ensures fresh(cache.Arrays() - old(cache.Arrays()))
    {
      ReservedIsLeast(Model(), sizeIncrease, size);
      var time := PushBlocks(size);
      GrowBy(time);
    }

    /** How often push_from_string() runs its growth loop. */
    static method StringRounds(capacity: int, used: nat, size: nat, block: nat) returns (time: nat)
      requires 0 < block && 0 <= capacity
      ensures time == StringGrowth(used, size, capacity + 1, block)
    {
      if capacity > used + size {
        time := 0;
      } else {
        time := size / block + 2;
      }
    }

    method StringBlocks(size: nat) returns (time: nat)
      requires Valid()
      ensures GrowTimes(Model(), sizeIncrease, time) == ReservedForString(Model(), sizeIncrease, size)
    {
      var capacity := Capacity();
      var used := Count();
      time := StringRounds(capacity, used, size, sizeIncrease);
    }

    /** The growth phase of push_from_string(). */
    method ReserveForString(size: nat)
      requires Valid()
      modifies cache, begin, end
      ensures Valid() && sizeIncrease == old(sizeIncrease)
      ensures Model() == ReservedForString(old(Model()), sizeIncrease, size)
      ensures TwoBlocksMore(old(Cells(Model(), sizeIncrease)), Cells(Model(), sizeIncrease), |old(Held())| + size,
                            size, sizeIncrease)
      ensures fresh(cache.Arrays() - old(cache.Arrays()))
    {
      ReservedForStringExact(Model(), sizeIncrease, size);
      var time := StringBlocks(size);
      GrowBy(time);
    }

    /** Appends the first `size` bytes of `data`, whatever the ring's placement. */
    method Push(data: seq<char>, size: nat) returns (ret: int)
      requires Valid() && size <= |data|
      modifies this, cache, begin, end, cache.Arrays()
      ensures Valid() && sizeIncrease == old(sizeIncrease)
      ensures Model() == RingCells.Push(old(Model()), sizeIncrease, data[..size])
      ensures Held() == old(Held()) + data[..size] && ret == 0
      ensures LeastRoom(old(Cells(Model(), sizeIncrease)), Cells(Model(), sizeIncrease), |Held()|, sizeIncrease)
      ensures fresh(cache.Arrays() - old(cache.Arrays()))
    {
      ret := 0;
      SizeIsLength(Model(), sizeIncrease);
      ReserveForPush(size);
      var _ := WriteBytes(data[..size]);
      PushAppends(old(Model()), sizeIncrease, data[..size]);
    }

    method PushFromString(str: seq<char>) returns (ret: nat)
      requires Valid()
      modifies this, cache, begin, end, cache.Arrays()
      ensures Valid() && sizeIncrease == old(sizeIncrease)
      ensures Model() == RingCells.PushFromString(old(Model()), sizeIncrease, str)
      ensures Held() == old(Held()) + str
      ensures TwoBlocksMore(old(Cells(Model(), sizeIncrease)), Cells(Model(), sizeIncrease), |Held()|, |str|,
                            sizeIncrease)
      ensures ret == |str|
      ensures fresh(cache.Arrays() - old(cache.Arrays()))
    {
      SizeIsLength(Model(), sizeIncrease);
      ReserveForString(|str|);
      ret := WriteBytes(str);
      PushFromStringAppends(old(Model()), sizeIncrease, str);
    }

    /** Removes the oldest bytes, at most `size` of them, into `dest`. */
    method Pop(dest: array<char>, size: nat) returns (ret: nat)
      requires Valid() && dest !in cache.nodes
      requires Min(|Held()|, size) <= dest.Length
      modifies this, begin, cache.Arrays(), dest
      ensures Valid() && sizeIncrease == old(sizeIncrease)
      ensures Model() == RingCells.Pop(old(Model()), sizeIncrease, size)
      ensures ret == Min(|old(Held())|, size)
      ensures dest[..ret] == old(Held())[..ret] && dest[ret..] == old(dest[..])[ret..]
      ensures Held() == old(Held())[ret..] && Cells(Model(), sizeIncrease) == old(Cells(Model(), sizeIncrease))
    {
      PopRemoves(Model(), sizeIncrease, size);
      var n := Count();
      n := if n < size then n else size;
      ret := begin.PopUnsafe(dest, n, end.At());
    }

    /** The index `s` stands `i` steps of ++ behind begin in the ring `r`, which holds the bytes `q`. */
    ghost predicate Walked(s: Index, r: Ring, q: seq<char>, i: nat)
      reads this, cache, begin, end, cache.nodes, s, s.cachePtr
    {
      && Valid() && Model() == r && Held() == q && i <= |q|
      && s.Valid() && s.cachePtr == cache && s.sizeIncrease == sizeIncrease
      && s.At() == Steps(r.begin, i, |r.blocks|, sizeIncrease)
    }

    /** *s and s++ of the reading loops, and their test. */
    method NextCell(s: Index, i: nat, ghost r: Ring, ghost q: seq<char>) returns (c: char, same: bool)
      requires Walked(s, r, q, i) && i < |q| && s != begin && s != end
      modifies s
      ensures Walked(s, r, q, i + 1) && c == q[i] && (same <==> i + 1 == |q|)
    {
      SizeIsLength(r, sizeIncrease);
      WalkCell(r, sizeIncrease, i);
      c := s.iter[s.arrayIndex];
      assert c == r.blocks[s.blockIndex][s.arrayIndex];
      s.Increment();
      same := s.Equals(end);
    }

    method FirstCell() returns (s: Index, same: bool)
      requires Valid()
      ensures fresh(s) && Walked(s, Model(), Held(), 0) && (same <==> Held() == [])
    {
      s := new Index(begin.blockIndex, begin.arrayIndex, begin.cachePtr, begin.iter, begin.sizeIncrease);
      same := s.Equals(end);
      SizeIsLength(Model(), sizeIncrease);
    }

    /** read_to_string(): all the bytes, the buffer untouched. */
    method ReadToString() returns (ts: seq<char>)
      requires Valid()
      ensures ts == Held()
    {
      var n := Count();
      ghost var r, q := Model(), Held();
      ts := seq(n, _ => '\0');
      var i := 0;
      var s, same := FirstCell();
      while !same
        invariant Walked(s, r, q, i) && fresh(s)
        invariant |ts| == n == |q| && ts[..i] == q[..i] && same == (i == n)
        decreases n - i
      {
        var c;
        c, same := NextCell(s, i, r, q);
        Extend(ts, q, i, c);
        ts := ts[i := c];
        i := i + 1;
      }
      FullPrefix(ts, q, n);
    }

    /** The body of the loop below. */
    method ReadCell(s: Index, ts: seq<char>, i: nat, ghost size: nat, ghost r: Ring, ghost q: seq<char>)
      returns (text: Text, same: bool)
      requires Walked(s, r, q, i) && i < |q| && s != begin && s != end && Stored(ts, q, size, i)
      modifies s
      ensures Walked(s, r, q, i + 1) && (same <==> i + 1 == |q|)
      ensures if text == Overrun then ReadOf(q, size) == Overrun else Stored(text.text, q, size, i + 1)
    {
      var c;
      c, same := NextCell(s, i, r, q);
      StoredMore(ts, q, size, i);
      text := StoreIn(ts, i, c);
    }

    /** The loop of read_to_string(size): it runs to the end of the buffer, not of the string it fills. */
    method ReadCells(ts: seq<char>, ghost size: nat) returns (text: Text)
      requires Valid() && |ts| == Min(|Held()|, size)
      ensures text == ReadOf(Held(), size)
    {
      ghost var r, q := Model(), Held();
      text := Read(ts);
      var i := 0;
      var s, same := FirstCell();
      while !same
        invariant Walked(s, r, q, i) && fresh(s)
        invariant text != Overrun && Stored(text.text, q, size, i) && same == (i == |q|)
        decreases |q| - i
      {
        text, same := ReadCell(s, text.text, i, size, r, q);
        if text == Overrun {
          return;
        }
        i := i + 1;
      }
      StoredAll(text.text, q, size);
    }

    /**
     read_to_string(size): a prefix of the content, unless the content is longer than the string by
     more than one zero byte, which is written outside the string.
     */
    method ReadToStringOf(size: nat) returns (text: Text)
      requires Valid()
      ensures text == Overrun <==> |Held()| > size + 1 || (|Held()| == size + 1 && Held()[size] != '\0')
      ensures text.Read? ==> text.text == Held()[..Min(|Held()|, size)]
    {
      var n := Count();
      text := ReadCells(seq(if n > size then size else n, _ => '\0'), size);
    }

    /** The first `i` of the bytes `q` that the ring `r` held are out of the buffer. */
    ghost predicate Popped(r: Ring, q: seq<char>, i: nat)
      reads this, cache, begin, end, cache.nodes
    {
      Valid() && begin.Taken(r, end.At(), q, i)
    }

    lemma PoppedAll(r: Ring, q: seq<char>, i: nat)
      requires Popped(r, q, i)
      ensures Held() == q[i..]
    {
      TakeAllRemoves(r, sizeIncrease, i);
    }

    /** *begin, *begin = 0 and begin++ of the popping loops, and their test. */
    method PopCell(i: nat, ghost r: Ring, ghost q: seq<char>) returns (c: char, same: bool)
      requires Popped(r, q, i) && i < |q|
      modifies begin, cache.Arrays()
      ensures Popped(r, q, i + 1) && c == q[i] && (same <==> i + 1 == |q|)
    {
      TakenIsEmpty(r, sizeIncrease, i + 1);
      c := begin.TakeNext(r, end.At(), q, i);
      same := begin.Equals(end);
    }

    /** The loop of pop_to_string(). */
    method PopCellsToEnd(ghost r: Ring, ghost q: seq<char>, n: nat) returns (ts: seq<char>)
      requires Popped(r, q, 0) && n == |q|
      modifies begin, cache.Arrays()
      ensures Popped(r, q, n) && ts == q
    {
      ts := seq(n, _ => '\0');
      var i := 0;
      var same := begin.Equals(end);
      SizeIsLength(r, sizeIncrease);
      while !same
        invariant Popped(r, q, i) && |ts| == n && ts[..i] == q[..i] && same == (i == n)
        decreases n - i
      {
        var c;
        c, same := PopCell(i, r, q);
        Extend(ts, q, i, c);
        ts := ts[i := c];
        i := i + 1;
      }
      FullPrefix(ts, q, n);
    }

    /** pop_to_string(): all the bytes, and the buffer left empty. */
    method PopToString() returns (ts: seq<char>)
      requires Valid()
      modifies begin, cache.Arrays()
      ensures Valid()
      ensures Model() == TakeAll(old(Model()), sizeIncrease, |old(Held())|)
      ensures ts == old(Held()) && Held() == []
      ensures Cells(Model(), sizeIncrease) == old(Cells(Model(), sizeIncrease))
    {
      var n := Count();
      ghost var r, q := Model(), Held();
      ts := PopCellsToEnd(r, q, n);
      PoppedAll(r, q, n);
    }

    /** The loop of pop_to_string(size), into a string of `n` bytes. */
    method PopCells(n: nat, ghost r: Ring, ghost q: seq<char>) returns (ts: seq<char>)
      requires Popped(r, q, 0) && n <= |q|
      modifies begin, cache.Arrays()
      ensures Popped(r, q, n) && ts == q[..n]
    {
      ts := seq(n, _ => '\0');
      var i := 0;
      var same := begin.Equals(end);
      SizeIsLength(r, sizeIncrease);
      while !same && i < n
        invariant Popped(r, q, i) && i <= n == |ts| && ts[..i] == q[..i] && same == (i == |q|)
      {
        var c;
        c, same := PopCell(i, r, q);
        Extend(ts, q, i, c);
        ts := ts[i := c];
        i := i + 1;
      }
      FullPrefix(ts, q[..n], n);
    }

    /** pop_to_string(size): the oldest bytes, at most `size` of them. */
    method PopToStringOf(size: nat) returns (ts: seq<char>)
      requires Valid()
      modifies begin, cache.Arrays()
      ensures Valid()
      ensures Model() == RingCells.Pop(old(Model()), sizeIncrease, size)
      ensures ts == old(Held())[..Min(|old(Held())|, size)]
      ensures Held() == old(Held())[Min(|old(Held())|, size)..]
      ensures Cells(Model(), sizeIncrease) == old(Cells(Model(), sizeIncrease))
    {
      var n := Count();
      ghost var r, q := Model(), Held();
      n := if n > size then size else n;
      assert n == Min(|q|, size);
      ts := PopCells(n, r, q);
      PoppedAll(r, q, n);
    }

    /** Both copies re-walk the list from its first node to find each index's node. */
    method AdoptIndices(b: Pos, e: Pos)
      requires begin != end && 0 < sizeIncrease
      requires begin.cachePtr == cache && end.cachePtr == cache
      requires cache.Valid(sizeIncrease)
      requires PosOk(b, |cache.nodes|, sizeIncrease) && PosOk(e, |cache.nodes|, sizeIncrease)
      modifies begin, end
      ensures Valid() && begin.At() == b && end.At() == e
      ensures Model() == Ring(old(Blocks(cache.nodes)), b, e)
    {
      begin.blockIndex, begin.arrayIndex, begin.sizeIncrease := b.block, b.cell, sizeIncrease;
      end.blockIndex, end.arrayIndex, end.sizeIncrease := e.block, e.cell, sizeIncrease;
      begin.iter := WalkTo(b.block);
      end.iter := WalkTo(e.block);
    }

    method WalkTo(k: nat) returns (it: array<char>)
      requires cache.Valid(sizeIncrease) && k < |cache.nodes|
      ensures it == cache.nodes[k]
    {
      it := cache.nodes[0];
      for i := 0 to k
        invariant it == cache.nodes[i]
      {
        cache.FindAt(sizeIncrease, i);
        it := cache.After(it);
      }
    }

    /** PByteArray(const PByteArray &): a deep copy, sharing no block with the original. */
    constructor Copy(other: PByteArray)
      requires other.Valid()
      ensures Valid() && sizeIncrease == other.sizeIncrease
      ensures Model() == old(other.Model())
      ensures fresh({cache, begin, end}) && fresh(cache.Arrays())
    {
      var list := new BlockList(other.sizeIncrease);
      cache := list;
      sizeIncrease := other.sizeIncrease;
      begin := new Index(0, 0, list, list.nodes[0], other.sizeIncrease);
      end := new Index(0, 0, list, list.nodes[0], other.sizeIncrease);
      new;
      ghost var r := other.Model();
      cache.CopyFrom(other.cache, sizeIncrease);
      assert Blocks(cache.nodes) == r.blocks;
      AdoptIndices(other.begin.At(), other.end.At());
    }

    /** operator=: also right when a buffer is assigned to itself. */
    method Assign(other: PByteArray)
      requires Valid() && other.Valid()
      modifies this, cache, begin, end
      ensures Valid() && sizeIncrease == old(other.sizeIncrease)
      ensures Model() == old(other.Model()) && Held() == old(other.Held())
      ensures fresh(cache.Arrays())
    {
      ghost var r := other.Model();
      var b, e := other.begin.At(), other.end.At();
      cache.CopyFrom(other.cache, other.sizeIncrease);
      sizeIncrease := other.sizeIncrease;
      AdoptIndices(b, e);
    }
  }
}
