/**
 The state of a PByteArray as a value: equal-sized blocks in list order and two
 (block, cell) positions.  The bytes held are those met cyclically from `begin`
 to `end`.
 */
module RingCells {
  import opened Arithmetic

  datatype Pos = Pos(block: nat, cell: nat)

  datatype Ring = Ring(blocks: seq<seq<char>>, begin: Pos, end: Pos)

  // ---------------------------------------------------------------- flat view

  function Flat(blocks: seq<seq<char>>): seq<char> {
    if blocks == [] then [] else blocks[0] + Flat(blocks[1..])
  }

  predicate Uniform(blocks: seq<seq<char>>, size: nat) {
    forall i :: 0 <= i < |blocks| ==> |blocks[i]| == size
  }

  lemma {:induction false} FlatLength(blocks: seq<seq<char>>, size: nat)
    requires Uniform(blocks, size)
    ensures |Flat(blocks)| == |blocks| * size
  {
    if blocks == [] {
    } else {
      FlatLength(blocks[1..], size);
      assert |blocks| * size == size + (|blocks| - 1) * size;
    }
  }

  lemma Regroup(a: seq<char>, b: seq<char>, c: seq<char>)
    ensures a + b + c == a + (b + c)
  {
  }

  lemma {:induction false} FlatAppend(xs: seq<seq<char>>, ys: seq<seq<char>>)
    ensures Flat(xs + ys) == Flat(xs) + Flat(ys)
  {
    if xs == [] {
      assert xs + ys == ys;
    } else {
      FlatAppend(xs[1..], ys);
      assert (xs + ys)[0] == xs[0] && (xs + ys)[1..] == xs[1..] + ys;
      Regroup(xs[0], Flat(xs[1..]), Flat(ys));
    }
  }

  lemma FlatSplit(blocks: seq<seq<char>>, size: nat, i: nat)
    requires Uniform(blocks, size) && i <= |blocks|
    ensures Uniform(blocks[..i], size) && Uniform(blocks[i..], size)
    ensures Flat(blocks) == Flat(blocks[..i]) + Flat(blocks[i..])
    ensures |Flat(blocks[..i])| == i * size
    ensures i * size <= |blocks| * size == |Flat(blocks)|
  {
    assert blocks == blocks[..i] + blocks[i..];
    FlatAppend(blocks[..i], blocks[i..]);
    FlatLength(blocks[..i], size);
    FlatLength(blocks, size);
    Product(i, |blocks|, size);
  }

  lemma FlatSingleton(block: seq<char>)
    ensures Flat([block]) == block
  {
  }

  /** Block `i` is the `i`-th stretch of the flat view. */
  lemma FlatBlock(blocks: seq<seq<char>>, size: nat, i: nat)
    requires Uniform(blocks, size) && i < |blocks|
    ensures i * size + size <= |Flat(blocks)| == |blocks| * size
    ensures Flat(blocks) == Flat(blocks[..i]) + blocks[i] + Flat(blocks[i + 1..])
    ensures |Flat(blocks[..i])| == i * size
  {
    FlatSplit(blocks, size, i);
    assert blocks[i..] == [blocks[i]] + blocks[i + 1..];
    FlatAppend([blocks[i]], blocks[i + 1..]);
    FlatSingleton(blocks[i]);
    Product(i + 1, |blocks|, size);
    assert (i + 1) * size == i * size + size;
  }

  lemma FlatAt(blocks: seq<seq<char>>, size: nat, i: nat, j: nat)
    requires Uniform(blocks, size) && i < |blocks| && j < size
    ensures 0 <= i * size + j < |Flat(blocks)|
    ensures Flat(blocks)[i * size + j] == blocks[i][j]
  {
    FlatBlock(blocks, size, i);
  }

  lemma FlatUpdate(blocks: seq<seq<char>>, size: nat, i: nat, j: nat, c: char)
    requires Uniform(blocks, size) && i < |blocks| && j < size
    ensures 0 <= i * size + j < |Flat(blocks)|
    ensures Uniform(blocks[i := blocks[i][j := c]], size)
    ensures Flat(blocks[i := blocks[i][j := c]]) == Flat(blocks)[i * size + j := c]
  {
    var after := blocks[i := blocks[i][j := c]];
    FlatBlock(blocks, size, i);
    FlatBlock(after, size, i);
    assert after[..i] == blocks[..i] && after[i + 1..] == blocks[i + 1..];
  }

  lemma FlatInsert(blocks: seq<seq<char>>, size: nat, i: nat, block: seq<char>)
    requires Uniform(blocks, size) && i <= |blocks| && |block| == size
    ensures Uniform(blocks[..i] + [block] + blocks[i..], size)
    ensures Flat(blocks[..i] + [block] + blocks[i..]) == Flat(blocks[..i]) + block + Flat(blocks[i..])
  {
    FlatAppend(blocks[..i], [block]);
    FlatAppend(blocks[..i] + [block], blocks[i..]);
    FlatSingleton(block);
  }

  // ---------------------------------------------------------------- live bytes

  /** The bytes met from `b` up to but excluding `e`, wrapping at the end of the cells. */
  function Live(cells: seq<char>, b: nat, e: nat): seq<char>
    requires b < |cells| && e < |cells|
  {
    if b <= e then cells[b..e] else cells[b..] + cells[..e]
  }

  /** `Live` is the cyclic walk: its length is size() and its i-th byte is i cells after `b`. */
  lemma LiveIsCyclic(cells: seq<char>, b: nat, e: nat)
    requires b < |cells| && e < |cells|
    ensures |Live(cells, b, e)| == (e - b + |cells|) % |cells|
    ensures forall i :: 0 <= i < |Live(cells, b, e)| ==> Live(cells, b, e)[i] == cells[(b + i) % |cells|]
    ensures Live(cells, b, e) == [] <==> b == e
    ensures (b + |Live(cells, b, e)|) % |cells| == e
  {
    var n := |cells|;
    if b <= e {
      QuotientRemainder(e - b + n, n, 1, e - b);
    } else {
      QuotientRemainder(e - b + n, n, 0, e - b + n);
    }
    forall i | 0 <= i < |Live(cells, b, e)|
      ensures Live(cells, b, e)[i] == cells[(b + i) % n]
    {
      if b + i < n {
        QuotientRemainder(b + i, n, 0, b + i);
      } else {
        QuotientRemainder(b + i, n, 1, b + i - n);
      }
    }
    if b <= e {
      QuotientRemainder(e, n, 0, e);
    } else {
      QuotientRemainder(e + n, n, 1, e);
    }
  }

  function Next(p: nat, n: nat): nat
    requires p < n
  {
    if p + 1 == n then 0 else p + 1
  }

  lemma LiveWrite(cells: seq<char>, b: nat, e: nat, c: char)
    requires b < |cells| && e < |cells|
    requires |Live(cells, b, e)| + 1 < |cells|
    ensures Live(cells[e := c], b, Next(e, |cells|)) == Live(cells, b, e) + [c]
  {
  }

  lemma LiveTake(cells: seq<char>, b: nat, e: nat, c: char)
    requires b < |cells| && e < |cells| && b != e
    ensures Live(cells, b, e) != [] && Live(cells, b, e)[0] == cells[b]
    ensures Live(cells[b := c], Next(b, |cells|), e) == Live(cells, b, e)[1..]
  {
  }

  // ---------------------------------------------------------------- rings

  predicate PosOk(p: Pos, blocks: nat, size: nat) {
    p.block < blocks && p.cell < size
  }

  predicate Ok(r: Ring, size: nat) {
    && 0 < size
    && Uniform(r.blocks, size)
    && PosOk(r.begin, |r.blocks|, size)
    && PosOk(r.end, |r.blocks|, size)
  }

  function Offset(p: Pos, size: nat): nat {
    p.block * size + p.cell
  }

  /** The number of cells; `capacity()` is one less. */
  function Cells(r: Ring, size: nat): nat {
    |r.blocks| * size
  }

  lemma OkOffsets(r: Ring, size: nat)
    requires Ok(r, size)
    ensures |Flat(r.blocks)| == Cells(r, size)
    ensures Offset(r.begin, size) < Cells(r, size) && Offset(r.end, size) < Cells(r, size)
  {
    FlatLength(r.blocks, size);
    InsideTable(r.begin.block, r.begin.cell, |r.blocks|, size);
    InsideTable(r.end.block, r.end.cell, |r.blocks|, size);
  }

  /** The abstract FIFO content. */
  ghost function Contents(r: Ring, size: nat): seq<char>
    requires Ok(r, size)
  {
    OkOffsets(r, size);
    Live(Flat(r.blocks), Offset(r.begin, size), Offset(r.end, size))
  }

  /** What size() computes from the two positions. */
  function Size(r: Ring, size: nat): nat
    requires Ok(r, size)
  {
    OkOffsets(r, size);
    (Offset(r.end, size) - Offset(r.begin, size) + Cells(r, size)) % Cells(r, size)
  }

  lemma SizeIsLength(r: Ring, size: nat)
    requires Ok(r, size)
    ensures Size(r, size) == |Contents(r, size)| < Cells(r, size)
    ensures Contents(r, size) == [] <==> r.begin == r.end
  {
    OkOffsets(r, size);
    LiveIsCyclic(Flat(r.blocks), Offset(r.begin, size), Offset(r.end, size));
    if Offset(r.begin, size) == Offset(r.end, size) {
      SamePosition(r.begin.block, r.begin.cell, r.end.block, r.end.cell, size);
    }
  }

  /** The content read cell by cell: byte i is i cyclic steps after begin. */
  lemma ContentsAreCyclic(r: Ring, size: nat, i: nat)
    requires Ok(r, size) && i < Size(r, size)
    ensures |Contents(r, size)| == Size(r, size)
    ensures PosOk(Plus(r.begin, i, |r.blocks|, size), |r.blocks|, size)
    ensures var p := Plus(r.begin, i, |r.blocks|, size);
            Contents(r, size)[i] == r.blocks[p.block][p.cell]
  {
    SizeIsLength(r, size);
    OkOffsets(r, size);
    LiveIsCyclic(Flat(r.blocks), Offset(r.begin, size), Offset(r.end, size));
    PlusIsCyclic(r.begin, i, |r.blocks|, size);
    var p := Plus(r.begin, i, |r.blocks|, size);
    FlatAt(r.blocks, size, p.block, p.cell);
  }

  // ---------------------------------------------------------------- moving an index

  /** Index::operator+ on the two coordinates. */
  function Plus(p: Pos, v: nat, blocks: nat, size: nat): Pos
    requires 0 < blocks && 0 < size
  {
    var flat := v + p.block * size + p.cell;
    Pos((flat / size) % blocks, flat % size)
  }

  lemma PlusIsCyclic(p: Pos, v: nat, blocks: nat, size: nat)
    requires PosOk(p, blocks, size)
    ensures PosOk(Plus(p, v, blocks, size), blocks, size)
    ensures 0 < blocks * size
    ensures Offset(Plus(p, v, blocks, size), size) == (Offset(p, size) + v) % (blocks * size)
  {
    SplitPosition(v + p.block * size + p.cell, blocks, size);
  }

  function Steps(p: Pos, v: nat, blocks: nat, size: nat): Pos
    requires 0 < blocks && 0 < size
  {
    if v == 0 then p else Plus(Steps(p, v - 1, blocks, size), 1, blocks, size)
  }

  lemma StepModulo(x: nat, m: nat)
    requires 0 < m
    ensures (x % m + 1) % m == (x + 1) % m
  {
    var q, r := x / m, x % m;
    assert x == q * m + r;
    if r + 1 == m {
      assert x + 1 == (q + 1) * m;
      QuotientRemainder(x + 1, m, q + 1, 0);
      QuotientRemainder(r + 1, m, 1, 0);
    } else {
      QuotientRemainder(x + 1, m, q, r + 1);
      QuotientRemainder(r + 1, m, 0, r + 1);
    }
  }

  /** `index + v` is `v` applications of `index++`. */
  lemma {:induction false} PlusIsSteps(p: Pos, v: nat, blocks: nat, size: nat)
    requires PosOk(p, blocks, size)
    ensures Plus(p, v, blocks, size) == Steps(p, v, blocks, size)
  {
    PlusIsCyclic(p, v, blocks, size);
    InsideTable(p.block, p.cell, blocks, size);
    if v == 0 {
      QuotientRemainder(Offset(p, size), blocks * size, 0, Offset(p, size));
      var z := Plus(p, 0, blocks, size);
      SamePosition(z.block, z.cell, p.block, p.cell, size);
    } else {
      PlusIsSteps(p, v - 1, blocks, size);
      PlusIsCyclic(p, v - 1, blocks, size);
      var w := Plus(p, v - 1, blocks, size);
      PlusIsCyclic(w, 1, blocks, size);
      StepModulo(Offset(p, size) + v - 1, blocks * size);
      var x, y := Plus(w, 1, blocks, size), Plus(p, v, blocks, size);
      SamePosition(x.block, x.cell, y.block, y.cell, size);
    }
  }

  lemma PlusOneIsNext(p: Pos, blocks: nat, size: nat)
    requires PosOk(p, blocks, size)
    ensures PosOk(Plus(p, 1, blocks, size), blocks, size)
    ensures Offset(p, size) < blocks * size
    ensures Offset(Plus(p, 1, blocks, size), size) == Next(Offset(p, size), blocks * size)
  {
    PlusIsCyclic(p, 1, blocks, size);
    InsideTable(p.block, p.cell, blocks, size);
    var x, m := Offset(p, size), blocks * size;
    if x + 1 == m {
      QuotientRemainder(x + 1, m, 1, 0);
    } else {
      QuotientRemainder(x + 1, m, 0, x + 1);
    }
  }

  // ---------------------------------------------------------------- one growth step

  function Zeros(size: nat): seq<char> {
    seq(size, _ => '\0')
  }

  /** One iteration of the growth loop: which block is inserted where, and which indices move. */
  function Grow(r: Ring, size: nat): Ring
    requires Ok(r, size)
  {
    var b := r.begin.block;
    if b > r.end.block then
      Ring(r.blocks[..b] + [Zeros(size)] + r.blocks[b..], Pos(b + 1, r.begin.cell), r.end)
    else if b == r.end.block && r.begin.cell > r.end.cell then
      Ring(r.blocks[..b + 1] + [r.blocks[b]] + r.blocks[b + 1..], Pos(b + 1, r.begin.cell), r.end)
    else
      Ring(r.blocks[..b] + [Zeros(size)] + r.blocks[b..],
           Pos(b + 1, r.begin.cell), Pos(r.end.block + 1, r.end.cell))
  }

  /** A fresh block between the tail and the head of a ring that wraps across blocks. */
  lemma GapKeepsLive(front: seq<char>, block: seq<char>, back: seq<char>, b: nat, e: nat)
    requires e < |front| <= b < |front| + |back|
    ensures Live(front + block + back, b + |block|, e) == Live(front + back, b, e)
  {
    var before, after := front + back, front + block + back;
    assert after[b + |block|..] == back[b - |front|..] == before[b..];
    assert after[..e] == front[..e] == before[..e];
  }

  /** A fresh block before the head of a ring that does not wrap. */
  lemma ShiftKeepsLive(front: seq<char>, block: seq<char>, back: seq<char>, b: nat, e: nat)
    requires |front| <= b <= e < |front| + |back|
    ensures Live(front + block + back, b + |block|, e + |block|) == Live(front + back, b, e)
  {
  }

  /** The duplicated block: the tail stays in the first copy, the head moves to the second. */
  lemma DuplicateKeepsLive(front: seq<char>, block: seq<char>, back: seq<char>, b: nat, e: nat)
    requires |front| <= e < b < |front| + |block|
    ensures Live(front + block + block + back, b + |block|, e) == Live(front + block + back, b, e)
  {
    var before, after := front + block + back, front + block + block + back;
    assert after[b + |block|..] == block[b - |front|..] + back == before[b..];
    assert after[..e] == front + block[..e - |front|] == before[..e];
  }

  /** A growth step as an insertion into the flat view. */
  lemma GrowFlat(r: Ring, size: nat)
    requires Ok(r, size)
    ensures Ok(Grow(r, size), size)
    ensures Cells(Grow(r, size), size) == Cells(r, size) + size
    ensures var b := r.begin.block;
            var g := Flat(Grow(r, size).blocks);
            if b == r.end.block && r.begin.cell > r.end.cell then
              g == Flat(r.blocks[..b]) + r.blocks[b] + r.blocks[b] + Flat(r.blocks[b + 1..])
            else
              g == Flat(r.blocks[..b]) + Zeros(size) + Flat(r.blocks[b..])
  {
    var b := r.begin.block;
    assert (|r.blocks| + 1) * size == |r.blocks| * size + size;
    if b == r.end.block && r.begin.cell > r.end.cell {
      FlatInsert(r.blocks, size, b + 1, r.blocks[b]);
      assert r.blocks[..b + 1] == r.blocks[..b] + [r.blocks[b]];
      FlatAppend(r.blocks[..b], [r.blocks[b]]);
      FlatSingleton(r.blocks[b]);
    } else {
      FlatInsert(r.blocks, size, b, Zeros(size));
    }
  }

  lemma NextBlockOffset(p: Pos, size: nat)
    ensures Offset(Pos(p.block + 1, p.cell), size) == Offset(p, size) + size
  {
  }

  lemma ContentsOf(r: Ring, size: nat, cells: seq<char>, b: nat, e: nat)
    requires Ok(r, size)
    requires cells == Flat(r.blocks) && b == Offset(r.begin, size) && e == Offset(r.end, size)
    ensures b < |cells| && e < |cells|
    ensures Contents(r, size) == Live(cells, b, e)
  {
    OkOffsets(r, size);
  }

  lemma GrowAcrossBlocks(r: Ring, size: nat)
    requires Ok(r, size) && r.begin.block > r.end.block
    requires Ok(Grow(r, size), size)
    ensures Contents(Grow(r, size), size) == Contents(r, size)
  {
    var b, x, y := r.begin.block, Offset(r.begin, size), Offset(r.end, size);
    var front, back := Flat(r.blocks[..b]), Flat(r.blocks[b..]);
    assert Flat(r.blocks) == front + back && |front| == b * size by { FlatSplit(r.blocks, size, b); }
    assert y < b * size <= x by {
      NextBlockOffset(r.end, size);
      Product(r.end.block + 1, b, size);
    }
    ContentsOf(r, size, front + back, x, y);
    assert Flat(Grow(r, size).blocks) == front + Zeros(size) + back by { GrowFlat(r, size); }
    NextBlockOffset(r.begin, size);
    ContentsOf(Grow(r, size), size, front + Zeros(size) + back, x + size, y);
    GapKeepsLive(front, Zeros(size), back, x, y);
  }

  lemma {:induction false} GrowInsideBlock(r: Ring, size: nat)
    requires Ok(r, size) && r.begin.block == r.end.block && r.begin.cell > r.end.cell
    requires Ok(Grow(r, size), size)
    ensures Contents(Grow(r, size), size) == Contents(r, size)
  {
    var b, x, y := r.begin.block, Offset(r.begin, size), Offset(r.end, size);
    var front, block, back := Flat(r.blocks[..b]), r.blocks[b], Flat(r.blocks[b + 1..]);
    assert Flat(r.blocks) == front + block + back && |front| == b * size by { FlatBlock(r.blocks, size, b); }
    assert |front| <= y < x < |front| + |block|;
    ContentsOf(r, size, front + block + back, x, y);
    assert Flat(Grow(r, size).blocks) == front + block + block + back by { GrowFlat(r, size); }
    NextBlockOffset(r.begin, size);
    ContentsOf(Grow(r, size), size, front + block + block + back, x + size, y);
    DuplicateKeepsLive(front, block, back, x, y);
  }

  lemma UnwrappedOffsets(b: Pos, e: Pos, size: nat)
    requires b.cell < size && (b.block < e.block || (b.block == e.block && b.cell <= e.cell))
    ensures b.block * size <= Offset(b, size) <= Offset(e, size)
  {
    if b.block < e.block {
      NextBlockOffset(Pos(b.block, 0), size);
      Product(b.block + 1, e.block, size);
    }
  }

  /** In a ring that does not wrap, both offsets move by the inserted block. */
  lemma ShiftedContents(r: Ring, size: nat, front: seq<char>, back: seq<char>, x: nat, y: nat)
    requires Ok(r, size) && Ok(Grow(r, size), size) && Flat(r.blocks) == front + back
    requires x == Offset(r.begin, size) && y == Offset(r.end, size) && |front| <= x <= y
    requires Flat(Grow(r, size).blocks) == front + Zeros(size) + back
    requires Offset(Grow(r, size).begin, size) == x + size && Offset(Grow(r, size).end, size) == y + size
    ensures Contents(Grow(r, size), size) == Contents(r, size)
  {
    ContentsOf(r, size, front + back, x, y);
    ContentsOf(Grow(r, size), size, front + Zeros(size) + back, x + size, y + size);
    ShiftKeepsLive(front, Zeros(size), back, x, y);
  }

  lemma GrowUnwrapped(r: Ring, size: nat)
    requires Ok(r, size)
    requires r.begin.block < r.end.block || (r.begin.block == r.end.block && r.begin.cell <= r.end.cell)
    requires Ok(Grow(r, size), size)
    ensures Contents(Grow(r, size), size) == Contents(r, size)
  {
    var b, x, y := r.begin.block, Offset(r.begin, size), Offset(r.end, size);
    var front, back := Flat(r.blocks[..b]), Flat(r.blocks[b..]);
    assert Flat(r.blocks) == front + back && |front| == b * size by { FlatSplit(r.blocks, size, b); }
    assert b * size <= x <= y by { UnwrappedOffsets(r.begin, r.end, size); }
    assert Flat(Grow(r, size).blocks) == front + Zeros(size) + back by { GrowFlat(r, size); }
    NextBlockOffset(r.begin, size);
    NextBlockOffset(r.end, size);
    ShiftedContents(r, size, front, back, x, y);
  }

  /** In every placement a growth step keeps the content and adds exactly `size` free cells. */
  lemma {:induction false} GrowKeepsContents(r: Ring, size: nat)
    requires Ok(r, size)
    ensures Ok(Grow(r, size), size)
    ensures Contents(Grow(r, size), size) == Contents(r, size)
    ensures Cells(Grow(r, size), size) == Cells(r, size) + size
  {
    GrowFlat(r, size);
    if r.begin.block > r.end.block {
      GrowAcrossBlocks(r, size);
    } else if r.begin.block == r.end.block && r.begin.cell > r.end.cell {
      GrowInsideBlock(r, size);
    } else {
      GrowUnwrapped(r, size);
    }
  }

  function GrowTimes(r: Ring, size: nat, times: nat): Ring
    requires Ok(r, size)
    ensures Ok(GrowTimes(r, size, times), size)
  {
    if times == 0 then r else
    var g := GrowTimes(r, size, times - 1);
    GrowKeepsContents(g, size);
    Grow(g, size)
  }

  lemma {:induction false} GrowTimesKeepsContents(r: Ring, size: nat, times: nat)
    requires Ok(r, size)
    ensures Contents(GrowTimes(r, size, times), size) == Contents(r, size)
    ensures Cells(GrowTimes(r, size, times), size) == Cells(r, size) + times * size
  {
    if times == 0 {
    } else {
      GrowTimesKeepsContents(r, size, times - 1);
      GrowKeepsContents(GrowTimes(r, size, times - 1), size);
      assert times * size == (times - 1) * size + size;
    }
  }

  // ---------------------------------------------------------------- one byte in, one byte out

  /** One iteration of push_unsafe on the end index. */
  function Write(r: Ring, size: nat, c: char): Ring
    requires Ok(r, size)
  {
    var i := r.end.block;
    Ring(r.blocks[i := r.blocks[i][r.end.cell := c]], r.begin, Plus(r.end, 1, |r.blocks|, size))
  }

  lemma WriteAppends(r: Ring, size: nat, c: char)
    requires Ok(r, size)
    ensures Ok(Write(r, size, c), size)
    ensures |Contents(r, size)| + 1 < Cells(r, size) ==>
              Contents(Write(r, size, c), size) == Contents(r, size) + [c]
  {
    OkOffsets(r, size);
    FlatUpdate(r.blocks, size, r.end.block, r.end.cell, c);
    PlusOneIsNext(r.end, |r.blocks|, size);
    if |Contents(r, size)| + 1 < Cells(r, size) {
      LiveWrite(Flat(r.blocks), Offset(r.begin, size), Offset(r.end, size), c);
    }
  }

  function WriteAll(r: Ring, size: nat, data: seq<char>): Ring
    requires Ok(r, size)
    ensures Ok(WriteAll(r, size, data), size)
  {
    if data == [] then r else
    var w := WriteAll(r, size, data[..|data| - 1]);
    WriteAppends(w, size, data[|data| - 1]);
    Write(w, size, data[|data| - 1])
  }

  lemma {:induction false} WriteAllAppends(r: Ring, size: nat, data: seq<char>)
    requires Ok(r, size)
    requires |Contents(r, size)| + |data| < Cells(r, size)
    ensures Contents(WriteAll(r, size, data), size) == Contents(r, size) + data
    ensures Cells(WriteAll(r, size, data), size) == Cells(r, size)
  {
    if data == [] {
    } else {
      var n := |data| - 1;
      WriteAllAppends(r, size, data[..n]);
      WriteAppends(WriteAll(r, size, data[..n]), size, data[n]);
      assert data == data[..n] + [data[n]];
    }
  }

  /** One iteration of pop_unsafe on the begin index: the cell is zeroed and skipped. */
  function Take(r: Ring, size: nat): Ring
    requires Ok(r, size)
  {
    var i := r.begin.block;
    Ring(r.blocks[i := r.blocks[i][r.begin.cell := '\0']], Plus(r.begin, 1, |r.blocks|, size), r.end)
  }

  lemma TakeRemoves(r: Ring, size: nat)
    requires Ok(r, size)
    ensures Ok(Take(r, size), size)
    ensures r.begin != r.end ==>
              && Contents(r, size) != []
              && Contents(r, size)[0] == r.blocks[r.begin.block][r.begin.cell]
              && Contents(Take(r, size), size) == Contents(r, size)[1..]
  {
    OkOffsets(r, size);
    SizeIsLength(r, size);
    FlatAt(r.blocks, size, r.begin.block, r.begin.cell);
    FlatUpdate(r.blocks, size, r.begin.block, r.begin.cell, '\0');
    PlusOneIsNext(r.begin, |r.blocks|, size);
    if r.begin != r.end {
      LiveTake(Flat(r.blocks), Offset(r.begin, size), Offset(r.end, size), '\0');
    }
  }

  function TakeAll(r: Ring, size: nat, n: nat): Ring
    requires Ok(r, size)
    ensures Ok(TakeAll(r, size, n), size)
  {
    if n == 0 then r else
    var t := TakeAll(r, size, n - 1);
    TakeRemoves(t, size);
    Take(t, size)
  }

  lemma {:induction false} TakeAllRemoves(r: Ring, size: nat, n: nat)
    requires Ok(r, size)
    requires n <= |Contents(r, size)|
    ensures Contents(TakeAll(r, size, n), size) == Contents(r, size)[n..]
    ensures Cells(TakeAll(r, size, n), size) == Cells(r, size)
    ensures n < |Contents(r, size)| ==>
              var t := TakeAll(r, size, n);
              t.begin != t.end && t.blocks[t.begin.block][t.begin.cell] == Contents(r, size)[n]
  {
    if n == 0 {
      SizeIsLength(r, size);
      TakeRemoves(r, size);
    } else {
      TakeAllRemoves(r, size, n - 1);
      var t := TakeAll(r, size, n - 1);
      TakeRemoves(t, size);
      var u := TakeAll(r, size, n);
      SizeIsLength(u, size);
      TakeRemoves(u, size);
    }
  }

  /** The cell the begin index stands on after `i` takes holds byte `i` of the content. */
  lemma NextTaken(r: Ring, size: nat, i: nat)
    requires Ok(r, size) && i < |Contents(r, size)|
    ensures var t := TakeAll(r, size, i);
            TakeAll(r, size, i + 1) == Take(t, size) && Contents(r, size)[i] == t.blocks[t.begin.block][t.begin.cell]
  {
    TakeAllRemoves(r, size, i);
  }

  /** `begin` meets `end` after size() takes and not before. */
  lemma {:induction false} TakenIsEmpty(r: Ring, size: nat, i: nat)
    requires Ok(r, size) && i <= |Contents(r, size)|
    ensures var t := TakeAll(r, size, i); t.begin == t.end <==> i == |Contents(r, size)|
  {
    TakeAllRemoves(r, size, i);
    SizeIsLength(TakeAll(r, size, i), size);
  }

  // ---------------------------------------------------------------- whole operations

  /** The number of blocks push() inserts. */
  function PushGrowth(used: nat, n: nat, cells: nat, size: nat): nat
    requires 0 < size && 0 < cells
  {
    var capacity := cells - 1;
    if capacity > used + n then 0 else (used + n - capacity) / size + 1
  }

  /** The number of blocks push_from_string() inserts. */
  function StringGrowth(used: nat, n: nat, cells: nat, size: nat): nat
    requires 0 < size && 0 < cells
  {
    if cells - 1 > used + n then 0 else n / size + 2
  }

  /**
   With `before` cells and `need` bytes to hold in the end, `after` cells are the same number if
   that leaves room to spare, and otherwise the fewest whole blocks more that do.
   */
  predicate LeastRoom(before: nat, after: nat, need: nat, size: nat)
    requires 0 < size
  {
    if before - 1 > need then after == before
    else after > before && (after - before) % size == 0 && after - size - 1 <= need < after - 1
  }

  /** The rounding of push_from_string(): two blocks more than the string fills. */
  predicate TwoBlocksMore(before: nat, after: nat, need: nat, n: nat, size: nat)
    requires 0 < size
  {
    after == if before - 1 > need then before else before + n - n % size + 2 * size
  }

  lemma PushGrowthIsLeast(used: nat, n: nat, cells: nat, size: nat)
    requires 0 < size && used < cells
    ensures LeastRoom(cells, cells + PushGrowth(used, n, cells, size) * size, used + n, size)
  {
    if cells - 1 <= used + n {
      var x, t := used + n - (cells - 1), PushGrowth(used, n, cells, size);
      assert t * size == x / size * size + size;
      QuotientRemainder(t * size, size, t, 0);
    }
  }

  lemma StringGrowthIsExact(used: nat, n: nat, cells: nat, size: nat)
    requires 0 < size && used < cells
    ensures var after := cells + StringGrowth(used, n, cells, size) * size;
            TwoBlocksMore(cells, after, used + n, n, size) && after - 1 > used + n
  {
  }

  /** The growth phase of push() for `n` bytes. */
  function ReservedForPush(r: Ring, size: nat, n: nat): Ring
    requires Ok(r, size)
    ensures Ok(ReservedForPush(r, size, n), size)
  {
    OkOffsets(r, size);
    GrowTimes(r, size, PushGrowth(Size(r, size), n, Cells(r, size), size))
  }

  /** push() grows by the fewest blocks that leave room to spare, and not at all when there is room. */
  lemma ReservedIsLeast(r: Ring, size: nat, n: nat)
    requires Ok(r, size)
    ensures Contents(ReservedForPush(r, size, n), size) == Contents(r, size)
    ensures LeastRoom(Cells(r, size), Cells(ReservedForPush(r, size, n), size), |Contents(r, size)| + n, size)
  {
    SizeIsLength(r, size);
    PushGrowthIsLeast(Size(r, size), n, Cells(r, size), size);
    GrowTimesKeepsContents(r, size, PushGrowth(Size(r, size), n, Cells(r, size), size));
  }

  function Push(r: Ring, size: nat, data: seq<char>): Ring
    requires Ok(r, size)
    ensures Ok(Push(r, size, data), size)
  {
    WriteAll(ReservedForPush(r, size, |data|), size, data)
  }

  /** The growth phase of push_from_string() for `n` bytes. */
  function ReservedForString(r: Ring, size: nat, n: nat): Ring
    requires Ok(r, size)
    ensures Ok(ReservedForString(r, size, n), size)
  {
    OkOffsets(r, size);
    GrowTimes(r, size, StringGrowth(Size(r, size), n, Cells(r, size), size))
  }

  /** push_from_string() grows by two blocks more than the string fills, and not at all when there is room. */
  lemma ReservedForStringExact(r: Ring, size: nat, n: nat)
    requires Ok(r, size)
    ensures Contents(ReservedForString(r, size, n), size) == Contents(r, size)
    ensures var after := Cells(ReservedForString(r, size, n), size);
            && TwoBlocksMore(Cells(r, size), after, |Contents(r, size)| + n, n, size)
            && after - 1 > |Contents(r, size)| + n
  {
    SizeIsLength(r, size);
    StringGrowthIsExact(Size(r, size), n, Cells(r, size), size);
    GrowTimesKeepsContents(r, size, StringGrowth(Size(r, size), n, Cells(r, size), size));
  }

  function PushFromString(r: Ring, size: nat, data: seq<char>): Ring
    requires Ok(r, size)
    ensures Ok(PushFromString(r, size, data), size)
  {
    WriteAll(ReservedForString(r, size, |data|), size, data)
  }

  lemma PushAppends(r: Ring, size: nat, data: seq<char>)
    requires Ok(r, size)
    ensures Contents(Push(r, size, data), size) == Contents(r, size) + data
    ensures LeastRoom(Cells(r, size), Cells(Push(r, size, data), size), |Contents(r, size)| + |data|, size)
  {
    ReservedIsLeast(r, size, |data|);
    WriteAllAppends(ReservedForPush(r, size, |data|), size, data);
  }

  lemma PushFromStringAppends(r: Ring, size: nat, data: seq<char>)
    requires Ok(r, size)
    ensures var after := PushFromString(r, size, data);
            && Contents(after, size) == Contents(r, size) + data
            && TwoBlocksMore(Cells(r, size), Cells(after, size), |Contents(r, size)| + |data|, |data|, size)
  {
    ReservedForStringExact(r, size, |data|);
    WriteAllAppends(ReservedForString(r, size, |data|), size, data);
  }

  function Pop(r: Ring, size: nat, n: nat): Ring
    requires Ok(r, size)
    ensures Ok(Pop(r, size, n), size)
  {
    TakeAll(r, size, Min(Size(r, size), n))
  }

  lemma PopRemoves(r: Ring, size: nat, n: nat)
    requires Ok(r, size)
    ensures Size(r, size) == |Contents(r, size)|
    ensures Contents(Pop(r, size, n), size) == Contents(r, size)[Min(Size(r, size), n)..]
    ensures Cells(Pop(r, size, n), size) == Cells(r, size)
  {
    SizeIsLength(r, size);
    TakeAllRemoves(r, size, Min(Size(r, size), n));
  }

  /** The bytes an index meets on `n` steps from `begin`, as the reading loops collect them. */
  function Walk(r: Ring, size: nat, n: nat): seq<char>
    requires Ok(r, size)
  {
    if n == 0 then [] else
    var p := Steps(r.begin, n - 1, |r.blocks|, size);
    StepsOk(r.begin, n - 1, |r.blocks|, size);
    Walk(r, size, n - 1) + [r.blocks[p.block][p.cell]]
  }

  lemma StepsOk(p: Pos, v: nat, blocks: nat, size: nat)
    requires PosOk(p, blocks, size)
    ensures PosOk(Steps(p, v, blocks, size), blocks, size)
  {
  }

  lemma {:induction false} WalkIsPrefix(r: Ring, size: nat, n: nat)
    requires Ok(r, size) && n <= Size(r, size)
    ensures |Contents(r, size)| == Size(r, size)
    ensures Walk(r, size, n) == Contents(r, size)[..n]
  {
    SizeIsLength(r, size);
    if n == 0 {
    } else {
      WalkIsPrefix(r, size, n - 1);
      ContentsAreCyclic(r, size, n - 1);
      PlusIsSteps(r.begin, n - 1, |r.blocks|, size);
      assert Contents(r, size)[..n] == Contents(r, size)[..n - 1] + [Contents(r, size)[n - 1]];
    }
  }

  lemma CyclicDistance(b: nat, e: nat, m: nat, n: nat)
    requires b < m && e < m && n <= (e - b + m) % m
    ensures (b + n) % m == e <==> n == (e - b + m) % m
  {
    if b + n < m {
      QuotientRemainder(b + n, m, 0, b + n);
    } else {
      QuotientRemainder(b + n, m, 1, b + n - m);
    }
    if b <= e {
      QuotientRemainder(e - b + m, m, 1, e - b);
    } else {
      QuotientRemainder(e - b + m, m, 0, e - b + m);
    }
  }

  /** The walk from `begin` reaches `end` after size() steps and not before. */
  lemma WalkReachesEnd(r: Ring, size: nat, n: nat)
    requires Ok(r, size) && n <= Size(r, size)
    ensures Steps(r.begin, n, |r.blocks|, size) == r.end <==> n == Size(r, size)
  {
    OkOffsets(r, size);
    PlusIsSteps(r.begin, n, |r.blocks|, size);
    PlusIsCyclic(r.begin, n, |r.blocks|, size);
    var p := Steps(r.begin, n, |r.blocks|, size);
    CyclicDistance(Offset(r.begin, size), Offset(r.end, size), Cells(r, size), n);
    if Offset(p, size) == Offset(r.end, size) {
      SamePosition(p.block, p.cell, r.end.block, r.end.cell, size);
    }
  }

  /** The cell that the read walk stands on after `i` steps holds byte `i`, and the next is the end after the last. */
  lemma WalkCell(r: Ring, size: nat, i: nat)
    requires Ok(r, size) && i < Size(r, size)
    ensures |Contents(r, size)| == Size(r, size)
    ensures var p := Steps(r.begin, i, |r.blocks|, size);
            PosOk(p, |r.blocks|, size) && r.blocks[p.block][p.cell] == Contents(r, size)[i]
    ensures Steps(r.begin, i + 1, |r.blocks|, size) == r.end <==> i + 1 == |Contents(r, size)|
  {
    ContentsAreCyclic(r, size, i);
    PlusIsSteps(r.begin, i, |r.blocks|, size);
    WalkReachesEnd(r, size, i + 1);
  }

  // ---------------------------------------------------------------- whole runs

  datatype Op =
    | PushOp(data: seq<char>)
    | PushStringOp(data: seq<char>)
    | PopOp(n: nat)
    | PopStringOp
    | PopStringOfOp(n: nat)
    | ReadStringOp

  /** What one call does to the ring, and the bytes it hands back. */
  function Apply(r: Ring, size: nat, op: Op): (Ring, seq<char>)
    requires Ok(r, size)
    ensures Ok(Apply(r, size, op).0, size)
  {
    match op
    case PushOp(data) => (Push(r, size, data), [])
    case PushStringOp(data) => (PushFromString(r, size, data), [])
    case PopOp(n) => (Pop(r, size, n), Walk(r, size, Min(Size(r, size), n)))
    case PopStringOp => (TakeAll(r, size, Size(r, size)), Walk(r, size, Size(r, size)))
    case PopStringOfOp(n) => (Pop(r, size, n), Walk(r, size, Min(Size(r, size), n)))
    case ReadStringOp => (r, Walk(r, size, Size(r, size)))
  }

  /** The same call on a plain byte queue. */
  function ApplyFifo(q: seq<char>, op: Op): (seq<char>, seq<char>) {
    match op
    case PushOp(data) => (q + data, [])
    case PushStringOp(data) => (q + data, [])
    case PopOp(n) => (q[Min(|q|, n)..], q[..Min(|q|, n)])
    case PopStringOp => ([], q)
    case PopStringOfOp(n) => (q[Min(|q|, n)..], q[..Min(|q|, n)])
    case ReadStringOp => (q, q)
  }

  lemma TakeStep(r: Ring, size: nat, n: nat)
    requires Ok(r, size)
    ensures var q := Contents(r, size);
            var k := Min(|q|, n);
            && Size(r, size) == |q|
            && Contents(TakeAll(r, size, k), size) == q[k..]
            && Walk(r, size, k) == q[..k]
  {
    SizeIsLength(r, size);
    TakeAllRemoves(r, size, Min(Size(r, size), n));
    WalkIsPrefix(r, size, Min(Size(r, size), n));
  }

  lemma ApplyRefinesFifo(r: Ring, size: nat, op: Op)
    requires Ok(r, size)
    ensures Contents(Apply(r, size, op).0, size) == ApplyFifo(Contents(r, size), op).0
    ensures Apply(r, size, op).1 == ApplyFifo(Contents(r, size), op).1
  {
    match op
    case PushOp(data) => PushAppends(r, size, data);
    case PushStringOp(data) => PushFromStringAppends(r, size, data);
    case PopOp(n) => TakeStep(r, size, n);
    case PopStringOp => TakeStep(r, size, Size(r, size));
    case PopStringOfOp(n) => TakeStep(r, size, n);
    case ReadStringOp => TakeStep(r, size, Size(r, size));
  }

  function Run(r: Ring, size: nat, ops: seq<Op>): (Ring, seq<seq<char>>)
    requires Ok(r, size)
    ensures Ok(Run(r, size, ops).0, size)
    decreases |ops|
  {
    if ops == [] then (r, []) else
    var (next, out) := Apply(r, size, ops[0]);
    var (last, outs) := Run(next, size, ops[1..]);
    (last, [out] + outs)
  }

  function RunFifo(q: seq<char>, ops: seq<Op>): (seq<char>, seq<seq<char>>)
    decreases |ops|
  {
    if ops == [] then (q, []) else
    var (next, out) := ApplyFifo(q, ops[0]);
    var (last, outs) := RunFifo(next, ops[1..]);
    (last, [out] + outs)
  }

  /** The ring a constructor with block size `size` makes. */
  function Empty(size: nat): Ring {
    Ring([Zeros(size)], Pos(0, 0), Pos(0, 0))
  }

  /** Any sequence of calls, from any reachable ring, answers exactly as a byte queue does. */
  lemma {:induction false} RunRefinesFifo(r: Ring, size: nat, ops: seq<Op>)
    requires Ok(r, size)
    ensures Contents(Run(r, size, ops).0, size) == RunFifo(Contents(r, size), ops).0
    ensures Run(r, size, ops).1 == RunFifo(Contents(r, size), ops).1
    decreases |ops|
  {
    if ops == [] {
    } else {
      ApplyRefinesFifo(r, size, ops[0]);
      RunRefinesFifo(Apply(r, size, ops[0]).0, size, ops[1..]);
    }
  }

  /** From the constructor: the buffer is a byte queue for every block size and every run. */
  lemma {:induction false} ConstructedRunIsFifo(size: nat, ops: seq<Op>)
    requires 0 < size
    ensures Ok(Empty(size), size)
    ensures Contents(Run(Empty(size), size, ops).0, size) == RunFifo([], ops).0
    ensures Run(Empty(size), size, ops).1 == RunFifo([], ops).1
  {
    SizeIsLength(Empty(size), size);
    RunRefinesFifo(Empty(size), size, ops);
  }
}
