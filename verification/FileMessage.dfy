/** The message object: fields updated in place by the parse loop, merging, clearing and copying. */
module FileMessages {
  import opened Bytes
  import opened Wire
  import opened FileCodec
  import opened Output

  /** The chunks of a serialization, in the order they are written. */
  lemma SerializeInOrder(m: File)
    ensures var c1, c2, c3 := BytesChunk(1, m.cmd), NumberChunk(2, m.stS), NumberChunk(3, m.stE);
            var c4, c5, c6 := BytesChunk(4, m.data), NumberChunk(5, m.total), NumberChunk(6, m.id);
            var c7 := SerializeUnknowns(m.unknown);
            && [] + c1 + c2 + c3 + c4 + c5 + c6 + c7 == Serialize(m)
            && |Serialize(m)| == |c1| + |c2| + |c3| + |c4| + |c5| + |c6| + |c7|
  {
    assert [] + BytesChunk(1, m.cmd) == BytesChunk(1, m.cmd);
    FromTheLeft(BytesChunk(1, m.cmd), NumberChunk(2, m.stS), NumberChunk(3, m.stE), BytesChunk(4, m.data),
                NumberChunk(5, m.total), NumberChunk(6, m.id), SerializeUnknowns(m.unknown));
  }

  class FileMessage {
    var cmd: seq<byte>
    var stS: int32
    var stE: int32
    var data: seq<byte>
    var total: int64
    var id: int32
    var unknown: seq<Unknown>

    function View(): File
      reads this
    {
      File(cmd, stS, stE, data, total, id, unknown)
    }

    constructor ()
      ensures View() == Default()
    {
      cmd, stS, stE, data, total, id, unknown := [], 0, 0, [], 0, 0, [];
    }

    method Clear()
      modifies this
      ensures View() == Default() == File([], 0, 0, [], 0, 0, [])
    {
      cmd := [];
      data := [];
      stS, stE, total, id := 0, 0, 0, 0;
      unknown := [];
    }

    /** One pass of the parse loop's switch, with the tag already read. */
    method ParseOne(tag: nat, s: seq<byte>, depth: nat) returns (rest: Option<seq<byte>>)
      modifies this
      ensures match TakeField(old(View()), tag, s, depth)
              case None => rest == None
              case Some((m, after)) => rest == Some(after) && View() == m
    {
      if tag / 8 == 1 && tag % 256 == 10 {
        var r := ReadBytes(s);
        if r == None { return None; }
        cmd := r.value.0;
        return Some(r.value.1);
      } else if tag / 8 == 2 && tag % 256 == 16 {
        var r := ReadVarint64(s);
        if r == None { return None; }
        stS := ToInt32(r.value.0);
        return Some(r.value.1);
      } else if tag / 8 == 3 && tag % 256 == 24 {
        var r := ReadVarint64(s);
        if r == None { return None; }
        stE := ToInt32(r.value.0);
        return Some(r.value.1);
      } else if tag / 8 == 4 && tag % 256 == 34 {
        var r := ReadBytes(s);
        if r == None { return None; }
        data := r.value.0;
        return Some(r.value.1);
      } else if tag / 8 == 5 && tag % 256 == 40 {
        var r := ReadVarint64(s);
        if r == None { return None; }
        total := ToInt64(r.value.0);
        return Some(r.value.1);
      } else if tag / 8 == 6 && tag % 256 == 48 {
        var r := ReadVarint32(s);
        if r == None { return None; }
        id := ToInt32(r.value.0);
        return Some(r.value.1);
      }
      var r := ParseField(tag, s, depth);
      if r == None { return None; }
      unknown := unknown + [r.value.0];
      return Some(r.value.1);
    }

    /** _InternalParse: reads fields into this message until the input ends or a tag ends it. */
    method InternalParse(input: seq<byte>, depth: nat) returns (ended: Ended)
      modifies this
      ensures match Parse(old(View()), input, depth)
              case Done(m) => ended == AtEnd && View() == m
              case Stopped(m, tag, rest) => ended == AtTag(tag, rest) && View() == m
              case Failed => ended == Failure
    {
      var s := input;
      while s != []
        invariant Parse(View(), s, depth) == Parse(old(View()), input, depth)
        decreases |s|
      {
        var t := ReadTag(s);
        if t == None {
          return Failure;
        }
        var (tag, rest) := t.value;
        if EndTag(tag) {
          return AtTag(tag, rest);
        }
        ghost var before := View();
        var after := ParseOne(tag, rest, depth);
        if after == None {
          return Failure;
        }
        assert TakeField(before, tag, rest, depth) == Some((View(), after.value));
        s := after.value;
      }
      return AtEnd;
    }

    /** ParseFromString: accepted only when the input ends where a field may end. */
    method ParseFromString(input: seq<byte>, depth: nat) returns (ok: bool)
      modifies this
      ensures ok <==> Parse(Default(), input, depth).Done?
      ensures ok ==> View() == Parse(Default(), input, depth).msg
    {
      Clear();
      var ended := InternalParse(input, depth);
      ok := ended == AtEnd;
    }

    /** ByteSizeLong: announces exactly the bytes that InternalSerialize writes. */
    method ByteSizeLong(ghost depth: nat) returns (size: nat)
      requires UnknownsOk(unknown, depth) && |cmd| < TWO32 && |data| < TWO32
      ensures size == |Serialize(View())|
    {
      ByteSizeIsLength(View(), depth);
      size := ByteSize(View());
    }

    /** _InternalSerialize: advances through `target` from `at`, writing nothing else. */
    method InternalSerialize(target: array<byte>, at: nat) returns (end: nat)
      requires at + |Serialize(View())| <= target.Length
      modifies target
      ensures end == at + |Serialize(View())|
      ensures Wrote(old(target[..]), target[..], at, Serialize(View()))
    {
      ghost var start, m := target[..], View();
      ghost var c1, c2, c3 := BytesChunk(1, m.cmd), NumberChunk(2, m.stS), NumberChunk(3, m.stE);
      ghost var c4, c5, c6 := BytesChunk(4, m.data), NumberChunk(5, m.total), NumberChunk(6, m.id);
      SerializeInOrder(m);
      end := WriteBytes(target, at, 1, cmd, start, at, []);
      end := WriteNumber(target, end, 2, stS, start, at, [] + c1);
      end := WriteNumber(target, end, 3, stE, start, at, [] + c1 + c2);
      end := WriteBytes(target, end, 4, data, start, at, [] + c1 + c2 + c3);
      end := WriteNumber(target, end, 5, total, start, at, [] + c1 + c2 + c3 + c4);
      end := WriteNumber(target, end, 6, id, start, at, [] + c1 + c2 + c3 + c4 + c5);
      end := WriteUnknowns(target, end, unknown, start, at, [] + c1 + c2 + c3 + c4 + c5 + c6);
    }

    /** MergeImpl, which the library never calls with the message itself. */
    method MergeFrom(from: FileMessage)
      requires from != this
      modifies this
      ensures View() == Merge(old(View()), from.View())
    {
      if from.cmd != [] { cmd := from.cmd; }
      if from.data != [] { data := from.data; }
      if from.stS != 0 { stS := from.stS; }
      if from.stE != 0 { stE := from.stE; }
      if from.total != 0 { total := from.total; }
      if from.id != 0 { id := from.id; }
      unknown := unknown + from.unknown;
    }

    method CopyFrom(from: FileMessage)
      modifies this
      ensures View() == old(from.View())
    {
      if from == this {
        return;
      }
      Clear();
      MergeFrom(from);
    }
  }
}
