/** Bytes, and the flat reading of a list of byte strings. */
module Bytes {
  type byte = x: int | 0 <= x < 256

  function Joined(boxes: seq<seq<byte>>): seq<byte> {
    if boxes == [] then [] else boxes[0] + Joined(boxes[1..])
  }

  lemma {:induction false} JoinedAppend(boxes: seq<seq<byte>>, box: seq<byte>)
    ensures Joined(boxes + [box]) == Joined(boxes) + box
  {
    if boxes == [] {
      assert [box][1..] == [] && boxes + [box] == [box];
    } else {
      JoinedAppend(boxes[1..], box);
      assert (boxes + [box])[0] == boxes[0] && (boxes + [box])[1..] == boxes[1..] + [box];
    }
  }

  lemma Regroup(a: seq<byte>, b: seq<byte>, c: seq<byte>)
    ensures a + b + c == a + (b + c)
  {
  }
}
