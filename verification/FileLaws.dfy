/** Laws of the `_file` parser on arbitrary bytes, not only on what the serializer writes. */
module FileLaws {
  import opened Bytes
  import opened Wire
  import opened FileCodec

  // ---------------------------------------------------------------- the parser is a stream

  lemma TakeFieldMore(m: File, tag: nat, s: seq<byte>, depth: nat, more: seq<byte>)
    requires TakeField(m, tag, s, depth).Some?
    ensures TakeField(m, tag, s + more, depth)
         == Some((TakeField(m, tag, s, depth).value.0, TakeField(m, tag, s, depth).value.1 + more))
  {
    if tag !in KNOWN {
      ParseFieldMore(tag, s, depth, more);
    } else if tag == 10 || tag == 34 {
      ReadBytesMore(s, more);
    } else {
      ReadVarintMore(s, 10, more);
    }
  }

  /** Bytes that parse completely can be parsed first and the rest afterwards. */
  lemma {:induction false} ParseContinues(m: File, x: seq<byte>, y: seq<byte>, depth: nat)
    requires Parse(m, x, depth).Done?
    ensures Parse(m, x + y, depth) == Parse(Parse(m, x, depth).msg, y, depth)
    decreases |x|
  {
    if x == [] {
      assert x + y == y;
    } else {
      ReadVarintMore(x, 5, y);
      var (tag, rest) := ReadTag(x).value;
      TakeFieldMore(m, tag, rest, depth, y);
      var (next, after) := TakeField(m, tag, rest, depth).value;
      ParseContinues(next, after, y, depth);
    }
  }

  // ---------------------------------------------------------------- what comes out can go back in

  predicate Kept(m: File, depth: nat) {
    Fits(m) && UnknownKept(m.unknown, depth, KNOWN)
  }

  lemma TakeFieldKept(m: File, tag: nat, s: seq<byte>, depth: nat)
    requires Kept(m, depth) && tag < TWO32 && TakeField(m, tag, s, depth).Some?
    ensures Kept(TakeField(m, tag, s, depth).value.0, depth)
  {
    if tag !in KNOWN {
      NotKnown(m, tag, s, depth);
      ParsedFieldOk(tag, s, depth);
      KeptAppend(m.unknown, ParseField(tag, s, depth).value.0, depth, KNOWN);
    }
  }

  lemma {:induction false} ParseKept(m: File, s: seq<byte>, depth: nat)
    requires Kept(m, depth) && Parse(m, s, depth).Done?
    ensures Kept(Parse(m, s, depth).msg, depth)
    decreases |s|
  {
    if s == [] {
    } else {
      var (tag, rest) := ReadTag(s).value;
      TakeFieldKept(m, tag, rest, depth);
      ParseKept(TakeField(m, tag, rest, depth).value.0, TakeField(m, tag, rest, depth).value.1, depth);
    }
  }

  /** Whatever bytes a message was read from, writing it and reading it again changes nothing. */
  lemma {:induction false} ReserializeStable(s: seq<byte>, depth: nat)
    requires Parse(Default(), s, depth).Done?
    ensures var m := Parse(Default(), s, depth).msg; Parse(Default(), Serialize(m), depth) == Done(m)
  {
    ParseKept(Default(), s, depth);
    RoundTrip(Parse(Default(), s, depth).msg, depth);
  }

  // ---------------------------------------------------------------- last one wins, exactly

  /** The known tags that occur in bytes that parse completely. */
  function Seen(s: seq<byte>, depth: nat): set<nat>
    decreases |s|
  {
    if s == [] then {} else
    match ReadTag(s)
    case None => {}
    case Some((tag, rest)) =>
      match TakeField(Default(), tag, rest, depth)
      case None => {}
      case Some((_, after)) => (if tag in KNOWN then {tag} else {}) + Seen(after, depth)
  }

  /** The fields whose tags are in `seen` come from `b`, the others from `a`. */
  function Overlay(a: File, b: File, seen: set<nat>, unknown: seq<Unknown>): File {
    File(if 10 in seen then b.cmd else a.cmd,
         if 16 in seen then b.stS else a.stS,
         if 24 in seen then b.stE else a.stE,
         if 34 in seen then b.data else a.data,
         if 40 in seen then b.total else a.total,
         if 48 in seen then b.id else a.id,
         unknown)
  }

  /** Reading one field sets the same value, and eats the same bytes, whatever the message held. */
  lemma TakeFieldOverlay(a: File, p: File, tag: nat, s: seq<byte>, depth: nat)
    requires TakeField(p, tag, s, depth).Some? && tag < TWO32
    ensures var (q, after) := TakeField(p, tag, s, depth).value;
            var seen := if tag in KNOWN then {tag} else {};
            && |q.unknown| >= |p.unknown| && q.unknown[..|p.unknown|] == p.unknown
            && q == Overlay(p, q, seen, q.unknown)
            && TakeField(a, tag, s, depth)
                 == Some((Overlay(a, q, seen, a.unknown + q.unknown[|p.unknown|..]), after))
  {
    if tag !in KNOWN {
      NotKnown(a, tag, s, depth);
      NotKnown(p, tag, s, depth);
      var u := ParseField(tag, s, depth).value.0;
      assert (p.unknown + [u])[|p.unknown|..] == [u];
    } else {
      assert p.unknown[|p.unknown|..] == [] && a.unknown + [] == a.unknown;
    }
  }

  lemma OverlayTwice(a: File, p: File, q: File, r: File, first: set<nat>, second: set<nat>,
                     us: seq<Unknown>, vs: seq<Unknown>)
    requires r == Overlay(q, r, second, r.unknown)
    ensures Overlay(Overlay(a, q, first, us), r, second, vs) == Overlay(a, r, first + second, vs)
  {
  }

  lemma {:induction false} ParseOverlay(a: File, p: File, s: seq<byte>, depth: nat)
    requires Parse(p, s, depth).Done?
    ensures var q := Parse(p, s, depth).msg;
            && |q.unknown| >= |p.unknown| && q.unknown[..|p.unknown|] == p.unknown
            && q == Overlay(p, q, Seen(s, depth), q.unknown)
            && Parse(a, s, depth) == Done(Overlay(a, q, Seen(s, depth), a.unknown + q.unknown[|p.unknown|..]))
    decreases |s|
  {
    if s == [] {
      assert p.unknown[|p.unknown|..] == [] && a.unknown + [] == a.unknown;
    } else {
      var (tag, rest) := ReadTag(s).value;
      var (q, after) := TakeField(p, tag, rest, depth).value;
      TakeFieldOverlay(a, p, tag, rest, depth);
      TakeFieldOverlay(Default(), p, tag, rest, depth);
      var seen := if tag in KNOWN then {tag} else {};
      var a' := Overlay(a, q, seen, a.unknown + q.unknown[|p.unknown|..]);
      ParseOverlay(a', q, after, depth);
      var r := Parse(q, after, depth).msg;
      assert Parse(p, s, depth) == Done(r) && Seen(s, depth) == seen + Seen(after, depth);
      OverlayTwice(a, p, q, r, seen, Seen(after, depth), a'.unknown, a'.unknown + r.unknown[|q.unknown|..]);
      OverlayTwice(p, p, q, r, seen, Seen(after, depth), q.unknown, r.unknown);
      AppendedUnknown(p.unknown, q.unknown, r.unknown, a.unknown);
    }
  }

  predicate AtDefault(m: File, tag: nat) {
    match tag
    case 10 => m.cmd == []
    case 16 => m.stS == 0
    case 24 => m.stE == 0
    case 34 => m.data == []
    case 40 => m.total == 0
    case 48 => m.id == 0
    case _ => true
  }

  /** No field that `y` spells out with its default value is set in `a`. */
  predicate ErasesNothing(a: File, b: File, seen: set<nat>) {
    forall tag :: tag in seen && AtDefault(b, tag) ==> AtDefault(a, tag)
  }

  lemma OverlayIsMerge(a: File, b: File, seen: set<nat>)
    requires b == Overlay(Default(), b, seen, b.unknown)
    ensures Overlay(a, b, seen, a.unknown + b.unknown) == Merge(a, b) <==> ErasesNothing(a, b, seen)
  {
  }

  /**
   Last one wins, for any two encodings: the concatenation holds the fields that occur in `y` as
   `y` has them and the others as `x` has them.  That is the merge of the two messages if and
   only if `y` does not spell out a default value for a field that `x` set.
   */
  lemma {:induction false} ConcatenationExact(x: seq<byte>, y: seq<byte>, depth: nat)
    requires Parse(Default(), x, depth).Done? && Parse(Default(), y, depth).Done?
    ensures var a, b := Parse(Default(), x, depth).msg, Parse(Default(), y, depth).msg;
            var both := Parse(Default(), x + y, depth);
            && both == Done(Overlay(a, b, Seen(y, depth), a.unknown + b.unknown))
            && (both == Done(Merge(a, b)) <==> ErasesNothing(a, b, Seen(y, depth)))
  {
    var a, b := Parse(Default(), x, depth).msg, Parse(Default(), y, depth).msg;
    ParseContinues(Default(), x, y, depth);
    ParseOverlay(a, Default(), y, depth);
    assert b.unknown[|Default().unknown|..] == b.unknown;
    OverlayIsMerge(a, b, Seen(y, depth));
  }

  /** An explicit zero on the wire: [total = 1] followed by [total = 0] does not read as their merge. */
  lemma ExplicitDefaultErases(depth: nat)
    ensures var x, y: seq<byte> := [40, 1], [40, 0];
            && Parse(Default(), x, depth) == Done(Default().(total := 1))
            && Parse(Default(), y, depth) == Done(Default())
            && Parse(Default(), x + y, depth) == Done(Default())
            && Merge(Default().(total := 1), Default()) == Default().(total := 1)
  {
    var x, y: seq<byte> := [40, 1], [40, 0];
    OneTotal(Default(), 40, 1, depth);
    OneTotal(Default(), 40, 0, depth);
    OneTotal(Default().(total := 1), 40, 0, depth);
    ParseContinues(Default(), x, y, depth);
    assert [] + Default().unknown == [];
  }

  lemma TakeTotal(m: File, tag: nat, v: nat, depth: nat)
    requires tag == 40 && v < 128
    ensures TakeField(m, tag, Varint(v) + [], depth) == Some((m.(total := v), []))
  {
  }

  lemma OneTotal(m: File, tag: nat, v: nat, depth: nat)
    requires tag == 40 && v < 128
    ensures Parse(m, [tag, v], depth) == Done(m.(total := v))
  {
    var rest: seq<byte> := [];
    assert [tag, v] == Varint(tag) + Varint(v) + rest;
    assert TakeField(m, tag, Varint(v) + rest, depth) == Some((m.(total := v), rest)) by {
      TakeTotal(m, tag, v, depth);
    }
    ParseStep(m, tag, Varint(v), rest, m.(total := v), depth);
    assert Parse(m.(total := v), rest, depth) == Done(m.(total := v));
  }
}
