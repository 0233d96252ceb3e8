/**
 * `String.split(regex)` for a one-character, non-meta separator (the JDK's
 * fast path, used by `request.split(":")`): the text is cut at every
 * separator, leading empty pieces are kept, trailing empty pieces are
 * dropped, and a text without any separator comes back whole (so "" gives
 * one empty piece).
 */
module JavaString {

  /** Every piece between separators, empty ones included; there is always at least one. */
  function Segments(s: string, sep: char): (r: seq<string>)
    ensures |r| >= 1
    decreases |s|
  {
    if |s| == 0 then [""]
    else
      var rest := Segments(s[1..], sep);
      if s[0] == sep then [""] + rest else [[s[0]] + rest[0]] + rest[1..]
  }

  /** The pieces glued back together with the separator between them. */
  function Join(parts: seq<string>, sep: char): string
    requires |parts| >= 1
  {
    if |parts| == 1 then parts[0] else parts[0] + [sep] + Join(parts[1..], sep)
  }

  /** `parts` without its run of trailing empty strings. */
  function DropTrailingEmpty(parts: seq<string>): (r: seq<string>)
    ensures |r| <= |parts| && r == parts[..|r|]
    ensures |r| > 0 ==> r[|r| - 1] != ""
    ensures forall i :: |r| <= i < |parts| ==> parts[i] == ""
  {
    if |parts| > 0 && parts[|parts| - 1] == "" then DropTrailingEmpty(parts[..|parts| - 1]) else parts
  }

  /** `s.split(String.valueOf(sep))` with the default limit 0. */
  function Split(s: string, sep: char): seq<string>
  {
    if sep !in s then [s] else DropTrailingEmpty(Segments(s, sep))
  }

  /**
   * What `split` returns: the text alone when the separator is absent;
   * otherwise the separated segments in order, with only the trailing run of
   * empty ones dropped. No piece contains the separator.
   */
  lemma SplitPieces(s: string, sep: char)
    ensures sep !in s ==> Split(s, sep) == [s]
    ensures forall i :: 0 <= i < |Split(s, sep)| ==> sep !in Split(s, sep)[i]
    ensures sep in s ==> |Split(s, sep)| <= |Segments(s, sep)| && Split(s, sep) == Segments(s, sep)[..|Split(s, sep)|]
    ensures sep in s && |Split(s, sep)| > 0 ==> Split(s, sep)[|Split(s, sep)| - 1] != ""
    ensures sep in s ==> forall i :: |Split(s, sep)| <= i < |Segments(s, sep)| ==> Segments(s, sep)[i] == ""
  {
    SegmentsJoin(s, sep);
  }

  /** `s.indexOf(c, from)`: the first position at or after `from` holding `c`, or -1. */
  function IndexOf(s: string, c: char, from: nat): (r: int)
    requires from <= |s|
    ensures r == -1 <==> c !in s[from..]
    ensures r != -1 ==> from <= r < |s| && s[r] == c && c !in s[from..r]
    decreases |s| - from
  {
    if from == |s| then -1
    else if s[from] == c then from
    else
      var r := IndexOf(s, c, from + 1);
      assert s[from..] == [s[from]] + s[from + 1..];
      assert r != -1 ==> s[from..r] == [s[from]] + s[from + 1..r];
      r
  }

  /** No piece contains the separator, and joining the pieces gives back the text. */
  lemma {:induction false} SegmentsJoin(s: string, sep: char)
    ensures forall i :: 0 <= i < |Segments(s, sep)| ==> sep !in Segments(s, sep)[i]
    ensures Join(Segments(s, sep), sep) == s
    decreases |s|
  {
    var k := IndexOf(s, sep, 0);
    assert s[0..] == s;
    if k == -1 {
      NoSeparator(s, sep);
    } else {
      var a, rest := s[..k], s[k + 1..];
      assert s == a + [sep] + rest;
      assert s[0..k] == a;
      SegmentsAfter(a, rest, sep);
      SegmentsJoin(rest, sep);
      var r := Segments(s, sep);
      assert r == [a] + Segments(rest, sep);
      assert r[1..] == Segments(rest, sep);
    }
  }

  /** Splitting a text made of separator-free pieces gives those pieces back. */
  lemma {:induction false} JoinSegments(parts: seq<string>, sep: char)
    requires |parts| >= 1
    requires forall i :: 0 <= i < |parts| ==> sep !in parts[i]
    ensures Segments(Join(parts, sep), sep) == parts
    decreases |parts|
  {
    if |parts| == 1 {
      NoSeparator(parts[0], sep);
    } else {
      JoinSegments(parts[1..], sep);
      SegmentsAfter(parts[0], Join(parts[1..], sep), sep);
      assert [parts[0]] + parts[1..] == parts;
    }
  }

  /** A separator-free text is a single piece. */
  lemma {:induction false} NoSeparator(s: string, sep: char)
    requires sep !in s
    ensures Segments(s, sep) == [s]
    decreases |s|
  {
    if |s| > 0 {
      assert sep !in s[1..] by { assert forall k :: 0 <= k < |s| - 1 ==> s[1..][k] == s[k + 1]; }
      NoSeparator(s[1..], sep);
      assert s == [s[0]] + s[1..];
    }
  }

  /** Cutting at the first separator: the piece before it, then the pieces of the rest. */
  lemma {:induction false} SegmentsAfter(a: string, rest: string, sep: char)
    requires sep !in a
    ensures Segments(a + [sep] + rest, sep) == [a] + Segments(rest, sep)
    decreases |a|
  {
    var s := a + [sep] + rest;
    if |a| == 0 {
      assert s[1..] == rest;
    } else {
      assert s[1..] == a[1..] + [sep] + rest;
      assert sep !in a[1..] by { assert forall k :: 0 <= k < |a| - 1 ==> a[1..][k] == a[k + 1]; }
      SegmentsAfter(a[1..], rest, sep);
      assert [a[0]] + a[1..] == a;
    }
  }

  /** A text with no separator comes back as the one piece it is, even when empty. */
  lemma SplitWithoutSeparator(s: string, sep: char)
    requires sep !in s
    ensures Split(s, sep) == [s]
  {
  }

  /** Two separator-free pieces joined by one separator split into those two, unless the second is empty. */
  lemma SplitTwo(a: string, b: string, sep: char)
    requires sep !in a && sep !in b
    ensures b != "" ==> Split(a + [sep] + b, sep) == [a, b]
    ensures b == "" && a != "" ==> Split(a + [sep] + b, sep) == [a]
    ensures b == "" && a == "" ==> Split(a + [sep] + b, sep) == []
  {
    var s := a + [sep] + b;
    assert s[|a|] == sep;
    JoinSegments([a, b], sep);
    assert Join([a, b], sep) == s by { assert Join([a, b][1..], sep) == b; }
  }

  /** Three separator-free pieces, the last not empty, split into exactly three. */
  lemma SplitThree(a: string, b: string, c: string, sep: char)
    requires sep !in a && sep !in b && sep !in c && c != ""
    ensures Split(a + [sep] + b + [sep] + c, sep) == [a, b, c]
  {
    var s := a + [sep] + b + [sep] + c;
    assert s[|a|] == sep;
    JoinSegments([a, b, c], sep);
    assert Join([a, b, c], sep) == s by {
      assert Join([a, b, c][1..], sep) == b + [sep] + c by { assert Join([a, b, c][2..], sep) == c; }
    }
  }

  /**
   * The JDK fast path itself: return the text whole if it holds no
   * separator, otherwise take the pieces the `indexOf` walk collects and
   * trim the trailing empty ones.
   */
  method SplitFast(s: string, sep: char) returns (result: seq<string>)
    ensures result == Split(s, sep)
  {
    var list, off := CollectPieces(s, sep);
    if off == 0 {
      return [s];
    }
    list := list + [s[off..]];
    var resultSize := TrailingEmptyCut(list);
    result := list[..resultSize];
  }

  /**
   * The `indexOf` walk: every piece that ends at a separator, in order, and
   * the offset just past the last separator (0 when there was none).
   */
  method CollectPieces(s: string, sep: char) returns (list: seq<string>, off: nat)
    ensures off <= |s|
    ensures list + [s[off..]] == Segments(s, sep)
    ensures off == 0 <==> sep !in s
  {
    list := [];
    off := 0;
    var next := IndexOf(s, sep, off);
    while next != -1
      invariant 0 <= off <= |s|
      invariant next == IndexOf(s, sep, off)
      invariant list + Segments(s[off..], sep) == Segments(s, sep)
      invariant off == 0 <==> list == []
      invariant off > 0 ==> s[off - 1] == sep
      decreases |s| - off
    {
      var piece := s[off..next];
      PieceAt(s, sep, off, next);
      assert list + ([piece] + Segments(s[next + 1..], sep)) == (list + [piece]) + Segments(s[next + 1..], sep);
      list := list + [piece];
      off := next + 1;
      next := IndexOf(s, sep, off);
    }
    LastPiece(s, sep, list, off);
  }

  /** Once no separator follows `off`, the rest of the text is the last piece. */
  lemma LastPiece(s: string, sep: char, list: seq<string>, off: nat)
    requires off <= |s| && sep !in s[off..]
    requires list + Segments(s[off..], sep) == Segments(s, sep)
    requires off > 0 ==> s[off - 1] == sep
    ensures list + [s[off..]] == Segments(s, sep)
    ensures off == 0 <==> sep !in s
  {
    NoSeparator(s[off..], sep);
    if off == 0 {
      assert s[0..] == s;
    }
  }

  /** The pieces from `off` on: the one ending at the next separator, then those after it. */
  lemma PieceAt(s: string, sep: char, off: nat, next: nat)
    requires off <= next < |s| && s[next] == sep && sep !in s[off..next]
    ensures Segments(s[off..], sep) == [s[off..next]] + Segments(s[next + 1..], sep)
  {
    assert s[off..] == s[off..next] + [sep] + s[next + 1..];
    SegmentsAfter(s[off..next], s[next + 1..], sep);
  }

  /** The size `split` keeps: count down past the trailing empty pieces. */
  method TrailingEmptyCut(list: seq<string>) returns (resultSize: nat)
    ensures resultSize <= |list| && list[..resultSize] == DropTrailingEmpty(list)
  {
    resultSize := |list|;
    assert list[..resultSize] == list;
    while resultSize > 0 && list[resultSize - 1] == ""
      invariant 0 <= resultSize <= |list|
      invariant DropTrailingEmpty(list[..resultSize]) == DropTrailingEmpty(list)
      decreases resultSize
    {
      assert list[..resultSize][..resultSize - 1] == list[..resultSize - 1];
      resultSize := resultSize - 1;
    }
  }
}
