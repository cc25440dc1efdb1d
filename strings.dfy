/**
 * Text helpers: JavaScript's `Array.prototype.join`, and splitting a text at
 * a separator character (used to speak about the lines of a generated file).
 */
module Strings {

  /** `parts.join(sep)`: the parts in order with `sep` between neighbours, "" for no parts. */
  function Join(parts: seq<string>, sep: string): string
    decreases |parts|
  {
    if |parts| == 0 then ""
    else if |parts| == 1 then parts[0]
    else parts[0] + sep + Join(parts[1..], sep)
  }

  /** The pieces of `s` between occurrences of `c`; a text without `c` is one piece. */
  function Split(s: string, c: char): (pieces: seq<string>)
    ensures |pieces| >= 1
  {
    if |s| == 0 then [""]
    else if s[0] == c then [""] + Split(s[1..], c)
    else PrependToFirst(s[0], Split(s[1..], c))
  }

  /** Puts `x` in front of the first piece. */
  function PrependToFirst(x: char, pieces: seq<string>): (r: seq<string>)
    requires |pieces| >= 1
    ensures |r| == |pieces| && r[0] == [x] + pieces[0] && r[1..] == pieces[1..]
  {
    [[x] + pieces[0]] + pieces[1..]
  }

  /** The lines of a text. */
  function Lines(s: string): seq<string>
  {
    Split(s, '\n')
  }

  /**
   * The pieces that `head + Join(parts, [c] + mid) + tail` splits into at `c`:
   * one per part, the first led by `head`, the others by `mid`, the last
   * followed by `tail`; with no parts, the single piece `head + tail`.
   */
  function FramedPieces(head: string, mid: string, parts: seq<string>, tail: string): seq<string>
  {
    if |parts| == 0 then [head + tail]
    else seq(|parts|, k requires 0 <= k < |parts| =>
               (if k == 0 then head else mid) + parts[k] + (if k == |parts| - 1 then tail else ""))
  }

  lemma {:induction false} SplitWithoutSeparator(s: string, c: char)
    requires c !in s
    ensures Split(s, c) == [s]
  {
    if |s| > 0 {
      assert c !in s[1..] by {
        forall k | 0 <= k < |s[1..]| ensures s[1..][k] != c {
          assert s[1..][k] == s[k + 1];
        }
      }
      SplitWithoutSeparator(s[1..], c);
      assert [s[0]] + s[1..] == s;
    }
  }

  /** Putting a character in front of the first piece is unaffected by pieces appended after it. */
  lemma PrependToFirstConcat(x: char, front: seq<string>, back: seq<string>)
    requires |front| >= 1
    ensures PrependToFirst(x, front + back) == PrependToFirst(x, front) + back
  {
    assert (front + back)[1..] == front[1..] + back;
  }

  /** Splitting distributes over a separator occurrence. */
  lemma {:induction false} SplitConcat(a: string, c: char, b: string)
    ensures Split(a + [c] + b, c) == Split(a, c) + Split(b, c)
  {
    var s := a + [c] + b;
    if |a| == 0 {
      assert s == [c] + b;
      assert s[1..] == b;
    } else {
      assert s[0] == a[0] && s[1..] == a[1..] + [c] + b;
      SplitConcat(a[1..], c, b);
      if a[0] != c {
        PrependToFirstConcat(a[0], Split(a[1..], c), Split(b, c));
      }
    }
  }

  /** The pieces of a framed join of two or more parts: the first part led by `head`, then the rest led by `mid`. */
  lemma FramedPiecesCons(head: string, mid: string, parts: seq<string>, tail: string)
    requires |parts| >= 2
    ensures FramedPieces(head, mid, parts, tail) == [head + parts[0]] + FramedPieces(mid, mid, parts[1..], tail)
  {
    var rest := parts[1..];
    var later := FramedPieces(mid, mid, rest, tail);
    var got := [head + parts[0]] + later;
    var want := FramedPieces(head, mid, parts, tail);
    assert |got| == |want|;
    forall k | 0 <= k < |want| ensures got[k] == want[k] {
      var end := if k == |parts| - 1 then tail else "";
      if k == 0 {
        assert want[0] == head + parts[0] + end;
      } else {
        assert got[k] == later[k - 1] == mid + rest[k - 1] + end;
        assert rest[k - 1] == parts[k];
      }
    }
  }

  /** A joined text splits back into its parts, each framed by `head`, `mid` and `tail`. */
  lemma {:induction false} SplitFramedJoin(head: string, mid: string, parts: seq<string>, tail: string, c: char)
    requires c !in head && c !in mid && c !in tail
    requires forall k :: 0 <= k < |parts| ==> c !in parts[k]
    ensures Split(head + Join(parts, [c] + mid) + tail, c) == FramedPieces(head, mid, parts, tail)
    decreases |parts|
  {
    var sep := [c] + mid;
    if |parts| == 0 {
      assert head + Join(parts, sep) + tail == head + tail;
      SplitWithoutSeparator(head + tail, c);
    } else if |parts| == 1 {
      assert head + Join(parts, sep) + tail == head + parts[0] + tail;
      SplitWithoutSeparator(head + parts[0] + tail, c);
      assert FramedPieces(head, mid, parts, tail) == [head + parts[0] + tail];
    } else {
      var rest := parts[1..];
      assert forall k :: 0 <= k < |rest| ==> c !in rest[k] by {
        forall k | 0 <= k < |rest| ensures c !in rest[k] {
          assert rest[k] == parts[k + 1];
        }
      }
      var restText := mid + Join(rest, sep) + tail;
      assert c !in parts[0];
      calc {
        Split(head + Join(parts, sep) + tail, c);
        { assert head + Join(parts, sep) + tail == (head + parts[0]) + [c] + restText; }
        Split((head + parts[0]) + [c] + restText, c);
        { SplitConcat(head + parts[0], c, restText); }
        Split(head + parts[0], c) + Split(restText, c);
        { SplitWithoutSeparator(head + parts[0], c);
          SplitFramedJoin(mid, mid, rest, tail, c); }
        [head + parts[0]] + FramedPieces(mid, mid, rest, tail);
        { FramedPiecesCons(head, mid, parts, tail); }
        FramedPieces(head, mid, parts, tail);
      }
    }
  }

  /** Joining with a one-character separator is undone by splitting at it. */
  lemma {:induction false} SplitJoin(parts: seq<string>, c: char)
    requires |parts| >= 1
    requires forall k :: 0 <= k < |parts| ==> c !in parts[k]
    ensures Split(Join(parts, [c]), c) == parts
    decreases |parts|
  {
    assert c !in parts[0];
    SplitWithoutSeparator(parts[0], c);
    if |parts| > 1 {
      var rest := parts[1..];
      assert forall k :: 0 <= k < |rest| ==> c !in rest[k] by {
        forall k | 0 <= k < |rest| ensures c !in rest[k] {
          assert rest[k] == parts[k + 1];
        }
      }
      var tail := Join(rest, [c]);
      calc {
        Split(Join(parts, [c]), c);
        { assert Join(parts, [c]) == parts[0] + [c] + tail; }
        Split(parts[0] + [c] + tail, c);
        { SplitConcat(parts[0], c, tail); }
        Split(parts[0], c) + Split(tail, c);
        { SplitJoin(rest, c); }
        [parts[0]] + rest;
      }
      assert [parts[0]] + rest == parts;
    }
  }
}
