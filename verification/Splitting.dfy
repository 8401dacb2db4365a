/**
 Cutting a buffer at a separator, as the stream readers do with `indexOf` and `slice`: what is
 complete so far, and the unfinished rest that waits for the next chunk.
 */
module Splitting {
  import opened Options

  predicate At(s: string, sep: string, i: nat) {
    i + |sep| <= |s| && s[i..i + |sep|] == sep
  }

  ghost predicate Absent(s: string, sep: string) {
    forall i: nat :: !At(s, sep, i)
  }

  /** The first position of `sep` in `s` at or after `from`. */
  function Find(s: string, sep: string, from: nat := 0): (r: Option<nat>)
    requires |sep| > 0
    ensures r.Some? ==> from <= r.value && r.value + |sep| <= |s|
    decreases |s| - from
  {
    if from + |sep| > |s| then None
    else if s[from..from + |sep|] == sep then Some(from)
    else Find(s, sep, from + 1)
  }

  datatype Cut = Cut(pieces: seq<string>, rest: string)

  function Split(s: string, sep: string): Cut
    requires |sep| > 0
    decreases |s|
  {
    var next := Find(s, sep);
    if next.None? then Cut([], s)
    else
      var c := Split(s[next.value + |sep|..], sep);
      Cut([s[..next.value]] + c.pieces, c.rest)
  }

  lemma {:induction false} RestHasNoSeparator(s: string, sep: string)
    requires |sep| > 0
    ensures Absent(Split(s, sep).rest, sep)
    decreases |s|
  {
    if Find(s, sep).Some? {
      RestHasNoSeparator(s[Find(s, sep).value + |sep|..], sep);
      SplitAt(s, sep, Find(s, sep).value);
    } else {
      FindIsFirst(s, sep);
    }
  }

  function Concat(parts: seq<string>): string {
    if parts == [] then "" else parts[0] + Concat(parts[1..])
  }

  /** Every piece followed by the separator, then the rest: the inverse of `Split`. */
  function Unsplit(pieces: seq<string>, rest: string, sep: string): string {
    if pieces == [] then rest else pieces[0] + sep + Unsplit(pieces[1..], rest, sep)
  }

  lemma Assoc<T>(a: seq<T>, b: seq<T>, c: seq<T>)
    ensures (a + b) + c == a + (b + c)
  {}

  lemma {:induction false} FindIsFirst(s: string, sep: string, from: nat := 0)
    requires |sep| > 0
    ensures match Find(s, sep, from)
      case Some(i) => At(s, sep, i) && forall j: nat :: from <= j < i ==> !At(s, sep, j)
      case None => forall j: nat :: from <= j ==> !At(s, sep, j)
    decreases |s| - from
  {
    if from + |sep| <= |s| && s[from..from + |sep|] != sep {
      FindIsFirst(s, sep, from + 1);
    }
  }

  lemma FindFirst(s: string, sep: string, i: nat)
    requires |sep| > 0 && At(s, sep, i) && forall j: nat :: j < i ==> !At(s, sep, j)
    ensures Find(s, sep) == Some(i)
  {
    FindIsFirst(s, sep);
  }

  lemma SplitAt(s: string, sep: string, i: nat)
    requires |sep| > 0 && Find(s, sep) == Some(i)
    ensures Split(s, sep) == Cut([s[..i]] + Split(s[i + |sep|..], sep).pieces, Split(s[i + |sep|..], sep).rest)
  {}

  /** Nothing is lost or invented by splitting. */
  lemma {:induction false} UnsplitSplit(s: string, sep: string)
    requires |sep| > 0
    ensures Unsplit(Split(s, sep).pieces, Split(s, sep).rest, sep) == s
    decreases |s|
  {
    if Find(s, sep).Some? {
      var i := Find(s, sep).value;
      UnsplitSplit(s[i + |sep|..], sep);
      SplitAt(s, sep, i);
      UnsplitCons(s[..i], Split(s[i + |sep|..], sep).pieces, Split(s, sep).rest, sep);
      FindIsFirst(s, sep);
      CutInThree(s, i, i + |sep|);
    }
  }

  lemma UnsplitCons(piece: string, pieces: seq<string>, rest: string, sep: string)
    ensures Unsplit([piece] + pieces, rest, sep) == piece + sep + Unsplit(pieces, rest, sep)
  {
    assert ([piece] + pieces)[1..] == pieces;
  }

  lemma CutInThree<T>(s: seq<T>, i: nat, j: nat)
    requires i <= j <= |s|
    ensures s[..i] + s[i..j] + s[j..] == s
  {}

  /**
   The cut is determined by where separators first occur: a piece that the separator closes no
   earlier than its end is the first piece.
   */
  lemma SplitCons(piece: string, more: string, sep: string)
    requires |sep| > 0
    requires forall j: nat :: j < |piece| ==> !At(piece + sep, sep, j)
    ensures Split(piece + sep + more, sep)
      == Cut([piece] + Split(more, sep).pieces, Split(more, sep).rest)
  {
    var s := piece + sep + more;
    assert s[|piece|..|piece| + |sep|] == sep;
    forall j: nat | j < |piece| ensures !At(s, sep, j) {
      assert !At(piece + sep, sep, j);
      assert (piece + sep)[j..j + |sep|] == s[j..j + |sep|];
    }
    FindFirst(s, sep, |piece|);
    assert s[..|piece|] == piece && s[|piece| + |sep|..] == more;
  }

  lemma FindAppend(s: string, x: string, sep: string)
    requires |sep| > 0 && Find(s, sep).Some?
    ensures Find(s + x, sep) == Find(s, sep)
  {
    var i := Find(s, sep).value;
    FindIsFirst(s, sep);
    forall j: nat | j <= i ensures At(s + x, sep, j) <==> At(s, sep, j) {
      assert (s + x)[j..j + |sep|] == s[j..j + |sep|];
    }
    FindFirst(s + x, sep, i);
  }

  lemma SliceAppend<T>(s: seq<T>, x: seq<T>, k: nat)
    requires k <= |s|
    ensures (s + x)[k..] == s[k..] + x && (s + x)[..k] == s[..k]
  {}

  lemma SplitAppended(s: string, x: string, sep: string, i: nat)
    requires |sep| > 0 && Find(s, sep) == Some(i)
    ensures Split(s + x, sep).pieces == [s[..i]] + Split(s[i + |sep|..] + x, sep).pieces
    ensures Split(s + x, sep).rest == Split(s[i + |sep|..] + x, sep).rest
  {
    FindAppend(s, x, sep);
    var tail := s[i + |sep|..] + x;
    assert (s + x)[..i] == s[..i] by { SliceAppend(s, x, i); }
    assert (s + x)[i + |sep|..] == tail by { SliceAppend(s, x, i + |sep|); }
    assert Split(s + x, sep) == Cut([s[..i]] + Split(tail, sep).pieces, Split(tail, sep).rest) by {
      SplitAt(s + x, sep, i);
    }
  }

  /** A later chunk never changes a piece already cut off; only the rest meets the new text. */
  lemma {:induction false} SplitAppend(s: string, x: string, sep: string)
    requires |sep| > 0
    ensures Split(s + x, sep) == Cut(Split(s, sep).pieces + Split(Split(s, sep).rest + x, sep).pieces,
                                     Split(Split(s, sep).rest + x, sep).rest)
    decreases |s|
  {
    if Find(s, sep).None? {
      assert Split(s, sep) == Cut([], s);
    } else {
      var i := Find(s, sep).value;
      var t := Split(s[i + |sep|..], sep);
      var u := Split(t.rest + x, sep);
      SplitAppend(s[i + |sep|..], x, sep);
      assert Split(s, sep) == Cut([s[..i]] + t.pieces, t.rest) by { SplitAt(s, sep, i); }
      assert Split(s + x, sep) == Cut([s[..i]] + (t.pieces + u.pieces), u.rest) by { SplitAppended(s, x, sep, i); }
      Assoc([s[..i]], t.pieces, u.pieces);
    }
  }

  lemma {:induction false} ConcatAppend(a: seq<string>, b: seq<string>)
    ensures Concat(a + b) == Concat(a) + Concat(b)
  {
    if a == [] {
      assert a + b == b;
    } else {
      ConcatAppend(a[1..], b);
      assert (a + b)[1..] == a[1..] + b;
      Assoc(a[0], Concat(a[1..]), Concat(b));
    }
  }

  /** The part of a text that its pieces account for. */
  function Consumed(s: string, sep: string): string
    requires |sep| > 0
  {
    Unsplit(Split(s, sep).pieces, "", sep)
  }

  lemma {:induction false} UnsplitRest(pieces: seq<string>, x: string, sep: string)
    ensures Unsplit(pieces, x, sep) == Unsplit(pieces, "", sep) + x
  {
    if pieces != [] {
      UnsplitRest(pieces[1..], x, sep);
      Assoc(pieces[0] + sep, Unsplit(pieces[1..], "", sep), x);
    }
  }

  lemma {:induction false} UnsplitAppend(a: seq<string>, b: seq<string>, x: string, sep: string)
    ensures Unsplit(a + b, x, sep) == Unsplit(a, Unsplit(b, x, sep), sep)
  {
    if a == [] {
      assert a + b == b;
    } else {
      assert (a + b)[1..] == a[1..] + b;
      UnsplitAppend(a[1..], b, x, sep);
    }
  }

  lemma ConsumedThenRest(s: string, sep: string)
    requires |sep| > 0
    ensures Consumed(s, sep) + Split(s, sep).rest == s
  {
    UnsplitSplit(s, sep);
    UnsplitRest(Split(s, sep).pieces, Split(s, sep).rest, sep);
  }

  lemma SplitPrefixPiece(s: string, sep: string, i: nat, more: string)
    requires |sep| > 0 && Find(s, sep) == Some(i)
    ensures Split(s[..i] + sep + more, sep) == Cut([s[..i]] + Split(more, sep).pieces, Split(more, sep).rest)
  {
    FindIsFirst(s, sep);
    CutInThree(s, i, i + |sep|);
    forall j: nat | j < |s[..i]| ensures !At(s[..i] + sep, sep, j) {
      assert (s[..i] + sep)[j..j + |sep|] == s[j..j + |sep|];
      assert !At(s, sep, j);
    }
    SplitCons(s[..i], more, sep);
  }

  /** Whatever replaces the rest, the pieces already cut stay the same. */
  lemma {:induction false} SplitConsumed(s: string, x: string, sep: string)
    requires |sep| > 0
    ensures Split(Consumed(s, sep) + x, sep) == Cut(Split(s, sep).pieces + Split(x, sep).pieces, Split(x, sep).rest)
    decreases |s|
  {
    UnsplitRest(Split(s, sep).pieces, x, sep);
    if Find(s, sep).None? {
      assert Split(s, sep) == Cut([], s);
      assert [] + Split(x, sep).pieces == Split(x, sep).pieces;
    } else {
      var i := Find(s, sep).value;
      var tail := s[i + |sep|..];
      var t := Split(tail, sep).pieces;
      SplitConsumed(tail, x, sep);
      SplitAt(s, sep, i);
      UnsplitCons(s[..i], t, x, sep);
      UnsplitRest(t, x, sep);
      SplitPrefixPiece(s, sep, i, Consumed(tail, sep) + x);
      Assoc([s[..i]], t, Split(x, sep).pieces);
    }
  }

  // ----- lines

  predicate NoLf(s: string) {
    '\n' !in s
  }

  predicate EndsWithCr(s: string) {
    s != "" && s[|s| - 1] == '\r'
  }

  function Unlines(lines: seq<string>): string {
    if lines == [] then "" else lines[0] + "\n" + Unlines(lines[1..])
  }

  function Join(lines: seq<string>): string {
    if lines == [] then "" else if |lines| == 1 then lines[0] else lines[0] + "\n" + Join(lines[1..])
  }

  /** All lines of a text, the unterminated last one included. */
  function AllLines(s: string): (lines: seq<string>)
    ensures |lines| > 0
  {
    Split(s, "\n").pieces + [Split(s, "\n").rest]
  }

  lemma LfAt(s: string, i: nat)
    ensures At(s, "\n", i) <==> i < |s| && s[i] == '\n'
  {
    if i < |s| { assert s[i..i + 1] == [s[i]]; }
  }

  lemma AbsentLf(s: string)
    ensures Absent(s, "\n") <==> NoLf(s)
  {
    forall i: nat ensures At(s, "\n", i) <==> i < |s| && s[i] == '\n' { LfAt(s, i); }
    if !NoLf(s) {
      var i :| 0 <= i < |s| && s[i] == '\n';
      assert At(s, "\n", i);
    }
  }

  lemma SplitLine(line: string, more: string)
    requires NoLf(line)
    ensures Split(line + "\n" + more, "\n")
      == Cut([line] + Split(more, "\n").pieces, Split(more, "\n").rest)
  {
    forall j: nat | j < |line| ensures !At(line + "\n", "\n", j) {
      LfAt(line + "\n", j);
      assert (line + "\n")[j] == line[j];
    }
    SplitCons(line, more, "\n");
  }

  lemma {:induction false} SplitUnlines(lines: seq<string>, more: string)
    requires forall k :: 0 <= k < |lines| ==> NoLf(lines[k])
    ensures Split(Unlines(lines) + more, "\n")
      == Cut(lines + Split(more, "\n").pieces, Split(more, "\n").rest)
  {
    var tail := Split(more, "\n").pieces;
    if lines == [] {
      assert Unlines(lines) + more == more && lines + tail == tail;
    } else {
      SplitUnlines(lines[1..], more);
      SplitLine(lines[0], Unlines(lines[1..]) + more);
      Assoc(lines[0] + "\n", Unlines(lines[1..]), more);
      Assoc([lines[0]], lines[1..], tail);
      assert [lines[0]] + lines[1..] == lines;
    }
  }

  lemma {:induction false} SplitLinesHaveNoLf(s: string)
    ensures forall k :: 0 <= k < |AllLines(s)| ==> NoLf(AllLines(s)[k])
    decreases |s|
  {
    RestHasNoSeparator(s, "\n");
    AbsentLf(Split(s, "\n").rest);
    match Find(s, "\n")
    case None =>
    case Some(i) =>
      FindIsFirst(s, "\n");
      SplitLinesHaveNoLf(s[i + 1..]);
      forall j | 0 <= j < i ensures s[j] != '\n' { LfAt(s, j); }
      assert AllLines(s) == [s[..i]] + AllLines(s[i + 1..]);
  }

  lemma {:induction false} JoinAllLines(s: string)
    ensures Join(AllLines(s)) == s
    decreases |s|
  {
    match Find(s, "\n")
    case None => assert AllLines(s) == [s];
    case Some(i) =>
      FindIsFirst(s, "\n");
      JoinAllLines(s[i + 1..]);
      var lines := AllLines(s);
      assert lines == [s[..i]] + AllLines(s[i + 1..]);
      assert lines[1..] == AllLines(s[i + 1..]);
      LfAt(s, i);
      assert s == s[..i] + "\n" + s[i + 1..];
  }

  lemma {:induction false} UnlinesAppend(a: seq<string>, b: seq<string>)
    ensures Unlines(a + b) == Unlines(a) + Unlines(b)
  {
    if a == [] {
      assert a + b == b;
    } else {
      assert (a + b)[1..] == a[1..] + b;
      UnlinesAppend(a[1..], b);
      Assoc(a[0] + "\n", Unlines(a[1..]), Unlines(b));
    }
  }

  lemma {:induction false} JoinIsUnlines(lines: seq<string>)
    requires lines != []
    ensures Join(lines) == Unlines(lines[..|lines| - 1]) + lines[|lines| - 1]
    ensures Unlines(lines) == Join(lines) + "\n"
  {
    if |lines| > 1 {
      JoinIsUnlines(lines[1..]);
      assert lines[1..][..|lines| - 2] == lines[..|lines| - 1][1..];
    }
  }

  lemma SplitLast(front: seq<string>, last: string)
    requires (forall k :: 0 <= k < |front| ==> NoLf(front[k])) && NoLf(last)
    ensures Split(Unlines(front) + last, "\n") == Cut(front, last)
  {
    SplitUnlines(front, last);
    assert Split(last, "\n") == Cut([], last) by {
      AbsentLf(last);
      FindIsFirst(last, "\n");
    }
    assert front + [] == front;
  }

  lemma AllLinesJoin(lines: seq<string>)
    requires lines != [] && forall k :: 0 <= k < |lines| ==> NoLf(lines[k])
    ensures AllLines(Join(lines)) == lines
  {
    var front, last := lines[..|lines| - 1], lines[|lines| - 1];
    assert Split(Join(lines), "\n") == Cut(front, last) by {
      JoinIsUnlines(lines);
      SplitLast(front, last);
    }
    FrontLast(lines);
  }

  lemma PrefixSnoc<T>(s: seq<T>, k: nat)
    requires k < |s|
    ensures s[..k] + [s[k]] == s[..k + 1]
  {}

  lemma FrontLast<T>(s: seq<T>)
    requires s != []
    ensures s[..|s| - 1] + [s[|s| - 1]] == s
  {}
}
