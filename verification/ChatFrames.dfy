/**
 The blank-line frame loops of the SDK: the host-status stream, which takes its text as it comes, and
 the chat stream, which rewrites CR LF to LF over its whole retained buffer at every chunk.
 */
module ChatFrames {
  import opened Options
  import opened Splitting

  const BLANK := "\n\n"

  // ----- CR LF to LF

  predicate CrLfAt(s: string, i: nat) {
    i + 1 < |s| && s[i] == '\r' && s[i + 1] == '\n'
  }

  ghost predicate NoCrLf(s: string) {
    forall i: nat :: !CrLfAt(s, i)
  }

  predicate CrCrLfAt(s: string, i: nat) {
    i + 2 < |s| && s[i] == '\r' && s[i + 1] == '\r' && s[i + 2] == '\n'
  }

  ghost predicate NoCrCrLf(s: string) {
    forall i: nat :: !CrCrLfAt(s, i)
  }

  /** `replace(/\r\n/g, '\n')`: one pass, left to right. */
  function Norm(s: string): (r: string)
    ensures |r| <= |s|
  {
    if s == "" then ""
    else if CrLfAt(s, 0) then "\n" + Norm(s[2..])
    else [s[0]] + Norm(s[1..])
  }

  predicate StartsWithLf(s: string) {
    s != "" && s[0] == '\n'
  }

  // ----- the chat loop

  datatype Chat = Chat(buffer: string, frames: seq<string>)

  const START := Chat("", [])

  function Fed(c: Chat, chunk: string): Chat {
    var cut := Split(Norm(c.buffer + chunk), BLANK);
    Chat(cut.rest, c.frames + cut.pieces)
  }

  function FedAll(c: Chat, chunks: seq<string>): Chat
    decreases |chunks|
  {
    if chunks == [] then c else FedAll(Fed(c, chunks[0]), chunks[1..])
  }

  // ----- normalising in parts

  lemma NormCons(c: char, s: string)
    requires !(c == '\r' && StartsWithLf(s))
    ensures Norm([c] + s) == [c] + Norm(s)
  {
    assert ([c] + s)[1..] == s;
  }

  lemma NormCrLf(s: string)
    ensures Norm("\r\n" + s) == "\n" + Norm(s)
  {
    assert ("\r\n" + s)[2..] == s;
  }

  lemma {:induction false} NormAppend(a: string, b: string)
    requires !(EndsWithCr(a) && StartsWithLf(b))
    ensures Norm(a + b) == Norm(a) + Norm(b)
    decreases |a|
  {
    if a == "" {
      assert a + b == b;
    } else if CrLfAt(a, 0) {
      NormAppend(a[2..], b);
      assert a + b == "\r\n" + (a[2..] + b);
      NormCrLf(a[2..] + b);
      Assoc("\n", Norm(a[2..]), Norm(b));
    } else {
      NormAppend(a[1..], b);
      assert a + b == [a[0]] + (a[1..] + b);
      NormCons(a[0], a[1..] + b);
      Assoc([a[0]], Norm(a[1..]), Norm(b));
    }
  }

  lemma {:induction false} NormOfNormal(s: string)
    requires NoCrLf(s)
    ensures Norm(s) == s
  {
    if s != "" {
      assert !CrLfAt(s, 0);
      forall i: nat ensures !CrLfAt(s[1..], i) { assert !CrLfAt(s, i + 1); }
      NormOfNormal(s[1..]);
    }
  }

  lemma NormFirst(s: string)
    requires s != "" && !CrLfAt(s, 0)
    ensures Norm(s) != "" && Norm(s)[0] == s[0]
  {}

  lemma DropFirst(s: string)
    requires s != "" && NoCrCrLf(s)
    ensures NoCrCrLf(s[1..])
  {
    forall i: nat ensures !CrCrLfAt(s[1..], i) { assert !CrCrLfAt(s, i + 1); }
  }

  /** Without CR CR LF, a text that was normalised before its continuation arrived normalises the same. */
  lemma {:induction false} NormAgain(a: string, b: string)
    requires NoCrCrLf(a + b)
    ensures Norm(Norm(a) + b) == Norm(a + b)
    decreases |a|
  {
    if a == "" {
    } else if CrLfAt(a, 0) {
      assert a + b == "\r\n" + (a[2..] + b);
      DropFirst(a + b);
      assert (a + b)[1..][1..] == a[2..] + b;
      DropFirst((a + b)[1..]);
      NormAgain(a[2..], b);
      NormCrLf(a[2..] + b);
      Assoc("\n", Norm(a[2..]), b);
      NormCons('\n', Norm(a[2..]) + b);
    } else {
      assert a + b == [a[0]] + (a[1..] + b);
      assert (a + b)[1..] == a[1..] + b;
      DropFirst(a + b);
      NormAgain(a[1..], b);
      Assoc([a[0]], Norm(a[1..]), b);
      if a[1..] != "" {
        assert !CrCrLfAt(a + b, 0);
        if a[0] == '\r' { NormFirst(a[1..]); }
        NormCons(a[0], a[1..] + b);
        NormCons(a[0], Norm(a[1..]) + b);
      } else {
        assert Norm(a[1..]) + b == a[1..] + b;
      }
    }
  }

  lemma {:induction false} NormHasNoCrLf(s: string)
    requires NoCrCrLf(s)
    ensures NoCrLf(Norm(s))
    decreases |s|
  {
    if s == "" {
    } else if CrLfAt(s, 0) {
      DropFirst(s);
      assert s[1..][1..] == s[2..];
      DropFirst(s[1..]);
      NormHasNoCrLf(s[2..]);
      forall i: nat ensures !CrLfAt(Norm(s), i) {
        if i > 0 { assert !CrLfAt(Norm(s[2..]), i - 1); }
      }
    } else {
      DropFirst(s);
      NormHasNoCrLf(s[1..]);
      if s[0] == '\r' && s[1..] != "" {
        assert !CrCrLfAt(s, 0);
        NormFirst(s[1..]);
      }
      forall i: nat ensures !CrLfAt(Norm(s), i) {
        if i > 0 { assert !CrLfAt(Norm(s[1..]), i - 1); }
      }
    }
  }

  // ----- chunks do not matter without CR CR LF

  lemma {:induction false} UnsplitEndsInSeparator(pieces: seq<string>)
    ensures !EndsWithCr(Unsplit(pieces, "", BLANK))
    ensures pieces != [] ==> Unsplit(pieces, "", BLANK) != ""
  {
    if pieces != [] {
      UnsplitEndsInSeparator(pieces[1..]);
    }
  }

  lemma NormRest(text: string, chunk: string)
    requires NoCrCrLf(text + chunk)
    ensures var n := Norm(text);
      Consumed(n, BLANK) + Norm(Split(n, BLANK).rest + chunk) == Norm(text + chunk)
  {
    var n := Norm(text);
    var used, rest := Consumed(n, BLANK), Split(n, BLANK).rest;
    ConsumedThenRest(n, BLANK);
    forall i: nat ensures !CrCrLfAt(text, i) {
      assert !CrCrLfAt(text + chunk, i);
    }
    NormHasNoCrLf(text);
    forall i: nat ensures !CrLfAt(used, i) {
      assert !CrLfAt(n, i);
    }
    NormOfNormal(used);
    UnsplitEndsInSeparator(Split(n, BLANK).pieces);
    NormAppend(used, rest + chunk);
    Assoc(used, rest, chunk);
    NormAgain(text, chunk);
  }

  lemma FedTwice(text: string, chunk: string)
    requires NoCrCrLf(text + chunk)
    ensures Fed(Fed(START, text), chunk) == Fed(START, text + chunk)
  {
    var n := Norm(text);
    assert "" + text == text && "" + (text + chunk) == text + chunk;
    var x := Norm(Split(n, BLANK).rest + chunk);
    NormRest(text, chunk);
    SplitConsumed(n, x, BLANK);
    assert [] + Split(n, BLANK).pieces == Split(n, BLANK).pieces;
    assert [] + Split(Norm(text + chunk), BLANK).pieces == Split(Norm(text + chunk), BLANK).pieces;
  }

  lemma {:induction false} FedAllAppend(c: Chat, a: seq<string>, b: seq<string>)
    ensures FedAll(c, a + b) == FedAll(FedAll(c, a), b)
    decreases |a|
  {
    if a == [] {
      assert a + b == b;
    } else {
      assert (a + b)[1..] == a[1..] + b;
      FedAllAppend(Fed(c, a[0]), a[1..], b);
    }
  }

  lemma FedAllSnoc(chunks: seq<string>, last: string)
    ensures FedAll(START, chunks + [last]) == Fed(FedAll(START, chunks), last)
    ensures Concat(chunks + [last]) == Concat(chunks) + last
  {
    FedAllAppend(START, chunks, [last]);
    ConcatAppend(chunks, [last]);
    assert [last][1..] == [] && last + "" == last;
    assert FedAll(FedAll(START, chunks), [last]) == Fed(FedAll(START, chunks), last);
  }

  lemma PrefixNoCrCrLf(a: string, b: string)
    requires NoCrCrLf(a + b)
    ensures NoCrCrLf(a)
  {
    forall i: nat ensures !CrCrLfAt(a, i) { assert !CrCrLfAt(a + b, i); }
  }

  lemma {:induction false} ChunksDoNotMatter(chunks: seq<string>)
    requires NoCrCrLf(Concat(chunks))
    ensures FedAll(START, chunks) == Fed(START, Concat(chunks))
    decreases |chunks|
  {
    if chunks == [] {
      assert "" + "" == "" && Norm("") == "" && [] + [] == START.frames;
      FindIsFirst("", BLANK);
    } else {
      var front, last := chunks[..|chunks| - 1], chunks[|chunks| - 1];
      assert chunks == front + [last];
      FedAllSnoc(front, last);
      PrefixNoCrCrLf(Concat(front), last);
      ChunksDoNotMatter(front);
      FedTwice(Concat(front), last);
    }
  }

  // ----- they do with CR CR LF

  /** The characters of everything dispatched and retained, separators included. */
  function Size(c: Chat): nat {
    |Unsplit(c.frames, c.buffer, BLANK)|
  }

  lemma SizeFed(c: Chat, chunk: string)
    ensures Size(Fed(c, chunk)) == |Unsplit(c.frames, "", BLANK)| + |Norm(c.buffer + chunk)|
  {
    var n := Norm(c.buffer + chunk);
    UnsplitAppend(c.frames, Split(n, BLANK).pieces, Split(n, BLANK).rest, BLANK);
    UnsplitSplit(n, BLANK);
    UnsplitRest(c.frames, n, BLANK);
  }

  lemma NormEndsInCrLf(u: string)
    ensures Norm(u + "\r\r\n") == Norm(u) + "\r\n"
  {
    NormAppend(u, "\r\r\n");
    NormCons('\r', "\r\n");
    assert "\r\r\n" == ['\r'] + "\r\n";
    assert Norm("\r\n") == "\n" by { NormCrLf(""); assert "\r\n" + "" == "\r\n"; }
    assert ['\r'] + "\n" == "\r\n";
  }

  lemma RestKeepsCrLf(n: string, front: string)
    requires n == front + "\r\n"
    ensures var r := Split(n, BLANK).rest; |r| >= 2 && r[|r| - 2..] == "\r\n"
  {
    var used, r := Consumed(n, BLANK), Split(n, BLANK).rest;
    ConsumedThenRest(n, BLANK);
    EndsInBlank(Split(n, BLANK).pieces);
    assert n[|n| - 2] == '\r' && n[|n| - 1] == '\n';
    assert |used| >= 2 ==> used[|used| - 2..] == n[|used| - 2..|used|];
    assert |used| >= 2 ==> n[|used| - 2] == '\n' && n[|used| - 1] == '\n';
  }

  lemma {:induction false} EndsInBlank(pieces: seq<string>)
    ensures pieces != [] ==> var u := Unsplit(pieces, "", BLANK); |u| >= 2 && u[|u| - 2..] == BLANK
    ensures pieces == [] ==> Unsplit(pieces, "", BLANK) == ""
  {
    if pieces != [] {
      EndsInBlank(pieces[1..]);
    }
  }

  lemma NormShrinks(r: string, y: string)
    requires |r| >= 2 && r[|r| - 2..] == "\r\n"
    ensures |Norm(r + y)| < |r| + |Norm(y)|
  {
    var r0 := r[..|r| - 2];
    assert r == r0 + "\r\n" && r[|r| - 1] == r[|r| - 2..][1];
    NormAppend(r, y);
    if EndsWithCr(r0) {
      NormAppend(r0, "\r\n");
    } else {
      NormAppend(r0, "\r\n");
    }
    assert Norm("\r\n") == "\n" by { NormCrLf(""); assert "\r\n" + "" == "\r\n"; }
  }

  lemma FedFromStart(x: string)
    ensures Fed(START, x) == Chat(Split(Norm(x), BLANK).rest, Split(Norm(x), BLANK).pieces)
    ensures Size(Fed(START, x)) == |Norm(x)|
  {
    assert "" + x == x && [] + Split(Norm(x), BLANK).pieces == Split(Norm(x), BLANK).pieces;
    SizeFed(START, x);
  }

  lemma TwoChunks(x: string, y: string)
    ensures FedAll(START, [x, y]) == Fed(Fed(START, x), y)
    ensures Concat([x, y]) == x + y
  {
    assert [x, y] == [x] + [y];
    FedAllSnoc([x], y);
    assert [x] == [] + [x];
    FedAllSnoc([], x);
  }

  /** Cutting right after a CR CR LF loses a character that the whole text still has, dispatched or in the buffer. */
  lemma CutAfterCrCrLf(u: string, y: string)
    ensures Size(Fed(Fed(START, u + "\r\r\n"), y)) < Size(Fed(START, u + "\r\r\n" + y))
  {
    var x := u + "\r\r\n";
    var n := Norm(x);
    var c := Fed(START, x);
    FedFromStart(x);
    FedFromStart(x + y);
    SizeFed(c, y);
    NormEndsInCrLf(u);
    RestKeepsCrLf(n, Norm(u));
    NormShrinks(c.buffer, y);
    ConsumedThenRest(n, BLANK);
    NormAppend(x, y);
  }

  /**
   The chat loop ends in the same state, the retained buffer included, under every chunking if and
   only if the stream contains no CR CR LF.
   */
  lemma ChunkingIsIrrelevantIff(text: string)
    ensures (forall chunks: seq<string> :: Concat(chunks) == text ==> FedAll(START, chunks) == Fed(START, text))
      <==> NoCrCrLf(text)
  {
    if NoCrCrLf(text) {
      forall chunks: seq<string> | Concat(chunks) == text ensures FedAll(START, chunks) == Fed(START, text) {
        ChunksDoNotMatter(chunks);
      }
    } else {
      var i: nat :| CrCrLfAt(text, i);
      var u, y := text[..i], text[i + 3..];
      assert text == u + "\r\r\n" + y;
      CutAfterCrCrLf(u, y);
      TwoChunks(u + "\r\r\n", y);
      assert Concat([u + "\r\r\n", y]) == text;
    }
  }

  // ----- the exact condition on the frames alone

  function Before(c: char, cleared: string): string {
    if c == '\r' && StartsWithLf(cleared) then cleared else [c] + cleared
  }

  /** The text without any CR that leads up to an LF: what normalising over and over arrives at. */
  function Cleared(s: string): string {
    if s == "" then "" else Before(s[0], Cleared(s[1..]))
  }

  lemma {:induction false} ClearedAppend(a: string, b: string, c: string)
    requires Cleared(b) == Cleared(c)
    ensures Cleared(a + b) == Cleared(a + c)
  {
    if a == "" {
      assert a + b == b && a + c == c;
    } else {
      ClearedAppend(a[1..], b, c);
      assert (a + b)[1..] == a[1..] + b && (a + c)[1..] == a[1..] + c;
    }
  }

  lemma ClearedCrLf(tail: string)
    ensures Cleared("\r\n" + tail) == "\n" + Cleared(tail) == Cleared("\n" + tail)
  {
    ClearedCons('\n', tail);
    ClearedCons('\r', "\n" + tail);
    assert ['\r'] + ("\n" + tail) == "\r\n" + tail && ['\n'] + tail == "\n" + tail;
  }

  /** Normalising a part early makes no difference to what is left in the end. */
  lemma {:induction false} ClearedOfNorm(s: string, more: string)
    ensures Cleared(Norm(s) + more) == Cleared(s + more)
    decreases |s|, 1
  {
    if s == "" {
    } else if CrLfAt(s, 0) {
      ClearedOfNormCrLf(s, more);
    } else {
      var tail := s[1..];
      ClearedOfNorm(tail, more);
      assert s == [s[0]] + tail;
      Assoc([s[0]], tail, more);
      Assoc([s[0]], Norm(tail), more);
      ClearedCons(s[0], tail + more);
      ClearedCons(s[0], Norm(tail) + more);
    }
  }

  lemma {:induction false} ClearedOfNormCrLf(s: string, more: string)
    requires CrLfAt(s, 0)
    ensures Cleared(Norm(s) + more) == Cleared(s + more)
    decreases |s|, 0
  {
    var tail := s[2..];
    ClearedOfNorm(tail, more);
    assert s == "\r\n" + tail;
    Assoc("\r\n", tail, more);
    Assoc("\n", Norm(tail), more);
    ClearedCrLf(tail + more);
    ClearedCrLf(Norm(tail) + more);
  }

  lemma ClearedCons(c: char, s: string)
    ensures Cleared([c] + s) == Before(c, Cleared(s))
  {
    assert ([c] + s)[1..] == s;
  }

  lemma {:induction false} ClearedHasNoCrLf(s: string)
    ensures NoCrLf(Cleared(s))
  {
    if s != "" {
      ClearedHasNoCrLf(s[1..]);
      var r := Cleared(s[1..]);
      forall i: nat ensures !CrLfAt(Before(s[0], r), i) {
        assert !CrLfAt(r, i);
        if i > 0 { assert !CrLfAt(r, i - 1); }
      }
    }
  }

  predicate EndsLine(s: string) {
    s == "" || s[|s| - 1] == '\n'
  }

  lemma {:induction false} ClearedLines(a: string, b: string)
    requires EndsLine(a)
    ensures Cleared(a + b) == Cleared(a) + Cleared(b)
    ensures EndsLine(Cleared(a)) && (a != "" ==> Cleared(a) != "")
  {
    if a == "" {
      assert a + b == b;
    } else {
      assert (a + b)[1..] == a[1..] + b;
      ClearedLines(a[1..], b);
    }
  }

  // ----- slow enough chunks clear the text

  /** The loop's state once it has split exactly this text. */
  function StateOf(text: string): Chat {
    Chat(Split(text, BLANK).rest, Split(text, BLANK).pieces)
  }

  lemma FedStateOf(v: string, chunk: string)
    requires NoCrLf(Consumed(v, BLANK))
    ensures Fed(StateOf(v), chunk) == StateOf(Norm(v + chunk))
  {
    var used, rest := Consumed(v, BLANK), Split(v, BLANK).rest;
    ConsumedThenRest(v, BLANK);
    NormOfNormal(used);
    UnsplitEndsInSeparator(Split(v, BLANK).pieces);
    NormAppend(used, rest + chunk);
    Assoc(used, rest, chunk);
    SplitConsumed(v, Norm(rest + chunk), BLANK);
  }

  function Strip(s: string): string {
    if EndsWithCr(s) then Strip(s[..|s| - 1]) else s
  }

  lemma {:induction false} StripCons(c: char, s: string)
    ensures Strip([c] + s) == if Strip(s) == "" && c == '\r' then "" else [c] + Strip(s)
    ensures Strip(s) != "" ==> s != "" && Strip(s)[0] == s[0]
    ensures Strip(s) == "" ==> !StartsWithLf(s)
  {
    if EndsWithCr(s) {
      StripCons(c, s[..|s| - 1]);
      assert ([c] + s)[..|s|] == [c] + s[..|s| - 1];
    } else if s == "" {
      assert [c] + s == [c] && [c][..0] == "";
    }
  }

  lemma {:induction false} ClearedSnoc(s: string, c: char)
    ensures Cleared(s + [c]) == if c == '\n' then Strip(Cleared(s)) + "\n" else Cleared(s) + [c]
  {
    if s == "" {
      assert s + [c] == [c] && [c][1..] == "";
    } else {
      var tail := s[1..];
      assert s + [c] == [s[0]] + (tail + [c]);
      ClearedCons(s[0], tail + [c]);
      ClearedSnoc(tail, c);
      BeforeSnoc(s[0], Cleared(tail), c);
    }
  }

  lemma BeforeSnoc(first: char, cleared: string, c: char)
    ensures Before(first, if c == '\n' then Strip(cleared) + "\n" else cleared + [c])
         == if c == '\n' then Strip(Before(first, cleared)) + "\n" else Before(first, cleared) + [c]
  {
    StripCons(first, cleared);
    Assoc([first], Strip(cleared), "\n");
    Assoc([first], cleared, [c]);
  }

  lemma {:induction false} FedAllOne(c: Chat, chunk: string, more: seq<string>)
    ensures FedAll(c, [chunk] + more) == FedAll(Fed(c, chunk), more)
    ensures Concat([chunk] + more) == chunk + Concat(more)
  {
    assert ([chunk] + more)[1..] == more;
  }

  lemma NormLfAfter(w: string, eol: string)
    requires NoCrLf(w) && (eol == "\r\n" || (eol == "\n" && !EndsWithCr(w)))
    ensures Norm(w + eol) == w + "\n"
  {
    NormAppend(w, eol);
    NormOfNormal(w);
    if eol == "\r\n" {
      NormCrLf("");
      assert "\r\n" + "" == "\r\n";
    } else {
      NormCons('\n', "");
      assert ['\n'] + "" == "\n";
    }
  }

  lemma ConsumedLine(w: string)
    requires NoCrLf(w) && EndsWithCr(w)
    ensures NoCrLf(Consumed(w + "\n", BLANK))
  {
    var v := w + "\n";
    var used := Consumed(v, BLANK);
    ConsumedThenRest(v, BLANK);
    EndsInBlank(Split(v, BLANK).pieces);
    assert used == v[..|used|];
    assert used != "" ==> used[|used| - 2] == used[|used| - 2..][0] == '\n';
    assert |used| != |v| by { assert v[|v| - 2] == '\r'; }
    assert used == w[..|used|];
    forall i: nat ensures !CrLfAt(used, i) {
      assert !CrLfAt(w, i);
    }
  }

  lemma ShorterNoCrLf(w: string)
    requires NoCrLf(w) && w != ""
    ensures NoCrLf(w[..|w| - 1])
  {
    var shorter := w[..|w| - 1];
    forall i: nat ensures !CrLfAt(shorter, i) { assert !CrLfAt(w, i); }
  }

  lemma DrainOne(w: string)
    requires NoCrLf(w) && EndsWithCr(w)
    ensures Fed(StateOf(w + "\n"), "") == StateOf(w[..|w| - 1] + "\n")
  {
    var shorter := w[..|w| - 1];
    ShorterNoCrLf(w);
    ConsumedLine(w);
    FedStateOf(w + "\n", "");
    assert w + "\n" + "" == shorter + "\r\n";
    NormLfAfter(shorter, "\r\n");
  }

  /** Empty chunks take the CRs before a last LF away one by one. */
  lemma {:induction false} Drain(w: string) returns (chunks: seq<string>)
    requires NoCrLf(w)
    ensures Concat(chunks) == "" && FedAll(StateOf(w + "\n"), chunks) == StateOf(Strip(w) + "\n")
    decreases |w|
  {
    if !EndsWithCr(w) {
      chunks := [];
    } else {
      var shorter := w[..|w| - 1];
      ShorterNoCrLf(w);
      chunks := Drain(shorter);
      DrainOne(w);
      FedAllOne(StateOf(w + "\n"), "", chunks);
      chunks := [""] + chunks;
    }
  }

  lemma PartNoCrLf(v: string)
    requires NoCrLf(v)
    ensures NoCrLf(Consumed(v, BLANK))
  {
    ConsumedThenRest(v, BLANK);
    forall i: nat ensures !CrLfAt(Consumed(v, BLANK), i) { assert !CrLfAt(v, i); }
  }

  /** One character, and empty chunks until it has had its effect. */
  lemma SlowCharacter(v: string, c: char) returns (chunks: seq<string>)
    requires NoCrLf(v)
    ensures Concat(chunks) == [c]
    ensures FedAll(StateOf(v), chunks) == StateOf(if c == '\n' then Strip(v) + "\n" else v + [c])
  {
    PartNoCrLf(v);
    FedStateOf(v, [c]);
    var more: seq<string>;
    if c == '\n' {
      assert [c] == "\n";
      if EndsWithCr(v) {
        var shorter := v[..|v| - 1];
        ShorterNoCrLf(v);
        assert v + "\n" == shorter + "\r\n";
        NormLfAfter(shorter, "\r\n");
        more := Drain(shorter);
      } else {
        NormLfAfter(v, "\n");
        more := [];
      }
    } else {
      more := [];
      NormAppend(v, [c]);
      NormOfNormal(v);
      assert [c][1..] == "" && Norm([c]) == [c];
    }
    FedAllOne(StateOf(v), [c], more);
    chunks := [[c]] + more;
    assert [c] + "" == [c];
  }

  /** Some chunking of every text makes the loop dispatch what the cleared text holds. */
  lemma {:induction false} SlowChunking(text: string) returns (chunks: seq<string>)
    ensures Concat(chunks) == text && FedAll(START, chunks) == StateOf(Cleared(text))
  {
    if text == "" {
      chunks := [];
      assert Split("", BLANK) == Cut([], "");
    } else {
      var front, c := text[..|text| - 1], text[|text| - 1];
      assert text == front + [c];
      var a := SlowChunking(front);
      ClearedHasNoCrLf(front);
      var b := SlowCharacter(Cleared(front), c);
      ClearedSnoc(front, c);
      FedAllAppend(START, a, b);
      ConcatAppend(a, b);
      chunks := a + b;
    }
  }

  // ----- where clearing changes no frame, no chunking does

  /** The frames are settled: clearing the text further would give the same ones. */
  predicate Settled(text: string) {
    Split(Norm(text), BLANK).pieces == Split(Cleared(text), BLANK).pieces
  }

  function Lfs(s: string): nat {
    if s == "" then 0 else (if s[0] == '\n' then 1 else 0) + Lfs(s[1..])
  }

  lemma {:induction false} LfsAppend(a: string, b: string)
    ensures Lfs(a + b) == Lfs(a) + Lfs(b)
  {
    if a == "" {
      assert a + b == b;
    } else {
      assert (a + b)[1..] == a[1..] + b;
      LfsAppend(a[1..], b);
    }
  }

  lemma {:induction false} LfsKept(s: string)
    ensures Lfs(Norm(s)) == Lfs(s) == Lfs(Cleared(s))
    decreases |s|
  {
    if s != "" {
      LfsKept(s[1..]);
      if CrLfAt(s, 0) {
        LfsKept(s[2..]);
        assert Norm(s)[1..] == Norm(s[2..]) && s[1..][1..] == s[2..];
      }
    }
  }

  lemma LineCounts(d: string)
    requires d != "" && EndsLine(d)
    ensures Lfs(d) > 0
  {
    var front := d[..|d| - 1];
    assert d == front + "\n" && "\n"[1..] == "";
    LfsAppend(front, "\n");
  }

  lemma PrefixesAgree<T>(a: seq<T>, b: seq<T>, x: seq<T>, y: seq<T>)
    requires a + x == b + y && |a| <= |b|
    ensures b == a + b[|a|..]
  {
    assert (a + x)[..|a|] == a && (b + y)[..|a|] == b[..|a|];
  }

  /** Two beginnings of one text with equally many lines, both complete, are the same. */
  lemma SameLines(a: string, b: string, x: string, y: string)
    requires a + x == b + y && EndsLine(a) && EndsLine(b) && Lfs(a) == Lfs(b) && |a| <= |b|
    ensures a == b
  {
    PrefixesAgree(a, b, x, y);
    NoMoreLines(a, b[|a|..]);
  }

  lemma NoMoreLines(a: string, d: string)
    requires EndsLine(a + d) && Lfs(a + d) == Lfs(a)
    ensures d == ""
  {
    LfsAppend(a, d);
    if d != "" {
      assert d[|d| - 1] == (a + d)[|a + d| - 1];
      LineCounts(d);
    }
  }

  /** Of a text that starts with CR LF, or with anything else, the first character and the rest of its normal form. */
  lemma NormSteps(text: string, skip: nat, a: string)
    requires text != "" && skip == (if CrLfAt(text, 0) then 2 else 1) && a <= text[skip..]
    ensures Norm(text) != "" && Norm(text)[1..] == Norm(text[skip..])
    ensures Norm(text[..skip] + a) == [Norm(text)[0]] + Norm(a)
    ensures text[skip - 1] == Norm(text)[0]
  {
    if skip == 2 {
      assert text[..2] == "\r\n";
      NormCrLf(a);
    } else {
      assert text[..1] == [text[0]];
      assert a != "" ==> a[0] == text[1..][0];
      NormCons(text[0], a);
    }
  }

  lemma Rejoin<T>(s: seq<T>, k: nat, a: seq<T>, b: seq<T>)
    requires k <= |s| && s[k..] == a + b
    ensures s == (s[..k] + a) + b
  {
    assert s == s[..k] + s[k..];
  }

  /** A beginning of the normalised text that ends a line is the normalised form of a beginning of the text. */
  lemma {:induction false} NormPrefix(text: string, u: string, r: string) returns (a: string, b: string)
    requires Norm(text) == u + r && EndsLine(u)
    ensures text == a + b && Norm(a) == u && Norm(b) == r && EndsLine(a)
    decreases |text|
  {
    if u == "" {
      a, b := "", text;
      assert u + r == r;
    } else {
      var skip := if CrLfAt(text, 0) then 2 else 1;
      NormSteps(text, skip, "");
      var tail := text[skip..];
      assert Norm(tail) == u[1..] + r by { assert (u + r)[1..] == u[1..] + r; }
      a, b := NormPrefix(tail, u[1..], r);
      NormSteps(text, skip, a);
      assert Norm(text[..skip] + a) == u by { assert u == [u[0]] + u[1..]; }
      Rejoin(text, skip, a, b);
      a := text[..skip] + a;
    }
  }

  lemma CrCrLfLeavesCrLf(a: string, i: nat) returns (k: nat)
    requires CrCrLfAt(a, i)
    ensures CrLfAt(Norm(a), k)
  {
    var u, y := a[..i], a[i + 3..];
    assert a == (u + "\r\r\n") + y;
    NormEndsInCrLf(u);
    NormAppend(u + "\r\r\n", y);
    k := |Norm(u)|;
  }

  lemma ClearNormMeansNone(a: string)
    requires NoCrLf(Norm(a))
    ensures NoCrCrLf(a)
  {
    forall i: nat ensures !CrCrLfAt(a, i) {
      if CrCrLfAt(a, i) {
        var k := CrCrLfLeavesCrLf(a, i);
      }
    }
  }

  lemma SplitOfConsumed(n: string)
    ensures Split(Consumed(n, BLANK), BLANK) == Cut(Split(n, BLANK).pieces, "")
  {
    SplitConsumed(n, "", BLANK);
    assert Consumed(n, BLANK) + "" == Consumed(n, BLANK);
    assert Split("", BLANK) == Cut([], "");
    assert Split(n, BLANK).pieces + [] == Split(n, BLANK).pieces;
  }

  lemma ConsumedEndsLine(n: string)
    ensures EndsLine(Consumed(n, BLANK))
  {
    EndsInBlank(Split(n, BLANK).pieces);
    var u := Consumed(n, BLANK);
    assert u != "" ==> u[|u| - 1] == u[|u| - 2..][1];
  }

  /** A settled text is one without CR CR LF that holds the frames, and one that can never yield any. */
  lemma SettledParts(text: string) returns (a: string, b: string)
    requires Settled(text)
    ensures text == a + b && EndsLine(a) && NoCrCrLf(a) && Absent(Cleared(b), BLANK)
    ensures Split(Norm(a), BLANK) == Cut(Split(Norm(text), BLANK).pieces, "")
  {
    var n, c := Norm(text), Cleared(text);
    var u, r := Consumed(n, BLANK), Split(n, BLANK).rest;
    ConsumedThenRest(n, BLANK);
    ConsumedThenRest(c, BLANK);
    ConsumedEndsLine(n);
    a, b := NormPrefix(text, u, r);
    ClearedLines(a, b);
    LfsKept(a);
    assert Cleared(a) == u by {
      assert Cleared(a) + Cleared(b) == u + Split(c, BLANK).rest;
      if |u| <= |Cleared(a)| {
        SameLines(u, Cleared(a), Split(c, BLANK).rest, Cleared(b));
      } else {
        SameLines(Cleared(a), u, Cleared(b), Split(c, BLANK).rest);
      }
    }
    ClearedHasNoCrLf(a);
    ClearNormMeansNone(a);
    SplitOfConsumed(n);
    assert Cleared(b) == Split(c, BLANK).rest by {
      assert (Cleared(a) + Cleared(b))[|u|..] == Cleared(b);
      assert (u + Split(c, BLANK).rest)[|u|..] == Split(c, BLANK).rest;
    }
    RestHasNoSeparator(c, BLANK);
  }

  /** A blank line in a buffer is one in whatever the cleared text becomes. */
  lemma {:induction false} BlankStays(x: string, y: string, i: nat) returns (k: nat)
    requires At(x, BLANK, i)
    ensures At(Cleared(x + y), BLANK, k)
    decreases |x|
  {
    var tail := x[1..] + y;
    assert x + y == [x[0]] + tail;
    ClearedCons(x[0], tail);
    if i == 0 {
      assert x[0..2][0] == '\n' && x[0..2][1] == '\n';
      assert tail == ['\n'] + tail[1..];
      ClearedCons('\n', tail[1..]);
      assert Cleared(x + y)[0..2] == BLANK;
      k := 0;
    } else {
      assert x[1..][i - 1..i + 1] == x[i..i + 2];
      k := BlankStays(x[1..], y, i - 1);
      if !(x[0] == '\r' && StartsWithLf(Cleared(tail))) {
        assert Cleared(x + y)[k + 1..k + 3] == Cleared(tail)[k..k + 2];
        k := k + 1;
      }
    }
  }

  lemma {:induction false} NoFrames(c: Chat, chunks: seq<string>)
    requires Absent(Cleared(c.buffer + Concat(chunks)), BLANK)
    ensures FedAll(c, chunks).frames == c.frames
    decreases |chunks|
  {
    if chunks != [] {
      var n, more := Norm(c.buffer + chunks[0]), Concat(chunks[1..]);
      Assoc(c.buffer, chunks[0], more);
      ClearedOfNorm(c.buffer + chunks[0], more);
      FindIsFirst(n, BLANK);
      if Find(n, BLANK).Some? {
        var k := BlankStays(n, more, Find(n, BLANK).value);
      }
      assert Split(n, BLANK) == Cut([], n);
      assert c.frames + [] == c.frames;
      NoFrames(Fed(c, chunks[0]), chunks[1..]);
    }
  }

  /** Where a text is cut in two, so is one of its chunks. */
  lemma {:induction false} ChunkAt(chunks: seq<string>, n: nat)
      returns (front: seq<string>, x: string, y: string, back: seq<string>)
    requires 0 < n <= |Concat(chunks)|
    ensures chunks == front + [x + y] + back && x != ""
    ensures Concat(front) + x == Concat(chunks)[..n] && y + Concat(back) == Concat(chunks)[n..]
  {
    var first, more := chunks[0], Concat(chunks[1..]);
    if n <= |first| {
      front, x, y, back := [], first[..n], first[n..], chunks[1..];
      assert first == x + y;
      Assoc(x, y, more);
    } else {
      front, x, y, back := ChunkAt(chunks[1..], n - |first|);
      assert chunks == [first] + chunks[1..];
      Assoc(first, Concat(front), x);
      SliceAppend(first, more, |first|);
      assert (first + more)[..n] == first + more[..n - |first|];
      assert (first + more)[n..] == more[n - |first|..];
      assert ([first] + front)[1..] == front;
      front := [first] + front;
    }
  }

  /** A chunk that completes the buffer's line can be cut there. */
  lemma CutAtLine(c: Chat, x: string, y: string)
    requires x != "" && EndsLine(x) && Fed(c, x).buffer == ""
    ensures Fed(c, x + y) == Fed(Fed(c, x), y)
  {
    var n := Norm(c.buffer + x);
    Assoc(c.buffer, x, y);
    assert (c.buffer + x)[|c.buffer + x| - 1] == '\n';
    NormAppend(c.buffer + x, y);
    SplitAppend(n, Norm(y), BLANK);
    assert "" + y == y && "" + Norm(y) == Norm(y);
    Assoc(c.frames, Split(n, BLANK).pieces, Split(Norm(y), BLANK).pieces);
  }

  lemma FedLine(front: seq<string>, x: string, a: string)
    requires Concat(front) + x == a && x != "" && EndsLine(a) && NoCrCrLf(a) && Split(Norm(a), BLANK).rest == ""
    ensures EndsLine(x) && Fed(FedAll(START, front), x) == Chat("", Split(Norm(a), BLANK).pieces)
  {
    FedAllSnoc(front, x);
    ChunksDoNotMatter(front + [x]);
    FedFromStart(a);
    assert x[|x| - 1] == a[|a| - 1];
  }

  lemma CutThenFed(front: seq<string>, x: string, y: string, back: seq<string>)
    requires x != "" && EndsLine(x) && Fed(FedAll(START, front), x).buffer == ""
    ensures FedAll(START, front + [x + y] + back) == FedAll(Fed(FedAll(START, front), x), [y] + back)
  {
    var c := FedAll(START, front);
    CutAtLine(c, x, y);
    FedAllOne(Fed(c, x), y, back);
    FedAllOne(c, x + y, back);
    FedAllAppend(START, front, [x + y] + back);
    Assoc(front, [x + y], back);
  }

  /** The frames of a settled text come out of every chunking. */
  lemma SettledFrames(chunks: seq<string>)
    requires Settled(Concat(chunks))
    ensures FedAll(START, chunks).frames == Split(Norm(Concat(chunks)), BLANK).pieces
  {
    var text := Concat(chunks);
    var a, b := SettledParts(text);
    if a == "" {
      assert a + b == b && START.buffer + text == text;
      assert Split(Norm(a), BLANK).pieces == [] by { assert Split("", BLANK) == Cut([], ""); }
      NoFrames(START, chunks);
    } else {
      var front, x, y, back := ChunkAt(chunks, |a|);
      SliceAppend(a, b, |a|);
      FedLine(front, x, a);
      CutThenFed(front, x, y, back);
      FedAllOne(Fed(FedAll(START, front), x), y, back);
      assert "" + (y + Concat(back)) == b;
      NoFrames(Fed(FedAll(START, front), x), [y] + back);
    }
  }

  /**
   The chat loop dispatches the same frames under every chunking if and only if clearing the text of the
   CRs before its LFs changes none of the frames that one normalisation gives. Chunks may decode to nothing,
   as one that ends inside a character does, and clear a CR all the same; of the chunkings without such
   chunks only the "if" is claimed.
   */
  lemma FramesIff(text: string)
    ensures (forall chunks: seq<string> :: Concat(chunks) == text ==>
               FedAll(START, chunks).frames == Split(Norm(text), BLANK).pieces)
      <==> Settled(text)
  {
    if Settled(text) {
      forall chunks: seq<string> | Concat(chunks) == text
        ensures FedAll(START, chunks).frames == Split(Norm(text), BLANK).pieces
      {
        SettledFrames(chunks);
      }
    } else {
      var slow := SlowChunking(text);
      assert FedAll(START, slow).frames != Split(Norm(text), BLANK).pieces;
    }
  }

  /** Where nothing was normalised before it, the last chunk has the effect of the whole text. */
  lemma LateCrLf(front: seq<string>, last: string)
    requires NoCrLf(Concat(front))
    ensures FedAll(START, front + [last]) == StateOf(Norm(Concat(front) + last))
  {
    var p := Concat(front);
    FedAllSnoc(front, last);
    forall i: nat ensures !CrCrLfAt(p, i) { assert !CrLfAt(p, i + 1); }
    ChunksDoNotMatter(front);
    FedFromStart(p);
    NormOfNormal(p);
    PartNoCrLf(p);
    FedStateOf(p, last);
  }

  /** So LF CR CR LF, though not settled, gives no frame under any chunking whose last chunk is not empty. */
  lemma EmptyChunksMatter(front: seq<string>, last: string)
    requires Concat(front) + last == "\n\r\r\n" && last != ""
    ensures FedAll(START, front + [last]).frames == [] && !Settled("\n\r\r\n")
  {
    var p := Concat(front);
    assert forall k :: 0 <= k < |p| ==> p[k] == "\n\r\r\n"[k];
    forall i: nat ensures !CrLfAt(p, i) {}
    LateCrLf(front, last);
    OneNormalisation();
    FullClearing();
  }

  lemma OneNormalisation()
    ensures Norm("\n\r\r\n") == "\n\r\n" && StateOf("\n\r\n").frames == []
  {
    NormEndsInCrLf("\n");
    NormOfNormal("\n");
    assert "\n" + "\r\r\n" == "\n\r\r\n" && "\n" + "\r\n" == "\n\r\n";
    NoBlankIn("\n\r\n");
  }

  lemma FullClearing()
    ensures Cleared("\n\r\r\n") == BLANK && Split(BLANK, BLANK).pieces == [""]
  {
    var front, w := "\n\r\r", "\n\r";
    forall i: nat ensures !CrLfAt(front, i) {}
    NormalIsCleared(front);
    ClearedSnoc(front, '\n');
    assert front + ['\n'] == "\n\r\r\n";
    assert front[..2] == w && w[..1] == "\n";
    assert Strip(w) == "\n" && Strip(front) == "\n";
    assert BLANK[0..2] == BLANK;
    SplitAt(BLANK, BLANK, 0);
  }

  lemma NoBlankIn(n: string)
    requires n == "\n\r\n"
    ensures Split(n, BLANK) == Cut([], n)
  {
    FindIsFirst(n, BLANK);
    forall i: nat ensures !At(n, BLANK, i) {
      if i + 2 <= |n| { assert n[i..i + 2][0] == n[i] && n[i..i + 2][1] == n[i + 1]; }
    }
  }

  lemma {:induction false} NormalIsCleared(s: string)
    requires NoCrLf(s)
    ensures Cleared(s) == s
  {
    if s != "" {
      forall i: nat ensures !CrLfAt(s[1..], i) { assert !CrLfAt(s, i + 1); }
      NormalIsCleared(s[1..]);
      assert !CrLfAt(s, 0);
    }
  }

  /** A text without CR CR LF is settled. */
  lemma NoCrCrLfIsSettled(text: string)
    requires NoCrCrLf(text)
    ensures Settled(text)
  {
    var slow := SlowChunking(text);
    ChunksDoNotMatter(slow);
    FedFromStart(text);
  }

  // ----- what a frame carries

  function DataOf(lines: seq<string>): seq<string> {
    if lines == [] then []
    else if "data:" <= lines[0] then
      [if 5 < |lines[0]| && lines[0][5] == ' ' then lines[0][6..] else lines[0][5..]] + DataOf(lines[1..])
    else DataOf(lines[1..])
  }

  /** A `data:` line gives what follows, less one space; any other line gives nothing. */
  lemma DataOfLine(line: string, value: string, more: seq<string>)
    ensures line == "data: " + value ==> DataOf([line] + more) == [value] + DataOf(more)
    ensures line == "data:" + value && !(value != "" && value[0] == ' ') ==>
      DataOf([line] + more) == [value] + DataOf(more)
    ensures !("data:" <= line) ==> DataOf([line] + more) == DataOf(more)
  {
    assert ([line] + more)[1..] == more;
    if line == "data: " + value { assert line[6..] == value && line[..5] == "data:"; }
    if line == "data:" + value { assert line[5..] == value && line[..5] == "data:"; }
  }

  /** A frame without a data line, such as a keepalive, has no payload; one with data lines has them joined. */
  lemma PayloadIff(frame: string)
    ensures Payload(frame).None? <==> forall k :: 0 <= k < |AllLines(frame)| ==> !("data:" <= AllLines(frame)[k])
    ensures Payload(frame).Some? ==> Payload(frame).value == Join(DataOf(AllLines(frame)))
  {
    DataIff(AllLines(frame));
  }

  lemma {:induction false} DataIff(lines: seq<string>)
    ensures DataOf(lines) == [] <==> forall k :: 0 <= k < |lines| ==> !("data:" <= lines[k])
  {
    if lines != [] {
      DataIff(lines[1..]);
      assert forall k :: 1 <= k < |lines| ==> lines[k] == lines[1..][k - 1];
    }
  }

  /** The joined data lines of a frame, or `None` for one that has none, such as a keepalive. */
  function Payload(frame: string): Option<string> {
    var data := DataOf(AllLines(frame));
    if data == [] then None else Some(Join(data))
  }

  function Payloads(frames: seq<string>): seq<string> {
    if frames == [] then []
    else (if Payload(frames[0]).Some? then [Payload(frames[0]).value] else []) + Payloads(frames[1..])
  }

  /** `decode` stands for `JSON.parse`; a payload it rejects is dropped. */
  function Events<E>(frames: seq<string>, decode: string -> Option<E>): seq<E> {
    if frames == [] then []
    else (if Payload(frames[0]).Some? && decode(Payload(frames[0]).value).Some?
          then [decode(Payload(frames[0]).value).value] else [])
         + Events(frames[1..], decode)
  }

  /** The payloads that parse, in order. */
  function Decoded<E>(payloads: seq<string>, decode: string -> Option<E>): seq<E> {
    if payloads == [] then []
    else (if decode(payloads[0]).Some? then [decode(payloads[0]).value] else []) + Decoded(payloads[1..], decode)
  }

  /** What is yielded is what the frames' payloads parse to. */
  lemma {:induction false} EventsArePayloads<E>(frames: seq<string>, decode: string -> Option<E>)
    ensures Events(frames, decode) == Decoded(Payloads(frames), decode)
  {
    if frames != [] {
      EventsArePayloads(frames[1..], decode);
      var first := Payload(frames[0]);
      if first.Some? {
        assert Payloads(frames)[0] == first.value && Payloads(frames)[1..] == Payloads(frames[1..]);
      } else {
        assert Payloads(frames) == Payloads(frames[1..]);
      }
    }
  }

  // ----- printing and reading back

  function DataLines(lines: seq<string>): seq<string> {
    if lines == [] then [] else ["data: " + lines[0]] + DataLines(lines[1..])
  }

  function Terminated(lines: seq<string>, eol: string): string {
    if lines == [] then "" else lines[0] + eol + Terminated(lines[1..], eol)
  }

  /** One frame a payload, every line ended by `eol`. */
  function Printed(payloads: seq<string>, eol: string): string {
    if payloads == [] then ""
    else Terminated(DataLines(AllLines(payloads[0])), eol) + eol + Printed(payloads[1..], eol)
  }

  predicate NoCr(s: string) {
    '\r' !in s
  }

  ghost predicate CrOnlyBeforeLf(s: string) {
    forall i :: 0 <= i < |s| && s[i] == '\r' ==> i + 1 < |s| && s[i + 1] == '\n'
  }

  lemma NormLine(line: string, more: string)
    requires NoCr(line)
    ensures Norm(line + "\r\n" + more) == line + "\n" + Norm(more)
  {
    Assoc(line, "\r\n", more);
    NormAppend(line, "\r\n" + more);
    NormOfNormal(line);
    NormCrLf(more);
    Assoc(line, "\n", Norm(more));
  }

  lemma CrLine(line: string, more: string)
    requires NoCr(line) && CrOnlyBeforeLf(more)
    ensures CrOnlyBeforeLf(line + "\r\n" + more)
  {
    var s := line + "\r\n" + more;
    forall i | 0 <= i < |s| && s[i] == '\r' ensures i + 1 < |s| && s[i + 1] == '\n' {
      if i >= |line| + 2 { assert s[i] == more[i - |line| - 2]; }
    }
  }

  lemma {:induction false} NormTerminated(lines: seq<string>, more: string)
    requires forall k :: 0 <= k < |lines| ==> NoCr(lines[k])
    ensures Norm(Terminated(lines, "\r\n") + more) == Terminated(lines, "\n") + Norm(more)
  {
    if lines == [] {
      assert "" + more == more && "" + Norm(more) == Norm(more);
    } else {
      NormTerminated(lines[1..], more);
      NormLine(lines[0], Terminated(lines[1..], "\r\n") + more);
      Assoc(lines[0] + "\r\n", Terminated(lines[1..], "\r\n"), more);
      Assoc(lines[0] + "\n", Terminated(lines[1..], "\n"), Norm(more));
    }
  }

  lemma {:induction false} CrTerminated(lines: seq<string>, more: string)
    requires (forall k :: 0 <= k < |lines| ==> NoCr(lines[k])) && CrOnlyBeforeLf(more)
    ensures CrOnlyBeforeLf(Terminated(lines, "\r\n") + more)
  {
    if lines == [] {
      assert "" + more == more;
    } else {
      CrTerminated(lines[1..], more);
      CrLine(lines[0], Terminated(lines[1..], "\r\n") + more);
      Assoc(lines[0] + "\r\n", Terminated(lines[1..], "\r\n"), more);
    }
  }

  lemma {:induction false} DataLinesClean(lines: seq<string>)
    requires forall k :: 0 <= k < |lines| ==> NoCr(lines[k]) && NoLf(lines[k])
    ensures var d := DataLines(lines);
      && |d| == |lines|
      && forall k :: 0 <= k < |d| ==> NoCr(d[k]) && NoLf(d[k]) && "data: " <= d[k]
  {
    if lines != [] {
      DataLinesClean(lines[1..]);
    }
  }

  lemma {:induction false} LinesOfNoCr(s: string)
    requires NoCr(s)
    ensures forall k :: 0 <= k < |AllLines(s)| ==> NoCr(AllLines(s)[k])
    decreases |s|
  {
    match Find(s, "\n")
    case None =>
    case Some(i) =>
      LinesOfNoCr(s[i + 1..]);
      assert AllLines(s) == [s[..i]] + AllLines(s[i + 1..]);
  }

  lemma PayloadLinesClean(payload: string)
    requires NoCr(payload)
    ensures var d := DataLines(AllLines(payload));
      && d != []
      && forall k :: 0 <= k < |d| ==> NoCr(d[k]) && NoLf(d[k]) && "data: " <= d[k]
  {
    LinesOfNoCr(payload);
    SplitLinesHaveNoLf(payload);
    DataLinesClean(AllLines(payload));
  }

  lemma {:induction false} NormPrinted(payloads: seq<string>)
    requires forall k :: 0 <= k < |payloads| ==> NoCr(payloads[k])
    ensures Norm(Printed(payloads, "\r\n")) == Printed(payloads, "\n")
    ensures CrOnlyBeforeLf(Printed(payloads, "\r\n"))
  {
    if payloads != [] {
      var d := DataLines(AllLines(payloads[0]));
      var more := Printed(payloads[1..], "\r\n");
      NormPrinted(payloads[1..]);
      PayloadLinesClean(payloads[0]);
      NormLine("", more);
      assert "" + "\r\n" + more == "\r\n" + more && "" + "\n" + Norm(more) == "\n" + Norm(more);
      NormTerminated(d, "\r\n" + more);
      CrLine("", more);
      CrTerminated(d, "\r\n" + more);
      Assoc(Terminated(d, "\r\n"), "\r\n", more);
      Assoc(Terminated(d, "\n"), "\n", Norm(more));
    }
  }

  lemma {:induction false} TerminatedIsUnlines(lines: seq<string>)
    ensures Terminated(lines, "\n") == Unlines(lines)
  {
    if lines != [] {
      TerminatedIsUnlines(lines[1..]);
    }
  }

  /** No blank line inside, none made by what surrounds it. */
  ghost predicate Solid(s: string) {
    s != "" && s[0] != '\n' && forall j :: 0 <= j < |s| && s[j] == '\n' ==> j + 1 < |s| && s[j + 1] != '\n'
  }

  lemma {:induction false} JoinSolid(lines: seq<string>)
    requires lines != [] && forall k :: 0 <= k < |lines| ==> NoLf(lines[k]) && lines[k] != ""
    ensures Solid(Join(lines))
  {
    if |lines| > 1 {
      JoinSolid(lines[1..]);
      var rest := Join(lines[1..]);
      var s := lines[0] + "\n" + rest;
      forall j | 0 <= j < |s| && s[j] == '\n' ensures j + 1 < |s| && s[j + 1] != '\n' {
        if j > |lines[0]| { assert s[j] == rest[j - |lines[0]| - 1]; }
      }
    }
  }

  lemma SolidSplit(frame: string, more: string)
    requires Solid(frame)
    ensures Split(frame + BLANK + more, BLANK) == Cut([frame] + Split(more, BLANK).pieces, Split(more, BLANK).rest)
  {
    forall j: nat | j < |frame| ensures !At(frame + BLANK, BLANK, j) {
      if j + 1 < |frame| {
        assert (frame + BLANK)[j..j + 2] == [frame[j], frame[j + 1]];
      } else {
        assert (frame + BLANK)[j..j + 2][0] == frame[j];
      }
    }
    SplitCons(frame, more, BLANK);
  }

  lemma {:induction false} DataOfDataLines(lines: seq<string>)
    ensures DataOf(DataLines(lines)) == lines
  {
    if lines != [] {
      DataOfDataLines(lines[1..]);
      assert ("data: " + lines[0])[6..] == lines[0];
      assert DataLines(lines)[1..] == DataLines(lines[1..]);
    }
  }

  lemma PayloadOfFrame(payload: string)
    requires NoCr(payload)
    ensures Payload(Join(DataLines(AllLines(payload)))) == Some(payload)
  {
    PayloadLinesClean(payload);
    AllLinesJoin(DataLines(AllLines(payload)));
    DataOfDataLines(AllLines(payload));
    JoinAllLines(payload);
  }

  lemma PrintedIsFrame(payload: string, more: string)
    requires NoCr(payload)
    ensures var frame := Join(DataLines(AllLines(payload)));
      && Terminated(DataLines(AllLines(payload)), "\n") + "\n" + more == frame + BLANK + more
      && Solid(frame)
  {
    var d := DataLines(AllLines(payload));
    PayloadLinesClean(payload);
    TerminatedIsUnlines(d);
    JoinIsUnlines(d);
    JoinSolid(d);
  }

  lemma PayloadsCons(frame: string, payload: string, frames: seq<string>)
    requires Payload(frame) == Some(payload)
    ensures Payloads([frame] + frames) == [payload] + Payloads(frames)
  {
    assert ([frame] + frames)[1..] == frames;
  }

  lemma {:induction false} FramesOfPrinted(payloads: seq<string>)
    requires forall k :: 0 <= k < |payloads| ==> NoCr(payloads[k])
    ensures Payloads(Split(Printed(payloads, "\n"), BLANK).pieces) == payloads
  {
    if payloads == [] {
      FindIsFirst("", BLANK);
    } else {
      var frame := Join(DataLines(AllLines(payloads[0])));
      var more := Printed(payloads[1..], "\n");
      FramesOfPrinted(payloads[1..]);
      PrintedIsFrame(payloads[0], more);
      SolidSplit(frame, more);
      PayloadOfFrame(payloads[0]);
      PayloadsCons(frame, payloads[0], Split(more, BLANK).pieces);
    }
  }

  lemma CrBeforeLfIsEnough(s: string)
    requires CrOnlyBeforeLf(s)
    ensures NoCrCrLf(s)
  {
    forall i: nat ensures !CrCrLfAt(s, i) {}
  }

  lemma {:induction false} PrintedNoCr(payloads: seq<string>)
    requires forall k :: 0 <= k < |payloads| ==> NoCr(payloads[k])
    ensures NoCr(Printed(payloads, "\n"))
  {
    if payloads != [] {
      PrintedNoCr(payloads[1..]);
      PayloadLinesClean(payloads[0]);
      TerminatedNoCr(DataLines(AllLines(payloads[0])));
    }
  }

  lemma {:induction false} TerminatedNoCr(lines: seq<string>)
    requires forall k :: 0 <= k < |lines| ==> NoCr(lines[k])
    ensures NoCr(Terminated(lines, "\n"))
  {
    if lines != [] {
      TerminatedNoCr(lines[1..]);
    }
  }

  /** Payloads printed with either line ending come back whole, wherever the text is cut. */
  lemma RoundTrip(payloads: seq<string>, eol: string, chunks: seq<string>)
    requires forall k :: 0 <= k < |payloads| ==> NoCr(payloads[k])
    requires eol == "\n" || eol == "\r\n"
    requires Concat(chunks) == Printed(payloads, eol)
    ensures Payloads(FedAll(START, chunks).frames) == payloads
  {
    var text := Printed(payloads, eol);
    if eol == "\n" {
      PrintedNoCr(payloads);
      NormOfNormal(text);
    } else {
      NormPrinted(payloads);
      CrBeforeLfIsEnough(text);
    }
    ChunksDoNotMatter(chunks);
    FedFromStart(text);
    FramesOfPrinted(payloads);
  }

  // ----- a cut that changes what the consumer sees

  lemma DataFrame(a: string)
    requires NoLf(a)
    ensures Payload("data: " + a) == Some(a) && Solid("data: " + a)
  {
    var frame := "data: " + a;
    assert Join([frame]) == frame;
    AllLinesJoin([frame]);
    assert frame[6..] == a && DataOf([frame]) == [a] + DataOf([frame][1..]);
  }

  /** A line of nothing but a CR neither ends a frame nor adds to its data. */
  lemma CrLineInside(a: string, b: string)
    requires NoLf(a) && NoLf(b)
    ensures var frame := "data: " + a + "\n\r\n" + ("data: " + b);
      Solid(frame) && Payload(frame) == Some(a + "\n" + b)
  {
    var x, y := "data: " + a, "data: " + b;
    var lines := [x, "\r", y];
    assert lines[1..] == ["\r", y] && ["\r", y][1..] == [y];
    assert Join(["\r", y]) == "\r\n" + y;
    assert Join(lines) == x + "\n\r\n" + y;
    JoinSolid(lines);
    AllLinesJoin(lines);
    assert x[6..] == a && y[6..] == b;
    assert DataOf([y]) == [b] + DataOf([y][1..]) && DataOf(["\r", y]) == DataOf([y]);
    assert DataOf(lines) == [a] + [b];
    assert [a, b][1..] == [b] && Join([a, b]) == a + "\n" + b;
  }

  lemma CrLineWaits(x: string)
    requires NoLf(x) && NoCr(x)
    ensures Norm(x + "\n\r\r\n") == x + "\n\r\n"
    ensures Fed(START, x + "\n\r\r\n") == Chat(x + "\n\r\n", [])
  {
    var u, n := x + "\n", x + "\n\r\n";
    assert u + "\r\r\n" == x + "\n\r\r\n" && u + "\r\n" == n;
    NormOfNormal(u);
    NormEndsInCrLf(u);
    FindIsFirst(n, BLANK);
    forall i: nat ensures !At(n, BLANK, i) {
      if i + 2 <= |n| { assert n[i..i + 2][0] == n[i] && n[i..i + 2][1] == n[i + 1]; }
    }
    assert Split(n, BLANK) == Cut([], n);
    FedFromStart(u + "\r\r\n");
  }

  lemma TwoFrames(x: string, y: string)
    requires Solid(x) && Solid(y)
    ensures Split(x + BLANK + (y + BLANK), BLANK) == Cut([x, y], "")
  {
    assert Split("", BLANK) == Cut([], "");
    assert y + BLANK + "" == y + BLANK;
    SolidSplit(y, "");
    SolidSplit(x, y + BLANK);
    assert [x] + ([y] + []) == [x, y];
  }

  lemma FedInTwo(fa: string, fb: string)
    requires NoLf(fa) && NoCr(fa) && NoCr(fb) && Solid(fa) && Solid(fb)
    ensures FedAll(START, [fa + "\n\r\r\n", fb + BLANK]) == Chat("", [fa, fb])
  {
    var y := fb + BLANK;
    TwoChunks(fa + "\n\r\r\n", y);
    CrLineWaits(fa);
    assert fa + "\n\r\n" + y == (fa + "\n") + "\r\n" + y;
    NormLine(fa + "\n", y);
    NormOfNormal(y);
    assert (fa + "\n") + "\n" + y == fa + BLANK + y;
    TwoFrames(fa, fb);
  }

  lemma FedAtOnce(fa: string, fb: string)
    requires NoLf(fa) && NoCr(fa) && NoCr(fb) && Solid(fa + "\n\r\n" + fb)
    ensures FedAll(START, [fa + "\n\r\r\n" + (fb + BLANK)]) == Chat("", [fa + "\n\r\n" + fb])
  {
    var x, y := fa + "\n\r\r\n", fb + BLANK;
    var frame := fa + "\n\r\n" + fb;
    OneChunk(x + y);
    FedFromStart(x + y);
    NormAppend(x, y);
    CrLineWaits(fa);
    NormOfNormal(y);
    assert fa + "\n\r\n" + y == frame + BLANK + "";
    SolidSplit(frame, "");
    assert Split("", BLANK) == Cut([], "");
  }

  lemma PayloadsOfTwo(fa: string, fb: string, a: string, b: string)
    requires Payload(fa) == Some(a) && Payload(fb) == Some(b)
    ensures Payloads([fa, fb]) == [a, b] && Payloads([fa]) == [a]
  {
    PayloadsCons(fa, a, [fb]);
    PayloadsCons(fb, b, []);
    PayloadsCons(fa, a, []);
    assert [fa] + [fb] == [fa, fb] && [fb] + [] == [fb] && [fa] + [] == [fa];
  }

  /**
   Two `data:` lines with a CR CR LF after the first: cut behind it the loop gives two events, whole it
   gives one. Such a text is not settled.
   */
  lemma CutChangesPayloads(a: string, b: string)
    requires NoLf(a) && NoCr(a) && NoLf(b) && NoCr(b)
    ensures var x, y := "data: " + a + "\n\r\r\n", "data: " + b + BLANK;
      && Payloads(FedAll(START, [x, y]).frames) == [a, b]
      && Payloads(FedAll(START, [x + y]).frames) == [a + "\n" + b]
      && !Settled(x + y)
  {
    var fa, fb := "data: " + a, "data: " + b;
    var x, y := fa + "\n\r\r\n", fb + BLANK;
    var frame := fa + "\n\r\n" + fb;
    DataFrame(a);
    DataFrame(b);
    CrLineInside(a, b);
    FedInTwo(fa, fb);
    FedAtOnce(fa, fb);
    PayloadsOfTwo(fa, fb, a, b);
    PayloadsOfTwo(frame, frame, a + "\n" + b, a + "\n" + b);
    NotSettled(x, y);
  }

  lemma OneChunk(x: string)
    ensures Concat([x]) == x && FedAll(START, [x]) == Fed(START, x)
  {
    FedAllOne(START, x, []);
    assert [x] + [] == [x] && x + "" == x;
  }

  lemma NotSettled(x: string, y: string)
    requires FedAll(START, [x, y]).frames != FedAll(START, [x + y]).frames
    ensures !Settled(x + y)
  {
    if Settled(x + y) {
      TwoChunks(x, y);
      SettledFrames([x, y]);
      OneChunk(x + y);
      SettledFrames([x + y]);
    }
  }

  // ----- the programs

  lemma {:induction false} EventsAppend<E>(a: seq<string>, b: seq<string>, decode: string -> Option<E>)
    ensures Events(a + b, decode) == Events(a, decode) + Events(b, decode)
  {
    if a == [] {
      assert a + b == b;
    } else {
      assert (a + b)[1..] == a[1..] + b;
      EventsAppend(a[1..], b, decode);
      Assoc(if Payload(a[0]).Some? && decode(Payload(a[0]).value).Some?
            then [decode(Payload(a[0]).value).value] else [], Events(a[1..], decode), Events(b, decode));
    }
  }

  lemma EventsSnoc<E>(frames: seq<string>, frame: string, decode: string -> Option<E>)
    ensures Events(frames + [frame], decode) == Events(frames, decode) + Events([frame], decode)
    ensures Events([frame], decode) == if Payload(frame).Some? && decode(Payload(frame).value).Some?
                                       then [decode(Payload(frame).value).value] else []
  {
    EventsAppend(frames, [frame], decode);
    assert [frame][1..] == [];
  }

  /** `streamChatSession`: its buffer and the events yielded so far. */
  class ChatStream<E> {
    const decode: string -> Option<E>
    var buffer: string
    var yielded: seq<E>
    ghost var frames: seq<string>

    ghost predicate Valid()
      reads this
    {
      yielded == Events(frames, decode)
    }

    constructor (decode: string -> Option<E>)
      ensures Valid() && buffer == START.buffer && frames == START.frames && this.decode == decode
    {
      this.decode := decode;
      buffer, yielded, frames := "", [], [];
    }

    method Feed(chunk: string)
      requires Valid()
      modifies this
      ensures Valid() && Chat(buffer, frames) == Fed(Chat(old(buffer), old(frames)), chunk)
    {
      ghost var goal := Fed(Chat(buffer, frames), chunk);
      buffer := Norm(buffer + chunk);
      var boundary := Find(buffer, BLANK);
      while boundary.Some?
        invariant Valid() && boundary == Find(buffer, BLANK)
        invariant goal == Chat(Split(buffer, BLANK).rest, frames + Split(buffer, BLANK).pieces)
        decreases |buffer|
      {
        SplitAt(buffer, BLANK, boundary.value);
        var frame := buffer[..boundary.value];
        buffer := buffer[boundary.value + 2..];
        Assoc(frames, [frame], Split(buffer, BLANK).pieces);
        EventsSnoc(frames, frame, decode);
        frames := frames + [frame];
        var payload := Payload(frame);
        if payload.Some? {
          var event := decode(payload.value);
          if event.Some? { yielded := yielded + [event.value]; }
        }
        boundary := Find(buffer, BLANK);
      }
      assert Split(buffer, BLANK) == Cut([], buffer) && frames + [] == frames;
    }
  }

  method ReadChat<E>(chunks: seq<string>, decode: string -> Option<E>) returns (events: seq<E>)
    ensures events == Events(FedAll(START, chunks).frames, decode)
    ensures Settled(Concat(chunks)) ==> events == Events(Split(Norm(Concat(chunks)), BLANK).pieces, decode)
    ensures NoCrCrLf(Concat(chunks)) ==> events == Events(Split(Norm(Concat(chunks)), BLANK).pieces, decode)
  {
    var stream := new ChatStream(decode);
    for c := 0 to |chunks|
      invariant stream.Valid() && Chat(stream.buffer, stream.frames) == FedAll(START, chunks[..c])
    {
      FedAllSnoc(chunks[..c], chunks[c]);
      PrefixSnoc(chunks, c);
      stream.Feed(chunks[c]);
    }
    assert chunks[..|chunks|] == chunks;
    if NoCrCrLf(Concat(chunks)) { NoCrCrLfIsSettled(Concat(chunks)); }
    if Settled(Concat(chunks)) { SettledFrames(chunks); }
    return stream.yielded;
  }

  /** The frames dispatched so far and those still in `buffer + more` make up all of them. */
  ghost predicate Remaining(all: seq<string>, frames: seq<string>, buffer: string, more: string) {
    all == frames + Split(buffer + more, BLANK).pieces
  }

  lemma TakeFrame(all: seq<string>, frames: seq<string>, buffer: string, more: string, i: nat)
    requires Find(buffer, BLANK) == Some(i) && Remaining(all, frames, buffer, more)
    ensures Remaining(all, frames + [buffer[..i]], buffer[i + 2..], more)
  {
    SplitAppended(buffer, more, BLANK, i);
    Assoc(frames, [buffer[..i]], Split(buffer[i + 2..] + more, BLANK).pieces);
  }

  lemma TakeChunk(all: seq<string>, frames: seq<string>, buffer: string, chunks: seq<string>)
    requires chunks != [] && Remaining(all, frames, buffer, Concat(chunks))
    ensures Remaining(all, frames, buffer + chunks[0], Concat(chunks[1..]))
  {
    Assoc(buffer, chunks[0], Concat(chunks[1..]));
  }

  lemma NothingTaken(chunks: seq<string>)
    ensures Remaining(Split(Concat(chunks), BLANK).pieces, [], "", Concat(chunks))
  {
    var text := Concat(chunks);
    assert "" + text == text && [] + Split(text, BLANK).pieces == Split(text, BLANK).pieces;
  }

  lemma FramesArePrefix(all: seq<string>, frames: seq<string>, buffer: string, more: string)
    requires Remaining(all, frames, buffer, more)
    ensures frames == all[..|frames|]
  {}

  lemma NoFrameLeft(all: seq<string>, frames: seq<string>, buffer: string)
    requires Find(buffer, BLANK).None? && Remaining(all, frames, buffer, "")
    ensures frames == all
  {
    assert buffer + "" == buffer && frames + [] == frames;
    assert Split(buffer, BLANK) == Cut([], buffer);
  }

  /** The inner loop: frames are cut off the buffer until none is left or the signal is aborted. */
  method DispatchBuffered(ghost all: seq<string>, done: seq<string>, text: string, ghost more: string,
                          stopAfter: Option<nat>)
    returns (frames: seq<string>, buffer: string)
    requires Remaining(all, done, text, more) && (stopAfter.Some? ==> |done| <= stopAfter.value)
    ensures Remaining(all, frames, buffer, more) && (stopAfter.Some? ==> |frames| <= stopAfter.value)
    ensures stopAfter == Some(|frames|) || Find(buffer, BLANK).None?
  {
    frames, buffer := done, text;
    var boundary := Find(buffer, BLANK);
    while boundary.Some? && stopAfter != Some(|frames|)
      invariant boundary == Find(buffer, BLANK) && (stopAfter.Some? ==> |frames| <= stopAfter.value)
      invariant Remaining(all, frames, buffer, more)
      decreases |buffer|
    {
      TakeFrame(all, frames, buffer, more, boundary.value);
      frames := frames + [buffer[..boundary.value]];
      buffer := buffer[boundary.value + 2..];
      boundary := Find(buffer, BLANK);
    }
  }

  /**
   `runHostStatusStream`, whose signal is aborted while frame number `stopAfter` is handled: it
   dispatches the frames of the whole text, up to that one, whatever the chunks were.
   */
  method ReadHostStatus(chunks: seq<string>, stopAfter: Option<nat>) returns (frames: seq<string>)
    ensures var all := Split(Concat(chunks), BLANK).pieces;
      frames == if stopAfter.Some? && stopAfter.value < |all| then all[..stopAfter.value] else all
  {
    ghost var all := Split(Concat(chunks), BLANK).pieces;
    ghost var later := chunks;
    var buffer := "";
    frames := [];
    var c := 0;
    NothingTaken(chunks);
    while c < |chunks| && stopAfter != Some(|frames|)
      invariant c <= |chunks| && later == chunks[c..] && (stopAfter.Some? ==> |frames| <= stopAfter.value)
      invariant Remaining(all, frames, buffer, Concat(later))
      invariant stopAfter == Some(|frames|) || Find(buffer, BLANK).None?
    {
      TakeChunk(all, frames, buffer, later);
      later := later[1..];
      frames, buffer := DispatchBuffered(all, frames, buffer + chunks[c], Concat(later), stopAfter);
      c := c + 1;
    }
    if stopAfter != Some(|frames|) {
      NoFrameLeft(all, frames, buffer);
    } else {
      FramesArePrefix(all, frames, buffer, Concat(later));
    }
  }
}
