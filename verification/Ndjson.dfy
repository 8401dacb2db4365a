/**
 The NDJSON loops of the agent-create and framework-upgrade streams: one JSON text per line, the
 last complete and error events deciding the outcome. `decode` stands for `JSON.parse` and the cast
 that follows it; `None` is its exception.
 */
module Ndjson {
  import opened Options
  import opened Splitting
  import opened JsStrings

  /** What a line parses to; reading the type of `null` throws, but only once its consumer has seen it. */
  datatype Message<A> = Progress(step: string) | Complete(agent: A) | Error(text: string) | Null

  datatype Outcome<A> = Agent(agent: A) | StreamError(text: string) | NoComplete | BadLine(line: string)

  /** `bad` is the line that threw, unparsable or `null`; nothing after it is looked at. */
  datatype Progressed<A> = Progressed(
    events: seq<Message<A>>, completed: Option<A>, errored: Option<string>, bad: Option<string>)

  function Fresh<A>(): Progressed<A> {
    Progressed([], None, None, None)
  }

  // ----- the specification

  function Dispatched<A>(p: Progressed<A>, line: string, decode: string -> Option<Message<A>>): Progressed<A> {
    if p.bad.Some? || line == "" then p
    else match decode(line)
      case None => p.(bad := Some(line))
      case Some(m) =>
        Progressed(p.events + [m],
                   if m.Complete? then Some(m.agent) else p.completed,
                   if m.Error? then Some(m.text) else p.errored,
                   if m.Null? then Some(line) else None)
  }

  function AllDispatched<A>(p: Progressed<A>, lines: seq<string>, decode: string -> Option<Message<A>>): Progressed<A>
    decreases |lines|
  {
    if lines == [] then p else AllDispatched(Dispatched(p, Trim(lines[0]), decode), lines[1..], decode)
  }

  function Conclusion<A>(p: Progressed<A>): Outcome<A> {
    if p.bad.Some? then BadLine(p.bad.value)
    else if p.errored.Some? then StreamError(p.errored.value)
    else if p.completed.Some? then Agent(p.completed.value)
    else NoComplete
  }

  /** The text taken as a whole: every line of it, the unterminated last one included. */
  function Whole<A>(text: string, decode: string -> Option<Message<A>>): Progressed<A> {
    AllDispatched(Fresh(), AllLines(text), decode)
  }

  // ----- properties of the specification

  lemma {:induction false} AllDispatchedAppend<A>(
      p: Progressed<A>, a: seq<string>, b: seq<string>, decode: string -> Option<Message<A>>)
    ensures AllDispatched(p, a + b, decode) == AllDispatched(AllDispatched(p, a, decode), b, decode)
    decreases |a|
  {
    if a == [] {
      assert a + b == b;
    } else {
      assert (a + b)[1..] == a[1..] + b;
      AllDispatchedAppend(Dispatched(p, Trim(a[0]), decode), a[1..], b, decode);
    }
  }

  lemma {:induction false} BadStays<A>(p: Progressed<A>, lines: seq<string>, decode: string -> Option<Message<A>>)
    requires p.bad.Some?
    ensures AllDispatched(p, lines, decode) == p
    decreases |lines|
  {
    if lines != [] {
      BadStays(p, lines[1..], decode);
    }
  }

  function LastComplete<A>(events: seq<Message<A>>): Option<A> {
    if events == [] then None
    else if events[|events| - 1].Complete? then Some(events[|events| - 1].agent)
    else LastComplete(events[..|events| - 1])
  }

  function LastError<A>(events: seq<Message<A>>): Option<string> {
    if events == [] then None
    else if events[|events| - 1].Error? then Some(events[|events| - 1].text)
    else LastError(events[..|events| - 1])
  }

  ghost predicate Faithful<A>(p: Progressed<A>) {
    p.completed == LastComplete(p.events) && p.errored == LastError(p.events)
  }

  lemma {:induction false} AllDispatchedFaithful<A>(
      p: Progressed<A>, lines: seq<string>, decode: string -> Option<Message<A>>)
    requires Faithful(p)
    ensures Faithful(AllDispatched(p, lines, decode))
    ensures p.events <= AllDispatched(p, lines, decode).events
    decreases |lines|
  {
    if lines != [] {
      var q := Dispatched(p, Trim(lines[0]), decode);
      if q.events != p.events {
        assert q.events[..|q.events| - 1] == p.events;
      }
      AllDispatchedFaithful(q, lines[1..], decode);
    }
  }

  predicate Throws<A>(line: string, decode: string -> Option<Message<A>>) {
    line != "" && (decode(line).None? || decode(line).value.Null?)
  }

  /** The first line that holds something and does not parse, or is `null`. */
  function FirstBad<A>(lines: seq<string>, decode: string -> Option<Message<A>>): Option<string> {
    if lines == [] then None
    else if Throws(Trim(lines[0]), decode) then Some(Trim(lines[0]))
    else FirstBad(lines[1..], decode)
  }

  lemma {:induction false} BadIsFirst<A>(
      p: Progressed<A>, lines: seq<string>, decode: string -> Option<Message<A>>)
    requires p.bad.None?
    ensures AllDispatched(p, lines, decode).bad == FirstBad(lines, decode)
    decreases |lines|
  {
    if lines != [] {
      var q := Dispatched(p, Trim(lines[0]), decode);
      if q.bad.Some? { BadStays(q, lines[1..], decode); } else { BadIsFirst(q, lines[1..], decode); }
    }
  }

  /**
   The outcome is read off the lines and the events: the first line that throws wins over all; else
   any error wins over any completion, and the last of each counts.
   */
  lemma OutcomeOfEvents<A>(text: string, decode: string -> Option<Message<A>>)
    ensures var p := Whole(text, decode);
      Conclusion(p) == (if FirstBad(AllLines(text), decode).Some? then BadLine(FirstBad(AllLines(text), decode).value)
                        else if LastError(p.events).Some? then StreamError(LastError(p.events).value)
                        else if LastComplete(p.events).Some? then Agent(LastComplete(p.events).value)
                        else NoComplete)
  {
    AllDispatchedFaithful(Fresh<A>(), AllLines(text), decode);
    BadIsFirst(Fresh<A>(), AllLines(text), decode);
  }

  // ----- which events those are

  /** The lines that hold something, trimmed. */
  function Filled(lines: seq<string>): seq<string> {
    if lines == [] then []
    else (if Trim(lines[0]) == "" then [] else [Trim(lines[0])]) + Filled(lines[1..])
  }

  /** What these lines parse to, up to the first that does not parse, and with the first `null`. */
  function UpToBad<A>(lines: seq<string>, decode: string -> Option<Message<A>>): seq<Message<A>> {
    if lines == [] || decode(lines[0]).None? then []
    else if decode(lines[0]).value.Null? then [decode(lines[0]).value]
    else [decode(lines[0]).value] + UpToBad(lines[1..], decode)
  }

  lemma {:induction false} DispatchedEvents<A>(
      p: Progressed<A>, lines: seq<string>, decode: string -> Option<Message<A>>)
    requires p.bad.None?
    ensures AllDispatched(p, lines, decode).events == p.events + UpToBad(Filled(lines), decode)
    decreases |lines|
  {
    if lines == [] {
      assert p.events + [] == p.events;
    } else {
      var line := Trim(lines[0]);
      var q := Dispatched(p, line, decode);
      assert line != "" ==> Filled(lines)[0] == line && Filled(lines)[1..] == Filled(lines[1..]);
      if q.bad.Some? {
        BadStays(q, lines[1..], decode);
        assert p.events + [] == p.events;
      } else {
        DispatchedEvents(q, lines[1..], decode);
        if line != "" {
          Assoc(p.events, [decode(line).value], UpToBad(Filled(lines[1..]), decode));
        } else {
          assert [] + Filled(lines[1..]) == Filled(lines[1..]);
        }
      }
    }
  }

  /** The consumer gets what the lines parse to, blanks around them and blank lines left out. */
  lemma EventsAreTheLines<A>(text: string, decode: string -> Option<Message<A>>)
    ensures Whole(text, decode).events == UpToBad(Filled(AllLines(text)), decode)
  {
    DispatchedEvents(Fresh<A>(), AllLines(text), decode);
    assert Fresh<A>().events + UpToBad(Filled(AllLines(text)), decode) == UpToBad(Filled(AllLines(text)), decode);
  }

  // ----- printing and reading back

  predicate Printable(line: string) {
    line != "" && NoLf(line) && Trim(line) == line
  }

  function AllDecoded<A>(lines: seq<string>, decode: string -> Option<Message<A>>): Option<seq<Message<A>>> {
    if lines == [] then Some([])
    else if decode(lines[0]).None? || decode(lines[0]).value.Null? || AllDecoded(lines[1..], decode).None? then None
    else Some([decode(lines[0]).value] + AllDecoded(lines[1..], decode).value)
  }

  lemma {:induction false} PrintedLinesDispatched<A>(
      p: Progressed<A>, lines: seq<string>, decode: string -> Option<Message<A>>)
    requires p.bad.None? && (forall k :: 0 <= k < |lines| ==> Printable(lines[k]))
    requires AllDecoded(lines, decode).Some?
    ensures AllDispatched(p, lines, decode).events == p.events + AllDecoded(lines, decode).value
    ensures AllDispatched(p, lines, decode).bad.None?
    decreases |lines|
  {
    if lines == [] {
      assert p.events + [] == p.events;
    } else {
      PrintedLinesDispatched(Dispatched(p, lines[0], decode), lines[1..], decode);
      Assoc(p.events, [decode(lines[0]).value], AllDecoded(lines[1..], decode).value);
    }
  }

  lemma PrintedLines(lines: seq<string>, last: string)
    requires (forall k :: 0 <= k < |lines| ==> NoLf(lines[k])) && NoLf(last)
    ensures AllLines(Unlines(lines) + last) == lines + AllLines(last)
    ensures Find(last, "\n").None?
  {
    SplitLast(lines, last);
    SplitLast([], last);
    assert Unlines([]) + last == last;
    AbsentLf(last);
    FindIsFirst(last, "\n");
  }

  lemma PrintedIsWhole<A>(lines: seq<string>, last: string, decode: string -> Option<Message<A>>)
    requires (forall k :: 0 <= k < |lines| ==> NoLf(lines[k])) && NoLf(last)
    ensures Whole(Unlines(lines) + last, decode)
      == Dispatched(AllDispatched(Fresh<A>(), lines, decode), Trim(last), decode)
  {
    PrintedLines(lines, last);
    AllDispatchedAppend(Fresh<A>(), lines, AllLines(last), decode);
    OneLine(AllDispatched(Fresh<A>(), lines, decode), last, decode);
  }

  lemma TerminatedIsWhole<A>(lines: seq<string>, decode: string -> Option<Message<A>>)
    requires forall k :: 0 <= k < |lines| ==> NoLf(lines[k])
    ensures Whole(Unlines(lines), decode) == AllDispatched(Fresh<A>(), lines, decode)
  {
    PrintedIsWhole(lines, "", decode);
    assert Unlines(lines) + "" == Unlines(lines);
    assert Trim("") == "";
  }

  lemma SnocDispatched<A>(
      p: Progressed<A>, front: seq<string>, last: string, decode: string -> Option<Message<A>>)
    ensures AllDispatched(p, front + [last], decode)
      == Dispatched(AllDispatched(p, front, decode), Trim(last), decode)
  {
    AllDispatchedAppend(p, front, [last], decode);
    var q := AllDispatched(p, front, decode);
    assert [last][1..] == [] && [last][0] == last;
    assert AllDispatched(Dispatched(q, Trim(last), decode), [], decode) == Dispatched(q, Trim(last), decode);
  }

  /** A stream of JSON lines is read back message by message. */
  lemma RoundTrip<A>(lines: seq<string>, decode: string -> Option<Message<A>>)
    requires forall k :: 0 <= k < |lines| ==> Printable(lines[k])
    requires AllDecoded(lines, decode).Some?
    ensures Whole(Unlines(lines), decode).events == AllDecoded(lines, decode).value
  {
    TerminatedIsWhole(lines, decode);
    PrintedLinesDispatched(Fresh<A>(), lines, decode);
    assert [] + AllDecoded(lines, decode).value == AllDecoded(lines, decode).value;
  }

  /** Whether the last line is terminated makes no difference. */
  lemma LastTerminatorIsOptional<A>(front: seq<string>, last: string, decode: string -> Option<Message<A>>)
    requires (forall k :: 0 <= k < |front| ==> NoLf(front[k])) && NoLf(last)
    ensures Whole(Unlines(front) + last, decode) == Whole(Unlines(front + [last]), decode)
  {
    PrintedIsWhole(front, last, decode);
    SnocDispatched(Fresh<A>(), front, last, decode);
    TerminatedIsWhole(front + [last], decode);
  }

  // ----- the program

  /** What is left to do with the buffer equals what the whole text has left to do. */
  ghost predicate OnTrack<A>(
      p: Progressed<A>, buffer: string, more: string, text: string, decode: string -> Option<Message<A>>)
  {
    AllDispatched(p, AllLines(buffer + more), decode) == Whole(text, decode)
  }

  lemma TakeLine<A>(
      p: Progressed<A>, buffer: string, i: nat, more: string, text: string, decode: string -> Option<Message<A>>)
    requires Find(buffer, "\n") == Some(i) && OnTrack(p, buffer, more, text, decode)
    ensures OnTrack(Dispatched(p, Trim(buffer[..i]), decode), buffer[i + 1..], more, text, decode)
  {
    SplitAppended(buffer, more, "\n", i);
    var lines := AllLines(buffer + more);
    assert lines == [buffer[..i]] + AllLines(buffer[i + 1..] + more);
    assert lines[1..] == AllLines(buffer[i + 1..] + more);
  }

  /** The read loop and its epilogue, over any way the text arrives in chunks. */
  method ReadStream<A>(chunks: seq<string>, decode: string -> Option<Message<A>>)
    returns (events: seq<Message<A>>, outcome: Outcome<A>)
    ensures events == Whole(Concat(chunks), decode).events
    ensures outcome == Conclusion(Whole(Concat(chunks), decode))
  {
    ghost var text := Concat(chunks);
    var buffer := "";
    var completed: Option<A>, errored: Option<string> := None, None;
    events := [];
    assert chunks[0..] == chunks && "" + text == text;
    for c := 0 to |chunks|
      invariant Find(buffer, "\n").None?
      invariant OnTrack(Progressed(events, completed, errored, None), buffer, Concat(chunks[c..]), text, decode)
    {
      ghost var more := Concat(chunks[c + 1..]);
      Assoc(buffer, chunks[c], more);
      buffer := buffer + chunks[c];
      assert chunks[c..][1..] == chunks[c + 1..];
      var nl := Find(buffer, "\n");
      while nl.Some?
        invariant nl == Find(buffer, "\n")
        invariant OnTrack(Progressed(events, completed, errored, None), buffer, more, text, decode)
        decreases |buffer|
      {
        var line := Trim(buffer[..nl.value]);
        TakeLine(Progressed(events, completed, errored, None), buffer, nl.value, more, text, decode);
        buffer := buffer[nl.value + 1..];
        if line != "" {
          match decode(line) {
            case None =>
              BadStays(Progressed(events, completed, errored, Some(line)), AllLines(buffer + more), decode);
              return events, BadLine(line);
            case Some(m) =>
              events := events + [m];
              if m.Complete? { completed := Some(m.agent); }
              if m.Error? { errored := Some(m.text); }
              if m.Null? {
                BadStays(Progressed(events, completed, errored, Some(line)), AllLines(buffer + more), decode);
                return events, BadLine(line);
              }
          }
        }
        nl := Find(buffer, "\n");
      }
    }
    assert buffer + Concat(chunks[|chunks|..]) == buffer;
    LastLine(Progressed(events, completed, errored, None), buffer, text, decode);
    var line := Trim(buffer);
    if line != "" {
      match decode(line) {
        case None => return events, BadLine(line);
        case Some(m) =>
          events := events + [m];
          if m.Complete? { completed := Some(m.agent); }
          if m.Error? { errored := Some(m.text); }
          if m.Null? { return events, BadLine(line); }
      }
    }
    outcome := if errored.Some? then StreamError(errored.value)
               else if completed.Some? then Agent(completed.value) else NoComplete;
  }

  lemma LastLine<A>(p: Progressed<A>, buffer: string, text: string, decode: string -> Option<Message<A>>)
    requires Find(buffer, "\n").None?
    requires OnTrack(p, buffer, "", text, decode)
    ensures Dispatched(p, Trim(buffer), decode) == Whole(text, decode)
  {
    assert buffer + "" == buffer;
    OneLine(p, buffer, decode);
  }

  lemma OneLine<A>(p: Progressed<A>, line: string, decode: string -> Option<Message<A>>)
    requires Find(line, "\n").None?
    ensures AllDispatched(p, AllLines(line), decode) == Dispatched(p, Trim(line), decode)
  {
    assert Split(line, "\n") == Cut([], line);
    assert AllLines(line) == [line] && [line][1..] == [];
  }
}
