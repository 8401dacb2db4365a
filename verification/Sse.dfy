/**
 The server-sent event parser: a buffer cut into lines as chunks arrive, and the fields of the
 event being collected. Chunks are decoded text.
 */
module Sse {
  import opened Options
  import opened Splitting

  datatype Event = Event(event: string, data: string, id: Option<string>)

  /** The fields seen since the last blank line. */
  datatype Fields = Fields(event: string, data: seq<string>, id: Option<string>)

  datatype Collected = Collected(fields: Fields, out: seq<Event>)

  const NO_FIELDS := Fields("", [], None)

  // ----- one line

  function Flushed(f: Fields): Collected {
    if f.data == [] && f.event == "" then Collected(f, [])
    else Collected(NO_FIELDS, [Event(if f.event == "" then "message" else f.event, Join(f.data),
                                     if f.id == Some("") then None else f.id)])
  }

  function ChopCr(s: string): string {
    if EndsWithCr(s) then s[..|s| - 1] else s
  }

  function FieldName(line: string): string {
    match Find(line, ":")
    case None => line
    case Some(i) => line[..i]
  }

  /** What follows the colon, less one leading space. */
  function FieldValue(line: string): string {
    match Find(line, ":")
    case None => ""
    case Some(i) => if i + 1 < |line| && line[i + 1] == ' ' then line[i + 2..] else line[i + 1..]
  }

  function WithField(f: Fields, name: string, value: string): Fields {
    if name == "event" then f.(event := value)
    else if name == "data" then f.(data := f.data + [value])
    else if name == "id" then f.(id := Some(value))
    else f
  }

  function LineTaken(f: Fields, rawLine: string): Collected {
    var line := ChopCr(rawLine);
    if line == "" then Flushed(f)
    else if line[0] == ':' then Collected(f, [])
    else Collected(WithField(f, FieldName(line), FieldValue(line)), [])
  }

  function LinesTaken(f: Fields, lines: seq<string>): Collected
    decreases |lines|
  {
    if lines == [] then Collected(f, [])
    else
      var c := LineTaken(f, lines[0]);
      var d := LinesTaken(c.fields, lines[1..]);
      Collected(d.fields, c.out + d.out)
  }

  // ----- the forms of a line

  /** The field named is set, data joins what is there, and every other field is ignored. */
  lemma FieldIsSet(f: Fields, name: string, value: string)
    ensures WithField(f, name, value) ==
      match name
      case "event" => Fields(value, f.data, f.id)
      case "data" => Fields(f.event, f.data + [value], f.id)
      case "id" => Fields(f.event, f.data, Some(value))
      case _ => f
  {}

  /** A colon splits name and value, with or without one space after it; with no colon the value is empty. */
  lemma LineForms(f: Fields, name: string, value: string)
    requires name != "" && ':' !in name && !EndsWithCr(name) && !EndsWithCr(value)
    ensures LineTaken(f, name + ": " + value) == Collected(WithField(f, name, value), [])
    ensures !(value != "" && value[0] == ' ') ==>
      LineTaken(f, name + ":" + value) == Collected(WithField(f, name, value), [])
    ensures LineTaken(f, name) == Collected(WithField(f, name, ""), [])
  {
    ColonAt(name, " " + value);
    ColonAt(name, value);
    assert name + ":" + (" " + value) == name + ": " + value;
    var spaced, tight := name + ": " + value, name + ":" + value;
    assert spaced[|name| + 2..] == value && tight[|name| + 1..] == value;
    assert spaced[..|name|] == name && tight[..|name|] == name;
    NoColon(name);
  }

  lemma ColonAt(name: string, more: string)
    requires ':' !in name
    ensures Find(name + ":" + more, ":") == Some(|name|)
  {
    var line := name + ":" + more;
    assert line[|name|..|name| + 1] == ":";
    forall j: nat | j < |name| ensures !At(line, ":", j) {
      assert line[j..j + 1] == [name[j]];
    }
    FindFirst(line, ":", |name|);
  }

  lemma NoColon(name: string)
    requires ':' !in name
    ensures Find(name, ":") == None
  {
    FindIsFirst(name, ":");
    forall j: nat ensures !At(name, ":", j) {
      if j < |name| { assert name[j..j + 1] == [name[j]]; }
    }
  }

  /** One CR at the end of a line goes, and a line that starts with a colon is a comment. */
  lemma LineEnds(f: Fields, line: string)
    requires !EndsWithCr(line)
    ensures LineTaken(f, line + "\r") == LineTaken(f, line)
    ensures line != "" && line[0] == ':' ==> LineTaken(f, line) == Collected(f, [])
  {
    assert (line + "\r")[..|line|] == line;
  }

  /** A blank line dispatches what is pending, under its name or `message`, and forgets it; nothing pending, nothing. */
  lemma BlankLine(f: Fields)
    ensures LineTaken(f, "") ==
      if f.data == [] && f.event == "" then Collected(f, [])
      else Collected(Fields("", [], None),
                     [Event(if f.event == "" then "message" else f.event, Join(f.data),
                            if f.id.Some? && f.id.value != "" then f.id else None)])
  {}

  // ----- the stream

  datatype Parser = Parser(buffer: string, fields: Fields, out: seq<Event>)

  const START := Parser("", NO_FIELDS, [])

  function Fed(p: Parser, chunk: string): Parser {
    var cut := Split(p.buffer + chunk, "\n");
    var c := LinesTaken(p.fields, cut.pieces);
    Parser(cut.rest, c.fields, p.out + c.out)
  }

  function FedAll(p: Parser, chunks: seq<string>): Parser
    decreases |chunks|
  {
    if chunks == [] then p else FedAll(Fed(p, chunks[0]), chunks[1..])
  }

  /** The end of the input: an unterminated last line counts as one more line of data. */
  function Finished(p: Parser): seq<Event> {
    if p.buffer == "" then p.out
    else
      var line := ChopCr(p.buffer);
      var f := if line == "" then p.fields else p.fields.(data := p.fields.data + [line]);
      p.out + Flushed(f).out
  }

  /** The events of a whole stream. */
  function Parsed(chunks: seq<string>): seq<Event> {
    Finished(FedAll(START, chunks))
  }

  /** The events of a stream whose abort is noticed on arrival of chunk `n`. */
  function ParsedUntil(chunks: seq<string>, n: nat): seq<Event>
    requires n <= |chunks|
  {
    FedAll(START, chunks[..n]).out
  }

  // ----- chunks do not matter

  lemma {:induction false} LinesTakenAppend(f: Fields, a: seq<string>, b: seq<string>)
    ensures LinesTaken(f, a + b)
      == Collected(LinesTaken(LinesTaken(f, a).fields, b).fields,
                   LinesTaken(f, a).out + LinesTaken(LinesTaken(f, a).fields, b).out)
    decreases |a|
  {
    if a == [] {
      assert a + b == b;
    } else {
      assert (a + b)[1..] == a[1..] + b;
      var c := LineTaken(f, a[0]);
      LinesTakenAppend(c.fields, a[1..], b);
      Assoc(c.out, LinesTaken(c.fields, a[1..]).out, LinesTaken(LinesTaken(f, a).fields, b).out);
    }
  }

  lemma FedTwice(p: Parser, x: string, y: string)
    ensures Fed(Fed(p, x), y) == Fed(p, x + y)
  {
    var q := Fed(p, x);
    Assoc(p.buffer, x, y);
    SplitAppend(p.buffer + x, y, "\n");
    var a, b := Split(p.buffer + x, "\n").pieces, Split(q.buffer + y, "\n").pieces;
    LinesTakenAppend(p.fields, a, b);
    Assoc(p.out, LinesTaken(p.fields, a).out, LinesTaken(q.fields, b).out);
  }

  lemma {:induction false} FedAllAtOnce(p: Parser, chunks: seq<string>)
    requires chunks != []
    ensures FedAll(p, chunks) == Fed(p, Concat(chunks))
    decreases |chunks|
  {
    if |chunks| == 1 {
      assert Concat(chunks) == chunks[0] + "" == chunks[0];
      assert FedAll(p, chunks) == FedAll(Fed(p, chunks[0]), []);
    } else {
      var x, y := chunks[0], chunks[1];
      var merged := [x + y] + chunks[2..];
      FedTwice(p, x, y);
      assert chunks[1..][1..] == chunks[2..] == merged[1..];
      assert FedAll(p, chunks) == FedAll(p, merged);
      Assoc(x, y, Concat(chunks[2..]));
      FedAllAtOnce(p, merged);
    }
  }

  /** The events depend only on the text, never on where it is cut into chunks. */
  lemma ChunkingIsIrrelevant(a: seq<string>, b: seq<string>)
    requires Concat(a) == Concat(b)
    ensures Parsed(a) == Parsed(b)
  {
    ParsedIsWhole(a);
    ParsedIsWhole(b);
  }

  lemma ParsedIsWhole(chunks: seq<string>)
    ensures Parsed(chunks) == Finished(Fed(START, Concat(chunks)))
  {
    if chunks == [] {
      assert Fed(START, "") == START;
    } else {
      FedAllAtOnce(START, chunks);
    }
  }

  lemma {:induction false} FedAllAppend(p: Parser, a: seq<string>, b: seq<string>)
    ensures FedAll(p, a + b) == FedAll(FedAll(p, a), b)
    decreases |a|
  {
    if a == [] {
      assert a + b == b;
    } else {
      assert (a + b)[1..] == a[1..] + b;
      FedAllAppend(Fed(p, a[0]), a[1..], b);
    }
  }

  lemma {:induction false} OutGrows(p: Parser, chunks: seq<string>)
    ensures p.out <= FedAll(p, chunks).out
    decreases |chunks|
  {
    if chunks != [] {
      OutGrows(Fed(p, chunks[0]), chunks[1..]);
    }
  }

  /** Stopping on an abort yields a prefix of the whole stream's events. */
  lemma AbortYieldsPrefix(chunks: seq<string>, n: nat)
    requires n <= |chunks|
    ensures ParsedUntil(chunks, n) <= Parsed(chunks)
  {
    assert chunks == chunks[..n] + chunks[n..];
    FedAllAppend(START, chunks[..n], chunks[n..]);
    OutGrows(FedAll(START, chunks[..n]), chunks[n..]);
  }

  // ----- printing and reading back

  function FieldLine(name: string, value: string): string {
    name + ": " + value
  }

  function DataLines(lines: seq<string>): seq<string> {
    if lines == [] then [] else [FieldLine("data", lines[0])] + DataLines(lines[1..])
  }

  function IdLine(id: Option<string>): seq<string> {
    match id
    case None => []
    case Some(v) => [FieldLine("id", v)]
  }

  /** The field lines of an event and the blank line that dispatches it. */
  function EventLines(e: Event): seq<string> {
    [FieldLine("event", e.event)] + DataLines(AllLines(e.data)) + IdLine(e.id) + [""]
  }

  function Encoded(events: seq<Event>): string {
    if events == [] then "" else Unlines(EventLines(events[0])) + Encoded(events[1..])
  }

  predicate Clean(value: string) {
    NoLf(value) && !EndsWithCr(value)
  }

  predicate WellFormed(e: Event) {
    && e.event != "" && Clean(e.event)
    && (forall k :: 0 <= k < |AllLines(e.data)| ==> !EndsWithCr(AllLines(e.data)[k]))
    && (e.id.Some? ==> e.id.value != "" && Clean(e.id.value))
  }

  function ChopAll(lines: seq<string>): seq<string> {
    if lines == [] then [] else [ChopCr(lines[0])] + ChopAll(lines[1..])
  }

  /** The event that comes back when no LF tears a line apart. */
  function Normalised(e: Event): Event {
    Event(if ChopCr(e.event) == "" then "message" else ChopCr(e.event),
          Join(ChopAll(AllLines(e.data))),
          if e.id.Some? && ChopCr(e.id.value) != "" then Some(ChopCr(e.id.value)) else None)
  }

  lemma FieldLineTaken(f: Fields, name: string, value: string)
    requires name != "" && ':' !in name
    ensures LineTaken(f, FieldLine(name, value)) == Collected(WithField(f, name, ChopCr(value)), [])
  {
    var line := FieldLine(name, ChopCr(value));
    assert ChopCr(FieldLine(name, value)) == line;
    assert line[|name|..|name| + 1] == ":";
    forall j: nat | j < |name| ensures !At(line, ":", j) {
      assert line[j..j + 1] == [name[j]];
    }
    FindFirst(line, ":", |name|);
    assert line[..|name|] == name && line[|name| + 2..] == ChopCr(value);
  }

  lemma {:induction false} DataLinesTaken(f: Fields, lines: seq<string>)
    ensures LinesTaken(f, DataLines(lines)) == Collected(f.(data := f.data + ChopAll(lines)), [])
    decreases |lines|
  {
    if lines == [] {
      assert f.data + [] == f.data;
    } else {
      FieldLineTaken(f, "data", lines[0]);
      var f1 := f.(data := f.data + [ChopCr(lines[0])]);
      DataLinesTaken(f1, lines[1..]);
      assert DataLines(lines)[1..] == DataLines(lines[1..]);
      Assoc(f.data, [ChopCr(lines[0])], ChopAll(lines[1..]));
    }
  }

  lemma ChopAllNotEmpty(lines: seq<string>)
    requires lines != []
    ensures ChopAll(lines) != []
  {}

  lemma OneLine(f: Fields, line: string)
    ensures LinesTaken(f, [line]) == LineTaken(f, line)
  {
    assert [line][1..] == [];
    assert LineTaken(f, line).out + [] == LineTaken(f, line).out;
  }

  lemma IdLineTaken(f: Fields, id: Option<string>)
    requires f.id == None
    ensures LinesTaken(f, IdLine(id)) == Collected(f.(id := if id.Some? then Some(ChopCr(id.value)) else None), [])
  {
    if id.Some? {
      FieldLineTaken(f, "id", id.value);
      OneLine(f, FieldLine("id", id.value));
    }
  }

  /** Three stretches of lines that complete no event, and a last one. */
  lemma FourParts(f: Fields, a: seq<string>, b: seq<string>, c: seq<string>, d: seq<string>)
    requires LinesTaken(f, a).out == [] && LinesTaken(LinesTaken(f, a).fields, b).out == []
    requires var g := LinesTaken(LinesTaken(f, a).fields, b).fields; LinesTaken(g, c).out == []
    ensures var g := LinesTaken(LinesTaken(f, a).fields, b).fields;
      LinesTaken(f, a + b + c + d) == LinesTaken(LinesTaken(g, c).fields, d)
  {
    LinesTakenAppend(f, a, b);
    LinesTakenAppend(f, a + b, c);
    LinesTakenAppend(f, a + b + c, d);
    var last := LinesTaken(LinesTaken(f, a + b + c).fields, d);
    assert [] + last.out == last.out;
  }

  lemma EventLinesTaken(e: Event)
    ensures LinesTaken(NO_FIELDS, EventLines(e)) == Collected(NO_FIELDS, [Normalised(e)])
  {
    var d := AllLines(e.data);
    var f1 := NO_FIELDS.(event := ChopCr(e.event));
    var f2 := f1.(data := ChopAll(d));
    var f3 := f2.(id := if e.id.Some? then Some(ChopCr(e.id.value)) else None);
    assert LinesTaken(NO_FIELDS, [FieldLine("event", e.event)]) == Collected(f1, []) by {
      FieldLineTaken(NO_FIELDS, "event", e.event);
      OneLine(NO_FIELDS, FieldLine("event", e.event));
    }
    assert LinesTaken(f1, DataLines(d)) == Collected(f2, []) by {
      DataLinesTaken(f1, d);
      assert [] + ChopAll(d) == ChopAll(d);
    }
    assert LinesTaken(f2, IdLine(e.id)) == Collected(f3, []) by { IdLineTaken(f2, e.id); }
    assert LinesTaken(f3, [""]) == Collected(NO_FIELDS, [Normalised(e)]) by {
      ChopAllNotEmpty(d);
      OneLine(f3, "");
    }
    FourParts(NO_FIELDS, [FieldLine("event", e.event)], DataLines(d), IdLine(e.id), [""]);
    assert [] + [Normalised(e)] == [Normalised(e)];
  }

  lemma {:induction false} DataLinesNoLf(lines: seq<string>)
    requires forall k :: 0 <= k < |lines| ==> NoLf(lines[k])
    ensures forall k :: 0 <= k < |DataLines(lines)| ==> NoLf(DataLines(lines)[k])
  {
    if lines != [] {
      DataLinesNoLf(lines[1..]);
    }
  }

  lemma EventLinesNoLf(e: Event)
    requires NoLf(e.event) && (e.id.Some? ==> NoLf(e.id.value))
    ensures forall k :: 0 <= k < |EventLines(e)| ==> NoLf(EventLines(e)[k])
  {
    SplitLinesHaveNoLf(e.data);
    DataLinesNoLf(AllLines(e.data));
    var a, b, c := [FieldLine("event", e.event)], DataLines(AllLines(e.data)), IdLine(e.id);
    assert forall k :: 0 <= k < |c| ==> NoLf(c[k]);
    assert EventLines(e) == a + b + c + [""];
  }

  lemma FedEvent(out: seq<Event>, e: Event, more: string)
    requires NoLf(e.event) && (e.id.Some? ==> NoLf(e.id.value))
    ensures Fed(Parser("", NO_FIELDS, out), Unlines(EventLines(e)) + more)
      == Fed(Parser("", NO_FIELDS, out + [Normalised(e)]), more)
  {
    var lines := EventLines(e);
    EventLinesNoLf(e);
    SplitUnlines(lines, more);
    assert "" + (Unlines(lines) + more) == Unlines(lines) + more && "" + more == more;
    EventLinesTaken(e);
    var tail := Split(more, "\n").pieces;
    LinesTakenAppend(NO_FIELDS, lines, tail);
    Assoc(out, [Normalised(e)], LinesTaken(NO_FIELDS, tail).out);
  }

  lemma {:induction false} ChopAllClean(lines: seq<string>)
    ensures ChopAll(lines) == lines <==> forall k :: 0 <= k < |lines| ==> !EndsWithCr(lines[k])
    ensures |Join(ChopAll(lines))| <= |Join(lines)|
    ensures |ChopAll(lines)| == |lines|
    ensures ChopAll(lines) != lines ==> |Join(ChopAll(lines))| < |Join(lines)|
  {
    if lines != [] {
      ChopAllClean(lines[1..]);
      assert ChopAll(lines)[1..] == ChopAll(lines[1..]);
      assert ChopAll(lines)[0] == ChopCr(lines[0]);
    }
  }

  lemma NormalisedIffWellFormed(e: Event)
    requires NoLf(e.event) && (e.id.Some? ==> NoLf(e.id.value))
    ensures Normalised(e) == e <==> WellFormed(e)
  {
    JoinAllLines(e.data);
    ChopAllClean(AllLines(e.data));
  }

  lemma {:induction false} FedEncoded(out: seq<Event>, events: seq<Event>)
    requires forall k :: 0 <= k < |events| ==> WellFormed(events[k])
    ensures Fed(Parser("", NO_FIELDS, out), Encoded(events)) == Parser("", NO_FIELDS, out + events)
    decreases |events|
  {
    if events == [] {
      assert out + [] == out;
    } else {
      FedEvent(out, events[0], Encoded(events[1..]));
      NormalisedIffWellFormed(events[0]);
      FedEncoded(out + [events[0]], events[1..]);
      Assoc(out, [events[0]], events[1..]);
      assert [events[0]] + events[1..] == events;
    }
  }

  /** Printing events and parsing the text, however it is cut, returns the events. */
  lemma RoundTrip(events: seq<Event>, chunks: seq<string>)
    requires forall k :: 0 <= k < |events| ==> WellFormed(events[k])
    requires Concat(chunks) == Encoded(events)
    ensures Parsed(chunks) == events
  {
    ParsedIsWhole(chunks);
    FedEncoded([], events);
    assert [] + events == events;
  }

  predicate FieldsNoLf(f: Fields) {
    NoLf(f.event) && (f.id.Some? ==> NoLf(f.id.value))
  }

  predicate NamesNoLf(events: seq<Event>) {
    forall k :: 0 <= k < |events| ==> NoLf(events[k].event) && (events[k].id.Some? ==> NoLf(events[k].id.value))
  }

  lemma LineTakenNoLf(f: Fields, line: string)
    requires FieldsNoLf(f) && NoLf(line)
    ensures FieldsNoLf(LineTaken(f, line).fields) && NamesNoLf(LineTaken(f, line).out)
  {
    assert NoLf(ChopCr(line));
    assert NoLf(FieldValue(ChopCr(line)));
  }

  lemma {:induction false} LinesTakenNoLf(f: Fields, lines: seq<string>)
    requires FieldsNoLf(f) && forall k :: 0 <= k < |lines| ==> NoLf(lines[k])
    ensures FieldsNoLf(LinesTaken(f, lines).fields) && NamesNoLf(LinesTaken(f, lines).out)
    decreases |lines|
  {
    if lines != [] {
      LineTakenNoLf(f, lines[0]);
      LinesTakenNoLf(LineTaken(f, lines[0]).fields, lines[1..]);
    }
  }

  lemma ParsedNamesNoLf(text: string)
    ensures NamesNoLf(Parsed([text]))
  {
    ParsedIsWhole([text]);
    assert Concat([text]) == text && "" + text == text;
    SplitLinesHaveNoLf(text);
    var lines := Split(text, "\n").pieces;
    assert forall k :: 0 <= k < |lines| ==> lines[k] == AllLines(text)[k];
    LinesTakenNoLf(NO_FIELDS, lines);
  }

  /** Exactly the well-formed events survive the round trip. */
  lemma RoundTripIff(e: Event)
    ensures Parsed([Encoded([e])]) == [e] <==> WellFormed(e)
  {
    if Parsed([Encoded([e])]) == [e] {
      ParsedNamesNoLf(Encoded([e]));
      assert NoLf([e][0].event);
    }
    if NoLf(e.event) && (e.id.Some? ==> NoLf(e.id.value)) {
      ParsedIsWhole([Encoded([e])]);
      FedEvent([], e, "");
      assert Fed(Parser("", NO_FIELDS, [Normalised(e)]), "") == Parser("", NO_FIELDS, [Normalised(e)]);
      assert Concat([Encoded([e])]) == Unlines(EventLines(e)) + "";
      NormalisedIffWellFormed(e);
    }
  }

  /**
   Where the standard discards an unterminated event, the parser emits it, the last line as raw data. It
   adds nothing exactly if the text ends in a line terminator, or in a CR with no event pending.
   */
  lemma NothingUnterminatedIff(chunks: seq<string>)
    ensures var p := FedAll(START, chunks);
      Parsed(chunks) == p.out <==>
        p.buffer == "" || (ChopCr(p.buffer) == "" && p.fields.data == [] && p.fields.event == "")
  {}

  /** The event that an unterminated last line makes, whichever field the line names. */
  lemma UnterminatedLineIsData(chunks: seq<string>)
    requires ChopCr(FedAll(START, chunks).buffer) != ""
    ensures var p := FedAll(START, chunks); var line := ChopCr(p.buffer);
      Parsed(chunks) == p.out + [Event(if p.fields.event == "" then "message" else p.fields.event,
                                       Join(p.fields.data + [line]),
                                       if p.fields.id == Some("") then None else p.fields.id)]
  {}

  /** The lines that a text terminates. */
  function Lines(text: string): seq<string> {
    Split(text, "\n").pieces
  }

  /** Its last line, if it is not terminated. */
  function LastLine(text: string): string {
    Split(text, "\n").rest
  }

  /** The same in terms of the text: its lines, what they leave pending, and its last line. */
  lemma UnterminatedText(text: string, chunks: seq<string>)
    requires Concat(chunks) == text
    ensures var c := LinesTaken(NO_FIELDS, Lines(text)); var line := ChopCr(LastLine(text));
      Parsed(chunks) == c.out + (
        if LastLine(text) == "" then []
        else Flushed(if line == "" then c.fields else c.fields.(data := c.fields.data + [line])).out)
  {
    ParsedIsWhole(chunks);
    assert "" + text == text;
    var c := LinesTaken(NO_FIELDS, Lines(text));
    assert [] + c.out == c.out;
    assert Fed(START, text) == Parser(LastLine(text), c.fields, c.out);
    assert c.out + [] == c.out;
  }

  // ----- the program

  lemma FedNothing(p: Parser)
    requires Find(p.buffer, "\n").None?
    ensures Fed(p, "") == p
  {
    assert p.buffer + "" == p.buffer && p.out + [] == p.out;
  }

  lemma FedLine(p: Parser, i: nat)
    requires Find(p.buffer, "\n") == Some(i)
    ensures var c := LineTaken(p.fields, p.buffer[..i]);
      Fed(p, "") == Fed(Parser(p.buffer[i + 1..], c.fields, p.out + c.out), "")
  {
    var tail := p.buffer[i + 1..];
    assert p.buffer + "" == p.buffer && tail + "" == tail;
    var lines := Split(tail, "\n").pieces;
    assert ([p.buffer[..i]] + lines)[1..] == lines;
    var c := LineTaken(p.fields, p.buffer[..i]);
    Assoc(p.out, c.out, LinesTaken(c.fields, lines).out);
  }

  /** `parseSseStream`: the generator's variables, and the events it has yielded so far. */
  class SseStream {
    var buffer: string
    var event: string
    var data: seq<string>
    var id: Option<string>
    var yielded: seq<Event>

    ghost function Now(): Parser
      reads this
    {
      Parser(buffer, Fields(event, data, id), yielded)
    }

    constructor ()
      ensures Now() == START
    {
      buffer, event, data, id, yielded := "", "", [], None, [];
    }

    method Flush()
      modifies this
      ensures buffer == old(buffer)
      ensures var c := Flushed(old(Now()).fields);
        Now().fields == c.fields && yielded == old(yielded) + c.out
    {
      if data == [] && event == "" { return; }
      yielded := yielded + [Event(if event == "" then "message" else event, Join(data),
                                  if id == Some("") then None else id)];
      event, data, id := "", [], None;
    }

    method TakeLine(rawLine: string)
      modifies this
      ensures buffer == old(buffer)
      ensures var c := LineTaken(old(Now()).fields, rawLine);
        Now().fields == c.fields && yielded == old(yielded) + c.out
    {
      var line := ChopCr(rawLine);
      if line == "" {
        Flush();
        return;
      }
      if line[0] == ':' { return; }
      var field, value := FieldName(line), FieldValue(line);
      if field == "event" {
        event := value;
      } else if field == "data" {
        data := data + [value];
      } else if field == "id" {
        id := Some(value);
      }
    }

    method Feed(chunk: string)
      modifies this
      ensures Now() == Fed(old(Now()), chunk)
    {
      ghost var goal := Fed(Now(), chunk);
      buffer := buffer + chunk;
      assert buffer + "" == buffer;
      var nl := Find(buffer, "\n");
      while nl.Some?
        invariant nl == Find(buffer, "\n")
        invariant Fed(Now(), "") == goal
        decreases |buffer|
      {
        FedLine(Now(), nl.value);
        var rawLine := buffer[..nl.value];
        buffer := buffer[nl.value + 1..];
        TakeLine(rawLine);
        nl := Find(buffer, "\n");
      }
      FedNothing(Now());
    }

    method Finish()
      modifies this
      ensures yielded == Finished(old(Now()))
    {
      if buffer != "" {
        var trimmed := ChopCr(buffer);
        if trimmed != "" { data := data + [trimmed]; }
        Flush();
      }
    }
  }

  /** The whole generator; the abort, if any, is noticed when chunk `abortedAt` arrives. */
  method ParseStream(body: seq<string>, abortedAt: Option<nat>) returns (events: seq<Event>)
    ensures events == if abortedAt.Some? && abortedAt.value < |body| then ParsedUntil(body, abortedAt.value)
                      else Parsed(body)
  {
    var stream := new SseStream();
    for i := 0 to |body|
      invariant stream.Now() == FedAll(START, body[..i])
      invariant abortedAt.Some? ==> i <= abortedAt.value
    {
      if abortedAt == Some(i) { return stream.yielded; }
      stream.Feed(body[i]);
      FedAllAppend(START, body[..i], [body[i]]);
      PrefixSnoc(body, i);
      assert FedAll(FedAll(START, body[..i]), [body[i]]) == Fed(FedAll(START, body[..i]), body[i]);
    }
    assert body[..|body|] == body;
    stream.Finish();
    return stream.yielded;
  }
}
