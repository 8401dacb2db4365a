/**
 The token usage of a turn, read back from the session's transcript: the usages after the last user message,
 if that message is this turn's prompt.
 */
module TurnUsage {
  import opened Options
  import opened JsStrings
  import Splitting

  datatype Role = User | Assistant | OtherRole

  datatype Block = TextBlock(text: string) | OtherBlock

  datatype Content = Text(text: string) | Blocks(blocks: seq<Block>) | OtherContent

  /** A field meant to be a count: a finite number, or anything else. */
  datatype Value = Finite(n: real) | NotFinite

  datatype Usage = Usage(input: Value, output: Value, cacheRead: Value, cacheWrite: Value)

  /** `usage` is there if it is an object, `model` and `provider` if they are strings other than the empty one. */
  datatype Message = Message(
    role: Role, content: Content, usage: Option<Usage>, model: Option<string>, provider: Option<string>)

  datatype Totals = Totals(input: nat, output: nat, cacheRead: nat, cacheCreation: nat, calls: nat)

  datatype Summed = Summed(totals: Totals, model: Option<string>, provider: Option<string>, providers: seq<string>)

  datatype Decoded =
    | Invalid
    | NoUserMessage(windowFull: bool)
    | PromptMismatch
    | NoUsage
    | Ok(usage: Summed)

  datatype Payload = NotMessages | Messages(messages: seq<Message>)

  const ZERO := Totals(0, 0, 0, 0, 0)

  function Plus(a: Totals, b: Totals): Totals {
    Totals(a.input + b.input, a.output + b.output, a.cacheRead + b.cacheRead,
           a.cacheCreation + b.cacheCreation, a.calls + b.calls)
  }

  /** The whole tokens of a positive count, none of anything else. */
  function TokenCount(v: Value): (c: nat)
    ensures v.Finite? && v.n > 0.0 ==> c as real <= v.n < c as real + 1.0
    ensures !v.Finite? || v.n <= 0.0 ==> c == 0
  {
    if v.Finite? && v.n > 0.0 then v.n.Floor else 0
  }

  function Counted(u: Usage): Totals {
    Totals(TokenCount(u.input), TokenCount(u.output), TokenCount(u.cacheRead), TokenCount(u.cacheWrite), 1)
  }

  /** A block that is no text counts as an empty one. */
  function BlockTexts(blocks: seq<Block>): seq<string> {
    if blocks == [] then []
    else [if blocks[0].TextBlock? then blocks[0].text else ""] + BlockTexts(blocks[1..])
  }

  function TranscriptText(c: Content): string {
    match c
    case Text(text) => text
    case Blocks(blocks) => Splitting.Join(BlockTexts(blocks))
    case OtherContent => ""
  }

  // ----- the specification

  predicate Billed(m: Message) {
    m.role.Assistant? && m.usage.Some?
  }

  function Last<T>(s: seq<T>): T
    requires s != []
  {
    s[|s| - 1]
  }

  function Front<T>(s: seq<T>): seq<T>
    requires s != []
  {
    s[..|s| - 1]
  }

  function Total(ms: seq<Message>): Totals {
    if ms == [] then ZERO
    else if Billed(Last(ms)) then Plus(Total(Front(ms)), Counted(Last(ms).usage.value)) else Total(Front(ms))
  }

  function LastModel(ms: seq<Message>): Option<string> {
    if ms == [] then None
    else if Billed(Last(ms)) && Last(ms).model.Some? then Last(ms).model else LastModel(Front(ms))
  }

  predicate Names(m: Message, p: string) {
    Billed(m) && m.provider == Some(p)
  }

  function LastProvider(ms: seq<Message>): Option<string> {
    if ms == [] then None
    else if Billed(Last(ms)) && Last(ms).provider.Some? then Last(ms).provider else LastProvider(Front(ms))
  }

  function Noted(providers: seq<string>, m: Message): seq<string> {
    if Billed(m) && m.provider.Some? && m.provider.value !in providers then providers + [m.provider.value]
    else providers
  }

  function FirstUses(ms: seq<Message>): seq<string> {
    if ms == [] then [] else Noted(FirstUses(Front(ms)), Last(ms))
  }

  function LastUser(ms: seq<Message>): (k: Option<nat>)
    ensures k.Some? ==> k.value < |ms|
  {
    if ms == [] then None
    else if Last(ms).role.User? then Some(|ms| - 1) else LastUser(Front(ms))
  }

  /** The guard against billing another turn: a prompt that is not blank has to be in the message. */
  predicate Asks(user: Message, prompt: string) {
    Trim(prompt) == "" || Includes(TranscriptText(user.content), Trim(prompt))
  }

  function Summing(ms: seq<Message>): Summed {
    Summed(Total(ms), LastModel(ms), LastProvider(ms), FirstUses(ms))
  }

  function Summary(tail: seq<Message>): Decoded {
    if Total(tail).calls == 0 then NoUsage
    else Ok(Summing(tail))
  }

  function Decode(ms: seq<Message>, prompt: string, limit: int): Decoded {
    match LastUser(ms)
    case None => NoUserMessage(|ms| >= limit)
    case Some(k) => if Asks(ms[k], prompt) then Summary(ms[k + 1..]) else PromptMismatch
  }

  // ----- the sums, field by field

  function Sum(ms: seq<Message>, field: Usage -> Value): nat {
    if ms == [] then 0
    else Sum(Front(ms), field) + (if Billed(Last(ms)) then TokenCount(field(Last(ms).usage.value)) else 0)
  }

  function BilledOf(ms: seq<Message>): seq<Message> {
    if ms == [] then [] else BilledOf(Front(ms)) + (if Billed(Last(ms)) then [Last(ms)] else [])
  }

  /** Each total sums its own field over the billed messages, and `calls` counts them. */
  lemma {:induction false} TotalInFigures(ms: seq<Message>)
    ensures Total(ms).input == Sum(ms, (u: Usage) => u.input)
    ensures Total(ms).output == Sum(ms, (u: Usage) => u.output)
    ensures Total(ms).cacheRead == Sum(ms, (u: Usage) => u.cacheRead)
    ensures Total(ms).cacheCreation == Sum(ms, (u: Usage) => u.cacheWrite)
    ensures Total(ms).calls == |BilledOf(ms)|
  {
    if ms != [] { TotalInFigures(Front(ms)); }
  }

  lemma {:induction false} LastModelAt(ms: seq<Message>) returns (i: nat)
    requires LastModel(ms).Some?
    ensures i < |ms| && Billed(ms[i]) && ms[i].model == LastModel(ms)
    ensures forall j :: i < j < |ms| && Billed(ms[j]) ==> ms[j].model.None?
  {
    i := |ms| - 1;
    if !(Billed(Last(ms)) && Last(ms).model.Some?) {
      i := LastModelAt(Front(ms));
      assert forall j :: 0 <= j < |ms| - 1 ==> ms[j] == Front(ms)[j];
    }
  }

  lemma {:induction false} NoLastModel(ms: seq<Message>)
    requires LastModel(ms).None?
    ensures forall i :: 0 <= i < |ms| && Billed(ms[i]) ==> ms[i].model.None?
  {
    if ms != [] {
      NoLastModel(Front(ms));
      assert forall j :: 0 <= j < |ms| - 1 ==> ms[j] == Front(ms)[j];
    }
  }

  /** The model is that of the last billed message that names one. */
  lemma LastModelIs(ms: seq<Message>)
    ensures match LastModel(ms)
      case None => forall i :: 0 <= i < |ms| && Billed(ms[i]) ==> ms[i].model.None?
      case Some(x) => exists i :: 0 <= i < |ms| && Billed(ms[i]) && ms[i].model == Some(x)
                                  && forall j :: i < j < |ms| && Billed(ms[j]) ==> ms[j].model.None?
  {
    if LastModel(ms).Some? { var i := LastModelAt(ms); } else { NoLastModel(ms); }
  }

  lemma {:induction false} LastProviderAt(ms: seq<Message>) returns (i: nat)
    requires LastProvider(ms).Some?
    ensures i < |ms| && Billed(ms[i]) && ms[i].provider == LastProvider(ms)
    ensures forall j :: i < j < |ms| && Billed(ms[j]) ==> ms[j].provider.None?
  {
    i := |ms| - 1;
    if !(Billed(Last(ms)) && Last(ms).provider.Some?) {
      i := LastProviderAt(Front(ms));
      assert forall j :: 0 <= j < |ms| - 1 ==> ms[j] == Front(ms)[j];
    }
  }

  lemma {:induction false} NoLastProvider(ms: seq<Message>)
    requires LastProvider(ms).None?
    ensures forall i :: 0 <= i < |ms| && Billed(ms[i]) ==> ms[i].provider.None?
  {
    if ms != [] {
      NoLastProvider(Front(ms));
      assert forall j :: 0 <= j < |ms| - 1 ==> ms[j] == Front(ms)[j];
    }
  }

  /** And the provider that of the last that names one. */
  lemma LastProviderIs(ms: seq<Message>)
    ensures match LastProvider(ms)
      case None => forall i :: 0 <= i < |ms| && Billed(ms[i]) ==> ms[i].provider.None?
      case Some(x) => exists i :: 0 <= i < |ms| && Billed(ms[i]) && ms[i].provider == Some(x)
                                  && forall j :: i < j < |ms| && Billed(ms[j]) ==> ms[j].provider.None?
  {
    if LastProvider(ms).Some? { var i := LastProviderAt(ms); } else { NoLastProvider(ms); }
  }

  /** A tail without a billed message has no usage; any other is summed up. */
  lemma SummaryIff(tail: seq<Message>)
    ensures Summary(tail) == NoUsage <==> forall j :: 0 <= j < |tail| ==> !Billed(tail[j])
    ensures Summary(tail) != NoUsage ==>
      Summary(tail) == Ok(Summed(Total(tail), LastModel(tail), LastProvider(tail), FirstUses(tail)))
  {
    CallsIff(tail);
  }

  /** A transcript without a user message says so, and whether the window was full. */
  lemma NoUserIsSaid(ms: seq<Message>, prompt: string, limit: int)
    requires NoUser(ms)
    ensures Decode(ms, prompt, limit) == NoUserMessage(|ms| >= limit)
  {
    NoLastUser(ms);
  }

  // ----- the guard

  lemma IncludesAround(before: string, s: string, after: string, part: string)
    requires Includes(s, part)
    ensures Includes(before + s + after, part)
  {
    var k :| 0 <= k <= |s| && part <= s[k..];
    var whole := before + s + after;
    assert whole[|before| + k..] == s[k..] + after;
    assert part <= whole[|before| + k..];
  }

  lemma {:induction false} JoinIncludes(texts: seq<string>, i: nat, part: string)
    requires i < |texts| && Includes(texts[i], part)
    ensures Includes(Splitting.Join(texts), part)
  {
    if |texts| > 1 {
      if i == 0 {
        IncludesAround("", texts[0], "\n" + Splitting.Join(texts[1..]), part);
        assert "" + texts[0] + ("\n" + Splitting.Join(texts[1..])) == Splitting.Join(texts);
      } else {
        JoinIncludes(texts[1..], i - 1, part);
        IncludesAround(texts[0] + "\n", Splitting.Join(texts[1..]), "", part);
        assert texts[0] + "\n" + Splitting.Join(texts[1..]) + "" == Splitting.Join(texts);
      }
    }
  }

  lemma {:induction false} BlockTextAt(blocks: seq<Block>, i: nat)
    requires i < |blocks| && blocks[i].TextBlock?
    ensures i < |BlockTexts(blocks)| && BlockTexts(blocks)[i] == blocks[i].text
  {
    if i > 0 { BlockTextAt(blocks[1..], i - 1); }
  }

  /** A prompt wrapped in an envelope is recognised, whichever text block holds it. */
  lemma WrappedPromptIsRecognised(user: Message, blocks: seq<Block>, i: nat, prompt: string)
    requires user.content == Blocks(blocks) && i < |blocks| && blocks[i].TextBlock?
    requires Includes(blocks[i].text, Trim(prompt))
    ensures Asks(user, prompt)
  {
    BlockTextAt(blocks, i);
    JoinIncludes(BlockTexts(blocks), i, Trim(prompt));
  }

  // ----- what decoding reads

  predicate NoUser(ms: seq<Message>) {
    forall k :: 0 <= k < |ms| ==> !ms[k].role.User?
  }

  lemma {:induction false} LastUserIs(pre: seq<Message>, user: Message, tail: seq<Message>)
    requires user.role.User? && NoUser(tail)
    ensures LastUser(pre + [user] + tail) == Some(|pre|)
    decreases |tail|
  {
    var ms := pre + [user] + tail;
    if tail == [] {
      assert Last(ms) == user;
    } else {
      assert Last(ms) == Last(tail) && Front(ms) == pre + [user] + Front(tail);
      LastUserIs(pre, user, Front(tail));
    }
  }

  lemma {:induction false} NoLastUser(ms: seq<Message>)
    requires NoUser(ms)
    ensures LastUser(ms) == None
  {
    if ms != [] { NoLastUser(Front(ms)); }
  }

  /** Whatever comes before the last user message is ignored. */
  lemma OnlyTheLastTurnCounts(pre: seq<Message>, user: Message, tail: seq<Message>, prompt: string, limit: int)
    requires user.role.User? && NoUser(tail)
    ensures Decode(pre + [user] + tail, prompt, limit) == if Asks(user, prompt) then Summary(tail) else PromptMismatch
  {
    LastUserIs(pre, user, tail);
    assert (pre + [user] + tail)[|pre| + 1..] == tail;
  }

  /** What the gateway returns of a transcript: its last `limit` messages. */
  function Window(ms: seq<Message>, limit: nat): seq<Message> {
    if |ms| <= limit then ms else ms[|ms| - limit..]
  }

  /** A window with the turn's user message in it decodes as the whole transcript; one without says it is full. */
  lemma WindowIsEnough(pre: seq<Message>, user: Message, tail: seq<Message>, prompt: string, limit: nat)
    requires user.role.User? && NoUser(tail)
    ensures Decode(Window(pre + [user] + tail, limit), prompt, limit) ==
            if |tail| >= limit then NoUserMessage(true) else Decode(pre + [user] + tail, prompt, limit)
  {
    var ms := pre + [user] + tail;
    if |tail| >= limit {
      assert Window(ms, limit) == tail[|tail| - limit..];
      NoLastUser(tail[|tail| - limit..]);
    } else {
      OnlyTheLastTurnCounts(pre, user, tail, prompt, limit);
      if |ms| > limit {
        var cut := pre[|ms| - limit..];
        assert Window(ms, limit) == cut + [user] + tail;
        OnlyTheLastTurnCounts(cut, user, tail, prompt, limit);
      }
    }
  }

  // ----- every usage once

  lemma {:induction false} TotalAppend(a: seq<Message>, b: seq<Message>)
    ensures Total(a + b) == Plus(Total(a), Total(b))
    decreases |b|
  {
    if b == [] {
      assert a + b == a;
    } else {
      assert Last(a + b) == Last(b) && Front(a + b) == a + Front(b);
      TotalAppend(a, Front(b));
    }
  }

  /** A turn and the messages it wrote: its user message and what followed, or nothing at all. */
  datatype Turn = Turn(prompt: string, wrote: seq<Message>)

  predicate Silent(t: Turn) {
    t.wrote == []
  }

  /** The turn wrote its own user message, which carries its prompt, and all of it is in the window. */
  predicate Own(t: Turn, limit: nat) {
    && 0 < |t.wrote| <= limit
    && t.wrote[0].role.User? && Asks(t.wrote[0], t.prompt) && NoUser(t.wrote[1..])
  }

  function Transcript(before: seq<Message>, turns: seq<Turn>): seq<Message> {
    if turns == [] then before else Transcript(before, Front(turns)) + Last(turns).wrote
  }

  function Charged(d: Decoded): Totals {
    if d.Ok? then d.usage.totals else ZERO
  }

  /** The decoding done once the last of the turns has ended. */
  function LastDecoded(before: seq<Message>, turns: seq<Turn>, limit: nat): Decoded
    requires turns != []
  {
    Decode(Window(Transcript(before, turns), limit), Last(turns).prompt, limit)
  }

  /** What is billed in all, decoding after each turn. */
  function Bill(before: seq<Message>, turns: seq<Turn>, limit: nat): Totals {
    if turns == [] then ZERO
    else Plus(Bill(before, Front(turns), limit), Charged(LastDecoded(before, turns, limit)))
  }

  predicate Turns(turns: seq<Turn>, limit: nat) {
    forall k :: 0 <= k < |turns| ==> Silent(turns[k]) || Own(turns[k], limit)
  }

  /** A silent turn whose prompt happens to be in the last user message of the window, with usages after it. */
  predicate Repeats(ms: seq<Message>, prompt: string) {
    match LastUser(ms)
    case None => false
    case Some(k) => Asks(ms[k], prompt) && exists j :: k < j < |ms| && Billed(ms[j])
  }

  predicate NoneRepeats(before: seq<Message>, turns: seq<Turn>, limit: nat) {
    forall k :: 0 <= k < |turns| && Silent(turns[k]) ==>
      !Repeats(Window(Transcript(before, turns[..k]), limit), turns[k].prompt)
  }

  lemma {:induction false} CallsIff(ms: seq<Message>)
    ensures Total(ms).calls > 0 <==> exists j :: 0 <= j < |ms| && Billed(ms[j])
  {
    if ms != [] {
      CallsIff(Front(ms));
      if Billed(Last(ms)) {
        assert Billed(ms[|ms| - 1]);
      } else if exists j :: 0 <= j < |ms| && Billed(ms[j]) {
        var j :| 0 <= j < |ms| && Billed(ms[j]);
        assert Front(ms)[j] == ms[j];
      }
    }
  }

  lemma UserThenTail(user: Message, tail: seq<Message>)
    requires user.role.User?
    ensures Total([user] + tail) == Total(tail)
  {
    TotalAppend([user], tail);
    assert Total([user]) == ZERO;
  }

  lemma SummaryCharge(tail: seq<Message>)
    ensures Charged(Summary(tail)) == Total(tail)
  {
    if Total(tail).calls == 0 { ZeroCalls(tail); }
  }

  lemma OwnDecodes(pre: seq<Message>, t: Turn, limit: nat)
    requires Own(t, limit)
    ensures Decode(Window(pre + t.wrote, limit), t.prompt, limit) == Summary(t.wrote[1..])
  {
    var user, tail := t.wrote[0], t.wrote[1..];
    assert pre + t.wrote == pre + [user] + tail;
    WindowIsEnough(pre, user, tail, t.prompt, limit);
    OnlyTheLastTurnCounts(pre, user, tail, t.prompt, limit);
  }

  lemma OwnCharge(before: seq<Message>, turns: seq<Turn>, limit: nat)
    requires turns != [] && Own(Last(turns), limit)
    ensures Charged(LastDecoded(before, turns, limit)) == Total(Last(turns).wrote)
  {
    var t := Last(turns);
    OwnDecodes(Transcript(before, Front(turns)), t, limit);
    SummaryCharge(t.wrote[1..]);
    assert t.wrote == [t.wrote[0]] + t.wrote[1..];
    UserThenTail(t.wrote[0], t.wrote[1..]);
  }

  lemma {:induction false} ZeroCalls(ms: seq<Message>)
    requires Total(ms).calls == 0
    ensures Total(ms) == ZERO
  {
    if ms != [] { ZeroCalls(Front(ms)); }
  }

  /** A silent turn is billed another turn's usages exactly if it repeats. */
  lemma SilentCharge(before: seq<Message>, turns: seq<Turn>, limit: nat)
    requires turns != [] && Silent(Last(turns))
    ensures Charged(LastDecoded(before, turns, limit)).calls > 0 <==>
            Repeats(Window(Transcript(before, Front(turns)), limit), Last(turns).prompt)
    ensures Charged(LastDecoded(before, turns, limit)).calls == 0 ==> Charged(LastDecoded(before, turns, limit)) == ZERO
  {
    var ms := Window(Transcript(before, Front(turns)), limit);
    assert Transcript(before, turns) == Transcript(before, Front(turns));
    if LastUser(ms).Some? {
      var k := LastUser(ms).value;
      CallsIff(ms[k + 1..]);
      if exists j :: k < j < |ms| && Billed(ms[j]) {
        var j :| k < j < |ms| && Billed(ms[j]);
        assert ms[k + 1..][j - k - 1] == ms[j];
      }
    }
  }

  lemma PlusMore(a: Totals, b: Totals, x: Totals)
    ensures Plus(a, x) == Plus(b, x) <==> a == b
    ensures Plus(a, ZERO) == a
  {}

  lemma NoneRepeatsSnoc(before: seq<Message>, turns: seq<Turn>, limit: nat)
    requires turns != []
    ensures NoneRepeats(before, turns, limit) <==>
            NoneRepeats(before, Front(turns), limit)
            && (Silent(Last(turns)) ==>
                  !Repeats(Window(Transcript(before, Front(turns)), limit), Last(turns).prompt))
  {
    var front, n := Front(turns), |turns| - 1;
    assert turns[..n] == front;
    assert forall k :: 0 <= k < n ==> front[k] == turns[k] && front[..k] == turns[..k];
  }

  /** How far what was billed is ahead of what was written. */
  predicate Ahead(billed: Totals, written: Totals, exact: bool) {
    if exact then billed == written else billed.calls > written.calls
  }

  lemma {:induction false} BillIs(before: seq<Message>, turns: seq<Turn>, limit: nat)
    requires Turns(turns, limit)
    ensures Ahead(Plus(Total(before), Bill(before, turns, limit)), Total(Transcript(before, turns)),
                  NoneRepeats(before, turns, limit))
  {
    if turns == [] {
      PlusMore(Total(before), ZERO, ZERO);
    } else {
      var front := Front(turns);
      BillIs(before, front, limit);
      NoneRepeatsSnoc(before, turns, limit);
      var charge := Charged(LastDecoded(before, turns, limit));
      BillStep(Total(before), Bill(before, front, limit), charge, Bill(before, turns, limit));
      TotalAppend(Transcript(before, front), Last(turns).wrote);
      var billed := Plus(Total(before), Bill(before, front, limit));
      PlusMore(billed, Total(Transcript(before, front)), charge);
      if Silent(Last(turns)) {
        SilentCharge(before, turns, limit);
        assert Total(Last(turns).wrote) == ZERO;
      } else {
        OwnCharge(before, turns, limit);
      }
    }
  }

  lemma BillStep(start: Totals, bill: Totals, charge: Totals, next: Totals)
    requires next == Plus(bill, charge)
    ensures Plus(start, next) == Plus(Plus(start, bill), charge)
  {}

  /**
   Decoding after each turn and adding up bills every usage written by the turns once and only once,
   exactly when no silent turn repeats.
   */
  lemma EveryUsageOnceIff(before: seq<Message>, turns: seq<Turn>, limit: nat)
    requires Turns(turns, limit)
    ensures Plus(Total(before), Bill(before, turns, limit)) == Total(Transcript(before, turns)) <==>
            NoneRepeats(before, turns, limit)
  {
    BillIs(before, turns, limit);
  }

  lemma PlainPromptAsks(user: Message, prompt: string)
    requires user.content == Text(prompt)
    ensures Asks(user, prompt)
  {
    var before, after := TrimIsExact(prompt);
    assert Trim(prompt) <= Trim(prompt)[0..];
    IncludesAround(before, Trim(prompt), after, Trim(prompt));
  }

  /** Say the same thing twice, the second time to be answered without a model call: the one call is billed twice. */
  lemma SilentTurnIsBilledTwice(prompt: string, reply: Message, limit: nat)
    requires Billed(reply) && limit >= 2
    ensures var user := Message(User, Text(prompt), None, None, None);
      var turns := [Turn(prompt, [user, reply]), Turn(prompt, [])];
      var cost := Counted(reply.usage.value);
      && Turns(turns, limit) && !NoneRepeats([], turns, limit)
      && Total(Transcript([], turns)) == cost && Bill([], turns, limit) == Plus(cost, cost)
  {
    var user := Message(User, Text(prompt), None, None, None);
    var said, again := Turn(prompt, [user, reply]), Turn(prompt, []);
    var cost := Counted(reply.usage.value);
    PlainPromptAsks(user, prompt);
    TotalOfOne(reply);
    UserThenTail(user, [reply]);
    assert [user] + [reply] == [user, reply] && [user, reply][1..] == [reply];
    assert Front([said, again]) == [said] && Front([said]) == [];
    OneTurn(said);
    assert Transcript([], [said, again]) == [user, reply] + [];
    assert [user, reply] + [] == [user, reply];
    TwoMessages(user, reply, prompt, limit);
    assert Bill([], [said], limit) == Plus(ZERO, cost);
    BillIs([], [said, again], limit);
  }

  lemma TwoMessages(user: Message, reply: Message, prompt: string, limit: int)
    requires user.role.User? && Asks(user, prompt) && Billed(reply)
    ensures Charged(Decode([user, reply], prompt, limit)) == Counted(reply.usage.value)
  {
    OnlyTheLastTurnCounts([], user, [reply], prompt, limit);
    assert [] + [user] + [reply] == [user, reply];
    SummaryCharge([reply]);
    TotalOfOne(reply);
  }

  lemma TotalOfOne(reply: Message)
    requires Billed(reply)
    ensures Total([reply]) == Counted(reply.usage.value)
  {
    assert Last([reply]) == reply && Front([reply]) == [];
    assert Total([reply]) == Plus(Total([]), Counted(reply.usage.value));
  }

  lemma OneTurn(t: Turn)
    ensures Transcript([], [t]) == t.wrote
  {
    assert Front([t]) == [] && Last([t]) == t;
    assert Transcript([], [t]) == [] + t.wrote;
  }

  /** In particular where every turn wrote its own user message. */
  lemma OwnTurnsAreBilledOnce(before: seq<Message>, turns: seq<Turn>, limit: nat)
    requires forall k :: 0 <= k < |turns| ==> Own(turns[k], limit)
    ensures Plus(Total(before), Bill(before, turns, limit)) == Total(Transcript(before, turns))
  {
    BillIs(before, turns, limit);
  }

  // ----- the providers

  /** `p` is named before `q` is. */
  predicate NamedBefore(ms: seq<Message>, p: string, q: string) {
    exists i :: 0 <= i < |ms| && Names(ms[i], p) && forall j :: 0 <= j <= i ==> !Names(ms[j], q)
  }

  /** The providers are those some billed message names, none of them twice. */
  lemma {:induction false} ProvidersExact(ms: seq<Message>)
    ensures forall p :: p in FirstUses(ms) <==> exists i :: 0 <= i < |ms| && Names(ms[i], p)
    ensures forall a, b :: 0 <= a < b < |FirstUses(ms)| ==> FirstUses(ms)[a] != FirstUses(ms)[b]
  {
    if ms != [] {
      var front := Front(ms);
      ProvidersExact(front);
      forall p ensures p in FirstUses(ms) <==> exists i :: 0 <= i < |ms| && Names(ms[i], p) {
        if p in FirstUses(front) {
          var i :| 0 <= i < |front| && Names(front[i], p);
          assert Names(ms[i], p);
        }
        if Names(Last(ms), p) { assert Names(ms[|ms| - 1], p); }
        if i :| 0 <= i < |ms| && Names(ms[i], p) {
          assert i < |front| ==> Names(front[i], p);
        }
      }
    }
  }

  /** They stand in the order in which they are first named. */
  lemma {:induction false} ProvidersInOrder(ms: seq<Message>, a: nat, b: nat)
    requires a < b < |FirstUses(ms)|
    ensures NamedBefore(ms, FirstUses(ms)[a], FirstUses(ms)[b])
  {
    var front := Front(ms);
    var p, q := FirstUses(ms)[a], FirstUses(ms)[b];
    ProvidersExact(front);
    if b < |FirstUses(front)| {
      ProvidersInOrder(front, a, b);
      var i :| 0 <= i < |front| && Names(front[i], p) && forall j :: 0 <= j <= i ==> !Names(front[j], q);
      assert Names(ms[i], p) && forall j :: 0 <= j <= i ==> ms[j] == front[j];
    } else {
      assert p in FirstUses(front) && q !in FirstUses(front);
      var i :| 0 <= i < |front| && Names(front[i], p);
      assert Names(ms[i], p) && forall j :: 0 <= j <= i ==> ms[j] == front[j];
    }
  }

  // ----- the program

  method FindLastUser(messages: seq<Message>) returns (lastUser: int)
    ensures lastUser == match LastUser(messages) case None => -1 case Some(k) => k
  {
    lastUser := -1;
    for i := 0 to |messages|
      invariant lastUser == match LastUser(messages[..i]) case None => -1 case Some(k) => k
    {
      assert Front(messages[..i + 1]) == messages[..i];
      if messages[i].role.User? { lastUser := i; }
    }
    assert messages[..|messages|] == messages;
  }

  method AddUsage(usage: Summed, m: Message, ghost before: seq<Message>) returns (next: Summed)
    requires usage == Summing(before) && Billed(m)
    ensures next == Summing(before + [m])
  {
    assert Last(before + [m]) == m && Front(before + [m]) == before;
    var u := m.usage.value;
    next := usage.(totals := Totals(
      usage.totals.input + TokenCount(u.input),
      usage.totals.output + TokenCount(u.output),
      usage.totals.cacheRead + TokenCount(u.cacheRead),
      usage.totals.cacheCreation + TokenCount(u.cacheWrite),
      usage.totals.calls + 1));
    if m.model.Some? { next := next.(model := m.model); }
    if m.provider.Some? {
      next := next.(provider := m.provider);
      if m.provider.value !in next.providers {
        next := next.(providers := next.providers + [m.provider.value]);
      }
    }
  }

  lemma SkipsOthers(ms: seq<Message>, m: Message)
    requires !Billed(m)
    ensures Summing(ms + [m]) == Summing(ms)
  {
    assert Last(ms + [m]) == m && Front(ms + [m]) == ms;
  }

  method DecodeOpenclawTurnUsage(result: Payload, promptText: string, limit: int) returns (d: Decoded)
    ensures d == if result.NotMessages? then Invalid else Decode(result.messages, promptText, limit)
  {
    if result.NotMessages? { return Invalid; }
    var messages := result.messages;
    var lastUser := FindLastUser(messages);
    if lastUser == -1 { return NoUserMessage(|messages| >= limit); }
    var wanted := Trim(promptText);
    if wanted != "" && !Includes(TranscriptText(messages[lastUser].content), wanted) { return PromptMismatch; }
    var tail := messages[lastUser + 1..];
    var usage := Summed(ZERO, None, None, []);
    for i := 0 to |tail|
      invariant usage == Summing(tail[..i])
    {
      assert tail[..i + 1] == tail[..i] + [tail[i]];
      if !tail[i].role.Assistant? || tail[i].usage.None? {
        SkipsOthers(tail[..i], tail[i]);
        continue;
      }
      usage := AddUsage(usage, tail[i], tail[..i]);
    }
    assert tail[..|tail|] == tail;
    d := if usage.totals.calls == 0 then NoUsage else Ok(usage);
  }
}
