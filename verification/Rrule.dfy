/**
 The recurrence rules of the schedule presets (RRULE, section 3.3.10 of RFC 5545), printed from a time of day
 and a weekday, and read back from a rule. A string of digits is a number; no other string is.
 */
module Rrule {
  import opened Options

  datatype Preset = Hourly | Daily | Weekdays | Weekly | Custom

  const WEEKDAYS := ["MO", "TU", "WE", "TH", "FR", "SA", "SU"]

  // ----- fields

  function Fields(s: string, sep: char): (fields: seq<string>)
    ensures fields != []
  {
    if s == "" then [""]
    else
      var more := Fields(s[1..], sep);
      if s[0] == sep then [""] + more else [[s[0]] + more[0]] + more[1..]
  }

  function Joined(fields: seq<string>, sep: char): string
    requires fields != []
  {
    if |fields| == 1 then fields[0] else fields[0] + [sep] + Joined(fields[1..], sep)
  }

  lemma {:induction false} FieldThenMore(field: string, more: string, sep: char)
    requires sep !in field
    ensures Fields(field, sep) == [field]
    ensures Fields(field + [sep] + more, sep) == [field] + Fields(more, sep)
  {
    var s := field + [sep] + more;
    if field == "" {
      assert s[1..] == more;
    } else {
      assert s[1..] == field[1..] + [sep] + more;
      FieldThenMore(field[1..], more, sep);
      assert [field[0]] + field[1..] == field;
    }
  }

  predicate Plain(fields: seq<string>, sep: char) {
    forall k :: 0 <= k < |fields| ==> sep !in fields[k]
  }

  lemma {:induction false} FieldsOfJoined(fields: seq<string>, sep: char)
    requires fields != [] && Plain(fields, sep)
    ensures Fields(Joined(fields, sep), sep) == fields
  {
    if |fields| == 1 {
      FieldThenMore(fields[0], "", sep);
    } else {
      FieldThenMore(fields[0], Joined(fields[1..], sep), sep);
      FieldsOfJoined(fields[1..], sep);
    }
  }

  // ----- numbers

  function Digit(n: nat): char
    requires n < 10
  {
    '0' + n as char
  }

  predicate AllDigits(s: string) {
    forall k :: 0 <= k < |s| ==> '0' <= s[k] <= '9'
  }

  function Dec(n: nat): string {
    if n < 10 then [Digit(n)] else Dec(n / 10) + [Digit(n % 10)]
  }

  function FromDec(s: string): nat
    requires AllDigits(s)
  {
    if s == "" then 0 else 10 * FromDec(s[..|s| - 1]) + (s[|s| - 1] - '0') as nat
  }

  function Number(s: string): Option<nat> {
    if AllDigits(s) then Some(FromDec(s)) else None
  }

  function Text(n: Option<nat>): string {
    if n.Some? then Dec(n.value) else "NaN"
  }

  function Padded(s: string): string {
    if |s| == 0 then "00" else if |s| == 1 then "0" + s else s
  }

  lemma {:induction false} ReadPrinted(n: nat)
    ensures AllDigits(Dec(n)) && FromDec(Dec(n)) == n && Dec(n) != ""
  {
    if n < 10 {
      assert Dec(n)[..0] == "";
    } else {
      ReadPrinted(n / 10);
      assert Dec(n)[..|Dec(n)| - 1] == Dec(n / 10);
    }
  }

  // ----- the functions of the source

  function Clamp(n: Option<nat>, max: nat): nat {
    if n.None? then 0 else if n.value <= max then n.value else max
  }

  function ParseTime(time: string): (nat, nat) {
    var parts := Fields(time, ':');
    (Clamp(Number(parts[0]), 23), if |parts| > 1 then Clamp(Number(parts[1]), 59) else 0)
  }

  function RuleFields(preset: Preset, hour: nat, minute: nat, weekday: string): seq<string> {
    match preset
    case Hourly => ["RRULE:FREQ=HOURLY", "INTERVAL=1", "BYMINUTE=" + Dec(minute), "BYSECOND=0"]
    case Weekdays =>
      ["RRULE:FREQ=WEEKLY", "BYDAY=MO,TU,WE,TH,FR", "BYHOUR=" + Dec(hour), "BYMINUTE=" + Dec(minute), "BYSECOND=0"]
    case Weekly =>
      ["RRULE:FREQ=WEEKLY", "BYDAY=" + weekday, "BYHOUR=" + Dec(hour), "BYMINUTE=" + Dec(minute), "BYSECOND=0"]
    case _ => ["RRULE:FREQ=DAILY", "BYHOUR=" + Dec(hour), "BYMINUTE=" + Dec(minute), "BYSECOND=0"]
  }

  function PresetRrule(preset: Preset, time: string, weekday: string): string {
    var (hour, minute) := ParseTime(time);
    Joined(RuleFields(preset, hour, minute, weekday), ';')
  }

  function Upper(c: char): char {
    if 'a' <= c <= 'z' then c - 'a' + 'A' else c
  }

  /** `KEY=value` at the start of a field, in any case, with some value. */
  predicate Assigns(field: string, key: string) {
    && |field| > |key| + 1 && field[|key|] == '='
    && forall k :: 0 <= k < |key| ==> Upper(field[k]) == Upper(key[k])
  }

  function FirstAssigned(fields: seq<string>, key: string): Option<string> {
    if fields == [] then None
    else if Assigns(fields[0], key) then Some(fields[0][|key| + 1..])
    else FirstAssigned(fields[1..], key)
  }

  function RruleValue(rrule: string, key: string): Option<string> {
    FirstAssigned(Fields(rrule, ';'), key)
  }

  function Part(value: Option<string>, default: nat): string {
    Padded(Text(if value.Some? then Number(value.value) else Some(default)))
  }

  function RruleTime(rrule: string): string {
    Part(RruleValue(rrule, "BYHOUR"), 9) + ":" + Part(RruleValue(rrule, "BYMINUTE"), 0)
  }

  function RruleWeekday(rrule: string): string {
    var value := RruleValue(rrule, "BYDAY");
    var first := Fields(if value.Some? then value.value else "MO", ',')[0];
    if first in WEEKDAYS then first else "MO"
  }

  // ----- the rules as texts

  lemma JoinedFour(a: string, b: string, c: string, d: string)
    ensures Joined([a, b, c, d], ';') == a + ";" + b + ";" + c + ";" + d
  {
    assert [a, b, c, d][1..] == [b, c, d] && [b, c, d][1..] == [c, d] && [c, d][1..] == [d];
    assert Joined([c, d], ';') == c + ";" + d;
    assert Joined([b, c, d], ';') == b + ";" + (c + ";" + d);
  }

  lemma JoinedFive(a: string, b: string, c: string, d: string, e: string)
    ensures Joined([a, b, c, d, e], ';') == a + ";" + b + ";" + c + ";" + d + ";" + e
  {
    assert [a, b, c, d, e][1..] == [b, c, d, e];
    JoinedFour(b, c, d, e);
  }

  lemma Regrouped(a: string, b: string, hour: string, c: string, minute: string, d: string)
    ensures a + ";" + (b + hour) + ";" + (c + minute) + ";" + d
         == (a + ";" + b) + hour + (";" + c) + minute + (";" + d)
  {}

  function HourMinute(hour: nat, minute: nat): string {
    Dec(hour) + ";BYMINUTE=" + Dec(minute) + ";BYSECOND=0"
  }

  lemma DailyIs(hour: nat, minute: nat, weekday: string, preset: Preset)
    requires preset.Daily? || preset.Custom?
    ensures Joined(RuleFields(preset, hour, minute, weekday), ';')
         == "RRULE:FREQ=DAILY;BYHOUR=" + HourMinute(hour, minute)
  {
    var a := "RRULE:FREQ=DAILY";
    JoinedFour(a, "BYHOUR=" + Dec(hour), "BYMINUTE=" + Dec(minute), "BYSECOND=0");
    Regrouped(a, "BYHOUR=", Dec(hour), "BYMINUTE=", Dec(minute), "BYSECOND=0");
    assert a + ";" + "BYHOUR=" == "RRULE:FREQ=DAILY;BYHOUR=";
    Tail(a + ";" + "BYHOUR=", hour, minute);
  }

  lemma Tail(a: string, hour: nat, minute: nat)
    ensures a + Dec(hour) + (";" + "BYMINUTE=") + Dec(minute) + (";" + "BYSECOND=0") == a + HourMinute(hour, minute)
  {
    assert ";" + "BYMINUTE=" == ";BYMINUTE=" && ";" + "BYSECOND=0" == ";BYSECOND=0";
  }

  lemma OnDaysIs(hour: nat, minute: nat, days: string)
    ensures Joined(["RRULE:FREQ=WEEKLY", "BYDAY=" + days,
                    "BYHOUR=" + Dec(hour), "BYMINUTE=" + Dec(minute), "BYSECOND=0"], ';')
         == "RRULE:FREQ=WEEKLY;BYDAY=" + days + ";BYHOUR=" + HourMinute(hour, minute)
  {
    var a, b := "RRULE:FREQ=WEEKLY", "BYDAY=" + days;
    JoinedFive(a, b, "BYHOUR=" + Dec(hour), "BYMINUTE=" + Dec(minute), "BYSECOND=0");
    Regrouped(a + ";" + b, "BYHOUR=", Dec(hour), "BYMINUTE=", Dec(minute), "BYSECOND=0");
    Tail(a + ";" + b + ";" + "BYHOUR=", hour, minute);
    assert a + ";" + "BYDAY=" == "RRULE:FREQ=WEEKLY;BYDAY=" && ";" + "BYHOUR=" == ";BYHOUR=";
    assert a + ";" + b == (a + ";" + "BYDAY=") + days;
    assert a + ";" + b + ";" + "BYHOUR=" == a + ";" + b + (";" + "BYHOUR=");
  }

  lemma HourlyIs(hour: nat, minute: nat, weekday: string)
    ensures Joined(RuleFields(Hourly, hour, minute, weekday), ';')
         == "RRULE:FREQ=HOURLY;INTERVAL=1" + ";BYMINUTE=" + Dec(minute) + ";BYSECOND=0"
  {
    var a, b := "RRULE:FREQ=HOURLY", "INTERVAL=1";
    JoinedFour(a, b, "BYMINUTE=" + Dec(minute), "BYSECOND=0");
    HourlyStart();
    Separated(a + ";" + b, ";", "BYMINUTE=", Dec(minute), ";", "BYSECOND=0");
    assert ";" + "BYMINUTE=" == ";BYMINUTE=" && ";" + "BYSECOND=0" == ";BYSECOND=0";
  }

  lemma HourlyStart()
    ensures "RRULE:FREQ=HOURLY" + ";" + "INTERVAL=1" == "RRULE:FREQ=HOURLY;INTERVAL=1"
  {}

  lemma Separated(a: string, s: string, b: string, n: string, t: string, c: string)
    ensures a + s + (b + n) + t + c == a + (s + b) + n + (t + c)
  {}

  /** The rule that each preset stands for; any but the first four print the daily one. */
  lemma RuleIs(preset: Preset, time: string, weekday: string)
    ensures var (hour, minute) := ParseTime(time);
      PresetRrule(preset, time, weekday) ==
      match preset
      case Hourly => "RRULE:FREQ=HOURLY;INTERVAL=1" + ";BYMINUTE=" + Dec(minute) + ";BYSECOND=0"
      case Weekdays => "RRULE:FREQ=WEEKLY;BYDAY=" + "MO,TU,WE,TH,FR" + ";BYHOUR=" + HourMinute(hour, minute)
      case Weekly => "RRULE:FREQ=WEEKLY;BYDAY=" + weekday + ";BYHOUR=" + HourMinute(hour, minute)
      case _ => "RRULE:FREQ=DAILY;BYHOUR=" + HourMinute(hour, minute)
  {
    var (hour, minute) := ParseTime(time);
    match preset {
      case Hourly => HourlyIs(hour, minute, weekday);
      case Weekdays =>
        OnDaysIs(hour, minute, "MO,TU,WE,TH,FR");
        WeekdaysField();
      case Weekly => OnDaysIs(hour, minute, weekday);
      case _ => DailyIs(hour, minute, weekday, preset);
    }
  }

  lemma WeekdaysField()
    ensures "BYDAY=" + "MO,TU,WE,TH,FR" == "BYDAY=MO,TU,WE,TH,FR"
  {}

  /** A number below a hundred is printed without a leading zero, and padded to its two digits. */
  lemma TwoDigits(n: nat)
    requires n < 100
    ensures Dec(n) == if n < 10 then ['0' + n as char] else ['0' + (n / 10) as char, '0' + (n % 10) as char]
    ensures Padded(Dec(n)) == ['0' + (n / 10) as char, '0' + (n % 10) as char]
  {
    if n >= 10 {
      assert Dec(n / 10) == [Digit(n / 10)];
    }
  }

  // ----- printing, then reading

  lemma Unlike(field: string, key: string, k: nat)
    requires k < |field| && k < |key| && Upper(field[k]) != Upper(key[k])
    ensures !Assigns(field, key)
  {}

  lemma Printed(key: string, value: string)
    requires value != ""
    ensures Assigns(key + "=" + value, key) && (key + "=" + value)[|key| + 1..] == value
  {}

  lemma NoSemicolon(s: string)
    requires AllDigits(s)
    ensures ';' !in s
  {}

  predicate SameButCase(a: string, b: string) {
    |a| == |b| && forall k :: 0 <= k < |a| ==> Upper(a[k]) == Upper(b[k])
  }

  lemma {:induction false} FirstAssignedSameKey(fields: seq<string>, key: string, other: string)
    requires SameButCase(key, other)
    ensures FirstAssigned(fields, key) == FirstAssigned(fields, other)
  {
    if fields != [] {
      assert Assigns(fields[0], key) <==> Assigns(fields[0], other);
      FirstAssignedSameKey(fields[1..], key, other);
    }
  }

  /** A key asked for in any case finds the same value. */
  lemma KeyCaseIsIgnored(rrule: string, key: string, other: string)
    requires SameButCase(key, other)
    ensures RruleValue(rrule, key) == RruleValue(rrule, other)
  {
    FirstAssignedSameKey(Fields(rrule, ';'), key, other);
  }

  /** A key written in any case, in whichever field comes first to assign it, is found with its value. */
  lemma LowerCaseIsRead(fields: seq<string>, n: nat, name: string, value: string, key: string)
    requires n < |fields| && Plain(fields, ';') && fields[n] == name + "=" + value
    requires SameButCase(name, key) && value != ""
    requires forall k :: 0 <= k < n ==> !Assigns(fields[k], key)
    ensures RruleValue(Joined(fields, ';'), key) == Some(value)
  {
    FieldsOfJoined(fields, ';');
    assert fields[n][|key| + 1..] == value;
    FirstIs(fields, key, n);
  }

  /** A key that no field assigns is not found. */
  lemma UnassignedIsAbsent(fields: seq<string>, key: string)
    requires fields != [] && Plain(fields, ';') && forall k :: 0 <= k < |fields| ==> !Assigns(fields[k], key)
    ensures RruleValue(Joined(fields, ';'), key) == None
  {
    FieldsOfJoined(fields, ';');
    FirstIs(fields, key, |fields|);
  }

  lemma RuleIsPlain(preset: Preset, hour: nat, minute: nat, weekday: string)
    requires preset.Weekly? ==> ';' !in weekday
    ensures Plain(RuleFields(preset, hour, minute, weekday), ';')
  {
    ReadPrinted(hour);
    ReadPrinted(minute);
    NoSemicolon(Dec(hour));
    NoSemicolon(Dec(minute));
  }

  /** The first of the fields to assign the key is number `n`, or none is where `n` is past the last. */
  lemma {:induction false} FirstIs(fields: seq<string>, key: string, n: nat)
    requires n <= |fields| && forall k :: 0 <= k < n ==> !Assigns(fields[k], key)
    requires n < |fields| ==> Assigns(fields[n], key)
    ensures FirstAssigned(fields, key) == if n < |fields| then Some(fields[n][|key| + 1..]) else None
  {
    if n > 0 { FirstIs(fields[1..], key, n - 1); }
  }

  lemma HourNotYet(preset: Preset, hour: nat, minute: nat, weekday: string, k: nat)
    requires k < |RuleFields(preset, hour, minute, weekday)|
    requires preset.Hourly? || k < HourAt(preset)
    ensures !Assigns(RuleFields(preset, hour, minute, weekday)[k], "BYHOUR")
  {
    var field := RuleFields(preset, hour, minute, weekday)[k];
    Unlike(field, "BYHOUR", if k == 0 || (preset.Hourly? && k == 1) then 0 else 2);
  }

  function HourAt(preset: Preset): nat {
    if preset.Hourly? then 4 else if preset.Weekdays? || preset.Weekly? then 2 else 1
  }

  lemma HourPrinted(preset: Preset, hour: nat, minute: nat, weekday: string)
    ensures FirstAssigned(RuleFields(preset, hour, minute, weekday), "BYHOUR") ==
            if preset.Hourly? then None else Some(Dec(hour))
  {
    ReadPrinted(hour);
    var fields, n := RuleFields(preset, hour, minute, weekday), HourAt(preset);
    assert forall k :: 0 <= k < n ==> !Assigns(fields[k], "BYHOUR") by {
      forall k | 0 <= k < n ensures !Assigns(fields[k], "BYHOUR") {
        HourNotYet(preset, hour, minute, weekday, k);
      }
    }
    if !preset.Hourly? { HourIsAt(preset, hour, minute, weekday); }
    FirstIs(fields, "BYHOUR", n);
  }

  lemma HourIsAt(preset: Preset, hour: nat, minute: nat, weekday: string)
    requires !preset.Hourly?
    ensures var field := RuleFields(preset, hour, minute, weekday)[HourAt(preset)];
      Assigns(field, "BYHOUR") && field[|"BYHOUR"| + 1..] == Dec(hour)
  {
    ReadPrinted(hour);
    assert RuleFields(preset, hour, minute, weekday)[HourAt(preset)] == "BYHOUR" + "=" + Dec(hour);
    Printed("BYHOUR", Dec(hour));
  }

  lemma MinuteNotYet(preset: Preset, hour: nat, minute: nat, weekday: string, k: nat)
    requires k <= HourAt(preset) && (preset.Hourly? ==> k < 2)
    ensures !Assigns(RuleFields(preset, hour, minute, weekday)[k], "BYMINUTE")
  {
    var field := RuleFields(preset, hour, minute, weekday)[k];
    Unlike(field, "BYMINUTE", if k == 0 || preset.Hourly? then 0 else 2);
  }

  lemma MinutePrinted(preset: Preset, hour: nat, minute: nat, weekday: string)
    ensures FirstAssigned(RuleFields(preset, hour, minute, weekday), "BYMINUTE") == Some(Dec(minute))
  {
    ReadPrinted(minute);
    var fields, n := RuleFields(preset, hour, minute, weekday), if preset.Hourly? then 2 else HourAt(preset) + 1;
    forall k | 0 <= k < n ensures !Assigns(fields[k], "BYMINUTE") {
      MinuteNotYet(preset, hour, minute, weekday, k);
    }
    assert fields[n] == "BYMINUTE" + "=" + Dec(minute);
    Printed("BYMINUTE", Dec(minute));
    FirstIs(fields, "BYMINUTE", n);
  }

  lemma DayPrinted(hour: nat, minute: nat, weekday: string)
    ensures FirstAssigned(RuleFields(Weekly, hour, minute, weekday), "BYDAY") ==
            if weekday == "" then None else Some(weekday)
  {
    var fields := RuleFields(Weekly, hour, minute, weekday);
    Unlike(fields[0], "BYDAY", 0);
    assert fields[1] == "BYDAY" + "=" + weekday;
    if weekday != "" {
      Printed("BYDAY", weekday);
      FirstIs(fields, "BYDAY", 1);
    } else {
      Unlike(fields[2], "BYDAY", 2);
      Unlike(fields[3], "BYDAY", 2);
      Unlike(fields[4], "BYDAY", 2);
      FirstIs(fields, "BYDAY", 5);
    }
  }

  lemma {:induction false} LeadingZero(s: string)
    requires AllDigits(s)
    ensures AllDigits("0" + s) && FromDec("0" + s) == FromDec(s)
  {
    if s == "" {
      assert "0"[..0] == "";
    } else {
      LeadingZero(s[..|s| - 1]);
      assert ("0" + s)[..|s|] == "0" + s[..|s| - 1];
    }
  }

  function TimeText(hour: nat, minute: nat): string {
    Padded(Dec(hour)) + ":" + Padded(Dec(minute))
  }

  lemma PaddedReads(n: nat)
    ensures AllDigits(Padded(Dec(n))) && FromDec(Padded(Dec(n))) == n
  {
    ReadPrinted(n);
    if |Dec(n)| == 1 { LeadingZero(Dec(n)); }
  }

  lemma TimeParses(hour: nat, minute: nat)
    ensures ParseTime(TimeText(hour, minute)) == (Clamp(Some(hour), 23), Clamp(Some(minute), 59))
  {
    var h, m := Padded(Dec(hour)), Padded(Dec(minute));
    PaddedReads(hour);
    PaddedReads(minute);
    assert ':' !in h && ':' !in m;
    FieldThenMore(h, m, ':');
    FieldThenMore(m, "", ':');
    assert h + [':'] + m == TimeText(hour, minute);
  }

  /** Reading the printed rule gives the printed time, but that an hourly rule has only its minute. */
  lemma TimeRead(preset: Preset, time: string, weekday: string)
    requires preset.Weekly? ==> ';' !in weekday
    ensures RruleTime(PresetRrule(preset, time, weekday)) ==
            TimeText(if preset.Hourly? then 9 else ParseTime(time).0, ParseTime(time).1)
  {
    var (hour, minute) := ParseTime(time);
    var fields := RuleFields(preset, hour, minute, weekday);
    RuleIsPlain(preset, hour, minute, weekday);
    FieldsOfJoined(fields, ';');
    HourPrinted(preset, hour, minute, weekday);
    MinutePrinted(preset, hour, minute, weekday);
    ReadPrinted(hour);
    ReadPrinted(minute);
  }

  /** Numbers off the clock are brought back to its last hour and minute. */
  lemma TimeIsClamped(preset: Preset, hour: nat, minute: nat, weekday: string)
    requires !preset.Hourly? && (preset.Weekly? ==> ';' !in weekday)
    ensures RruleTime(PresetRrule(preset, TimeText(hour, minute), weekday)) ==
            TimeText(if hour > 23 then 23 else hour, if minute > 59 then 59 else minute)
  {
    TimeRead(preset, TimeText(hour, minute), weekday);
    TimeParses(hour, minute);
  }

  /** What is no number counts as zero, and so does a missing minute. */
  lemma NoNumberIsZero(time: string)
    ensures var parts := Fields(time, ':');
      && (!AllDigits(parts[0]) ==> ParseTime(time).0 == 0)
      && (|parts| == 1 || !AllDigits(parts[1]) ==> ParseTime(time).1 == 0)
      && ParseTime(time).0 <= 23 && ParseTime(time).1 <= 59
  {}

  /** A time of day, however large its two numbers, comes back from its rule exactly if it is on the clock. */
  lemma TimeComesBackIff(preset: Preset, hour: nat, minute: nat, weekday: string)
    requires !preset.Hourly? && (preset.Weekly? ==> ';' !in weekday)
    ensures RruleTime(PresetRrule(preset, TimeText(hour, minute), weekday)) == TimeText(hour, minute) <==>
            hour <= 23 && minute <= 59
  {
    var h, m := Clamp(Some(hour), 23), Clamp(Some(minute), 59);
    TimeRead(preset, TimeText(hour, minute), weekday);
    TimeParses(hour, minute);
    if TimeText(h, m) == TimeText(hour, minute) {
      TextsAreTimes(hour, minute, h, m);
    }
  }

  /** Equal texts name equal times. */
  lemma TextsAreTimes(hour: nat, minute: nat, h: nat, m: nat)
    requires TimeText(h, m) == TimeText(hour, minute)
    ensures h == hour && m == minute
  {
    TextFields(hour, minute);
    TextFields(h, m);
    PaddedReads(hour);
    PaddedReads(minute);
    PaddedReads(h);
    PaddedReads(m);
  }

  lemma TextFields(hour: nat, minute: nat)
    ensures Fields(TimeText(hour, minute), ':') == [Padded(Dec(hour)), Padded(Dec(minute))]
  {
    var h, m := Padded(Dec(hour)), Padded(Dec(minute));
    PaddedReads(hour);
    PaddedReads(minute);
    FieldThenMore(h, m, ':');
    FieldThenMore(m, "", ':');
    assert h + [':'] + m == TimeText(hour, minute);
  }

  lemma WeekdayRead(time: string, weekday: string)
    requires ';' !in weekday
    ensures RruleWeekday(PresetRrule(Weekly, time, weekday)) ==
            (var first := Fields(if weekday == "" then "MO" else weekday, ',')[0];
             if first in WEEKDAYS then first else "MO")
  {
    var (hour, minute) := ParseTime(time);
    RuleIsPlain(Weekly, hour, minute, weekday);
    FieldsOfJoined(RuleFields(Weekly, hour, minute, weekday), ';');
    DayPrinted(hour, minute, weekday);
  }

  /** A weekly rule gives its weekday back exactly if it is one of the seven. */
  lemma WeekdayComesBackIff(time: string, weekday: string)
    ensures RruleWeekday(PresetRrule(Weekly, time, weekday)) == weekday <==> weekday in WEEKDAYS
  {
    if weekday in WEEKDAYS {
      assert ';' !in weekday && ',' !in weekday;
      WeekdayRead(time, weekday);
      FieldThenMore(weekday, "", ',');
    }
  }

  lemma SameRule(preset: Preset, time: string, other: string, weekday: string, day: string)
    requires ParseTime(time).1 == ParseTime(other).1
    requires preset.Hourly? || ParseTime(time).0 == ParseTime(other).0
    requires preset.Weekly? ==> weekday == day
    ensures PresetRrule(preset, time, weekday) == PresetRrule(preset, other, day)
  {}

  lemma TimeStays(time: string)
    ensures ParseTime(TimeText(ParseTime(time).0, ParseTime(time).1)) == ParseTime(time)
    ensures ParseTime(TimeText(9, ParseTime(time).1)) == (9, ParseTime(time).1)
  {
    TimeParses(ParseTime(time).0, ParseTime(time).1);
    TimeParses(9, ParseTime(time).1);
  }

  /** Printing what was read gives the same rule, for any time text; weekly exactly for the seven weekdays. */
  lemma ReprintIff(preset: Preset, time: string, weekday: string)
    requires preset.Weekly? ==> ';' !in weekday
    ensures var rule := PresetRrule(preset, time, weekday);
      PresetRrule(preset, RruleTime(rule), RruleWeekday(rule)) == rule <==> (preset.Weekly? ==> weekday in WEEKDAYS)
  {
    var rule := PresetRrule(preset, time, weekday);
    TimeRead(preset, time, weekday);
    TimeStays(time);
    if !preset.Weekly? {
      SameRule(preset, time, RruleTime(rule), weekday, RruleWeekday(rule));
    } else {
      WeekdayComesBackIff(time, weekday);
      SameRule(Weekly, RruleTime(rule), time, RruleWeekday(rule), RruleWeekday(rule));
      if PresetRrule(Weekly, time, RruleWeekday(rule)) == rule {
        SameDay(time, RruleWeekday(rule), weekday);
      }
    }
  }

  /** Two weekly rules of one time are equal only for one weekday. */
  lemma SameDay(time: string, day: string, weekday: string)
    requires ';' !in weekday && day in WEEKDAYS
    requires PresetRrule(Weekly, time, day) == PresetRrule(Weekly, time, weekday)
    ensures day == weekday
  {
    var (hour, minute) := ParseTime(time);
    var f, g := RuleFields(Weekly, hour, minute, day), RuleFields(Weekly, hour, minute, weekday);
    RuleIsPlain(Weekly, hour, minute, day);
    RuleIsPlain(Weekly, hour, minute, weekday);
    FieldsOfJoined(f, ';');
    FieldsOfJoined(g, ';');
    assert f[1][6..] == day && g[1][6..] == weekday;
  }
}
