/**
 The browser-error limiter: a window of fingerprints already reported, and counts of what was
 suppressed until the next summary. Clock readings are inputs; each call may read the clock twice.
 */
module ErrorLimiter {
  import opened Options
  import opened OrderedMap

  const WINDOW := 60_000
  const MAX_FINGERPRINTS := 100

  datatype Reason = ForeignExtension | Duplicate | Capacity

  datatype Suppression = Suppression(fingerprint: string, reason: Reason, count: nat)

  datatype Limiter = Limiter(
    started: int, lastSummary: Option<int>, seen: set<string>, suppressed: Entries<string, Suppression>)

  // ----- one call

  function Renewed(l: Limiter, first: int, second: int): Limiter {
    if first - l.started >= WINDOW then l.(started := second, seen := {}) else l
  }

  function Fingerprint(fingerprint: string, foreign: bool): string {
    if foreign then "foreign-extension" else fingerprint
  }

  function ReasonFor(l: Limiter, fingerprint: string, foreign: bool): Option<Reason> {
    if foreign then Some(ForeignExtension)
    else if fingerprint in l.seen then Some(Duplicate)
    else if |l.seen| >= MAX_FINGERPRINTS then Some(Capacity)
    else None
  }

  function Counted(suppressed: Entries<string, Suppression>, fingerprint: string, reason: Reason)
    : Entries<string, Suppression>
  {
    var key := if reason.Capacity? || (Get(suppressed, fingerprint).None? && |suppressed| >= MAX_FINGERPRINTS)
               then "overflow" else fingerprint;
    var entry := if Get(suppressed, key).Some? then Get(suppressed, key).value else Suppression(key, reason, 0);
    Put(suppressed, key, entry.(count := entry.count + 1))
  }

  /** The limiter after the call, and the fingerprint if the error may be reported. */
  function Allowed(l: Limiter, first: int, second: int, fingerprint: string, foreign: bool): (Limiter, Option<string>) {
    var l1 := Renewed(l, first, second);
    var f := Fingerprint(fingerprint, foreign);
    match ReasonFor(l1, f, foreign)
    case None => (l1.(seen := l1.seen + {f}), Some(f))
    case Some(reason) => (l1.(suppressed := Counted(l1.suppressed, f, reason)), None)
  }

  predicate Due(l: Limiter, first: int) {
    l.suppressed != [] && (l.lastSummary.None? || first - l.lastSummary.value >= WINDOW)
  }

  function Flushed(l: Limiter, first: int, second: int): (Limiter, Option<seq<Suppression>>) {
    if Due(l, first) then (l.(suppressed := [], lastSummary := Some(second)), Some(Values(l.suppressed)))
    else (l, None)
  }

  function Total(summary: seq<Suppression>): nat {
    if summary == [] then 0 else summary[0].count + Total(summary[1..])
  }

  // ----- a history of calls

  /** An allowed error: when, in the window begun when, and under which fingerprint. */
  datatype Report = Report(at: int, window: int, fingerprint: string)

  datatype Call = Allow(first: int, second: int, fingerprint: string, foreign: bool) | Flush(first: int, second: int)

  datatype History = History(
    limiter: Limiter, clock: int, calls: nat, reports: seq<Report>, handedOver: nat, summaries: seq<int>)

  function Begin(now: int): History {
    History(Limiter(now, None, {}, []), now, 0, [], 0, [])
  }

  predicate Monotone(h: History, c: Call) {
    h.clock <= c.first <= c.second
  }

  /** The window, renewed or not, as the call finds it. */
  function Opened(h: History, first: int, second: int): History {
    h.(limiter := Renewed(h.limiter, first, second), clock := second)
  }

  function WithReport(h: History, at: int, fingerprint: string): History {
    h.(limiter := h.limiter.(seen := h.limiter.seen + {fingerprint}), calls := h.calls + 1,
       reports := h.reports + [Report(at, h.limiter.started, fingerprint)])
  }

  function WithSuppressed(h: History, fingerprint: string, reason: Reason): History {
    h.(limiter := h.limiter.(suppressed := Counted(h.limiter.suppressed, fingerprint, reason)), calls := h.calls + 1)
  }

  function After(h: History, c: Call): History {
    match c
    case Allow(first, second, fingerprint, foreign) =>
      var h1 := Opened(h, first, second);
      var f := Fingerprint(fingerprint, foreign);
      (match ReasonFor(h1.limiter, f, foreign)
       case None => WithReport(h1, if first - h.limiter.started >= WINDOW then second else first, f)
       case Some(reason) => WithSuppressed(h1, f, reason))
    case Flush(first, second) =>
      var (l, summary) := Flushed(h.limiter, first, second);
      if summary.Some? then
        h.(limiter := l, clock := second, handedOver := h.handedOver + Total(summary.value),
           summaries := h.summaries + [second])
      else h.(limiter := l, clock := second)
  }

  /** A history changes its limiter as the call does, and logs a report for exactly the allowed errors. */
  lemma HistoryFollowsLimiter(h: History, first: int, second: int, fingerprint: string, foreign: bool)
    ensures var t := After(h, Allow(first, second, fingerprint, foreign));
      var (l, allowed) := Allowed(h.limiter, first, second, fingerprint, foreign);
      && t.limiter == l && t.calls == h.calls + 1
      && (if allowed.None? then t.reports == h.reports
          else |t.reports| == |h.reports| + 1 && t.reports[|h.reports|].fingerprint == allowed.value)
  {}

  predicate Legal(h: History, cs: seq<Call>)
    decreases |cs|
  {
    cs == [] || (Monotone(h, cs[0]) && Legal(After(h, cs[0]), cs[1..]))
  }

  function Run(h: History, cs: seq<Call>): History
    requires Legal(h, cs)
    decreases |cs|
  {
    if cs == [] then h else Run(After(h, cs[0]), cs[1..])
  }

  // ----- counting

  function Held(l: Limiter): nat {
    Total(Values(l.suppressed))
  }

  /** The reports of one window. */
  function InWindow(reports: seq<Report>, window: int): nat {
    if reports == [] then 0
    else InWindow(reports[..|reports| - 1], window) + (if reports[|reports| - 1].window == window then 1 else 0)
  }

  predicate ReportedIn(reports: seq<Report>, window: int, fingerprint: string) {
    exists i :: 0 <= i < |reports| && reports[i].window == window && reports[i].fingerprint == fingerprint
  }

  /** The reports made no earlier than `from`, in windows begun no later than `upTo`. */
  function Since(reports: seq<Report>, from: int, upTo: int): nat {
    if reports == [] then 0
    else
      var r := reports[|reports| - 1];
      Since(reports[..|reports| - 1], from, upTo) + (if from <= r.at && r.window <= upTo then 1 else 0)
  }

  /** The reports of a span of time. */
  function InSpan(reports: seq<Report>, from: int, to: int): nat {
    if reports == [] then 0
    else
      var r := reports[|reports| - 1];
      InSpan(reports[..|reports| - 1], from, to) + (if from <= r.at <= to then 1 else 0)
  }

  lemma {:induction false} CountedTotal(m: Entries<string, Suppression>, key: string, v: Suppression)
    requires v.count == (if Get(m, key).Some? then Get(m, key).value.count else 0) + 1
    ensures Total(Values(Put(m, key, v))) == Total(Values(m)) + 1
    ensures |Put(m, key, v)| == |m| + (if Get(m, key).Some? then 0 else 1)
  {
    if m != [] {
      if m[0].0 == key {
        assert Put(m, key, v)[1..] == m[1..];
        assert Values(m)[1..] == Values(m[1..]);
        assert Values(Put(m, key, v))[1..] == Values(m[1..]);
      } else {
        CountedTotal(m[1..], key, v);
        assert Put(m, key, v)[1..] == Put(m[1..], key, v);
        assert Values(m)[1..] == Values(m[1..]);
        assert Values(Put(m, key, v))[1..] == Values(Put(m[1..], key, v));
      }
    }
  }

  // ----- the invariant

  predicate SizeInv(l: Limiter) {
    && |l.seen| <= MAX_FINGERPRINTS
    && |l.suppressed| <= MAX_FINGERPRINTS + 1
    && |l.suppressed| <= Held(l)
    && (|l.suppressed| == MAX_FINGERPRINTS + 1 ==> Get(l.suppressed, "overflow").Some?)
  }

  /** Each report lies in its window, and windows do not overlap. */
  ghost predicate WindowInv(h: History) {
    && (forall i :: 0 <= i < |h.reports| ==>
          var r := h.reports[i];
          r.window <= r.at < r.window + WINDOW && r.window <= h.limiter.started
          && (r.window < h.limiter.started ==> r.window + WINDOW <= h.limiter.started))
    && (forall i, j :: 0 <= i < j < |h.reports| && h.reports[i].window != h.reports[j].window ==>
          h.reports[i].window + WINDOW <= h.reports[j].window)
    && h.limiter.started <= h.clock
  }

  predicate Unrepeated(reports: seq<Report>) {
    forall i, j :: 0 <= i < j < |reports| && reports[i].window == reports[j].window ==>
      reports[i].fingerprint != reports[j].fingerprint
  }

  /** These are the fingerprints reported in the window. */
  ghost predicate SeenExact(reports: seq<Report>, window: int, seen: set<string>) {
    && (forall i :: 0 <= i < |reports| && reports[i].window == window ==> reports[i].fingerprint in seen)
    && (forall f :: f in seen ==> ReportedIn(reports, window, f))
  }

  /** A window's reports have distinct fingerprints, at most 100 of them. */
  ghost predicate FingerprintInv(h: History) {
    && Unrepeated(h.reports)
    && SeenExact(h.reports, h.limiter.started, h.limiter.seen)
    && (forall w :: InWindow(h.reports, w) <= MAX_FINGERPRINTS)
    && InWindow(h.reports, h.limiter.started) == |h.limiter.seen|
  }

  ghost predicate ReportInv(h: History) {
    WindowInv(h) && FingerprintInv(h)
  }

  predicate SummaryInv(h: History) {
    && (h.limiter.lastSummary.None? ==> h.summaries == [])
    && (h.limiter.lastSummary.Some? ==>
          h.summaries != [] && h.limiter.lastSummary.value == h.summaries[|h.summaries| - 1] <= h.clock)
    && (forall i :: 0 < i < |h.summaries| ==> h.summaries[i] - h.summaries[i - 1] >= WINDOW)
  }

  ghost predicate Inv(h: History) {
    && SizeInv(h.limiter) && ReportInv(h) && SummaryInv(h)
    && h.calls == |h.reports| + Held(h.limiter) + h.handedOver
  }

  lemma {:induction false} NoneInWindow(reports: seq<Report>, window: int)
    requires forall i :: 0 <= i < |reports| ==> reports[i].window != window
    ensures InWindow(reports, window) == 0
  {
    if reports != [] {
      NoneInWindow(reports[..|reports| - 1], window);
    }
  }

  lemma InWindowSnoc(reports: seq<Report>, r: Report, window: int)
    ensures InWindow(reports + [r], window) == InWindow(reports, window) + (if r.window == window then 1 else 0)
  {
    assert (reports + [r])[..|reports|] == reports;
  }

  lemma OpenedPreserves(h: History, first: int, second: int)
    requires Inv(h) && h.clock <= first <= second
    ensures Inv(Opened(h, first, second))
  {
    if first - h.limiter.started >= WINDOW {
      NewWindow(h, second);
    } else {
      SameReports(h, Opened(h, first, second));
    }
  }

  lemma NewWindow(h: History, second: int)
    requires ReportInv(h) && h.clock <= second && h.limiter.started + WINDOW <= second
    ensures ReportInv(h.(limiter := h.limiter.(started := second, seen := {}), clock := second))
  {
    var t := h.(limiter := h.limiter.(started := second, seen := {}), clock := second);
    NoneInWindow(h.reports, second);
    assert WindowInv(t);
    assert FingerprintInv(t);
  }

  /** What the reports promise depends on them and on the window alone. */
  lemma SameReports(h: History, t: History)
    requires ReportInv(h) && t.reports == h.reports && h.clock <= t.clock
    requires t.limiter.started == h.limiter.started && t.limiter.seen == h.limiter.seen
    ensures ReportInv(t)
  {
    assert WindowInv(t);
    assert FingerprintInv(t);
  }

  lemma ReportKeepsWindows(h: History, at: int, fingerprint: string)
    requires WindowInv(h) && h.limiter.started <= at < h.limiter.started + WINDOW
    ensures WindowInv(WithReport(h, at, fingerprint))
  {}

  lemma ReportKeepsFingerprints(h: History, at: int, fingerprint: string)
    requires FingerprintInv(h) && |h.limiter.seen| < MAX_FINGERPRINTS && fingerprint !in h.limiter.seen
    ensures FingerprintInv(WithReport(h, at, fingerprint))
  {
    var r := Report(at, h.limiter.started, fingerprint);
    forall w ensures InWindow(h.reports + [r], w) <= MAX_FINGERPRINTS {
      InWindowSnoc(h.reports, r, w);
    }
    InWindowSnoc(h.reports, r, h.limiter.started);
    SeenSnoc(h.reports, r, h.limiter.seen);
    UnrepeatedSnoc(h.reports, r, h.limiter.seen);
  }

  lemma UnrepeatedSnoc(reports: seq<Report>, r: Report, seen: set<string>)
    requires Unrepeated(reports) && SeenExact(reports, r.window, seen) && r.fingerprint !in seen
    ensures Unrepeated(reports + [r])
  {}

  lemma SeenSnoc(reports: seq<Report>, r: Report, seen: set<string>)
    requires SeenExact(reports, r.window, seen)
    ensures SeenExact(reports + [r], r.window, seen + {r.fingerprint})
  {
    forall f | f in seen + {r.fingerprint} ensures ReportedIn(reports + [r], r.window, f) {
      if f in seen {
        ReportedStays(reports, r, r.window, f);
      } else {
        assert (reports + [r])[|reports|] == r;
      }
    }
  }

  lemma ReportedStays(reports: seq<Report>, r: Report, window: int, fingerprint: string)
    requires ReportedIn(reports, window, fingerprint)
    ensures ReportedIn(reports + [r], window, fingerprint)
  {
    var i :| 0 <= i < |reports| && reports[i].window == window && reports[i].fingerprint == fingerprint;
    assert (reports + [r])[i] == reports[i];
  }

  lemma CountedPreserves(l: Limiter, fingerprint: string, reason: Reason)
    requires SizeInv(l)
    ensures SizeInv(l.(suppressed := Counted(l.suppressed, fingerprint, reason)))
    ensures Total(Values(Counted(l.suppressed, fingerprint, reason))) == Held(l) + 1
  {
    var m := l.suppressed;
    var key := if reason.Capacity? || (Get(m, fingerprint).None? && |m| >= MAX_FINGERPRINTS)
               then "overflow" else fingerprint;
    var entry := if Get(m, key).Some? then Get(m, key).value else Suppression(key, reason, 0);
    CountedTotal(m, key, entry.(count := entry.count + 1));
    PutGet(m, key, entry.(count := entry.count + 1), "overflow");
  }

  lemma SuppressedPreserves(h: History, fingerprint: string, reason: Reason)
    requires Inv(h)
    ensures Inv(WithSuppressed(h, fingerprint, reason))
  {
    CountedPreserves(h.limiter, fingerprint, reason);
    SameReports(h, WithSuppressed(h, fingerprint, reason));
  }

  lemma SeenIsReported(h: History, fingerprint: string)
    requires FingerprintInv(h)
    ensures fingerprint in h.limiter.seen <==> ReportedIn(h.reports, h.limiter.started, fingerprint)
    ensures |h.limiter.seen| == InWindow(h.reports, h.limiter.started)
  {}

  lemma ReportedPreserves(h: History, at: int, fingerprint: string)
    requires Inv(h) && |h.limiter.seen| < MAX_FINGERPRINTS && fingerprint !in h.limiter.seen
    requires h.limiter.started <= at < h.limiter.started + WINDOW && at <= h.clock
    ensures Inv(WithReport(h, at, fingerprint))
  {
    ReportKeepsReports(h, at, fingerprint);
    ReportKeepsRest(h, at, fingerprint);
  }

  lemma ReportKeepsReports(h: History, at: int, fingerprint: string)
    requires ReportInv(h) && |h.limiter.seen| < MAX_FINGERPRINTS && fingerprint !in h.limiter.seen
    requires h.limiter.started <= at < h.limiter.started + WINDOW
    ensures ReportInv(WithReport(h, at, fingerprint))
  {
    ReportKeepsWindows(h, at, fingerprint);
    ReportKeepsFingerprints(h, at, fingerprint);
  }

  lemma ReportKeepsRest(h: History, at: int, fingerprint: string)
    requires SizeInv(h.limiter) && SummaryInv(h) && |h.limiter.seen| < MAX_FINGERPRINTS
    requires h.calls == |h.reports| + Held(h.limiter) + h.handedOver
    ensures var t := WithReport(h, at, fingerprint);
      SizeInv(t.limiter) && SummaryInv(t) && t.calls == |t.reports| + Held(t.limiter) + t.handedOver
  {}

  lemma AllowPreserves(h: History, first: int, second: int, fingerprint: string, foreign: bool)
    requires Inv(h) && h.clock <= first <= second
    ensures Inv(After(h, Allow(first, second, fingerprint, foreign)))
  {
    var h1 := Opened(h, first, second);
    var f := Fingerprint(fingerprint, foreign);
    OpenedPreserves(h, first, second);
    var reason := ReasonFor(h1.limiter, f, foreign);
    if reason.Some? {
      SuppressedPreserves(h1, f, reason.value);
    } else {
      ReportedPreserves(h1, if first - h.limiter.started >= WINDOW then second else first, f);
    }
  }

  lemma FlushPreserves(h: History, first: int, second: int)
    requires Inv(h) && h.clock <= first <= second
    ensures Inv(After(h, Flush(first, second)))
  {
    SameReports(h, After(h, Flush(first, second)));
  }

  lemma {:induction false} RunPreserves(h: History, cs: seq<Call>)
    requires Inv(h) && Legal(h, cs)
    ensures Inv(Run(h, cs))
    decreases |cs|
  {
    if cs != [] {
      match cs[0] {
        case Allow(first, second, fingerprint, foreign) => AllowPreserves(h, first, second, fingerprint, foreign);
        case Flush(first, second) => FlushPreserves(h, first, second);
      }
      RunPreserves(After(h, cs[0]), cs[1..]);
    }
  }

  lemma BeginInv(now: int)
    ensures Inv(Begin(now))
  {}

  // ----- what holds of every history

  /** Every call is accounted for: allowed, held as suppressed, or handed to a summary. */
  lemma CallsAreConserved(now: int, cs: seq<Call>)
    requires Legal(Begin(now), cs)
    ensures var h := Run(Begin(now), cs);
      h.calls == |h.reports| + Held(h.limiter) + h.handedOver
  {
    BeginInv(now);
    RunPreserves(Begin(now), cs);
  }

  lemma SizesAreBounded(now: int, cs: seq<Call>)
    requires Legal(Begin(now), cs)
    ensures var l := Run(Begin(now), cs).limiter;
      |l.seen| <= 100 && |l.suppressed| <= 101
  {
    BeginInv(now);
    RunPreserves(Begin(now), cs);
  }

  /**
   An error is allowed exactly if it is not foreign, its window has no report of its fingerprint yet and
   fewer than a hundred in all; the window is a new one once the last is a minute old.
   */
  lemma AllowedIff(now: int, cs: seq<Call>, first: int, second: int, fingerprint: string, foreign: bool)
    requires Legal(Begin(now), cs)
    requires Monotone(Run(Begin(now), cs), Allow(first, second, fingerprint, foreign))
    ensures var h := Run(Begin(now), cs);
      var t := After(h, Allow(first, second, fingerprint, foreign));
      var window := if first - h.limiter.started >= 60_000 then second else h.limiter.started;
      var allowed := !foreign && !ReportedIn(h.reports, window, fingerprint)
                     && InWindow(h.reports, window) < 100;
      && Allowed(h.limiter, first, second, fingerprint, foreign).1 == (if allowed then Some(fingerprint) else None)
      && t.limiter.started == window
      && (allowed ==> |t.reports| == |h.reports| + 1 && t.reports[..|h.reports|] == h.reports
                      && t.reports[|h.reports|].window == window && t.reports[|h.reports|].fingerprint == fingerprint)
      && (!allowed ==> t.reports == h.reports)
  {
    var h := Run(Begin(now), cs);
    BeginInv(now);
    RunPreserves(Begin(now), cs);
    AllowedFrom(h, first, second, fingerprint, foreign);
  }

  lemma AllowedFrom(h: History, first: int, second: int, fingerprint: string, foreign: bool)
    requires Inv(h) && Monotone(h, Allow(first, second, fingerprint, foreign))
    ensures var t := After(h, Allow(first, second, fingerprint, foreign));
      var window := if first - h.limiter.started >= 60_000 then second else h.limiter.started;
      var allowed := !foreign && !ReportedIn(h.reports, window, fingerprint)
                     && InWindow(h.reports, window) < 100;
      && Allowed(h.limiter, first, second, fingerprint, foreign).1 == (if allowed then Some(fingerprint) else None)
      && t.limiter.started == window
      && (allowed ==> |t.reports| == |h.reports| + 1 && t.reports[..|h.reports|] == h.reports
                      && t.reports[|h.reports|].window == window && t.reports[|h.reports|].fingerprint == fingerprint)
      && (!allowed ==> t.reports == h.reports)
  {
    OpenedPreserves(h, first, second);
    SeenIsReported(Opened(h, first, second), fingerprint);
  }

  /**
   An error that is not allowed is counted in one entry: under its own fingerprint, that of foreign errors
   for all of them, if it is no matter of capacity and that entry is there or fewer than a hundred are; else
   under the overflow. A new entry has the reason of its first error, and no other entry changes.
   */
  lemma SuppressedIs(
      h: History, first: int, second: int, fingerprint: string, foreign: bool, other: string)
    requires Inv(h) && Monotone(h, Allow(first, second, fingerprint, foreign))
    ensures var t := After(h, Allow(first, second, fingerprint, foreign)); var held := h.limiter.suppressed;
      var window := if first - h.limiter.started >= 60_000 then second else h.limiter.started;
      var reason := if foreign then ForeignExtension
                    else if ReportedIn(h.reports, window, fingerprint) then Duplicate else Capacity;
      var own := if foreign then "foreign-extension" else fingerprint;
      var key := if reason != Capacity && (Get(held, own).Some? || |held| < 100) then own else "overflow";
      t.reports == h.reports ==>
        && Get(t.limiter.suppressed, key) == Some(
             if Get(held, key).Some? then Get(held, key).value.(count := Get(held, key).value.count + 1)
             else Suppression(key, reason, 1))
        && (other != key ==> Get(t.limiter.suppressed, other) == Get(held, other))
  {
    var l := Opened(h, first, second).limiter;
    var own := Fingerprint(fingerprint, foreign);
    ReasonIs(h, first, second, fingerprint, foreign);
    if ReasonFor(l, own, foreign).Some? {
      CountedIs(l.suppressed, own, ReasonFor(l, own, foreign).value, other);
    }
  }

  lemma ReasonIs(h: History, first: int, second: int, fingerprint: string, foreign: bool)
    requires Inv(h) && Monotone(h, Allow(first, second, fingerprint, foreign))
    ensures var window := if first - h.limiter.started >= 60_000 then second else h.limiter.started;
      var l := Opened(h, first, second).limiter;
      var reason := ReasonFor(l, Fingerprint(fingerprint, foreign), foreign);
      && l.suppressed == h.limiter.suppressed
      && (reason.Some? ==> reason.value == if foreign then ForeignExtension
                           else if ReportedIn(h.reports, window, fingerprint) then Duplicate else Capacity)
  {
    OpenedPreserves(h, first, second);
    SeenIsReported(Opened(h, first, second), fingerprint);
  }

  lemma CountedIs(m: Entries<string, Suppression>, own: string, reason: Reason, other: string)
    ensures var key := if reason != Capacity && (Get(m, own).Some? || |m| < 100) then own else "overflow";
      && Get(Counted(m, own, reason), key) == Some(
           if Get(m, key).Some? then Get(m, key).value.(count := Get(m, key).value.count + 1)
           else Suppression(key, reason, 1))
      && (other != key ==> Get(Counted(m, own, reason), other) == Get(m, other))
  {
    var key := if reason != Capacity && (Get(m, own).Some? || |m| < 100) then own else "overflow";
    var entry := if Get(m, key).Some? then Get(m, key).value else Suppression(key, reason, 0);
    PutGet(m, key, entry.(count := entry.count + 1), key);
    PutGet(m, key, entry.(count := entry.count + 1), other);
  }

  /** Within one window no fingerprint is reported twice, and distinct windows lie 60 s apart. */
  lemma ReportedOncePerWindow(now: int, cs: seq<Call>, i: nat, j: nat)
    requires Legal(Begin(now), cs) && i < j < |Run(Begin(now), cs).reports|
    ensures var r, s := Run(Begin(now), cs).reports[i], Run(Begin(now), cs).reports[j];
      r.fingerprint == s.fingerprint ==> r.window + 60_000 <= s.window && r.at < s.at
  {
    BeginInv(now);
    RunPreserves(Begin(now), cs);
  }

  /**
   A summary is due exactly if some call is not accounted for yet and the last summary is a minute old; it
   then accounts for all of them.
   */
  lemma SummaryIff(now: int, cs: seq<Call>, first: int, second: int)
    requires Legal(Begin(now), cs) && Monotone(Run(Begin(now), cs), Flush(first, second))
    ensures var h := Run(Begin(now), cs);
      var (l, summary) := Flushed(h.limiter, first, second);
      var missing := h.calls - |h.reports| - h.handedOver;
      && (summary.Some? <==>
            missing > 0 && (h.summaries == [] || first - h.summaries[|h.summaries| - 1] >= 60_000))
      && (summary.Some? ==>
            summary.value == Values(h.limiter.suppressed) && Total(summary.value) == missing && l.suppressed == [])
      && l.seen == h.limiter.seen && l.started == h.limiter.started
  {
    var h := Run(Begin(now), cs);
    BeginInv(now);
    RunPreserves(Begin(now), cs);
    assert h.limiter.suppressed == [] ==> Held(h.limiter) == 0;
  }

  /** Two summaries are never less than 60 s apart. */
  lemma SummariesAreSpaced(now: int, cs: seq<Call>, i: nat)
    requires Legal(Begin(now), cs) && 0 < i < |Run(Begin(now), cs).summaries|
    ensures var s := Run(Begin(now), cs).summaries; s[i] - s[i - 1] >= 60_000
  {
    BeginInv(now);
    RunPreserves(Begin(now), cs);
  }

  // ----- the rate over any span

  /** Windows that can hold a report made in `[from, upTo]`. */
  function Windows(from: int, upTo: int): nat
    decreases upTo - from + WINDOW
  {
    if upTo + WINDOW <= from then 0 else 1 + Windows(from, upTo - WINDOW)
  }

  lemma {:induction false} WindowsCount(from: int, upTo: int)
    requires from <= upTo + WINDOW
    ensures Windows(from, upTo) == (upTo - from + 2 * WINDOW - 1) / WINDOW
    decreases upTo - from + WINDOW
  {
    if upTo + WINDOW > from {
      if from <= upTo { WindowsCount(from, upTo - WINDOW); }
    }
  }

  lemma {:induction false} OneWindowMore(reports: seq<Report>, from: int, upTo: int, window: int)
    requires forall i :: 0 <= i < |reports| && reports[i].window <= upTo ==>
      reports[i].window == window || reports[i].window <= upTo - WINDOW
    ensures Since(reports, from, upTo) <= InWindow(reports, window) + Since(reports, from, upTo - WINDOW)
  {
    if reports != [] {
      OneWindowMore(reports[..|reports| - 1], from, upTo, window);
    }
  }

  lemma {:induction false} NoneSince(reports: seq<Report>, from: int, upTo: int)
    requires forall i :: 0 <= i < |reports| && reports[i].window <= upTo ==> reports[i].at < from
    ensures Since(reports, from, upTo) == 0
  {
    if reports != [] {
      NoneSince(reports[..|reports| - 1], from, upTo);
    }
  }

  lemma {:induction false} SinceBound(h: History, from: int, upTo: int)
    requires ReportInv(h)
    ensures Since(h.reports, from, upTo) <= MAX_FINGERPRINTS * Windows(from, upTo)
    decreases upTo - from + WINDOW
  {
    if upTo + WINDOW <= from {
      NoneSince(h.reports, from, upTo);
    } else {
      SinceBound(h, from, upTo - WINDOW);
      var window := LatestWindow(h, upTo);
      OneWindowMore(h.reports, from, upTo, window);
      assert InWindow(h.reports, window) <= MAX_FINGERPRINTS;
    }
  }

  /** Of the windows begun by `upTo`, at most one began within the last minute. */
  lemma LatestWindow(h: History, upTo: int) returns (window: int)
    requires WindowInv(h)
    ensures forall i :: 0 <= i < |h.reports| && h.reports[i].window <= upTo ==>
      h.reports[i].window == window || h.reports[i].window <= upTo - WINDOW
  {
    window := upTo;
    if i :| 0 <= i < |h.reports| && upTo - WINDOW < h.reports[i].window <= upTo {
      window := h.reports[i].window;
    }
  }

  lemma {:induction false} SpanIsSince(reports: seq<Report>, from: int, to: int)
    requires forall i :: 0 <= i < |reports| ==> reports[i].window <= reports[i].at
    ensures InSpan(reports, from, to) <= Since(reports, from, to)
  {
    if reports != [] {
      SpanIsSince(reports[..|reports| - 1], from, to);
    }
  }

  /** Any span of `to - from` milliseconds reports at most 100 errors for each of its windows and two more. */
  lemma RateIsBounded(now: int, cs: seq<Call>, from: int, to: int)
    requires Legal(Begin(now), cs) && from <= to
    ensures InSpan(Run(Begin(now), cs).reports, from, to) <= 100 * ((to - from) / 60_000 + 2)
  {
    var h := Run(Begin(now), cs);
    BeginInv(now);
    RunPreserves(Begin(now), cs);
    SpanIsSince(h.reports, from, to);
    SinceBound(h, from, to);
    WindowsCount(from, to);
    assert (to - from + 2 * WINDOW - 1) / WINDOW <= (to - from) / WINDOW + 2;
  }

  // ----- the program

  class BrowserErrorLimiter {
    var started: int
    var lastSummary: Option<int>
    var seen: set<string>
    var suppressed: Entries<string, Suppression>

    ghost function Now(): Limiter
      reads this
    {
      Limiter(started, lastSummary, seen, suppressed)
    }

    constructor (now: int)
      ensures Now() == Begin(now).limiter
    {
      started, lastSummary, seen, suppressed := now, None, {}, [];
    }

    method AllowError(first: int, second: int, fingerprintOf: string, foreign: bool) returns (r: Option<string>)
      modifies this
      ensures (Now(), r) == Allowed(old(Now()), first, second, fingerprintOf, foreign)
    {
      if first - started >= WINDOW {
        started := second;
        seen := {};
      }
      var fingerprint := if foreign then "foreign-extension" else fingerprintOf;
      var reason :=
        if foreign then Some(ForeignExtension)
        else if fingerprint in seen then Some(Duplicate)
        else if |seen| >= MAX_FINGERPRINTS then Some(Capacity)
        else None;
      if reason.None? {
        seen := seen + {fingerprint};
        return Some(fingerprint);
      }
      var key := if reason.value.Capacity? || (Get(suppressed, fingerprint).None? && |suppressed| >= MAX_FINGERPRINTS)
                 then "overflow" else fingerprint;
      var found := Get(suppressed, key);
      var entry := if found.Some? then found.value else Suppression(key, reason.value, 0);
      suppressed := Put(suppressed, key, entry.(count := entry.count + 1));
      return None;
    }

    method FlushSummary(first: int, second: int) returns (summary: Option<seq<Suppression>>)
      modifies this
      ensures (Now(), summary) == Flushed(old(Now()), first, second)
    {
      if suppressed == [] || (lastSummary.Some? && first - lastSummary.value < WINDOW) { return None; }
      summary := Some(Values(suppressed));
      suppressed := [];
      lastSummary := Some(second);
    }
  }
}
