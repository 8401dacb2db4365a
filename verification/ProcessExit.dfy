/**
 How the API process ends. Signals, fatal errors, a turn drain, the app's own shutdown and a staged
 telemetry flush race each other under five timers; whichever path finalizes first owns the exit
 record. Times are milliseconds on the monotone clock, and an armed timer fires on time.
 */
module ProcessExit {
  import opened Options
  import Splitting

  type Time = real

  const TURN_HANDOFF: Time := 1000.0
  const FATAL_EXIT: Time := 3000.0
  const SHUTDOWN_TOTAL: Time := 27000.0
  const SHUTDOWN_CLOSE: Time := 8500.0
  const FATAL_FLUSH: Time := 2500.0
  const OTEL_FLUSH: Time := 1000.0
  const FLUSH_STAGE: Time := 800.0
  const EXIT_MARGIN: Time := 250.0

  datatype Outcome = Complete | CloseError | ForcedTimeout | FatalError

  datatype Record = Record(outcome: Outcome, code: int)

  /** `hardExit` is the fatal path's own exit timer. */
  datatype Fatal = Fatal(handling: bool, startedAt: Time, handingOff: bool, hardExit: Option<Time>)

  datatype Phase = Waiting | Draining | Closing | Over

  datatype Shutdown = Shutdown(begun: bool, startedAt: Time, phase: Phase, total: Option<Time>, close: Option<Time>)

  datatype Stage = Logs | FirstSentry | Spans | LastSentry | OtelShutdown | Flushed

  /** The stage of the flush, when it began and the end of its cap. */
  datatype Flush = Flush(deadline: Time, stage: Stage, since: Time, until: Time)

  /** A committed exit: `hardDeadline` is the timer that ends the process if the flush does not. */
  datatype Final = Final(record: Record, at: Time, hardDeadline: Time, flush: Flush)

  datatype Exit = Exit(code: int, at: Time)

  datatype State = State(
    now: Time, fatal: Fatal, shutdown: Shutdown, final: Option<Final>, commits: nat, exited: Option<Exit>)

  datatype Event =
    | Tick(to: Time)
    | FatalArrives
    | HandoffSettles                       // the turn handoff resolves, rejects or runs into its delay
    | FatalHardExit
    | Signal
    | DrainResolves
    | DrainRejects(recoverable: bool)      // an unhandled rejection, fatal unless recoverable
    | CloseSettles(failed: bool)
    | CloseTimer
    | TotalTimer
    | StageSettles
    | FlushSettles
    | FlushDelay
    | FinalHardExit

  function Init(): State {
    State(0.0, Fatal(false, 0.0, false, None), Shutdown(false, 0.0, Waiting, None, None), None, 0, None)
  }

  function Min(a: Time, b: Time): Time {
    if a < b then a else b
  }

  function Max(a: Time, b: Time): Time {
    if a < b then b else a
  }

  // ----- finalizing

  function RecordOf(outcome: Outcome): Record {
    Record(outcome, if outcome.FatalError? then 1 else 0)
  }

  function Remaining(flush: Flush, now: Time, cap: Time): Time {
    Max(0.0, Min(cap, flush.deadline - now))
  }

  function Begin(flush: Flush, now: Time, stage: Stage, cap: Time): Flush {
    if Remaining(flush, now, cap) <= 0.0 then flush.(stage := Flushed)
    else flush.(stage := stage, since := now, until := now + Remaining(flush, now, cap))
  }

  /** The next stage of `flushTelemetry`; a stage with no time left ends the flush. */
  function NextStage(flush: Flush, fatal: bool, now: Time): Flush {
    match flush.stage
    case Logs => if fatal then Begin(flush, now, FirstSentry, FLUSH_STAGE) else Begin(flush, now, Spans, FLUSH_STAGE)
    case FirstSentry => Begin(flush, now, Spans, FLUSH_STAGE)
    case Spans => Begin(flush, now, LastSentry, OTEL_FLUSH)
    case LastSentry => Begin(flush, now, OtelShutdown, OTEL_FLUSH)
    case OtelShutdown => flush.(stage := Flushed)
    case Flushed => flush
  }

  function NewFinal(outcome: Outcome, now: Time, fatalDeadline: Option<Time>): Final {
    var budget := if outcome.FatalError? then FATAL_FLUSH else OTEL_FLUSH;
    var hard := if fatalDeadline.Some? then fatalDeadline.value else now + budget + EXIT_MARGIN;
    var deadline := Min(now + budget, hard - EXIT_MARGIN);
    var flush := Flush(deadline, Logs, now, now);
    Final(RecordOf(outcome), now, Max(now, hard), flush.(until := now + Remaining(flush, now, FLUSH_STAGE)))
  }

  /** Only the first call commits. */
  function Finalized(s: State, outcome: Outcome, fatalDeadline: Option<Time>): State {
    if s.final.Some? then s
    else s.(final := Some(NewFinal(outcome, s.now, fatalDeadline)), commits := s.commits + 1)
  }

  function FatalHandled(s: State): State {
    if s.fatal.handling || s.final.Some? then s
    else s.(fatal := Fatal(true, s.now, true, Some(s.now + FATAL_EXIT)))
  }

  function Exited(s: State, code: int): State {
    s.(exited := Some(Exit(code, s.now)))
  }

  // ----- the steps

  /** No armed timer would be late at time `t`. */
  predicate MayWait(s: State, t: Time) {
    && (s.fatal.handingOff ==> t <= s.fatal.startedAt + TURN_HANDOFF)
    && (s.fatal.hardExit.Some? ==> t <= s.fatal.hardExit.value)
    && (s.shutdown.total.Some? ==> t <= s.shutdown.total.value)
    && (s.shutdown.close.Some? ==> t <= s.shutdown.close.value)
    && (s.final.Some? ==>
          var f := s.final.value;
          && t <= Max(f.at, f.flush.deadline) && t <= f.hardDeadline
          && (!f.flush.stage.OtelShutdown? && !f.flush.stage.Flushed? ==> t <= f.flush.until))
  }

  predicate Enabled(s: State, e: Event) {
    s.exited.None? &&
    match e
    case Tick(to) => s.now <= to && MayWait(s, to)
    case FatalArrives => true
    case HandoffSettles => s.fatal.handingOff
    case FatalHardExit => s.fatal.hardExit.Some? && s.fatal.hardExit.value <= s.now
    case Signal => true
    case DrainResolves => s.shutdown.phase.Draining?
    case DrainRejects(_) => s.shutdown.phase.Draining?
    case CloseSettles(_) => s.shutdown.phase.Closing?
    case CloseTimer => s.shutdown.close.Some? && s.shutdown.close.value <= s.now
    case TotalTimer => s.shutdown.total.Some? && s.shutdown.total.value <= s.now
    case StageSettles => s.final.Some? && !s.final.value.flush.stage.Flushed?
    case FlushSettles => s.final.Some? && s.final.value.flush.stage.Flushed?
    case FlushDelay => s.final.Some? && Max(s.final.value.at, s.final.value.flush.deadline) <= s.now
    case FinalHardExit => s.final.Some? && s.final.value.hardDeadline <= s.now
  }

  function StepHandoff(s: State): State {
    var s1 := s.(fatal := s.fatal.(handingOff := false));
    var s2 := Finalized(s1, FatalError, Some(s.fatal.startedAt + FATAL_EXIT));
    if s.final.Some? then s2 else s2.(fatal := s2.fatal.(hardExit := None))
  }

  function StepSignal(s: State): State {
    if s.shutdown.begun then s
    else s.(shutdown := Shutdown(true, s.now, Draining, Some(s.now + SHUTDOWN_TOTAL), None))
  }

  function StepCloseTimer(s: State): State {
    var s1 := Finalized(s.(shutdown := s.shutdown.(close := None)), ForcedTimeout, None);
    if s.final.Some? then s1 else s1.(shutdown := s1.shutdown.(total := None))
  }

  function StepClose(s: State, failed: bool): State {
    Finalized(s.(shutdown := s.shutdown.(phase := Over, close := None, total := None)),
              if failed then CloseError else Complete, None)
  }

  function StepStage(s: State): State
    requires s.final.Some?
  {
    var f := s.final.value;
    s.(final := Some(f.(flush := NextStage(f.flush, f.record.outcome.FatalError?, s.now))))
  }

  function Step(s: State, e: Event): State
    requires Enabled(s, e)
  {
    match e
    case Tick(to) => s.(now := to)
    case FatalArrives => FatalHandled(s)
    case HandoffSettles => StepHandoff(s)
    case FatalHardExit => Exited(s, 1)
    case Signal => StepSignal(s)
    case DrainResolves =>
      s.(shutdown := s.shutdown.(phase := Closing, close := Some(s.now + SHUTDOWN_CLOSE)))
    case DrainRejects(recoverable) =>
      var s1 := s.(shutdown := s.shutdown.(phase := Over));
      if recoverable then s1 else FatalHandled(s1)
    case CloseSettles(failed) => StepClose(s, failed)
    case CloseTimer => StepCloseTimer(s)
    case TotalTimer => Finalized(s.(shutdown := s.shutdown.(total := None)), ForcedTimeout, None)
    case StageSettles => StepStage(s)
    case FlushSettles => Exited(s, s.final.value.record.code)
    case FlushDelay => Exited(s, s.final.value.record.code)
    case FinalHardExit => Exited(s, s.final.value.record.code)
  }

  predicate Legal(s: State, es: seq<Event>)
    decreases |es|
  {
    es == [] || (Enabled(s, es[0]) && Legal(Step(s, es[0]), es[1..]))
  }

  function Run(s: State, es: seq<Event>): State
    requires Legal(s, es)
    decreases |es|
  {
    if es == [] then s else Run(Step(s, es[0]), es[1..])
  }

  // ----- the inductive invariant

  predicate FatalInv(s: State) {
    && (s.fatal.handingOff || s.fatal.hardExit.Some? ==> s.fatal.handling)
    && (s.fatal.handling ==> s.fatal.startedAt <= s.now)
    && (s.fatal.handingOff ==> s.now <= s.fatal.startedAt + TURN_HANDOFF)
    && (s.fatal.hardExit.Some? ==> s.fatal.hardExit.value == s.fatal.startedAt + FATAL_EXIT)
    && (s.fatal.handling && !s.fatal.handingOff ==> s.final.Some?)
    && (s.final.None? && s.fatal.handling ==> s.fatal.hardExit.Some?)
  }

  predicate ShutdownInv(s: State) {
    && (!s.shutdown.begun ==> s.shutdown.total.None? && s.shutdown.close.None? && s.shutdown.phase.Waiting?)
    && (s.shutdown.begun ==> s.shutdown.startedAt <= s.now)
    && (s.shutdown.total.Some? ==>
          s.shutdown.total.value == s.shutdown.startedAt + SHUTDOWN_TOTAL && s.now <= s.shutdown.total.value)
    && (s.shutdown.close.Some? ==> s.now <= s.shutdown.close.value)
    && (s.shutdown.phase.Closing? ==> s.shutdown.close.Some? || s.final.Some?)
    && (s.final.Some? && s.final.value.record.outcome in {Complete, CloseError} ==> s.shutdown.phase.Over?)
    && (s.shutdown.begun && s.shutdown.total.None? ==> s.final.Some?)
    && (s.shutdown.begun && s.final.Some? ==> s.final.value.at <= s.shutdown.startedAt + SHUTDOWN_TOTAL)
  }

  /** Deadlines of a committed exit, and what ties them to the fatal error behind it. */
  predicate DeadlineInv(s: State, f: Final) {
    && f.record == RecordOf(f.record.outcome)
    && f.at <= s.now <= f.flush.deadline
    && (s.fatal.handling ==> s.fatal.startedAt <= f.at <= s.fatal.startedAt + TURN_HANDOFF)
    && (if f.record.outcome.FatalError? then
          && s.fatal.handling && s.fatal.hardExit.None?
          && f.hardDeadline == s.fatal.startedAt + FATAL_EXIT
          && f.flush.deadline == Min(f.at + FATAL_FLUSH, f.hardDeadline - EXIT_MARGIN)
        else
          && f.hardDeadline == f.at + OTEL_FLUSH + EXIT_MARGIN
          && f.flush.deadline == f.at + OTEL_FLUSH)
  }

  predicate StageInv(s: State, f: Final) {
    && f.at <= f.flush.since
    && (!f.flush.stage.OtelShutdown? && !f.flush.stage.Flushed? ==>
          f.flush.since <= s.now <= f.flush.until <= f.flush.deadline)
    && (f.flush.stage.Logs? ==> f.flush.since == f.at && f.flush.until == f.at + FLUSH_STAGE)
    && (f.flush.stage.FirstSentry? ==>
          f.record.outcome.FatalError? && f.flush.since <= f.at + FLUSH_STAGE
          && f.flush.until == f.flush.since + FLUSH_STAGE)
    && (s.exited.Some? ==> f.flush.stage.Flushed? || f.flush.deadline <= s.now)
    && (s.exited.Some? && f.record.outcome.FatalError? ==> !f.flush.stage.Logs? && !f.flush.stage.FirstSentry?)
  }

  predicate Inv(s: State) {
    && FatalInv(s) && ShutdownInv(s)
    && s.commits == (if s.final.Some? then 1 else 0)
    && (s.final.Some? ==> DeadlineInv(s, s.final.value) && StageInv(s, s.final.value))
    && (s.exited.Some? ==> s.final.Some? && s.exited.value == Exit(s.final.value.record.code, s.now))
  }

  lemma TickPreserves(s: State, to: Time)
    requires Inv(s) && Enabled(s, Tick(to))
    ensures Inv(Step(s, Tick(to)))
  {}

  lemma FatalPreserves(s: State)
    requires Inv(s) && s.exited.None?
    ensures Inv(FatalHandled(s))
  {}

  lemma HandoffPreserves(s: State)
    requires Inv(s) && Enabled(s, HandoffSettles)
    ensures Inv(Step(s, HandoffSettles))
  {}

  lemma SignalPreserves(s: State)
    requires Inv(s) && Enabled(s, Signal)
    ensures Inv(Step(s, Signal))
  {}

  lemma DrainPreserves(s: State, recoverable: bool)
    requires Inv(s) && s.exited.None? && s.shutdown.phase.Draining?
    ensures Inv(Step(s, DrainResolves)) && Inv(Step(s, DrainRejects(recoverable)))
  {
    FatalPreserves(s.(shutdown := s.shutdown.(phase := Over)));
  }

  lemma ShutdownPreserves(s: State, e: Event)
    requires Inv(s) && Enabled(s, e) && (e.CloseSettles? || e.CloseTimer? || e.TotalTimer?)
    ensures Inv(Step(s, e))
  {}

  lemma StagePreserves(s: State)
    requires Inv(s) && Enabled(s, StageSettles)
    ensures Inv(Step(s, StageSettles))
  {}

  lemma ExitPreserves(s: State, e: Event)
    requires Inv(s) && Enabled(s, e) && (e.FatalHardExit? || e.FlushSettles? || e.FlushDelay? || e.FinalHardExit?)
    ensures Inv(Step(s, e))
  {}

  lemma StepPreserves(s: State, e: Event)
    requires Inv(s) && Enabled(s, e)
    ensures Inv(Step(s, e))
  {
    match e {
      case Tick(to) => TickPreserves(s, to);
      case FatalArrives => FatalPreserves(s);
      case HandoffSettles => HandoffPreserves(s);
      case Signal => SignalPreserves(s);
      case DrainResolves => DrainPreserves(s, false);
      case DrainRejects(r) => DrainPreserves(s, r);
      case StageSettles => StagePreserves(s);
      case CloseSettles(_) => ShutdownPreserves(s, e);
      case CloseTimer => ShutdownPreserves(s, e);
      case TotalTimer => ShutdownPreserves(s, e);
      case _ => ExitPreserves(s, e);
    }
  }

  // ----- what holds of every run

  lemma {:induction false} RunPreserves(s: State, es: seq<Event>)
    requires Inv(s) && Legal(s, es)
    ensures Inv(Run(s, es))
    decreases |es|
  {
    if es != [] {
      StepPreserves(s, es[0]);
      RunPreserves(Step(s, es[0]), es[1..]);
    }
  }

  /** At most one record is ever committed, and the process exits with that record's code. */
  lemma OneRecordOwnsTheExit(es: seq<Event>)
    requires Legal(Init(), es)
    ensures var t := Run(Init(), es);
      && t.commits <= 1
      && (t.exited.Some? ==> t.final.Some? && t.commits == 1 && t.exited.value.code == t.final.value.record.code)
      && (t.final.Some? ==> (t.final.value.record.code == 1 <==> t.final.value.record.outcome.FatalError?))
  {
    RunPreserves(Init(), es);
  }

  lemma StepKeepsRecord(s: State, e: Event)
    requires Inv(s) && Enabled(s, e) && s.final.Some?
    ensures Step(s, e).final.Some? && Step(s, e).final.value.record == s.final.value.record
    ensures Step(s, e).final.value.at == s.final.value.at
  {}

  /** Whoever finalizes first decides: no later path changes the record. */
  lemma {:induction false} FirstRecordStays(s: State, es: seq<Event>)
    requires Inv(s) && Legal(s, es) && s.final.Some?
    ensures Run(s, es).final.Some? && Run(s, es).final.value.record == s.final.value.record
    decreases |es|
  {
    if es != [] {
      StepPreserves(s, es[0]);
      StepKeepsRecord(s, es[0]);
      FirstRecordStays(Step(s, es[0]), es[1..]);
    }
  }

  lemma {:induction false} RunSplits(s: State, a: seq<Event>, b: seq<Event>)
    ensures Legal(s, a + b) <==> Legal(s, a) && Legal(Run(s, a), b)
    ensures Legal(s, a + b) ==> Run(s, a + b) == Run(Run(s, a), b)
    decreases |a|
  {
    if a == [] {
      assert a + b == b;
    } else {
      assert (a + b)[1..] == a[1..] + b;
      if Enabled(s, a[0]) { RunSplits(Step(s, a[0]), a[1..], b); }
    }
  }

  /** A fatal error is being handled since `at` or before, or an exit has been committed by then. */
  predicate DoomedSince(s: State, at: Time) {
    (s.fatal.handling && s.fatal.startedAt <= at) || (s.final.Some? && s.final.value.at <= at)
  }

  lemma {:induction false} StaysDoomed(s: State, es: seq<Event>, at: Time)
    requires Inv(s) && Legal(s, es) && DoomedSince(s, at)
    ensures Inv(Run(s, es)) && DoomedSince(Run(s, es), at)
    decreases |es|
  {
    if es != [] {
      StepPreserves(s, es[0]);
      StaysDoomed(Step(s, es[0]), es[1..], at);
    }
  }

  lemma {:induction false} StaysBegun(s: State, es: seq<Event>, at: Time)
    requires Inv(s) && Legal(s, es) && s.shutdown.begun && s.shutdown.startedAt <= at
    ensures Inv(Run(s, es)) && Run(s, es).shutdown.begun && Run(s, es).shutdown.startedAt <= at
    decreases |es|
  {
    if es != [] {
      StepPreserves(s, es[0]);
      StaysBegun(Step(s, es[0]), es[1..], at);
    }
  }

  /** A fatal error, or a drain whose rejection nobody can recover from. */
  predicate IsFatal(e: Event) {
    e.FatalArrives? || e == DrainRejects(false)
  }

  lemma {:induction false} NoFatalHandled(s: State, es: seq<Event>)
    requires Legal(s, es) && !s.fatal.handling && forall k :: 0 <= k < |es| ==> !IsFatal(es[k])
    ensures !Run(s, es).fatal.handling
    decreases |es|
  {
    if es != [] { NoFatalHandled(Step(s, es[0]), es[1..]); }
  }

  /** A run with an event in it: the state the event finds, and the one it leaves. */
  lemma AroundEvent(before: seq<Event>, e: Event, after: seq<Event>)
    requires Legal(Init(), before + [e] + after)
    ensures Legal(Init(), before)
    ensures var s := Run(Init(), before);
      && Inv(s) && Enabled(s, e) && Legal(Step(s, e), after)
      && Run(Init(), before + [e] + after) == Run(Step(s, e), after)
  {
    RunSplits(Init(), before + [e], after);
    RunSplits(Init(), before, [e]);
    RunPreserves(Init(), before);
  }

  /**
   No state lies later than 2,750 ms after a fatal error arrives, whether it is handled or meets an exit
   under way: that long the process lives at most.
   */
  lemma FatalExitsInTime(before: seq<Event>, e: Event, after: seq<Event>)
    requires IsFatal(e) && Legal(Init(), before + [e] + after)
    ensures Legal(Init(), before)
    ensures Run(Init(), before + [e] + after).now <= Run(Init(), before).now + 2750.0
  {
    AroundEvent(before, e, after);
    var s := Run(Init(), before);
    StepPreserves(s, e);
    StaysDoomed(Step(s, e), after, s.now);
  }

  /** Nor later than 29,500 ms after a signal, or 28,000 ms if no fatal error arrives at all. */
  lemma SignalExitsInTime(before: seq<Event>, after: seq<Event>)
    requires Legal(Init(), before + [Signal] + after)
    ensures Legal(Init(), before)
    ensures var es := before + [Signal] + after;
      && Run(Init(), es).now <= Run(Init(), before).now + 29500.0
      && ((forall k :: 0 <= k < |es| ==> !IsFatal(es[k])) ==>
            Run(Init(), es).now <= Run(Init(), before).now + 28000.0)
  {
    AroundEvent(before, Signal, after);
    var s := Run(Init(), before);
    StepPreserves(s, Signal);
    StaysBegun(Step(s, Signal), after, s.now);
    var es := before + [Signal] + after;
    if forall k :: 0 <= k < |es| ==> !IsFatal(es[k]) {
      NoFatalHandled(Init(), es);
    }
  }

  /** The two backstop timers never fire: some other path is always on time. */
  lemma BackstopsNeverFire(es: seq<Event>)
    requires Legal(Init(), es)
    ensures !Enabled(Run(Init(), es), FatalHardExit) && !Enabled(Run(Init(), es), FinalHardExit)
  {
    RunPreserves(Init(), es);
  }

  /** The event whose path commits an exit with this outcome. */
  predicate Commits(e: Event, o: Outcome) {
    match o
    case Complete => e == CloseSettles(false)
    case CloseError => e == CloseSettles(true)
    case ForcedTimeout => e.CloseTimer? || e.TotalTimer?
    case FatalError => e.HandoffSettles?
  }

  /** The record names what really ended the process: that path was taken, while nothing was committed yet. */
  lemma {:induction false} OutcomeNamesItsCause(s: State, es: seq<Event>)
    requires Inv(s) && Legal(s, es) && s.final.None? && Run(s, es).final.Some?
    ensures exists k :: 0 <= k < |es| && Commits(es[k], Run(s, es).final.value.record.outcome)
    decreases |es|
  {
    var t := Step(s, es[0]);
    StepPreserves(s, es[0]);
    if t.final.Some? {
      FirstRecordStays(t, es[1..]);
      assert Commits(es[0], t.final.value.record.outcome);
    } else {
      OutcomeNamesItsCause(t, es[1..]);
      var k :| 0 <= k < |es[1..]| && Commits(es[1..][k], Run(s, es).final.value.record.outcome);
      assert es[k + 1] == es[1..][k];
    }
  }

  /** Each of these paths leaves an exit committed at once: its own, if it is the first. */
  lemma CommitsAtOnce(s: State, e: Event)
    requires Inv(s) && Enabled(s, e) && (e.HandoffSettles? || e.CloseSettles? || e.CloseTimer? || e.TotalTimer?)
    ensures var t := Step(s, e);
      && t.final.Some?
      && (s.final.None? ==> Commits(e, t.final.value.record.outcome) && t.final.value.at == s.now)
      && (s.final.Some? ==> t.final == s.final)
  {}

  // ----- the timers, traced back to the events that arm them

  /** Event `e` happened at this very time. */
  predicate SinceAt(es: seq<Event>, e: Event, at: Time) {
    exists k :: 0 <= k < |es| && es[k] == e && Legal(Init(), es[..k]) && Run(Init(), es[..k]).now == at
  }

  /** Event `e` happened at this time or before. */
  predicate SinceBy(es: seq<Event>, e: Event, upTo: Time) {
    exists k :: 0 <= k < |es| && es[k] == e && Legal(Init(), es[..k]) && Run(Init(), es[..k]).now <= upTo
  }

  predicate FatalAt(es: seq<Event>, at: Time) {
    SinceAt(es, FatalArrives, at) || SinceAt(es, DrainRejects(false), at)
  }

  /** The drain ended 8,500 ms ago or more, or the signal came 27,000 ms ago or more. */
  predicate Overdue(es: seq<Event>, now: Time) {
    SinceBy(es, DrainResolves, now - 8500.0) || SinceBy(es, Signal, now - 27000.0)
  }

  predicate Kept(es: seq<Event>, s: State) {
    && (s.shutdown.begun ==> SinceAt(es, Signal, s.shutdown.startedAt))
    && (s.shutdown.total.Some? ==> SinceAt(es, Signal, s.shutdown.total.value - 27000.0))
    && (s.shutdown.close.Some? ==> SinceAt(es, DrainResolves, s.shutdown.close.value - 8500.0))
    && (s.fatal.handling ==> FatalAt(es, s.fatal.startedAt))
    && (s.final.Some? && s.final.value.record.outcome.ForcedTimeout? ==> Overdue(es, s.final.value.at))
  }

  predicate Traced(es: seq<Event>)
    requires Legal(Init(), es)
  {
    Kept(es, Run(Init(), es))
  }

  lemma SinceStays(es: seq<Event>, next: Event, e: Event, at: Time)
    ensures SinceAt(es, e, at) ==> SinceAt(es + [next], e, at)
    ensures SinceBy(es, e, at) ==> SinceBy(es + [next], e, at)
  {
    assert forall k :: 0 <= k < |es| ==> (es + [next])[k] == es[k] && (es + [next])[..k] == es[..k];
  }

  lemma SinceNow(es: seq<Event>, e: Event)
    requires Legal(Init(), es)
    ensures SinceAt(es + [e], e, Run(Init(), es).now)
  {
    assert (es + [e])[|es|] == e && (es + [e])[..|es|] == es;
  }

  lemma AtIsBy(es: seq<Event>, e: Event, at: Time, upTo: Time)
    requires SinceAt(es, e, at) && at <= upTo
    ensures SinceBy(es, e, upTo)
  {}

  lemma OneMore(es: seq<Event>, e: Event)
    requires Legal(Init(), es + [e])
    ensures Legal(Init(), es) && Enabled(Run(Init(), es), e) && Inv(Run(Init(), es))
    ensures Run(Init(), es + [e]) == Step(Run(Init(), es), e)
  {
    RunSplits(Init(), es, [e]);
    RunPreserves(Init(), es);
  }

  lemma TracesStay(es: seq<Event>, e: Event)
    requires Legal(Init(), es + [e]) && Legal(Init(), es) && Traced(es)
    ensures Kept(es + [e], Run(Init(), es))
  {
    var s := Run(Init(), es);
    SinceStays(es, e, Signal, s.shutdown.startedAt);
    if s.shutdown.total.Some? { SinceStays(es, e, Signal, s.shutdown.total.value - 27000.0); }
    if s.shutdown.close.Some? { SinceStays(es, e, DrainResolves, s.shutdown.close.value - 8500.0); }
    SinceStays(es, e, FatalArrives, s.fatal.startedAt);
    SinceStays(es, e, DrainRejects(false), s.fatal.startedAt);
    if s.final.Some? {
      SinceStays(es, e, DrainResolves, s.final.value.at - 8500.0);
      SinceStays(es, e, Signal, s.final.value.at - 27000.0);
    }
  }

  lemma ForcingIsDue(es: seq<Event>, e: Event)
    requires Legal(Init(), es + [e]) && Legal(Init(), es) && Traced(es) && (e.CloseTimer? || e.TotalTimer?)
    requires Enabled(Run(Init(), es), e)
    ensures Overdue(es + [e], Run(Init(), es).now)
  {
    var s := Run(Init(), es);
    TracesStay(es, e);
    if e.CloseTimer? {
      AtIsBy(es + [e], DrainResolves, s.shutdown.close.value - 8500.0, s.now - 8500.0);
    } else {
      AtIsBy(es + [e], Signal, s.shutdown.total.value - 27000.0, s.now - 27000.0);
    }
  }

  lemma StepTraces(es: seq<Event>, e: Event)
    requires Legal(Init(), es + [e]) && Legal(Init(), es) && Traced(es)
    ensures Traced(es + [e])
  {
    OneMore(es, e);
    TracesStay(es, e);
    SinceNow(es, e);
    if e.CloseTimer? || e.TotalTimer? {
      ForcingIsDue(es, e);
      CommitTraces(es, e);
    } else if e.FatalArrives? || e.DrainRejects? {
      FatalTraces(es, e);
    } else if e.Signal? || e.DrainResolves? {
      ArmingTraces(es, e);
    } else {
      OtherTraces(es, e);
    }
  }

  lemma CommitTraces(es: seq<Event>, e: Event)
    requires Legal(Init(), es + [e]) && Legal(Init(), es) && Kept(es + [e], Run(Init(), es))
    requires (e.CloseTimer? || e.TotalTimer?) && Enabled(Run(Init(), es), e)
    requires Run(Init(), es + [e]) == Step(Run(Init(), es), e) && Overdue(es + [e], Run(Init(), es).now)
    ensures Traced(es + [e])
  {}

  lemma ArmingTraces(es: seq<Event>, e: Event)
    requires Legal(Init(), es + [e]) && Legal(Init(), es) && Kept(es + [e], Run(Init(), es))
    requires (e.Signal? || e.DrainResolves?) && Enabled(Run(Init(), es), e)
    requires Run(Init(), es + [e]) == Step(Run(Init(), es), e) && SinceAt(es + [e], e, Run(Init(), es).now)
    ensures Traced(es + [e])
  {}

  lemma FatalTraces(es: seq<Event>, e: Event)
    requires Legal(Init(), es + [e]) && Legal(Init(), es) && Kept(es + [e], Run(Init(), es))
    requires (e.FatalArrives? || e.DrainRejects?) && Enabled(Run(Init(), es), e)
    requires Run(Init(), es + [e]) == Step(Run(Init(), es), e) && SinceAt(es + [e], e, Run(Init(), es).now)
    ensures Traced(es + [e])
  {}

  lemma OtherTraces(es: seq<Event>, e: Event)
    requires Legal(Init(), es + [e]) && Legal(Init(), es) && Kept(es + [e], Run(Init(), es))
    requires !e.FatalArrives? && !e.DrainRejects? && !e.Signal? && !e.DrainResolves? && !e.CloseTimer? && !e.TotalTimer?
    requires Enabled(Run(Init(), es), e) && Run(Init(), es + [e]) == Step(Run(Init(), es), e)
    ensures Traced(es + [e])
  {}

  lemma {:induction false} RunTraces(es: seq<Event>)
    requires Legal(Init(), es)
    ensures Traced(es)
  {
    if es != [] {
      var front, e := es[..|es| - 1], es[|es| - 1];
      assert es == front + [e];
      OneMore(front, e);
      RunTraces(front);
      StepTraces(front, e);
    }
  }

  /**
   An exit is forced only once the app's close has had its 8,500 ms after the drain, or the whole shutdown
   its 27,000 ms after the signal; a fatal exit is committed within 1,000 ms of a fatal error.
   */
  lemma ForcedNotEarly(es: seq<Event>)
    requires Legal(Init(), es) && Run(Init(), es).final.Some?
    ensures var f := Run(Init(), es).final.value;
      && (f.record.outcome.ForcedTimeout? ==> Overdue(es, f.at))
      && (f.record.outcome.FatalError? ==>
            FatalAt(es, Run(Init(), es).fatal.startedAt)
            && Run(Init(), es).fatal.startedAt <= f.at <= Run(Init(), es).fatal.startedAt + 1000.0)
  {
    RunTraces(es);
    RunPreserves(Init(), es);
  }

  /**
   An ordinary shutdown is reported as what it was: an app that closes within 8,500 ms of the drain and
   27,000 ms of the signal, with no fatal error, commits `Complete` or, if the close failed, `CloseError`.
   */
  lemma CloseInTimeIsReported(before: seq<Event>, failed: bool)
    requires Legal(Init(), before + [CloseSettles(failed)])
    requires forall k :: 0 <= k < |before| ==> !IsFatal(before[k])
    requires Legal(Init(), before) && !Overdue(before, Run(Init(), before).now)
    ensures var t := Run(Init(), before + [CloseSettles(failed)]);
      t.final.Some? && t.final.value.record == Record(if failed then CloseError else Complete, 0)
      && t.final.value.at == Run(Init(), before).now
  {
    var s := Run(Init(), before);
    OneMore(before, CloseSettles(failed));
    NoFatalHandled(Init(), before);
    if s.final.Some? {
      ForcedNotEarly(before);
      OverdueStays(before, s.final.value.at, s.now);
    }
  }

  lemma OverdueStays(es: seq<Event>, at: Time, now: Time)
    requires Overdue(es, at) && at <= now
    ensures Overdue(es, now)
  {}

  /** Until something is committed each phase runs under its timer, armed for the full time. */
  lemma TimersInFigures(es: seq<Event>)
    requires Legal(Init(), es) && Run(Init(), es).final.None?
    ensures var t := Run(Init(), es);
      && (t.shutdown.begun ==>
            t.shutdown.total.Some? && SinceAt(es, Signal, t.shutdown.total.value - 27000.0))
      && (t.shutdown.phase.Closing? ==>
            t.shutdown.close.Some? && SinceAt(es, DrainResolves, t.shutdown.close.value - 8500.0))
      && (t.fatal.handling ==>
            FatalAt(es, t.fatal.startedAt) && t.fatal.hardExit == Some(t.fatal.startedAt + 3000.0))
      && t.exited.None?
  {
    RunTraces(es);
    RunPreserves(Init(), es);
  }

  /** And until then time can run on to the first of these: the handoff's 1,000 ms, the close, the total. */
  lemma ClockRunsUntil(s: State, to: Time)
    requires Inv(s) && s.final.None?
    ensures Enabled(s, Tick(to)) <==>
            && s.now <= to && (s.fatal.handling ==> to <= s.fatal.startedAt + 1000.0)
            && (s.shutdown.begun ==> to <= s.shutdown.startedAt + 27000.0)
            && (s.shutdown.close.Some? ==> to <= s.shutdown.close.value)
  {}

  /** The figures of a committed exit, and that it does not come before the flush is over or out of time. */
  lemma ExitInFigures(es: seq<Event>)
    requires Legal(Init(), es) && Run(Init(), es).final.Some?
    ensures var t := Run(Init(), es); var f := t.final.value;
      && f.record.code == (if f.record.outcome.FatalError? then 1 else 0)
      && (!f.record.outcome.FatalError? ==> f.flush.deadline == f.at + 1000.0 && f.hardDeadline == f.at + 1250.0)
      && (f.record.outcome.FatalError? ==>
            && FatalAt(es, t.fatal.startedAt) && f.hardDeadline == t.fatal.startedAt + 3000.0
            && f.flush.deadline == Min(f.at + 2500.0, t.fatal.startedAt + 2750.0))
      && (t.exited.Some? ==> f.flush.stage.Flushed? || f.flush.deadline <= t.exited.value.at)
  {
    RunTraces(es);
    RunPreserves(Init(), es);
  }

  // ----- what the flush grants its stages

  /** A stage was begun at `since`, to be cut off at `until`. */
  datatype Grant = Grant(stage: Stage, since: Time, until: Time)

  function StageOf(s: State): Stage {
    if s.final.Some? then s.final.value.flush.stage else Flushed
  }

  /** The grant that a step makes, if it begins a stage. */
  function Granted(s: State, e: Event): seq<Grant>
    requires Enabled(s, e)
  {
    var t := Step(s, e);
    if StageOf(t) == StageOf(s) || StageOf(t).Flushed? then []
    else [Grant(StageOf(t), t.final.value.flush.since, t.final.value.flush.until)]
  }

  /** The stages that a run begins, in order. */
  function Grants(s: State, es: seq<Event>): seq<Grant>
    requires Legal(s, es)
    decreases |es|
  {
    if es == [] then [] else Granted(s, es[0]) + Grants(Step(s, es[0]), es[1..])
  }

  /** Delivery-importance order; only a fatal error has its captured event sent ahead of the spans. */
  function Schedule(fatal: bool): (stages: seq<Stage>)
    ensures |stages| == if fatal then 5 else 4
  {
    if fatal then [Logs, FirstSentry, Spans, LastSentry, OtelShutdown] else [Logs, Spans, LastSentry, OtelShutdown]
  }

  function CapOf(stage: Stage): Time {
    if stage.LastSentry? || stage.OtelShutdown? then 1000.0 else 800.0
  }

  /** Grant number `k` is the schedule's, and gets its cap or all that the shared deadline leaves. */
  predicate GrantOk(f: Final, grants: seq<Grant>, k: nat)
    requires k < |grants|
  {
    var schedule, g := Schedule(f.record.outcome.FatalError?), grants[k];
    && k < |schedule| && g.stage == schedule[k]
    && g.since < f.flush.deadline && g.until == g.since + Min(CapOf(g.stage), f.flush.deadline - g.since)
    && (k == 0 ==> g.since == f.at)
    && (k > 0 ==> grants[k - 1].since <= g.since <= grants[k - 1].until)
  }

  /** The stages begun so far follow the schedule, which only the deadline can cut short. */
  predicate GrantInv(s: State, grants: seq<Grant>) {
    if s.final.None? then grants == []
    else
      var f := s.final.value;
      && (forall k :: 0 <= k < |grants| ==> GrantOk(f, grants, k))
      && 0 < |grants| <= |Schedule(f.record.outcome.FatalError?)|
      && (if f.flush.stage.Flushed? then
            |grants| == |Schedule(f.record.outcome.FatalError?)| || grants[|grants| - 1].until == f.flush.deadline
          else
            grants[|grants| - 1] == Grant(f.flush.stage, f.flush.since, f.flush.until))
  }

  lemma CommitGrants(s: State, e: Event)
    requires Inv(s) && Enabled(s, e) && s.final.None?
    ensures GrantInv(Step(s, e), Granted(s, e))
  {
    StepPreserves(s, e);
  }

  /** What `flushTelemetry` does after stage number `n` of its schedule. */
  lemma AfterStage(flush: Flush, fatal: bool, now: Time, n: nat)
    requires n < |Schedule(fatal)| && flush.stage == Schedule(fatal)[n]
    ensures NextStage(flush, fatal, now) ==
            if n + 1 < |Schedule(fatal)| then Begin(flush, now, Schedule(fatal)[n + 1], CapOf(Schedule(fatal)[n + 1]))
            else flush.(stage := Flushed)
    ensures n + 1 < |Schedule(fatal)| ==> Schedule(fatal)[n + 1] != flush.stage
  {}

  lemma GrantsStayOk(f: Final, g: Final, grants: seq<Grant>, more: seq<Grant>)
    requires forall k :: 0 <= k < |grants| ==> GrantOk(f, grants, k)
    requires g.record == f.record && g.at == f.at && g.flush.deadline == f.flush.deadline
    ensures forall k :: 0 <= k < |grants| ==> GrantOk(g, grants + more, k)
  {
    forall k | 0 <= k < |grants| ensures GrantOk(g, grants + more, k) {
      assert GrantOk(f, grants, k);
    }
  }

  lemma NextGrant(s: State, grants: seq<Grant>)
    requires Inv(s) && Enabled(s, StageSettles) && GrantInv(s, grants)
    ensures GrantInv(Step(s, StageSettles), grants + Granted(s, StageSettles))
  {
    var f := s.final.value;
    assert GrantOk(f, grants, |grants| - 1);
    AfterStage(f.flush, f.record.outcome.FatalError?, s.now, |grants| - 1);
    if |grants| < |Schedule(f.record.outcome.FatalError?)| && s.now < f.flush.deadline {
      StageBegins(s, grants);
    } else {
      FlushIsOver(s, grants);
    }
  }

  lemma StageBegins(s: State, grants: seq<Grant>)
    requires Inv(s) && Enabled(s, StageSettles) && GrantInv(s, grants) && s.now < s.final.value.flush.deadline
    requires var f := s.final.value; var schedule := Schedule(f.record.outcome.FatalError?);
      && |grants| < |schedule| && schedule[|grants|] != f.flush.stage
      && NextStage(f.flush, f.record.outcome.FatalError?, s.now)
         == Begin(f.flush, s.now, schedule[|grants|], CapOf(schedule[|grants|]))
    ensures GrantInv(Step(s, StageSettles), grants + Granted(s, StageSettles))
  {
    var f, g := s.final.value, Step(s, StageSettles).final.value;
    var stage := Schedule(f.record.outcome.FatalError?)[|grants|];
    var next := Grant(stage, s.now, s.now + Remaining(f.flush, s.now, CapOf(stage)));
    assert Granted(s, StageSettles) == [next];
    GrantsStayOk(f, g, grants, [next]);
    assert (grants + [next])[|grants| - 1] == grants[|grants| - 1];
    assert GrantOk(f, grants, |grants| - 1);
    assert GrantOk(g, grants + [next], |grants|);
  }

  lemma FlushIsOver(s: State, grants: seq<Grant>)
    requires Inv(s) && Enabled(s, StageSettles) && GrantInv(s, grants)
    requires Step(s, StageSettles).final.value.flush == s.final.value.flush.(stage := Flushed)
    requires var n := |Schedule(s.final.value.record.outcome.FatalError?)|;
      |grants| == n || s.now >= s.final.value.flush.deadline
    ensures GrantInv(Step(s, StageSettles), grants + Granted(s, StageSettles))
  {
    var f, g := s.final.value, Step(s, StageSettles).final.value;
    assert Granted(s, StageSettles) == [];
    GrantsStayOk(f, g, grants, []);
    assert grants + [] == grants;
    assert GrantOk(f, grants, |grants| - 1);
  }

  lemma OtherStepGrantsNothing(s: State, e: Event, grants: seq<Grant>)
    requires Inv(s) && Enabled(s, e) && GrantInv(s, grants) && s.final.Some? && !e.StageSettles?
    ensures Granted(s, e) == [] && GrantInv(Step(s, e), grants)
  {
    StepPreserves(s, e);
    var t := Step(s, e);
    assert t.final == s.final;
    forall k | 0 <= k < |grants| ensures GrantOk(t.final.value, grants, k) {
      assert GrantOk(s.final.value, grants, k);
    }
  }

  lemma StepGrants(s: State, e: Event, grants: seq<Grant>)
    requires Inv(s) && Enabled(s, e) && GrantInv(s, grants)
    ensures GrantInv(Step(s, e), grants + Granted(s, e))
  {
    if s.final.None? {
      CommitGrants(s, e);
      assert [] + Granted(s, e) == Granted(s, e);
    } else if e.StageSettles? {
      NextGrant(s, grants);
    } else {
      OtherStepGrantsNothing(s, e, grants);
      assert grants + [] == grants;
    }
  }

  lemma {:induction false} GrantsFollow(s: State, es: seq<Event>, grants: seq<Grant>)
    requires Inv(s) && Legal(s, es) && GrantInv(s, grants)
    ensures GrantInv(Run(s, es), grants + Grants(s, es))
    decreases |es|
  {
    if es == [] {
      assert grants + [] == grants;
    } else {
      StepPreserves(s, es[0]);
      StepGrants(s, es[0], grants);
      GrantsFollow(Step(s, es[0]), es[1..], grants + Granted(s, es[0]));
      Splitting.Assoc(grants, Granted(s, es[0]), Grants(Step(s, es[0]), es[1..]));
    }
  }

  /**
   However a run goes, the flush begins its stages in the order of the schedule, each as the one before it
   ends and with its own cap or what is left; it ends early only at the deadline.
   */
  lemma FlushFollowsSchedule(es: seq<Event>)
    requires Legal(Init(), es)
    ensures GrantInv(Run(Init(), es), Grants(Init(), es))
  {
    GrantsFollow(Init(), es, []);
    assert [] + Grants(Init(), es) == Grants(Init(), es);
  }

  /**
   After a fatal error the log flush begins with the commit and is granted its full 800 ms; when it ends,
   the first Sentry flush is granted its own; and the process exits in the middle of neither.
   */
  lemma FatalFlushGetsItsStages(es: seq<Event>)
    requires Legal(Init(), es)
    requires var f := Run(Init(), es).final; f.Some? && f.value.record.outcome.FatalError?
    ensures var t := Run(Init(), es); var f := t.final.value; var g := Grants(Init(), es);
      && |g| > 0 && g[0] == Grant(Logs, f.at, f.at + 800.0)
      && (|g| == 1 ==> f.flush.stage.Logs? && t.exited.None?)
      && (|g| > 1 ==> g[1] == Grant(FirstSentry, g[1].since, g[1].since + 800.0)
                      && g[0].since <= g[1].since <= g[0].until && g[1].until < f.flush.deadline)
      && (|g| == 2 ==> f.flush.stage.FirstSentry? && t.exited.None?)
  {
    RunPreserves(Init(), es);
    FlushFollowsSchedule(es);
    var f, g := Run(Init(), es).final.value, Grants(Init(), es);
    assert GrantOk(f, g, 0);
    assert |g| > 1 ==> GrantOk(f, g, 1);
  }

  /** The end of the log flush after a fatal error begins the first Sentry flush, with its full 800 ms. */
  lemma LogsThenFirstSentry(s: State)
    requires Inv(s) && Enabled(s, StageSettles)
    requires s.final.value.record.outcome.FatalError? && s.final.value.flush.stage.Logs?
    ensures var flush := Step(s, StageSettles).final.value.flush;
      && flush.stage.FirstSentry? && flush.since == s.now && flush.until == s.now + 800.0
      && flush.until < flush.deadline && flush.deadline == s.final.value.flush.deadline
  {}

  /** The earliest armed timer, if any. */
  function Sooner(a: Option<Time>, b: Option<Time>): Option<Time> {
    if a.None? then b else if b.None? || a.value <= b.value then a else b
  }

  function NextTimer(s: State): Option<Time> {
    Sooner(if s.fatal.handingOff then Some(s.fatal.startedAt + TURN_HANDOFF) else None,
    Sooner(s.fatal.hardExit,
    Sooner(s.shutdown.total,
    Sooner(s.shutdown.close,
    Sooner(if s.final.Some? then Some(Min(Max(s.final.value.at, s.final.value.flush.deadline),
                                          s.final.value.hardDeadline)) else None,
           if s.final.Some? && !s.final.value.flush.stage.OtelShutdown? && !s.final.value.flush.stage.Flushed?
           then Some(s.final.value.flush.until) else None)))))
  }

  /** What a due timer sets off. */
  predicate TimerEvent(e: Event) {
    e.HandoffSettles? || e.CloseTimer? || e.TotalTimer? || e.StageSettles? || e.FlushDelay?
  }

  /**
   Time is never stuck: while the process runs, either the clock can move on to the next timer or a
   timer is due and what it sets off can happen.
   */
  lemma TimeNeverStuck(s: State)
    requires Inv(s) && s.exited.None?
    ensures var next := NextTimer(s);
      if next.None? then forall to :: s.now <= to ==> Enabled(s, Tick(to))
      else if s.now < next.value then Enabled(s, Tick(next.value))
      else exists e :: TimerEvent(e) && Enabled(s, e)
  {
    var next := NextTimer(s);
    if next.Some? && next.value <= s.now {
      if s.fatal.handingOff && s.fatal.startedAt + TURN_HANDOFF <= s.now {
        assert Enabled(s, HandoffSettles);
      } else if s.shutdown.total.Some? && s.shutdown.total.value <= s.now {
        assert Enabled(s, TotalTimer);
      } else if s.shutdown.close.Some? && s.shutdown.close.value <= s.now {
        assert Enabled(s, CloseTimer);
      } else if s.final.Some? && Max(s.final.value.at, s.final.value.flush.deadline) <= s.now {
        assert Enabled(s, FlushDelay);
      } else {
        assert Enabled(s, StageSettles);
      }
    }
  }

  /** The app's close is waited for until its timeout after `at` at the latest, or an exit is committed by then. */
  predicate ClosingSince(s: State, at: Time) {
    || (s.shutdown.close.Some? && s.shutdown.close.value <= at + 8500.0)
    || (s.final.Some? && s.final.value.at <= at + 8500.0)
  }

  lemma StepStaysClosing(s: State, e: Event, at: Time)
    requires Inv(s) && Enabled(s, e) && e != DrainResolves && ClosingSince(s, at)
    ensures ClosingSince(Step(s, e), at)
  {}

  lemma {:induction false} StaysClosing(s: State, es: seq<Event>, at: Time)
    requires Inv(s) && Legal(s, es) && ClosingSince(s, at) && !s.shutdown.phase.Draining? && s.shutdown.begun
    ensures Inv(Run(s, es)) && ClosingSince(Run(s, es), at)
    decreases |es|
  {
    if es != [] {
      StepPreserves(s, es[0]);
      StepStaysClosing(s, es[0], at);
      StaysClosing(Step(s, es[0]), es[1..], at);
    }
  }

  /**
   No state lies later than 11,000 ms after the drain has ended, or 9,500 ms if no fatal error arrives at
   all, however long the app's close hangs.
   */
  lemma DrainedExitsInTime(before: seq<Event>, after: seq<Event>)
    requires Legal(Init(), before + [DrainResolves] + after)
    ensures Legal(Init(), before)
    ensures var es := before + [DrainResolves] + after;
      && Run(Init(), es).now <= Run(Init(), before).now + 11000.0
      && ((forall k :: 0 <= k < |es| ==> !IsFatal(es[k])) ==>
            Run(Init(), es).now <= Run(Init(), before).now + 9500.0)
  {
    AroundEvent(before, DrainResolves, after);
    var s := Run(Init(), before);
    StepPreserves(s, DrainResolves);
    StaysClosing(Step(s, DrainResolves), after, s.now);
    var es := before + [DrainResolves] + after;
    if forall k :: 0 <= k < |es| ==> !IsFatal(es[k]) {
      NoFatalHandled(Init(), es);
    }
  }

  // ----- the exit is reached

  /** Something has begun that has to end in an exit. */
  predicate Ending(s: State) {
    s.fatal.handling || s.shutdown.begun || s.final.Some?
  }

  function StagesLeft(stage: Stage): nat {
    match stage
    case Logs => 5
    case FirstSentry => 4
    case Spans => 3
    case LastSentry => 2
    case OtelShutdown => 1
    case Flushed => 0
  }

  function One(b: bool): nat {
    if b then 1 else 0
  }

  /** The timers that can still fire, and the stages of the flush. */
  function Rank(s: State): nat {
    One(s.fatal.handingOff) + One(s.shutdown.total.Some?) + One(s.shutdown.close.Some?)
    + if s.final.Some? then StagesLeft(s.final.value.flush.stage) else 6
  }

  /** Whatever a timer sets off ends the process or brings its end nearer. */
  lemma TimerLowersRank(s: State, e: Event)
    requires Inv(s) && Enabled(s, e) && TimerEvent(e)
    ensures Step(s, e).exited.Some? || Rank(Step(s, e)) < Rank(s)
    ensures Ending(s) ==> Ending(Step(s, e))
  {}

  predicate TimersOnly(es: seq<Event>) {
    forall k :: 0 <= k < |es| ==> es[k].Tick? || TimerEvent(es[k])
  }

  lemma EndingHasTimer(s: State)
    requires Inv(s) && s.exited.None? && Ending(s)
    ensures NextTimer(s).Some?
  {}

  lemma WaitForTimer(s: State)
    requires Inv(s) && s.exited.None? && Ending(s) && s.now < NextTimer(s).value
    ensures Enabled(s, Tick(NextTimer(s).value))
    ensures var t := Step(s, Tick(NextTimer(s).value));
      NextTimer(t) == NextTimer(s) && t.now == NextTimer(s).value && Rank(t) == Rank(s)
  {
    TimeNeverStuck(s);
  }

  lemma RunCons(s: State, e: Event, es: seq<Event>)
    requires Enabled(s, e) && Legal(Step(s, e), es)
    ensures Legal(s, [e] + es) && Run(s, [e] + es) == Run(Step(s, e), es)
  {
    assert ([e] + es)[1..] == es;
  }

  lemma FireTimer(s: State) returns (e: Event)
    requires Inv(s) && s.exited.None? && Ending(s) && NextTimer(s).Some? && NextTimer(s).value <= s.now
    ensures TimerEvent(e) && Enabled(s, e)
  {
    TimeNeverStuck(s);
    e :| TimerEvent(e) && Enabled(s, e);
  }

  /**
   Once a fatal error, a signal or a commit has set an end, time and the timers alone lead to the exit,
   though every foreign call hangs.
   */
  lemma {:induction false} ExitIsReached(s: State) returns (es: seq<Event>)
    requires Inv(s) && s.exited.None? && Ending(s)
    ensures TimersOnly(es) && Legal(s, es) && Run(s, es).exited.Some?
    decreases Rank(s), 1
  {
    EndingHasTimer(s);
    if s.now < NextTimer(s).value {
      var e := Tick(NextTimer(s).value);
      WaitForTimer(s);
      StepPreserves(s, e);
      var more := ExitOnceDue(Step(s, e));
      RunCons(s, e, more);
      es := [e] + more;
    } else {
      es := ExitOnceDue(s);
    }
  }

  lemma {:induction false} ExitOnceDue(s: State) returns (es: seq<Event>)
    requires Inv(s) && s.exited.None? && Ending(s) && NextTimer(s).Some? && NextTimer(s).value <= s.now
    ensures TimersOnly(es) && Legal(s, es) && Run(s, es).exited.Some?
    decreases Rank(s), 0
  {
    var e := FireTimer(s);
    var t := Step(s, e);
    TimerLowersRank(s, e);
    StepPreserves(s, e);
    es := [];
    if t.exited.None? { es := ExitIsReached(t); }
    RunCons(s, e, es);
    es := [e] + es;
  }

  /** After a fatal error the process can do no other: at the latest its timers end it, within 2,750 ms. */
  lemma FatalLeadsToExit(before: seq<Event>, e: Event) returns (after: seq<Event>)
    requires IsFatal(e) && Legal(Init(), before + [e])
    ensures TimersOnly(after) && Legal(Init(), before + [e] + after) && Legal(Init(), before)
    ensures var t := Run(Init(), before + [e] + after);
      t.exited.Some? && t.exited.value.at <= Run(Init(), before).now + 2750.0
  {
    assert before + [e] + [] == before + [e];
    AroundEvent(before, e, []);
    var s := Run(Init(), before);
    StepPreserves(s, e);
    StaysDoomed(Step(s, e), [], s.now);
    after := ExitIsReached(Step(s, e));
    ExitWithin(before, e, after);
    FatalExitsInTime(before, e, after);
  }

  /** After a signal likewise, within 29,500 ms, or 28,000 ms if no fatal error came before. */
  lemma SignalLeadsToExit(before: seq<Event>) returns (after: seq<Event>)
    requires Legal(Init(), before + [Signal])
    ensures TimersOnly(after) && Legal(Init(), before + [Signal] + after) && Legal(Init(), before)
    ensures var t := Run(Init(), before + [Signal] + after);
      && t.exited.Some? && t.exited.value.at <= Run(Init(), before).now + 29500.0
      && ((forall k :: 0 <= k < |before| ==> !IsFatal(before[k])) ==>
            t.exited.value.at <= Run(Init(), before).now + 28000.0)
  {
    assert before + [Signal] + [] == before + [Signal];
    AroundEvent(before, Signal, []);
    var s := Run(Init(), before);
    StepPreserves(s, Signal);
    after := ExitIsReached(Step(s, Signal));
    ExitWithin(before, Signal, after);
    SignalExitsInTime(before, after);
    if forall k :: 0 <= k < |before| ==> !IsFatal(before[k]) {
      assert forall k :: 0 <= k < |before + [Signal] + after| ==> !IsFatal((before + [Signal] + after)[k]);
    }
  }

  lemma ExitWithin(before: seq<Event>, e: Event, after: seq<Event>)
    requires Legal(Init(), before) && Enabled(Run(Init(), before), e)
    requires Legal(Step(Run(Init(), before), e), after) && Run(Step(Run(Init(), before), e), after).exited.Some?
    ensures Legal(Init(), before + [e] + after)
    ensures var t := Run(Init(), before + [e] + after); t.exited.Some? && t.exited.value.at == t.now
  {
    var s := Run(Init(), before);
    RunCons(s, e, []);
    assert [e] + [] == [e];
    RunSplits(Init(), before, [e]);
    RunSplits(Init(), before + [e], after);
    RunPreserves(Init(), before + [e] + after);
  }

  // ----- the program

  /**
   The module variables of the bootstrap, the locals of its shutdown routine and the timers. Each
   method is one callback; `Now` is the state it works on.
   */
  class ApiProcess {
    var now: Time
    // the fatal path
    var fatalHandling: bool
    var fatalStartedAt: Time
    var handingOff: bool
    var fatalHardExit: Option<Time>
    // the signal path
    var shuttingDown: bool
    var shutdownStartedAt: Time
    var phase: Phase
    var totalTimeout: Option<Time>
    var closeTimeout: Option<Time>
    // the committed exit
    var exitRecord: Option<Record>
    var committedAt: Time
    var hardDeadline: Time
    var flush: Flush
    var commits: nat
    var exited: Option<Exit>

    ghost function Now(): State
      reads this
    {
      State(now, Fatal(fatalHandling, fatalStartedAt, handingOff, fatalHardExit),
            Shutdown(shuttingDown, shutdownStartedAt, phase, totalTimeout, closeTimeout),
            if exitRecord.Some? then Some(Final(exitRecord.value, committedAt, hardDeadline, flush)) else None,
            commits, exited)
    }

    constructor ()
      ensures Now() == Init()
    {
      now := 0.0;
      fatalHandling, fatalStartedAt, handingOff, fatalHardExit := false, 0.0, false, None;
      shuttingDown, shutdownStartedAt, phase, totalTimeout, closeTimeout := false, 0.0, Waiting, None, None;
      exitRecord, committedAt, hardDeadline, commits, exited := None, 0.0, 0.0, 0, None;
      flush := Flush(0.0, Flushed, 0.0, 0.0);
    }

    method FinalizeExit(outcome: Outcome, fatalDeadline: Option<Time>) returns (committed: bool)
      modifies this
      ensures Now() == Finalized(old(Now()), outcome, fatalDeadline)
      ensures committed == old(exitRecord).None?
    {
      if exitRecord.Some? { return false; }
      exitRecord := Some(RecordOf(outcome));
      committedAt := now;
      var stageBudget := if outcome.FatalError? then FATAL_FLUSH else OTEL_FLUSH;
      var hard := if fatalDeadline.Some? then fatalDeadline.value else now + stageBudget + EXIT_MARGIN;
      var flushDeadline := Min(now + stageBudget, hard - EXIT_MARGIN);
      hardDeadline := Max(now, hard);
      flush := Flush(flushDeadline, Logs, now, now);
      flush := flush.(until := now + Remaining(flush, now, FLUSH_STAGE));
      commits := commits + 1;
      return true;
    }

    method HandleFatal()
      requires exited.None?
      modifies this
      ensures Now() == FatalHandled(old(Now()))
    {
      if fatalHandling || exitRecord.Some? { return; }
      fatalHandling, fatalStartedAt, handingOff := true, now, true;
      fatalHardExit := Some(now + FATAL_EXIT);
    }

    method OnHandoffSettled()
      requires Enabled(Now(), HandoffSettles)
      modifies this
      ensures Now() == Step(old(Now()), HandoffSettles)
    {
      handingOff := false;
      var committed := FinalizeExit(FatalError, Some(fatalStartedAt + FATAL_EXIT));
      if committed { fatalHardExit := None; }
    }

    method HandleShutdown()
      requires Enabled(Now(), Signal)
      modifies this
      ensures Now() == Step(old(Now()), Signal)
    {
      if shuttingDown { return; }
      shuttingDown, shutdownStartedAt, phase := true, now, Draining;
      totalTimeout, closeTimeout := Some(now + SHUTDOWN_TOTAL), None;
    }

    method OnDrained()
      requires Enabled(Now(), DrainResolves)
      modifies this
      ensures Now() == Step(old(Now()), DrainResolves)
    {
      phase := Closing;
      closeTimeout := Some(now + SHUTDOWN_CLOSE);
    }

    /** The shutdown routine rejects: the rejection handler decides. */
    method OnDrainRejected(recoverable: bool)
      requires Enabled(Now(), DrainRejects(recoverable))
      modifies this
      ensures Now() == Step(old(Now()), DrainRejects(recoverable))
    {
      phase := Over;
      if !recoverable { HandleFatal(); }
    }

    method OnClosed(appCloseFailed: bool)
      requires Enabled(Now(), CloseSettles(appCloseFailed))
      modifies this
      ensures Now() == Step(old(Now()), CloseSettles(appCloseFailed))
    {
      phase := Over;
      closeTimeout, totalTimeout := None, None;
      var _ := FinalizeExit(if appCloseFailed then CloseError else Complete, None);
    }

    method OnCloseTimeout()
      requires Enabled(Now(), CloseTimer)
      modifies this
      ensures Now() == Step(old(Now()), CloseTimer)
    {
      closeTimeout := None;
      var committed := FinalizeExit(ForcedTimeout, None);
      if committed { totalTimeout := None; }
    }

    method OnTotalTimeout()
      requires Enabled(Now(), TotalTimer)
      modifies this
      ensures Now() == Step(old(Now()), TotalTimer)
    {
      totalTimeout := None;
      var _ := FinalizeExit(ForcedTimeout, None);
    }

    /** A stage of `flushTelemetry` settles or runs into its cap. */
    method OnStageSettled()
      requires Enabled(Now(), StageSettles)
      modifies this
      ensures Now() == Step(old(Now()), StageSettles)
    {
      match flush.stage {
        case Logs =>
          if exitRecord.value.outcome.FatalError? {
            flush := Begin(flush, now, FirstSentry, FLUSH_STAGE);
          } else {
            flush := Begin(flush, now, Spans, FLUSH_STAGE);
          }
        case FirstSentry => flush := Begin(flush, now, Spans, FLUSH_STAGE);
        case Spans => flush := Begin(flush, now, LastSentry, OTEL_FLUSH);
        case LastSentry => flush := Begin(flush, now, OtelShutdown, OTEL_FLUSH);
        case OtelShutdown => flush := flush.(stage := Flushed);
        case Flushed =>
      }
    }

    /** `process.exit`, from the flush, its delay or the hard exit. */
    method ExitWithRecord(e: Event)
      requires Enabled(Now(), e) && (e.FlushSettles? || e.FlushDelay? || e.FinalHardExit?)
      modifies this
      ensures Now() == Step(old(Now()), e)
    {
      exited := Some(Exit(exitRecord.value.code, now));
    }
  }
}
