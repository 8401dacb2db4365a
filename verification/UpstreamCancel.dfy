/**
 Naming and cancelling an accepted upstream task when the caller aborts.

 Four parties share a handful of variables: the consumer's pump, the abort listener, a detached
 "harvest" reader and the harvest timer. `State` records those variables together with the world
 they act on (the source's reads, the clock, the calls made to the outside); `Step` is one
 uninterrupted stretch of execution between two awaits. The class at the end is the imperative
 program, proved equal to `Step`.
 */
module UpstreamCancel {
  import opened Options

  type TaskId = string

  /** How one read of the source settles. `Item` carries what `taskIdOf` finds in the item. */
  datatype Outcome = Item(id: Option<TaskId>) | Done | Failed

  datatype SkipReason = WindowElapsed | ReadFailed | StreamEnded

  /** The promise of `nextOrAbort`: open, resolved by the read, or resolved as aborted. */
  datatype Wake = Open | Got | Woken

  /** `failed` tells whether the consumer saw an error. */
  datatype Pump = Idle | Awaiting(read: nat, wake: Wake) | AtYield | Ended(failed: bool)

  datatype Harvest = NotStarted | Reading(read: nat) | Finished

  /** The caller's signal; `listening` while the abort listener is registered. */
  datatype Signal = Signal(preAborted: bool, aborted: bool, abortedAt: nat, listening: bool)

  /** The shared variables, and at which await the pump and the harvest are. */
  datatype Vars = Vars(
    taskId: Option<TaskId>, resolved: bool, detached: bool, upstreamLive: bool,
    pending: Option<nat>, pump: Pump, harvest: Harvest)

  /** Milliseconds; `timer` is the harvest timer's deadline while it is armed. */
  datatype Clock = Clock(window: nat, now: nat, timer: Option<nat>, harvestEnds: nat)

  /** Reads are numbered in the order they are started; `settled[i]` is how read `i` ended. */
  datatype Source = Source(issued: nat, settled: seq<Outcome>, pumpReads: nat, handed: nat)

  /** What was done to the outside world. */
  datatype Effects = Effects(cancels: seq<TaskId>, skips: seq<SkipReason>, teardowns: nat, closes: nat) {
    function Cancel(id: TaskId): Effects {
      Effects(cancels + [id], skips, teardowns + 1, closes)
    }

    function Skip(reason: SkipReason): Effects {
      Effects(cancels, skips + [reason], teardowns + 1, closes)
    }
  }

  datatype State = State(sig: Signal, v: Vars, clock: Clock, src: Source, fx: Effects)

  datatype Event =
    | Pull              // the consumer asks for the next item
    | Return            // the consumer stops iterating
    | Abort             // the caller's signal fires
    | Settle(o: Outcome)
    | Forward           // the read's value reaches the pump's promise
    | ResumePump
    | ResumeHarvest
    | WindowFires
    | Tick

  function Init(window: nat, upstreamStarted: bool, preAborted: bool): State {
    State(Signal(preAborted, preAborted, 0, true),
          Vars(None, false, false, upstreamStarted, None, Idle, NotStarted),
          Clock(window, 0, None, 0),
          Source(0, [], 0, 0),
          Effects([], [], 0, 0))
  }

  // ----- the closures

  function Cancelled(s: State): State {
    if s.v.resolved || s.v.taskId.None? then s
    else s.(v := s.v.(resolved := true), fx := s.fx.Cancel(s.v.taskId.value))
  }

  function Skipped(s: State, reason: SkipReason): State {
    if s.v.resolved then s
    else s.(v := s.v.(resolved := true), fx := s.fx.Skip(reason))
  }

  function Detached(s: State): State {
    var ends := s.clock.now + s.clock.window;
    s.(v := s.v.(detached := true,
                 harvest := Reading(if s.v.pending.Some? then s.v.pending.value else s.src.issued)),
       clock := s.clock.(timer := Some(ends), harvestEnds := ends),
       src := if s.v.pending.Some? then s.src else s.src.(issued := s.src.issued + 1))
  }

  function CallerAborted(s: State): State {
    if s.v.resolved || s.v.detached then s
    else if s.v.taskId.Some? then Cancelled(s)
    else if !s.v.upstreamLive then
      s.(v := s.v.(resolved := true), fx := s.fx.(teardowns := s.fx.teardowns + 1))
    else Detached(s)
  }

  function Closed(s: State): State {
    s.(fx := s.fx.(closes := s.fx.closes + 1))
  }

  /** The pump's `finally` block. */
  function Left(s: State, failed: bool): State {
    var s1 := s.(sig := s.sig.(listening := false), v := s.v.(pump := Ended(failed)));
    if s.v.detached then s1 else Closed(s1)
  }

  /** What the harvest does once its loop is over. */
  function HarvestOver(s: State, failed: bool): State {
    var s1 := s.(clock := s.clock.(timer := None), v := s.v.(harvest := Finished));
    Closed(if s.v.taskId.Some? then Cancelled(s1)
           else Skipped(s1, if failed then ReadFailed else StreamEnded))
  }

  // ----- the steps

  function StepPull(s: State): State {
    if s.sig.aborted then PumpAborted(s)
    else s.(v := s.v.(upstreamLive := true, pending := Some(s.src.issued), pump := Awaiting(s.src.issued, Open)),
            src := s.src.(issued := s.src.issued + 1, pumpReads := s.src.pumpReads + 1))
  }

  function PumpAborted(s: State): State {
    var s1 := CallerAborted(s);
    Left(s1.(v := s1.v.(pending := None)), false)
  }

  /** Stopping a generator that never ran skips its `finally` block. */
  function StepReturn(s: State): State {
    if s.v.pump.Idle? then s.(v := s.v.(pump := Ended(false))) else Left(s, false)
  }

  function StepAbort(s: State): State {
    var sig := s.sig.(aborted := true, abortedAt := s.clock.now, listening := false);
    if !s.sig.listening then s.(sig := sig)
    else if s.v.pump.Awaiting? && s.v.pump.wake.Open? then
      CallerAborted(s.(sig := sig, v := s.v.(pump := Awaiting(s.v.pump.read, Woken))))
    else CallerAborted(s.(sig := sig))
  }

  function StepResumePump(s: State): State
    requires s.v.pump.Awaiting? && !s.v.pump.wake.Open?
    requires s.v.pump.wake.Got? ==> s.v.pump.read < |s.src.settled|
  {
    if s.v.pump.wake.Woken? then PumpAborted(s)
    else match s.src.settled[s.v.pump.read]
      case Failed => Left(s, true)
      case Done => Left(s.(v := s.v.(pending := None)), false)
      case Item(id) =>
        s.(v := s.v.(pending := None, pump := AtYield, taskId := if s.v.taskId.None? then id else s.v.taskId),
           src := s.src.(handed := s.src.handed + 1))
  }

  function StepResumeHarvest(s: State): State
    requires s.v.harvest.Reading? && s.v.harvest.read < |s.src.settled|
  {
    match s.src.settled[s.v.harvest.read]
    case Failed => HarvestOver(s, true)
    case Done => HarvestOver(s, false)
    case Item(Some(id)) => HarvestOver(s.(v := s.v.(taskId := Some(id))), false)
    case Item(None) =>
      var s1 := s.(v := s.v.(harvest := Reading(s.src.issued)), src := s.src.(issued := s.src.issued + 1));
      if s.v.resolved then HarvestOver(s1, false) else s1
  }

  predicate Enabled(s: State, e: Event) {
    match e
    case Pull => s.v.pump.Idle? || s.v.pump.AtYield?
    case Return => s.v.pump.Idle? || s.v.pump.AtYield?
    case Abort => !s.sig.aborted
    case Settle(_) => |s.src.settled| < s.src.issued
    case Forward => s.v.pump.Awaiting? && s.v.pump.wake.Open? && s.v.pump.read < |s.src.settled|
    case ResumePump =>
      s.v.pump.Awaiting? && !s.v.pump.wake.Open? && (s.v.pump.wake.Got? ==> s.v.pump.read < |s.src.settled|)
    case ResumeHarvest => s.v.harvest.Reading? && s.v.harvest.read < |s.src.settled|
    case WindowFires => s.clock.timer.Some? && s.clock.timer.value <= s.clock.now
    // an armed timer fires on time
    case Tick => s.clock.timer.Some? ==> s.clock.now < s.clock.timer.value
  }

  function Step(s: State, e: Event): State
    requires Enabled(s, e)
  {
    match e
    case Pull => StepPull(s)
    case Return => StepReturn(s)
    case Abort => StepAbort(s)
    case Settle(o) => s.(src := s.src.(settled := s.src.settled + [o]))
    case Forward => s.(v := s.v.(pump := Awaiting(s.v.pump.read, Got)))
    case ResumePump => StepResumePump(s)
    case ResumeHarvest => StepResumeHarvest(s)
    case WindowFires => Skipped(s.(clock := s.clock.(timer := None)), WindowElapsed)
    case Tick => s.(clock := s.clock.(now := s.clock.now + 1))
  }

  // ----- runs

  predicate Legal(s: State, es: seq<Event>)
    decreases |es|
  {
    es == [] || (Enabled(s, es[0]) && Legal(Step(s, es[0]), es[1..]))
  }

  function Run(s: State, es: seq<Event>): State
    requires Legal(s, es)
    decreases |es|
  {
    if es == [] then s else Run(Step(s, es[0]), es[1..])
  }

  // ----- the inductive invariant

  /** The first task id the source names, in source order. */
  function FirstId(settled: seq<Outcome>): Option<TaskId> {
    if settled == [] then None
    else if settled[0].Item? && settled[0].id.Some? then settled[0].id
    else FirstId(settled[1..])
  }

  predicate NoIdBefore(settled: seq<Outcome>, n: nat) {
    forall k :: 0 <= k < n && k < |settled| ==> settled[k].Item? && settled[k].id.None?
  }

  predicate Reads(s: State) {
    && |s.src.settled| <= s.src.issued <= |s.src.settled| + 1
    && (!s.v.upstreamLive ==> s.src.issued == 0 && (s.v.pump.Idle? || s.v.pump.Ended?) && s.v.harvest.NotStarted?)
    && s.src.handed <= |s.src.settled|
    && (forall k :: 0 <= k < s.src.handed ==> s.src.settled[k].Item?)
    && (s.v.pump.Idle? ==> s.src.handed == 0)
    && (s.v.pump == Ended(true) ==> s.src.handed < |s.src.settled| && s.src.settled[s.src.handed].Failed?)
    && (s.v.pump.Awaiting? ==> s.v.pump.read < s.src.issued && s.v.pump.read == s.src.handed)
    && (s.v.pump.Awaiting? && s.v.pump.wake.Got? ==> s.v.pump.read < |s.src.settled|)
    && (s.v.pump.Awaiting? && !s.v.detached ==> s.v.pending == Some(s.v.pump.read) && s.v.pump.read + 1 == s.src.issued)
    && ((s.v.pump.Idle? || s.v.pump.AtYield?) && !s.v.detached ==>
          s.v.pending.None? && s.src.issued == |s.src.settled| == s.src.handed)
    && (s.v.pump.Idle? && !s.v.detached ==> s.src.issued == 0)
    && (s.v.pump.Ended? && !s.v.detached && s.sig.listening ==> s.v.pending.None? && s.src.issued == 0)
    && (s.v.harvest.Reading? ==> s.v.harvest.read + 1 == s.src.issued)
    && s.src.handed <= s.src.pumpReads <= s.src.issued
    && (!s.v.detached ==> s.src.pumpReads == s.src.issued)
    && (s.v.pump.Awaiting? ==> s.v.pump.read + 1 == s.src.pumpReads)
    && (s.v.harvest.Finished? ==> s.src.pumpReads <= |s.src.settled|)
  }

  /** The consumer is done with a stream that it has read from. */
  predicate Finishing(s: State) {
    s.v.pump.Ended? && s.src.pumpReads > 0
  }

  predicate Listening(s: State) {
    && (s.sig.preAborted ==> s.sig.aborted)
    && (s.v.pump.Awaiting? && s.v.pump.wake.Open? ==> !s.sig.aborted)
    && (s.v.pump.Awaiting? && s.v.pump.wake.Woken? ==> s.sig.aborted && (s.v.resolved || s.v.detached))
    && (!s.sig.aborted && !Finishing(s) ==> s.sig.listening)
    && (s.sig.aborted && s.sig.listening ==> s.sig.preAborted && (s.v.pump.Idle? || s.v.pump.Ended?))
    && (s.sig.aborted && !s.v.resolved && !s.v.detached ==> s.v.pump.Ended? || (s.sig.preAborted && s.v.pump.Idle?))
    && (s.sig.preAborted ==> s.v.pump.Idle? || s.v.pump.Ended?)
    && (s.sig.preAborted && s.v.pump.Idle? ==> !s.v.resolved && !s.v.detached && s.sig.listening)
  }

  /** The first id among the items that the consumer was handed. */
  function HandedId(s: State): Option<TaskId> {
    if s.src.handed <= |s.src.settled| then FirstId(s.src.settled[..s.src.handed]) else None
  }

  predicate Naming(s: State) {
    && (s.v.taskId.Some? ==> FirstId(s.src.settled) == s.v.taskId)
    && (s.v.taskId.Some? && !s.v.detached ==> HandedId(s) == s.v.taskId)
    && (s.v.harvest.Reading? ==> NoIdBefore(s.src.settled, s.v.harvest.read))
    && (s.v.taskId.None? && s.v.pump.Awaiting? ==> NoIdBefore(s.src.settled, s.v.pump.read))
    && (s.v.taskId.None? && (s.v.pump.Idle? || s.v.pump.AtYield?) && !s.v.detached ==>
          NoIdBefore(s.src.settled, |s.src.settled|))
    && (forall c :: c in s.fx.cancels ==> FirstId(s.src.settled) == Some(c))
  }

  predicate Outside(s: State) {
    && (s.v.resolved ==> s.sig.aborted)
    && (s.v.detached ==> s.sig.aborted && s.v.upstreamLive)
    && (s.v.detached <==> !s.v.harvest.NotStarted?)
    && (!s.v.resolved ==> s.fx.cancels == [] && s.fx.skips == [] && s.fx.teardowns == 0)
    && (s.v.resolved ==> s.fx.teardowns == 1)
    && (s.v.resolved && s.v.upstreamLive ==> |s.fx.cancels| + |s.fx.skips| == 1)
    && (s.v.resolved && !s.v.upstreamLive ==> s.fx.cancels == [] && s.fx.skips == [])
    && (s.v.harvest.Finished? ==> s.v.resolved && s.fx.closes == 1)
    && (s.fx.closes <= 1)
    && (s.fx.closes == 1 ==> s.v.pump.Ended? || s.v.harvest.Finished?)
    && (s.fx.closes == 1 && s.v.pump.Ended? && !s.v.detached ==> !s.sig.listening)
    && (s.v.detached && !s.v.harvest.Finished? ==> s.fx.closes == 0)
    && (s.v.pump.Ended? && s.src.pumpReads > 0 && !s.v.detached ==> s.fx.closes == 1)
    && (s.v.pump.Idle? ==> s.src.pumpReads == 0)
    && ((s.v.pump.Awaiting? || s.v.pump.AtYield?) ==> s.src.pumpReads > 0)
  }

  /** The source gave an id, ended or failed. */
  predicate Answered(settled: seq<Outcome>) {
    exists k :: 0 <= k < |settled| && (settled[k].Item? ==> settled[k].id.Some?)
  }

  predicate Timing(s: State) {
    && (s.clock.timer.Some? ==>
          s.v.detached && s.clock.timer.value == s.clock.harvestEnds && s.clock.now <= s.clock.harvestEnds)
    && (s.v.detached && !s.v.resolved ==> s.clock.timer.Some? && s.v.harvest.Reading?)
    && (s.v.detached && s.v.resolved ==> Answered(s.src.settled) || s.clock.harvestEnds <= s.clock.now)
    && (s.v.detached && !s.sig.preAborted ==> s.clock.harvestEnds == s.sig.abortedAt + s.clock.window)
    && (s.sig.aborted ==> s.sig.abortedAt <= s.clock.now)
  }

  /** A skip for want of an id is recorded only once the source has ended or failed without one. */
  predicate Reasons(s: State) {
    && (StreamEnded in s.fx.skips || ReadFailed in s.fx.skips ==>
          && s.v.harvest.Finished? && s.src.settled != [] && |s.src.settled| == s.src.issued
          && FirstId(s.src.settled).None?
          && (StreamEnded in s.fx.skips ==> Last(s.src.settled).Done?)
          && (ReadFailed in s.fx.skips ==> Last(s.src.settled).Failed?))
    && (WindowElapsed in s.fx.skips ==> s.v.detached && s.clock.harvestEnds <= s.clock.now)
  }

  predicate Inv(s: State) {
    Reads(s) && Listening(s) && Naming(s) && Outside(s) && Timing(s) && Reasons(s)
  }

  function Last(settled: seq<Outcome>): Outcome
    requires settled != []
  {
    settled[|settled| - 1]
  }

  lemma {:induction false} FirstIdAppend(settled: seq<Outcome>, o: Outcome)
    requires FirstId(settled).Some?
    ensures FirstId(settled + [o]) == FirstId(settled)
  {
    if !(settled[0].Item? && settled[0].id.Some?) {
      assert (settled + [o])[1..] == settled[1..] + [o];
      FirstIdAppend(settled[1..], o);
    }
  }

  lemma {:induction false} FirstIdAt(settled: seq<Outcome>, n: nat)
    requires n < |settled| && NoIdBefore(settled, n) && settled[n].Item? && settled[n].id.Some?
    ensures FirstId(settled) == settled[n].id
  {
    if n > 0 {
      FirstIdAt(settled[1..], n - 1);
    }
  }

  lemma SettlePreserves(s: State, o: Outcome)
    requires Inv(s) && Enabled(s, Settle(o))
    ensures Inv(Step(s, Settle(o)))
  {
    var t := Step(s, Settle(o));
    assert forall k :: 0 <= k < |s.src.settled| ==> t.src.settled[k] == s.src.settled[k];
    assert s.src.handed <= |s.src.settled| ==>
      t.src.settled[..s.src.handed] == s.src.settled[..s.src.handed];
    if FirstId(s.src.settled).Some? {
      FirstIdAppend(s.src.settled, o);
    }
  }

  lemma HandedOneMore(s: State)
    requires Inv(s) && Enabled(s, ResumePump) && s.v.pump.wake.Got? && s.src.settled[s.v.pump.read].Item?
    ensures var t := Step(s, ResumePump); t.v.taskId.Some? && !t.v.detached ==> HandedId(t) == t.v.taskId
  {
    var i, settled := s.v.pump.read, s.src.settled;
    assert settled[..i + 1] == settled[..i] + [settled[i]];
    if s.v.taskId.Some? {
      if !s.v.detached { FirstIdAppend(settled[..i], settled[i]); }
    } else if settled[i].id.Some? {
      FirstIdAt(settled[..i + 1], i);
    }
  }

  lemma GotPreserves(s: State)
    requires Inv(s) && Enabled(s, ResumePump) && s.v.pump.wake.Got?
    ensures Inv(Step(s, ResumePump))
  {
    match s.src.settled[s.v.pump.read] {
      case Failed => LeftPreserves(s, s.v.pending, true);
      case Done => LeftPreserves(s, None, false);
      case Item(id) => ItemPreserves(s);
    }
  }

  lemma LeftPreserves(s: State, pending: Option<nat>, failed: bool)
    requires Inv(s) && Enabled(s, ResumePump) && s.v.pump.wake.Got?
    requires failed ==> s.src.settled[s.v.pump.read].Failed?
    ensures Inv(Left(s.(v := s.v.(pending := pending)), failed))
  {}

  lemma ItemPreserves(s: State)
    requires Inv(s) && Enabled(s, ResumePump) && s.v.pump.wake.Got? && s.src.settled[s.v.pump.read].Item?
    ensures Inv(Step(s, ResumePump))
  {
    var i, t := s.v.pump.read, StepResumePump(s);
    if s.v.taskId.None? && s.src.settled[i].id.Some? {
      FirstIdAt(s.src.settled, i);
    }
    assert Reads(t);
    HandedOneMore(s);
    assert Naming(t);
  }

  lemma ResumeHarvestPreserves(s: State)
    requires Inv(s) && Enabled(s, ResumeHarvest)
    ensures Inv(Step(s, ResumeHarvest))
  {
    var i, t := s.v.harvest.read, StepResumeHarvest(s);
    match s.src.settled[i] {
      case Failed => HarvestOverPreserves(s, true);
      case Done => HarvestOverPreserves(s, false);
      case Item(Some(id)) =>
        FirstIdAt(s.src.settled, i);
        HarvestOverPreserves(s.(v := s.v.(taskId := Some(id))), false);
      case Item(None) => ReadOnPreserves(s);
    }
  }

  lemma ReadOnPreserves(s: State)
    requires Inv(s) && Enabled(s, ResumeHarvest) && s.src.settled[s.v.harvest.read] == Item(None)
    ensures Inv(Step(s, ResumeHarvest))
  {
    NextReadPreserves(s);
    if s.v.resolved { HarvestOverPreserves(NextRead(s), false); }
  }

  function NextRead(s: State): State {
    s.(v := s.v.(harvest := Reading(s.src.issued)), src := s.src.(issued := s.src.issued + 1))
  }

  lemma NextReadPreserves(s: State)
    requires Inv(s) && Enabled(s, ResumeHarvest) && s.src.settled[s.v.harvest.read] == Item(None)
    ensures Inv(NextRead(s))
  {}

  lemma HarvestOverPreserves(s: State, failed: bool)
    requires Inv(s) && s.v.harvest.Reading? && (s.v.resolved || Answered(s.src.settled))
    requires s.src.pumpReads <= |s.src.settled|
    requires !s.v.resolved && s.v.taskId.None? ==>
      s.v.harvest.read < |s.src.settled| && s.src.settled[s.v.harvest.read] == if failed then Failed else Done
    ensures Inv(HarvestOver(s, failed))
  {
    if !s.v.resolved && s.v.taskId.None? {
      NoFirstId(s.src.settled);
    }
  }

  lemma {:induction false} NoFirstId(settled: seq<Outcome>)
    requires forall k :: 0 <= k < |settled| ==> settled[k].Item? ==> settled[k].id.None?
    ensures FirstId(settled).None?
  {
    if settled != [] { NoFirstId(settled[1..]); }
  }

  lemma StepPreserves(s: State, e: Event)
    requires Inv(s) && Enabled(s, e)
    ensures Inv(Step(s, e))
  {
    match e {
      case Pull => PullPreserves(s);
      case Return => ReturnPreserves(s);
      case Abort => AbortPreserves(s);
      case Settle(o) => SettlePreserves(s, o);
      case Forward => ForwardPreserves(s);
      case ResumePump => ResumePumpPreserves(s);
      case ResumeHarvest => ResumeHarvestPreserves(s);
      case WindowFires => WindowPreserves(s);
      case Tick => TickPreserves(s);
    }
  }

  lemma ResumePumpPreserves(s: State)
    requires Inv(s) && Enabled(s, ResumePump)
    ensures Inv(Step(s, ResumePump))
  {
    if s.v.pump.wake.Got? { GotPreserves(s); } else { PumpAbortedPreserves(s); }
  }

  lemma PullPreserves(s: State)
    requires Inv(s) && Enabled(s, Pull)
    ensures Inv(Step(s, Pull))
  {
    if s.sig.aborted { PumpAbortedPreserves(s); }
  }

  lemma ReturnPreserves(s: State)
    requires Inv(s) && Enabled(s, Return)
    ensures Inv(Step(s, Return))
  {}

  lemma ForwardPreserves(s: State)
    requires Inv(s) && Enabled(s, Forward)
    ensures Inv(Step(s, Forward))
  {}

  lemma WindowPreserves(s: State)
    requires Inv(s) && Enabled(s, WindowFires)
    ensures Inv(Step(s, WindowFires))
  {}

  lemma TickPreserves(s: State)
    requires Inv(s) && Enabled(s, Tick)
    ensures Inv(Step(s, Tick))
  {}

  lemma PumpAbortedPreserves(s: State)
    requires Inv(s) && s.sig.aborted
    requires s.v.pump.Idle? || s.v.pump.AtYield? || (s.v.pump.Awaiting? && s.v.pump.wake.Woken?)
    ensures Inv(PumpAborted(s))
  {}

  lemma AbortPreserves(s: State)
    requires Inv(s) && Enabled(s, Abort)
    ensures Inv(Step(s, Abort))
  {}

  // ----- what holds of every run

  lemma {:induction false} RunPreserves(s: State, es: seq<Event>)
    requires Inv(s) && Legal(s, es)
    ensures Inv(Run(s, es))
    decreases |es|
  {
    if es != [] {
      StepPreserves(s, es[0]);
      RunPreserves(Step(s, es[0]), es[1..]);
    }
  }

  lemma {:induction false} RunSplits(s: State, a: seq<Event>, b: seq<Event>)
    ensures Legal(s, a + b) <==> Legal(s, a) && Legal(Run(s, a), b)
    ensures Legal(s, a + b) ==> Run(s, a + b) == Run(Run(s, a), b)
    decreases |a|
  {
    if a == [] {
      assert a + b == b;
    } else {
      assert (a + b)[1..] == a[1..] + b;
      if Enabled(s, a[0]) {
        RunSplits(Step(s, a[0]), a[1..], b);
      }
    }
  }

  /** Cancel and skip together happen at most once, and the upstream is torn down at most once. */
  lemma ResolvedAtMostOnce(window: nat, started: bool, preAborted: bool, es: seq<Event>)
    requires Legal(Init(window, started, preAborted), es)
    ensures var t := Run(Init(window, started, preAborted), es);
      && |t.fx.cancels| + |t.fx.skips| <= 1
      && t.fx.teardowns == (if t.v.resolved then 1 else 0)
      && t.fx.closes <= 1
  {
    RunPreserves(Init(window, started, preAborted), es);
  }

  /** A cancel names the first id of the source, whichever reader came across it. */
  lemma CancelNamesFirstId(window: nat, started: bool, preAborted: bool, es: seq<Event>, id: TaskId)
    requires Legal(Init(window, started, preAborted), es)
    requires id in Run(Init(window, started, preAborted), es).fx.cancels
    ensures FirstId(Run(Init(window, started, preAborted), es).src.settled) == Some(id)
  {
    RunPreserves(Init(window, started, preAborted), es);
  }

  /** Pump and harvest never have two reads outstanding, and the consumer sees a prefix of the source. */
  lemma OneReadOutstanding(window: nat, started: bool, preAborted: bool, es: seq<Event>)
    requires Legal(Init(window, started, preAborted), es)
    ensures var t := Run(Init(window, started, preAborted), es);
      && |t.src.settled| <= t.src.issued <= |t.src.settled| + 1
      && t.src.handed <= |t.src.settled|
      && (t.v.pump.Awaiting? ==> t.v.pump.read == t.src.handed)
  {
    RunPreserves(Init(window, started, preAborted), es);
  }

  /**
   Skips are honest: for want of an id only if the source named none before it ended or failed, and for
   the window only once it is over. An id that arrives in time is therefore never skipped.
   */
  lemma SkipsAreHonest(window: nat, started: bool, preAborted: bool, es: seq<Event>)
    requires Legal(Init(window, started, preAborted), es)
    ensures var t := Run(Init(window, started, preAborted), es);
      && (StreamEnded in t.fx.skips ==>
            FirstId(t.src.settled).None? && t.src.settled != [] && Last(t.src.settled).Done?)
      && (ReadFailed in t.fx.skips ==>
            FirstId(t.src.settled).None? && t.src.settled != [] && Last(t.src.settled).Failed?)
      && (WindowElapsed in t.fx.skips ==> t.v.detached && t.clock.harvestEnds <= t.clock.now)
      && (WindowElapsed in t.fx.skips && !preAborted ==> t.sig.abortedAt + window <= t.clock.now)
  {
    RunPreserves(Init(window, started, preAborted), es);
    RunExtends(Init(window, started, preAborted), es);
  }

  /** Until something is recorded the harvest keeps reading: a read of the source is outstanding, or it can go on. */
  lemma HarvestReadsOn(window: nat, started: bool, preAborted: bool, es: seq<Event>)
    requires Legal(Init(window, started, preAborted), es)
    ensures var t := Run(Init(window, started, preAborted), es);
      t.v.detached && !t.v.resolved ==>
        || (t.src.issued == |t.src.settled| + 1 && t.v.harvest == Reading(|t.src.settled|))
        || Enabled(t, ResumeHarvest)
  {
    RunPreserves(Init(window, started, preAborted), es);
  }

  /** Each time the harvest goes on it is over, or stands at the next read, newly started and not settled yet. */
  lemma HarvestMovesOn(s: State)
    requires Inv(s) && Enabled(s, ResumeHarvest)
    ensures var t := Step(s, ResumeHarvest);
      || (t.v.harvest.Finished? && t.v.resolved && t.clock.timer.None?)
      || (t.v.harvest == Reading(s.v.harvest.read + 1) && t.src.issued == s.src.issued + 1
          && t.src.settled == s.src.settled && !Enabled(t, ResumeHarvest))
  {
    StepPreserves(s, ResumeHarvest);
    match s.src.settled[s.v.harvest.read] { case Failed => case Done => case Item(id) => }
  }

  /** The steps that the program makes of itself; the others come from outside, the clock's included. */
  predicate IsOwn(e: Event) {
    e.Forward? || e.ResumePump? || e.ResumeHarvest? || e.WindowFires?
  }

  /** How many steps of its own the program has at hand: over pending reads and the timer. */
  function Work(s: State): nat {
    (if s.v.pump.Awaiting? then (if s.v.pump.wake.Open? then 2 else 1) else 0)
    + (if s.v.harvest.Reading? && s.v.harvest.read < |s.src.settled| then 1 else 0)
    + (if s.clock.timer.Some? then 1 else 0)
  }

  /** Every step of its own uses up work; no step from outside makes more than two. */
  lemma WorkIsUsedUp(s: State, e: Event)
    requires Inv(s) && Enabled(s, e)
    ensures IsOwn(e) ==> Work(Step(s, e)) < Work(s)
    ensures !IsOwn(e) ==> Work(Step(s, e)) <= Work(s) + 2
  {
    StepPreserves(s, e);
    match e {
      case ResumePump =>
        if s.v.pump.wake.Got? {
          match s.src.settled[s.v.pump.read] { case Failed => case Done => case Item(_) => }
        }
      case ResumeHarvest => HarvestMovesOn(s);
      case _ =>
    }
  }

  function Own(es: seq<Event>): nat {
    if es == [] then 0 else (if IsOwn(es[0]) then 1 else 0) + Own(es[1..])
  }

  /** No run spins: its own steps are bounded by those from outside. */
  lemma {:induction false} OwnStepsAreBounded(s: State, es: seq<Event>)
    requires Inv(s) && Legal(s, es)
    ensures Own(es) <= |es|
    ensures Own(es) + Work(Run(s, es)) <= Work(s) + 2 * (|es| - Own(es))
    decreases |es|
  {
    if es != [] {
      StepPreserves(s, es[0]);
      WorkIsUsedUp(s, es[0]);
      OwnStepsAreBounded(Step(s, es[0]), es[1..]);
    }
  }

  predicate Quiet(s: State) {
    !Enabled(s, Forward) && !Enabled(s, ResumePump) && !Enabled(s, ResumeHarvest) && !Enabled(s, WindowFires)
  }

  predicate AllOwn(es: seq<Event>) {
    forall k :: 0 <= k < |es| ==> IsOwn(es[k])
  }

  /** Left to itself the program comes to rest, within the work at hand. */
  lemma {:induction false} ComesToRest(s: State) returns (es: seq<Event>)
    requires Inv(s)
    ensures AllOwn(es) && |es| <= Work(s) && Legal(s, es) && Inv(Run(s, es)) && Quiet(Run(s, es))
    decreases Work(s)
  {
    es := [];
    if !Quiet(s) {
      var e := if Enabled(s, Forward) then Forward else if Enabled(s, ResumePump) then ResumePump
               else if Enabled(s, ResumeHarvest) then ResumeHarvest else WindowFires;
      StepPreserves(s, e);
      WorkIsUsedUp(s, e);
      var more := ComesToRest(Step(s, e));
      assert ([e] + more)[1..] == more;
      es := [e] + more;
    }
  }

  /** An id that has reached a detached stream is recorded once the program rests, unless the window was over. */
  lemma ArrivedIdIsRecorded(s: State, id: TaskId) returns (es: seq<Event>)
    requires Inv(s) && s.v.detached && FirstId(s.src.settled) == Some(id)
    ensures AllOwn(es) && |es| <= Work(s) && Legal(s, es)
    ensures Run(s, es).fx.cancels == [id] || Run(s, es).fx.skips == [WindowElapsed]
  {
    es := ComesToRest(s);
    RunExtends(s, es);
    OwnKeepsSource(s, es);
    RestIsRecorded(Run(s, es), id);
  }

  lemma OwnStepKeepsSource(s: State, e: Event)
    requires Inv(s) && Enabled(s, e) && IsOwn(e)
    ensures Step(s, e).src.settled == s.src.settled
  {
    if e.ResumeHarvest? {
      HarvestKeepsSource(s);
    } else if e.ResumePump? && s.v.pump.wake.Got? {
      match s.src.settled[s.v.pump.read] { case Failed => case Done => case Item(_) => }
    }
  }

  lemma {:induction false} OwnKeepsSource(s: State, es: seq<Event>)
    requires Inv(s) && Legal(s, es) && AllOwn(es)
    ensures Run(s, es).src.settled == s.src.settled
    decreases |es|
  {
    if es != [] {
      StepPreserves(s, es[0]);
      OwnStepKeepsSource(s, es[0]);
      OwnKeepsSource(Step(s, es[0]), es[1..]);
    }
  }

  /** An id that reaches a detached stream is cancelled once the harvest has come to it, unless the window was over. */
  lemma HarvestedIdIsCancelled(window: nat, started: bool, preAborted: bool, es: seq<Event>, id: TaskId)
    requires Legal(Init(window, started, preAborted), es)
    requires var t := Run(Init(window, started, preAborted), es);
      t.v.detached && FirstId(t.src.settled) == Some(id) && !Enabled(t, ResumeHarvest)
    ensures var t := Run(Init(window, started, preAborted), es); t.fx.cancels == [id] || t.fx.skips == [WindowElapsed]
  {
    RunPreserves(Init(window, started, preAborted), es);
    RestIsRecorded(Run(Init(window, started, preAborted), es), id);
  }

  lemma RestIsRecorded(t: State, id: TaskId)
    requires Inv(t) && t.v.detached && FirstId(t.src.settled) == Some(id) && !Enabled(t, ResumeHarvest)
    ensures t.fx.cancels == [id] || t.fx.skips == [WindowElapsed]
  {
    if !t.v.resolved {
      NoFirstId(t.src.settled);
    } else if t.fx.skips != [] {
      OneSkip(t);
    } else {
      assert t.fx.cancels == [t.fx.cancels[0]] && t.fx.cancels[0] in t.fx.cancels;
    }
  }

  lemma OneSkip(s: State)
    requires Inv(s) && s.fx.skips != [] && FirstId(s.src.settled).Some?
    ensures s.fx.skips == [WindowElapsed]
  {
    var reason := s.fx.skips[0];
    assert reason in s.fx.skips && s.fx.skips == [reason];
    match reason { case WindowElapsed => case ReadFailed => case StreamEnded => }
  }

  /** The step at which the harvest comes to an id: it cancels there and then, unless something was recorded before. */
  lemma IdEndsHarvest(s: State, id: TaskId)
    requires Inv(s) && Enabled(s, ResumeHarvest) && s.src.settled[s.v.harvest.read] == Item(Some(id))
    ensures var t := Step(s, ResumeHarvest);
      && t.v.resolved && t.v.harvest.Finished?
      && (!s.v.resolved ==> t.fx.cancels == [id] && t.fx.skips == [])
      && (s.v.resolved ==> t.fx.skips == [WindowElapsed] || t.fx.cancels != [])
  {
    StepPreserves(s, ResumeHarvest);
    FirstIdAt(s.src.settled, s.v.harvest.read);
    if s.fx.skips != [] { OneSkip(s); }
  }

  /** An upstream task can exist: it did from the start, or the source has been read. */
  predicate Live(started: bool, s: State) {
    started || s.src.issued > 0
  }

  /**
   An abort before the consumer is done with a live stream, none of whose items handed over had an id,
   leaves the upstream alone until the source names an id, ends or fails, or the whole window has elapsed.
   */
  lemma NoEarlyTeardown(window: nat, started: bool, before: seq<Event>, after: seq<Event>)
    requires Legal(Init(window, started, false), before + [Abort] + after)
    requires Legal(Init(window, started, false), before)
    requires var s := Run(Init(window, started, false), before);
      !Finishing(s) && Live(started, s) && HandedId(s).None?
    ensures var s := Run(Init(window, started, false), before);
      var t := Run(Init(window, started, false), before + [Abort] + after);
      t.fx.teardowns > 0 ==> Answered(t.src.settled) || s.clock.now + window <= t.clock.now
  {
    AbortThen(window, started, before, after);
  }

  /** Whoever reads last closes the source: the pump if no harvest took over, else the harvest, once it is over. */
  lemma SourceIsClosed(window: nat, started: bool, preAborted: bool, es: seq<Event>)
    requires Legal(Init(window, started, preAborted), es)
    ensures var t := Run(Init(window, started, preAborted), es);
      && (t.v.pump.Ended? && t.src.pumpReads > 0 && !t.v.detached ==> t.fx.closes == 1)
      && (t.v.detached ==> t.fx.closes == (if t.v.harvest.Finished? then 1 else 0))
      && (t.fx.closes == 1 ==> t.v.pump.Ended? || t.v.harvest.Finished?)
  {
    RunPreserves(Init(window, started, preAborted), es);
  }

  /** After the abort the consumer waits for no read any more, and is let go at the pump's next step. */
  lemma AbortEndsTheWait(window: nat, started: bool, preAborted: bool, es: seq<Event>)
    requires Legal(Init(window, started, preAborted), es)
    requires var t := Run(Init(window, started, preAborted), es); t.sig.aborted && t.v.pump.Awaiting?
    ensures var t := Run(Init(window, started, preAborted), es);
      && Enabled(t, ResumePump)
      && (Step(t, ResumePump).v.pump.Ended?
          || (t.v.pump.wake.Got? && Step(t, ResumePump).v.pump.AtYield?
              && Step(Step(t, ResumePump), Pull).v.pump.Ended?))
  {
    RunPreserves(Init(window, started, preAborted), es);
    var t := Run(Init(window, started, preAborted), es);
    if t.v.pump.wake.Got? {
      match t.src.settled[t.v.pump.read] { case Failed => case Done => case Item(_) => }
    }
  }

  /** The consumer sees an error only if the read it was waiting for failed, right after the items it was handed. */
  lemma ErrorIsTheSources(window: nat, started: bool, preAborted: bool, es: seq<Event>)
    requires Legal(Init(window, started, preAborted), es)
    ensures var t := Run(Init(window, started, preAborted), es);
      t.v.pump == Ended(true) ==> t.src.handed < |t.src.settled| && t.src.settled[t.src.handed].Failed?
  {
    RunPreserves(Init(window, started, preAborted), es);
  }

  /** The consumer is handed items of the source only, all of them, in order. */
  lemma HandedAreItems(window: nat, started: bool, preAborted: bool, es: seq<Event>)
    requires Legal(Init(window, started, preAborted), es)
    ensures var t := Run(Init(window, started, preAborted), es);
      && t.src.handed <= |t.src.settled|
      && forall k :: 0 <= k < t.src.handed ==> t.src.settled[k].Item?
  {
    RunPreserves(Init(window, started, preAborted), es);
  }

  /** A request for an item starts the next read, unless the signal is aborted: then the iteration ends cleanly. */
  lemma PullReads(s: State)
    requires Inv(s) && Enabled(s, Pull)
    ensures var t := Step(s, Pull);
      && (!s.sig.aborted ==>
            && t.v.pump == Awaiting(s.src.handed, Open) && s.src.handed == |s.src.settled|
            && t.src.issued == s.src.issued + 1 && t.src.handed == s.src.handed && t.fx == s.fx)
      && (s.sig.aborted ==> t.v.pump == Ended(false) && t.src.pumpReads == s.src.pumpReads)
  {}

  /** A consumer that stops iterating ends the pump cleanly; one that had begun closes a source no harvest reads. */
  lemma ReturnEnds(s: State)
    requires Inv(s) && Enabled(s, Return)
    ensures var t := Step(s, Return);
      && t.v.pump == Ended(false) && t.src == s.src && t.v.resolved == s.v.resolved
      && (s.v.pump.AtYield? ==> !t.sig.listening && t.fx.closes == (if s.v.detached then s.fx.closes else 1))
      && (s.v.pump.Idle? ==> t.sig == s.sig && t.fx == s.fx)
  {
    StepPreserves(s, Return);
  }

  /**
   What the pump makes of a read that reaches it: the end of the source ends the iteration cleanly, an item
   is handed over, and with it the first id so far is known.
   */
  lemma PumpTakes(s: State)
    requires Inv(s) && Enabled(s, ResumePump) && s.v.pump.wake.Got?
    ensures var t := Step(s, ResumePump); var o := s.src.settled[s.src.handed];
      && s.v.pump.read == s.src.handed
      && (t.v.pump == Ended(false) <==> o.Done?) && (t.v.pump == Ended(true) <==> o.Failed?)
      && (t.v.pump == AtYield <==> o.Item?)
      && t.src.handed == s.src.handed + (if o.Item? then 1 else 0)
      && t.src.issued == s.src.issued && t.src.settled == s.src.settled
      && (o.Item? && HandedId(t).Some? ==> t.v.taskId == HandedId(t))
      && (o.Item? && !s.v.detached ==> t.v.taskId == HandedId(t))
      && t.fx.cancels == s.fx.cancels && t.fx.skips == s.fx.skips
  {
    StepPreserves(s, ResumePump);
    match s.src.settled[s.v.pump.read] {
      case Failed =>
      case Done =>
      case Item(_) => ItemTaken(s);
    }
  }

  lemma ItemTaken(s: State)
    requires Inv(s) && Enabled(s, ResumePump) && s.v.pump.wake.Got? && s.src.settled[s.v.pump.read].Item?
    ensures var t := Step(s, ResumePump);
      && (HandedId(t).Some? ==> t.v.taskId == HandedId(t)) && (!s.v.detached ==> t.v.taskId == HandedId(t))
  {
    StepPreserves(s, ResumePump);
    var t := Step(s, ResumePump);
    var settled, n := t.src.settled, t.src.handed;
    if t.v.taskId.None? {
      NoFirstId(settled[..n]);
    } else if HandedId(t).Some? {
      FirstIdOfPrefix(settled, n);
    }
  }

  lemma {:induction false} FirstIdOfPrefix(settled: seq<Outcome>, n: nat)
    requires n <= |settled| && FirstId(settled[..n]).Some?
    ensures FirstId(settled) == FirstId(settled[..n])
    decreases |settled| - n
  {
    if n < |settled| {
      assert settled[..n + 1] == settled[..n] + [settled[n]];
      FirstIdAppend(settled[..n], settled[n]);
      FirstIdOfPrefix(settled, n + 1);
    } else {
      assert settled[..n] == settled;
    }
  }

  /** And a failure that reaches the pump before an abort does is always shown. */
  lemma FailureIsShown(s: State)
    requires Inv(s) && Enabled(s, ResumePump) && s.v.pump.wake.Got?
    ensures Step(s, ResumePump).v.pump == Ended(true) <==> s.src.settled[s.v.pump.read].Failed?
  {
    match s.src.settled[s.v.pump.read] { case Failed => case Done => case Item(_) => }
  }

  /** The pump has ended cleanly, or is about to. */
  predicate Clean(s: State) {
    s.v.pump == Ended(false) || (s.v.pump.Awaiting? && s.v.pump.wake.Woken?)
  }

  lemma StepStaysClean(s: State, e: Event)
    requires Inv(s) && Enabled(s, e) && Clean(s)
    ensures Clean(Step(s, e)) && Step(s, e).src.handed == s.src.handed
  {
    if e.ResumeHarvest? { HarvestKeepsSource(s); }
  }

  lemma HarvestKeepsSource(s: State)
    requires Enabled(s, ResumeHarvest)
    ensures var t := Step(s, ResumeHarvest);
      t.src.settled == s.src.settled && t.src.handed == s.src.handed && t.v.pump == s.v.pump
  {
    match s.src.settled[s.v.harvest.read] { case Failed => case Done => case Item(_) => }
  }

  lemma {:induction false} StaysClean(s: State, es: seq<Event>)
    requires Inv(s) && Legal(s, es) && Clean(s)
    ensures Clean(Run(s, es)) && Run(s, es).src.handed == s.src.handed
    decreases |es|
  {
    if es != [] {
      StepPreserves(s, es[0]);
      StepStaysClean(s, es[0]);
      StaysClean(Step(s, es[0]), es[1..]);
    }
  }

  /**
   An abort over a pending read, one that has settled included so long as its value has not reached the
   pump, ends the consumer's iteration cleanly: it sees no error and no further item.
   */
  lemma AbortEndsCleanly(window: nat, started: bool, before: seq<Event>, after: seq<Event>)
    requires Legal(Init(window, started, false), before + [Abort] + after)
    requires Legal(Init(window, started, false), before)
    requires var s := Run(Init(window, started, false), before); s.v.pump.Awaiting? && s.v.pump.wake.Open?
    ensures var s := Run(Init(window, started, false), before);
      var t := Run(Init(window, started, false), before + [Abort] + after);
      Clean(t) && t.src.handed == s.src.handed
  {
    var init := Init(window, started, false);
    AbortThen(window, started, before, after);
    RunSplits(init, before + [Abort], after);
    RunSplits(init, before, [Abort]);
    var s := Run(init, before);
    assert Run(s, [Abort]) == Step(s, Abort);
    StepPreserves(s, Abort);
    StaysClean(Step(s, Abort), after);
  }

  /** What no later step takes back. */
  predicate Extends(s: State, t: State) {
    && t.clock.window == s.clock.window && t.sig.preAborted == s.sig.preAborted && s.clock.now <= t.clock.now
    && (s.sig.aborted ==> t.sig.aborted && t.sig.abortedAt == s.sig.abortedAt)
    && (s.v.resolved ==> t.v.resolved && t.fx.cancels == s.fx.cancels && t.fx.skips == s.fx.skips)
    && (s.v.detached ==> t.v.detached && t.clock.harvestEnds == s.clock.harvestEnds)
    && (s.v.upstreamLive ==> t.v.upstreamLive)
  }

  lemma StepExtends(s: State, e: Event)
    requires Inv(s) && Enabled(s, e)
    ensures Extends(s, Step(s, e))
  {
    match e {
      case ResumePump =>
        if s.v.pump.wake.Got? {
          match s.src.settled[s.v.pump.read] { case Failed => case Done => case Item(_) => }
        }
      case ResumeHarvest =>
        match s.src.settled[s.v.harvest.read] { case Failed => case Done => case Item(id) => }
      case _ =>
    }
  }

  lemma {:induction false} RunExtends(s: State, es: seq<Event>)
    requires Inv(s) && Legal(s, es)
    ensures Inv(Run(s, es)) && Extends(s, Run(s, es))
    decreases |es|
  {
    if es != [] {
      var s1 := Step(s, es[0]);
      StepPreserves(s, es[0]);
      StepExtends(s, es[0]);
      RunExtends(s1, es[1..]);
      ExtendsTransitive(s, s1, Run(s1, es[1..]));
    }
  }

  lemma ExtendsTransitive(s: State, t: State, u: State)
    requires Extends(s, t) && Extends(t, u)
    ensures Extends(s, u)
  {}

  /**
   An abort before the consumer is done with a live stream ends, once the window has passed, in exactly
   one cancel or skip; if an item handed over had an id, the cancel with it is immediate.
   */
  lemma AbortedLiveStreamResolves(window: nat, started: bool, before: seq<Event>, after: seq<Event>)
    requires Legal(Init(window, started, false), before + [Abort] + after)
    requires Legal(Init(window, started, false), before)
    requires var s := Run(Init(window, started, false), before); !Finishing(s) && Live(started, s)
    ensures var s := Run(Init(window, started, false), before);
      var t := Run(Init(window, started, false), before + [Abort] + after);
      && (HandedId(s).Some? ==> t.fx.cancels == [HandedId(s).value] && t.fx.skips == [])
      && (s.clock.now + window < t.clock.now ==> |t.fx.cancels| + |t.fx.skips| == 1)
      && (!t.v.resolved ==>
            t.v.detached && t.clock.timer == Some(s.clock.now + window) && t.clock.now <= s.clock.now + window)
  {
    AbortThen(window, started, before, after);
  }

  /** A run with an abort in it: the state the abort finds, the state it leaves, and where that leads. */
  lemma AbortThen(window: nat, started: bool, before: seq<Event>, after: seq<Event>)
    requires Legal(Init(window, started, false), before + [Abort] + after)
    requires Legal(Init(window, started, false), before)
    ensures var s := Run(Init(window, started, false), before);
      var t := Run(Init(window, started, false), before + [Abort] + after);
      && Inv(s) && s.clock.window == window && !s.sig.preAborted && Enabled(s, Abort)
      && Inv(t) && !t.sig.preAborted && Extends(Step(s, Abort), t)
      && (Live(started, s) ==> s.v.upstreamLive)
      && (!Finishing(s) ==> s.sig.listening && s.v.taskId == HandedId(s))
  {
    var init := Init(window, started, false);
    RunSplits(init, before + [Abort], after);
    RunSplits(init, before, [Abort]);
    var s := Run(init, before);
    assert Run(s, [Abort]) == Step(s, Abort);
    RunExtends(init, before);
    StepPreserves(s, Abort);
    RunExtends(Step(s, Abort), after);
    if !Finishing(s) { HandedIdIsKnown(s); }
  }

  /** What the closure knows is what the consumer could have seen. */
  lemma HandedIdIsKnown(s: State)
    requires Inv(s) && !s.sig.aborted && !Finishing(s)
    ensures s.v.taskId == HandedId(s)
  {
    if s.v.taskId.None? {
      NoFirstId(s.src.settled[..s.src.handed]);
    }
  }

  /** The milliseconds an unresolved harvest has left. */
  function Rank(s: State): nat {
    if s.clock.harvestEnds < s.clock.now then 0 else s.clock.harvestEnds - s.clock.now
  }

  /**
   Until it is resolved, no step of a detached stream moves its end away, and every tick brings it
   closer; with nothing left, the timer can fire, and firing resolves it.
   */
  lemma HarvestRankDecreases(s: State, e: Event)
    requires Inv(s) && s.v.detached && !s.v.resolved && Enabled(s, e)
    ensures var t := Step(s, e);
      t.v.resolved || (t.v.detached && Rank(t) <= Rank(s) && (e.Tick? ==> Rank(t) < Rank(s)))
    ensures Rank(s) == 0 ==> Enabled(s, WindowFires) && !Enabled(s, Tick)
    ensures Rank(s) > 0 ==> Enabled(s, Tick)
    ensures Enabled(s, WindowFires) ==> Step(s, WindowFires).fx.skips == [WindowElapsed]
  {
    StepPreserves(s, e);
  }

  /** The run in which the source stays silent and only the clock moves. */
  function Silence(n: nat): (es: seq<Event>)
    ensures |es| == n + 1
  {
    if n == 0 then [WindowFires] else [Tick] + Silence(n - 1)
  }

  /** No unresolved harvest is ever stuck: silence alone leads it to the recorded skip. */
  lemma {:induction false} SilentHarvestIsSkipped(s: State)
    requires Inv(s) && s.v.detached && !s.v.resolved
    ensures Legal(s, Silence(Rank(s)))
    ensures var t := Run(s, Silence(Rank(s)));
      && t.fx.skips == [WindowElapsed] && t.fx.cancels == []
      && t.v == s.v.(resolved := true) && t.src == s.src
    decreases Rank(s)
  {
    if Rank(s) == 0 {
      assert Run(s, [WindowFires]) == Step(s, WindowFires);
    } else {
      StepPreserves(s, Tick);
      SilentHarvestIsSkipped(Step(s, Tick));
      assert Silence(Rank(s))[1..] == Silence(Rank(s) - 1);
    }
  }

  /** Items that can still reach the consumer once the signal is aborted. */
  function OnTheWay(s: State): nat {
    if s.v.pump.Awaiting? && s.v.pump.wake.Got? then 1 else 0
  }

  lemma StepAfterAbort(s: State, e: Event)
    requires Inv(s) && s.sig.aborted && Enabled(s, e)
    ensures var t := Step(s, e);
      && t.src.pumpReads == s.src.pumpReads
      && t.src.handed + OnTheWay(t) <= s.src.handed + OnTheWay(s)
      && (!s.v.upstreamLive ==> !t.v.upstreamLive)
  {
    match e {
      case ResumePump =>
        if s.v.pump.wake.Got? {
          match s.src.settled[s.v.pump.read] { case Failed => case Done => case Item(_) => }
        }
      case ResumeHarvest =>
        match s.src.settled[s.v.harvest.read] { case Failed => case Done => case Item(id) => }
      case _ =>
    }
  }

  /**
   After the abort the pump starts no read and hands over at most the one item already on its way.
   If nothing was ever sent upstream, no read is started by anyone and nothing is recorded.
   */
  lemma {:induction false} NothingStartsAfterAbort(s: State, es: seq<Event>)
    requires Inv(s) && s.sig.aborted && Legal(s, es)
    ensures var t := Run(s, es);
      && t.src.pumpReads == s.src.pumpReads
      && t.src.handed <= s.src.handed + OnTheWay(s)
      && (!s.v.upstreamLive ==> t.src.issued == 0 && !t.v.upstreamLive && t.fx.cancels == [] && t.fx.skips == [])
    decreases |es|
  {
    if es != [] {
      var s1 := Step(s, es[0]);
      StepPreserves(s, es[0]);
      StepExtends(s, es[0]);
      StepAfterAbort(s, es[0]);
      NothingStartsAfterAbort(s1, es[1..]);
    }
  }

  /**
   Once the outcome is recorded the source may still be read once: the harvest starts its next read
   before it looks at `resolved`. That happens exactly when it was waiting for an item without an id.
   */
  lemma ReadAfterResolution(s: State, e: Event)
    requires Inv(s) && s.v.resolved && Enabled(s, e)
    ensures Step(s, e).src.issued > s.src.issued
      <==> e.ResumeHarvest? && s.src.settled[s.v.harvest.read] == Item(None)
    ensures Step(s, e).src.issued > s.src.issued ==>
      Step(s, e).v.harvest.Finished? && Step(s, e).src.issued == s.src.issued + 1
  {
    match e {
      case ResumePump =>
        if s.v.pump.wake.Got? {
          match s.src.settled[s.v.pump.read] { case Failed => case Done => case Item(_) => }
        }
      case ResumeHarvest =>
        match s.src.settled[s.v.harvest.read] { case Failed => case Done => case Item(id) => }
      case _ =>
    }
  }

  /** It does happen: the window elapses over a read in flight, which then delivers an item without an id. */
  lemma ReadAfterWindow(s: State)
    requires Inv(s) && s.v.detached && !s.v.resolved && Rank(s) == 0 && |s.src.settled| < s.src.issued
    ensures var t := Step(s, WindowFires);
      && t.v.resolved && Enabled(t, Settle(Item(None)))
      && var u := Step(t, Settle(Item(None)));
      && Enabled(u, ResumeHarvest) && Step(u, ResumeHarvest).src.issued == s.src.issued + 1
  {
    StepPreserves(s, WindowFires);
    LateItem(Step(s, WindowFires));
  }

  lemma LateItem(t: State)
    requires Inv(t) && t.v.resolved && t.v.harvest.Reading? && |t.src.settled| < t.src.issued
    ensures Enabled(t, Settle(Item(None)))
    ensures var u := Step(t, Settle(Item(None)));
      Inv(u) && Enabled(u, ResumeHarvest) && StartsUnawaited(u, ResumeHarvest)
      && Step(u, ResumeHarvest).src.issued == t.src.issued + 1
  {
    StepPreserves(t, Settle(Item(None)));
    var u := Step(t, Settle(Item(None)));
    assert u.src.settled[t.v.harvest.read] == Item(None) && u.v.harvest == t.v.harvest;
    assert StepResumeHarvest(u).src.issued == u.src.issued + 1;
  }

  lemma {:induction false} LiveByReading(s: State, es: seq<Event>)
    requires Inv(s) && Legal(s, es) && (s.v.upstreamLive ==> s.src.issued > 0)
    ensures Inv(Run(s, es)) && (Run(s, es).v.upstreamLive ==> Run(s, es).src.issued > 0)
    decreases |es|
  {
    if es != [] {
      StepPreserves(s, es[0]);
      LiveByReading(Step(s, es[0]), es[1..]);
    }
  }

  /** An abort before the first read of an upstream not there from the start: no read, no record, ever. */
  lemma NeverLiveNeverRead(window: nat, before: seq<Event>, after: seq<Event>)
    requires Legal(Init(window, false, false), before + [Abort] + after)
    requires Legal(Init(window, false, false), before) && Run(Init(window, false, false), before).src.issued == 0
    ensures var t := Run(Init(window, false, false), before + [Abort] + after);
      t.src.issued == 0 && t.fx.cancels == [] && t.fx.skips == []
  {
    var init := Init(window, false, false);
    RunSplits(init, before + [Abort], after);
    RunSplits(init, before, [Abort]);
    LiveByReading(init, before);
    var s := Run(init, before);
    assert Run(s, [Abort]) == Step(s, Abort);
    StepPreserves(s, Abort);
    NothingStartsAfterAbort(Step(s, Abort), after);
  }

  // ----- reads that nobody awaits

  /**
   The outstanding read has no handler: the pump attaches one to each read it starts, the harvest to the
   one it stands at. If such a read fails, after the upstream's abort, say, its rejection is unhandled.
   */
  predicate Unawaited(s: State) {
    && |s.src.settled| < s.src.issued
    && s.src.pumpReads <= |s.src.settled| && s.v.harvest != Reading(|s.src.settled|)
  }

  /** The step starts the harvest's next read and then leaves the loop without awaiting it. */
  predicate StartsUnawaited(s: State, e: Event) {
    e.ResumeHarvest? && Enabled(s, e) && s.v.resolved && s.src.settled[s.v.harvest.read] == Item(None)
  }

  /** Only that step makes a read that nobody awaits, and it always does; the read stays so until it settles. */
  lemma UnawaitedIff(s: State, e: Event)
    requires Inv(s) && Enabled(s, e)
    ensures Unawaited(Step(s, e)) <==> StartsUnawaited(s, e) || (Unawaited(s) && !e.Settle?)
    ensures Unawaited(s) ==> s.v.harvest.Finished? && s.v.resolved && Enabled(s, Settle(Failed))
  {
    match e {
      case ResumePump =>
        if s.v.pump.wake.Got? {
          match s.src.settled[s.v.pump.read] { case Failed => case Done => case Item(_) => }
        }
      case ResumeHarvest =>
        match s.src.settled[s.v.harvest.read] { case Failed => case Done => case Item(id) => }
      case _ =>
    }
  }

  lemma {:induction false} LegalPrefix(s: State, es: seq<Event>, k: nat)
    requires Legal(s, es) && k < |es|
    ensures Legal(s, es[..k]) && Enabled(Run(s, es[..k]), es[k])
    decreases |es|
  {
    if k > 0 {
      LegalPrefix(Step(s, es[0]), es[1..], k - 1);
      assert es[..k][1..] == es[1..][..k - 1];
    }
  }

  /** In every run a read that nobody awaits goes back to that very step. */
  lemma {:induction false} UnawaitedWasStarted(s: State, es: seq<Event>) returns (k: nat)
    requires Inv(s) && Legal(s, es) && !Unawaited(s) && Unawaited(Run(s, es))
    ensures k < |es| && Legal(s, es[..k]) && StartsUnawaited(Run(s, es[..k]), es[k])
    decreases |es|
  {
    var t := Step(s, es[0]);
    StepPreserves(s, es[0]);
    UnawaitedIff(s, es[0]);
    if Unawaited(t) {
      k := 0;
    } else {
      k := UnawaitedWasStarted(t, es[1..]);
      assert es[..k + 1][1..] == es[1..][..k];
      k := k + 1;
    }
  }

  /**
   From the start, with any window: one read, an abort, silence until the window has elapsed, then an item
   without an id. A read that nobody awaits is left outstanding.
   */
  lemma UnawaitedReadHappens(window: nat, started: bool)
    ensures var es := [Pull, Abort] + Silence(window) + [Settle(Item(None)), ResumeHarvest];
      && Legal(Init(window, started, false), es)
      && Unawaited(Run(Init(window, started, false), es))
      && Run(Init(window, started, false), es).fx.skips == [WindowElapsed]
  {
    var init := Init(window, started, false);
    var s := PulledAndAborted(window, started);
    SilentHarvestIsSkipped(s);
    RunExtends(s, Silence(window));
    var t := Run(s, Silence(window));
    var last := [Settle(Item(None)), ResumeHarvest];
    LateItem(t);
    var u := Step(t, Settle(Item(None)));
    UnawaitedIff(u, ResumeHarvest);
    assert last[1..] == [ResumeHarvest] && [ResumeHarvest][1..] == [];
    assert Legal(u, [ResumeHarvest]) && Run(u, [ResumeHarvest]) == Step(u, ResumeHarvest);
    assert Legal(t, last) && Run(t, last) == Step(u, ResumeHarvest);
    RunSplits(init, [Pull, Abort], Silence(window));
    RunSplits(init, [Pull, Abort] + Silence(window), last);
  }

  lemma PulledAndAborted(window: nat, started: bool) returns (s: State)
    ensures Legal(Init(window, started, false), [Pull, Abort])
    ensures s == Run(Init(window, started, false), [Pull, Abort]) && Inv(s)
    ensures s.v.detached && !s.v.resolved && Rank(s) == window
    ensures s.v.harvest == Reading(0) && s.src.issued == 1 && s.src.settled == []
  {
    var init := Init(window, started, false);
    var s1 := Step(init, Pull);
    s := Step(s1, Abort);
    assert [Pull, Abort][1..] == [Abort] && [Abort][1..] == [];
    assert Legal(s1, [Abort]) && Run(s1, [Abort]) == s;
    StepPreserves(init, Pull);
    StepPreserves(s1, Abort);
  }

  /**
   A signal that was already aborted when the iterator was built never reaches the listener: the
   abort is acted on if and only if the consumer asks for an item.
   */
  lemma {:induction false} EarlierAbortNeedsPull(window: nat, started: bool, es: seq<Event>)
    requires Legal(Init(window, started, true), es)
    ensures var t := Run(Init(window, started, true), es); t.v.resolved || t.v.detached <==> Pull in es
  {
    EarlierAbortNeedsPullFrom(Init(window, started, true), es);
  }

  lemma {:induction false} EarlierAbortNeedsPullFrom(s: State, es: seq<Event>)
    requires Inv(s) && s.sig.preAborted && Legal(s, es)
    requires !s.v.resolved && !s.v.detached && s.src.issued == 0
    ensures var t := Run(s, es); t.v.resolved || t.v.detached <==> Pull in es
    decreases |es|
  {
    if es != [] {
      StepPreserves(s, es[0]);
      if es[0] == Pull {
        RunExtends(Step(s, Pull), es[1..]);
      } else {
        EarlierAbortNeedsPullFrom(Step(s, es[0]), es[1..]);
      }
    }
  }

  // ----- the program

  /**
   The closure of `withUpstreamCancel` with the world around it. Every method runs from one await
   to the next; the pump, the listener, the harvest and the timer are the interleaved callers.
   */
  class CancellableStream {
    // the closure's variables; `pump` and `harvest` say at which await each of them is
    var taskId: Option<TaskId>
    var resolved: bool
    var detached: bool
    var upstreamLive: bool
    var pending: Option<nat>
    var pump: Pump
    var harvest: Harvest
    // the caller's signal, the clock, the source and the calls made to the outside
    var sig: Signal
    var clock: Clock
    var src: Source
    var fx: Effects

    ghost function Now(): State
      reads this
    {
      State(sig, Vars(taskId, resolved, detached, upstreamLive, pending, pump, harvest), clock, src, fx)
    }

    constructor (window: nat, upstreamStarted: bool, preAborted: bool)
      ensures Now() == Init(window, upstreamStarted, preAborted)
    {
      taskId, resolved, detached, upstreamLive := None, false, false, upstreamStarted;
      pending, pump, harvest := None, Idle, NotStarted;
      sig := Signal(preAborted, preAborted, 0, true);
      clock := Clock(window, 0, None, 0);
      src := Source(0, [], 0, 0);
      fx := Effects([], [], 0, 0);
    }

    method SendCancel()
      modifies this
      ensures Now() == Cancelled(old(Now()))
    {
      if resolved || taskId.None? { return; }
      resolved := true;
      fx := fx.Cancel(taskId.value);
    }

    method Skip(reason: SkipReason)
      modifies this
      ensures Now() == Skipped(old(Now()), reason)
    {
      if resolved { return; }
      resolved := true;
      fx := fx.Skip(reason);
    }

    method NextRead() returns (read: nat)
      modifies this`src
      ensures read == old(src.issued) && src == old(src).(issued := read + 1)
    {
      read := src.issued;
      src := src.(issued := read + 1);
    }

    method CloseSource()
      modifies this`fx
      ensures Now() == Closed(old(Now()))
    {
      fx := fx.(closes := fx.closes + 1);
    }

    method BeginHarvest(inFlight: Option<nat>)
      requires inFlight == pending
      modifies this
      ensures Now() == Detached(old(Now()))
    {
      detached := true;
      var ends := clock.now + clock.window;
      clock := clock.(timer := Some(ends), harvestEnds := ends);
      var next: nat;
      if inFlight.Some? { next := inFlight.value; } else { next := NextRead(); }
      harvest := Reading(next);
    }

    method OnCallerAbort()
      modifies this
      ensures Now() == CallerAborted(old(Now()))
    {
      if resolved || detached { return; }
      if taskId.Some? {
        SendCancel();
        return;
      }
      if !upstreamLive {
        resolved := true;
        fx := fx.(teardowns := fx.teardowns + 1);
        return;
      }
      BeginHarvest(pending);
    }

    /** The caller's signal fires; the listener, if still registered, runs at once. */
    method FireAbort()
      requires Enabled(Now(), Abort)
      modifies this
      ensures Now() == Step(old(Now()), Abort)
    {
      var heard := sig.listening;
      sig := sig.(aborted := true, abortedAt := clock.now, listening := false);
      if heard {
        if pump.Awaiting? && pump.wake.Open? {
          pump := Awaiting(pump.read, Woken);
        }
        OnCallerAbort();
      }
    }

    method LeavePump(failed: bool)
      modifies this
      ensures Now() == Left(old(Now()), failed)
    {
      sig := sig.(listening := false);
      pump := Ended(failed);
      if !detached { CloseSource(); }
    }

    /** The top of the pump's loop, reached from the consumer's request for an item. */
    method PullItem()
      requires Enabled(Now(), Pull)
      modifies this
      ensures Now() == Step(old(Now()), Pull)
    {
      if sig.aborted {
        OnCallerAbort();
        pending := None;
        LeavePump(false);
        return;
      }
      upstreamLive := true;
      var read := NextRead();
      src := src.(pumpReads := src.pumpReads + 1);
      pending := Some(read);
      pump := Awaiting(read, Open);
    }

    method ReturnEarly()
      requires Enabled(Now(), Return)
      modifies this
      ensures Now() == Step(old(Now()), Return)
    {
      if pump.Idle? { pump := Ended(false); } else { LeavePump(false); }
    }

    /** The pump after its await. */
    method ContinuePump()
      requires Enabled(Now(), ResumePump)
      modifies this
      ensures Now() == Step(old(Now()), ResumePump)
    {
      if pump.wake.Woken? {
        OnCallerAbort();
        pending := None;
        LeavePump(false);
        return;
      }
      match src.settled[pump.read] {
        case Failed => LeavePump(true);
        case Done =>
          pending := None;
          LeavePump(false);
        case Item(id) =>
          pending := None;
          if taskId.None? { taskId := id; }
          src := src.(handed := src.handed + 1);
          pump := AtYield;
      }
    }

    method EndHarvest(failed: bool)
      modifies this
      ensures Now() == HarvestOver(old(Now()), failed)
    {
      clock := clock.(timer := None);
      harvest := Finished;
      if taskId.Some? { SendCancel(); } else { Skip(if failed then ReadFailed else StreamEnded); }
      CloseSource();
    }

    /** The harvest after its await, up to its next one or to its end. */
    method ContinueHarvest()
      requires Enabled(Now(), ResumeHarvest)
      modifies this
      ensures Now() == Step(old(Now()), ResumeHarvest)
    {
      match src.settled[harvest.read] {
        case Failed => EndHarvest(true);
        case Done => EndHarvest(false);
        case Item(Some(id)) =>
          taskId := Some(id);
          EndHarvest(false);
        case Item(None) =>
          var next := NextRead();
          harvest := Reading(next);
          if resolved { EndHarvest(false); }
      }
    }

    method FireTimer()
      requires Enabled(Now(), WindowFires)
      modifies this
      ensures Now() == Step(old(Now()), WindowFires)
    {
      clock := clock.(timer := None);
      Skip(WindowElapsed);
    }
  }
}
