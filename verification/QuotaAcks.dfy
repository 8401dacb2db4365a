/**
 The table of quota receipts waiting for their acknowledgement on the host-status stream: bounded,
 one entry per receipt id, each with its own timeout and abort controller.
 */
module QuotaAcks {
  import opened Options

  type ReceiptId = string

  const CAPACITY := 4
  const TIMEOUT := 10_000

  /** Where the promise chain of an entry is: the consumer, the acknowledgement, its `finally`, or past it. */
  datatype Phase = Consuming | Acknowledging | Settled | Finished

  datatype Entry = Entry(id: ReceiptId, since: nat, phase: Phase, aborted: bool, timer: Option<nat>, acks: nat)

  /** Entries are numbered in the order they are made; the table maps a receipt id to its entry. */
  datatype State = State(
    now: nat, signalled: bool, ended: bool, table: map<ReceiptId, nat>, entries: seq<Entry>, untracked: nat)

  datatype Event =
    | Tick
    | Warning(id: Option<ReceiptId>, throws: bool)   // a warning frame; its consumer may throw at once
    | ConsumerSettles(i: nat, ok: bool)
    | AckSettles(i: nat)
    | FinallyRuns(i: nat)
    | TimerFires(i: nat)
    | SignalAborts
    | StreamEnds

  function Init(): State {
    State(0, false, false, map[], [], 0)
  }

  // ----- the closures

  /** `finish`: the timer is cleared, and the table forgets this very entry, never a newer one. */
  function Finish(s: State, i: nat): State
    requires i < |s.entries|
  {
    var e := s.entries[i];
    s.(entries := s.entries[i := e.(timer := None)],
       table := if e.id in s.table && s.table[e.id] == i then s.table - {e.id} else s.table)
  }

  function Cancel(s: State, i: nat): State
    requires i < |s.entries|
  {
    Finish(s.(entries := s.entries[i := s.entries[i].(aborted := true)]), i)
  }

  predicate Tracked(s: State, i: nat) {
    i < |s.entries| && s.entries[i].id in s.table && s.table[s.entries[i].id] == i
  }

  /** `stopQuotaAcks`: every entry of the table is cancelled. */
  function CancelAll(s: State): State {
    s.(table := map[],
       entries := seq(|s.entries|, i requires 0 <= i < |s.entries| =>
         if Tracked(s, i) then s.entries[i].(aborted := true, timer := None) else s.entries[i]))
  }

  function Added(s: State, id: ReceiptId): State {
    s.(table := s.table[id := |s.entries|],
       entries := s.entries + [Entry(id, s.now, Consuming, false, Some(s.now + TIMEOUT), 0)])
  }

  function Consume(s: State, id: Option<ReceiptId>, throws: bool): State {
    if s.signalled then s
    else if id.Some? && id.value in s.table then s
    else if id.None? || |s.table| >= CAPACITY then s.(untracked := s.untracked + 1)
    else
      var s1 := Added(s, id.value);
      if throws then Finish(WithPhase(s1, |s.entries|, Finished), |s.entries|) else s1
  }

  function WithPhase(s: State, i: nat, phase: Phase): State
    requires i < |s.entries|
  {
    s.(entries := s.entries[i := s.entries[i].(phase := phase)])
  }

  // ----- the steps

  predicate Enabled(s: State, e: Event) {
    match e
    // an armed timer fires on time
    case Tick => forall i :: 0 <= i < |s.entries| && s.entries[i].timer.Some? ==> s.now < s.entries[i].timer.value
    case Warning(_, _) => !s.ended
    case ConsumerSettles(i, _) => i < |s.entries| && s.entries[i].phase.Consuming?
    case AckSettles(i) => i < |s.entries| && s.entries[i].phase.Acknowledging?
    case FinallyRuns(i) => i < |s.entries| && s.entries[i].phase.Settled?
    case TimerFires(i) => i < |s.entries| && s.entries[i].timer.Some? && s.entries[i].timer.value <= s.now
    case SignalAborts => !s.signalled
    case StreamEnds => !s.ended
  }

  function Step(s: State, e: Event): State
    requires Enabled(s, e)
  {
    match e
    case Tick => s.(now := s.now + 1)
    case Warning(id, throws) => Consume(s, id, throws)
    case ConsumerSettles(i, ok) =>
      if ok && !s.entries[i].aborted then
        s.(entries := s.entries[i := s.entries[i].(phase := Acknowledging, acks := s.entries[i].acks + 1)])
      else WithPhase(s, i, Settled)
    case AckSettles(i) => WithPhase(s, i, Settled)
    case FinallyRuns(i) => Finish(WithPhase(s, i, Finished), i)
    case TimerFires(i) => Cancel(s, i)
    case SignalAborts => if s.ended then s.(signalled := true) else CancelAll(s.(signalled := true))
    case StreamEnds => CancelAll(s.(ended := true))
  }

  predicate Legal(s: State, es: seq<Event>)
    decreases |es|
  {
    es == [] || (Enabled(s, es[0]) && Legal(Step(s, es[0]), es[1..]))
  }

  function Run(s: State, es: seq<Event>): State
    requires Legal(s, es)
    decreases |es|
  {
    if es == [] then s else Run(Step(s, es[0]), es[1..])
  }

  // ----- the inductive invariant

  predicate TableShape(s: State) {
    && |s.table| <= CAPACITY
    && (forall id :: id in s.table ==> s.table[id] < |s.entries| && s.entries[s.table[id]].id == id)
  }

  predicate TableInv(s: State) {
    TableShape(s) && (s.signalled || s.ended ==> s.table == map[])
  }

  predicate EntryCore(s: State, i: nat)
    requires i < |s.entries|
  {
    var e := s.entries[i];
    && e.since <= s.now && e.acks <= 1
    && (e.aborted ==> s.signalled || s.ended || e.since + TIMEOUT <= s.now)
    && (e.phase.Consuming? ==> e.acks == 0)
    && (e.phase.Acknowledging? ==> e.acks == 1)
  }

  /** In the table exactly while neither aborted nor finished, and its timer armed exactly as long. */
  predicate EntryInv(s: State, i: nat)
    requires i < |s.entries|
  {
    var e := s.entries[i];
    && EntryCore(s, i)
    && (Tracked(s, i) <==> !e.aborted && !e.phase.Finished?)
    && (e.timer.Some? <==> Tracked(s, i))
    && (e.timer.Some? ==> e.timer.value == e.since + TIMEOUT && s.now <= e.timer.value)
  }

  predicate Inv(s: State) {
    TableInv(s) && forall i :: 0 <= i < |s.entries| ==> EntryInv(s, i)
  }

  lemma FinishTracks(s: State, i: nat)
    requires TableShape(s) && i < |s.entries|
    ensures TableShape(Finish(s, i)) && Finish(s, i).table.Keys <= s.table.Keys && !Tracked(Finish(s, i), i)
    ensures forall j :: 0 <= j < |s.entries| && j != i ==> (Tracked(Finish(s, i), j) <==> Tracked(s, j))
    ensures Finish(s, i).entries == s.entries[i := s.entries[i].(timer := None)]
  {}

  lemma FinishPreserves(s: State, i: nat)
    requires TableInv(s) && i < |s.entries|
    requires forall j :: 0 <= j < |s.entries| && j != i ==> EntryInv(s, j)
    requires EntryCore(s, i) && (s.entries[i].aborted || s.entries[i].phase.Finished?)
    ensures Inv(Finish(s, i))
  {
    FinishTracks(s, i);
    var t := Finish(s, i);
    forall j | 0 <= j < |t.entries| ensures EntryInv(t, j) {
      if j != i { assert EntryInv(s, j); }
    }
  }

  lemma CancelPreserves(s: State, i: nat)
    requires Inv(s) && i < |s.entries| && (s.signalled || s.ended || s.entries[i].since + TIMEOUT <= s.now)
    ensures Inv(Cancel(s, i))
  {
    var t := s.(entries := s.entries[i := s.entries[i].(aborted := true)]);
    assert EntryInv(s, i);
    forall j | 0 <= j < |t.entries| && j != i ensures EntryInv(t, j) { assert EntryInv(s, j); }
    FinishPreserves(t, i);
  }

  lemma PhasePreserves(s: State, i: nat, phase: Phase, acks: nat)
    requires Inv(s) && i < |s.entries| && !phase.Finished? && !s.entries[i].phase.Finished?
    requires acks <= 1 && !phase.Consuming? && (phase.Acknowledging? ==> acks == 1)
    ensures Inv(s.(entries := s.entries[i := s.entries[i].(phase := phase, acks := acks)]))
  {
    var t := s.(entries := s.entries[i := s.entries[i].(phase := phase, acks := acks)]);
    forall j | 0 <= j < |t.entries| ensures EntryInv(t, j) { assert EntryInv(s, j); }
  }

  lemma FinallyPreserves(s: State, i: nat)
    requires Inv(s) && i < |s.entries| && s.entries[i].phase.Settled?
    ensures Inv(Finish(WithPhase(s, i, Finished), i))
  {
    var t := WithPhase(s, i, Finished);
    assert EntryInv(s, i);
    forall j | 0 <= j < |t.entries| && j != i ensures EntryInv(t, j) { assert EntryInv(s, j); }
    FinishPreserves(t, i);
  }

  lemma CancelAllPreserves(s: State)
    requires (s.signalled || s.ended) && forall i :: 0 <= i < |s.entries| ==> EntryInv(s, i)
    ensures Inv(CancelAll(s))
  {
    var t := CancelAll(s);
    forall j | 0 <= j < |t.entries| ensures EntryInv(t, j) { assert EntryInv(s, j); }
  }

  lemma AddedPreserves(s: State, id: ReceiptId)
    requires Inv(s) && !s.signalled && !s.ended && id !in s.table && |s.table| < CAPACITY
    ensures Inv(Added(s, id))
  {
    var t := Added(s, id);
    assert t.table.Keys == s.table.Keys + {id};
    forall j | 0 <= j < |t.entries| ensures EntryInv(t, j) {
      if j < |s.entries| {
        assert EntryInv(s, j) && t.entries[j] == s.entries[j];
      }
    }
  }

  lemma ThrowPreserves(s: State, i: nat)
    requires Inv(s) && i < |s.entries| && s.entries[i].phase.Consuming?
    ensures Inv(Finish(WithPhase(s, i, Finished), i))
  {
    var u := WithPhase(s, i, Finished);
    assert EntryInv(s, i);
    forall j | 0 <= j < |u.entries| && j != i ensures EntryInv(u, j) { assert EntryInv(s, j); }
    FinishPreserves(u, i);
  }

  lemma TickPreserves(s: State)
    requires Inv(s) && Enabled(s, Tick)
    ensures Inv(Step(s, Tick))
  {
    var t := Step(s, Tick);
    forall j | 0 <= j < |t.entries| ensures EntryInv(t, j) { assert EntryInv(s, j); }
  }

  lemma ConsumePreserves(s: State, id: Option<ReceiptId>, throws: bool)
    requires Inv(s) && !s.ended
    ensures Inv(Consume(s, id, throws))
  {
    if id.Some? && id.value !in s.table && !s.signalled && |s.table| < CAPACITY {
      AddedPreserves(s, id.value);
      if throws { ThrowPreserves(Added(s, id.value), |s.entries|); }
    } else {
      var t := Consume(s, id, throws);
      forall j | 0 <= j < |t.entries| ensures EntryInv(t, j) { assert EntryInv(s, j); }
    }
  }

  lemma SettlePreserves(s: State, e: Event)
    requires Inv(s) && Enabled(s, e) && (e.ConsumerSettles? || e.AckSettles?)
    ensures Inv(Step(s, e))
  {
    assert EntryInv(s, e.i);
    if e.ConsumerSettles? && e.ok && !s.entries[e.i].aborted {
      PhasePreserves(s, e.i, Acknowledging, 1);
    } else {
      PhasePreserves(s, e.i, Settled, s.entries[e.i].acks);
    }
  }

  lemma EndPreserves(s: State, e: Event)
    requires Inv(s) && Enabled(s, e) && (e.SignalAborts? || e.StreamEnds?)
    ensures Inv(Step(s, e))
  {
    var t := if e.SignalAborts? then s.(signalled := true) else s.(ended := true);
    forall j | 0 <= j < |t.entries| ensures EntryInv(t, j) { assert EntryInv(s, j); }
    CancelAllPreserves(t);
  }

  lemma StepPreserves(s: State, e: Event)
    requires Inv(s) && Enabled(s, e)
    ensures Inv(Step(s, e))
  {
    match e {
      case Tick => TickPreserves(s);
      case Warning(id, throws) => ConsumePreserves(s, id, throws);
      case ConsumerSettles(_, _) => SettlePreserves(s, e);
      case AckSettles(_) => SettlePreserves(s, e);
      case FinallyRuns(i) => FinallyPreserves(s, i);
      case TimerFires(i) =>
        assert EntryInv(s, i);
        CancelPreserves(s, i);
      case SignalAborts => EndPreserves(s, e);
      case StreamEnds => EndPreserves(s, e);
    }
  }

  // ----- what holds of every run

  lemma {:induction false} RunPreserves(s: State, es: seq<Event>)
    requires Inv(s) && Legal(s, es)
    ensures Inv(Run(s, es))
    decreases |es|
  {
    if es != [] {
      StepPreserves(s, es[0]);
      RunPreserves(Step(s, es[0]), es[1..]);
    }
  }

  /** The receipts still waiting for their acknowledgement. */
  function InFlight(s: State): set<nat> {
    set i | 0 <= i < |s.entries| && !s.entries[i].aborted && !s.entries[i].phase.Finished?
  }

  /**
   At most four receipts are in flight and no two with one id; each has been acknowledged at most once
   and has been waiting no longer than its timeout. After the stream's end or its abort none is left.
   */
  lemma BoundedTable(es: seq<Event>)
    requires Legal(Init(), es)
    ensures var t := Run(Init(), es);
      && |InFlight(t)| <= 4
      && (forall i, j :: i in InFlight(t) && j in InFlight(t) && i != j ==> t.entries[i].id != t.entries[j].id)
      && (forall i :: i in InFlight(t) ==> t.now <= t.entries[i].since + 10_000)
      && (forall i :: 0 <= i < |t.entries| ==> t.entries[i].acks <= 1)
      && (t.ended || t.signalled ==> t.table == map[] && InFlight(t) == {})
  {
    RunPreserves(Init(), es);
    var t := Run(Init(), es);
    forall i | 0 <= i < |t.entries| ensures i in InFlight(t) <==> Tracked(t, i) { assert EntryInv(t, i); }
    InFlightIsTracked(t);
    forall i | 0 <= i < |t.entries| ensures t.entries[i].acks <= 1 { assert EntryInv(t, i); }
    forall i | i in InFlight(t) ensures t.now <= t.entries[i].since + 10_000 { assert EntryInv(t, i); }
  }

  /** No entry is aborted but for its timeout, the stream's end or the signal. */
  lemma AbortedForCause(es: seq<Event>, i: nat)
    requires Legal(Init(), es) && i < |Run(Init(), es).entries| && Run(Init(), es).entries[i].aborted
    ensures var t := Run(Init(), es); t.signalled || t.ended || t.entries[i].since + 10_000 <= t.now
  {
    RunPreserves(Init(), es);
    assert EntryInv(Run(Init(), es), i);
  }

  lemma {:induction false} SameSize(keys: set<ReceiptId>, table: map<ReceiptId, nat>, ids: set<nat>)
    requires keys <= table.Keys && ids == (set id | id in keys :: table[id])
    requires forall a, b :: a in keys && b in keys && a != b ==> table[a] != table[b]
    ensures |ids| == |keys|
  {
    if keys != {} {
      var id :| id in keys;
      SameSize(keys - {id}, table, ids - {table[id]});
    }
  }

  lemma InFlightIsTracked(s: State)
    requires Inv(s)
    ensures InFlight(s) == (set id | id in s.table :: s.table[id]) && |InFlight(s)| == |s.table|
  {
    forall i | 0 <= i < |s.entries| ensures i in InFlight(s) <==> Tracked(s, i) { assert EntryInv(s, i); }
    assert InFlight(s) == (set id | id in s.table :: s.table[id]);
    SameSize(s.table.Keys, s.table, InFlight(s));
  }

  /** A warning is tracked exactly if the signal is quiet, its id is usable and not in flight, and there is room. */
  lemma TrackedIff(s: State, id: Option<ReceiptId>)
    requires Inv(s) && !s.ended
    ensures var t := Step(s, Warning(id, false));
      var fits := !s.signalled && id.Some? && id.value !in s.table && |InFlight(s)| < 4;
      && InFlight(t) == InFlight(s) + (if fits then {|s.entries|} else {})
      && |t.entries| == |s.entries| + (if fits then 1 else 0)
      && (fits ==> t.entries[|s.entries|].id == id.value)
  {
    InFlightIsTracked(s);
    var t := Step(s, Warning(id, false));
    if !s.signalled && id.Some? && id.value !in s.table && |s.table| < CAPACITY {
      assert t == Added(s, id.value);
      OneMoreInFlight(s, id.value);
    } else {
      SameInFlight(s, t);
    }
  }

  lemma SameInFlight(s: State, t: State)
    requires t.entries == s.entries
    ensures InFlight(t) == InFlight(s)
  {}

  /** How often the consumer has been called. */
  function Delivered(s: State): nat {
    |s.entries| + s.untracked
  }

  /** Every warning reaches its consumer, once, but one after the signal or one whose receipt is in flight. */
  lemma DeliveredIff(s: State, id: Option<ReceiptId>, throws: bool)
    requires Inv(s) && !s.ended
    ensures var t := Step(s, Warning(id, throws));
      var coalesced := exists i :: i in InFlight(s) && id == Some(s.entries[i].id);
      Delivered(t) == Delivered(s) + (if s.signalled || coalesced then 0 else 1)
  {
    if id.Some? {
      if id.value in s.table {
        assert EntryInv(s, s.table[id.value]);
        assert s.table[id.value] in InFlight(s);
      }
      forall i | i in InFlight(s) && s.entries[i].id == id.value ensures id.value in s.table {
        assert EntryInv(s, i);
      }
    }
  }

  lemma OneMoreInFlight(s: State, id: ReceiptId)
    ensures InFlight(Added(s, id)) == InFlight(s) + {|s.entries|}
  {
    var t := Added(s, id);
    assert forall i :: 0 <= i < |s.entries| ==> t.entries[i] == s.entries[i];
  }

  /** A consumer that succeeds is acknowledged exactly if its entry is still in flight; one that fails never is. */
  lemma AcknowledgedIff(s: State, i: nat, ok: bool)
    requires Inv(s) && Enabled(s, ConsumerSettles(i, ok))
    ensures Step(s, ConsumerSettles(i, ok)).entries[i].acks == (if ok && i in InFlight(s) then 1 else 0)
  {
    assert EntryInv(s, i);
  }

  /** The end of an entry, even a late one after its timeout, never drops another entry's place. */
  lemma LateFinishSparesOthers(s: State, i: nat, e: Event)
    requires Inv(s) && Enabled(s, e) && (e == FinallyRuns(i) || e == TimerFires(i))
    ensures forall id :: id in s.table && s.table[id] != i ==>
      id in Step(s, e).table && Step(s, e).table[id] == s.table[id]
    ensures i !in Step(s, e).table.Values
    ensures s.entries[i].aborted && e.FinallyRuns? ==> Step(s, e).table == s.table
  {
    assert EntryInv(s, i);
    var s1 := if e.FinallyRuns? then WithPhase(s, i, Finished)
              else s.(entries := s.entries[i := s.entries[i].(aborted := true)]);
    FinishTracks(s1, i);
    forall id | id in Step(s, e).table ensures Step(s, e).table[id] != i {}
  }

  lemma StepKeepsAborted(s: State, e: Event, i: nat)
    requires Inv(s) && Enabled(s, e) && i < |s.entries| && s.entries[i].aborted
    ensures var t := Step(s, e);
      i < |t.entries| && t.entries[i].aborted && t.entries[i].acks == s.entries[i].acks
  {
    if e.SignalAborts? || e.StreamEnds? {
      EndKeepsAborted(s, i);
    }
  }

  lemma EndKeepsAborted(s: State, i: nat)
    requires i < |s.entries| && s.entries[i].aborted
    ensures var t := CancelAll(s); t.entries[i].aborted && t.entries[i].acks == s.entries[i].acks
  {}

  /** An entry whose timeout has fired, or that the end of the stream cancelled, starts no acknowledgement. */
  lemma {:induction false} NoAckAfterAbort(s: State, es: seq<Event>, i: nat)
    requires Inv(s) && Legal(s, es) && i < |s.entries| && s.entries[i].aborted
    ensures var t := Run(s, es); i < |t.entries| && t.entries[i].aborted && t.entries[i].acks == s.entries[i].acks
    decreases |es|
  {
    if es != [] {
      StepPreserves(s, es[0]);
      StepKeepsAborted(s, es[0], i);
      NoAckAfterAbort(Step(s, es[0]), es[1..], i);
    }
  }

  /** The end of the stream leaves no entry that could still start one. */
  lemma EndAbortsEverything(s: State)
    requires Inv(s) && !s.ended
    ensures Step(s, StreamEnds).ended && Step(s, StreamEnds).table == map[]
    ensures forall i :: 0 <= i < |s.entries| ==>
      Step(s, StreamEnds).entries[i].aborted || Step(s, StreamEnds).entries[i].phase.Finished?
  {
    forall i | 0 <= i < |s.entries|
      ensures Step(s, StreamEnds).entries[i].aborted || Step(s, StreamEnds).entries[i].phase.Finished?
    {
      assert EntryInv(s, i);
    }
  }

  lemma StepKeepsSettled(s: State, e: Event, i: nat)
    requires Inv(s) && Enabled(s, e) && i < |s.entries| && (s.entries[i].aborted || s.entries[i].phase.Finished?)
    ensures var t := Step(s, e);
      && i < |t.entries| && (t.entries[i].aborted || t.entries[i].phase.Finished?)
      && t.entries[i].acks == s.entries[i].acks
  {
    if s.entries[i].aborted {
      StepKeepsAborted(s, e, i);
    } else {
      StepKeepsFinished(s, e, i);
    }
  }

  lemma StepKeepsFinished(s: State, e: Event, i: nat)
    requires Inv(s) && Enabled(s, e) && i < |s.entries| && s.entries[i].phase.Finished?
    ensures var t := Step(s, e);
      i < |t.entries| && t.entries[i].phase.Finished? && t.entries[i].acks == s.entries[i].acks
  {
    if e.SignalAborts? || e.StreamEnds? {
      EndKeepsPhases(s, i);
    }
  }

  lemma EndKeepsPhases(s: State, i: nat)
    requires i < |s.entries|
    ensures CancelAll(s).entries[i].phase == s.entries[i].phase && CancelAll(s).entries[i].acks == s.entries[i].acks
  {}

  /** Whatever happens later, an entry that is aborted or finished starts no acknowledgement any more. */
  lemma {:induction false} NoAckOnceOver(s: State, es: seq<Event>, i: nat)
    requires Inv(s) && Legal(s, es) && i < |s.entries| && (s.entries[i].aborted || s.entries[i].phase.Finished?)
    ensures var t := Run(s, es); i < |t.entries| && t.entries[i].acks == s.entries[i].acks
    decreases |es|
  {
    if es != [] {
      StepPreserves(s, es[0]);
      StepKeepsSettled(s, es[0], i);
      NoAckOnceOver(Step(s, es[0]), es[1..], i);
    }
  }

  lemma {:induction false} NoEntryAfterEnd(s: State, es: seq<Event>)
    requires Legal(s, es) && (s.ended || s.signalled)
    ensures |Run(s, es).entries| == |s.entries| && (Run(s, es).ended || Run(s, es).signalled)
    decreases |es|
  {
    if es != [] { NoEntryAfterEnd(Step(s, es[0]), es[1..]); }
  }

  predicate IsEnd(e: Event) {
    e.StreamEnds? || e.SignalAborts?
  }

  lemma NoneInFlight(s: State)
    requires Inv(s) && (s.ended || s.signalled)
    ensures InFlight(s) == {}
    ensures forall i :: 0 <= i < |s.entries| ==> s.entries[i].aborted || s.entries[i].phase.Finished?
  {
    forall i | 0 <= i < |s.entries| ensures s.entries[i].aborted || s.entries[i].phase.Finished? {
      assert EntryInv(s, i);
    }
  }

  /**
   From the stream's end or the signal on nothing is in flight, no entry is made and no acknowledgement
   started, whatever consumers and acknowledgements still settle.
   */
  lemma NoAckAfterEnd(s: State, e: Event, after: seq<Event>)
    requires Inv(s) && IsEnd(e) && Enabled(s, e) && Legal(Step(s, e), after)
    ensures var t := Run(Step(s, e), after);
      && InFlight(t) == {} && |t.entries| == |s.entries|
      && forall i :: 0 <= i < |s.entries| ==> t.entries[i].acks == s.entries[i].acks
  {
    var s1 := Step(s, e);
    StepPreserves(s, e);
    NoneInFlight(s1);
    NoEntryAfterEnd(s1, after);
    RunPreserves(s1, after);
    NoneInFlight(Run(s1, after));
    forall i | 0 <= i < |s.entries| ensures Run(s1, after).entries[i].acks == s.entries[i].acks {
      NoAckOnceOver(s1, after, i);
    }
  }

  /** Time is never stuck: the clock can move on, or an entry's timeout is due, and takes it out of flight. */
  lemma TimeNeverStuck(s: State)
    requires Inv(s)
    ensures Enabled(s, Tick) || exists i :: TimerDue(s, i)
  {
    if !Enabled(s, Tick) {
      var i :| 0 <= i < |s.entries| && s.entries[i].timer.Some? && s.entries[i].timer.value <= s.now;
      assert TimerDue(s, i);
    }
  }

  predicate TimerDue(s: State, i: nat) {
    Enabled(s, TimerFires(i))
  }

  lemma TimeoutEndsEntry(s: State, i: nat)
    requires Inv(s) && TimerDue(s, i)
    ensures i in InFlight(s) && InFlight(Step(s, TimerFires(i))) == InFlight(s) - {i}
    ensures s.entries[i].since + 10_000 == s.now
  {
    assert EntryInv(s, i);
    var t := Step(s, TimerFires(i));
    assert forall j :: 0 <= j < |s.entries| && j != i ==> t.entries[j] == s.entries[j];
  }

  // ----- the program

  lemma CancelThenAll(s: State, i: nat)
    requires TableShape(s) && Tracked(s, i)
    ensures CancelAll(Cancel(s, i)) == CancelAll(s)
    ensures TableShape(Cancel(s, i)) && |Cancel(s, i).table| < |s.table|
  {
    var s1 := s.(entries := s.entries[i := s.entries[i].(aborted := true)]);
    var t := Cancel(s, i);
    FinishTracks(s1, i);
    assert t.table.Keys == s.table.Keys - {s.entries[i].id};
    forall j | 0 <= j < |s.entries|
      ensures CancelAll(t).entries[j] == CancelAll(s).entries[j]
    {
      assert j != i ==> (Tracked(t, j) <==> Tracked(s, j)) && t.entries[j] == s.entries[j];
    }
    assert CancelAll(t).entries == CancelAll(s).entries;
  }

  lemma NothingToCancel(s: State)
    requires s.table == map[]
    ensures CancelAll(s) == s
  {
    assert CancelAll(s).entries == s.entries;
  }

  /** The part of `runHostStatusStream` around the receipts. */
  class QuotaAckTable {
    var now: nat
    var signalled: bool
    var ended: bool
    var quotaAcks: map<ReceiptId, nat>
    var entries: seq<Entry>
    var untracked: nat

    ghost function Now(): State
      reads this
    {
      State(now, signalled, ended, quotaAcks, entries, untracked)
    }

    constructor ()
      ensures Now() == Init()
    {
      now, signalled, ended, quotaAcks, entries, untracked := 0, false, false, map[], [], 0;
    }

    method FinishEntry(i: nat)
      requires i < |entries|
      modifies this
      ensures Now() == Finish(old(Now()), i)
    {
      var entry := entries[i];
      entries := entries[i := entry.(timer := None)];
      if entry.id in quotaAcks && quotaAcks[entry.id] == i {
        quotaAcks := quotaAcks - {entry.id};
      }
    }

    method CancelEntry(i: nat)
      requires i < |entries|
      modifies this
      ensures Now() == Cancel(old(Now()), i)
    {
      entries := entries[i := entries[i].(aborted := true)];
      FinishEntry(i);
    }

    method StopQuotaAcks()
      requires TableShape(Now())
      modifies this
      ensures Now() == CancelAll(old(Now()))
    {
      while quotaAcks != map[]
        invariant TableShape(Now()) && CancelAll(Now()) == CancelAll(old(Now()))
        decreases |quotaAcks|
      {
        var id :| id in quotaAcks;
        CancelThenAll(Now(), quotaAcks[id]);
        CancelEntry(quotaAcks[id]);
      }
      NothingToCancel(Now());
    }

    method ConsumeQuotaWarning(receiptId: Option<ReceiptId>, consumerThrows: bool)
      requires Inv(Now()) && !ended
      modifies this
      ensures Now() == Consume(old(Now()), receiptId, consumerThrows)
    {
      if signalled { return; }
      if receiptId.Some? && receiptId.value in quotaAcks { return; }
      if receiptId.None? || |quotaAcks| >= CAPACITY {
        untracked := untracked + 1;
        return;
      }
      var i := |entries|;
      quotaAcks := quotaAcks[receiptId.value := i];
      entries := entries + [Entry(receiptId.value, now, Consuming, false, Some(now + TIMEOUT), 0)];
      assert Now() == Added(old(Now()), receiptId.value);
      if consumerThrows {
        entries := entries[i := entries[i].(phase := Finished)];
        FinishEntry(i);
      }
    }

    /** The consumer's promise settles; only a success of an entry not yet aborted is acknowledged. */
    method OnConsumed(i: nat, ok: bool)
      requires Enabled(Now(), ConsumerSettles(i, ok))
      modifies this
      ensures Now() == Step(old(Now()), ConsumerSettles(i, ok))
    {
      if ok && !entries[i].aborted {
        entries := entries[i := entries[i].(phase := Acknowledging, acks := entries[i].acks + 1)];
      } else {
        entries := entries[i := entries[i].(phase := Settled)];
      }
    }

    method OnFinally(i: nat)
      requires Enabled(Now(), FinallyRuns(i))
      modifies this
      ensures Now() == Step(old(Now()), FinallyRuns(i))
    {
      entries := entries[i := entries[i].(phase := Finished)];
      FinishEntry(i);
    }

    method OnStreamEnd()
      requires Inv(Now()) && !ended
      modifies this
      ensures Now() == Step(old(Now()), StreamEnds)
    {
      ended := true;
      StopQuotaAcks();
    }
  }
}
