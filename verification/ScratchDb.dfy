/**
 Throwaway databases on one shared server: any number of `withScratchDatabase` calls, each waiting for its
 own statements, interleaved in any order. A statement runs on the server before its answer settles, and
 the answer can be lost: then the statement took effect and the call still sees a rejection.
 */
module ScratchDb {
  import opened Options

  type Name = string

  const PREFIX := "manyfold_pgtest_"
  const MAX_IDENTIFIER := 63

  predicate NameChar(c: char) {
    'a' <= c <= 'z' || '0' <= c <= '9' || c == '_'
  }

  predicate NameChars(s: string) {
    forall i :: 0 <= i < |s| ==> NameChar(s[i])
  }

  predicate ScratchName(name: Name) {
    PREFIX <= name && NameChars(name) && |name| <= MAX_IDENTIFIER
  }

  /** The name made from a role, the process id and twelve random hexadecimal digits. */
  function NameOf(role: string, pid: string, hex: string): Name {
    "manyfold_pgtest_" + role + "_" + pid + "_" + hex
  }

  lemma NameCharsAppend(a: string, b: string)
    ensures NameChars(a + b) <==> NameChars(a) && NameChars(b)
  {
    if NameChars(a + b) {
      forall i | 0 <= i < |a| ensures NameChar(a[i]) { assert (a + b)[i] == a[i]; }
      forall i | 0 <= i < |b| ensures NameChar(b[i]) { assert (a + b)[|a| + i] == b[i]; }
    }
  }

  /** A role is accepted exactly if its characters are and it leaves room for the rest of the name. */
  lemma RoleAcceptedIff(role: string, pid: string, hex: string)
    requires NameChars(pid) && NameChars(hex) && |hex| == 12
    ensures ScratchName(NameOf(role, pid, hex)) <==> NameChars(role) && |role| + |pid| <= 33
  {
    NameCharsAppend(PREFIX, role);
    NameCharsAppend(PREFIX + role, "_");
    NameCharsAppend(PREFIX + role + "_", pid);
    NameCharsAppend(PREFIX + role + "_" + pid, "_");
    NameCharsAppend(PREFIX + role + "_" + pid + "_", hex);
    assert |PREFIX| == 16 && NameChars(PREFIX) && NameChars("_");
  }

  /** No accepted name can end its quotes, or be cut short by the server's limit on identifiers. */
  lemma ScratchNameIsQuotable(name: Name)
    requires ScratchName(name)
    ensures '"' !in name && name == name[..if |name| <= 63 then |name| else 63] && "manyfold_pgtest_" <= name
  {}

  /** What `assertManagedTarget` lets through: a scratch name other than the admin connection's own database. */
  predicate Managed(admin: Name, name: Name) {
    ScratchName(name) && name != admin
  }

  datatype Failure =
    | CreateFailed | CreateLogThrew | MigrateFailed | BodyFailed   // the guarded part
    | DropFailed | DropLogThrew
    | EndFailed

  datatype Phase = Creating | Migrating | InBody | Dropping | Closing | Ended

  /** `answered`, `made` and `gone` are what the server did with the call's CREATE and DROP. */
  datatype Call = Call(
    admin: Name, name: Name, phase: Phase, created: bool, errors: seq<Failure>,
    answered: bool, made: bool, gone: bool)

  datatype State = State(databases: set<Name>, calls: seq<Call>)

  datatype Event =
    | Open(admin: Name, name: Name)
    | ServerCreates(i: nat)
    | CreateSettles(i: nat, ok: bool, logs: bool)
    | MigrateSettles(i: nat, ok: bool)
    | BodySettles(i: nat, ok: bool)
    | ServerDrops(i: nat)
    | DropSettles(i: nat, ok: bool, logs: bool)
    | EndSettles(i: nat, ok: bool)

  function Init(databases: set<Name>): State {
    State(databases, [])
  }

  function Opened(admin: Name, name: Name): Call {
    Call(admin, name, Creating, false, [], false, false, false)
  }

  function CallStep(c: Call, e: Event, databases: set<Name>): Call
    requires !e.Open?
  {
    match e
    case ServerCreates(_) => c.(answered := true, made := c.name !in databases)
    case CreateSettles(_, ok, logs) =>
      if !ok then c.(phase := Closing, errors := c.errors + [CreateFailed])
      else if !logs then c.(phase := Dropping, created := true, errors := c.errors + [CreateLogThrew])
      else c.(phase := Migrating, created := true)
    case MigrateSettles(_, ok) =>
      if ok then c.(phase := InBody) else c.(phase := Dropping, errors := c.errors + [MigrateFailed])
    case BodySettles(_, ok) =>
      if ok then c.(phase := Dropping) else c.(phase := Dropping, errors := c.errors + [BodyFailed])
    case ServerDrops(_) => c.(gone := true)
    case DropSettles(_, ok, logs) =>
      if !ok then c.(phase := Closing, errors := c.errors + [DropFailed])
      else if !logs then c.(phase := Closing, errors := c.errors + [DropLogThrew])
      else c.(phase := Closing)
    case EndSettles(_, ok) =>
      if ok then c.(phase := Ended) else c.(phase := Ended, errors := c.errors + [EndFailed])
  }

  predicate CallEnabled(c: Call, e: Event)
    requires !e.Open?
  {
    match e
    case ServerCreates(_) => c.phase.Creating? && !c.answered
    case CreateSettles(_, ok, _) => c.phase.Creating? && (ok ==> c.made)
    case MigrateSettles(_, _) => c.phase.Migrating?
    case BodySettles(_, _) => c.phase.InBody?
    case ServerDrops(_) => c.phase.Dropping? && !c.gone
    case DropSettles(_, ok, _) => c.phase.Dropping? && (ok ==> c.gone)
    case EndSettles(_, _) => c.phase.Closing?
  }

  predicate Enabled(s: State, e: Event) {
    e.Open? || (e.i < |s.calls| && CallEnabled(s.calls[e.i], e))
  }

  function Step(s: State, e: Event): State
    requires Enabled(s, e)
  {
    match e
    case Open(admin, name) =>
      // a refused name throws before anything is connected
      if Managed(admin, name) then s.(calls := s.calls + [Opened(admin, name)]) else s
    case _ =>
      var c := s.calls[e.i];
      State(
        match e
        case ServerCreates(_) => s.databases + {c.name}
        case ServerDrops(_) => s.databases - {c.name}
        case _ => s.databases,
        s.calls[e.i := CallStep(c, e, s.databases)])
  }

  predicate Legal(s: State, es: seq<Event>)
    decreases |es|
  {
    es == [] || (Enabled(s, es[0]) && Legal(Step(s, es[0]), es[1..]))
  }

  function Run(s: State, es: seq<Event>): State
    requires Legal(s, es)
    decreases |es|
  {
    if es == [] then s else Run(Step(s, es[0]), es[1..])
  }

  // ----- the inductive invariant

  /** The call's database is on the server because of this call. */
  predicate Holds(c: Call) {
    c.made && !c.gone
  }

  predicate CallInv(c: Call) {
    && Managed(c.admin, c.name)
    && (c.made ==> c.answered)
    && (c.created ==> c.made)
    && (c.gone ==> c.created && (c.phase.Dropping? || c.phase.Closing? || c.phase.Ended?))
    && (c.phase.Creating? ==> !c.created)
    && (c.phase.Migrating? || c.phase.InBody? || c.phase.Dropping? ==> c.created)
  }

  predicate Apart(calls: seq<Call>) {
    forall i, j :: 0 <= i < j < |calls| && Holds(calls[i]) && Holds(calls[j]) ==> calls[i].name != calls[j].name
  }

  function Held(calls: seq<Call>): set<Name> {
    set i | 0 <= i < |calls| && Holds(calls[i]) :: calls[i].name
  }

  /** Conservation: the server has what it had, and what the calls hold; the two never overlap. */
  predicate Inv(s: State, initial: set<Name>) {
    && (forall i :: 0 <= i < |s.calls| ==> CallInv(s.calls[i]))
    && Apart(s.calls)
    && s.databases == initial + Held(s.calls)
    && initial !! Held(s.calls)
  }

  lemma HeldMember(calls: seq<Call>, i: nat)
    requires i < |calls| && Holds(calls[i])
    ensures calls[i].name in Held(calls)
  {}

  lemma HeldAfter(calls: seq<Call>, i: nat, c: Call)
    requires i < |calls| && Apart(calls) && c.name == calls[i].name
    requires Holds(c) && !Holds(calls[i]) ==> c.name !in Held(calls)
    ensures Apart(calls[i := c])
    ensures Held(calls[i := c]) ==
            if Holds(c) then Held(calls) + {c.name}
            else if Holds(calls[i]) then Held(calls) - {c.name} else Held(calls)
  {
    var next := calls[i := c];
    forall j | 0 <= j < |calls| && Holds(calls[j]) ensures calls[j].name in Held(calls) {}
    forall n | n in Held(calls) && (n != c.name || Holds(c) || !Holds(calls[i])) ensures n in Held(next) {
      var j :| 0 <= j < |calls| && Holds(calls[j]) && calls[j].name == n;
      if j != i {
        assert Holds(next[j]) && next[j].name == n;
      } else if Holds(c) {
        assert Holds(next[i]) && next[i].name == n;
      }
    }
    if Holds(c) {
      assert Holds(next[i]) && next[i].name == c.name;
    }
  }

  lemma OpenPreserves(s: State, admin: Name, name: Name, initial: set<Name>)
    requires Inv(s, initial)
    ensures Inv(Step(s, Open(admin, name)), initial)
  {
    var t := Step(s, Open(admin, name));
    forall n | n in Held(s.calls) ensures n in Held(t.calls) {
      var j :| 0 <= j < |s.calls| && Holds(s.calls[j]) && s.calls[j].name == n;
      assert t.calls[j] == s.calls[j];
    }
    assert Held(t.calls) == Held(s.calls);
  }

  lemma CallInvKept(c: Call, e: Event, databases: set<Name>)
    requires !e.Open? && CallInv(c) && CallEnabled(c, e)
    ensures CallInv(CallStep(c, e, databases))
  {}

  lemma StepPreserves(s: State, e: Event, initial: set<Name>)
    requires Inv(s, initial) && Enabled(s, e)
    ensures Inv(Step(s, e), initial)
  {
    if e.Open? {
      OpenPreserves(s, e.admin, e.name, initial);
    } else {
      var c := s.calls[e.i];
      CallInvKept(c, e, s.databases);
      HeldAfter(s.calls, e.i, CallStep(c, e, s.databases));
      assert Holds(c) ==> c.name in Held(s.calls);
    }
  }

  lemma {:induction false} RunPreserves(s: State, es: seq<Event>, initial: set<Name>)
    requires Inv(s, initial) && Legal(s, es)
    ensures Inv(Run(s, es), initial)
    decreases |es|
  {
    if es != [] {
      StepPreserves(s, es[0], initial);
      RunPreserves(Step(s, es[0]), es[1..], initial);
    }
  }

  lemma InitInv(initial: set<Name>)
    ensures Inv(Init(initial), initial)
  {}

  // ----- what every interleaving keeps

  /**
   In any reachable state a DROP reaching the server removes a database this call made, that was not there
   before the calls, that is not its admin database, and that no other call holds: theirs all survive.
   */
  lemma DropsOnlyItsOwn(initial: set<Name>, es: seq<Event>, i: nat)
    requires Legal(Init(initial), es) && Enabled(Run(Init(initial), es), ServerDrops(i))
    ensures var s := Run(Init(initial), es); var c := s.calls[i];
      && c.created && c.made && c.name in s.databases && c.name !in initial && c.name != c.admin && ScratchName(c.name)
      && Step(s, ServerDrops(i)).databases == s.databases - {c.name}
      && forall j :: 0 <= j < |s.calls| && j != i && Holds(s.calls[j]) ==> s.calls[j].name in s.databases - {c.name}
  {
    InitInv(initial);
    RunPreserves(Init(initial), es, initial);
    var s := Run(Init(initial), es);
    assert CallInv(s.calls[i]) && Holds(s.calls[i]);
    assert s.calls[i].name in Held(s.calls);
    forall j | 0 <= j < |s.calls| && j != i && Holds(s.calls[j])
      ensures s.calls[j].name in s.databases - {s.calls[i].name}
    {
      assert s.calls[j].name in Held(s.calls);
    }
  }

  /** No interleaving loses a database that was there before, and a body's own is there all the while. */
  lemma NothingElseIsLost(initial: set<Name>, es: seq<Event>)
    requires Legal(Init(initial), es)
    ensures var t := Run(Init(initial), es);
      && initial <= t.databases
      && forall i :: 0 <= i < |t.calls| && (t.calls[i].phase.Migrating? || t.calls[i].phase.InBody?) ==>
           t.calls[i].name in t.databases && t.calls[i].name !in initial
  {
    InitInv(initial);
    RunPreserves(Init(initial), es, initial);
    var t := Run(Init(initial), es);
    forall i | 0 <= i < |t.calls| && (t.calls[i].phase.Migrating? || t.calls[i].phase.InBody?)
      ensures t.calls[i].name in t.databases && t.calls[i].name !in initial
    {
      assert CallInv(t.calls[i]) && Holds(t.calls[i]);
      assert t.calls[i].name in Held(t.calls);
    }
  }

  predicate AllEnded(s: State) {
    forall i :: 0 <= i < |s.calls| ==> s.calls[i].phase.Ended?
  }

  /**
   Once every call has ended, the server is back to what it was exactly if each CREATE that ran was also
   acknowledged, and the DROP after it ran.
   */
  lemma BackToInitialIff(initial: set<Name>, es: seq<Event>)
    requires Legal(Init(initial), es) && AllEnded(Run(Init(initial), es))
    ensures var t := Run(Init(initial), es);
      t.databases == initial <==>
        forall i :: 0 <= i < |t.calls| && t.calls[i].made ==> t.calls[i].created && t.calls[i].gone
  {
    InitInv(initial);
    RunPreserves(Init(initial), es, initial);
    var t := Run(Init(initial), es);
    if t.databases == initial {
      forall i | 0 <= i < |t.calls| && t.calls[i].made ensures t.calls[i].created && t.calls[i].gone {
        assert CallInv(t.calls[i]);
        if !t.calls[i].gone { HeldMember(t.calls, i); }
      }
    }
    if forall i :: 0 <= i < |t.calls| && t.calls[i].made ==> t.calls[i].created && t.calls[i].gone {
      assert Held(t.calls) == {};
    }
  }

  predicate FailedAt(c: Call, f: Failure) {
    exists k :: 0 <= k < |c.errors| && c.errors[k] == f
  }

  predicate EndInv(c: Call) {
    && (c.phase.Creating? ==> c.errors == [])
    && (!c.created && c.phase in {Closing, Ended} ==> FailedAt(c, CreateFailed))
    && (c.created && !c.gone && c.phase in {Closing, Ended} ==> FailedAt(c, DropFailed))
    && (FailedAt(c, CreateFailed) ==> !c.created)
  }

  lemma Kept(errors: seq<Failure>, f: Failure, g: Failure)
    requires exists k :: 0 <= k < |errors| && errors[k] == g
    ensures exists k :: 0 <= k < |errors + [f]| && (errors + [f])[k] == g
  {
    var k :| 0 <= k < |errors| && errors[k] == g;
    assert (errors + [f])[k] == g;
  }

  lemma EndInvKept(c: Call, e: Event, databases: set<Name>)
    requires !e.Open? && CallInv(c) && EndInv(c) && CallEnabled(c, e)
    ensures EndInv(CallStep(c, e, databases))
  {
    var d := CallStep(c, e, databases);
    if |d.errors| == |c.errors| + 1 {
      assert d.errors[|c.errors|] == d.errors[|d.errors| - 1];
      var f := d.errors[|c.errors|];
      assert d.errors == c.errors + [f];
      if FailedAt(c, CreateFailed) { Kept(c.errors, f, CreateFailed); }
      if FailedAt(c, DropFailed) { Kept(c.errors, f, DropFailed); }
    }
  }

  /** Where a failure belongs in the report: the guarded part comes before the drop, the drop before the close. */
  function StageOf(f: Failure): nat {
    match f
    case DropFailed => 1
    case DropLogThrew => 1
    case EndFailed => 2
    case _ => 0
  }

  /** The first stage whose failure has not been decided yet. */
  function StageReached(p: Phase): nat {
    match p
    case Dropping => 1
    case Closing => 2
    case Ended => 3
    case _ => 0
  }

  predicate Ordered(errors: seq<Failure>) {
    forall a, b :: 0 <= a < b < |errors| ==> StageOf(errors[a]) < StageOf(errors[b])
  }

  function FailureOf(e: Event): seq<Failure> {
    match e
    case CreateSettles(_, ok, logs) => if !ok then [CreateFailed] else if !logs then [CreateLogThrew] else []
    case MigrateSettles(_, ok) => if ok then [] else [MigrateFailed]
    case BodySettles(_, ok) => if ok then [] else [BodyFailed]
    case DropSettles(_, ok, logs) => if !ok then [DropFailed] else if !logs then [DropLogThrew] else []
    case EndSettles(_, ok) => if ok then [] else [EndFailed]
    case _ => []
  }

  predicate Before(errors: seq<Failure>, stage: nat) {
    forall k :: 0 <= k < |errors| ==> StageOf(errors[k]) < stage
  }

  predicate ReportInv(c: Call) {
    Ordered(c.errors) && Before(c.errors, StageReached(c.phase)) && EndInv(c)
  }

  lemma OneMore(errors: seq<Failure>, f: Failure, stage: nat)
    requires Ordered(errors) && Before(errors, StageOf(f)) && StageOf(f) < stage
    ensures Ordered(errors + [f]) && Before(errors + [f], stage)
  {}

  lemma StillBefore(errors: seq<Failure>, stage: nat, later: nat)
    requires Before(errors, stage) && stage <= later
    ensures Before(errors, later)
  {}

  lemma WhatIsAdded(c: Call, e: Event, databases: set<Name>)
    requires !e.Open? && CallEnabled(c, e)
    ensures CallStep(c, e, databases).errors == c.errors + FailureOf(e) && |FailureOf(e)| <= 1
    ensures StageReached(c.phase) <= StageReached(CallStep(c, e, databases).phase)
    ensures |FailureOf(e)| == 1 ==>
      StageReached(c.phase) <= StageOf(FailureOf(e)[0]) < StageReached(CallStep(c, e, databases).phase)
  {}

  lemma ReportKept(c: Call, e: Event, databases: set<Name>)
    requires !e.Open? && CallInv(c) && ReportInv(c) && CallEnabled(c, e)
    ensures ReportInv(CallStep(c, e, databases))
  {
    EndInvKept(c, e, databases);
    WhatIsAdded(c, e, databases);
    var d := CallStep(c, e, databases);
    if FailureOf(e) == [] {
      StillBefore(c.errors, StageReached(c.phase), StageReached(d.phase));
    } else {
      var f := FailureOf(e)[0];
      assert FailureOf(e) == [f];
      StillBefore(c.errors, StageReached(c.phase), StageOf(f));
      OneMore(c.errors, f, StageReached(d.phase));
    }
  }

  predicate IsOf(e: Event, i: nat) {
    !e.Open? && e.i == i
  }

  /** Everything that failed for call `i`, in the order it happened. */
  function Failures(es: seq<Event>, i: nat): seq<Failure> {
    if es == [] then [] else (if IsOf(es[0], i) then FailureOf(es[0]) else []) + Failures(es[1..], i)
  }

  function Closes(es: seq<Event>, i: nat): nat {
    if es == [] then 0 else (if IsOf(es[0], i) && es[0].EndSettles? then 1 else 0) + Closes(es[1..], i)
  }

  function ErrorsAt(s: State, i: nat): seq<Failure> {
    if i < |s.calls| then s.calls[i].errors else []
  }

  predicate EndedAt(s: State, i: nat) {
    i < |s.calls| && s.calls[i].phase.Ended?
  }

  /** The error list of a call is what failed for it, whatever the other calls did in between. */
  lemma {:induction false} ErrorsGrow(s: State, es: seq<Event>, i: nat)
    requires Legal(s, es)
    ensures ErrorsAt(Run(s, es), i) == ErrorsAt(s, i) + Failures(es, i)
    decreases |es|
  {
    if es != [] {
      ErrorsGrow(Step(s, es[0]), es[1..], i);
      assert ErrorsAt(Step(s, es[0]), i) == ErrorsAt(s, i) + (if IsOf(es[0], i) then FailureOf(es[0]) else []);
    }
  }

  /** A call's connection is closed at most once, and by the time it has ended exactly once. */
  lemma {:induction false} ClosedOnce(s: State, es: seq<Event>, i: nat)
    requires Legal(s, es)
    ensures Closes(es, i) == (if !EndedAt(s, i) && EndedAt(Run(s, es), i) then 1 else 0)
    ensures EndedAt(s, i) ==> EndedAt(Run(s, es), i) && Run(s, es).calls[i] == s.calls[i]
    decreases |es|
  {
    if es != [] {
      ClosedOnce(Step(s, es[0]), es[1..], i);
    }
  }

  /** Nothing of a call happens after its connection has closed. */
  lemma {:induction false} ClosingIsLast(s: State, es: seq<Event>, i: nat, k: nat)
    requires Legal(s, es) && i < |s.calls| && s.calls[i].phase.Ended? && k < |es|
    ensures !IsOf(es[k], i)
    decreases |es|
  {
    if k > 0 {
      ClosingIsLast(Step(s, es[0]), es[1..], i, k - 1);
    }
  }

  /** How many settled answers and server actions a call can still see. */
  function Remaining(c: Call): nat {
    match c.phase
    case Creating => 6 + (if c.answered then 0 else 1)
    case Migrating => 5
    case InBody => 4
    case Dropping => 2 + (if c.gone then 0 else 1)
    case Closing => 1
    case Ended => 0
  }

  /** Every call that has not ended can always go on, and whatever it does brings its end nearer. */
  lemma CallsGetOn(c: Call, e: Event, databases: set<Name>)
    requires CallInv(c) && !e.Open? && CallEnabled(c, e)
    ensures Remaining(CallStep(c, e, databases)) < Remaining(c)
    ensures !c.phase.Ended?
  {}

  lemma NeverStuck(s: State, i: nat)
    requires i < |s.calls| && !s.calls[i].phase.Ended?
    ensures exists e :: IsOf(e, i) && Enabled(s, e)
  {
    var e := match s.calls[i].phase
      case Creating => CreateSettles(i, false, true)
      case Migrating => MigrateSettles(i, true)
      case InBody => BodySettles(i, true)
      case Dropping => DropSettles(i, false, true)
      case _ => EndSettles(i, true);
    assert IsOf(e, i) && Enabled(s, e);
  }

  // ----- what the caller gets

  datatype Outcome = Returned | Threw(error: Failure) | ThrewAll(errors: seq<Failure>)

  function OutcomeOf(errors: seq<Failure>): Outcome {
    if errors == [] then Returned else if |errors| == 1 then Threw(errors[0]) else ThrewAll(errors)
  }

  predicate Reports(s: State) {
    forall j :: 0 <= j < |s.calls| ==> ReportInv(s.calls[j])
  }

  lemma {:induction false} ReportsHold(s: State, es: seq<Event>, initial: set<Name>)
    requires Inv(s, initial) && Reports(s) && Legal(s, es)
    ensures Reports(Run(s, es))
    decreases |es|
  {
    if es != [] {
      StepPreserves(s, es[0], initial);
      if !es[0].Open? { ReportKept(s.calls[es[0].i], es[0], s.databases); }
      ReportsHold(Step(s, es[0]), es[1..], initial);
    }
  }

  lemma AtMostThree(errors: seq<Failure>)
    requires Ordered(errors)
    ensures |errors| <= 3
  {
    assert |errors| > 1 ==> StageOf(errors[0]) < StageOf(errors[1]);
    assert |errors| > 2 ==> StageOf(errors[1]) < StageOf(errors[2]);
    assert |errors| > 3 ==> StageOf(errors[2]) < StageOf(errors[3]);
  }

  lemma ErrorsAreFailures(initial: set<Name>, es: seq<Event>, i: nat)
    requires Legal(Init(initial), es) && i < |Run(Init(initial), es).calls|
    ensures Run(Init(initial), es).calls[i].errors == Failures(es, i)
  {
    ErrorsGrow(Init(initial), es, i);
  }

  lemma ErrorsAreOrdered(initial: set<Name>, es: seq<Event>, i: nat)
    requires Legal(Init(initial), es) && i < |Run(Init(initial), es).calls|
    ensures Ordered(Run(Init(initial), es).calls[i].errors)
  {
    InitInv(initial);
    ReportsHold(Init(initial), es, initial);
    assert ReportInv(Run(Init(initial), es).calls[i]);
  }

  /**
   A call that has ended returned exactly if nothing failed for it. One failure is thrown as it is; of two
   or three the first to happen leads, and a failure of the guarded part leads those of the cleanup.
   */
  lemma FirstFailureLeads(initial: set<Name>, es: seq<Event>, i: nat)
    requires Legal(Init(initial), es) && EndedAt(Run(Init(initial), es), i)
    ensures var failures := Failures(es, i);
      && Ordered(failures) && |failures| <= 3
      && match OutcomeOf(Run(Init(initial), es).calls[i].errors)
         case Returned => failures == []
         case Threw(error) => failures == [error]
         case ThrewAll(errors) => |failures| >= 2 && errors == failures
  {
    ErrorsAreFailures(initial, es, i);
    ErrorsAreOrdered(initial, es, i);
    AtMostThree(Failures(es, i));
  }

  // ----- what a call that returned has done

  predicate IsAnswer(e: Event, i: nat) {
    IsOf(e, i) && !e.ServerCreates? && !e.ServerDrops?
  }

  /** What settled for call `i`, in order. */
  function Answers(es: seq<Event>, i: nat): seq<Event> {
    if es == [] then [] else (if IsAnswer(es[0], i) then [es[0]] else []) + Answers(es[1..], i)
  }

  /** All that has to go well from here on. */
  function Course(p: Phase, i: nat): seq<Event> {
    var closing := [EndSettles(i, true)];
    var dropping := [DropSettles(i, true, true)] + closing;
    var inBody := [BodySettles(i, true)] + dropping;
    var migrating := [MigrateSettles(i, true)] + inBody;
    match p
    case Creating => [CreateSettles(i, true, true)] + migrating
    case Migrating => migrating
    case InBody => inBody
    case Dropping => dropping
    case Closing => closing
    case Ended => []
  }

  function PhaseAt(s: State, i: nat): Phase {
    if i < |s.calls| then s.calls[i].phase else Creating
  }

  lemma {:induction false} CourseIsRun(s: State, es: seq<Event>, i: nat)
    requires Legal(s, es) && EndedAt(Run(s, es), i) && Failures(es, i) == []
    ensures Answers(es, i) == Course(PhaseAt(s, i), i)
    decreases |es|
  {
    if es != [] {
      var e := es[0];
      var t := Step(s, e);
      assert IsOf(e, i) ==> FailureOf(e) == [];
      CourseIsRun(t, es[1..], i);
      CourseStep(s, e, i);
    }
  }

  lemma CourseStep(s: State, e: Event, i: nat)
    requires Enabled(s, e) && (IsOf(e, i) ==> FailureOf(e) == [])
    ensures Course(PhaseAt(s, i), i) == (if IsAnswer(e, i) then [e] else []) + Course(PhaseAt(Step(s, e), i), i)
  {}

  /** A call that returned has created and migrated its database, run its body in it, dropped it and closed. */
  lemma ReturnedRanItsBody(initial: set<Name>, es: seq<Event>, i: nat)
    requires Legal(Init(initial), es) && EndedAt(Run(Init(initial), es), i)
    requires OutcomeOf(Run(Init(initial), es).calls[i].errors) == Returned
    ensures Answers(es, i) == [CreateSettles(i, true, true), MigrateSettles(i, true), BodySettles(i, true),
                               DropSettles(i, true, true), EndSettles(i, true)]
  {
    ErrorsAreFailures(initial, es, i);
    CourseIsRun(Init(initial), es, i);
  }

  /** Where no call saw its CREATE or its DROP fail, the server ends with the databases it had. */
  lemma NoFailureNoTrace(initial: set<Name>, es: seq<Event>)
    requires Legal(Init(initial), es) && AllEnded(Run(Init(initial), es))
    requires forall i :: 0 <= i < |Run(Init(initial), es).calls| ==>
      !FailedAt(Run(Init(initial), es).calls[i], CreateFailed) && !FailedAt(Run(Init(initial), es).calls[i], DropFailed)
    ensures Run(Init(initial), es).databases == initial
  {
    InitInv(initial);
    RunPreserves(Init(initial), es, initial);
    ReportsHold(Init(initial), es, initial);
    var t := Run(Init(initial), es);
    forall i | 0 <= i < |t.calls| && t.calls[i].made ensures t.calls[i].created && t.calls[i].gone {
      assert CallInv(t.calls[i]) && ReportInv(t.calls[i]);
    }
    BackToInitialIff(initial, es);
  }

  /**
   Where no DROP failed, the server ends with the databases it had exactly if no call that saw its CREATE
   fail had it take effect all the same.
   */
  lemma BackUnlessCreateWasLost(initial: set<Name>, es: seq<Event>)
    requires Legal(Init(initial), es) && AllEnded(Run(Init(initial), es))
    requires forall i :: 0 <= i < |Run(Init(initial), es).calls| ==>
      !FailedAt(Run(Init(initial), es).calls[i], DropFailed)
    ensures var t := Run(Init(initial), es);
      t.databases == initial <==>
        forall i :: 0 <= i < |t.calls| && FailedAt(t.calls[i], CreateFailed) ==> !t.calls[i].made
  {
    InitInv(initial);
    RunPreserves(Init(initial), es, initial);
    ReportsHold(Init(initial), es, initial);
    var t := Run(Init(initial), es);
    forall i | 0 <= i < |t.calls|
      ensures t.calls[i].made && FailedAt(t.calls[i], CreateFailed) <==>
              t.calls[i].made && !(t.calls[i].created && t.calls[i].gone)
    {
      assert CallInv(t.calls[i]) && ReportInv(t.calls[i]) && t.calls[i].phase.Ended?;
    }
    BackToInitialIff(initial, es);
  }

  /**
   That no drop failed is not enough: a CREATE that took effect while its answer was lost is never
   dropped, because the call cannot tell the database from one it did not make.
   */
  lemma LostCreateLeaks(initial: set<Name>, admin: Name, name: Name)
    requires Managed(admin, name) && name !in initial
    ensures var es := [Open(admin, name), ServerCreates(0), CreateSettles(0, false, true), EndSettles(0, true)];
      && Legal(Init(initial), es) && AllEnded(Run(Init(initial), es))
      && Failures(es, 0) == [CreateFailed]
      && Run(Init(initial), es).databases == initial + {name}
  {
    var s1 := Step(Init(initial), Open(admin, name));
    var s2 := Step(s1, ServerCreates(0));
    var s3 := Step(s2, CreateSettles(0, false, true));
    var s4 := Step(s3, EndSettles(0, true));
    var es3 := [EndSettles(0, true)];
    var es2 := [CreateSettles(0, false, true)] + es3;
    var es1 := [ServerCreates(0)] + es2;
    assert es1[1..] == es2 && es2[1..] == es3 && es3[1..] == [];
    assert Legal(s3, es3) && Run(s3, es3) == s4;
    assert Legal(s2, es2) && Run(s2, es2) == s4;
    assert Legal(s1, es1) && Run(s1, es1) == s4;
    var es := [Open(admin, name), ServerCreates(0), CreateSettles(0, false, true), EndSettles(0, true)];
    assert es[1..] == es1;
    assert Failures(es3, 0) == [] && Failures(es2, 0) == [CreateFailed];
    assert Failures(es, 0) == Failures(es1, 0) == Failures(es2, 0);
  }

  // ----- the program

  lemma {:induction false} RunSnoc(s: State, es: seq<Event>, e: Event)
    requires Legal(s, es) && Enabled(Run(s, es), e)
    ensures Legal(s, es + [e]) && Run(s, es + [e]) == Step(Run(s, es), e)
    decreases |es|
  {
    if es == [] {
      assert es + [e] == [e] && [e][1..] == [];
    } else {
      RunSnoc(Step(s, es[0]), es[1..], e);
      assert (es + [e])[1..] == es[1..] + [e];
    }
  }

  /** How the statements and the callbacks of one call turn out; `runs` says whether the server acted. */
  datatype Replies = Replies(
    createRuns: bool, createOk: bool, createLogs: bool, migrateOk: bool, bodyOk: bool,
    dropRuns: bool, dropOk: bool, dropLogs: bool, endOk: bool)

  // ----- what these replies dictate

  /** The guarded part stops at its first failure. */
  function GuardedFailure(r: Replies): seq<Failure> {
    if !r.createOk then [CreateFailed]
    else if !r.createLogs then [CreateLogThrew]
    else if !r.migrateOk then [MigrateFailed]
    else if !r.bodyOk then [BodyFailed]
    else []
  }

  function DropFailure(r: Replies): seq<Failure> {
    if !r.createOk then [] else if !r.dropOk then [DropFailed] else if !r.dropLogs then [DropLogThrew] else []
  }

  function Dictated(r: Replies): seq<Failure> {
    GuardedFailure(r) + DropFailure(r) + if r.endOk then [] else [EndFailed]
  }

  function GuardedEvents(r: Replies): seq<Event> {
    (if r.createRuns then [ServerCreates(0)] else [])
    + [CreateSettles(0, r.createOk, r.createLogs)]
    + (if r.createOk && r.createLogs then [MigrateSettles(0, r.migrateOk)] else [])
    + (if r.createOk && r.createLogs && r.migrateOk then [BodySettles(0, r.bodyOk)] else [])
  }

  function DropEvents(r: Replies): seq<Event> {
    if !r.createOk then []
    else (if r.dropRuns then [ServerDrops(0)] else []) + [DropSettles(0, r.dropOk, r.dropLogs)]
  }

  /** What was created is dropped, and the connection is closed last of all. */
  function CallEvents(r: Replies): seq<Event> {
    GuardedEvents(r) + DropEvents(r) + [EndSettles(0, r.endOk)]
  }

  /** A call returns if and only if everything went well. */
  lemma ReturnsIff(r: Replies)
    ensures OutcomeOf(Dictated(r)) == Returned <==>
            r.createOk && r.createLogs && r.migrateOk && r.bodyOk && r.dropOk && r.dropLogs && r.endOk
  {}

  /** What one more event of a call that is alone makes of it. */
  lemma Alone(s: State, es: seq<Event>, e: Event, c: Call, databases: set<Name>)
    requires Legal(s, es) && Run(s, es) == State(databases, [c])
    requires !e.Open? && e.i == 0 && CallEnabled(c, e)
    ensures Legal(s, es + [e])
    ensures Run(s, es + [e]) == State(
      if e.ServerCreates? then databases + {c.name} else if e.ServerDrops? then databases - {c.name} else databases,
      [CallStep(c, e, databases)])
  {
    RunSnoc(s, es, e);
  }

  /** The server, with one client at a time. */
  class Server {
    var databases: set<Name>

    /** The guarded part: CREATE, the log line, the migration and the body. */
    method Build(ghost s: State, name: Name, r: Replies)
      returns (created: bool, errors: seq<Failure>, ghost es: seq<Event>, ghost c: Call)
      requires exists admin :: s == State(databases, [Opened(admin, name)])
      requires r.createOk ==> r.createRuns && name !in databases
      modifies this
      ensures Legal(s, es) && Run(s, es) == State(databases, [c])
      ensures c.phase == (if created then Dropping else Closing) && c.name == name && !c.gone
      ensures created == c.created == r.createOk && errors == c.errors
      ensures es == GuardedEvents(r) && errors == GuardedFailure(r)
      ensures databases == if r.createRuns then old(databases) + {name} else old(databases)
    {
      created, errors, es, c := false, [], [], s.calls[0];
      if r.createRuns {
        ghost var e := ServerCreates(0);
        Alone(s, es, e, c, databases);
        es, c := es + [e], CallStep(c, e, databases);
        databases := databases + {name};
      }
      ghost var e := CreateSettles(0, r.createOk, r.createLogs);
      Alone(s, es, e, c, databases);
      es, c := es + [e], CallStep(c, e, databases);
      if !r.createOk {
        errors := errors + [CreateFailed];
        return;
      }
      created := true;
      if !r.createLogs {
        errors := errors + [CreateLogThrew];
        return;
      }
      e := MigrateSettles(0, r.migrateOk);
      Alone(s, es, e, c, databases);
      es, c := es + [e], CallStep(c, e, databases);
      if !r.migrateOk {
        errors := errors + [MigrateFailed];
        return;
      }
      e := BodySettles(0, r.bodyOk);
      Alone(s, es, e, c, databases);
      es, c := es + [e], CallStep(c, e, databases);
      if !r.bodyOk {
        errors := errors + [BodyFailed];
      }
    }

    /** The cleanup of what was created. */
    method Drop(ghost s: State, name: Name, r: Replies, ghost es0: seq<Event>, ghost c0: Call)
      returns (errors: seq<Failure>, ghost es: seq<Event>, ghost c: Call)
      requires Legal(s, es0) && Run(s, es0) == State(databases, [c0])
      requires c0.phase.Dropping? && c0.name == name && !c0.gone && r.createOk && (r.dropOk ==> r.dropRuns)
      modifies this
      ensures Legal(s, es) && Run(s, es) == State(databases, [c])
      ensures c.phase.Closing? && c.errors == c0.errors + errors && errors == DropFailure(r)
      ensures es == es0 + DropEvents(r)
      ensures databases == if r.dropRuns then old(databases) - {name} else old(databases)
    {
      errors, es, c := [], es0, c0;
      ghost var e: Event;
      if r.dropRuns {
        e := ServerDrops(0);
        Alone(s, es, e, c, databases);
        es, c := es + [e], CallStep(c, e, databases);
        databases := databases - {name};
      }
      e := DropSettles(0, r.dropOk, r.dropLogs);
      Alone(s, es, e, c, databases);
      es, c := es + [e], CallStep(c, e, databases);
      if !r.dropOk {
        errors := [DropFailed];
      } else if !r.dropLogs {
        errors := [DropLogThrew];
      }
    }

    /** The function from its admitted name to its end, as the run of one call. */
    method Lifecycle(admin: Name, name: Name, r: Replies) returns (o: Outcome, ghost es: seq<Event>)
      requires r.createOk ==> r.createRuns && name !in databases
      requires r.dropOk ==> r.dropRuns
      modifies this
      ensures var s := State(old(databases), [Opened(admin, name)]);
        Legal(s, es) && AllEnded(Run(s, es)) && databases == Run(s, es).databases
      ensures es == CallEvents(r) && Failures(es, 0) == Dictated(r) && o == OutcomeOf(Dictated(r))
      ensures databases == old(databases) + if r.createRuns && !(r.createOk && r.dropRuns) then {name} else {}
    {
      ghost var s, c := State(databases, [Opened(admin, name)]), Opened(admin, name);
      var created, errors;
      created, errors, es, c := Build(s, name, r);
      if created {
        var more;
        more, es, c := Drop(s, name, r, es, c);
        errors := errors + more;
      }
      ghost var e := EndSettles(0, r.endOk);
      Alone(s, es, e, c, databases);
      es, c := es + [e], CallStep(c, e, databases);
      if !r.endOk {
        errors := errors + [EndFailed];
      }
      assert errors == Dictated(r);
      ErrorsGrow(s, es, 0);
      if errors == [] { o := Returned; }
      else if |errors| == 1 { o := Threw(errors[0]); }
      else { o := ThrewAll(errors); }
    }

    /** `withScratchDatabase`: a name that may not be managed is refused before anything is connected. */
    method WithScratchDatabase(admin: Name, name: Name, r: Replies) returns (o: Option<Outcome>, ghost es: seq<Event>)
      requires r.createOk ==> r.createRuns && name !in databases
      requires r.dropOk ==> r.dropRuns
      modifies this
      ensures Managed(admin, name) ==> o == Some(OutcomeOf(Dictated(r))) && es == CallEvents(r)
      ensures Managed(admin, name) ==> var s := State(old(databases), [Opened(admin, name)]);
        Legal(s, es) && AllEnded(Run(s, es)) && databases == Run(s, es).databases && Failures(es, 0) == Dictated(r)
      ensures Managed(admin, name) ==>
        databases == old(databases) + if r.createRuns && !(r.createOk && r.dropRuns) then {name} else {}
      ensures !Managed(admin, name) ==> o == None && es == [] && databases == old(databases)
    {
      if !Managed(admin, name) { return None, []; }
      var outcome;
      outcome, es := Lifecycle(admin, name, r);
      o := Some(outcome);
    }
  }
}
