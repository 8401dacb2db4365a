/**
 `writeProtectedFile` on a file system that can crash: writers fill a temporary file, sync it and rename it
 over the target, interleaved with each other and with any number of crashes. What a file holds survives a
 crash only once synced; directory changes reach the disk in order but late, so a crash may undo the last ones.
 */
module ProtectedWrite {
  import opened Options

  type Path = string
  type Text = string

  datatype File = File(text: Text, synced: bool)

  type Directory = map<Path, nat>

  /** `history` is the last directory known to be on disk, then every later one; the last is the current one. */
  datatype Disk = Disk(history: seq<Directory>, files: seq<File>)

  datatype Phase = Opening | Writing | Syncing | Closing | Renaming | Unlinking | Done | Failed | Killed

  /** `file` is the inode behind the handle; `failed` records that the guarded part has thrown. */
  datatype Writer = Writer(
    target: Path, tmp: Path, text: Text, phase: Phase, file: Option<nat>, failed: bool, renamed: bool)

  datatype State = State(disk: Disk, writers: seq<Writer>)

  datatype Event =
    | Begin(target: Path, tmp: Path, text: Text)   // past `mkdir`
    | OpenSettles(i: nat, ok: bool)
    | WriteSome(i: nat, part: Text)
    | WriteSettles(i: nat, ok: bool)
    | SyncSettles(i: nat, ok: bool)
    | CloseSettles(i: nat, ok: bool)
    | RenameRuns(i: nat)
    | RenameSettles(i: nat, ok: bool)
    | UnlinkRuns(i: nat)
    | UnlinkSettles(i: nat)
    | Persist(n: nat)
    | Crash(n: nat, torn: seq<Text>)

  predicate WellFormed(d: Disk) {
    d.history != [] && forall h, p :: 0 <= h < |d.history| && p in d.history[h] ==> d.history[h][p] < |d.files|
  }

  function Current(d: Disk): Directory
    requires d.history != []
  {
    d.history[|d.history| - 1]
  }

  function Entered(d: Disk, dir: Directory): Disk {
    d.(history := d.history + [dir])
  }

  predicate ByWriter(e: Event) {
    !e.Begin? && !e.Persist? && !e.Crash?
  }

  // ----- the steps

  /** A temporary name is new to every writer, and no writer's target. */
  predicate FreshNames(writers: seq<Writer>, target: Path, tmp: Path) {
    && target != tmp
    && forall j :: 0 <= j < |writers| ==>
         writers[j].tmp != tmp && writers[j].tmp != target && writers[j].target != tmp
  }

  predicate WriterEnabled(w: Writer, d: Disk, e: Event)
    requires ByWriter(e) && d.history != []
  {
    match e
    case OpenSettles(_, ok) => w.phase.Opening? && (ok ==> w.tmp !in Current(d))   // exclusive creation
    case WriteSome(_, _) => w.phase.Writing?
    case WriteSettles(_, _) => w.phase.Writing?
    case SyncSettles(_, _) => w.phase.Syncing?
    case CloseSettles(_, _) => w.phase.Closing?
    case RenameRuns(_) => w.phase.Renaming? && !w.renamed && w.tmp in Current(d)
    case RenameSettles(_, ok) => w.phase.Renaming? && (ok ==> w.renamed)
    case UnlinkRuns(_) => w.phase.Unlinking? && w.tmp in Current(d)
    case UnlinkSettles(_) => w.phase.Unlinking?
    case _ => false
  }

  predicate Enabled(s: State, e: Event)
    requires s.disk.history != []
  {
    match e
    case Begin(target, tmp, _) => FreshNames(s.writers, target, tmp)
    case Persist(n) => n < |s.disk.history|
    case Crash(n, torn) => n < |s.disk.history| && |torn| == |s.disk.files|
    case _ => e.i < |s.writers| && (s.writers[e.i].file.Some? ==> s.writers[e.i].file.value < |s.disk.files|)
              && (e.WriteSome? || e.WriteSettles? || e.SyncSettles? ==> s.writers[e.i].file.Some?)
              && WriterEnabled(s.writers[e.i], s.disk, e)
  }

  function WriterStep(w: Writer, d: Disk, e: Event): Writer
    requires ByWriter(e)
  {
    match e
    case OpenSettles(_, ok) =>
      if ok then w.(phase := Writing, file := Some(|d.files|)) else w.(phase := Unlinking, failed := true)
    case WriteSettles(_, ok) => if ok then w.(phase := Syncing) else w.(phase := Closing, failed := true)
    case SyncSettles(_, ok) => w.(phase := Closing, failed := !ok)
    case CloseSettles(_, ok) =>
      if ok && !w.failed then w.(phase := Renaming) else w.(phase := Unlinking, failed := true)
    case RenameRuns(_) => w.(renamed := true)
    case RenameSettles(_, ok) => if ok then w.(phase := Done) else w.(phase := Unlinking, failed := true)
    case UnlinkSettles(_) => w.(phase := Failed)
    case _ => w
  }

  function DiskStep(w: Writer, d: Disk, e: Event): Disk
    requires ByWriter(e) && d.history != [] && WriterEnabled(w, d, e)
    requires e.WriteSome? || e.WriteSettles? || e.SyncSettles? ==> w.file.Some? && w.file.value < |d.files|
  {
    match e
    case OpenSettles(_, ok) =>
      if ok then Entered(d, Current(d)[w.tmp := |d.files|]).(files := d.files + [File("", false)]) else d
    case WriteSome(_, part) => d.(files := d.files[w.file.value := File(part, false)])
    case WriteSettles(_, ok) => if ok then d.(files := d.files[w.file.value := File(w.text, false)]) else d
    case SyncSettles(_, ok) =>
      if ok then d.(files := d.files[w.file.value := d.files[w.file.value].(synced := true)]) else d
    case RenameRuns(_) => Entered(d, Current(d)[w.target := Current(d)[w.tmp]] - {w.tmp})
    case UnlinkRuns(_) => Entered(d, Current(d) - {w.tmp})
    case _ => d
  }

  /** After a crash: an earlier directory, synced files whole, the others holding anything. */
  function Crashed(d: Disk, n: nat, torn: seq<Text>): Disk
    requires n < |d.history| && |torn| == |d.files|
  {
    Disk([d.history[n]],
      seq(|d.files|, k requires 0 <= k < |d.files| =>
        File(if d.files[k].synced then d.files[k].text else torn[k], true)))
  }

  function Killing(writers: seq<Writer>): seq<Writer> {
    seq(|writers|, i requires 0 <= i < |writers| => writers[i].(phase := Killed))
  }

  function Step(s: State, e: Event): State
    requires s.disk.history != [] && Enabled(s, e)
  {
    match e
    case Begin(target, tmp, text) =>
      s.(writers := s.writers + [Writer(target, tmp, text, Opening, None, false, false)])
    case Persist(n) => s.(disk := s.disk.(history := s.disk.history[n..]))
    case Crash(n, torn) => State(Crashed(s.disk, n, torn), Killing(s.writers))
    case _ =>
      State(DiskStep(s.writers[e.i], s.disk, e), s.writers[e.i := WriterStep(s.writers[e.i], s.disk, e)])
  }

  predicate Legal(s: State, es: seq<Event>)
    decreases |es|
  {
    es == [] || (s.disk.history != [] && Enabled(s, es[0]) && Legal(Step(s, es[0]), es[1..]))
  }

  function Run(s: State, es: seq<Event>): State
    requires Legal(s, es)
    decreases |es|
  {
    if es == [] then s else Run(Step(s, es[0]), es[1..])
  }

  // ----- what a reader finds

  function Read(d: Disk, p: Path): Option<Text>
    requires WellFormed(d)
  {
    if p in Current(d) then Some(d.files[Current(d)[p]].text) else None
  }

  predicate IsTmp(writers: seq<Writer>, p: Path) {
    exists j :: 0 <= j < |writers| && writers[j].tmp == p
  }

  /** The text of some write of `p`. */
  predicate Written(writers: seq<Writer>, p: Path, text: Text) {
    exists j :: 0 <= j < |writers| && writers[j].target == p && writers[j].text == text
  }

  // ----- the inductive invariant

  /** In this directory, `p` names a whole synced text: its first one, or one written to it. */
  predicate WholeIn(s: State, dir: Directory, p: Path, first: Option<Text>) {
    if p in dir then
      && dir[p] < |s.disk.files| && s.disk.files[dir[p]].synced
      && (first == Some(s.disk.files[dir[p]].text) || Written(s.writers, p, s.disk.files[dir[p]].text))
    else
      first == None
  }

  predicate WriterInv(w: Writer, d: Disk)
    requires d.history != []
  {
    && (w.file.Some? ==> w.file.value < |d.files|)
    && (w.phase in {Writing, Syncing} ==> w.file.Some? && !d.files[w.file.value].synced)
    && (w.phase.Syncing? ==> d.files[w.file.value].text == w.text)
    && (w.phase in {Opening, Writing, Syncing} ==> !w.failed)
    && ((w.phase.Closing? && !w.failed) || w.phase.Renaming? ==>
          w.file.Some? && d.files[w.file.value] == File(w.text, true))
    && (w.phase.Renaming? ==> (w.tmp in Current(d) ==> Current(d)[w.tmp] == w.file.value))
    && (w.phase in {Writing, Syncing, Closing} ==>
          w.file.Some? && (w.tmp in Current(d) ==> Current(d)[w.tmp] == w.file.value))
  }

  predicate NamesApart(writers: seq<Writer>) {
    forall i, j :: 0 <= i < |writers| && 0 <= j < |writers| ==>
      writers[i].tmp != writers[j].target && (i != j ==> writers[i].tmp != writers[j].tmp)
  }

  predicate FilesApart(writers: seq<Writer>) {
    forall i, j :: 0 <= i < j < |writers| && writers[i].file.Some? && writers[j].file.Some? ==>
      writers[i].file != writers[j].file
  }

  predicate WritersInv(s: State)
    requires s.disk.history != []
  {
    forall i :: 0 <= i < |s.writers| ==> WriterInv(s.writers[i], s.disk)
  }

  ghost predicate AllWhole(s: State, p: Path, first: Option<Text>) {
    forall h :: 0 <= h < |s.disk.history| ==> WholeIn(s, s.disk.history[h], p, first)
  }

  ghost predicate Inv(s: State, p: Path, first: Option<Text>) {
    && WellFormed(s.disk) && WritersInv(s) && NamesApart(s.writers) && FilesApart(s.writers)
    && (!IsTmp(s.writers, p) ==> AllWhole(s, p, first))
  }

  /** Synced files never change, and what was written stays attributed to its writer. */
  predicate Settled(s: State, t: State) {
    && |s.disk.files| <= |t.disk.files|
    && (forall k :: 0 <= k < |s.disk.files| && s.disk.files[k].synced ==> t.disk.files[k] == s.disk.files[k])
    && |s.writers| <= |t.writers|
    && (forall j :: 0 <= j < |s.writers| ==>
          t.writers[j].target == s.writers[j].target && t.writers[j].text == s.writers[j].text
          && t.writers[j].tmp == s.writers[j].tmp)
  }

  lemma WholeKept(s: State, t: State, dir: Directory, p: Path, first: Option<Text>)
    requires WholeIn(s, dir, p, first) && Settled(s, t)
    ensures WholeIn(t, dir, p, first)
  {
    if p in dir && first != Some(s.disk.files[dir[p]].text) {
      var j :| 0 <= j < |s.writers| && s.writers[j].target == p && s.writers[j].text == s.disk.files[dir[p]].text;
      assert t.writers[j].target == p && t.writers[j].text == s.disk.files[dir[p]].text;
    }
  }

  lemma StillNoTmp(s: State, t: State, p: Path)
    requires Settled(s, t) && !IsTmp(t.writers, p)
    ensures !IsTmp(s.writers, p)
  {
    forall j | 0 <= j < |s.writers| ensures s.writers[j].tmp != p {
      assert t.writers[j].tmp == s.writers[j].tmp;
    }
  }

  ghost predicate StepOk(s: State, e: Event) {
    WellFormed(s.disk) && WritersInv(s) && NamesApart(s.writers) && FilesApart(s.writers) && Enabled(s, e)
  }

  lemma WriterSettles(s: State, e: Event)
    requires StepOk(s, e) && ByWriter(e)
    ensures Settled(s, Step(s, e))
  {
    assert WriterInv(s.writers[e.i], s.disk);
  }

  lemma WellFormedKept(s: State, e: Event)
    requires StepOk(s, e)
    ensures WellFormed(Step(s, e).disk)
  {}

  /** What one writer does to the disk leaves every other writer's file and temporary name alone. */
  lemma OthersKept(s: State, e: Event, j: nat)
    requires StepOk(s, e) && ByWriter(e) && j < |s.writers| && j != e.i
    ensures WriterInv(s.writers[j], Step(s, e).disk)
  {
    var w, v := s.writers[e.i], s.writers[j];
    assert WriterInv(v, s.disk) && WriterInv(w, s.disk);
    assert w.tmp != v.tmp && w.target != v.tmp;
    assert w.file.Some? && v.file.Some? ==> w.file != v.file by {
      assert j < e.i || e.i < j;
    }
  }

  lemma OwnKept(s: State, e: Event)
    requires StepOk(s, e) && ByWriter(e)
    ensures WriterInv(Step(s, e).writers[e.i], Step(s, e).disk)
  {
    assert WriterInv(s.writers[e.i], s.disk);
    assert s.writers[e.i].tmp != s.writers[e.i].target;
  }

  lemma ApartKept(s: State, e: Event)
    requires StepOk(s, e) && ByWriter(e)
    ensures NamesApart(Step(s, e).writers) && FilesApart(Step(s, e).writers)
  {
    NamesKept(s, e);
    FilesKept(s, e);
  }

  lemma NamesKept(s: State, e: Event)
    requires StepOk(s, e) && ByWriter(e)
    ensures NamesApart(Step(s, e).writers)
  {
    assert forall j :: 0 <= j < |s.writers| ==>
      Step(s, e).writers[j].tmp == s.writers[j].tmp && Step(s, e).writers[j].target == s.writers[j].target;
  }

  lemma FilesKept(s: State, e: Event)
    requires StepOk(s, e) && ByWriter(e)
    ensures FilesApart(Step(s, e).writers)
  {
    forall j | 0 <= j < |s.writers| ensures s.writers[j].file.Some? ==> s.writers[j].file.value < |s.disk.files| {
      assert WriterInv(s.writers[j], s.disk);
    }
    assert forall j :: 0 <= j < |s.writers| && j != e.i ==> Step(s, e).writers[j] == s.writers[j];
    var f := Step(s, e).writers[e.i].file;
    assert f == s.writers[e.i].file || f == Some(|s.disk.files|);
  }

  /** The directory a writer's step may add holds a whole text for every path that is nobody's temporary name. */
  lemma NewDirectoryWhole(s: State, e: Event, p: Path, first: Option<Text>)
    requires StepOk(s, e) && ByWriter(e) && !IsTmp(s.writers, p) && AllWhole(s, p, first)
    ensures WholeIn(Step(s, e), Current(Step(s, e).disk), p, first)
  {
    WriterSettles(s, e);
    var w, t := s.writers[e.i], Step(s, e);
    assert WholeIn(s, Current(s.disk), p, first);
    WholeKept(s, t, Current(s.disk), p, first);
    assert w.tmp != p;
    if e.RenameRuns? && p == w.target {
      assert WriterInv(w, s.disk);
      assert t.writers[e.i].target == p && t.writers[e.i].text == w.text;
      assert Written(t.writers, p, w.text);
    }
  }

  lemma WriterPreserves(s: State, e: Event, p: Path, first: Option<Text>)
    requires Inv(s, p, first) && ByWriter(e) && Enabled(s, e)
    ensures Inv(Step(s, e), p, first)
  {
    var t := Step(s, e);
    WriterSettles(s, e);
    WellFormedKept(s, e);
    ApartKept(s, e);
    assert WritersInv(t) by {
      forall j | 0 <= j < |t.writers| ensures WriterInv(t.writers[j], t.disk) {
        if j == e.i { OwnKept(s, e); } else { OthersKept(s, e, j); }
      }
    }
    if !IsTmp(t.writers, p) {
      StillNoTmp(s, t, p);
      NewDirectoryWhole(s, e, p, first);
      HistoryGrows(s, e);
      forall h | 0 <= h < |t.disk.history| ensures WholeIn(t, t.disk.history[h], p, first) {
        if h < |s.disk.history| { WholeKept(s, t, s.disk.history[h], p, first); }
      }
    }
  }

  lemma HistoryGrows(s: State, e: Event)
    requires StepOk(s, e) && ByWriter(e)
    ensures var h := s.disk.history; var g := Step(s, e).disk.history;
      |h| <= |g| <= |h| + 1 && g[..|h|] == h
  {}

  lemma BeginPreserves(s: State, e: Event, p: Path, first: Option<Text>)
    requires Inv(s, p, first) && e.Begin? && Enabled(s, e)
    ensures Inv(Step(s, e), p, first)
  {
    var t := Step(s, e);
    assert forall j :: 0 <= j < |s.writers| ==> t.writers[j] == s.writers[j];
    assert WritersInv(t) by {
      forall j | 0 <= j < |t.writers| ensures WriterInv(t.writers[j], t.disk) {
        if j < |s.writers| { assert WriterInv(s.writers[j], s.disk); }
      }
    }
    if !IsTmp(t.writers, p) {
      StillNoTmp(s, t, p);
      forall h | 0 <= h < |t.disk.history| ensures WholeIn(t, t.disk.history[h], p, first) {
        WholeKept(s, t, s.disk.history[h], p, first);
      }
    }
  }

  lemma CrashKeepsWriters(s: State, e: Event)
    requires StepOk(s, e) && (e.Crash? || e.Persist?)
    ensures var t := Step(s, e);
      WellFormed(t.disk) && WritersInv(t) && NamesApart(t.writers) && FilesApart(t.writers) && Settled(s, t)
  {
    var t := Step(s, e);
    WellFormedKept(s, e);
    assert |t.writers| == |s.writers| && forall j :: 0 <= j < |s.writers| ==>
      t.writers[j].target == s.writers[j].target && t.writers[j].text == s.writers[j].text
      && t.writers[j].tmp == s.writers[j].tmp && t.writers[j].file == s.writers[j].file;
    forall j | 0 <= j < |t.writers| ensures WriterInv(t.writers[j], t.disk) {
      assert WriterInv(s.writers[j], s.disk);
    }
  }

  lemma CrashPreserves(s: State, e: Event, p: Path, first: Option<Text>)
    requires Inv(s, p, first) && (e.Crash? || e.Persist?) && Enabled(s, e)
    ensures Inv(Step(s, e), p, first)
  {
    var t := Step(s, e);
    CrashKeepsWriters(s, e);
    if !IsTmp(t.writers, p) {
      StillNoTmp(s, t, p);
      forall h | 0 <= h < |t.disk.history| ensures WholeIn(t, t.disk.history[h], p, first) {
        var k := h + e.n;
        assert t.disk.history[h] == s.disk.history[k];
        WholeKept(s, t, s.disk.history[k], p, first);
      }
    }
  }

  lemma StepPreserves(s: State, e: Event, p: Path, first: Option<Text>)
    requires Inv(s, p, first) && Enabled(s, e)
    ensures Inv(Step(s, e), p, first)
  {
    if ByWriter(e) { WriterPreserves(s, e, p, first); }
    else if e.Begin? { BeginPreserves(s, e, p, first); }
    else { CrashPreserves(s, e, p, first); }
  }

  lemma {:induction false} RunPreserves(s: State, es: seq<Event>, p: Path, first: Option<Text>)
    requires Inv(s, p, first) && Legal(s, es)
    ensures Inv(Run(s, es), p, first)
    decreases |es|
  {
    if es != [] {
      StepPreserves(s, es[0], p, first);
      RunPreserves(Step(s, es[0]), es[1..], p, first);
    }
  }

  // ----- the main results

  /** A disk at rest: one directory, every file on disk. */
  predicate AtRest(d: Disk) {
    |d.history| == 1 && WellFormed(d) && forall k :: 0 <= k < |d.files| ==> d.files[k].synced
  }

  /**
   After any interleaving of any number of writers, failures and crashes, a path that is nobody's temporary
   name reads as at first or as one whole text written to it; one that nobody wrote is as it was.
   */
  lemma OldOrNewWhole(d: Disk, es: seq<Event>, p: Path)
    requires AtRest(d) && Legal(State(d, []), es) && !IsTmp(Run(State(d, []), es).writers, p)
    ensures var t := Run(State(d, []), es);
      && WellFormed(t.disk)
      && (Read(t.disk, p) == Read(d, p)
          || (Read(t.disk, p).Some? && Written(t.writers, p, Read(t.disk, p).value)))
  {
    var first := Read(d, p);
    assert d.history[0] == Current(d);
    assert WholeIn(State(d, []), d.history[0], p, first);
    RunPreserves(State(d, []), es, p, first);
    var t := Run(State(d, []), es);
    assert WholeIn(t, t.disk.history[|t.disk.history| - 1], p, first);
  }

  /** Short of a crash, readers of such a path see one kind of change: the rename of a writer's finished text. */
  lemma ReadersSeeOnlyRenames(s: State, e: Event, p: Path, first: Option<Text>)
    requires Inv(s, p, first) && Enabled(s, e) && !e.Crash? && !IsTmp(s.writers, p) && (e.Begin? ==> e.tmp != p)
    ensures WellFormed(Step(s, e).disk)
    ensures Read(Step(s, e).disk, p) ==
            if e.RenameRuns? && s.writers[e.i].target == p then Some(s.writers[e.i].text) else Read(s.disk, p)
  {
    StepPreserves(s, e, p, first);
    if ByWriter(e) {
      WriterSettles(s, e);
      var w := s.writers[e.i];
      assert WriterInv(w, s.disk) && w.tmp != p;
      assert WholeIn(s, s.disk.history[|s.disk.history| - 1], p, first);
    }
  }

  /** A crash takes such a path back to an earlier moment: it reads what that directory named all along. */
  lemma CrashRewinds(s: State, n: nat, torn: seq<Text>, p: Path, first: Option<Text>)
    requires Inv(s, p, first) && Enabled(s, Crash(n, torn)) && !IsTmp(s.writers, p)
    ensures var t := Step(s, Crash(n, torn));
      WellFormed(t.disk) && Read(t.disk, p) == Read(s.disk.(history := s.disk.history[..n + 1]), p)
  {
    assert WholeIn(s, s.disk.history[n], p, first);
    assert s.disk.history[..n + 1][n] == s.disk.history[n];
  }

  lemma {:induction false} LegalPrefix(s: State, es: seq<Event>, k: nat)
    requires Legal(s, es) && k <= |es|
    ensures Legal(s, es[..k])
    decreases |es|
  {
    if k > 0 {
      LegalPrefix(Step(s, es[0]), es[1..], k - 1);
      assert es[..k][1..] == es[1..][..k - 1];
    }
  }

  /** A crash at any point of any run, whatever directory the disk had reached and whatever unsynced files become. */
  lemma CrashAnywhere(d: Disk, es: seq<Event>, k: nat, n: nat, torn: seq<Text>, p: Path)
    requires AtRest(d) && Legal(State(d, []), es) && k <= |es| && Legal(State(d, []), es[..k])
    requires var s := Run(State(d, []), es[..k]);
      s.disk.history != [] && Enabled(s, Crash(n, torn)) && !IsTmp(s.writers, p)
    ensures var s := Run(State(d, []), es[..k]); var t := Crashed(s.disk, n, torn);
      && WellFormed(t)
      && (Read(t, p) == Read(d, p) || (Read(t, p).Some? && Written(s.writers, p, Read(t, p).value)))
  {
    var s := Run(State(d, []), es[..k]);
    var e := Crash(n, torn);
    RunSnoc(State(d, []), es[..k], e);
    var t := Step(s, e);
    forall j | 0 <= j < |t.writers| ensures t.writers[j].tmp != p {
      assert t.writers[j].tmp == s.writers[j].tmp;
    }
    OldOrNewWhole(d, es[..k] + [e], p);
    if Read(t.disk, p).Some? && Written(t.writers, p, Read(t.disk, p).value) {
      var j :| 0 <= j < |t.writers| && t.writers[j].target == p && t.writers[j].text == Read(t.disk, p).value;
      assert s.writers[j].target == p && s.writers[j].text == Read(t.disk, p).value;
    }
  }

  /** Nothing syncs the directory: a crash just after the rename can still bring the earlier text back. */
  lemma RenameCanBeUndone(s: State, e: Event, torn: seq<Text>, p: Path, first: Option<Text>)
    requires Inv(s, p, first) && Enabled(s, e) && e.RenameRuns? && s.writers[e.i].target == p
    requires |torn| == |s.disk.files|
    ensures var t := Step(s, e); var crash := Crash(|t.disk.history| - 2, torn);
      && Enabled(t, crash) && WellFormed(t.disk) && WellFormed(Step(t, crash).disk)
      && Read(t.disk, p) == Some(s.writers[e.i].text)
      && Read(Step(t, crash).disk, p) == Read(s.disk, p)
  {
    forall j | 0 <= j < |s.writers| ensures s.writers[j].tmp != p {
      assert s.writers[e.i].target != s.writers[j].tmp;
    }
    ReadersSeeOnlyRenames(s, e, p, first);
    StepPreserves(s, e, p, first);
    var t := Step(s, e);
    forall j | 0 <= j < |t.writers| ensures t.writers[j].tmp != p {
      assert t.writers[j].tmp == s.writers[j].tmp;
    }
    var n := |t.disk.history| - 2;
    assert t.disk.history[..n + 1] == s.disk.history;
    assert WholeIn(s, Current(s.disk), p, first);
    CrashRewinds(t, n, torn, p, first);
  }

  // ----- the program

  lemma {:induction false} RunSnoc(s: State, es: seq<Event>, e: Event)
    requires Legal(s, es) && Run(s, es).disk.history != [] && Enabled(Run(s, es), e)
    ensures Legal(s, es + [e]) && Run(s, es + [e]) == Step(Run(s, es), e)
    decreases |es|
  {
    if es == [] {
      assert es + [e] == [e] && [e][1..] == [];
    } else {
      RunSnoc(Step(s, es[0]), es[1..], e);
      assert (es + [e])[1..] == es[1..] + [e];
    }
  }

  predicate AloneEnabled(w: Writer, d: Disk, e: Event) {
    && d.history != [] && ByWriter(e) && e.i == 0
    && (w.file.Some? ==> w.file.value < |d.files|)
    && (e.WriteSome? || e.WriteSettles? || e.SyncSettles? ==> w.file.Some?)
    && WriterEnabled(w, d, e)
  }

  /** What one more event of a lone writer makes of it and of the disk. */
  lemma Alone(s: State, es: seq<Event>, e: Event, w: Writer, d: Disk)
    requires Legal(s, es) && Run(s, es) == State(d, [w]) && AloneEnabled(w, d, e)
    ensures Legal(s, es + [e]) && Run(s, es + [e]) == State(DiskStep(w, d, e), [WriterStep(w, d, e)])
  {
    RunSnoc(s, es, e);
  }

  datatype Failure = MkdirFailed | OpenFailed | WriteFailed | SyncFailed | CloseFailed | RenameFailed

  /** How the calls turn out; `part` is what a failed write left, `Runs` whether the file system acted. */
  datatype Replies = Replies(
    mkdirOk: bool, openOk: bool, writeOk: bool, part: Text, syncOk: bool, closeOk: bool,
    renameRuns: bool, renameOk: bool, unlinkRuns: bool)

  /** The error that is left: the first one, but that a failed close takes the place of a failed write or sync. */
  function ThrownBy(r: Replies): Option<Failure> {
    if !r.mkdirOk then Some(MkdirFailed)
    else if !r.openOk then Some(OpenFailed)
    else if !r.closeOk then Some(CloseFailed)
    else if !r.writeOk then Some(WriteFailed)
    else if !r.syncOk then Some(SyncFailed)
    else if !r.renameOk then Some(RenameFailed)
    else None
  }

  lemma NoneThrownIff(r: Replies)
    ensures ThrownBy(r).None? <==> r.mkdirOk && r.openOk && r.writeOk && r.syncOk && r.closeOk && r.renameOk
  {}

  /** The rename is reached, and runs. */
  predicate Renames(r: Replies) {
    r.openOk && r.writeOk && r.syncOk && r.closeOk && r.renameRuns
  }

  /** Readers of any other path find what they found before. */
  ghost predicate SameElsewhere(d: Disk, next: Disk, a: Path, b: Path) {
    WellFormed(d) && WellFormed(next) && forall q :: q != a && q != b ==> Read(next, q) == Read(d, q)
  }

  /** In the current directory no other name has this file. */
  ghost predicate OnlyName(d: Disk, tmp: Path, file: nat) {
    && d.history != [] && tmp in Current(d) && Current(d)[tmp] == file
    && forall q :: q in Current(d) && q != tmp ==> Current(d)[q] != file
  }

  lemma AcrossThen(d: Disk, next: Disk, last: Disk, a: Path, b: Path)
    requires SameElsewhere(d, next, a, b) && SameElsewhere(next, last, b, b)
    ensures SameElsewhere(d, last, a, b)
    ensures a != b ==> Read(last, a) == Read(next, a)
  {}

  lemma Begun(d: Disk, target: Path, tmp: Path, text: Text)
    requires WellFormed(d) && target != tmp
    ensures Legal(State(d, []), [Begin(target, tmp, text)])
    ensures Run(State(d, []), [Begin(target, tmp, text)])
         == State(d, [Writer(target, tmp, text, Opening, None, false, false)])
  {
    RunSnoc(State(d, []), [], Begin(target, tmp, text));
    assert [] + [Begin(target, tmp, text)] == [Begin(target, tmp, text)];
  }

  lemma SameAcross(d: Disk, next: Disk, last: Disk, a: Path, b: Path)
    requires SameElsewhere(d, next, b, b) && SameElsewhere(next, last, a, b)
    ensures SameElsewhere(d, last, a, b)
    ensures a != b ==> Read(next, a) == Read(d, a)
  {}

  // ----- what happens in a call with these replies

  function WriteEvents(r: Replies): seq<Event> {
    if r.writeOk then [WriteSettles(0, true), SyncSettles(0, r.syncOk)]
    else [WriteSome(0, r.part), WriteSettles(0, false)]
  }

  function FillEvents(r: Replies): seq<Event> {
    WriteEvents(r) + [CloseSettles(0, r.closeOk)]
  }

  function RenameEvents(r: Replies): seq<Event> {
    (if r.renameRuns then [RenameRuns(0)] else []) + [RenameSettles(0, r.renameOk)]
  }

  /** Whatever was opened is closed, and only a whole and synced file is renamed. */
  function InstallEvents(r: Replies): seq<Event> {
    [OpenSettles(0, r.openOk)] + if r.openOk then PublishEvents(r) else []
  }

  function PublishEvents(r: Replies): seq<Event> {
    FillEvents(r) + if r.writeOk && r.syncOk && r.closeOk then RenameEvents(r) else []
  }

  function CleanUpEvents(runs: bool): seq<Event> {
    (if runs then [UnlinkRuns(0)] else []) + [UnlinkSettles(0)]
  }

  /** The temporary name is there after the guarded part: it was taken before, or this call has not renamed it. */
  predicate TmpLeft(r: Replies, taken: bool) {
    if r.openOk then !Renames(r) else taken
  }

  function CallEvents(target: Path, tmp: Path, text: Text, r: Replies, taken: bool): seq<Event> {
    if !r.mkdirOk then []
    else [Begin(target, tmp, text)] + InstallEvents(r)
         + (if ThrownBy(r).Some? then CleanUpEvents(r.unlinkRuns && TmpLeft(r, taken)) else [])
  }

  predicate Possible(d: Disk, tmp: Path, r: Replies) {
    WellFormed(d) && (r.openOk ==> tmp !in Current(d)) && (r.renameOk ==> r.renameRuns)
  }

  class Store {
    var disk: Disk

    /** The inner `try`: write, sync, and close whatever happened. */
    method Fill(ghost s: State, ghost tmp: Path, text: Text, r: Replies, file: nat,
                ghost es0: seq<Event>, ghost w0: Writer)
      returns (thrown: Option<Failure>, ghost es: seq<Event>, ghost w: Writer)
      requires WellFormed(disk) && file < |disk.files| && OnlyName(disk, tmp, file)
      requires Legal(s, es0) && Run(s, es0) == State(disk, [w0])
      requires w0.phase.Writing? && w0.file == Some(file) && w0.text == text && !w0.failed && !w0.renamed
      modifies this
      ensures Legal(s, es) && Run(s, es) == State(disk, [w])
      ensures w == w0.(phase := if thrown.None? then Renaming else Unlinking, failed := thrown.Some?)
      ensures disk.history == old(disk).history && |disk.files| == |old(disk).files|
      ensures thrown.None? ==> disk.files[file] == File(text, true)
      ensures thrown == if !r.closeOk then Some(CloseFailed) else if !r.writeOk then Some(WriteFailed)
                        else if !r.syncOk then Some(SyncFailed) else None
      ensures es == es0 + FillEvents(r)
      ensures SameElsewhere(old(disk), disk, tmp, tmp) && OnlyName(disk, tmp, file)
    {
      thrown, es, w := WriteAndSync(s, tmp, text, r, file, es0, w0);
      ghost var e := CloseSettles(0, r.closeOk);
      Alone(s, es, e, w, disk);
      es, w := es + [e], WriterStep(w, disk, e);
      if !r.closeOk {
        thrown := Some(CloseFailed);
      }
    }

    /** Inside the inner `try`. */
    method WriteAndSync(ghost s: State, ghost tmp: Path, text: Text, r: Replies, file: nat,
                        ghost es0: seq<Event>, ghost w0: Writer)
      returns (thrown: Option<Failure>, ghost es: seq<Event>, ghost w: Writer)
      requires WellFormed(disk) && file < |disk.files| && OnlyName(disk, tmp, file)
      requires Legal(s, es0) && Run(s, es0) == State(disk, [w0])
      requires w0.phase.Writing? && w0.file == Some(file) && w0.text == text && !w0.failed && !w0.renamed
      modifies this
      ensures Legal(s, es) && Run(s, es) == State(disk, [w])
      ensures w == w0.(phase := Closing, failed := thrown.Some?)
      ensures disk.history == old(disk).history && |disk.files| == |old(disk).files|
      ensures thrown.None? ==> disk.files[file] == File(text, true)
      ensures thrown == if !r.writeOk then Some(WriteFailed) else if !r.syncOk then Some(SyncFailed) else None
      ensures es == es0 + WriteEvents(r)
      ensures SameElsewhere(old(disk), disk, tmp, tmp) && OnlyName(disk, tmp, file)
    {
      es, w, thrown := es0, w0, None;
      ghost var e: Event;
      if r.writeOk {
        e := WriteSettles(0, true);
        Alone(s, es, e, w, disk);
        es, w := es + [e], WriterStep(w, disk, e);
        disk := disk.(files := disk.files[file := File(text, false)]);
        e := SyncSettles(0, r.syncOk);
        Alone(s, es, e, w, disk);
        es, w := es + [e], WriterStep(w, disk, e);
        if r.syncOk {
          disk := disk.(files := disk.files[file := disk.files[file].(synced := true)]);
        } else {
          thrown := Some(SyncFailed);
        }
      } else {
        e := WriteSome(0, r.part);
        Alone(s, es, e, w, disk);
        es, w := es + [e], WriterStep(w, disk, e);
        disk := disk.(files := disk.files[file := File(r.part, false)]);
        e := WriteSettles(0, false);
        Alone(s, es, e, w, disk);
        es, w := es + [e], WriterStep(w, disk, e);
        thrown := Some(WriteFailed);
      }
    }

    method RenameOver(ghost s: State, target: Path, tmp: Path, r: Replies, ghost file: nat,
                      ghost es0: seq<Event>, ghost w0: Writer)
      returns (thrown: Option<Failure>, ghost es: seq<Event>, ghost w: Writer)
      requires WellFormed(disk) && tmp in Current(disk) && Current(disk)[tmp] == file && tmp != target
      requires w0.target == target && w0.tmp == tmp && file < |disk.files| && disk.files[file].text == w0.text
      requires Legal(s, es0) && Run(s, es0) == State(disk, [w0])
      requires w0.phase.Renaming? && w0.file == Some(file) && !w0.renamed && (r.renameOk ==> r.renameRuns)
      modifies this
      ensures Legal(s, es) && Run(s, es) == State(disk, [w]) && WellFormed(disk)
      ensures w.target == target && w.tmp == tmp && w.file == w0.file
      ensures w.phase == (if thrown.None? then Done else Unlinking) && (thrown.None? || thrown == Some(RenameFailed))
      ensures (thrown.None? <==> r.renameOk) && |disk.files| == |old(disk).files|
      ensures es == es0 + RenameEvents(r)
      ensures r.renameRuns ==> Read(disk, target) == Some(w0.text) && tmp !in Current(disk)
      ensures !r.renameRuns ==> disk == old(disk)
      ensures SameElsewhere(old(disk), disk, target, tmp)
    {
      es, w, thrown := es0, w0, None;
      ghost var e: Event;
      if r.renameRuns {
        e := RenameRuns(0);
        Alone(s, es, e, w, disk);
        es, w := es + [e], WriterStep(w, disk, e);
        disk := Entered(disk, Current(disk)[target := Current(disk)[tmp]] - {tmp});
      }
      e := RenameSettles(0, r.renameOk);
      Alone(s, es, e, w, disk);
      es, w := es + [e], WriterStep(w, disk, e);
      if !r.renameOk { thrown := Some(RenameFailed); }
    }

    /** The handler: the temporary name goes, if the file system lets it. */
    method CleanUp(ghost s: State, tmp: Path, r: Replies, ghost es0: seq<Event>, ghost w0: Writer)
      returns (ghost es: seq<Event>)
      requires WellFormed(disk) && Legal(s, es0) && Run(s, es0) == State(disk, [w0])
      requires w0.tmp == tmp && w0.phase.Unlinking? && (w0.file.Some? ==> w0.file.value < |disk.files|)
      modifies this
      ensures Legal(s, es) && disk == Run(s, es).disk && WellFormed(disk)
      ensures r.unlinkRuns ==> tmp !in Current(disk)
      ensures !r.unlinkRuns ==> disk == old(disk)
      ensures es == es0 + CleanUpEvents(r.unlinkRuns && tmp in Current(old(disk)))
      ensures SameElsewhere(old(disk), disk, tmp, tmp)
    {
      es := es0;
      ghost var w, e := w0, UnlinkRuns(0);
      if r.unlinkRuns && tmp in Current(disk) {
        Alone(s, es, e, w, disk);
        es, w := es + [e], WriterStep(w, disk, e);
        disk := Entered(disk, Current(disk) - {tmp});
      }
      e := UnlinkSettles(0);
      Alone(s, es, e, w, disk);
      es := es + [e];
    }

    /** The exclusive creation succeeds. */
    method Create(ghost s: State, tmp: Path, ghost es0: seq<Event>, ghost w0: Writer)
      returns (file: nat, ghost es: seq<Event>, ghost w: Writer)
      requires WellFormed(disk) && tmp !in Current(disk)
      requires Legal(s, es0) && Run(s, es0) == State(disk, [w0])
      requires w0.phase.Opening? && w0.tmp == tmp && w0.file.None?
      modifies this
      ensures Legal(s, es) && Run(s, es) == State(disk, [w]) && WellFormed(disk)
      ensures w == w0.(phase := Writing, file := Some(file)) && file < |disk.files|
      ensures es == es0 + [OpenSettles(0, true)]
      ensures OnlyName(disk, tmp, file) && SameElsewhere(old(disk), disk, tmp, tmp)
    {
      ghost var e := OpenSettles(0, true);
      Alone(s, es0, e, w0, disk);
      es, w := es0 + [e], WriterStep(w0, disk, e);
      file := |disk.files|;
      disk := Entered(disk, Current(disk)[tmp := file]).(files := disk.files + [File("", false)]);
    }

    /** The guarded part: create the temporary file, fill it, and rename it over the target. */
    method Install(ghost s: State, target: Path, tmp: Path, text: Text, r: Replies,
                   ghost es0: seq<Event>, ghost w0: Writer)
      returns (thrown: Option<Failure>, ghost es: seq<Event>, ghost w: Writer)
      requires target != tmp && Possible(disk, tmp, r)
      requires Legal(s, es0) && Run(s, es0) == State(disk, [w0])
      requires w0 == Writer(target, tmp, text, Opening, None, false, false)
      modifies this
      ensures Legal(s, es) && Run(s, es) == State(disk, [w]) && WellFormed(disk)
      ensures w.tmp == tmp && (w.file.Some? ==> w.file.value < |disk.files|)
      ensures w.phase == (if thrown.None? then Done else Unlinking)
      ensures thrown == ThrownBy(r.(mkdirOk := true)) && es == es0 + InstallEvents(r)
      ensures Read(disk, target) == if Renames(r) then Some(text) else Read(old(disk), target)
      ensures tmp in Current(disk) <==> TmpLeft(r, tmp in Current(old(disk)))
      ensures SameElsewhere(old(disk), disk, target, tmp)
    {
      ghost var before := disk;
      if !r.openOk {
        ghost var e := OpenSettles(0, false);
        Alone(s, es0, e, w0, disk);
        return Some(OpenFailed), es0 + [e], WriterStep(w0, disk, e);
      }
      var file: nat;
      file, es, w := Create(s, tmp, es0, w0);
      ghost var created := disk;
      thrown, es, w := Publish(s, target, tmp, text, r, file, es, w);
      SameAcross(before, created, disk, target, tmp);
    }

    /** With the handle in hand: fill the file, and rename it if that went well. */
    method Publish(ghost s: State, target: Path, tmp: Path, text: Text, r: Replies, file: nat,
                   ghost es0: seq<Event>, ghost w0: Writer)
      returns (thrown: Option<Failure>, ghost es: seq<Event>, ghost w: Writer)
      requires target != tmp && (r.renameOk ==> r.renameRuns) && r.openOk
      requires WellFormed(disk) && file < |disk.files| && OnlyName(disk, tmp, file)
      requires Legal(s, es0) && Run(s, es0) == State(disk, [w0])
      requires w0 == Writer(target, tmp, text, Writing, Some(file), false, false)
      modifies this
      ensures Legal(s, es) && Run(s, es) == State(disk, [w]) && WellFormed(disk)
      ensures w.tmp == tmp && (w.file.Some? ==> w.file.value < |disk.files|)
      ensures w.phase == (if thrown.None? then Done else Unlinking)
      ensures thrown == ThrownBy(r.(mkdirOk := true)) && es == es0 + PublishEvents(r)
      ensures Read(disk, target) == if Renames(r) then Some(text) else Read(old(disk), target)
      ensures tmp in Current(disk) <==> !Renames(r)
      ensures SameElsewhere(old(disk), disk, target, tmp)
    {
      ghost var before := disk;
      thrown, es, w := Fill(s, tmp, text, r, file, es0, w0);
      ghost var filled := disk;
      if thrown.None? {
        thrown, es, w := RenameOver(s, target, tmp, r, file, es, w);
        SameAcross(before, filled, disk, target, tmp);
      }
    }

    /**
     `writeProtectedFile`, as the run of one writer. The temporary name is cleaned up after every failure,
     even where it was taken before and the exclusive creation is what failed.
     */
    method WriteProtectedFile(target: Path, tmp: Path, text: Text, r: Replies)
      returns (thrown: Option<Failure>, ghost es: seq<Event>)
      requires target != tmp && Possible(disk, tmp, r)
      modifies this
      ensures Legal(State(old(disk), []), es) && disk == Run(State(old(disk), []), es).disk && WellFormed(disk)
      ensures thrown == ThrownBy(r) && es == CallEvents(target, tmp, text, r, tmp in Current(old(disk)))
      ensures Read(disk, target) == if r.mkdirOk && Renames(r) then Some(text) else Read(old(disk), target)
      ensures thrown.None? ==> Read(disk, target) == Some(text) && tmp !in Current(disk)
      ensures !r.mkdirOk ==> disk == old(disk)
      ensures thrown.Some? && r.mkdirOk ==>
                (tmp in Current(disk) <==> !r.unlinkRuns && TmpLeft(r, tmp in Current(old(disk))))
      ensures SameElsewhere(old(disk), disk, target, tmp)
    {
      es := [];
      if !r.mkdirOk { return Some(MkdirFailed), es; }
      ghost var s, w := State(disk, []), Writer(target, tmp, text, Opening, None, false, false);
      ghost var before := disk;
      es := [Begin(target, tmp, text)];
      Begun(disk, target, tmp, text);
      thrown, es, w := Install(s, target, tmp, text, r, es, w);
      if thrown.Some? {
        ghost var left := disk;
        es := CleanUp(s, tmp, r, es, w);
        AcrossThen(before, left, disk, target, tmp);
      }
    }
  }
}
