/**
 `replaceExecutable`: a new binary takes the place of the running one. Each removal or rename is one atomic
 change of the directory, which may take effect and still report an error; a crash leaves the directory as
 one of the changes made it.
 */
module ExecutableSwap {
  type Path = string
  type Binary = string
  type Directory = map<Path, Binary>

  const OLD_SUFFIX := ".old"

  /** Whether a change took effect, and what was reported. */
  datatype Reply = Reply(runs: bool, ok: bool)

  datatype Replies = Replies(removes: bool, aside: Reply, install: Reply, restore: Reply)

  datatype Outcome =
    | Installed
    | RenameFailed      // off Windows, the error as it came
    | NotMovedAside
    | Restored          // not installed, and the previous executable is said to be back
    | RestoreFailed

  function OldPath(exec: Path): (p: Path)
    ensures p != exec
  {
    exec + OLD_SUFFIX
  }

  /** A rename that runs; of a missing source none does. */
  function Renamed(d: Directory, from: Path, to: Path): Directory
    requires from != to
  {
    if from in d then d[to := d[from]] - {from} else d
  }

  function Tried(d: Directory, from: Path, to: Path, r: Reply): Directory
    requires from != to
  {
    if r.runs then Renamed(d, from, to) else d
  }

  /** A reply can only report success of a rename that took effect. */
  predicate Honest(d: Directory, from: Path, r: Reply) {
    (r.ok ==> r.runs) && (r.runs ==> from in d)
  }

  datatype Names = Names(exec: Path, staged: Path)

  predicate Distinct(n: Names) {
    n.staged != n.exec && n.staged != OldPath(n.exec)
  }

  /** Every directory the swap goes through, and what it reports. */
  function Trail(d: Directory, windows: bool, n: Names, r: Replies): (seq<Directory>, Outcome)
    requires Distinct(n)
  {
    if !windows then ([d, Tried(d, n.staged, n.exec, r.install)], if r.install.ok then Installed else RenameFailed)
    else
      var d1 := if r.removes then d - {OldPath(n.exec)} else d;
      var d2 := Tried(d1, n.exec, OldPath(n.exec), r.aside);
      var d3 := Tried(d2, n.staged, n.exec, r.install);
      var d4 := Tried(d3, OldPath(n.exec), n.exec, r.restore);
      if !r.aside.ok then ([d, d1, d2], NotMovedAside)
      else if r.install.ok then ([d, d1, d2, d3], Installed)
      else ([d, d1, d2, d3, d4], if r.restore.ok then Restored else RestoreFailed)
  }

  /** The replies that can be met on the way. */
  predicate Possible(d: Directory, windows: bool, n: Names, r: Replies)
    requires Distinct(n)
  {
    if !windows then Honest(d, n.staged, r.install)
    else
      var d1 := if r.removes then d - {OldPath(n.exec)} else d;
      var d2 := Tried(d1, n.exec, OldPath(n.exec), r.aside);
      var d3 := Tried(d2, n.staged, n.exec, r.install);
      Honest(d1, n.exec, r.aside) && Honest(d2, n.staged, r.install) && Honest(d3, OldPath(n.exec), r.restore)
  }

  function Final(d: Directory, windows: bool, n: Names, r: Replies): Directory
    requires Distinct(n)
  {
    var t := Trail(d, windows, n, r).0;
    t[|t| - 1]
  }

  /** Somebody can still start the program: a whole binary, old or new, is in one of the two places. */
  predicate Recoverable(d: Directory, exec: Path, was: Binary, staged: Binary) {
    (exec in d && d[exec] in {was, staged}) || (exec + ".old" in d && d[exec + ".old"] == was)
  }

  /** What is reported, by the replies. */
  lemma OutcomeIff(d: Directory, windows: bool, n: Names, r: Replies)
    requires Distinct(n)
    ensures var o := Trail(d, windows, n, r).1;
      && (o == Installed <==> r.install.ok && (windows ==> r.aside.ok))
      && (o == RenameFailed <==> !windows && !r.install.ok)
      && (o == NotMovedAside <==> windows && !r.aside.ok)
      && (o == Restored <==> windows && r.aside.ok && !r.install.ok && r.restore.ok)
      && (o == RestoreFailed <==> windows && r.aside.ok && !r.install.ok && !r.restore.ok)
  {}

  /** At every point of the swap, and so wherever a crash stops it. */
  lemma AlwaysRecoverable(d: Directory, windows: bool, n: Names, r: Replies, k: nat)
    requires Distinct(n) && n.exec in d && n.staged in d && Possible(d, windows, n, r)
    requires k < |Trail(d, windows, n, r).0|
    ensures Recoverable(Trail(d, windows, n, r).0[k], n.exec, d[n.exec], d[n.staged])
  {
    if windows { RecoverableOnWindows(d, n, r, k); }
  }

  lemma RecoverableOnWindows(d: Directory, n: Names, r: Replies, k: nat)
    requires Distinct(n) && n.exec in d && n.staged in d && Possible(d, true, n, r)
    requires k < |Trail(d, true, n, r).0|
    ensures Recoverable(Trail(d, true, n, r).0[k], n.exec, d[n.exec], d[n.staged])
  {
    var was, staged, old_ := d[n.exec], d[n.staged], OldPath(n.exec);
    var d1 := if r.removes then d - {old_} else d;
    assert n.exec in d1 && d1[n.exec] == was && n.staged in d1 && d1[n.staged] == staged;
    var d2 := Tried(d1, n.exec, old_, r.aside);
    assert n.staged in d2 && d2[n.staged] == staged;
    assert Recoverable(d2, n.exec, was, staged);
    var d3 := Tried(d2, n.staged, n.exec, r.install);
    assert Recoverable(d3, n.exec, was, staged);
    if r.aside.ok {
      assert old_ in d3 && d3[old_] == was;
      assert Recoverable(Tried(d3, old_, n.exec, r.restore), n.exec, was, staged);
    }
  }

  /** What each report says of the executable and of the binary meant to replace it. */
  lemma ReportIsTrue(d: Directory, windows: bool, n: Names, r: Replies)
    requires Distinct(n) && n.exec in d && n.staged in d && Possible(d, windows, n, r)
    ensures var t := Final(d, windows, n, r);
      match Trail(d, windows, n, r).1
      case Installed => n.exec in t && t[n.exec] == d[n.staged] && n.staged !in t
                        && (windows ==> n.exec + ".old" in t && t[n.exec + ".old"] == d[n.exec])
      case RenameFailed => n.exec in t && t[n.exec] == (if r.install.runs then d[n.staged] else d[n.exec])
      case NotMovedAside => n.staged in t && (r.removes && !r.aside.runs ==> n.exec + ".old" !in t)
                            && (!r.aside.runs ==> n.exec in t && t[n.exec] == d[n.exec])
      case Restored => n.exec in t && t[n.exec] == d[n.exec] && n.exec + ".old" !in t
      case RestoreFailed => !r.restore.runs ==> n.exec + ".old" in t && t[n.exec + ".old"] == d[n.exec]
  {}

  /** Files the swap does not name stay as they were, throughout. */
  lemma OthersUntouched(d: Directory, windows: bool, n: Names, r: Replies, k: nat, q: Path)
    requires Distinct(n) && k < |Trail(d, windows, n, r).0| && q !in {n.exec, n.staged, n.exec + ".old"}
    ensures q in Trail(d, windows, n, r).0[k] <==> q in d
    ensures q in d ==> Trail(d, windows, n, r).0[k][q] == d[q]
  {}

  /**
   The swap ends with nothing at the executable's path exactly on Windows, when the move aside took effect
   but was reported as failed, or when neither the installation nor the restoration took effect.
   */
  lemma NothingToStartIff(d: Directory, windows: bool, n: Names, r: Replies)
    requires Distinct(n) && n.exec in d && n.staged in d && Possible(d, windows, n, r)
    ensures n.exec !in Final(d, windows, n, r) <==>
            windows && r.aside.runs && (!r.aside.ok || (!r.install.runs && !r.restore.runs))
  {}

  class Disk {
    var files: Directory

    method Rename(from: Path, to: Path, r: Reply) returns (ok: bool)
      requires from != to
      modifies this
      ensures files == Tried(old(files), from, to, r) && ok == r.ok
    {
      if r.runs && from in files {
        files := files[to := files[from]] - {from};
      }
      ok := r.ok;
    }

    method ReplaceExecutable(windows: bool, newBinaryPath: Path, execPath: Path, r: Replies)
      returns (o: Outcome, ghost trail: seq<Directory>)
      requires Distinct(Names(execPath, newBinaryPath))
      modifies this
      ensures trail == Trail(old(files), windows, Names(execPath, newBinaryPath), r).0
      ensures o == Trail(old(files), windows, Names(execPath, newBinaryPath), r).1
      ensures files == Final(old(files), windows, Names(execPath, newBinaryPath), r)
    {
      trail := [files];
      var ok: bool;
      if !windows {
        ok := Rename(newBinaryPath, execPath, r.install);
        trail := trail + [files];
        return if ok then Installed else RenameFailed, trail;
      }
      var oldPath := execPath + OLD_SUFFIX;
      if r.removes {
        files := files - {oldPath};
      }
      trail := trail + [files];
      ok := Rename(execPath, oldPath, r.aside);
      trail := trail + [files];
      if !ok { return NotMovedAside, trail; }
      ok := Rename(newBinaryPath, execPath, r.install);
      trail := trail + [files];
      if ok { return Installed, trail; }
      ok := Rename(oldPath, execPath, r.restore);
      trail := trail + [files];
      o := if ok then Restored else RestoreFailed;
    }
  }
}
