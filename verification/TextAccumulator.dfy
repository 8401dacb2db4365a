/**
 The text of an A2A response, accumulated from its stream events: one entry for each artifact and
 message, overwritten by snapshots and extended by appending updates.
 */
module TextAccumulator {
  import opened Options
  import opened OrderedMap
  import Splitting

  datatype Part = Text(text: string) | Other

  datatype Artifact = Artifact(artifactId: string, parts: seq<Part>)

  datatype Message = Message(messageId: string, parts: seq<Part>)

  datatype TaskState = InputRequired | AuthRequired | Running

  datatype Status = Status(state: TaskState, message: Option<Message>)

  datatype Event =
    | ArtifactUpdate(taskId: string, artifact: Artifact, append: bool)
    | TaskSnapshot(id: string, artifacts: seq<Artifact>, status: Status)
    | MessageEvent(message: Message)
    | StatusUpdate(status: Status)

  /** The JSON text of a key array stands for the array itself. */
  datatype Key = ArtifactKey(taskId: string, artifactId: string) | MessageKey(messageId: string)

  /** One assignment to an entry. */
  datatype Write = Write(key: Key, text: string, append: bool)

  function TextOf(parts: seq<Part>): string {
    if parts == [] then "" else (if parts[0].Text? then parts[0].text else "") + TextOf(parts[1..])
  }

  function MessageWrite(m: Message): Write {
    Write(MessageKey(m.messageId), TextOf(m.parts), false)
  }

  function SnapshotWrites(task: string, artifacts: seq<Artifact>): seq<Write> {
    if artifacts == [] then []
    else [Write(ArtifactKey(task, artifacts[0].artifactId), TextOf(artifacts[0].parts), false)]
         + SnapshotWrites(task, artifacts[1..])
  }

  /** A status asks the user for something only in these two states. */
  function StatusWrites(status: Status): seq<Write> {
    if !status.state.Running? && status.message.Some? then [MessageWrite(status.message.value)] else []
  }

  function WritesOf(e: Event): seq<Write> {
    match e
    case ArtifactUpdate(task, artifact, append) =>
      [Write(ArtifactKey(task, artifact.artifactId), TextOf(artifact.parts), append)]
    case TaskSnapshot(id, artifacts, status) => SnapshotWrites(id, artifacts) + StatusWrites(status)
    case MessageEvent(message) => [MessageWrite(message)]
    case StatusUpdate(status) => StatusWrites(status)
  }

  function LogOf(events: seq<Event>): seq<Write> {
    if events == [] then [] else LogOf(events[..|events| - 1]) + WritesOf(events[|events| - 1])
  }

  // ----- what an event writes

  /** The text of parts put together is that of each, and only text parts have any. */
  lemma {:induction false} TextOfParts(a: seq<Part>, b: seq<Part>)
    ensures TextOf(a + b) == TextOf(a) + TextOf(b)
    ensures |a| == 1 ==> TextOf(a) == match a[0] case Text(text) => text case Other => ""
    decreases |a|
  {
    if a == [] {
      assert a + b == b;
    } else {
      assert (a + b)[1..] == a[1..] + b;
      TextOfParts(a[1..], b);
      Splitting.Assoc(if a[0].Text? then a[0].text else "", TextOf(a[1..]), TextOf(b));
      assert |a| == 1 ==> a[1..] == [];
    }
  }

  /** Snapshots of a task overwrite each of its artifacts, in order, and nothing else. */
  lemma {:induction false} SnapshotWritesEach(task: string, artifacts: seq<Artifact>, i: nat)
    ensures |SnapshotWrites(task, artifacts)| == |artifacts|
    ensures i < |artifacts| ==>
      SnapshotWrites(task, artifacts)[i]
      == Write(ArtifactKey(task, artifacts[i].artifactId), TextOf(artifacts[i].parts), false)
  {
    if artifacts != [] { SnapshotWritesEach(task, artifacts[1..], if i == 0 then 0 else i - 1); }
  }

  /** Only a status that asks for input or authorisation, with a message, writes: that message, over its own entry. */
  lemma StatusWritesIff(status: Status)
    ensures StatusWrites(status) ==
      if (status.state == InputRequired || status.state == AuthRequired) && status.message.Some? then
        [Write(MessageKey(status.message.value.messageId), TextOf(status.message.value.parts), false)]
      else []
  {}

  /** What each kind of event writes: an update its artifact, appending or not, a message its own entry. */
  lemma EventWrites(e: Event)
    ensures match e
      case ArtifactUpdate(task, artifact, append) =>
        WritesOf(e) == [Write(ArtifactKey(task, artifact.artifactId), TextOf(artifact.parts), append)]
      case TaskSnapshot(id, artifacts, status) =>
        WritesOf(e) == SnapshotWrites(id, artifacts) + StatusWrites(status)
      case MessageEvent(m) => WritesOf(e) == [Write(MessageKey(m.messageId), TextOf(m.parts), false)]
      case StatusUpdate(status) => WritesOf(e) == StatusWrites(status)
  {}

  // ----- what the accumulator does

  function Written(m: Entries<Key, string>, w: Write): Entries<Key, string> {
    var before := Get(m, w.key);
    Put(m, w.key, if w.append then (if before.Some? then before.value else "") + w.text else w.text)
  }

  function AllWritten(m: Entries<Key, string>, log: seq<Write>): Entries<Key, string>
    decreases |log|
  {
    if log == [] then m else AllWritten(Written(m, log[0]), log[1..])
  }

  function NonEmpty(texts: seq<string>): seq<string> {
    if texts == [] then []
    else (if texts[0] == "" then [] else [texts[0]]) + NonEmpty(texts[1..])
  }

  function WholeText(m: Entries<Key, string>): string {
    Splitting.Join(NonEmpty(Values(m)))
  }

  // ----- what a log of writes means

  /** Where the text of a key starts: at its last write that is no append, or at the beginning. */
  function StartOf(log: seq<Write>, key: Key): (n: nat)
    ensures n <= |log|
  {
    if log == [] then 0
    else if log[|log| - 1].key == key && !log[|log| - 1].append then |log| - 1
    else StartOf(log[..|log| - 1], key)
  }

  /** The texts written to a key, one after the other. */
  function TextsTo(log: seq<Write>, key: Key): string {
    if log == [] then ""
    else (if log[0].key == key then log[0].text else "") + TextsTo(log[1..], key)
  }

  predicate WrittenTo(log: seq<Write>, key: Key) {
    exists i :: 0 <= i < |log| && log[i].key == key
  }

  function Content(log: seq<Write>, key: Key): string {
    TextsTo(log[StartOf(log, key)..], key)
  }

  /** The keys in order of their first write. */
  function FirstSeen(log: seq<Write>): seq<Key> {
    if log == [] then []
    else
      var keys, last := FirstSeen(log[..|log| - 1]), log[|log| - 1].key;
      if last in keys then keys else keys + [last]
  }

  function Contents(log: seq<Write>, keys: seq<Key>): seq<string> {
    if keys == [] then [] else [Content(log, keys[0])] + Contents(log, keys[1..])
  }

  // ----- the two agree

  lemma {:induction false} TextsToAppend(a: seq<Write>, b: seq<Write>, key: Key)
    ensures TextsTo(a + b, key) == TextsTo(a, key) + TextsTo(b, key)
  {
    if a == [] {
      assert a + b == b;
    } else {
      assert (a + b)[1..] == a[1..] + b;
      TextsToAppend(a[1..], b, key);
    }
  }

  lemma ContentSnoc(log: seq<Write>, w: Write, key: Key)
    ensures Content(log + [w], key) ==
      if w.key != key then Content(log, key)
      else if w.append then Content(log, key) + w.text
      else w.text
  {
    var all := log + [w];
    assert all[..|log|] == log;
    assert [w][1..] == [] && TextsTo([w], key) == (if w.key == key then w.text else "") + TextsTo([], key);
    if w.key == key && !w.append {
      assert all[|log|..] == [w];
    } else {
      var n := StartOf(log, key);
      assert all[n..] == log[n..] + [w];
      TextsToAppend(log[n..], [w], key);
    }
  }

  lemma {:induction false} NoContent(log: seq<Write>, key: Key)
    requires !WrittenTo(log, key)
    ensures Content(log, key) == ""
  {
    if log != [] {
      var front := log[..|log| - 1];
      assert log == front + [log[|log| - 1]];
      NoContent(front, key);
      ContentSnoc(front, log[|log| - 1], key);
    }
  }

  lemma {:induction false} AllWrittenSnoc(m: Entries<Key, string>, log: seq<Write>, w: Write)
    ensures AllWritten(m, log + [w]) == Written(AllWritten(m, log), w)
    decreases |log|
  {
    if log == [] {
      assert [w][1..] == [] && log + [w] == [w];
    } else {
      assert (log + [w])[1..] == log[1..] + [w];
      AllWrittenSnoc(Written(m, log[0]), log[1..], w);
    }
  }

  function Meaning(log: seq<Write>, key: Key): Option<string> {
    if WrittenTo(log, key) then Some(Content(log, key)) else None
  }

  /** The entries hold, in order of first appearance, what the log wrote to each key since its last reset. */
  lemma {:induction false} EntriesFollowLog(log: seq<Write>)
    ensures Keys(AllWritten([], log)) == FirstSeen(log)
    ensures forall key :: Get(AllWritten([], log), key) == Meaning(log, key)
    ensures forall key :: key in FirstSeen(log) <==> WrittenTo(log, key)
  {
    if log != [] {
      var front, w := log[..|log| - 1], log[|log| - 1];
      assert log == front + [w];
      EntriesFollowLog(front);
      AllWrittenSnoc([], front, w);
      var m := AllWritten([], front);
      var text := if w.append then (if Get(m, w.key).Some? then Get(m, w.key).value else "") + w.text else w.text;
      PutKeys(m, w.key, text);
      forall key ensures Get(AllWritten([], log), key) == Meaning(log, key) {
        WrittenSnoc(front, w, key);
        ContentSnoc(front, w, key);
        if !WrittenTo(front, key) { NoContent(front, key); }
        PutGet(m, w.key, text, key);
      }
      forall key ensures key in FirstSeen(log) <==> WrittenTo(log, key) {
        WrittenSnoc(front, w, key);
      }
    }
  }

  lemma WrittenSnoc(log: seq<Write>, w: Write, key: Key)
    ensures WrittenTo(log + [w], key) <==> WrittenTo(log, key) || w.key == key
  {
    if WrittenTo(log, key) {
      var i :| 0 <= i < |log| && log[i].key == key;
      assert (log + [w])[i].key == key;
    }
    if w.key == key { assert (log + [w])[|log|].key == key; }
  }

  predicate Distinct(keys: seq<Key>) {
    forall i, j :: 0 <= i < j < |keys| ==> keys[i] != keys[j]
  }

  lemma {:induction false} FirstSeenDistinct(log: seq<Write>)
    ensures Distinct(FirstSeen(log))
  {
    if log != [] {
      FirstSeenDistinct(log[..|log| - 1]);
    }
  }

  lemma {:induction false} ValuesAreContents(m: Entries<Key, string>, log: seq<Write>)
    requires Distinct(Keys(m))
    requires forall k :: k in Keys(m) ==> Get(m, k) == Some(Content(log, k))
    ensures Values(m) == Contents(log, Keys(m))
    decreases |m|
  {
    if m != [] {
      var keys := Keys(m);
      assert keys[1..] == Keys(m[1..]);
      assert keys[0] in keys;
      forall k | k in Keys(m[1..]) ensures Get(m[1..], k) == Some(Content(log, k)) {
        var i :| 0 <= i < |keys[1..]| && keys[1..][i] == k;
        assert keys[i + 1] == k && k in keys;
      }
      ValuesAreContents(m[1..], log);
    }
  }

  /** The text is the non-empty contents joined in order of first appearance. */
  lemma TextFollowsLog(log: seq<Write>)
    ensures WholeText(AllWritten([], log)) == Splitting.Join(NonEmpty(Contents(log, FirstSeen(log))))
  {
    EntriesFollowLog(log);
    FirstSeenDistinct(log);
    ValuesAreContents(AllWritten([], log), log);
  }

  lemma {:induction false} AllWrittenAppend(m: Entries<Key, string>, a: seq<Write>, b: seq<Write>)
    ensures AllWritten(m, a + b) == AllWritten(AllWritten(m, a), b)
    decreases |a|
  {
    if a == [] {
      assert a + b == b;
    } else {
      assert (a + b)[1..] == a[1..] + b;
      AllWrittenAppend(Written(m, a[0]), a[1..], b);
    }
  }

  /** An event leaves every entry it does not write exactly as it was. */
  lemma {:induction false} OtherEntriesUntouched(m: Entries<Key, string>, log: seq<Write>, key: Key)
    requires !WrittenTo(log, key)
    ensures Get(AllWritten(m, log), key) == Get(m, key)
    decreases |log|
  {
    if log != [] {
      var w, before := log[0], Get(m, log[0].key);
      assert w.key != key;
      PutGet(m, w.key, if w.append then (if before.Some? then before.value else "") + w.text else w.text, key);
      assert forall i :: 0 <= i < |log[1..]| ==> log[1..][i] == log[i + 1];
      OtherEntriesUntouched(Written(m, log[0]), log[1..], key);
    }
  }

  // ----- the program

  class A2aTextAccumulator {
    var entries: Entries<Key, string>

    constructor ()
      ensures entries == AllWritten([], [])
    {
      entries := [];
    }

    method SetMessage(m: Message)
      modifies this
      ensures entries == AllWritten(old(entries), [MessageWrite(m)])
    {
      assert [MessageWrite(m)][1..] == [];
      entries := Put(entries, MessageKey(m.messageId), TextOf(m.parts));
    }

    method Apply(e: Event) returns (text: string)
      modifies this
      ensures entries == AllWritten(old(entries), WritesOf(e))
      ensures text == WholeText(entries)
    {
      ghost var before := entries;
      match e {
        case ArtifactUpdate(task, artifact, append) =>
          var key := ArtifactKey(task, artifact.artifactId);
          var text := TextOf(artifact.parts);
          var old_ := Get(entries, key);
          assert [Write(key, text, append)][1..] == [];
          entries := Put(entries, key, if append then (if old_.Some? then old_.value else "") + text else text);
        case TaskSnapshot(id, artifacts, _) =>
          assert artifacts[0..] == artifacts;
          for i := 0 to |artifacts|
            invariant AllWritten(entries, SnapshotWrites(id, artifacts[i..]))
                   == AllWritten(before, SnapshotWrites(id, artifacts))
          {
            var rest := SnapshotWrites(id, artifacts[i..]);
            assert artifacts[i..][1..] == artifacts[i + 1..];
            assert rest[1..] == SnapshotWrites(id, artifacts[i + 1..]);
            entries := Put(entries, ArtifactKey(id, artifacts[i].artifactId), TextOf(artifacts[i].parts));
          }
        case MessageEvent(message) => SetMessage(message);
        case StatusUpdate(_) =>
      }
      if (e.TaskSnapshot? || e.StatusUpdate?) && !e.status.state.Running? && e.status.message.Some? {
        SetMessage(e.status.message.value);
      }
      if e.TaskSnapshot? {
        AllWrittenAppend(before, SnapshotWrites(e.id, e.artifacts), StatusWrites(e.status));
      }
      return WholeText(entries);
    }
  }

  /** The accumulator fed a whole stream of events. */
  method Accumulate(events: seq<Event>) returns (text: string)
    ensures text == Splitting.Join(NonEmpty(Contents(LogOf(events), FirstSeen(LogOf(events)))))
  {
    var accumulator := new A2aTextAccumulator();
    for i := 0 to |events|
      invariant accumulator.entries == AllWritten([], LogOf(events[..i]))
    {
      var _ := accumulator.Apply(events[i]);
      assert events[..i + 1][..i] == events[..i];
      AllWrittenAppend([], LogOf(events[..i]), WritesOf(events[i]));
    }
    assert events[..|events|] == events;
    TextFollowsLog(LogOf(events));
    return WholeText(accumulator.entries);
  }
}
