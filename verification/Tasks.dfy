/** The task as a mailbox entry: identity, state, timestamp and the artifacts stamped on delivery. */
module Tasks {
  import opened Sorting
  import opened Wrappers

  /** A value of a metadata struct: text, or anything else, which counts as true or not. */
  datatype Meta = Word(text: string) | Other(truthy: bool)

  datatype Artifact = Artifact(metadata: map<string, Meta>)

  datatype TaskState = Submitted | Completed | Rejected

  /** `seconds` and `nanos` are the status timestamp; both are 0 while it is unset. */
  datatype Task = Task(id: string, state: TaskState, seconds: int, nanos: int, artifacts: seq<Artifact>)

  /** `x` may stand before `y` in a listing, newest first. */
  predicate NotOlder(x: Task, y: Task) {
    x.seconds > y.seconds || (x.seconds == y.seconds && x.nanos >= y.nanos)
  }

  lemma NotOlderOrders()
    ensures TotalPreorder(NotOlder)
  {
  }

  /** The status timestamp as one number, in nanoseconds. */
  function Instant(t: Task): int {
    t.seconds * 1000000000 + t.nanos
  }

  /** The fraction of a timestamp is less than a second. */
  predicate Timely(t: Task) {
    0 <= t.nanos < 1000000000
  }

  ghost predicate NewestFirst(s: seq<Task>) {
    forall i, j | 0 <= i < j < |s| :: Instant(s[i]) >= Instant(s[j])
  }

  /** The order of a listing is the order of time. */
  lemma NotOlderIsTime(x: Task, y: Task)
    requires Timely(x) && Timely(y)
    ensures NotOlder(x, y) <==> Instant(x) >= Instant(y)
  {
  }

  lemma SortedIsNewestFirst(s: seq<Task>)
    requires forall t | t in s :: Timely(t)
    ensures Sorted(s, NotOlder) <==> NewestFirst(s)
  {
    forall i, j | 0 <= i < j < |s| ensures NotOlder(s[i], s[j]) <==> Instant(s[i]) >= Instant(s[j]) {
      NotOlderIsTime(s[i], s[j]);
    }
  }

  /** Delivered or rejected, for good. */
  predicate Settled(t: Task) {
    !t.state.Submitted?
  }

  /** The text under `key` in the first artifact that has a non-empty one. */
  function Stamp(artifacts: seq<Artifact>, key: string): Option<string> {
    if artifacts == [] then None
    else
      var m := artifacts[0].metadata;
      if key in m && m[key].Word? && m[key].text != "" then Some(m[key].text) else Stamp(artifacts[1..], key)
  }

  const SENDER := "sender"
  const RECIPIENT := "recipient"
  const SOURCE := "source_message_id"

  /** The artifact has text under `key`. */
  predicate Says(artifact: Artifact, key: string, text: string) {
    text != "" && key in artifact.metadata && artifact.metadata[key] == Word(text)
  }

  predicate Silent(artifact: Artifact, key: string) {
    key in artifact.metadata && artifact.metadata[key].Word? ==> artifact.metadata[key].text == ""
  }

  /** A stamp is what the first artifact says that says anything there. */
  lemma {:induction false} StampIsFirst(artifacts: seq<Artifact>, key: string)
    ensures Stamp(artifacts, key) == None <==> forall i | 0 <= i < |artifacts| :: Silent(artifacts[i], key)
    ensures forall i, text | 0 <= i < |artifacts| && Says(artifacts[i], key, text)
                             && (forall j | 0 <= j < i :: Silent(artifacts[j], key)) ::
              Stamp(artifacts, key) == Some(text)
  {
    if artifacts != [] {
      var rest := artifacts[1..];
      StampIsFirst(rest, key);
      assert forall i | 0 <= i < |rest| :: rest[i] == artifacts[i + 1];
    }
  }

  /** Who sent a task, according to the artifact the executor stamped. */
  function SenderOf(task: Task): Option<string> {
    Stamp(task.artifacts, SENDER)
  }

  ghost predicate UniqueIds(s: seq<Task>) {
    forall i, j | 0 <= i < j < |s| :: s[i].id != s[j].id
  }

  ghost predicate HasId(s: seq<Task>, id: string) {
    exists t | t in s :: t.id == id
  }

  /** A mailbox as the SDK lists it: one task per id, newest first. */
  ghost predicate IsBox(s: seq<Task>) {
    UniqueIds(s) && Sorted(s, NotOlder)
  }
}
