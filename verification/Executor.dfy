/**
 Delivery (`executor.py`): a `SendMessage` becomes a task owned by its recipient, or a rejected
 one owned by its sender. The executor emits events; the framework consumes them in order,
 saving the task after each under the owner resolved at that moment.
 */
module Executor {
  import opened Identity
  import opened Tasks
  import opened Text
  import opened Wrappers
  import Sorting

  datatype Message = Message(id: string, metadata: map<string, Meta>)

  /** One `SendMessage`: `current` is the task it continues, `seconds` and `nanos` when it ends. */
  datatype Send = Send(taskId: string, user: string, current: Option<Task>, message: Option<Message>,
                       metadata: map<string, Meta>, seconds: int, nanos: int)

  datatype Event =
    | NewTask(id: string)
    | AddArtifact(artifact: Artifact)
    | SetStatus(state: TaskState, seconds: int, nanos: int)

  /** What the executor does, in order: emit an event, or pin the owner in the call's state. */
  datatype Step = Emit(event: Event) | Pin(owner: string)

  /** The first source with a recipient that is text and not blank, trimmed. */
  function ExtractRecipient(sources: seq<map<string, Meta>>): (r: Option<string>)
    ensures r.Some? ==> r.value != ""
  {
    if sources == [] then None
    else
      var m := sources[0];
      if RECIPIENT in m && m[RECIPIENT].Word? && Strip(m[RECIPIENT].text) != "" then Some(Strip(m[RECIPIENT].text))
      else ExtractRecipient(sources[1..])
  }

  /** A source has a recipient that is text with something besides blanks in it. */
  predicate Names(source: map<string, Meta>) {
    "recipient" in source && source["recipient"].Word? && !Blank(source["recipient"].text)
  }

  /** What is extracted is the recipient of the first source that names one, trimmed; nothing, if none does. */
  lemma {:induction false} ExtractedIsFirst(sources: seq<map<string, Meta>>)
    ensures ExtractRecipient(sources) == None <==> forall i | 0 <= i < |sources| :: !Names(sources[i])
    ensures forall i | 0 <= i < |sources| && Names(sources[i]) && (forall j | 0 <= j < i :: !Names(sources[j])) ::
              ExtractRecipient(sources) == Some(Strip(sources[i][RECIPIENT].text))
  {
    if sources != [] {
      var source, rest := sources[0], sources[1..];
      ExtractedIsFirst(rest);
      if RECIPIENT in source && source[RECIPIENT].Word? {
        StripOfBlank(source[RECIPIENT].text);
      }
      assert forall i | 0 <= i < |rest| :: rest[i] == sources[i + 1];
    }
  }

  /** The recipient a send names: in its message's metadata, or else in the request's. */
  predicate Addresses(send: Send, r: string) {
    && send.message.Some?
    && var first, second := send.message.value.metadata, send.metadata;
       if Names(first) then r == Strip(first["recipient"].text) else Names(second) && r == Strip(second["recipient"].text)
  }

  lemma ExtractedIsAddressed(send: Send, r: string)
    requires send.message.Some?
    ensures ExtractRecipient([send.message.value.metadata, send.metadata]) == Some(r) <==> Addresses(send, r)
  {
    var sources := [send.message.value.metadata, send.metadata];
    ExtractedIsFirst(sources);
    assert sources[0] == send.message.value.metadata && sources[1] == send.metadata;
    if Names(sources[0]) {
      assert ExtractRecipient(sources) == Some(Strip(sources[0][RECIPIENT].text));
    } else if Names(sources[1]) {
      assert ExtractRecipient(sources) == Some(Strip(sources[1][RECIPIENT].text));
    }
  }

  datatype Refusal = NoMessage | NoRecipient | UnknownRecipient(recipient: string)
  datatype Verdict = Refused(reason: Refusal) | Routed(recipient: string)

  function Judge(send: Send, known: Option<set<string>>): Verdict {
    match send.message
    case None => Refused(NoMessage)
    case Some(message) =>
      match ExtractRecipient([message.metadata, send.metadata])
      case None => Refused(NoRecipient)
      case Some(r) => if IsValidIdentity(r, known) then Routed(r) else Refused(UnknownRecipient(r))
  }

  function StampOf(user: string, recipient: string, messageId: string): Artifact {
    Artifact(map[SENDER := Word(user), RECIPIENT := Word(recipient), SOURCE := Word(messageId)])
  }

  function Announce(send: Send): seq<Step> {
    if send.current.Some? then [] else [Emit(NewTask(send.taskId))]
  }

  function Ending(send: Send, known: Option<set<string>>): seq<Step> {
    match Judge(send, known)
    case Refused(_) => [Emit(SetStatus(Rejected, send.seconds, send.nanos))]
    case Routed(r) =>
      [Pin(r), Emit(AddArtifact(StampOf(send.user, r, send.message.value.id))),
       Emit(SetStatus(Completed, send.seconds, send.nanos))]
  }

  /** Announce the task if it is new, then refuse it or fill it. */
  function Program(send: Send, known: Option<set<string>>): seq<Step> {
    Announce(send) + Ending(send, known)
  }

  function EventsIn(steps: seq<Step>): seq<Event> {
    if steps == [] then []
    else (if steps[0].Emit? then [steps[0].event] else []) + EventsIn(steps[1..])
  }

  lemma {:induction false} EventsInAppend(s: seq<Step>, t: seq<Step>)
    ensures EventsIn(s + t) == EventsIn(s) + EventsIn(t)
  {
    if s == [] {
      assert s + t == t;
    } else {
      assert (s + t)[1..] == s[1..] + t;
      EventsInAppend(s[1..], t);
      Sorting.Regroup(if s[0].Emit? then [s[0].event] else [], EventsIn(s[1..]), EventsIn(t));
    }
  }

  lemma EventsInPair(x: Step, y: Step)
    requires x.Emit? && y.Emit?
    ensures EventsIn([x, y]) == [x.event, y.event]
  {
    assert [x, y][1..] == [y] && [y][1..] == [];
    assert EventsIn([y]) == [y.event];
  }

  lemma EventsOfProgram(send: Send, known: Option<set<string>>)
    ensures EventsIn(Announce(send)) == if send.current.Some? then [] else [NewTask(send.taskId)]
    ensures EventsIn(Program(send, known)) ==
              EventsIn(Announce(send)) +
              match Judge(send, known)
              case Refused(_) => [SetStatus(Rejected, send.seconds, send.nanos)]
              case Routed(r) => [AddArtifact(StampOf(send.user, r, send.message.value.id)),
                                 SetStatus(Completed, send.seconds, send.nanos)]
  {
    var ending := Ending(send, known);
    EventsInAppend(Announce(send), ending);
    if Judge(send, known).Routed? {
      EventsInPair(ending[1], ending[2]);
      assert ending[1..] == [ending[1], ending[2]];
    } else {
      assert ending[1..] == [];
    }
  }

  /** The call's state and its event queue, with the order in which the two were written. */
  class Exchange {
    const user: string
    var override: Option<string>
    var events: seq<Event>
    ghost var steps: seq<Step>

    constructor (user: string)
      ensures this.user == user && override == None && events == [] && steps == []
    {
      this.user := user;
      override := None;
      events := [];
      steps := [];
    }

    method Enqueue(event: Event)
      modifies this
      ensures events == old(events) + [event] && steps == old(steps) + [Emit(event)] && override == old(override)
    {
      events := events + [event];
      steps := steps + [Emit(event)];
    }

    method PinOwner(owner: string)
      modifies this
      ensures override == Some(owner) && steps == old(steps) + [Pin(owner)] && events == old(events)
    {
      override := Some(owner);
      steps := steps + [Pin(owner)];
    }
  }

  method EnsureTask(send: Send, exchange: Exchange)
    modifies exchange
    ensures exchange.steps == old(exchange.steps) + Announce(send)
    ensures exchange.events == old(exchange.events) + EventsIn(Announce(send))
    ensures exchange.override == old(exchange.override)
  {
    if send.current.Some? {
      return;
    }
    exchange.Enqueue(NewTask(send.taskId));
  }

  /** Validates, routes and emits: the owner is pinned after the task is announced and before it is filled. */
  method Execute(send: Send, known: Option<set<string>>, exchange: Exchange)
    requires exchange.user == send.user
    modifies exchange
    ensures exchange.steps == old(exchange.steps) + Program(send, known)
    ensures exchange.events == old(exchange.events) + EventsIn(Program(send, known))
    ensures exchange.override == match Judge(send, known) case Routed(r) => Some(r) case Refused(_) => old(exchange.override)
  {
    EventsOfProgram(send, known);
    EnsureTask(send, exchange);
    if send.message.None? {
      exchange.Enqueue(SetStatus(Rejected, send.seconds, send.nanos));
      return;
    }
    var recipient := ExtractRecipient([send.message.value.metadata, send.metadata]);
    if recipient.None? {
      exchange.Enqueue(SetStatus(Rejected, send.seconds, send.nanos));
      return;
    }
    if !IsValidIdentity(recipient.value, known) {
      exchange.Enqueue(SetStatus(Rejected, send.seconds, send.nanos));
      return;
    }
    exchange.PinOwner(recipient.value);
    exchange.Enqueue(AddArtifact(StampOf(exchange.user, recipient.value, send.message.value.id)));
    exchange.Enqueue(SetStatus(Completed, send.seconds, send.nanos));
  }

  /** With the configured agents: what is routed is exactly what names a mailbox someone can read. */
  lemma RoutedIffReadable(send: Send, agents: set<string>, r: string)
    requires ProperAgents(agents)
    ensures Judge(send, Some(agents)) == Routed(r) <==>
              && send.message.Some?
              && ExtractRecipient([send.message.value.metadata, send.metadata]) == Some(r)
              && Readable(r, agents)
  {
    if send.message.Some? {
      var sources := [send.message.value.metadata, send.metadata];
      ExtractedIsTrimmed(sources);
      AddressableIffReadable(r, agents);
    }
  }

  lemma {:induction false} ExtractedIsTrimmed(sources: seq<map<string, Meta>>)
    ensures ExtractRecipient(sources).Some? ==> Trimmed(ExtractRecipient(sources).value)
  {
    if sources != [] {
      var m := sources[0];
      if RECIPIENT in m && m[RECIPIENT].Word? {
        StripTrims(m[RECIPIENT].text);
      }
      ExtractedIsTrimmed(sources[1..]);
    }
  }
}
