/**
 Identities (`auth.py`): a token proves the principal, a mandatory header names the session,
 and the two together, `principal/session`, are the caller.
 */
module Identity {
  import opened Tables
  import opened Text
  import opened Wrappers

  const SEPARATOR := '/'

  function PrincipalOf(identity: string): string {
    Partition(identity, SEPARATOR).0
  }

  predicate Alphanumeric(c: char) {
    'A' <= c <= 'Z' || 'a' <= c <= 'z' || '0' <= c <= '9'
  }

  predicate SessionName(s: string) {
    && 1 <= |s| <= 64
    && Alphanumeric(s[0])
    && forall c | c in s :: Alphanumeric(c) || c == '.' || c == '_' || c == '-'
  }

  /** What the pattern matches: its `$` also stands before one final newline. */
  predicate SessionMatches(s: string) {
    SessionName(s) || (s != "" && s[|s| - 1] == '\n' && SessionName(s[..|s| - 1]))
  }

  predicate IsValidIdentity(identity: string, known: Option<set<string>>) {
    var (principal, separator, session) := Partition(identity, SEPARATOR);
    && principal != ""
    && (known.Some? ==> principal in known.value)
    && (separator ==> SessionMatches(session))
  }

  function IdentityOf(agent: string, session: string): string {
    agent + [SEPARATOR] + session
  }

  datatype Refusal = Unauthorized | InvalidSession

  /** Token to agent. */
  class TokenRegistry {
    var tokens: seq<Entry<string, string>>

    constructor (tokens: seq<Entry<string, string>>)
      ensures this.tokens == tokens
    {
      this.tokens := tokens;
    }

    /** Compares against every entry, whatever matched before. */
    method Resolve(token: string) returns (agent: Option<string>)
      requires UniqueKeys(tokens)
      ensures agent == Lookup(tokens, token)
    {
      agent := None;
      for i := 0 to |tokens|
        invariant agent.Some? ==> Entry(token, agent.value) in tokens
        invariant agent.None? ==> forall j | 0 <= j < i :: tokens[j].key != token
      {
        if tokens[i].key == token {
          agent := Some(tokens[i].value);
        }
      }
      LookupIsMembership(tokens, token, if agent.Some? then agent.value else "");
    }
  }

  /** The identity the middleware puts in the request, or its refusal. */
  function Authenticate(tokens: seq<Entry<string, string>>, bearer: Option<string>, header: string)
    : Result<string, Refusal>
  {
    if bearer.None? || Lookup(tokens, bearer.value).None? then Err(Unauthorized)
    else if !SessionMatches(Strip(header)) then Err(InvalidSession)
    else Ok(IdentityOf(Lookup(tokens, bearer.value).value, Strip(header)))
  }

  /** The mailboxes a caller reads when no delivery is in progress, most specific first. */
  function MailboxesOf(identity: string): seq<string> {
    var principal := PrincipalOf(identity);
    if identity == principal then [identity] else [identity, principal]
  }

  /** Agent names as the configuration yields them, with no separator inside. */
  predicate ProperAgents(agents: set<string>) {
    forall a | a in agents :: a != "" && Trimmed(a) && SEPARATOR !in a
  }

  /** `i` is the identity of some session that holds one of the agents' tokens. */
  ghost predicate Authenticable(i: string, agents: set<string>) {
    exists a, s | a in agents && SessionName(s) :: i == IdentityOf(a, s)
  }

  ghost predicate Readable(mailbox: string, agents: set<string>) {
    exists i | Authenticable(i, agents) :: mailbox in MailboxesOf(i)
  }

  /** The recipient the executor takes from a metadata value: trimmed, and then validated. */
  predicate Accepted(recipient: string, agents: set<string>) {
    recipient != "" && Trimmed(recipient) && IsValidIdentity(recipient, Some(agents))
  }

  /** `principal/session` determines both halves, exactly when the principal has no separator. */
  lemma PrincipalInverts(agent: string, session: string)
    ensures PrincipalOf(IdentityOf(agent, session)) == agent <==> SEPARATOR !in agent
  {
    PartitionSplits(IdentityOf(agent, session), SEPARATOR);
    if SEPARATOR !in agent {
      PartitionOfJoin(agent, SEPARATOR, session);
    }
  }

  lemma IdentityInjective(a: string, s: string, b: string, t: string)
    requires SEPARATOR !in a && SEPARATOR !in b
    requires IdentityOf(a, s) == IdentityOf(b, t)
    ensures a == b && s == t
  {
    PartitionOfJoin(a, SEPARATOR, s);
    PartitionOfJoin(b, SEPARATOR, t);
  }

  lemma MailboxesOfSession(a: string, s: string)
    requires SEPARATOR !in a
    ensures MailboxesOf(IdentityOf(a, s)) == [IdentityOf(a, s), a]
    ensures PrincipalOf(a) == a
  {
    PrincipalInverts(a, s);
    PartitionOfPlain(a, SEPARATOR);
  }

  /** Whoever gets past the middleware is authenticable under its own token's agent. */
  lemma AuthenticatedIsAuthenticable(tokens: seq<Entry<string, string>>, bearer: Option<string>, header: string,
                                     agents: set<string>)
    requires Authenticate(tokens, bearer, header).Ok?
    requires Lookup(tokens, bearer.value).value in agents
    ensures Authenticable(Authenticate(tokens, bearer, header).value, agents)
  {
    var s := Strip(header);
    StripTrims(header);
    assert IsSpace('\n');
    assert SessionName(s);
  }

  lemma AcceptedIsReadable(recipient: string, agents: set<string>)
    requires ProperAgents(agents) && Accepted(recipient, agents)
    ensures Readable(recipient, agents)
  {
    PartitionSplits(recipient, SEPARATOR);
    var (principal, separator, session) := Partition(recipient, SEPARATOR);
    var s := if separator then session else "a";
    if separator {
      assert session == "" || session[|session| - 1] == recipient[|recipient| - 1];
      assert IsSpace('\n');
    }
    assert SessionName(s);
    var i := IdentityOf(principal, s);
    assert Authenticable(i, agents);
    MailboxesOfSession(principal, s);
    assert recipient in MailboxesOf(i);
  }

  lemma SessionIsAccepted(a: string, s: string, agents: set<string>)
    requires ProperAgents(agents) && a in agents && SessionName(s)
    ensures Accepted(IdentityOf(a, s), agents)
  {
    var i := IdentityOf(a, s);
    PartitionOfJoin(a, SEPARATOR, s);
    assert i[0] == a[0] && i[|i| - 1] == s[|s| - 1];
    assert s[|s| - 1] in s;
  }

  lemma ReadableIsAccepted(recipient: string, agents: set<string>)
    requires ProperAgents(agents) && Readable(recipient, agents)
    ensures Accepted(recipient, agents)
  {
    var i :| Authenticable(i, agents) && recipient in MailboxesOf(i);
    var a, s :| a in agents && SessionName(s) && i == IdentityOf(a, s);
    MailboxesOfSession(a, s);
    SessionIsAccepted(a, s, agents);
    PartitionOfPlain(a, SEPARATOR);
  }

  /** A mailbox can be addressed if and only if some session can read it. */
  lemma AddressableIffReadable(recipient: string, agents: set<string>)
    requires ProperAgents(agents)
    ensures Accepted(recipient, agents) <==> Readable(recipient, agents)
  {
    if Accepted(recipient, agents) {
      AcceptedIsReadable(recipient, agents);
    }
    if Readable(recipient, agents) {
      ReadableIsAccepted(recipient, agents);
    }
  }

  /**
   `is_valid_identity` on its own accepts more than is readable: exactly the readable session
   mailboxes with one newline appended, because of the pattern's `$`.
   */
  lemma ValidIdentityExactly(x: string, agents: set<string>)
    requires ProperAgents(agents)
    ensures IsValidIdentity(x, Some(agents)) <==>
              Readable(x, agents) || (x != "" && x[|x| - 1] == '\n' && Authenticable(x[..|x| - 1], agents))
  {
    AddressableIffReadable(x, agents);
    if IsValidIdentity(x, Some(agents)) {
      ValidMeansReadable(x, agents);
    }
    if x != "" && x[|x| - 1] == '\n' && Authenticable(x[..|x| - 1], agents) {
      var a, s :| a in agents && SessionName(s) && x[..|x| - 1] == IdentityOf(a, s);
      assert x == a + [SEPARATOR] + (s + "\n");
      PartitionOfJoin(a, SEPARATOR, s + "\n");
      assert (s + "\n")[..|s|] == s;
    }
  }

  lemma ValidMeansReadable(x: string, agents: set<string>)
    requires ProperAgents(agents) && IsValidIdentity(x, Some(agents))
    ensures Readable(x, agents) || (x != "" && x[|x| - 1] == '\n' && Authenticable(x[..|x| - 1], agents))
  {
    PartitionSplits(x, SEPARATOR);
    var (principal, separator, session) := Partition(x, SEPARATOR);
    var s := if !separator then "a" else if SessionName(session) then session else session[..|session| - 1];
    assert SessionName(s);
    var i := IdentityOf(principal, s);
    assert Authenticable(i, agents);
    MailboxesOfSession(principal, s);
    if separator && !SessionName(session) {
      assert x[..|x| - 1] == i;
    } else {
      assert x in MailboxesOf(i);
    }
  }
}
