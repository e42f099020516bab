/** Who gets in (`auth.py`): the middleware resolves the caller's identity and records that it was seen. */
module Admission {
  import opened Identity
  import opened Mailboxes
  import opened Registry
  import opened Tables
  import opened Text
  import opened Wrappers

  /** The credentials of an `Authorization: Bearer` header. */
  function ExtractBearer(header: Option<string>): (token: Option<string>)
    ensures token.Some? ==> token.value != ""
  {
    if header.None? then None
    else
      var (scheme, _, credentials) := Partition(header.value, ' ');
      if Lower(scheme) != "bearer" || Strip(credentials) == "" then None else Some(Strip(credentials))
  }

  /** A bearer header built from a clean token gives that token back, whatever the case of the scheme. */
  lemma BearerRoundTrip(scheme: string, token: string)
    requires Lower(scheme) == "bearer" && ' ' !in scheme && Trimmed(token) && token != ""
    ensures ExtractBearer(Some(scheme + [' '] + token)) == Some(token)
  {
    PartitionOfJoin(scheme, ' ', token);
    StripTrims(token);
  }

  /** The header is the word `bearer` in any case, a blank, and this token between blanks. */
  ghost predicate Bears(header: Option<string>, token: string) {
    header.Some? && token != "" && Trimmed(token)
    && exists scheme, credentials ::
         SameLetters(scheme, "bearer") && Padded(credentials, token) && header.value == scheme + [' '] + credentials
  }

  lemma BearerSpelled(scheme: string)
    ensures Lower(scheme) == "bearer" <==> SameLetters(scheme, "bearer")
    ensures SameLetters(scheme, "bearer") ==> ' ' !in scheme
  {
    LowerIsSameLetters(scheme, "bearer");
    if SameLetters(scheme, "bearer") {
      forall i | 0 <= i < |scheme| ensures scheme[i] != ' ' {
        assert SameLetter(scheme[i], "bearer"[i]);
      }
    }
  }

  /** What counts as a bearer header, and of what token; any other header has none. */
  lemma BearerExactly(header: Option<string>, token: string)
    ensures ExtractBearer(header) == Some(token) <==> Bears(header, token)
  {
    if ExtractBearer(header) == Some(token) {
      var (scheme, blank, credentials) := Partition(header.value, ' ');
      PartitionSplits(header.value, ' ');
      BearerSpelled(scheme);
      StripIsCore(credentials, token);
      StripTrims(credentials);
      assert blank;
    }
    if Bears(header, token) {
      var scheme, credentials :|
        SameLetters(scheme, "bearer") && Padded(credentials, token) && header.value == scheme + [' '] + credentials;
      BearerSpelled(scheme);
      PartitionOfJoin(scheme, ' ', credentials);
      StripIsCore(credentials, token);
    }
  }

  predicate LetterOrDigit(c: char) {
    'A' <= c <= 'Z' || 'a' <= c <= 'z' || '0' <= c <= '9'
  }

  /** A session may call itself this: 1 to 64 letters, digits, dots, underscores and hyphens, the first a letter or digit. */
  predicate MayBeCalled(name: string) {
    && 1 <= |name| <= 64 && LetterOrDigit(name[0])
    && forall i | 0 <= i < |name| :: LetterOrDigit(name[i]) || name[i] in {'.', '_', '-'}
  }

  lemma CalledExactly(header: string)
    ensures SessionMatches(Strip(header)) <==> MayBeCalled(Strip(header))
  {
    var name := Strip(header);
    StripTrims(header);
    assert IsSpace('\n');
    assert forall i | 0 <= i < |name| :: name[i] in name;
  }

  /** The header is that of an agent's token. */
  ghost predicate HasTokenOf(tokens: seq<Entry<string, string>>, authorization: Option<string>, agent: string) {
    exists token :: Bears(authorization, token) && Entry(token, agent) in tokens
  }

  lemma TokenFound(tokens: seq<Entry<string, string>>, authorization: Option<string>)
    requires UniqueKeys(tokens)
    ensures var token := ExtractBearer(authorization);
            && (forall agent :: HasTokenOf(tokens, authorization, agent) <==>
                  token.Some? && Lookup(tokens, token.value) == Some(agent))
  {
    forall agent
      ensures HasTokenOf(tokens, authorization, agent) <==>
                ExtractBearer(authorization).Some? && Lookup(tokens, ExtractBearer(authorization).value) == Some(agent)
    {
      if ExtractBearer(authorization).Some? {
        BearerExactly(authorization, ExtractBearer(authorization).value);
        LookupIsMembership(tokens, ExtractBearer(authorization).value, agent);
      }
      forall token | Bears(authorization, token) ensures ExtractBearer(authorization) == Some(token) {
        BearerExactly(authorization, token);
      }
    }
  }

  /**
   Who gets in, and under what name; and which refusal everybody else gets. The header of a session that
   sends none is the empty text.
   */
  lemma AdmittedExactly(tokens: seq<Entry<string, string>>, authorization: Option<string>, header: string, identity: string)
    requires UniqueKeys(tokens)
    ensures var r := Authenticate(tokens, ExtractBearer(authorization), header);
            && (r == Ok(identity) <==>
                  exists agent ::
                    HasTokenOf(tokens, authorization, agent) && MayBeCalled(Strip(header))
                    && identity == agent + "/" + Strip(header))
            && (r == Err(Unauthorized) <==> forall agent :: !HasTokenOf(tokens, authorization, agent))
            && (r == Err(InvalidSession) <==>
                  (exists agent :: HasTokenOf(tokens, authorization, agent)) && !MayBeCalled(Strip(header)))
  {
    TokenFound(tokens, authorization);
    CalledExactly(header);
    var token := ExtractBearer(authorization);
    if token.Some? && Lookup(tokens, token.value).Some? {
      assert HasTokenOf(tokens, authorization, Lookup(tokens, token.value).value);
    }
  }

  class Middleware {
    const registry: TokenRegistry
    const seen: AgentRegistry

    constructor (registry: TokenRegistry, seen: AgentRegistry)
      ensures this.registry == registry && this.seen == seen
    {
      this.registry := registry;
      this.seen := seen;
    }

    /** Admits a request under `principal/session` and stamps it as seen, or refuses it and leaves no trace. */
    method Admit(authorization: Option<string>, session: Option<string>, now: int) returns (r: Result<string, Refusal>)
      requires UniqueKeys(registry.tokens)
      modifies seen
      ensures r == Authenticate(registry.tokens, ExtractBearer(authorization), if session.Some? then session.value else "")
      ensures seen.State() == if r.Ok? then Touched(old(seen.State()), r.value, now) else old(seen.State())
    {
      var token, agent := ExtractBearer(authorization), None;
      if token.Some? {
        agent := registry.Resolve(token.value);
      }
      if agent.None? {
        return Err(Unauthorized);
      }
      var name := Strip(if session.Some? then session.value else "");
      if !SessionMatches(name) {
        return Err(InvalidSession);
      }
      var identity := IdentityOf(agent.value, name);
      seen.Touch(identity, now);
      return Ok(identity);
    }
  }

  /** Whoever is admitted is a session of its own token's agent, and reads that session's mailbox and the agent's. */
  lemma AdmittedIsSession(tokens: seq<Entry<string, string>>, bearer: Option<string>, header: string, agents: set<string>)
    requires ProperAgents(agents) && Authenticate(tokens, bearer, header).Ok?
    requires Lookup(tokens, bearer.value).value in agents
    ensures var identity, agent := Authenticate(tokens, bearer, header).value, Lookup(tokens, bearer.value).value;
            && Session(identity)
            && PrincipalOf(identity) == agent
            && MailboxesOf(identity) == [identity, agent]
            && Authenticable(identity, agents)
  {
    var agent := Lookup(tokens, bearer.value).value;
    AuthenticatedIsAuthenticable(tokens, bearer, header, agents);
    PrincipalInverts(agent, Strip(header));
    MailboxesOfSession(agent, Strip(header));
  }
}
