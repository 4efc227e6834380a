/** Connecting a provider enables, for delegated tokens, exactly what was granted. */
module ConnectEnables {
  import opened Sequences
  import opened Policies
  import opened PolicyEngine
  import opened DelegatedAccess
  import opened DelegatedAccessProperties
  import opened TokenBroker

  /** The request names the connection, or names none and its context defaults to it. */
  ghost predicate Names(token: TokenRequest, c: Context, id: string) {
    || token.connectionId == Some(id)
    || (token.connectionId == None && c.provider.connectionId == Some(id))
    || (token.connectionId == None && c.provider.connectionId == None && c.vault.connectionId == Some(id))
  }

  /** Right after an allowed connect, a delegated retrieval by the same context that names the new connection is
      authorized exactly when it is for the context's own subject and the granted scopes include tokens.delegated;
      a sensitive one exactly when they include all three sensitive scopes and step-up is satisfied. */
  lemma {:induction false} ConnectEnablesExactlyTheGrant(all: Snapshots, c: Context, r: ConnectRequest, now: int,
                                                         token: TokenRequest, cacheHit: bool)
    requires MayConnect(c) && token.intent == Delegated && Names(token, c, ConnectionId(r.provider, c.subject))
    ensures Authorized(AfterConnect(all, c, r, now), c, Normalize(token, c), cacheHit) <==>
            && token.subjectId in {None, Some(""), Some(c.subject)}
            && (if token.classification in {Some(Sensitive), Some(HighImpact)}
                then AgentExecute in r.requestedScopes && TokensDelegated in r.requestedScopes
                     && SensitiveExecute in r.requestedScopes && c.stepUpSatisfied
                else TokensDelegated in r.requestedScopes)
  {
    var n := Normalize(token, c);
    DecidedInNewContext(all, c, r, now, n, cacheHit);
    AllowedInNewContext(c, r, now, n, cacheHit);
  }

  /** What a delegated request asks of the scopes granted. */
  predicate ScopesSuffice(n: Normalized, granted: seq<Scope>, stepUpSatisfied: bool) {
    if IsSensitive(n)
    then AgentExecute in granted && TokensDelegated in granted && SensitiveExecute in granted && stepUpSatisfied
    else TokensDelegated in granted
  }

  lemma AllowedInNewContext(c: Context, r: ConnectRequest, now: int, n: Normalized, cacheHit: bool)
    requires MayConnect(c) && n.intent == Delegated
    ensures Allows(PolicyOf(PermissionFor(n, cacheHit)), ContextAfterConnect(c, r, now, n.audience),
                   ResourceFor(n)) <==>
            n.subjectId in {"", c.subject} && ScopesSuffice(n, r.requestedScopes, c.stepUpSatisfied)
  {
    ConnectedContextAllows(c, r, now, n.audience, PolicyOf(PermissionFor(n, cacheHit)), ResourceFor(n));
    DelegatedPolicies(n, cacheHit, r.requestedScopes);
  }

  /** The retrieval is decided in the context of the three entries just written. */
  lemma DecidedInNewContext(all: Snapshots, c: Context, r: ConnectRequest, now: int, n: Normalized, cacheHit: bool)
    requires MayConnect(c) && n.intent == Delegated && n.connectionId == Some(ConnectionId(r.provider, c.subject))
    ensures Authorized(AfterConnect(all, c, r, now), c, n, cacheHit) <==>
            Allows(PolicyOf(PermissionFor(n, cacheHit)), ContextAfterConnect(c, r, now, n.audience), ResourceFor(n))
  {
    ConnectResolvesToNew(Ensured(all, c, now)[c.subject], c, r, now, FoundationRequestOf(n));
  }

  /** The scopes the two delegated policies ask for. */
  lemma DelegatedPolicies(n: Normalized, cacheHit: bool, held: seq<Scope>)
    requires n.intent == Delegated
    ensures var policy := PolicyOf(PermissionFor(n, cacheHit));
            && policy.consent.Some? && policy.vault.Some? && policy.provider.Some? && policy.session.Some?
            && (Covers(held, policy.consent.value) && Covers(held, policy.vault.value)
                && Covers(held, policy.provider.value) && Covers(held, policy.session.value) <==>
                if IsSensitive(n) then AgentExecute in held && TokensDelegated in held && SensitiveExecute in held
                else TokensDelegated in held)
  {
    if IsSensitive(n) {
      assert SENSITIVE_SCOPES[0] == AgentExecute && SENSITIVE_SCOPES[1] == TokensDelegated
             && SENSITIVE_SCOPES[2] == SensitiveExecute;
    } else {
      assert [TokensDelegated][0] == TokensDelegated;
    }
  }
}
