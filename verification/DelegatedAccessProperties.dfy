/** What connect and revoke keep of a snapshot, and what they mean for delegated authorization. */
module DelegatedAccessProperties {
  import opened Sequences
  import opened Policies
  import opened PolicyEngine
  import opened DelegatedAccess

  ghost predicate Lists(s: Snapshot, connectionId: string) {
    HasKey(s.connections, IdOfConnection(), connectionId)
  }

  /** Ids are unique in each list, and every consent and session points at a listed connection or the pending marker. */
  ghost predicate WellFormed(s: Snapshot) {
    && Distinct(s.connections, IdOfConnection())
    && Distinct(s.consents, IdOfConsent())
    && Distinct(s.sessions, IdOfSession())
    && (forall x :: x in s.consents ==> x.connectionId == PENDING_CONNECTION || Lists(s, x.connectionId))
    && (forall x :: x in s.sessions ==> x.connectionId == PENDING_CONNECTION || Lists(s, x.connectionId))
  }

  lemma DefaultIsWellFormed(c: Context, now: int)
    ensures WellFormed(DefaultSnapshot(c, now))
  {
    var s := DefaultSnapshot(c, now);
    if s.connections != [] {
      assert IdOfConnection()(s.connections[0]) == s.connections[0].id;
    }
  }

  /** Connecting never drops a listed connection, and lists the new one. */
  lemma ConnectLists(s: Snapshot, c: Context, r: ConnectRequest, now: int, id: string)
    ensures Lists(Connected(s, c, r, now), id) <==> Lists(s, id) || id == ConnectionId(r.provider, c.subject)
  {
    var connection := NewConnection(c, r, now);
    var kept := Filter(s.connections, (x: Connection) => x.id != connection.id);
    var all := [connection] + kept;
    assert all[0].id == connection.id;
    if Lists(s, id) && id != connection.id {
      var i :| 0 <= i < |s.connections| && IdOfConnection()(s.connections[i]) == id;
      assert s.connections[i] in kept;
      var j :| 0 <= j < |kept| && kept[j] == s.connections[i];
      assert all[1 + j].id == id;
    }
    if HasKey(all, IdOfConnection(), id) && id != connection.id {
      var j :| 0 <= j < |all| && IdOfConnection()(all[j]) == id;
      assert all[j] in kept;
      assert all[j] in s.connections;
    }
  }

  lemma PrependDistinct<T>(first: T, s: seq<T>, key: T -> string, keep: T -> bool)
    requires Distinct(s, key)
    requires forall x :: x in s && keep(x) ==> key(x) != key(first)
    ensures Distinct([first] + Filter(s, keep), key)
  {
    FilterKeepsDistinct(s, keep, key);
    var kept := Filter(s, keep);
    var all := [first] + kept;
    forall i, j | 0 <= i < j < |all| ensures key(all[i]) != key(all[j]) {
      assert all[j] == kept[j - 1] && kept[j - 1] in s;
    }
  }

  lemma ConnectKeepsWellFormed(s: Snapshot, c: Context, r: ConnectRequest, now: int)
    requires WellFormed(s)
    ensures WellFormed(Connected(s, c, r, now))
  {
    var connection, consent, session := NewConnection(c, r, now), NewConsent(c, r, now), NewSession(c, r, now);
    PrependDistinct(connection, s.connections, IdOfConnection(), (x: Connection) => x.id != connection.id);
    PrependDistinct(consent, s.consents, IdOfConsent(), (x: Consent) => x.id != consent.id);
    PrependDistinct(session, s.sessions, IdOfSession(), (x: Session) => x.id != session.id);
    forall id ensures Lists(Connected(s, c, r, now), id) <==> Lists(s, id) || id == connection.id {
      ConnectLists(s, c, r, now, id);
    }
  }

  lemma RevokeLists(s: Snapshot, connectionId: string, intent: RevocationIntent, now: int, id: string)
    ensures Lists(Revoked(s, connectionId, intent, now), id) <==> Lists(s, id)
  {
    var after := Revoked(s, connectionId, intent, now).connections;
    assert forall i :: 0 <= i < |after| ==> IdOfConnection()(after[i]) == IdOfConnection()(s.connections[i]);
  }

  lemma RevokeKeepsWellFormed(s: Snapshot, connectionId: string, intent: RevocationIntent, now: int)
    requires WellFormed(s)
    ensures WellFormed(Revoked(s, connectionId, intent, now))
  {
    var after := Revoked(s, connectionId, intent, now);
    forall id ensures Lists(after, id) <==> Lists(s, id) { RevokeLists(s, connectionId, intent, now, id); }
    assert forall i :: 0 <= i < |after.connections| ==> after.connections[i].id == s.connections[i].id;
    assert forall i :: 0 <= i < |after.consents| ==>
      after.consents[i].id == s.consents[i].id && after.consents[i].connectionId == s.consents[i].connectionId;
    assert forall i :: 0 <= i < |after.sessions| ==>
      after.sessions[i].id == s.sessions[i].id && after.sessions[i].connectionId == s.sessions[i].connectionId;
  }

  // ----- who may, and what a first decision sees -----

  /** Connecting is for users who are admins or operators. */
  lemma WhoMayConnect(c: Context)
    ensures MayConnect(c) <==> c.actor.kind == UserActor && (Admin in c.actor.roles || Operator in c.actor.roles)
  {
    assert OPERATORS[0] == Admin && OPERATORS[1] == Operator && HUMAN[0] == UserActor;
  }

  /** Revoking is for the same, while the context itself has a connected provider of its own. */
  lemma WhoMayRevoke(c: Context, connectionId: string)
    ensures MayRevoke(c, connectionId) <==>
            && c.actor.kind == UserActor && (Admin in c.actor.roles || Operator in c.actor.roles)
            && c.provider.status == ProviderConnected
            && c.provider.owner in {None, Some(""), Some(c.subject)}
  {
    assert OPERATORS[0] == Admin && OPERATORS[1] == Operator && HUMAN[0] == UserActor;
  }

  /** The first decision of a subject without a snapshot sees the states and scopes of its own context: what the default
      snapshot makes of the context, a foundation makes back, whatever the request names. */
  lemma DefaultReflectsContext(c: Context, now: int, r: FoundationRequest)
    ensures var context := Resolve(DefaultSnapshot(c, now), c, r).context;
            && context.consent.status == c.consent.status && context.consent.scopes == c.consent.scopes
            && context.provider.status == c.provider.status
            && (c.provider.status != ProviderMissing ==> context.provider.scopes == c.provider.scopes)
            && context.session.status == c.session.status && context.session.scopes == c.session.scopes
            && (context.vault.status == if c.session.status == SessionActive then VaultConnected else c.vault.status)
            && (c.provider.status != ProviderMissing && c.provider.connectionId.Some? ==>
                  context.provider.connectionId == c.provider.connectionId)
            && (c.consent.status != GrantMissing && c.consent.grantId.Some? ==>
                  context.consent.grantId == c.consent.grantId)
            && (c.session.status != SessionMissing && c.session.sessionId.Some? ==>
                  context.session.sessionId == c.session.sessionId)
  {
  }

  /** The entries of a default snapshot, field by field. */
  lemma DefaultEntries(c: Context, now: int)
    ensures var s := DefaultSnapshot(c, now);
            var id := if s.connections == [] then "connection-pending-preview" else s.connections[0].id;
            && (c.provider.status == ProviderMissing <==> s.connections == [])
            && (c.consent.status == GrantMissing <==> s.consents == [])
            && (c.session.status == SessionMissing <==> s.sessions == [])
            && |s.connections| <= 1 && |s.consents| <= 1 && |s.sessions| <= 1
            && (forall x :: x in s.connections ==>
                  && x.id == OrElse(c.provider.connectionId, "conn_demo_salesforce")
                  && x.provider == OrElse(c.provider.provider, "salesforce")
                  && x.accountId == "acct_" + c.subject
                  && x.accountLabel == OrElse(c.provider.accountLabel, "Acme Realty CRM")
                  && x.grantLifecycleState == c.consent.status
                  && x.connectedAt == now && x.lastSyncedAt == now && !x.stepUpRequired)
            && (forall x :: x in s.consents ==>
                  && x.id == OrElse(c.consent.grantId, "cg_demo_001")
                  && x.provider == OrElse(c.provider.provider, "salesforce")
                  && x.subjectId == c.subject && x.connectionId == id && x.updatedAt == now
                  && !x.stepUpRequired && x.classification == Routine && x.summary == AvailableByDefault)
            && (forall x :: x in s.sessions ==>
                  && x.id == OrElse(c.session.sessionId, "vault_session_demo_001")
                  && x.provider == OrElse(c.session.provider, "salesforce")
                  && x.connectionId == id
                  && x.tokenReference == OrElse(c.session.tokenReference, "vault_ref_demo_001")
                  && x.audience == OrElse(c.session.audience, OrElse(c.tokenAudience, "agent-service"))
                  && x.issuedAt == now && x.expiresAt == now + 900_000 && !x.stepUpRequired)
  {
  }

  /** One subject's connections to different providers never share an id. */
  lemma ProvidersHaveOwnIds(p: string, q: string, subject: string)
    ensures ConnectionId(p, subject) == ConnectionId(q, subject) <==> p == q
    ensures ConsentId(p, subject) == ConsentId(q, subject) <==> p == q
    ensures SessionId(p, subject) == SessionId(q, subject) <==> p == q
  {
    MiddleDecides("conn_", p, q, "_" + subject);
    MiddleDecides("consent_", p, q, "_" + subject);
    MiddleDecides("vault_session_", p, q, "_" + subject);
    assert "conn_" + p + ("_" + subject) == ConnectionId(p, subject);
    assert "conn_" + q + ("_" + subject) == ConnectionId(q, subject);
    assert "consent_" + p + ("_" + subject) == ConsentId(p, subject);
    assert "consent_" + q + ("_" + subject) == ConsentId(q, subject);
    assert "vault_session_" + p + ("_" + subject) == SessionId(p, subject);
    assert "vault_session_" + q + ("_" + subject) == SessionId(q, subject);
  }

  lemma MiddleDecides(before: string, p: string, q: string, behind: string)
    ensures before + p + behind == before + q + behind <==> p == q
  {
    if before + p + behind == before + q + behind {
      assert |p| == |q|;
      assert p == (before + p + behind)[|before|..|before| + |p|];
      assert q == (before + q + behind)[|before|..|before| + |q|];
    }
  }

  // ----- revocation -----

  /** Connection `id` is listed, every entry of it is revoked, and no session of it is active. */
  ghost predicate RevokedIn(s: Snapshot, id: string) {
    && Lists(s, id)
    && (forall x :: x in s.connections && x.id == id ==> x.status == ProviderRevoked)
    && (forall x :: x in s.sessions && x.connectionId == id ==> x.status != SessionActive)
  }

  lemma RevokeRevokes(s: Snapshot, id: string, intent: RevocationIntent, now: int)
    requires Lists(s, id)
    ensures RevokedIn(Revoked(s, id, intent, now), id)
  {
    RevokeLists(s, id, intent, now, id);
  }

  lemma RevokeKeepsRevoked(s: Snapshot, id: string, connectionId: string, intent: RevocationIntent, now: int)
    requires RevokedIn(s, id)
    ensures RevokedIn(Revoked(s, connectionId, intent, now), id)
  {
    RevokeLists(s, connectionId, intent, now, id);
    var after := Revoked(s, connectionId, intent, now);
    forall x | x in after.connections && x.id == id ensures x.status == ProviderRevoked {
      var i :| 0 <= i < |after.connections| && after.connections[i] == x;
      assert s.connections[i] in s.connections;
    }
    forall x | x in after.sessions && x.connectionId == id ensures x.status != SessionActive {
      var i :| 0 <= i < |after.sessions| && after.sessions[i] == x;
      assert s.sessions[i] in s.sessions;
    }
  }

  lemma ConnectElsewhereKeepsRevoked(s: Snapshot, id: string, c: Context, r: ConnectRequest, now: int)
    requires RevokedIn(s, id) && ConnectionId(r.provider, c.subject) != id
    ensures RevokedIn(Connected(s, c, r, now), id)
  {
    ConnectLists(s, c, r, now, id);
  }

  /** A request naming a revoked connection resolves to it, whatever else the snapshot holds. */
  lemma RevokedResolvesToRevoked(s: Snapshot, id: string, c: Context, r: FoundationRequest)
    requires RevokedIn(s, id) && r.connectionId == Some(id)
    ensures Resolve(s, c, r).context.provider.status == ProviderRevoked
  {
    var i :| 0 <= i < |s.connections| && IdOfConnection()(s.connections[i]) == id;
    var wanted := (x: Connection) => Some(x.id) == r.connectionId;
    assert wanted(s.connections[i]);
    assert Find(s.connections, wanted).Some?;
  }

  // ----- connection -----

  function ContextAfterConnect(c: Context, r: ConnectRequest, now: int, audience: string): Context {
    DelegatedContext(c, audience, Some(NewConnection(c, r, now)), Some(NewConsent(c, r, now)),
                     Some(NewSession(c, r, now)))
  }

  /** Right after a connect, a request naming the new connection resolves to the three entries just written. */
  lemma ConnectResolvesToNew(s: Snapshot, c: Context, r: ConnectRequest, now: int, f: FoundationRequest)
    requires f.connectionId == Some(ConnectionId(r.provider, c.subject))
    ensures var resolved := Resolve(Connected(s, c, r, now), c, f);
            && resolved.connection == Some(NewConnection(c, r, now))
            && resolved.consent == Some(NewConsent(c, r, now))
            && resolved.session == Some(NewSession(c, r, now))
            && resolved.context == ContextAfterConnect(c, r, now, f.audience)
  {
    var after := Connected(s, c, r, now);
    assert after.connections[0] == NewConnection(c, r, now);
    assert after.consents[0] == NewConsent(c, r, now);
    assert after.sessions[0] == NewSession(c, r, now);
  }

  /** In the context a connect leaves behind, a policy that asks for delegated state allows
      exactly when the granted scopes cover what it asks for. */
  lemma ConnectedContextAllows(c: Context, r: ConnectRequest, now: int, audience: string, policy: Policy,
                               resource: Option<Resource>)
    requires MayConnect(c) && policy.roles == OPERATORS && policy.actorTypes == HUMAN && policy.ownership
    ensures Allows(policy, ContextAfterConnect(c, r, now, audience), resource) <==>
              && NotOfOther(resource, c.subject)
              && (policy.consent.Some? ==> Covers(r.requestedScopes, policy.consent.value))
              && (policy.vault.Some? ==> Covers(r.requestedScopes, policy.vault.value))
              && (policy.provider.Some? ==> Covers(r.requestedScopes, policy.provider.value))
              && (policy.session.Some? ==> Covers(r.requestedScopes, policy.session.value))
              && (policy.stepUp ==> StepUpHolds(c, resource))
  {
    var context := ContextAfterConnect(c, r, now, audience);
    var role :| role in c.actor.roles && role in PolicyOf(ProviderConnectionsConnect).roles;
    assert role in context.actor.roles && role in policy.roles;
  }
}
