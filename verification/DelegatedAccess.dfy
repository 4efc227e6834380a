/** Delegated access snapshots: per subject, the provider connections, consents and vault sessions
    that connect and revoke rewrite in place. */
module DelegatedAccess {
  import opened Sequences
  import opened Policies
  import opened PolicyEngine

  datatype Connection = Connection(
    id: string, provider: string, accountId: string, accountLabel: string, status: ProviderStatus,
    grantedScopes: seq<Scope>, grantLifecycleState: GrantStatus, connectedAt: int, lastSyncedAt: int,
    stepUpRequired: bool)

  datatype ConsentText = ConnectedPlaceholder | AvailableByDefault | RevokedBecause(reason: string)

  datatype Consent = Consent(
    id: string, provider: string, subjectId: string, connectionId: string, status: GrantStatus,
    scopes: seq<Scope>, updatedAt: int, stepUpRequired: bool, classification: Classification, summary: ConsentText)

  datatype Session = Session(
    id: string, provider: string, connectionId: string, tokenReference: string, status: SessionStatus,
    audience: string, scopes: seq<Scope>, issuedAt: int, expiresAt: int, stepUpRequired: bool)

  /** The value of a snapshot. */
  datatype Snapshot = Snapshot(connections: seq<Connection>, consents: seq<Consent>, sessions: seq<Session>)

  type Snapshots = map<string, Snapshot>

  datatype ConnectRequest = ConnectRequest(
    provider: string, accountLabel: string, requestedScopes: seq<Scope>, classification: Classification)

  datatype RevocationIntent = RevocationIntent(reason: string, revokeGrants: bool)

  datatype FoundationRequest = FoundationRequest(
    audience: string, connectionId: Option<string>, consentGrantId: Option<string>,
    classification: Option<Classification>)

  datatype Foundation = Foundation(
    connection: Option<Connection>, consent: Option<Consent>, session: Option<Session>, context: Context,
    stepUpRequired: bool)

  const PENDING_CONNECTION := "connection-pending-preview"
  const SESSION_LIFETIME_MS := 15 * 60 * 1000

  function ConnectionId(provider: string, subject: string): string { "conn_" + provider + "_" + subject }
  function ConsentId(provider: string, subject: string): string { "consent_" + provider + "_" + subject }
  function SessionId(provider: string, subject: string): string { "vault_session_" + provider + "_" + subject }

  function IdOfConnection(): Connection -> string { (c: Connection) => c.id }
  function IdOfConsent(): Consent -> string { (c: Consent) => c.id }
  function IdOfSession(): Session -> string { (s: Session) => s.id }

  // ----- the operations, on values -----

  /** `createDefaultSnapshot`. */
  function DefaultSnapshot(c: Context, now: int): Snapshot {
    var connections :=
      if c.provider.status == ProviderMissing then []
      else [Connection(
              OrElse(c.provider.connectionId, "conn_demo_salesforce"), OrElse(c.provider.provider, "salesforce"),
              "acct_" + c.subject, OrElse(c.provider.accountLabel, "Acme Realty CRM"), c.provider.status,
              c.provider.scopes, c.consent.status, now, now, false)];
    var connectionId := if connections == [] then PENDING_CONNECTION else connections[0].id;
    var consents :=
      if c.consent.status == GrantMissing then []
      else [Consent(
              OrElse(c.consent.grantId, "cg_demo_001"), OrElse(c.provider.provider, "salesforce"), c.subject,
              connectionId, c.consent.status, c.consent.scopes, now, false, Routine, AvailableByDefault)];
    var sessions :=
      if c.session.status == SessionMissing then []
      else [Session(
              OrElse(c.session.sessionId, "vault_session_demo_001"), OrElse(c.session.provider, "salesforce"),
              connectionId, OrElse(c.session.tokenReference, "vault_ref_demo_001"), c.session.status,
              OrElse(OrElseOption(c.session.audience, c.tokenAudience), "agent-service"), c.session.scopes,
              now, now + SESSION_LIFETIME_MS, false)];
    Snapshot(connections, consents, sessions)
  }

  /** `ensureSnapshot`. */
  function Ensured(all: Snapshots, c: Context, now: int): Snapshots {
    if c.subject in all then all else all[c.subject := DefaultSnapshot(c, now)]
  }

  function NewConnection(c: Context, r: ConnectRequest, now: int): Connection {
    Connection(
      ConnectionId(r.provider, c.subject), r.provider, "acct_" + r.provider + "_" + c.subject, r.accountLabel,
      ProviderConnected, r.requestedScopes, Granted, now, now, r.classification != Routine && !c.stepUpSatisfied)
  }

  function NewConsent(c: Context, r: ConnectRequest, now: int): Consent {
    Consent(
      ConsentId(r.provider, c.subject), r.provider, c.subject, ConnectionId(r.provider, c.subject), Granted,
      r.requestedScopes, now, r.classification != Routine && !c.stepUpSatisfied, r.classification, ConnectedPlaceholder)
  }

  function NewSession(c: Context, r: ConnectRequest, now: int): Session {
    Session(
      SessionId(r.provider, c.subject), r.provider, ConnectionId(r.provider, c.subject),
      "vault_ref_" + r.provider + "_" + c.subject, SessionActive, OrElse(c.tokenAudience, "agent-service"),
      r.requestedScopes, now, now + SESSION_LIFETIME_MS, r.classification != Routine && !c.stepUpSatisfied)
  }

  /** What an allowed `connectProvider` makes of the subject's snapshot. */
  function Connected(s: Snapshot, c: Context, r: ConnectRequest, now: int): Snapshot {
    var connection, consent, session := NewConnection(c, r, now), NewConsent(c, r, now), NewSession(c, r, now);
    Snapshot(
      [connection] + Filter(s.connections, (x: Connection) => x.id != connection.id),
      [consent] + Filter(s.consents, (x: Consent) => x.id != consent.id),
      [session] + Filter(s.sessions, (x: Session) => x.id != session.id))
  }

  /** What a revocation makes of one entry of each list. */
  function RevokedConnection(x: Connection, connectionId: string, now: int): Connection {
    if x.id == connectionId
    then x.(status := ProviderRevoked, grantLifecycleState := GrantRevoked, lastSyncedAt := now) else x
  }

  function RevokedConsent(x: Consent, connectionId: string, intent: RevocationIntent, now: int): Consent {
    if x.connectionId == connectionId && intent.revokeGrants
    then x.(status := GrantRevoked, updatedAt := now, summary := RevokedBecause(intent.reason)) else x
  }

  function RevokedSession(x: Session, connectionId: string, now: int): Session {
    if x.connectionId == connectionId then x.(status := SessionRevoked, expiresAt := now) else x
  }

  /** What an allowed `revokeConnection` makes of the subject's snapshot. */
  function Revoked(s: Snapshot, connectionId: string, intent: RevocationIntent, now: int): Snapshot {
    Snapshot(
      seq(|s.connections|, i requires 0 <= i < |s.connections| =>
          RevokedConnection(s.connections[i], connectionId, now)),
      seq(|s.consents|, i requires 0 <= i < |s.consents| => RevokedConsent(s.consents[i], connectionId, intent, now)),
      seq(|s.sessions|, i requires 0 <= i < |s.sessions| => RevokedSession(s.sessions[i], connectionId, now)))
  }

  function FirstOf<T>(s: seq<T>): Option<T> {
    if s == [] then None else Some(s[0])
  }

  function ChosenConnection(s: Snapshot, wanted: Option<string>): Option<Connection> {
    OrElseOption(Find(s.connections, (x: Connection) => wanted == Some(x.id)), FirstOf(s.connections))
  }

  function ChosenConsent(s: Snapshot, wanted: Option<string>, connection: Option<Connection>): Option<Consent> {
    OrElseOption(
      Find(s.consents, (x: Consent) =>
             wanted == Some(x.id) || (connection.Some? && x.connectionId == connection.value.id)),
      FirstOf(s.consents))
  }

  function ChosenSession(s: Snapshot, connection: Option<Connection>): Option<Session> {
    OrElseOption(
      Find(s.sessions, (x: Session) => connection.Some? && x.connectionId == connection.value.id),
      FirstOf(s.sessions))
  }

  /** The authorization context rebuilt from the chosen entries. */
  function DelegatedContext(c: Context, audience: string, connection: Option<Connection>, consent: Option<Consent>,
                            session: Option<Session>): Context
  {
    c.(consent := ConsentContext(
         if consent.Some? then Some(consent.value.id) else None,
         if consent.Some? then consent.value.status else GrantMissing,
         if consent.Some? then consent.value.scopes else c.consent.scopes,
         Some(c.subject)),
       vault := VaultContext(
         Some(OrElse(c.vault.connectionId, "conn_demo_vault")), Some(OrElse(c.vault.provider, "auth0-token-vault")),
         if session.Some? && session.value.status == SessionActive then VaultConnected else c.vault.status,
         if session.Some? then session.value.scopes else c.vault.scopes,
         Some(c.subject)),
       provider := ProviderContext(
         if connection.Some? then Some(connection.value.id) else None,
         if connection.Some? then Some(connection.value.provider) else None,
         if connection.Some? then Some(connection.value.accountLabel) else None,
         if connection.Some? then connection.value.status else ProviderMissing,
         if connection.Some? then connection.value.grantedScopes else [],
         Some(c.subject)),
       session := SessionContext(
         if session.Some? then Some(session.value.id) else None,
         if session.Some? then Some(session.value.provider) else None,
         if session.Some? then Some(session.value.tokenReference) else None,
         if session.Some? then session.value.status else SessionMissing,
         Some(audience),
         if session.Some? then session.value.scopes else c.session.scopes,
         Some(c.subject)))
  }

  /** `resolveDelegatedTokenFoundation`, given the subject's snapshot. */
  function Resolve(s: Snapshot, c: Context, r: FoundationRequest): Foundation {
    var connection := ChosenConnection(s, r.connectionId);
    var consent := ChosenConsent(s, r.consentGrantId, connection);
    var session := ChosenSession(s, connection);
    Foundation(connection, consent, session, DelegatedContext(c, r.audience, connection, consent, session),
               r.classification.Some? && r.classification.value != Routine && !c.stepUpSatisfied)
  }

  function OwnConnection(c: Context, id: Option<string>): Option<Resource> {
    Some(Resource(id, Some(c.subject), None))
  }

  ghost predicate MayConnect(c: Context) {
    Allows(PolicyOf(ProviderConnectionsConnect), c, OwnConnection(c, None))
  }

  ghost predicate MayRevoke(c: Context, connectionId: string) {
    Allows(PolicyOf(ProviderConnectionsRevoke), c, OwnConnection(c, Some(connectionId)))
  }

  ghost function AfterConnect(all: Snapshots, c: Context, r: ConnectRequest, now: int): Snapshots {
    if !MayConnect(c) then all
    else
      var ensured := Ensured(all, c, now);
      ensured[c.subject := Connected(ensured[c.subject], c, r, now)]
  }

  ghost function AfterRevoke(all: Snapshots, c: Context, id: string, intent: RevocationIntent, now: int): Snapshots {
    if !MayRevoke(c, id) then all
    else
      var ensured := Ensured(all, c, now);
      ensured[c.subject := Revoked(ensured[c.subject], id, intent, now)]
  }

  // ----- the service -----

  /** The classification asks for a step-up that the context has not had. */
  predicate AsksStepUp(c: Context, request: ConnectRequest) {
    request.classification in {Sensitive, HighImpact} && !c.stepUpSatisfied
  }

  /** The first entry with the property, or the first of all if none has it, or none of an empty list. */
  ghost predicate FirstOrDefault<T>(s: seq<T>, wanted: T -> bool, chosen: Option<T>) {
    && (chosen.None? <==> s == [])
    && (chosen.Some? && (exists x :: x in s && wanted(x)) ==>
          exists i :: 0 <= i < |s| && s[i] == chosen.value && wanted(s[i]) && forall j :: 0 <= j < i ==> !wanted(s[j]))
    && (chosen.Some? && (forall x :: x in s ==> !wanted(x)) ==> chosen.value == s[0])
  }

  /** What a foundation takes from a snapshot: the connection asked for, the consent asked for or of that connection,
      and the session of that connection, or else the first of each. */
  ghost predicate TakenFrom(f: Foundation, s: Snapshot, r: FoundationRequest) {
    && FirstOrDefault(s.connections, (x: Connection) => r.connectionId == Some(x.id), f.connection)
    && FirstOrDefault(s.consents, (x: Consent) =>
                        || r.consentGrantId == Some(x.id)
                        || (f.connection.Some? && x.connectionId == f.connection.value.id),
                      f.consent)
    && FirstOrDefault(s.sessions, (x: Session) => f.connection.Some? && x.connectionId == f.connection.value.id,
                      f.session)
  }

  /** The context of a foundation says of consent, vault, connection and session what the entries taken say, as the
      subject's own, and keeps the rest of the asking context. */
  ghost predicate Tells(f: Foundation, c: Context, r: FoundationRequest) {
    var own := Some(c.subject);
    && f.context.actor == c.actor && f.context.subject == c.subject
    && f.context.tokenAudience == c.tokenAudience && f.context.stepUpSatisfied == c.stepUpSatisfied
    && f.context.consent == (match f.consent
                             case None => ConsentContext(None, GrantMissing, c.consent.scopes, own)
                             case Some(x) => ConsentContext(Some(x.id), x.status, x.scopes, own))
    && f.context.provider == (match f.connection
                              case None => ProviderContext(None, None, None, ProviderMissing, [], own)
                              case Some(x) => ProviderContext(Some(x.id), Some(x.provider), Some(x.accountLabel),
                                                              x.status, x.grantedScopes, own))
    && f.context.session == (match f.session
                             case None =>
                               SessionContext(None, None, None, SessionMissing, Some(r.audience), c.session.scopes, own)
                             case Some(x) =>
                               SessionContext(Some(x.id), Some(x.provider), Some(x.tokenReference), x.status,
                                              Some(r.audience), x.scopes, own))
    && f.context.vault.connectionId ==
       (if c.vault.connectionId.Some? then c.vault.connectionId else Some("conn_demo_vault"))
    && f.context.vault.provider == (if c.vault.provider.Some? then c.vault.provider else Some("auth0-token-vault"))
    && f.context.vault.status == (match f.session
                                  case None => c.vault.status
                                  case Some(x) => if x.status == SessionActive then VaultConnected else c.vault.status)
    && f.context.vault.scopes == (if f.session.Some? then f.session.value.scopes else c.vault.scopes)
    && f.context.vault.owner == own
    && (f.stepUpRequired <==> r.classification in {Some(Sensitive), Some(HighImpact)} && !c.stepUpSatisfied)
  }

  lemma ChoiceIsFirst<T>(s: seq<T>, wanted: T -> bool)
    ensures FirstOrDefault(s, wanted, OrElseOption(Find(s, wanted), FirstOf(s)))
  {
    if Find(s, wanted).Some? {
      FindIsFirst(s, wanted);
    }
  }

  lemma ResolveTakes(s: Snapshot, c: Context, r: FoundationRequest)
    ensures TakenFrom(Resolve(s, c, r), s, r)
  {
    var f := Resolve(s, c, r);
    ChoiceIsFirst(s.connections, (x: Connection) => r.connectionId == Some(x.id));
    ChoiceIsFirst(s.consents, (x: Consent) =>
                    r.consentGrantId == Some(x.id) || (f.connection.Some? && x.connectionId == f.connection.value.id));
    ChoiceIsFirst(s.sessions, (x: Session) => f.connection.Some? && x.connectionId == f.connection.value.id);
  }

  /** A snapshot as the store holds it: one mutable object per subject. */
  class SnapshotObject {
    var connections: seq<Connection>
    var consents: seq<Consent>
    var sessions: seq<Session>

    constructor (s: Snapshot)
      ensures Value() == s
    {
      connections, consents, sessions := s.connections, s.consents, s.sessions;
    }

    function Value(): Snapshot
      reads this
    {
      Snapshot(connections, consents, sessions)
    }

    /** The assignments of `connectProvider`: the new entry first, then the others. */
    method Connect(c: Context, request: ConnectRequest, now: int)
      modifies this
      ensures Value() == Connected(old(Value()), c, request, now)
      ensures |connections| > 0 && connections[0] == Connection(
                "conn_" + request.provider + "_" + c.subject, request.provider,
                "acct_" + request.provider + "_" + c.subject, request.accountLabel, ProviderConnected,
                request.requestedScopes, Granted, now, now, AsksStepUp(c, request))
      ensures |consents| > 0 && consents[0] == Consent(
                "consent_" + request.provider + "_" + c.subject, request.provider, c.subject, connections[0].id,
                Granted, request.requestedScopes, now, AsksStepUp(c, request), request.classification,
                ConnectedPlaceholder)
      ensures |sessions| > 0 && sessions[0] == Session(
                "vault_session_" + request.provider + "_" + c.subject, request.provider, connections[0].id,
                "vault_ref_" + request.provider + "_" + c.subject, SessionActive,
                if c.tokenAudience.Some? then c.tokenAudience.value else "agent-service", request.requestedScopes,
                now, now + 900_000, AsksStepUp(c, request))
    {
      var connection, consent := NewConnection(c, request, now), NewConsent(c, request, now);
      var session := NewSession(c, request, now);
      connections := [connection] + Filter(connections, (x: Connection) => x.id != connection.id);
      consents := [consent] + Filter(consents, (x: Consent) => x.id != consent.id);
      sessions := [session] + Filter(sessions, (x: Session) => x.id != session.id);
    }

    /** The assignments of `revokeConnection`: each list is mapped entry by entry, and a listed connection ends revoked,
        without an active session. */
    method Revoke(connectionId: string, intent: RevocationIntent, now: int)
      modifies this
      ensures Value() == Revoked(old(Value()), connectionId, intent, now)
      ensures |connections| == |old(connections)| && forall i :: 0 <= i < |connections| ==>
                var x := old(connections)[i];
                connections[i] ==
                if x.id != connectionId then x
                else x.(status := ProviderRevoked, grantLifecycleState := GrantRevoked, lastSyncedAt := now)
      ensures |consents| == |old(consents)| && forall i :: 0 <= i < |consents| ==>
                var x := old(consents)[i];
                consents[i] ==
                if !intent.revokeGrants || x.connectionId != connectionId then x
                else x.(status := GrantRevoked, updatedAt := now, summary := RevokedBecause(intent.reason))
      ensures |sessions| == |old(sessions)| && forall i :: 0 <= i < |sessions| ==>
                var x := old(sessions)[i];
                sessions[i] ==
                if x.connectionId != connectionId then x else x.(status := SessionRevoked, expiresAt := now)
    {
      var before, granted, open := connections, consents, sessions;
      connections := seq(|before|, i requires 0 <= i < |before| => RevokedConnection(before[i], connectionId, now));
      consents := seq(|granted|, i requires 0 <= i < |granted| =>
                      RevokedConsent(granted[i], connectionId, intent, now));
      sessions := seq(|open|, i requires 0 <= i < |open| => RevokedSession(open[i], connectionId, now));
    }
  }

  class DelegatedAccessService {
    const wording: Wording
    var store: map<string, SnapshotObject>

    /** No two subjects share a snapshot object. */
    ghost predicate Valid()
      reads this
    {
      forall s, t :: s in store && t in store && s != t ==> store[s] != store[t]
    }

    ghost function View(): Snapshots
      reads this, store.Values
    {
      map s | s in store :: store[s].Value()
    }

    /** Changing one subject's snapshot object changes the view at that subject only. */
    twostate lemma OneSubjectChanged(subject: string)
      requires old(Valid()) && store == old(store) && subject in store
      requires forall o :: o in old(store.Values) && o != store[subject] ==> unchanged(o)
      ensures View() == old(View())[subject := store[subject].Value()]
    {
      forall s | s in store && s != subject ensures store[s].Value() == old(store[s].Value()) {
        assert store[s] in old(store.Values) && store[s] != store[subject];
      }
    }

    constructor (wording: Wording)
      ensures Valid() && View() == map[] && this.wording == wording
    {
      this.wording := wording;
      store := map[];
    }

    method EnsureSnapshot(c: Context, now: int) returns (snapshot: SnapshotObject)
      requires Valid()
      modifies this
      ensures Valid() && View() == Ensured(old(View()), c, now)
      ensures c.subject in store && store[c.subject] == snapshot
      ensures store.Values <= old(store.Values) + {snapshot}
      ensures fresh(snapshot) || snapshot in old(store.Values)
      ensures fresh(store.Values - old(store.Values))
    {
      if c.subject in store {
        return store[c.subject];
      }
      snapshot := new SnapshotObject(DefaultSnapshot(c, now));
      store := store[c.subject := snapshot];
    }

    method ConnectProvider(c: Context, request: ConnectRequest, now: int) returns (decision: Decision)
      requires Valid()
      modifies this, store.Values
      ensures Valid() && fresh(store.Values - old(store.Values))
      ensures decision.allowed <==> MayConnect(c)
      ensures View() == AfterConnect(old(View()), c, request, now)
    {
      decision := DecideConnect(c);
      if !decision.allowed { return; }
      RecordConnection(c, request, now);
    }

    method DecideConnect(c: Context) returns (decision: Decision)
      ensures decision.allowed <==> MayConnect(c)
    {
      decision := EvaluatePermission(c, ProviderConnectionsConnect, OwnConnection(c, None), wording);
    }

    method RecordConnection(c: Context, request: ConnectRequest, now: int)
      requires Valid()
      modifies this, store.Values
      ensures Valid() && fresh(store.Values - old(store.Values))
      ensures var all := Ensured(old(View()), c, now);
              View() == all[c.subject := Connected(all[c.subject], c, request, now)]
    {
      var snapshot := EnsureSnapshot(c, now);
      ConnectStored(c, snapshot, request, now);
    }

    method ConnectStored(c: Context, snapshot: SnapshotObject, request: ConnectRequest, now: int)
      requires Valid() && c.subject in store && store[c.subject] == snapshot
      modifies `store, snapshot
      ensures Valid() && store == old(store)
      ensures View() == old(View())[c.subject := Connected(old(snapshot.Value()), c, request, now)]
    {
      snapshot.Connect(c, request, now);
      OneSubjectChanged(c.subject);
      assert store[c.subject := snapshot] == store;
      store := store[c.subject := snapshot];
    }

    method RevokeConnection(c: Context, connectionId: string, intent: RevocationIntent, now: int)
      returns (decision: Decision)
      requires Valid()
      modifies this, store.Values
      ensures Valid() && fresh(store.Values - old(store.Values))
      ensures decision.allowed <==> MayRevoke(c, connectionId)
      ensures View() == AfterRevoke(old(View()), c, connectionId, intent, now)
    {
      decision := EvaluatePermission(c, ProviderConnectionsRevoke, OwnConnection(c, Some(connectionId)), wording);
      if !decision.allowed { return; }
      RecordRevocation(c, connectionId, intent, now);
    }

    method RecordRevocation(c: Context, connectionId: string, intent: RevocationIntent, now: int)
      requires Valid()
      modifies this, store.Values
      ensures Valid() && fresh(store.Values - old(store.Values))
      ensures var all := Ensured(old(View()), c, now);
              View() == all[c.subject := Revoked(all[c.subject], connectionId, intent, now)]
    {
      var snapshot := EnsureSnapshot(c, now);
      RevokeStored(c, snapshot, connectionId, intent, now);
    }

    method RevokeStored(c: Context, snapshot: SnapshotObject, connectionId: string, intent: RevocationIntent, now: int)
      requires Valid() && c.subject in store && store[c.subject] == snapshot
      modifies `store, snapshot
      ensures Valid() && store == old(store)
      ensures View() == old(View())[c.subject := Revoked(old(snapshot.Value()), connectionId, intent, now)]
    {
      snapshot.Revoke(connectionId, intent, now);
      OneSubjectChanged(c.subject);
      assert store[c.subject := snapshot] == store;
      store := store[c.subject := snapshot];
    }

    method ResolveDelegatedTokenFoundation(c: Context, request: FoundationRequest, now: int)
      returns (foundation: Foundation)
      requires Valid()
      modifies this
      ensures Valid() && fresh(store.Values - old(store.Values))
      ensures View() == Ensured(old(View()), c, now)
      ensures foundation == Resolve(View()[c.subject], c, request)
      ensures TakenFrom(foundation, View()[c.subject], request) && Tells(foundation, c, request)
    {
      var snapshot := EnsureSnapshot(c, now);
      foundation := Resolve(snapshot.Value(), c, request);
      ResolveTakes(snapshot.Value(), c, request);
    }
  }
}
