/** The token broker: a cache in front of token issue, keyed by a canonical form of the request.
    A retrieval runs in three atomic stages, separated by its awaits: it peeks at the cache;
    it resolves, decides and counts; it stores the record. */
module TokenBroker {
  import opened Sequences
  import opened Policies
  import opened PolicyEngine
  import opened ReasonCodes
  import opened DelegatedAccess
  import opened ScopeOrder

  datatype Intent = M2m | Delegated

  datatype TokenRequest = TokenRequest(
    audience: string, scopes: seq<string>, intent: Intent, actorId: Option<string>, subjectId: Option<string>,
    connectionId: Option<string>, consentGrantId: Option<string>, classification: Option<Classification>)

  datatype Normalized = Normalized(
    audience: string, scopes: seq<string>, intent: Intent, actorId: string, subjectId: string,
    connectionId: Option<string>, consentGrantId: Option<string>, classification: Option<Classification>)

  /** The canonical record that is hashed into the cache key; the hash is taken to be injective. */
  datatype Key = Key(
    actorId: string, audience: string, connectionId: Option<string>, consentGrantId: Option<string>, intent: Intent,
    scopes: seq<string>, classification: Option<Classification>, subjectId: string)

  datatype Source = Issued | DelegatedPlaceholder | Cached

  datatype Metadata = Metadata(
    source: Source, intent: Intent, audience: string, scopes: seq<string>, issuedAt: int, expiresAt: int,
    cacheKey: Key, cacheHit: bool, actorId: string, actorKind: ActorType, subjectId: string,
    provider: Option<string>, consentGrantId: Option<string>, connectionId: Option<string>,
    vaultSessionId: Option<string>, vaultTokenReference: Option<string>, stepUpRequired: bool,
    classification: Option<Classification>)

  datatype Record = Record(cacheKey: Key, metadata: Metadata, createdAt: int, lastAccessedAt: int, hitCount: nat)

  const TOKEN_LIFETIME_MS := 15 * 60 * 1000

  // ----- the pure parts -----

  /** `normalizeRequest`. */
  function Normalize(r: TokenRequest, c: Context): Normalized {
    Normalized(
      r.audience, r.scopes, r.intent, OrElse(r.actorId, c.actor.id), OrElse(r.subjectId, c.subject),
      OrElseOption(r.connectionId, OrElseOption(c.provider.connectionId, c.vault.connectionId)),
      OrElseOption(r.consentGrantId, c.consent.grantId), r.classification)
  }

  /** `computeCacheKey`, up to the hash. */
  function KeyOf(n: Normalized): Key {
    Key(n.actorId, n.audience, n.connectionId, n.consentGrantId, n.intent, Sort(n.scopes), n.classification,
        n.subjectId)
  }

  predicate IsSensitive(n: Normalized) {
    n.intent == Delegated && n.classification.Some? && n.classification.value != Routine
  }

  /** `buildResourceContext`; the id, which no policy reads, is left out. */
  function ResourceFor(n: Normalized): Option<Resource> {
    Some(Resource(None, Some(n.subjectId), if IsSensitive(n) then n.classification else None))
  }

  /** The permission `evaluateRequestDecision` asks for. */
  function PermissionFor(n: Normalized, cacheHit: bool): Permission {
    if IsSensitive(n) then SensitiveActionsExecute
    else if n.intent == Delegated then DelegatedTokensUse
    else if cacheHit then BrokeredTokensReuse
    else BrokeredTokensBroker
  }

  ghost predicate Authorizes(c: Context, n: Normalized, cacheHit: bool) {
    Allows(PolicyOf(PermissionFor(n, cacheHit)), c, ResourceFor(n))
  }

  /** The request is about a sensitive or high-impact action on somebody's behalf. */
  predicate AsksSensitive(intent: Intent, classification: Option<Classification>) {
    intent == Delegated && classification in {Some(Sensitive), Some(HighImpact)}
  }

  /** Which permission decides: that of sensitive actions, of delegated tokens, or for machines of reuse or broking. */
  ghost predicate RightPermission(p: Permission, n: Normalized, cacheHit: bool) {
    && (AsksSensitive(n.intent, n.classification) ==> p == SensitiveActionsExecute)
    && (n.intent == Delegated && n.classification in {None, Some(Routine)} ==> p == DelegatedTokensUse)
    && (n.intent == M2m && cacheHit ==> p == BrokeredTokensReuse)
    && (n.intent == M2m && !cacheHit ==> p == BrokeredTokensBroker)
  }

  /** The decision is about the right permission and a resource of the request's subject, allows exactly what the policy
      allows, and a denial reports exactly the objections. */
  ghost predicate Decides(decision: Decision, c: Context, n: Normalized, cacheHit: bool) {
    var classification := if AsksSensitive(n.intent, n.classification) then n.classification else None;
    var resource := Some(Resource(None, Some(n.subjectId), classification));
    && RightPermission(decision.permission, n, cacheHit)
    && (decision.allowed <==> Allows(PolicyOf(decision.permission), c, resource))
    && (decision.allowed <==> Authorizes(c, n, cacheHit))
    && (decision.allowed ==> forall r :: r in decision.reasons ==> r.code == PolicyAllow)
    && (!decision.allowed ==> forall code ::
          Reports(decision.reasons, code) <==> Objection(code, PolicyOf(decision.permission), c, resource))
  }

  /** The key of a request in a context: what the request names wins; what it leaves open, the context fills in. */
  ghost predicate AsksFor(k: Key, request: TokenRequest, c: Context) {
    && (request.actorId.Some? ==> k.actorId == request.actorId.value)
    && (request.actorId.None? ==> k.actorId == c.actor.id)
    && (request.subjectId.Some? ==> k.subjectId == request.subjectId.value)
    && (request.subjectId.None? ==> k.subjectId == c.subject)
    && (request.connectionId.Some? ==> k.connectionId == request.connectionId)
    && (request.connectionId.None? && c.provider.connectionId.Some? ==> k.connectionId == c.provider.connectionId)
    && (request.connectionId.None? && c.provider.connectionId.None? ==> k.connectionId == c.vault.connectionId)
    && (request.consentGrantId.Some? ==> k.consentGrantId == request.consentGrantId)
    && (request.consentGrantId.None? ==> k.consentGrantId == c.consent.grantId)
    && k.audience == request.audience && k.intent == request.intent && k.classification == request.classification
    && Sorted(k.scopes) && multiset(k.scopes) == multiset(request.scopes)
  }

  /** A request in a context has exactly one key. */
  lemma KeyIsAskedFor(request: TokenRequest, c: Context, k: Key)
    ensures AsksFor(k, request, c) <==> k == KeyOf(Normalize(request, c))
  {
    SortSorts(request.scopes);
    if AsksFor(k, request, c) {
      SortedIsCanonical(k.scopes, Sort(request.scopes));
    }
  }

  lemma OneKey(request: TokenRequest, c: Context)
    ensures forall k :: AsksFor(k, request, c) <==> k == KeyOf(Normalize(request, c))
  {
    forall k ensures AsksFor(k, request, c) <==> k == KeyOf(Normalize(request, c)) { KeyIsAskedFor(request, c, k); }
  }

  function FoundationRequestOf(n: Normalized): FoundationRequest {
    FoundationRequest(n.audience, n.connectionId, n.consentGrantId, n.classification)
  }

  function DecisionContext(c: Context, foundation: Option<Foundation>): Context {
    if foundation.Some? then foundation.value.context else c
  }

  function ConnectionOf(f: Option<Foundation>): Option<Connection> { if f.Some? then f.value.connection else None }
  function ConsentOf(f: Option<Foundation>): Option<Consent> { if f.Some? then f.value.consent else None }
  function SessionOf(f: Option<Foundation>): Option<Session> { if f.Some? then f.value.session else None }

  /** The record `issueAndCachePlaceholderToken` builds. */
  function Issue(n: Normalized, c: Context, foundation: Option<Foundation>, now: int): Record {
    var connection, consent, session := ConnectionOf(foundation), ConsentOf(foundation), SessionOf(foundation);
    var metadata := Metadata(
      if n.intent == Delegated then DelegatedPlaceholder else Issued, n.intent, n.audience, n.scopes,
      now, now + TOKEN_LIFETIME_MS, KeyOf(n), false, c.actor.id, c.actor.kind, c.subject,
      if connection.Some? then Some(connection.value.provider) else c.provider.provider,
      if consent.Some? then Some(consent.value.id) else n.consentGrantId,
      if connection.Some? then Some(connection.value.id) else n.connectionId,
      if session.Some? then Some(session.value.id) else None,
      if session.Some? then Some(session.value.tokenReference) else None,
      if foundation.Some? then foundation.value.stepUpRequired
      else n.classification.Some? && n.classification.value != Routine && !c.stepUpSatisfied,
      n.classification);
    Record(KeyOf(n), metadata, now, now, 0)
  }

  /** What an issued record says: the request, the lifetime of 15 minutes, whom the context names, and the connection,
      consent and session of the foundation, or else those of request and context. */
  ghost predicate IssuedAs(r: Record, n: Normalized, c: Context, foundation: Option<Foundation>, now: int) {
    var m := r.metadata;
    && r.cacheKey == KeyOf(n) && m.cacheKey == KeyOf(n) && !m.cacheHit
    && r.hitCount == 0 && r.createdAt == now && r.lastAccessedAt == now
    && (n.intent == Delegated ==> m.source == DelegatedPlaceholder) && (n.intent == M2m ==> m.source == Issued)
    && m.intent == n.intent && m.audience == n.audience && m.scopes == n.scopes && m.classification == n.classification
    && m.issuedAt == now && m.expiresAt == now + 900_000
    && m.actorId == c.actor.id && m.actorKind == c.actor.kind && m.subjectId == c.subject
    && NamesEntries(m, n, c, foundation)
    && (match foundation
        case Some(f) => m.stepUpRequired == f.stepUpRequired
        case None =>
          m.stepUpRequired <==> n.classification in {Some(Sensitive), Some(HighImpact)} && !c.stepUpSatisfied)
  }

  ghost predicate NamesEntries(m: Metadata, n: Normalized, c: Context, foundation: Option<Foundation>) {
    && (match foundation
        case Some(Foundation(Some(x), _, _, _, _)) => m.provider == Some(x.provider) && m.connectionId == Some(x.id)
        case _ => m.provider == c.provider.provider && m.connectionId == n.connectionId)
    && (match foundation
        case Some(Foundation(_, Some(x), _, _, _)) => m.consentGrantId == Some(x.id)
        case _ => m.consentGrantId == n.consentGrantId)
    && (match foundation
        case Some(Foundation(_, _, Some(x), _, _)) =>
          m.vaultSessionId == Some(x.id) && m.vaultTokenReference == Some(x.tokenReference)
        case _ => m.vaultSessionId == None && m.vaultTokenReference == None)
  }

  /** The record `consumeCachedRecord` writes back. */
  function Touch(r: Record, now: int): Record {
    r.(lastAccessedAt := now, hitCount := r.hitCount + 1)
  }

  /** `shapeResponseMetadata`. */
  function Shape(r: Record, cacheHit: bool): Metadata {
    if cacheHit then r.metadata.(source := Cached, cacheHit := true) else r.metadata
  }

  // ----- the atomic stages, on values -----

  datatype Broker = Broker(snapshots: Snapshots, cache: map<Key, Record>, hits: nat, misses: nat)

  function Peek(b: Broker, key: Key): Option<Record> {
    if key in b.cache then Some(b.cache[key]) else None
  }

  function SnapshotsFor(all: Snapshots, c: Context, n: Normalized, now: int): Snapshots {
    if n.intent == Delegated then Ensured(all, c, now) else all
  }

  function FoundationFor(all: Snapshots, c: Context, n: Normalized): Option<Foundation>
    requires n.intent == Delegated ==> c.subject in all
  {
    if n.intent == Delegated then Some(Resolve(all[c.subject], c, FoundationRequestOf(n))) else None
  }

  /** The record an authorized retrieval stores: the cached one, touched, or a new one. */
  function RecordFor(authorized: bool, c: Context, n: Normalized, foundation: Option<Foundation>,
                     cached: Option<Record>, now: int): Option<Record> {
    if !authorized then None
    else if cached.Some? then Some(Touch(cached.value, now))
    else Some(Issue(n, c, foundation, now))
  }

  function Counted(b: Broker, authorized: bool, cacheHit: bool): Broker {
    if !authorized then b
    else if cacheHit then b.(hits := b.hits + 1)
    else b.(misses := b.misses + 1)
  }

  /** Whether a retrieval is authorized once its snapshots are ensured. */
  ghost predicate Authorized(all: Snapshots, c: Context, n: Normalized, cacheHit: bool)
    requires n.intent == Delegated ==> c.subject in all
  {
    Authorizes(DecisionContext(c, FoundationFor(all, c, n)), n, cacheHit)
  }

  /** Everything between the awaits on peek and on upsert: the new state and, if authorized, the record to store. */
  ghost function Decide(b: Broker, c: Context, n: Normalized, cached: Option<Record>, now: int)
    : (Broker, Option<Record>)
  {
    var all := SnapshotsFor(b.snapshots, c, n, now);
    var foundation := FoundationFor(all, c, n);
    var authorized := Authorized(all, c, n, cached.Some?);
    (Counted(b.(snapshots := all), authorized, cached.Some?),
     RecordFor(authorized, DecisionContext(c, foundation), n, foundation, cached, now))
  }

  function Store(b: Broker, r: Record): Broker {
    b.(cache := b.cache[r.cacheKey := r])
  }

  /** A whole retrieval that nothing interleaves with, of a normalized request. */
  ghost function RetrievedFor(b: Broker, c: Context, n: Normalized, now: int): (Broker, Option<Record>) {
    var (b', record) := Decide(b, c, n, Peek(b, KeyOf(n)), now);
    (if record.Some? then Store(b', record.value) else b', record)
  }

  ghost function Retrieved(b: Broker, c: Context, r: TokenRequest, now: int): (Broker, Option<Record>) {
    RetrievedFor(b, c, Normalize(r, c), now)
  }

  /** What a retrieval by key `k` does to cache, counters and answer: nothing when denied; one hit, the record touched
      and its metadata answered as cached; or one miss, and a new record stored under `k` and answered. */
  ghost predicate Answers(before: Broker, after: Broker, k: Key, allowed: bool, response: Option<Metadata>, now: int) {
    if !allowed then
      response == None && after.cache == before.cache && after.hits == before.hits && after.misses == before.misses
    else if k in before.cache then
      var r := before.cache[k];
      && after.hits == before.hits + 1 && after.misses == before.misses
      && after.cache == before.cache[r.cacheKey := r.(lastAccessedAt := now, hitCount := r.hitCount + 1)]
      && response == Some(r.metadata.(source := Cached, cacheHit := true))
    else
      && after.hits == before.hits && after.misses == before.misses + 1
      && k in after.cache && after.cache == before.cache[k := after.cache[k]]
      && after.cache[k].hitCount == 0 && after.cache[k].metadata.issuedAt == now
      && response == Some(after.cache[k].metadata)
  }

  /** What is answered from a retrieval. */
  function AnswerOf(record: Option<Record>, cacheHit: bool): Option<Metadata> {
    if record.None? then None else Some(Shape(record.value, cacheHit))
  }

  lemma RetrievalAnswers(b: Broker, c: Context, n: Normalized, now: int)
    ensures var (after, record) := RetrievedFor(b, c, n, now);
            Answers(b, after, KeyOf(n), record.Some?, AnswerOf(record, KeyOf(n) in b.cache), now)
  {
  }

  // ----- the service -----

  class TokenBrokerService {
    const wording: Wording
    const delegated: DelegatedAccessService
    var cache: map<Key, Record>
    var hits: nat
    var misses: nat

    ghost predicate Valid()
      reads delegated
    {
      delegated.Valid()
    }

    ghost function State(): Broker
      reads this, delegated, delegated.store.Values
    {
      Broker(delegated.View(), cache, hits, misses)
    }

    constructor (delegated: DelegatedAccessService)
      requires delegated.Valid()
      ensures Valid() && this.delegated == delegated
      ensures State() == Broker(delegated.View(), map[], 0, 0)
    {
      this.wording := delegated.wording;
      this.delegated := delegated;
      cache, hits, misses := map[], 0, 0;
    }

    method ResolveFoundation(c: Context, n: Normalized, now: int) returns (foundation: Option<Foundation>)
      requires Valid()
      modifies delegated
      ensures Valid() && cache == old(cache) && hits == old(hits) && misses == old(misses)
      ensures delegated.View() == SnapshotsFor(old(delegated.View()), c, n, now)
      ensures foundation == FoundationFor(delegated.View(), c, n)
      ensures foundation.Some? <==> n.intent == Delegated
      ensures foundation.Some? ==>
                var wanted := FoundationRequest(n.audience, n.connectionId, n.consentGrantId, n.classification);
                TakenFrom(foundation.value, delegated.View()[c.subject], wanted) && Tells(foundation.value, c, wanted)
    {
      if n.intent != Delegated {
        return None;
      }
      var f := delegated.ResolveDelegatedTokenFoundation(c, FoundationRequestOf(n), now);
      foundation := Some(f);
    }

    /** `evaluateRequestDecision`. */
    method EvaluateRequest(context: Context, n: Normalized, cacheHit: bool) returns (decision: Decision)
      ensures Decides(decision, context, n, cacheHit)
    {
      decision := EvaluatePermission(context, PermissionFor(n, cacheHit), ResourceFor(n), wording);
    }

    /** The synchronous middle of a retrieval. */
    method DecideAndCount(c: Context, n: Normalized, cached: Option<Record>, now: int)
      returns (decision: Decision, record: Option<Record>)
      requires Valid()
      modifies this, delegated
      ensures Valid() && cache == old(cache)
      ensures n.intent == Delegated ==> c.subject in delegated.View()
      ensures Decides(decision, DecisionContext(c, FoundationFor(delegated.View(), c, n)), n, cached.Some?)
      ensures (State(), record) == Decide(old(State()), c, n, cached, now)
      ensures decision.allowed <==> record.Some?
    {
      var foundation := ResolveFoundation(c, n, now);
      var context := DecisionContext(c, foundation);
      decision := EvaluateRequest(context, n, cached.Some?);
      record := CountAndBuild(decision.allowed, context, n, foundation, cached, now);
    }

    method CountAndBuild(authorized: bool, c: Context, n: Normalized, foundation: Option<Foundation>,
                         cached: Option<Record>, now: int)
      returns (record: Option<Record>)
      modifies this
      ensures cache == old(cache)
      ensures State() == Counted(old(State()), authorized, cached.Some?)
      ensures record == RecordFor(authorized, c, n, foundation, cached, now)
      ensures authorized && cached.None? ==> record.Some? && IssuedAs(record.value, n, c, foundation, now)
    {
      if !authorized {
        return None;
      }
      if cached.Some? {
        record := Some(Touch(cached.value, now));
        hits := hits + 1;
      } else {
        misses := misses + 1;
        record := Some(Issue(n, c, foundation, now));
      }
    }

    /** The three stages of a retrieval in a row. */
    method Retrieve(c: Context, n: Normalized, now: int) returns (decision: Decision, response: Option<Metadata>)
      requires Valid()
      modifies this, delegated
      ensures Valid()
      ensures n.intent == Delegated ==> c.subject in delegated.View()
      ensures Decides(decision, DecisionContext(c, FoundationFor(delegated.View(), c, n)), n, KeyOf(n) in old(cache))
      ensures var (after, record) := RetrievedFor(old(State()), c, n, now);
              && State() == after && response == AnswerOf(record, KeyOf(n) in old(cache))
              && (decision.allowed <==> record.Some?)
    {
      var key := KeyOf(n);
      var cached := if key in cache then Some(cache[key]) else None;
      var record;
      decision, record := DecideAndCount(c, n, cached, now);
      if record.Some? {
        cache := cache[record.value.cacheKey := record.value];
      }
      response := AnswerOf(record, cached.Some?);
    }

    /** `retrieveTokenRequest`, without interleaving: of the request's one key, everything that happens to cache,
        counters and answer. */
    method RetrieveTokenRequest(c: Context, request: TokenRequest, now: int)
      returns (decision: Decision, response: Option<Metadata>)
      requires Valid()
      modifies this, delegated
      ensures Valid()
      ensures var n := Normalize(request, c);
              && (n.intent == Delegated ==> c.subject in delegated.View())
              && Decides(decision, DecisionContext(c, FoundationFor(delegated.View(), c, n)), n, KeyOf(n) in old(cache))
      ensures var (after, record) := Retrieved(old(State()), c, request, now);
              State() == after && response == AnswerOf(record, KeyOf(Normalize(request, c)) in old(cache))
      ensures exists k :: AsksFor(k, request, c) && Answers(old(State()), State(), k, decision.allowed, response, now)
      ensures forall k, k' :: AsksFor(k, request, c) && AsksFor(k', request, c) ==> k == k'
      ensures request.intent == M2m ==> delegated.View() == old(delegated.View())
    {
      var n := Normalize(request, c);
      RetrievalAnswers(State(), c, n, now);
      OneKey(request, c);
      decision, response := Retrieve(c, n, now);
      assert AsksFor(KeyOf(n), request, c);
    }

    /** The decision and flag of a preview of a normalized request. */
    method Preview(c: Context, n: Normalized, now: int)
      returns (decision: Decision, cacheHit: bool, stepUpRequired: bool)
      requires Valid()
      modifies delegated
      ensures Valid()
      ensures State() == old(State()).(snapshots := SnapshotsFor(old(State()).snapshots, c, n, now))
      ensures cacheHit <==> KeyOf(n) in cache
      ensures decision.allowed <==> RetrievedFor(old(State()), c, n, now).1.Some?
      ensures stepUpRequired <==> AsksSensitive(n.intent, n.classification) && !c.stepUpSatisfied
    {
      cacheHit := KeyOf(n) in cache;
      var foundation := ResolveFoundation(c, n, now);
      decision := EvaluateRequest(DecisionContext(c, foundation), n, cacheHit);
      stepUpRequired := StepUpFlag(c, n, cacheHit, foundation, decision);
    }

    /** `previewTokenRequest`: the decision a retrieval would get, without counting or storing. */
    method PreviewTokenRequest(c: Context, request: TokenRequest, now: int)
      returns (decision: Decision, cacheHit: bool, stepUpRequired: bool)
      requires Valid()
      modifies delegated
      ensures Valid()
      ensures State() == old(State()).(snapshots := SnapshotsFor(old(State()).snapshots, c, Normalize(request, c), now))
      ensures request.intent == M2m ==> State() == old(State())
      ensures cacheHit <==> exists k :: k in cache && AsksFor(k, request, c)
      ensures decision.allowed <==> Retrieved(old(State()), c, request, now).1.Some?
      ensures stepUpRequired <==> AsksSensitive(request.intent, request.classification) && !c.stepUpSatisfied
    {
      OneKey(request, c);
      decision, cacheHit, stepUpRequired := Preview(c, Normalize(request, c), now);
    }

    /** The flag of a preview; a machine token never asks for step-up, as its policies do not. */
    method StepUpFlag(c: Context, n: Normalized, cacheHit: bool, foundation: Option<Foundation>, decision: Decision)
      returns (flag: bool)
      requires Decides(decision, DecisionContext(c, foundation), n, cacheHit)
      requires foundation.Some? <==> n.intent == Delegated
      requires foundation.Some? ==> (foundation.value.stepUpRequired <==> IsSensitive(n) && !c.stepUpSatisfied)
      ensures flag <==> AsksSensitive(n.intent, n.classification) && !c.stepUpSatisfied
    {
      if foundation.Some? {
        return foundation.value.stepUpRequired;
      }
      assert !PolicyOf(PermissionFor(n, cacheHit)).stepUp;
      flag := exists r :: r in decision.reasons && r.code == StepUpRequired;
      assert flag && !decision.allowed ==> Reports(decision.reasons, StepUpRequired);
    }
  }
}
