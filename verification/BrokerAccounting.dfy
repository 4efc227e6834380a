/** What the broker's counters and cache records are worth, over every run. */
module BrokerAccounting {
  import opened Sequences
  import opened Policies
  import opened DelegatedAccess
  import opened ScopeOrder
  import opened TokenBroker
  import opened BrokerRuns

  // ----- sums over the cache -----

  ghost function Pick(cache: map<Key, Record>): Key
    requires cache != map[]
    ensures Pick(cache) in cache
  {
    assert cache.Keys != {};
    var k :| k in cache.Keys;
    k
  }

  /** The hit counts stored in the cache, added up. */
  ghost function HitSum(cache: map<Key, Record>): nat {
    if cache == map[] then 0
    else cache[Pick(cache)].hitCount + HitSum(cache - {Pick(cache)})
  }

  lemma {:induction false} HitSumWithout(cache: map<Key, Record>, k: Key)
    requires k in cache
    ensures HitSum(cache) == cache[k].hitCount + HitSum(cache - {k})
    decreases |cache|
  {
    var p := Pick(cache);
    if p != k {
      var rest := cache - {p};
      assert |rest| < |cache|;
      HitSumWithout(rest, k);
      assert |cache - {k}| < |cache|;
      HitSumWithout(cache - {k}, p);
      assert rest - {k} == cache - {k} - {p};
    }
  }

  lemma HitSumUpdate(cache: map<Key, Record>, k: Key, r: Record)
    ensures HitSum(cache[k := r]) ==
            r.hitCount + (if k in cache then HitSum(cache) - cache[k].hitCount else HitSum(cache))
  {
    HitSumWithout(cache[k := r], k);
    if k in cache {
      HitSumWithout(cache, k);
      assert cache[k := r] - {k} == cache - {k};
    } else {
      assert cache[k := r] - {k} == cache;
    }
  }

  lemma {:induction false} HitSumBounded(cache: map<Key, Record>, log: multiset<Key>)
    requires forall k :: k in cache ==> cache[k].hitCount <= log[k]
    ensures HitSum(cache) <= |log|
    decreases |cache|
  {
    if cache != map[] {
      var p := Pick(cache);
      assert |cache - {p}| < |cache|;
      HitSumBounded(cache - {p}, log[p := 0]);
    }
  }

  function KeysOf(issued: seq<Miss>): set<Key> {
    set i | 0 <= i < |issued| :: KeyOf(issued[i].n)
  }

  lemma {:induction false} FewKeys(issued: seq<Miss>)
    ensures |KeysOf(issued)| <= |issued|
  {
    if issued != [] {
      var front, last := issued[..|issued| - 1], issued[|issued| - 1];
      FewKeys(front);
      assert KeysOf(issued) == KeysOf(front) + {KeyOf(last.n)};
    }
  }

  lemma SubsetIsSmaller(a: set<Key>, b: set<Key>)
    requires a <= b
    ensures |a| <= |b|
  {
    assert b == a + (b - a);
  }

  // ----- the invariant -----

  /** The metadata is what a fresh issue under key `k` carries, with its lifetime as issued. */
  ghost predicate FitsKey(m: Metadata, k: Key) {
    && m.cacheKey == k && !m.cacheHit
    && m.audience == k.audience && m.intent == k.intent && m.classification == k.classification
    && Sort(m.scopes) == k.scopes
    && m.expiresAt == m.issuedAt + 900_000
  }

  /** The miss issued metadata `m` under key `k`. */
  ghost predicate Issues(miss: Miss, k: Key, m: Metadata) {
    KeyOf(miss.n) == k && IssuedBy(miss).metadata == m
  }

  /** A record for key `k`: issued at some miss, its metadata unchanged since, touched at most as often as `k` was
      hit. */
  ghost predicate Genuine(s: System, k: Key, r: Record) {
    && r.cacheKey == k
    && r.hitCount <= s.hitLog[k]
    && exists miss :: miss in s.issued && Issues(miss, k, r.metadata)
  }

  /** A foundation resolved for a context keeps its actor and subject. */
  predicate FoundedOn(c: Context, foundation: Option<Foundation>) {
    foundation.Some? ==> foundation.value.context.actor == c.actor && foundation.value.context.subject == c.subject
  }

  ghost predicate Sound(s: System) {
    && s.b.hits == |s.hitLog| && s.b.misses == |s.issued|
    && (forall miss :: miss in s.issued ==> FoundedOn(miss.c, miss.foundation))
    && (forall k :: k in s.b.cache ==> Genuine(s, k, s.b.cache[k]))
    && (forall call :: call in s.calls ==> CallSound(s, s.calls[call]))
  }

  ghost predicate CallSound(s: System, call: Call) {
    match call
    case Peeked(c, n, cached) => cached.Some? ==> Genuine(s, KeyOf(n), cached.value)
    case Storing(r) => Genuine(s, r.cacheKey, r)
  }

  lemma IssueFits(n: Normalized, c: Context, foundation: Option<Foundation>, now: int)
    ensures FitsKey(Issue(n, c, foundation, now).metadata, KeyOf(n))
    ensures Issue(n, c, foundation, now).cacheKey == KeyOf(n) && Issue(n, c, foundation, now).hitCount == 0
  {
  }

  lemma MissFits(miss: Miss)
    ensures FitsKey(IssuedBy(miss).metadata, KeyOf(miss.n))
  {
    IssueFits(miss.n, DecisionContext(miss.c, miss.foundation), miss.foundation, miss.now);
  }

  lemma GenuineStays(s: System, t: System, k: Key, r: Record)
    requires Genuine(s, k, r) && s.hitLog[k] <= t.hitLog[k] && s.issued <= t.issued
    ensures Genuine(t, k, r)
  {
    var miss :| miss in s.issued && Issues(miss, k, r.metadata);
    var i :| 0 <= i < |s.issued| && s.issued[i] == miss;
    assert t.issued[i] == miss;
  }

  /** Going from `s` to `t` gives up a denied call, or replaces an authorized one by the record it will store. */
  ghost predicate Moved(s: System, t: System, call: nat, record: Option<Record>) {
    && t.b.cache == s.b.cache
    && t.calls == if record.Some? then s.calls[call := Storing(record.value)] else s.calls - {call}
  }

  lemma MovedKeepsSound(s: System, t: System, call: nat, record: Option<Record>)
    requires Sound(s) && Moved(s, t, call, record)
    requires t.b.hits == |t.hitLog| && t.b.misses == |t.issued|
    requires (forall k :: s.hitLog[k] <= t.hitLog[k]) && s.issued <= t.issued
    requires forall miss :: miss in t.issued ==> FoundedOn(miss.c, miss.foundation)
    requires record.Some? ==> Genuine(t, record.value.cacheKey, record.value)
    ensures Sound(t)
  {
    forall k, r | Genuine(s, k, r) ensures Genuine(t, k, r) { GenuineStays(s, t, k, r); }
    forall other | other in t.calls ensures CallSound(t, t.calls[other]) {
      if other != call || record.None? { assert CallSound(s, s.calls[other]); }
    }
  }

  lemma {:induction false} HitKeepsSound(s: System, call: nat, now: int)
    requires Sound(s) && call in s.calls && s.calls[call].Peeked? && s.calls[call].cached.Some?
    ensures Sound(Decided(s, call, now))
  {
    var t := Decided(s, call, now);
    var Peeked(c, n, cached) := s.calls[call];
    var record := Decide(s.b, c, n, cached, now).1;
    assert CallSound(s, s.calls[call]);
    if record.Some? {
      var miss :| miss in s.issued && Issues(miss, KeyOf(n), cached.value.metadata);
      assert miss in t.issued && Issues(miss, KeyOf(n), record.value.metadata);
    }
    MovedKeepsSound(s, t, call, record);
  }

  lemma {:induction false} MissKeepsSound(s: System, call: nat, now: int)
    requires Sound(s) && call in s.calls && s.calls[call].Peeked? && s.calls[call].cached.None?
    ensures Sound(Decided(s, call, now))
  {
    var t := Decided(s, call, now);
    var Peeked(c, n, cached) := s.calls[call];
    var record := Decide(s.b, c, n, cached, now).1;
    if record.Some? {
      var miss := Miss(c, n, FoundationFor(SnapshotsFor(s.b.snapshots, c, n, now), c, n), now);
      assert miss in t.issued && Issues(miss, KeyOf(n), record.value.metadata);
    }
    MovedKeepsSound(s, t, call, record);
  }

  lemma DecideKeepsSound(s: System, call: nat, now: int)
    requires Sound(s)
    ensures Sound(Next(s, DecideCall(call, now)))
  {
    if call in s.calls && s.calls[call].Peeked? {
      if s.calls[call].cached.Some? { HitKeepsSound(s, call, now); } else { MissKeepsSound(s, call, now); }
    }
  }

  /** A step that leaves the counters and their history alone, and whose cache and calls hold genuine records. */
  lemma SameHistoryKeepsSound(s: System, t: System)
    requires Sound(s) && t.hitLog == s.hitLog && t.issued == s.issued
    requires t.b.hits == s.b.hits && t.b.misses == s.b.misses
    requires forall k :: k in t.b.cache ==> Genuine(s, k, t.b.cache[k])
    requires forall call :: call in t.calls ==> CallSound(s, t.calls[call])
    ensures Sound(t)
  {
    forall k, r | Genuine(s, k, r) ensures Genuine(t, k, r) { GenuineStays(s, t, k, r); }
  }

  lemma PeekKeepsSound(s: System, call: nat, c: Context, token: TokenRequest)
    requires Sound(s)
    ensures Sound(Next(s, PeekCache(call, c, token)))
  {
    SameHistoryKeepsSound(s, Next(s, PeekCache(call, c, token)));
  }

  lemma StoreKeepsSound(s: System, call: nat)
    requires Sound(s)
    ensures Sound(Next(s, StoreRecord(call)))
  {
    if call in s.calls && s.calls[call].Storing? { assert CallSound(s, s.calls[call]); }
    SameHistoryKeepsSound(s, Next(s, StoreRecord(call)));
  }

  lemma {:induction false} StepKeepsSound(s: System, step: Step)
    requires Sound(s)
    ensures Sound(Next(s, step))
  {
    match step
    case DecideCall(call, now) => DecideKeepsSound(s, call, now);
    case PeekCache(call, c, token) => PeekKeepsSound(s, call, c, token);
    case StoreRecord(call) => StoreKeepsSound(s, call);
    case _ => SameHistoryKeepsSound(s, Next(s, step));
  }

  lemma {:induction false} ReachableIsSound(run: seq<Step>)
    ensures Sound(After(run))
  {
    if run != [] {
      ReachableIsSound(run[..|run| - 1]);
      StepKeepsSound(After(run[..|run| - 1]), run[|run| - 1]);
    }
  }

  // ----- accounting -----

  /** The step decides a call in flight, and authorizes it. */
  ghost predicate Authorizing(s: System, step: Step) {
    && step.DecideCall? && step.call in s.calls && s.calls[step.call].Peeked?
    && Decide(s.b, s.calls[step.call].c, s.calls[step.call].n, s.calls[step.call].cached, step.now).1.Some?
  }

  /** How many retrievals of the run passed authorization. */
  ghost function Passed(run: seq<Step>): nat {
    if run == [] then 0
    else
      var front, last := run[..|run| - 1], run[|run| - 1];
      Passed(front) + if Authorizing(After(front), last) then 1 else 0
  }

  lemma StepCounts(s: System, step: Step)
    ensures Next(s, step).b.hits + Next(s, step).b.misses ==
            s.b.hits + s.b.misses + if Authorizing(s, step) then 1 else 0
  {
  }

  lemma {:induction false} PassedIsCounted(run: seq<Step>)
    ensures After(run).b.hits + After(run).b.misses == Passed(run)
  {
    if run != [] {
      PassedIsCounted(run[..|run| - 1]);
      StepCounts(After(run[..|run| - 1]), run[|run| - 1]);
    }
  }

  /** In every run, with retrievals interleaving at every await and any loss of cache entries: hits and misses
      together count the authorized retrievals, stored hit counts never exceed the hits (an update that is lost only
      lowers them), and there are never more cached keys than misses. */
  lemma Accounting(run: seq<Step>)
    ensures var b := After(run).b;
            && b.hits + b.misses == Passed(run)
            && HitSum(b.cache) <= b.hits
            && |b.cache| <= b.misses
  {
    PassedIsCounted(run);
    StoredHitsAreCounted(run);
    CachedKeysWereMissed(run);
  }

  lemma StoredHitsAreCounted(run: seq<Step>)
    ensures HitSum(After(run).b.cache) <= After(run).b.hits
  {
    ReachableIsSound(run);
    HitSumBounded(After(run).b.cache, After(run).hitLog);
  }

  lemma CachedKeysWereMissed(run: seq<Step>)
    ensures |After(run).b.cache| <= After(run).b.misses
  {
    var s := After(run);
    ReachableIsSound(run);
    FewKeys(s.issued);
    assert s.b.cache.Keys <= KeysOf(s.issued);
    SubsetIsSmaller(s.b.cache.Keys, KeysOf(s.issued));
  }

  /** Denied retrievals, and every step that is not an authorized decision, store or eviction, leave cache and
      counters alone. */
  lemma OnlyAuthorizedRetrievalsCount(s: System, step: Step)
    requires !Authorizing(s, step) && !step.StoreRecord? && !step.Evict?
    ensures var t := Next(s, step); t.b.cache == s.b.cache && t.b.hits == s.b.hits && t.b.misses == s.b.misses
  {
  }

  // ----- cached answers agree with fresh ones -----

  /** Two requests share a key exactly when their fields agree and their scopes are permutations of each other. */
  lemma KeysAgreeExactly(m: Normalized, n: Normalized)
    ensures KeyOf(m) == KeyOf(n) <==> m.(scopes := n.scopes) == n && multiset(m.scopes) == multiset(n.scopes)
  {
    SameFormExactlyForPermutations(m.scopes, n.scopes);
  }

  /** In every reachable state, every cached record has the audience, intent, classification and scopes (as a multiset)
      of any request whose key finds it, carries that key, and still has the lifetime of the miss that issued it. */
  lemma CachedRecordsFit(run: seq<Step>, n: Normalized)
    requires KeyOf(n) in After(run).b.cache
    ensures var s := After(run); var r := s.b.cache[KeyOf(n)]; var m := r.metadata;
            && r.cacheKey == KeyOf(n) && m.cacheKey == KeyOf(n)
            && m.audience == n.audience && m.intent == n.intent && m.classification == n.classification
            && multiset(m.scopes) == multiset(n.scopes)
            && m.expiresAt == m.issuedAt + 900_000
            && exists miss :: miss in s.issued && Issues(miss, KeyOf(n), m)
  {
    ReachableIsSound(run);
    var r := After(run).b.cache[KeyOf(n)];
    var miss :| miss in After(run).issued && Issues(miss, KeyOf(n), r.metadata);
    MissFits(miss);
    SameFormExactlyForPermutations(After(run).b.cache[KeyOf(n)].metadata.scopes, n.scopes);
  }

  /** The miss that issued what a call found in the cache. */
  ghost predicate IssuedFor(s: System, call: nat, miss: Miss)
    requires call in s.calls && s.calls[call].Peeked? && s.calls[call].cached.Some?
  {
    miss in s.issued && Issues(miss, KeyOf(s.calls[call].n), s.calls[call].cached.value.metadata)
  }

  /** Request, lifetime and key of an answer: what its audience, intent, classification and scopes are. */
  ghost predicate SameRequest(a: Metadata, b: Metadata) {
    && a.cacheKey == b.cacheKey && a.audience == b.audience && a.intent == b.intent
    && a.classification == b.classification
    && multiset(a.scopes) == multiset(b.scopes)
    && a.expiresAt - a.issuedAt == b.expiresAt - b.issuedAt
  }

  /** A hit against a fresh issue for the same request, at any time and in any context. They agree on the request, the
      key and the lifetime, and answering from the cache never moves the expiry. Whom the token is for and through which
      connection, the hit answers as its issuing miss did: it names the asking actor exactly if the miss was that
      actor's, and the asking subject exactly if the miss was that subject's. */
  lemma HitAgreesWithFresh(run: seq<Step>, call: nat, c: Context, foundation: Option<Foundation>, now: int)
    requires call in After(run).calls && After(run).calls[call].Peeked? && After(run).calls[call].cached.Some?
    requires FoundedOn(c, foundation)
    ensures var Peeked(_, n, cached) := After(run).calls[call];
            var hit := Shape(Touch(cached.value, now), true);
            var anew := Shape(Issue(n, DecisionContext(c, foundation), foundation, now), false);
            && SameRequest(hit, anew)
            && hit.cacheHit && !anew.cacheHit && hit.source == Cached
            && Touch(cached.value, now).metadata == cached.value.metadata
            && exists miss ::
                 && IssuedFor(After(run), call, miss)
                 && (hit.actorId == anew.actorId <==> miss.c.actor.id == c.actor.id)
                 && (hit.actorKind == anew.actorKind <==> miss.c.actor.kind == c.actor.kind)
                 && (hit.subjectId == anew.subjectId <==> miss.c.subject == c.subject)
                 && hit == IssuedBy(miss).metadata.(source := Cached, cacheHit := true)
  {
    ReachableIsSound(run);
    var Peeked(_, n, cached) := After(run).calls[call];
    assert CallSound(After(run), After(run).calls[call]);
    var miss :| miss in After(run).issued && Issues(miss, KeyOf(n), cached.value.metadata);
    MissFits(miss);
    SameFormExactlyForPermutations(cached.value.metadata.scopes, n.scopes);
    HitIsTheMiss(miss, n, cached.value, c, foundation, now);
    assert IssuedFor(After(run), call, miss);
  }

  lemma HitIsTheMiss(miss: Miss, n: Normalized, cached: Record, c: Context, foundation: Option<Foundation>, now: int)
    requires Issues(miss, KeyOf(n), cached.metadata) && FoundedOn(miss.c, miss.foundation) && FoundedOn(c, foundation)
    ensures var hit := Shape(Touch(cached, now), true);
            var anew := Shape(Issue(n, DecisionContext(c, foundation), foundation, now), false);
            && (hit.actorId == anew.actorId <==> miss.c.actor.id == c.actor.id)
            && (hit.actorKind == anew.actorKind <==> miss.c.actor.kind == c.actor.kind)
            && (hit.subjectId == anew.subjectId <==> miss.c.subject == c.subject)
            && hit == IssuedBy(miss).metadata.(source := Cached, cacheHit := true)
  {
  }

  // ----- whom a cached answer names -----

  /** The request names the actor and the subject it comes from, or nobody. */
  predicate NamesItself(c: Context, n: Normalized) {
    n.actorId == c.actor.id && n.subjectId == c.subject
  }

  /** Every retrieval of the run names itself. */
  ghost predicate OwnNames(run: seq<Step>) {
    forall step :: step in run && step.PeekCache? ==> NamesItself(step.c, Normalize(step.token, step.c))
  }

  /** Every miss, and every call in flight, names itself. */
  ghost predicate AllOwn(s: System) {
    && (forall miss :: miss in s.issued ==> NamesItself(miss.c, miss.n))
    && (forall call :: call in s.calls && s.calls[call].Peeked? ==> NamesItself(s.calls[call].c, s.calls[call].n))
  }

  lemma StepKeepsOwn(s: System, step: Step)
    requires AllOwn(s) && (step.PeekCache? ==> NamesItself(step.c, Normalize(step.token, step.c)))
    ensures AllOwn(Next(s, step))
  {
  }

  lemma {:induction false} RunKeepsOwn(run: seq<Step>)
    requires OwnNames(run)
    ensures AllOwn(After(run))
  {
    if run != [] {
      RunKeepsOwn(run[..|run| - 1]);
      StepKeepsOwn(After(run[..|run| - 1]), run[|run| - 1]);
    }
  }

  /** A record names the actor and the subject of its key exactly if the miss that issued it named itself. */
  lemma NamesOfMiss(miss: Miss, k: Key, m: Metadata)
    requires Issues(miss, k, m) && FoundedOn(miss.c, miss.foundation)
    ensures m.actorId == k.actorId <==> miss.n.actorId == miss.c.actor.id
    ensures m.subjectId == k.subjectId <==> miss.n.subjectId == miss.c.subject
  {
  }

  /** Where every retrieval names itself, every cached record names the actor and the subject of its key, and so every
      hit names who asks, as a fresh issue would. */
  lemma HitsNameTheAsker(run: seq<Step>)
    requires OwnNames(run)
    ensures var s := After(run);
            && (forall k :: k in s.b.cache ==>
                  s.b.cache[k].metadata.actorId == k.actorId && s.b.cache[k].metadata.subjectId == k.subjectId)
            && (forall call :: call in s.calls && s.calls[call].Peeked? && s.calls[call].cached.Some? ==>
                  && s.calls[call].cached.value.metadata.actorId == s.calls[call].c.actor.id
                  && s.calls[call].cached.value.metadata.subjectId == s.calls[call].c.subject)
  {
    var s := After(run);
    ReachableIsSound(run);
    RunKeepsOwn(run);
    forall k, r | Genuine(s, k, r) ensures r.metadata.actorId == k.actorId && r.metadata.subjectId == k.subjectId {
      var miss :| miss in s.issued && Issues(miss, k, r.metadata);
      NamesOfMiss(miss, k, r.metadata);
    }
    forall call | call in s.calls && s.calls[call].Peeked? && s.calls[call].cached.Some?
      ensures s.calls[call].cached.value.metadata.actorId == s.calls[call].c.actor.id
      ensures s.calls[call].cached.value.metadata.subjectId == s.calls[call].c.subject
    {
      assert CallSound(s, s.calls[call]);
      assert NamesItself(s.calls[call].c, s.calls[call].n);
    }
  }

  /** A service that holds nothing but its role. */
  function Caller(id: string): Context {
    Context(
      Actor(id, SystemActor, [Service]), "tenant",
      ConsentContext(None, GrantMissing, [], None), VaultContext(None, None, VaultMissing, [], None),
      ProviderContext(None, None, None, ProviderMissing, [], None),
      SessionContext(None, None, None, SessionMissing, None, [], None), None, false)
  }

  function MachineToken(audience: string, actorId: Option<string>): TokenRequest {
    TokenRequest(audience, [], M2m, actorId, None, None, None, None)
  }

  /** Elsewhere a hit can name somebody else: one caller asks in another's name, then that other asks in its own, hits,
      is authorized, and is answered with the first caller's identity. */
  lemma HitCanNameAnother(first: string, second: string, audience: string, now: int, later: int)
    ensures var before := Retrieved(START.b, Caller(first), MachineToken(audience, Some(second)), now).0;
            var (after, record) := Retrieved(before, Caller(second), MachineToken(audience, None), later);
            && after.hits == 1 && record.Some?
            && Shape(record.value, true).actorId == first
  {
    MayBroker(first, Normalize(MachineToken(audience, Some(second)), Caller(first)), false);
    MayBroker(second, Normalize(MachineToken(audience, None), Caller(second)), true);
  }

  lemma MayBroker(id: string, n: Normalized, cacheHit: bool)
    requires n.intent == M2m
    ensures Authorizes(Caller(id), n, cacheHit)
  {
    assert Caller(id).actor.roles[0] == Service;
    assert BROKERS[2] == Service && HUMAN_OR_SYSTEM[1] == SystemActor;
    assert Service in Caller(id).actor.roles && Service in PolicyOf(PermissionFor(n, cacheHit)).roles;
  }

  // ----- calls that do not overlap -----

  datatype Operation =
    | DoConnect(c: Context, request: ConnectRequest, now: int)
    | DoRevoke(c: Context, connectionId: string, intent: RevocationIntent, now: int)
    | DoRead(c: Context, now: int)
    | DoPreview(c: Context, token: TokenRequest, now: int)
    | DoRetrieve(c: Context, token: TokenRequest, now: int)

  ghost function Serial(b: Broker, op: Operation): Broker {
    match op
    case DoConnect(c, request, now) => b.(snapshots := AfterConnect(b.snapshots, c, request, now))
    case DoRevoke(c, id, intent, now) => b.(snapshots := AfterRevoke(b.snapshots, c, id, intent, now))
    case DoRead(c, now) => b.(snapshots := Ensured(b.snapshots, c, now))
    case DoPreview(c, token, now) => b.(snapshots := SnapshotsFor(b.snapshots, c, Normalize(token, c), now))
    case DoRetrieve(c, token, now) => Retrieved(b, c, token, now).0
  }

  ghost function SerialRun(ops: seq<Operation>): Broker {
    if ops == [] then START.b else Serial(SerialRun(ops[..|ops| - 1]), ops[|ops| - 1])
  }

  /** A retrieval that nothing interleaves with is its three stages in a row. */
  lemma RetrievalIsThreeSteps(s: System, call: nat, c: Context, token: TokenRequest, now: int)
    requires call !in s.calls
    ensures Next(Next(Next(s, PeekCache(call, c, token)), DecideCall(call, now)), StoreRecord(call)).b ==
            Retrieved(s.b, c, token, now).0
  {
  }

  lemma {:induction false} SerialKeepsSum(ops: seq<Operation>)
    ensures var b := SerialRun(ops);
            HitSum(b.cache) == b.hits && forall k :: k in b.cache ==> b.cache[k].cacheKey == k
  {
    if ops != [] {
      var b, op := SerialRun(ops[..|ops| - 1]), ops[|ops| - 1];
      SerialKeepsSum(ops[..|ops| - 1]);
      if op.DoRetrieve? {
        var n := Normalize(op.token, op.c);
        var record := Retrieved(b, op.c, op.token, op.now).1;
        if record.Some? { HitSumUpdate(b.cache, KeyOf(n), record.value); }
      }
    }
  }

  /** When no two retrievals overlap and nothing is evicted, the stored hit counts add up to exactly the hits. */
  lemma {:induction false} SerialAccountingIsExact(ops: seq<Operation>)
    ensures HitSum(SerialRun(ops).cache) == SerialRun(ops).hits
  {
    SerialKeepsSum(ops);
  }
}
