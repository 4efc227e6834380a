/** Runs of the whole delegated-token system: connects, revocations, previews and retrievals whose
    stages interleave freely, over a cache that may lose any entry at any moment. */
module BrokerRuns {
  import opened Sequences
  import opened Policies
  import opened DelegatedAccess
  import opened DelegatedAccessProperties
  import opened TokenBroker

  /** A retrieval in flight: what it peeked, or the record it is about to store. */
  datatype Call = Peeked(c: Context, n: Normalized, cached: Option<Record>) | Storing(record: Record)

  /** One miss: who asked for what, from which foundation, and when. */
  datatype Miss = Miss(c: Context, n: Normalized, foundation: Option<Foundation>, now: int)

  /** The record a miss issued. */
  function IssuedBy(miss: Miss): Record {
    Issue(miss.n, DecisionContext(miss.c, miss.foundation), miss.foundation, miss.now)
  }

  /** The system, with the history of hits (by key) and of misses. */
  datatype System = System(b: Broker, calls: map<nat, Call>, hitLog: multiset<Key>, issued: seq<Miss>)

  datatype Step =
    | Connect(c: Context, request: ConnectRequest, now: int)
    | Revoke(c: Context, connectionId: string, intent: RevocationIntent, now: int)
    | ReadSnapshot(c: Context, now: int)
    | Preview(c: Context, token: TokenRequest, now: int)
    | PeekCache(call: nat, c: Context, token: TokenRequest)
    | DecideCall(call: nat, now: int)
    | StoreRecord(call: nat)
    | Evict(key: Key)

  const START := System(Broker(map[], map[], 0, 0), map[], multiset{}, [])

  /** The effect of deciding a peeked call. */
  ghost function Decided(s: System, call: nat, now: int): System
    requires call in s.calls && s.calls[call].Peeked?
  {
    var Peeked(c, n, cached) := s.calls[call];
    var (b, record) := Decide(s.b, c, n, cached, now);
    if record.None? then s.(b := b, calls := s.calls - {call})
    else
      System(b, s.calls[call := Storing(record.value)],
             if cached.Some? then s.hitLog + multiset{KeyOf(n)} else s.hitLog,
             if cached.Some? then s.issued
             else s.issued + [Miss(c, n, FoundationFor(SnapshotsFor(s.b.snapshots, c, n, now), c, n), now)])
  }

  ghost function Next(s: System, step: Step): System {
    match step
    case Connect(c, request, now) => s.(b := s.b.(snapshots := AfterConnect(s.b.snapshots, c, request, now)))
    case Revoke(c, id, intent, now) => s.(b := s.b.(snapshots := AfterRevoke(s.b.snapshots, c, id, intent, now)))
    case ReadSnapshot(c, now) => s.(b := s.b.(snapshots := Ensured(s.b.snapshots, c, now)))
    case Preview(c, token, now) =>
      s.(b := s.b.(snapshots := SnapshotsFor(s.b.snapshots, c, Normalize(token, c), now)))
    case PeekCache(call, c, token) =>
      if call in s.calls then s
      else s.(calls := s.calls[call := Peeked(c, Normalize(token, c), Peek(s.b, KeyOf(Normalize(token, c))))])
    case DecideCall(call, now) =>
      if call in s.calls && s.calls[call].Peeked? then Decided(s, call, now) else s
    case StoreRecord(call) =>
      if call in s.calls && s.calls[call].Storing?
      then s.(b := Store(s.b, s.calls[call].record), calls := s.calls - {call})
      else s
    case Evict(key) => s.(b := s.b.(cache := s.b.cache - {key}))
  }

  ghost function After(run: seq<Step>): System {
    if run == [] then START else Next(After(run[..|run| - 1]), run[|run| - 1])
  }

  lemma AfterOneMore(run: seq<Step>, i: nat)
    requires i < |run|
    ensures After(run[..i + 1]) == Next(After(run[..i]), run[i])
  {
    assert run[..i + 1][..i] == run[..i];
  }

  // ----- revocation beats the cache -----

  /** The step is an allowed connect that rebuilds connection `id` of `subject`. */
  ghost predicate Rebuilds(step: Step, subject: string, id: string) {
    step.Connect? && MayConnect(step.c) && step.c.subject == subject
    && ConnectionId(step.request.provider, subject) == id
  }

  ghost predicate RevokedFor(all: Snapshots, subject: string, id: string) {
    subject in all && RevokedIn(all[subject], id)
  }

  lemma StepKeepsRevoked(s: System, step: Step, subject: string, id: string)
    requires RevokedFor(s.b.snapshots, subject, id) && !Rebuilds(step, subject, id)
    ensures RevokedFor(Next(s, step).b.snapshots, subject, id)
  {
    var all := s.b.snapshots;
    match step
    case Connect(c, request, now) =>
      if c.subject == subject && MayConnect(c) { ConnectElsewhereKeepsRevoked(all[subject], id, c, request, now); }
    case Revoke(c, connectionId, intent, now) =>
      if c.subject == subject { RevokeKeepsRevoked(all[subject], id, connectionId, intent, now); }
    case DecideCall(call, now) =>
      DecideTouchesSnapshots(s, call, now, subject);
    case _ =>
  }

  lemma DecideTouchesSnapshots(s: System, call: nat, now: int, subject: string)
    requires subject in s.b.snapshots
    ensures var after := Next(s, DecideCall(call, now)).b.snapshots;
            subject in after && after[subject] == s.b.snapshots[subject]
  {
  }

  lemma {:induction false} RunKeepsRevoked(run: seq<Step>, i: nat, j: nat, subject: string, id: string)
    requires i <= j <= |run|
    requires RevokedFor(After(run[..i]).b.snapshots, subject, id)
    requires forall k :: i <= k < j ==> !Rebuilds(run[k], subject, id)
    ensures RevokedFor(After(run[..j]).b.snapshots, subject, id)
  {
    if i < j {
      RunKeepsRevoked(run, i, j - 1, subject, id);
      AfterOneMore(run, j - 1);
      StepKeepsRevoked(After(run[..j - 1]), run[j - 1], subject, id);
    }
  }

  /** No delegated permission is granted on a revoked connection, cached record or not. */
  lemma RevokedIsDenied(all: Snapshots, d: Context, n: Normalized, cacheHit: bool, id: string)
    requires RevokedFor(all, d.subject, id) && n.intent == Delegated && n.connectionId == Some(id)
    ensures !Authorized(all, d, n, cacheHit)
  {
    RevokedResolvesToRevoked(all[d.subject], id, d, FoundationRequestOf(n));
  }

  /** Once a revocation of a listed connection succeeds at step i, every delegated retrieval (or preview) by that
      subject whose request names the connection is denied at every later point, in any interleaving and for any cached
      record, as long as no connect rebuilds the connection; and the denial leaves cache and counters alone. */
  lemma {:induction false} RevocationBeatsCache(run: seq<Step>, i: nat, j: nat, d: Context, token: TokenRequest,
                                                cached: Option<Record>, now: int)
    requires i < j <= |run| && run[i].Revoke? && MayRevoke(run[i].c, run[i].connectionId)
    requires Lists(Ensured(After(run[..i]).b.snapshots, run[i].c, run[i].now)[run[i].c.subject], run[i].connectionId)
    requires forall k :: i < k < j ==> !Rebuilds(run[k], run[i].c.subject, run[i].connectionId)
    requires d.subject == run[i].c.subject
    requires token.intent == Delegated && token.connectionId == Some(run[i].connectionId)
    ensures var before := After(run[..j]).b;
            var (after, record) := Decide(before, d, Normalize(token, d), cached, now);
            && record == None
            && after.cache == before.cache && after.hits == before.hits && after.misses == before.misses
  {
    NormalizedRevokedIsDenied(run, i, j, d, Normalize(token, d), cached, now);
  }

  lemma {:induction false} NormalizedRevokedIsDenied(run: seq<Step>, i: nat, j: nat, d: Context, n: Normalized,
                                                     cached: Option<Record>, now: int)
    requires i < j <= |run| && run[i].Revoke? && MayRevoke(run[i].c, run[i].connectionId)
    requires Lists(Ensured(After(run[..i]).b.snapshots, run[i].c, run[i].now)[run[i].c.subject], run[i].connectionId)
    requires forall k :: i < k < j ==> !Rebuilds(run[k], run[i].c.subject, run[i].connectionId)
    requires d.subject == run[i].c.subject && n.intent == Delegated && n.connectionId == Some(run[i].connectionId)
    ensures var before := After(run[..j]).b;
            var (after, record) := Decide(before, d, n, cached, now);
            && record == None
            && after.cache == before.cache && after.hits == before.hits && after.misses == before.misses
  {
    var Revoke(c, id, intent, at) := run[i];
    var all := After(run[..i]).b.snapshots;
    AfterOneMore(run, i);
    RevokeRevokes(Ensured(all, c, at)[c.subject], id, intent, at);
    RunKeepsRevoked(run, i + 1, j, c.subject, id);
    RevokedIsDenied(After(run[..j]).b.snapshots, d, n, cached.Some?, id);
  }

  /** Between the revocation and the connect that rebuilds the connection, no session of it is active. */
  lemma {:induction false} NoActiveSessionAfterRevoke(run: seq<Step>, i: nat, j: nat)
    requires i < j <= |run| && run[i].Revoke? && MayRevoke(run[i].c, run[i].connectionId)
    requires Lists(Ensured(After(run[..i]).b.snapshots, run[i].c, run[i].now)[run[i].c.subject], run[i].connectionId)
    requires forall k :: i < k < j ==> !Rebuilds(run[k], run[i].c.subject, run[i].connectionId)
    ensures var all := After(run[..j]).b.snapshots;
            && run[i].c.subject in all
            && forall x :: x in all[run[i].c.subject].sessions && x.connectionId == run[i].connectionId ==>
                 x.status != SessionActive
  {
    var Revoke(c, id, intent, at) := run[i];
    AfterOneMore(run, i);
    RevokeRevokes(Ensured(After(run[..i]).b.snapshots, c, at)[c.subject], id, intent, at);
    RunKeepsRevoked(run, i + 1, j, c.subject, id);
  }

  // ----- snapshots stay well formed -----

  ghost predicate AllWellFormed(all: Snapshots) {
    forall subject :: subject in all ==> WellFormed(all[subject])
  }

  /** `after` still has every subject and every connection of `before`. */
  ghost predicate DropsNothing(before: Snapshots, after: Snapshots) {
    forall subject :: subject in before ==>
      subject in after && forall id :: Lists(before[subject], id) ==> Lists(after[subject], id)
  }

  lemma EnsuredKeeps(all: Snapshots, c: Context, now: int)
    requires AllWellFormed(all)
    ensures AllWellFormed(Ensured(all, c, now)) && DropsNothing(all, Ensured(all, c, now))
  {
    DefaultIsWellFormed(c, now);
  }

  lemma ConnectKeeps(all: Snapshots, c: Context, request: ConnectRequest, now: int)
    requires AllWellFormed(all)
    ensures AllWellFormed(AfterConnect(all, c, request, now)) && DropsNothing(all, AfterConnect(all, c, request, now))
  {
    EnsuredKeeps(all, c, now);
    var mine := Ensured(all, c, now)[c.subject];
    ConnectKeepsWellFormed(mine, c, request, now);
    forall id ensures Lists(mine, id) ==> Lists(Connected(mine, c, request, now), id) {
      ConnectLists(mine, c, request, now, id);
    }
  }

  lemma RevokeKeeps(all: Snapshots, c: Context, connectionId: string, intent: RevocationIntent, now: int)
    requires AllWellFormed(all)
    ensures AllWellFormed(AfterRevoke(all, c, connectionId, intent, now))
    ensures DropsNothing(all, AfterRevoke(all, c, connectionId, intent, now))
  {
    EnsuredKeeps(all, c, now);
    var mine := Ensured(all, c, now)[c.subject];
    RevokeKeepsWellFormed(mine, connectionId, intent, now);
    forall id ensures Lists(mine, id) ==> Lists(Revoked(mine, connectionId, intent, now), id) {
      RevokeLists(mine, connectionId, intent, now, id);
    }
  }

  lemma {:induction false} StepKeepsSnapshots(s: System, step: Step)
    requires AllWellFormed(s.b.snapshots)
    ensures AllWellFormed(Next(s, step).b.snapshots) && DropsNothing(s.b.snapshots, Next(s, step).b.snapshots)
  {
    var all := s.b.snapshots;
    match step
    case Connect(c, request, now) => ConnectKeeps(all, c, request, now);
    case Revoke(c, connectionId, intent, now) => RevokeKeeps(all, c, connectionId, intent, now);
    case ReadSnapshot(c, now) => EnsuredKeeps(all, c, now);
    case Preview(c, token, now) => EnsuredKeeps(all, c, now);
    case DecideCall(call, now) => DecideKeepsSnapshots(s, call, now);
    case _ =>
  }

  lemma DecideKeepsSnapshots(s: System, call: nat, now: int)
    requires AllWellFormed(s.b.snapshots)
    ensures var after := Next(s, DecideCall(call, now)).b.snapshots;
            AllWellFormed(after) && DropsNothing(s.b.snapshots, after)
  {
    if call in s.calls && s.calls[call].Peeked? { EnsuredKeeps(s.b.snapshots, s.calls[call].c, now); }
  }

  /** In every reachable state ids are unique and all references resolve; a listed connection is never dropped. */
  lemma {:induction false} SnapshotsOverRuns(run: seq<Step>, i: nat, j: nat)
    requires i <= j <= |run|
    ensures AllWellFormed(After(run[..j]).b.snapshots)
    ensures DropsNothing(After(run[..i]).b.snapshots, After(run[..j]).b.snapshots)
    decreases j
  {
    if j > 0 {
      SnapshotsOverRuns(run, if i < j then i else j - 1, j - 1);
      AfterOneMore(run, j - 1);
      StepKeepsSnapshots(After(run[..j - 1]), run[j - 1]);
    }
  }
}
