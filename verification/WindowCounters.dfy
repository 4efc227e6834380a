/** What the fixed windows say about the true sliding window, over all histories of increments. */
module WindowCounters {
  import opened Sequences
  import opened Observability

  /** One increment, at the time it read the clock, and the time its alert then read the counter. */
  datatype Call = Call(key: Key, at: int, readAt: int)

  /** The clock never runs backwards, and each alert is read before the next increment. */
  ghost predicate Chronological(h: seq<Call>) {
    && (forall i :: 0 <= i < |h| ==> h[i].at <= h[i].readAt)
    && forall i, j :: 0 <= i < j < |h| ==> h[i].readAt <= h[j].at
  }

  /** The counters after a history, from none. */
  function After(h: seq<Call>): Counters {
    if h == [] then map[]
    else
      var before, last := After(h[..|h| - 1]), h[|h| - 1];
      before[last.key := Bump(Lookup(before, last.key), last.at)]
  }

  /** The window of one key after a history; the other keys do not matter to it. */
  function WindowOf(h: seq<Call>, key: Key): Option<CounterWindow> {
    if h == [] then None
    else
      var before, last := WindowOf(h[..|h| - 1], key), h[|h| - 1];
      if last.key == key then Some(Bump(before, last.at)) else before
  }

  lemma {:induction false} AfterIsWindowOf(h: seq<Call>, key: Key)
    ensures Lookup(After(h), key) == WindowOf(h, key)
  {
    if h != [] {
      var last := h[|h| - 1];
      AfterIsWindowOf(h[..|h| - 1], key);
      AfterIsWindowOf(h[..|h| - 1], last.key);
    }
  }

  /** The increments of a key at or after a time. */
  function Since(h: seq<Call>, key: Key, from: int): nat {
    if h == [] then 0
    else
      var last := h[|h| - 1];
      Since(h[..|h| - 1], key, from) + if last.key == key && last.at >= from then 1 else 0
  }

  /** The increments of a key from position n on. */
  function Calls(h: seq<Call>, key: Key, n: nat): nat {
    if |h| <= n then 0
    else Calls(h[..|h| - 1], key, n) + if h[|h| - 1].key == key then 1 else 0
  }

  lemma {:induction false} SinceShrinks(h: seq<Call>, key: Key, from: int, to: int)
    requires from <= to
    ensures Since(h, key, to) <= Since(h, key, from)
  {
    if h != [] { SinceShrinks(h[..|h| - 1], key, from, to); }
  }

  lemma {:induction false} WindowCountsItsCalls(h: seq<Call>, key: Key)
    requires Chronological(h)
    ensures var w := WindowOf(h, key);
            w.Some? ==> h != [] && w.value.start <= h[|h| - 1].at && w.value.count <= Since(h, key, w.value.start)
  {
    if h != [] {
      var front, last := h[..|h| - 1], h[|h| - 1];
      WindowCountsItsCalls(front, key);
      if front != [] {
        assert front[|front| - 1] == h[|h| - 2];
        assert h[|h| - 2].at <= h[|h| - 2].readAt <= last.at;
      }
    }
  }

  /** A count never exceeds the true number of increments of that key in the closed last 60 seconds. */
  lemma CountIsBounded(h: seq<Call>, key: Key, now: int)
    requires Chronological(h) && (h != [] ==> h[|h| - 1].at <= now)
    ensures Count(After(h), key, now) <= Since(h, key, now - 60_000)
  {
    AfterIsWindowOf(h, key);
    WindowCountsItsCalls(h, key);
    var w := WindowOf(h, key);
    if w.Some? && now - w.value.start <= WINDOW {
      SinceShrinks(h, key, now - WINDOW, w.value.start);
    }
  }

  /** An alert is raised only if as many increments as its threshold really happened in the last 60 seconds. */
  lemma {:induction false} AlertsAreJustified(h: seq<Call>, event: Event, readings: Readings, alert: Alert)
    requires Chronological(h)
    requires h != [] ==>
               && h[|h| - 1].at <= readings.denied
               && h[|h| - 1].at <= readings.disabled
               && h[|h| - 1].at <= readings.openFga
    requires alert in AlertsFor(After(h), event, readings)
    ensures alert.RepeatedDisabledInvocation? ==>
              5 <= alert.count <= Since(h, DisabledKey(alert.assistantId), readings.disabled - 60_000)
    ensures alert.OpenFgaDegraded? ==> 3 <= alert.count <= Since(h, OPENFGA_FAILURES, readings.openFga - 60_000)
    ensures alert.DeniedSpike? ==> 20 <= alert.count <= Since(h, DENIED, readings.denied - 60_000)
  {
    CountIsBounded(h, DENIED, readings.denied);
    CountIsBounded(h, OPENFGA_FAILURES, readings.openFga);
    if event.DisabledInvocationAttempt? {
      CountIsBounded(h, DisabledKey(event.assistantId), readings.disabled);
    }
  }

  /** Which alerts an event raises, each with its count: a spike from 20 denials, repeated invocations of the event's
      assistant from 5, a degraded OpenFGA from 3; at most one of each, and in this order. */
  lemma AlertsExactly(counters: Counters, event: Event, readings: Readings, alert: Alert)
    ensures var alerts := AlertsFor(counters, event, readings);
            && (alert in alerts <==>
                match alert
                case DeniedSpike(n) => n >= 20 && n == Count(counters, Key("denied", []), readings.denied)
                case RepeatedDisabledInvocation(a, n) =>
                  && event == DisabledInvocationAttempt(a) && n >= 5
                  && n == Count(counters, Key("assistant.disabled_invocation", [("assistantId", a)]), readings.disabled)
                case OpenFgaDegraded(n) =>
                  && n >= 3
                  && n == Count(counters, Key("dependency.failure", [("dependency", "openfga")]), readings.openFga))
            && forall i, j :: 0 <= i < j < |alerts| ==> RankOf(alerts[i]) < RankOf(alerts[j])
  {
  }

  function RankOf(alert: Alert): nat {
    match alert
    case DeniedSpike(_) => 0
    case RepeatedDisabledInvocation(_, _) => 1
    case OpenFgaDegraded(_) => 2
  }

  // ----- enough invocations do raise the alert -----

  /** While no increment comes 60 seconds after a bound on the window's start, the window only counts up. */
  lemma {:induction false} WindowStays(h: seq<Call>, key: Key, n: nat, bound: int)
    requires n <= |h| && WindowOf(h[..n], key).Some? && WindowOf(h[..n], key).value.start >= bound
    requires forall i :: n <= i < |h| ==> h[i].at - bound < WINDOW
    ensures var before := WindowOf(h[..n], key).value;
            WindowOf(h, key) == Some(CounterWindow(before.count + Calls(h, key, n), before.start))
  {
    if n == |h| {
      assert h[..n] == h;
    } else {
      var front := h[..|h| - 1];
      assert front[..n] == h[..n];
      WindowStays(front, key, n, bound);
    }
  }

  /** From one position to the next, a window either counted every increment or was restarted by one of them. */
  lemma {:induction false} CountedOrRestarted(h: seq<Call>, key: Key, n: nat)
    requires Chronological(h) && n <= |h| && WindowOf(h[..n], key).Some?
    ensures var before, w := WindowOf(h[..n], key).value, WindowOf(h, key);
            && w.Some?
            && (w.value == CounterWindow(before.count + Calls(h, key, n), before.start)
                || (n < |h| && w.value.start >= h[n].at))
  {
    if n == |h| {
      assert h[..n] == h;
    } else {
      var front := h[..|h| - 1];
      assert front[..n] == h[..n];
      CountedOrRestarted(front, key, n);
      if n < |front| {
        assert front[n] == h[n];
        assert h[n].at <= h[n].readAt <= h[|h| - 1].at;
      }
    }
  }

  /** After an increment the window of its key is open, and either new or already holding an earlier increment. */
  lemma OpenAfterCall(h: seq<Call>, i: nat)
    requires i < |h|
    ensures var before, w := WindowOf(h[..i], h[i].key), WindowOf(h[..i + 1], h[i].key);
            && w == Some(Bump(before, h[i].at))
            && h[i].at - w.value.start < WINDOW
            && (w.value.start == h[i].at || before.Some?)
  {
    assert h[..i + 1][..i] == h[..i];
  }

  lemma {:induction false} CountsArePositive(h: seq<Call>, key: Key)
    ensures WindowOf(h, key).Some? ==> WindowOf(h, key).value.count >= 1
  {
    if h != [] { CountsArePositive(h[..|h| - 1], key); }
  }

  /** Positions of increments of one key, in order. */
  ghost predicate Positions(h: seq<Call>, key: Key, p: seq<nat>) {
    && (forall k :: 0 <= k < |p| ==> p[k] < |h| && h[p[k]].key == key)
    && forall k, l :: 0 <= k < l < |p| ==> p[k] < p[l]
  }

  lemma {:induction false} CallsAtPositions(h: seq<Call>, key: Key, p: seq<nat>, a: nat, b: nat)
    requires Positions(h, key, p) && a <= b < |p|
    ensures Calls(h[..p[b] + 1], key, p[a] + 1) >= b - a
    decreases b - a
  {
    if a < b {
      CallsAtPositions(h, key, p, a, b - 1);
      var long := h[..p[b] + 1];
      assert long[..p[b]] == h[..p[b]];
      CallsGrow(h, key, p[a] + 1, p[b - 1] + 1, p[b]);
    }
  }

  lemma {:induction false} CallsGrow(h: seq<Call>, key: Key, n: nat, i: nat, j: nat)
    requires i <= j <= |h|
    ensures Calls(h[..i], key, n) <= Calls(h[..j], key, n)
  {
    if i < j {
      assert h[..j][..j - 1] == h[..j - 1];
      CallsGrow(h, key, n, i, j - 1);
    }
  }

  /** The counter read behind the i-th call of the history is at least `threshold`. */
  ghost predicate Reaches(h: seq<Call>, i: nat, threshold: nat)
    requires i < |h|
  {
    Count(After(h[..i + 1]), h[i].key, h[i].readAt) >= threshold
  }

  ghost predicate SomeReaches(h: seq<Call>, p: seq<nat>, threshold: nat)
    requires forall k :: 0 <= k < |p| ==> p[k] < |h|
  {
    exists k :: 0 <= k < |p| && Reaches(h, p[k], threshold)
  }

  /** A window that starts within the span counts the calls that follow one it holds, and the reading sees it. */
  lemma ReachesFromFreshWindow(h: seq<Call>, key: Key, p: seq<nat>, a: nat, t: nat)
    requires Chronological(h) && Positions(h, key, p) && t >= 1 && a + t - 1 < |p|
    requires h[p[a + t - 1]].readAt - h[p[0]].at < WINDOW
    requires WindowOf(h[..p[a] + 1], key).Some? && WindowOf(h[..p[a] + 1], key).value.start >= h[p[0]].at
    ensures Reaches(h, p[a + t - 1], t)
  {
    var last := a + t - 1;
    var q, n := h[..p[last] + 1], p[a] + 1;
    assert p[a] <= p[last];
    assert q[..n] == h[..n];
    CountsArePositive(h[..n], key);
    forall i | n <= i < |q| ensures q[i].at - h[p[0]].at < WINDOW {
      assert i < p[last] ==> h[i].readAt <= h[p[last]].at;
    }
    WindowStays(q, key, n, h[p[0]].at);
    CallsAtPositions(h, key, p, a, last);
    AfterIsWindowOf(q, key);
  }

  /** Unless the window was restarted within the span by its last call but one, it has reached the threshold by then. */
  lemma ByTheLastButOne(h: seq<Call>, key: Key, p: seq<nat>, t: nat)
    requires Chronological(h) && Positions(h, key, p) && 2 <= t <= |p|
    ensures var w := WindowOf(h[..p[t - 2] + 1], key);
            && w.Some? && h[p[t - 2]].at - w.value.start < WINDOW
            && (w.value.count >= t || w.value.start >= h[p[0]].at)
  {
    var q, n := h[..p[t - 2] + 1], p[0] + 1;
    assert p[0] <= p[t - 2];
    assert q[..n] == h[..n];
    OpenAfterCall(h, p[0]);
    CountsArePositive(h[..p[0]], key);
    OpenAfterCall(h, p[t - 2]);
    CountedOrRestarted(q, key, n);
    CallsAtPositions(h, key, p, 0, t - 2);
    assert n < |h| ==> h[p[0]].at <= h[p[0]].readAt <= h[n].at;
  }

  /** A window that a reading finds expired is restarted by the next call at the latest. */
  lemma ExpiredIsRestarted(h: seq<Call>, key: Key, p: seq<nat>, k: nat)
    requires Chronological(h) && Positions(h, key, p) && k + 1 < |p|
    requires WindowOf(h[..p[k] + 1], key).Some? && h[p[k]].readAt - WindowOf(h[..p[k] + 1], key).value.start > WINDOW
    ensures WindowOf(h[..p[k + 1] + 1], key).Some? && WindowOf(h[..p[k + 1] + 1], key).value.start >= h[p[0]].at
  {
    var q, n := h[..p[k + 1] + 1], p[k] + 1;
    assert q[..n] == h[..n];
    CountedOrRestarted(q, key, n);
    OpenAfterCall(h, p[k + 1]);
    Ordered(h, p);
    assert h[p[0]].at <= h[p[k]].readAt <= h[n].at;
  }

  lemma Ordered(h: seq<Call>, p: seq<nat>)
    requires Chronological(h) && forall k :: 0 <= k < |p| ==> p[k] < |h|
    requires forall k, l :: 0 <= k < l < |p| ==> p[k] < p[l]
    ensures forall k, l :: 0 <= k < l < |p| ==> h[p[k]].readAt <= h[p[l]].at && h[p[k]].readAt <= h[p[l]].readAt
    ensures forall k :: 0 <= k < |p| ==> h[p[0]].at <= h[p[k]].at <= h[p[k]].readAt
  {
  }

  /** For any threshold t of at least two: 2t - 1 increments of one key, from the first increment to the last reading in
      less than 60 seconds, are read as t at least once, whatever else is counted in between. */
  lemma EnoughCallsReach(h: seq<Call>, key: Key, p: seq<nat>, t: nat)
    requires Chronological(h) && Positions(h, key, p) && t >= 2 && |p| == 2 * t - 1
    requires h[p[2 * t - 2]].readAt - h[p[0]].at < WINDOW
    ensures SomeReaches(h, p, t)
  {
    Ordered(h, p);
    ByTheLastButOne(h, key, p, t);
    var w := WindowOf(h[..p[t - 2] + 1], key).value;
    AfterIsWindowOf(h[..p[t - 2] + 1], key);
    if w.start >= h[p[0]].at {
      ReachesFromFreshWindow(h, key, p, t - 2, t);
    } else if h[p[t - 2]].readAt - w.start <= WINDOW {
      assert Reaches(h, p[t - 2], t);
    } else {
      ExpiredIsRestarted(h, key, p, t - 2);
      ReachesFromFreshWindow(h, key, p, t - 1, t);
    }
  }

  /** One fewer is enough when the reading of the last call but one of a threshold is at most a millisecond late. */
  lemma PromptCallsReach(h: seq<Call>, key: Key, p: seq<nat>, t: nat)
    requires Chronological(h) && Positions(h, key, p) && t >= 2 && |p| == 2 * t - 2
    requires h[p[2 * t - 3]].readAt - h[p[0]].at < WINDOW
    requires h[p[t - 2]].readAt <= h[p[t - 2]].at + 1
    ensures SomeReaches(h, p, t)
  {
    Ordered(h, p);
    ByTheLastButOne(h, key, p, t);
    var w := WindowOf(h[..p[t - 2] + 1], key).value;
    AfterIsWindowOf(h[..p[t - 2] + 1], key);
    if w.start >= h[p[0]].at {
      ReachesFromFreshWindow(h, key, p, t - 2, t);
    } else {
      assert Reaches(h, p[t - 2], t);
    }
  }

  /** As many as the threshold are enough when the first of them is the first ever. */
  lemma FirstCallsReach(h: seq<Call>, key: Key, p: seq<nat>, t: nat)
    requires Chronological(h) && Positions(h, key, p) && t >= 1 && |p| == t
    requires h[p[t - 1]].readAt - h[p[0]].at < WINDOW
    requires forall i :: 0 <= i < p[0] ==> h[i].key != key
    ensures Reaches(h, p[t - 1], t)
  {
    NeverCounted(h[..p[0]], key);
    OpenAfterCall(h, p[0]);
    ReachesFromFreshWindow(h, key, p, 0, t);
  }

  // ----- what is counted raises its alert -----

  ghost predicate RepeatedIn(counters: Counters, a: string, readings: Readings) {
    exists alert :: alert in AlertsFor(counters, DisabledInvocationAttempt(a), readings)
                    && alert.RepeatedDisabledInvocation? && alert.assistantId == a && alert.count >= 5
  }

  ghost predicate DegradedIn(counters: Counters, event: Event, readings: Readings) {
    exists alert :: alert in AlertsFor(counters, event, readings) && alert.OpenFgaDegraded? && alert.count >= 3
  }

  ghost predicate SpikeIn(counters: Counters, event: Event, readings: Readings) {
    exists alert :: alert in AlertsFor(counters, event, readings) && alert.DeniedSpike? && alert.count >= 20
  }

  ghost predicate RepeatedAt(counters: Counters, a: string, reading: int) {
    forall readings: Readings :: readings.disabled == reading ==> RepeatedIn(counters, a, readings)
  }

  ghost predicate DegradedAt(counters: Counters, reading: int) {
    forall event: Event, readings: Readings :: readings.openFga == reading ==> DegradedIn(counters, event, readings)
  }

  ghost predicate SpikeAt(counters: Counters, reading: int) {
    forall event: Event, readings: Readings :: readings.denied == reading ==> SpikeIn(counters, event, readings)
  }

  /** The alert behind the i-th count, an invocation of disabled assistant `a`, is raised, whenever the other counters
      are read. */
  ghost predicate RaisesRepeated(h: seq<Call>, i: nat, a: string) {
    i < |h| && RepeatedAt(After(h[..i + 1]), a, h[i].readAt)
  }

  /** The alert on OpenFGA behind the i-th count, of any event, is raised. */
  ghost predicate RaisesDegraded(h: seq<Call>, i: nat) {
    i < |h| && DegradedAt(After(h[..i + 1]), h[i].readAt)
  }

  /** The alert on a spike of denials behind the i-th count, of any event, is raised. */
  ghost predicate RaisesSpike(h: seq<Call>, i: nat) {
    i < |h| && SpikeAt(After(h[..i + 1]), h[i].readAt)
  }

  lemma ReachedIsRepeated(h: seq<Call>, i: nat, a: string)
    requires i < |h| && h[i].key == DisabledKey(a) && Reaches(h, i, 5)
    ensures RaisesRepeated(h, i, a)
  {
    var counters := After(h[..i + 1]);
    forall readings: Readings | readings.disabled == h[i].readAt ensures RepeatedIn(counters, a, readings) {
      var alert := RepeatedDisabledInvocation(a, Count(counters, DisabledKey(a), h[i].readAt));
      assert alert in AlertsFor(counters, DisabledInvocationAttempt(a), readings);
    }
  }

  lemma ReachedIsDegraded(h: seq<Call>, i: nat)
    requires i < |h| && h[i].key == OPENFGA_FAILURES && Reaches(h, i, 3)
    ensures RaisesDegraded(h, i)
  {
    var counters := After(h[..i + 1]);
    forall event: Event, readings: Readings | readings.openFga == h[i].readAt
      ensures DegradedIn(counters, event, readings)
    {
      var alert := OpenFgaDegraded(Count(counters, OPENFGA_FAILURES, h[i].readAt));
      assert alert in AlertsFor(counters, event, readings);
    }
  }

  lemma ReachedIsSpike(h: seq<Call>, i: nat)
    requires i < |h| && h[i].key == DENIED && Reaches(h, i, 20)
    ensures RaisesSpike(h, i)
  {
    var counters := After(h[..i + 1]);
    forall event: Event, readings: Readings | readings.denied == h[i].readAt
      ensures SpikeIn(counters, event, readings)
    {
      var alerts, alert := AlertsFor(counters, event, readings), DeniedSpike(Count(counters, DENIED, h[i].readAt));
      assert alerts[0] == alert && alert in alerts;
    }
  }

  /** Any nine invocations of one disabled assistant, from the first increment to the last reading in less than 60
      seconds, raise the alert at least once, whatever else is counted in between. */
  lemma NineInvocationsFire(h: seq<Call>, a: string, p: seq<nat>)
    requires Chronological(h) && Positions(h, DisabledKey(a), p) && |p| == 9
    requires h[p[8]].readAt - h[p[0]].at < 60_000
    ensures exists k :: 0 <= k < 9 && RaisesRepeated(h, p[k], a)
  {
    EnoughCallsReach(h, DisabledKey(a), p, 5);
    var k :| 0 <= k < 9 && Reaches(h, p[k], 5);
    ReachedIsRepeated(h, p[k], a);
  }

  /** Eight are enough when the alert of the fourth reads the clock at most a millisecond after its increment. */
  lemma EightPromptInvocationsFire(h: seq<Call>, a: string, p: seq<nat>)
    requires Chronological(h) && Positions(h, DisabledKey(a), p) && |p| == 8
    requires h[p[7]].readAt - h[p[0]].at < 60_000
    requires h[p[3]].readAt <= h[p[3]].at + 1
    ensures exists k :: 0 <= k < 8 && RaisesRepeated(h, p[k], a)
  {
    PromptCallsReach(h, DisabledKey(a), p, 5);
    var k :| 0 <= k < 8 && Reaches(h, p[k], 5);
    ReachedIsRepeated(h, p[k], a);
  }

  /** Five OpenFGA failures within 60 seconds always raise the alert; three do when none was counted before. */
  lemma FiveFailuresFire(h: seq<Call>, p: seq<nat>)
    requires Chronological(h) && Positions(h, KeyOf(DependencyFailure("openfga")), p) && |p| == 5
    requires h[p[4]].readAt - h[p[0]].at < 60_000
    ensures exists k :: 0 <= k < 5 && RaisesDegraded(h, p[k])
  {
    EnoughCallsReach(h, OPENFGA_FAILURES, p, 3);
    var k :| 0 <= k < 5 && Reaches(h, p[k], 3);
    ReachedIsDegraded(h, p[k]);
  }

  lemma ThreeFirstFailuresFire(h: seq<Call>, p: seq<nat>)
    requires Chronological(h) && Positions(h, KeyOf(DependencyFailure("openfga")), p) && |p| == 3
    requires h[p[2]].readAt - h[p[0]].at < 60_000
    requires forall i :: 0 <= i < p[0] ==> h[i].key != KeyOf(DependencyFailure("openfga"))
    ensures RaisesDegraded(h, p[2])
  {
    FirstCallsReach(h, OPENFGA_FAILURES, p, 3);
    ReachedIsDegraded(h, p[2]);
  }

  /** Thirty-nine increments of the unlabelled counter of denials within 60 seconds always raise the spike. */
  lemma ThirtyNineDenialsFire(h: seq<Call>, p: seq<nat>)
    requires Chronological(h) && Positions(h, Key("denied", []), p) && |p| == 39
    requires h[p[38]].readAt - h[p[0]].at < 60_000
    ensures exists k :: 0 <= k < 39 && RaisesSpike(h, p[k])
  {
    EnoughCallsReach(h, DENIED, p, 20);
    var k :| 0 <= k < 39 && Reaches(h, p[k], 20);
    ReachedIsSpike(h, p[k]);
  }

  /** No two signals share a counter, and no signal has the unlabelled counter of denials. */
  lemma SignalsHaveOwnCounters(s: Signal, t: Signal)
    ensures KeyOf(s) == KeyOf(t) <==> s == t
    ensures KeyOf(s) != Key("denied", [])
  {
    assert |"denied"| == 6 && |"secret.denied"| == 13 && |"dependency.failure"| == 18;
    assert |"assistant.disabled_invocation"| == 29;
    assert |KeyOf(s).labels| > 0 && |KeyOf(t).labels| > 0;
    assert KeyOf(s).labels[0].1 == (match s case Denied(c, _) => c case SecretDenied(c) => c
                                            case DependencyFailure(d) => d case DisabledInvocation(a) => a);
    if s.Denied? && t.Denied? {
      assert KeyOf(s).labels[1].1 == s.reason && KeyOf(t).labels[1].1 == t.reason;
    }
  }

  // ----- eight are not always enough -----

  /** One earlier invocation opens a window; the alert of the fifth increment in it reads the clock two milliseconds
      late and finds it closed; the next increment starts over. */
  function SilentRun(key: Key): seq<Call> {
    [Call(key, 0, 0), Call(key, 59_996, 59_996), Call(key, 59_997, 59_997), Call(key, 59_998, 59_998),
     Call(key, 59_999, 60_001), Call(key, 60_001, 60_001), Call(key, 60_002, 60_002), Call(key, 60_003, 60_003),
     Call(key, 60_004, 60_004)]
  }

  /** Eight invocations within nine milliseconds, none of which raises the alert: nine is the least number. */
  lemma EightCanStaySilent(a: string)
    ensures var h := SilentRun(DisabledKey(a));
            && Chronological(h)
            && h[8].readAt - h[1].at < 9
            && forall i, denied, openFga, alert ::
                 0 <= i < |h| && alert in AlertsFor(After(h[..i + 1]), DisabledInvocationAttempt(a),
                                                    Readings(denied, h[i].readAt, openFga)) ==>
                 h[i].key == DisabledKey(a) && !alert.RepeatedDisabledInvocation?
  {
    var h := SilentRun(DisabledKey(a));
    forall i | 0 <= i < |h| ensures !Reaches(h, i, 5) {
      SilentWindow(DisabledKey(a), i);
      AfterIsWindowOf(h[..i + 1], DisabledKey(a));
    }
    forall i, denied, openFga, alert |
      0 <= i < |h| && alert in AlertsFor(After(h[..i + 1]), DisabledInvocationAttempt(a),
                                         Readings(denied, h[i].readAt, openFga))
      ensures h[i].key == DisabledKey(a) && !alert.RepeatedDisabledInvocation?
    {
      assert !Reaches(h, i, 5);
    }
  }

  lemma {:induction false} SilentWindow(key: Key, i: nat)
    requires i < 9
    ensures WindowOf(SilentRun(key)[..i + 1], key) ==
            Some(if i < 5 then CounterWindow(i + 1, 0) else CounterWindow(i - 4, 60_001))
  {
    var h := SilentRun(key);
    OpenAfterCall(h, i);
    if i == 0 {
      assert h[..0] == [];
    } else {
      SilentWindow(key, i - 1);
    }
  }

  // ----- the spike of denials -----

  /** The history of a service that is only told of the built-in signals. */
  function Calling(signals: seq<Signal>, times: seq<int>): seq<Call>
    requires |signals| == |times|
  {
    seq(|signals|, i requires 0 <= i < |signals| => Call(KeyOf(signals[i]), times[i], times[i]))
  }

  /** The denied-spike alert reads a counter without labels, which no built-in signal increments: it never fires. */
  lemma NoSignalRaisesDeniedSpike(signals: seq<Signal>, times: seq<int>, event: Event, readings: Readings)
    requires |signals| == |times|
    ensures forall alert :: alert in AlertsFor(After(Calling(signals, times)), event, readings) ==> !alert.DeniedSpike?
  {
    var h := Calling(signals, times);
    AfterIsWindowOf(h, DENIED);
    forall i | 0 <= i < |h| ensures h[i].key != DENIED {
      assert |KeyOf(signals[i]).labels| > 0;
    }
    NeverCounted(h, DENIED);
  }

  lemma {:induction false} NeverCounted(h: seq<Call>, key: Key)
    requires forall i :: 0 <= i < |h| ==> h[i].key != key
    ensures WindowOf(h, key).None?
  {
    if h != [] { NeverCounted(h[..|h| - 1], key); }
  }

  // ----- the timings kept -----

  /** The list after recording the given timings one by one. */
  function Recorded(entries: seq<Timing>): seq<Timing> {
    if entries == [] then [] else KeptTimings(Recorded(entries[..|entries| - 1]) + [entries[|entries| - 1]])
  }

  lemma {:induction false} RecordedIsKept(entries: seq<Timing>)
    ensures Recorded(entries) == KeptTimings(entries)
  {
    if entries != [] {
      RecordedIsKept(entries[..|entries| - 1]);
    }
  }

  /** Trimming after every entry keeps exactly the last 1000 of all. */
  lemma {:induction false} TimingsAreTheLatest(entries: seq<Timing>)
    ensures Recorded(entries) == if |entries| <= 1000 then entries else entries[|entries| - 1000..]
  {
    RecordedIsKept(entries);
  }

  /** A path is slow above half a second for an evaluation, above two seconds for an execution, and no other ever is. */
  lemma SlowPathsAre(name: string, durationMs: int)
    ensures SlowPath("authz.evaluation", durationMs) <==> durationMs > 500
    ensures SlowPath("runtime.execution", durationMs) <==> durationMs > 2000
    ensures name != "authz.evaluation" && name != "runtime.execution" ==> !SlowPath(name, durationMs)
  {
    assert "authz.evaluation"[0] == 'a' && "runtime.execution"[0] == 'r';
  }
}
