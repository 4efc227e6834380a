/** Operational counters over fixed windows, the timings kept, and the alerts read from the counters. */
module Observability {
  import opened Sequences

  const WINDOW := 60_000
  const TIMINGS_KEPT := 1000

  /** A counter and its labels in the order they were written. */
  datatype Key = Key(counter: string, labels: seq<(string, string)>)

  datatype CounterWindow = CounterWindow(count: nat, start: int)
  type Counters = map<Key, CounterWindow>

  datatype Timing = Timing(name: string, durationMs: int, labels: seq<(string, string)>, ts: int)

  /** The signals the service knows how to emit. */
  datatype Signal =
    | Denied(category: string, reason: string)
    | SecretDenied(category: string)
    | DependencyFailure(dependency: string)
    | DisabledInvocation(assistantId: string)

  /** What the alerts look at in an emitted event. */
  datatype Event = DisabledInvocationAttempt(assistantId: string) | OtherEvent

  datatype Alert =
    | DeniedSpike(count: nat)
    | RepeatedDisabledInvocation(assistantId: string, count: nat)
    | OpenFgaDegraded(count: nat)

  /** Each read of a counter reads the clock anew. */
  datatype Readings = Readings(denied: int, disabled: int, openFga: int)

  const DENIED := Key("denied", [])
  const OPENFGA_FAILURES := Key("dependency.failure", [("dependency", "openfga")])

  function DisabledKey(assistantId: string): Key {
    Key("assistant.disabled_invocation", [("assistantId", assistantId)])
  }

  function KeyOf(signal: Signal): Key {
    match signal
    case Denied(category, reason) => Key("denied", [("category", category), ("reason", reason)])
    case SecretDenied(category) => Key("secret.denied", [("category", category)])
    case DependencyFailure(dependency) => Key("dependency.failure", [("dependency", dependency)])
    case DisabledInvocation(assistantId) => DisabledKey(assistantId)
  }

  /** One increment of a window: counted if the window is still open, else the start of a new one. */
  function Bump(window: Option<CounterWindow>, now: int): CounterWindow {
    if window.Some? && now - window.value.start < WINDOW then window.value.(count := window.value.count + 1)
    else CounterWindow(1, now)
  }

  function Lookup(counters: Counters, key: Key): Option<CounterWindow> {
    if key in counters then Some(counters[key]) else None
  }

  function CountOf(window: Option<CounterWindow>, now: int): nat {
    if window.None? || now - window.value.start > WINDOW then 0 else window.value.count
  }

  function Count(counters: Counters, key: Key, now: int): nat {
    CountOf(Lookup(counters, key), now)
  }

  function AlertsFor(counters: Counters, event: Event, readings: Readings): seq<Alert> {
    var denied := Count(counters, DENIED, readings.denied);
    var openFga := Count(counters, OPENFGA_FAILURES, readings.openFga);
    (if denied >= 20 then [DeniedSpike(denied)] else [])
    + (if event.OtherEvent? then []
       else
         var disabled := Count(counters, DisabledKey(event.assistantId), readings.disabled);
         if disabled >= 5 then [RepeatedDisabledInvocation(event.assistantId, disabled)] else [])
    + (if openFga >= 3 then [OpenFgaDegraded(openFga)] else [])
  }

  function KeptTimings(timings: seq<Timing>): seq<Timing> {
    if |timings| > TIMINGS_KEPT then timings[|timings| - TIMINGS_KEPT..] else timings
  }

  predicate SlowPath(name: string, durationMs: int) {
    (name == "authz.evaluation" && durationMs > 500) || (name == "runtime.execution" && durationMs > 2000)
  }

  class ObservabilityService {
    var counters: Counters
    var timings: seq<Timing>
    /** The alerts logged so far. */
    var alerts: seq<Alert>

    constructor ()
      ensures counters == map[] && timings == [] && alerts == []
    {
      counters, timings, alerts := map[], [], [];
    }

    /** `increment`. */
    method Increment(key: Key, now: int)
      modifies `counters
      ensures counters == old(counters)[key := Bump(Lookup(old(counters), key), now)]
    {
      if key in counters && now - counters[key].start < WINDOW {
        counters := counters[key := counters[key].(count := counters[key].count + 1)];
      } else {
        counters := counters[key := CounterWindow(1, now)];
      }
    }

    /** `getCount`. */
    method GetCount(key: Key, now: int) returns (count: nat)
      ensures count == Count(counters, key, now)
    {
      if key !in counters {
        return 0;
      }
      if now - counters[key].start > WINDOW {
        return 0;
      }
      count := counters[key].count;
    }

    /** `evaluateAlerts`. */
    method EvaluateAlerts(event: Event, readings: Readings)
      modifies `alerts
      ensures alerts == old(alerts) + AlertsFor(counters, event, readings)
    {
      var denied := GetCount(DENIED, readings.denied);
      if denied >= 20 {
        alerts := alerts + [DeniedSpike(denied)];
      }
      if event.DisabledInvocationAttempt? {
        var count := GetCount(DisabledKey(event.assistantId), readings.disabled);
        if count >= 5 {
          alerts := alerts + [RepeatedDisabledInvocation(event.assistantId, count)];
        }
      }
      var openFga := GetCount(OPENFGA_FAILURES, readings.openFga);
      if openFga >= 3 {
        alerts := alerts + [OpenFgaDegraded(openFga)];
      }
    }

    /** `emitDenied`, `emitSecretBoundaryDenied`, `emitDependencyFailure` and `emitDisabledInvocation`: one increment,
        then the alerts. */
    method Emit(signal: Signal, at: int, readings: Readings)
      modifies `counters, `alerts
      ensures counters == old(counters)[KeyOf(signal) := Bump(Lookup(old(counters), KeyOf(signal)), at)]
      ensures alerts == old(alerts) + AlertsFor(counters, EventOf(signal), readings)
      ensures signal.DisabledInvocation? ==>
                alerts == old(alerts) + AlertsFor(counters, DisabledInvocationAttempt(signal.assistantId), readings)
      ensures !signal.DisabledInvocation? ==> alerts == old(alerts) + AlertsFor(counters, OtherEvent, readings)
    {
      Increment(KeyOf(signal), at);
      EvaluateAlerts(EventOf(signal), readings);
    }

    /** `timing`: the last 1000 timings are kept, and a slow path is a warning, so the alerts are evaluated. */
    method RecordTiming(name: string, durationMs: int, labels: seq<(string, string)>, ts: int, readings: Readings)
      requires |timings| <= TIMINGS_KEPT
      modifies `timings, `alerts
      ensures |timings| <= TIMINGS_KEPT && timings == KeptTimings(old(timings) + [Timing(name, durationMs, labels, ts)])
      ensures alerts ==
              old(alerts) + if SlowPath(name, durationMs) then AlertsFor(counters, OtherEvent, readings) else []
    {
      timings := timings + [Timing(name, durationMs, labels, ts)];
      if |timings| > TIMINGS_KEPT {
        timings := timings[|timings| - TIMINGS_KEPT..];
      }
      if name == "authz.evaluation" && durationMs > 500 {
        EvaluateAlerts(OtherEvent, readings);
      }
      if name == "runtime.execution" && durationMs > 2000 {
        EvaluateAlerts(OtherEvent, readings);
      }
    }
  }

  function EventOf(signal: Signal): Event {
    if signal.DisabledInvocation? then DisabledInvocationAttempt(signal.assistantId) else OtherEvent
  }
}
