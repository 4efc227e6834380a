/** The audited operation: a requested event, the business function, and one terminal event, with a writer that may
    throw. */
module Audit {
  import opened Sequences

  /** What can be thrown: the denial the pattern tells apart, or anything else. */
  datatype Thrown = Denial(message: string, codes: seq<string>) | OtherError(message: string)

  /** The four events of an audited operation, and events others record by name. */
  datatype Event =
    | Requested
    | Completed
    | DeniedEvent(message: string, codes: seq<string>)
    | FailedEvent(message: string)
    | NamedEvent(name: string)

  predicate Terminal(event: Event) {
    event.Completed? || event.DeniedEvent? || event.FailedEvent?
  }

  /** What an observer of one process sees: events recorded, and the business function being called. */
  datatype Entry = Recorded(event: Event) | Ran

  /** What the business function does when called. */
  datatype Business<T> = Returns(data: T) | Throws(thrown: Thrown)

  datatype Result<T> =
    | CompletedResult(data: T)
    | DeniedResult(message: string, codes: seq<string>)
    | FailedResult(message: string)

  /** The call returns a result, or lets an error of the writer through. */
  datatype Outcome<T> = Returned(result: Result<T>) | Propagated(thrown: Thrown)

  /** For each attempt to record, by number: what it throws, if it throws. */
  type Faults = nat -> Option<Thrown>

  /** The audit writer: an attempt that throws has recorded nothing. */
  class AuditWriter {
    const faults: Faults
    var history: seq<Entry>
    var attempts: nat

    constructor (faults: Faults)
      ensures this.faults == faults && history == [] && attempts == 0
    {
      this.faults := faults;
      history, attempts := [], 0;
    }

    method Record(event: Event) returns (thrown: Option<Thrown>)
      modifies this
      ensures attempts == old(attempts) + 1
      ensures thrown == faults(old(attempts))
      ensures history == old(history) + if thrown.None? then [Recorded(event)] else []
    {
      thrown := faults(attempts);
      attempts := attempts + 1;
      if thrown.None? {
        history := history + [Recorded(event)];
      }
    }

    method Call<T>(business: Business<T>) returns (answer: Business<T>)
      modifies `history
      ensures answer == business
      ensures history == old(history) + [Ran]
    {
      history := history + [Ran];
      answer := business;
    }

    /** `executeAuditedOperation`. */
    method ExecuteAudited<T>(business: Business<T>) returns (outcome: Outcome<T>)
      modifies this
      ensures var call := Protocol(business, faults, old(attempts));
              && history == old(history) + call.entries
              && attempts == old(attempts) + call.attempts
              && outcome == call.outcome
    {
      var thrown := Record(Requested);
      if thrown.Some? {
        return Propagated(thrown.value);
      }
      var answer := Call(business);
      var caught: Thrown;
      if answer.Returns? {
        thrown := Record(Completed);
        if thrown.None? {
          return Returned(CompletedResult(answer.data));
        }
        caught := thrown.value;
      } else {
        caught := answer.thrown;
      }
      if caught.Denial? {
        thrown := Record(DeniedEvent(caught.message, caught.codes));
        outcome :=
          if thrown.Some? then Propagated(thrown.value) else Returned(DeniedResult(caught.message, caught.codes));
      } else {
        thrown := Record(FailedEvent(caught.message));
        outcome := if thrown.Some? then Propagated(thrown.value) else Returned(FailedResult(caught.message));
      }
    }
  }

  // ----- what one call does -----

  datatype CallTrace<T> = CallTrace(entries: seq<Entry>, attempts: nat, outcome: Outcome<T>)

  function Reported(caught: Thrown): Event {
    if caught.Denial? then DeniedEvent(caught.message, caught.codes) else FailedEvent(caught.message)
  }

  function Refusal<T>(caught: Thrown): Result<T> {
    if caught.Denial? then DeniedResult(caught.message, caught.codes) else FailedResult(caught.message)
  }

  /** The catch block, entered with `caught` after the given entries and attempts. */
  function Caught<T>(caught: Thrown, faults: Faults, n: nat, entries: seq<Entry>, attempts: nat): CallTrace<T> {
    var thrown := faults(n + attempts);
    if thrown.Some? then CallTrace(entries, attempts + 1, Propagated(thrown.value))
    else CallTrace(entries + [Recorded(Reported(caught))], attempts + 1, Returned(Refusal(caught)))
  }

  /** One call, its first attempt to record being the n-th of the writer. */
  function Protocol<T>(business: Business<T>, faults: Faults, n: nat): CallTrace<T> {
    if faults(n).Some? then CallTrace([], 1, Propagated(faults(n).value))
    else
      var started := [Recorded(Requested), Ran];
      match business
      case Throws(thrown) => Caught(thrown, faults, n, started, 1)
      case Returns(data) =>
        if faults(n + 1).None? then CallTrace(started + [Recorded(Completed)], 2, Returned(CompletedResult(data)))
        else Caught(faults(n + 1).value, faults, n, started, 2)
  }

  // ----- what every call keeps -----

  /** Over any pattern of writer failures: the business function is called at most once, right after its requested event
      was recorded, and it is not called exactly when that record failed; at most one terminal event follows. */
  lemma RunsOnceAfterRequested<T>(business: Business<T>, faults: Faults, n: nat)
    ensures var call := Protocol(business, faults, n);
            && (call.entries == [] <==> faults(n).Some?)
            && (call.entries != [] ==>
                  && 2 <= |call.entries| <= 3
                  && call.entries[..2] == [Recorded(Requested), Ran]
                  && (|call.entries| == 3 ==> call.entries[2].Recorded? && Terminal(call.entries[2].event)))
            && (call.outcome.Propagated? <==> |call.entries| < 3)
            && call.attempts ==
               (if faults(n).Some? then 1 else if business.Returns? && faults(n + 1).Some? then 3 else 2)
            && (call.outcome.Propagated? ==> faults(n + call.attempts - 1) == Some(call.outcome.thrown))
  {
    assert forall e: Entry :: ([Recorded(Requested), Ran] + [e])[..2] == [Recorded(Requested), Ran];
  }

  /** A completed result is returned exactly when the business returned and both its events were recorded; and whatever
      result is returned, its terminal event was recorded. */
  lemma ResultsAreRecorded<T>(business: Business<T>, faults: Faults, n: nat)
    ensures var call := Protocol(business, faults, n);
            && (call.outcome.Returned? && call.outcome.result.CompletedResult? <==>
                business.Returns? && faults(n).None? && faults(n + 1).None?)
            && (call.outcome.Returned? ==>
                  |call.entries| == 3
                  && match call.outcome.result
                     case CompletedResult(data) => business == Returns(data) && call.entries[2] == Recorded(Completed)
                     case DeniedResult(message, codes) => call.entries[2] == Recorded(DeniedEvent(message, codes))
                     case FailedResult(message) => call.entries[2] == Recorded(FailedEvent(message)))
  {
  }

  /** With a reliable writer each call appends exactly the requested event, the run and the one terminal event that
      matches the outcome, and the outcome is the business's own. */
  lemma ReliableWriter<T>(business: Business<T>, faults: Faults, n: nat)
    requires forall i :: faults(i) == None
    ensures var call := Protocol(business, faults, n);
            match business
            case Returns(data) =>
              call == CallTrace([Recorded(Requested), Ran, Recorded(Completed)], 2, Returned(CompletedResult(data)))
            case Throws(Denial(message, codes)) =>
              call == CallTrace([Recorded(Requested), Ran, Recorded(DeniedEvent(message, codes))], 2,
                                Returned(DeniedResult(message, codes)))
            case Throws(OtherError(message)) =>
              call == CallTrace([Recorded(Requested), Ran, Recorded(FailedEvent(message))], 2,
                                Returned(FailedResult(message)))
  {
  }

  /** A refusal does not say that the action was not done: it was, exactly when the second attempt to record failed,
      and then the refusal reports that failure. */
  lemma RefusedAlthoughDone<T>(business: Business<T>, faults: Faults, n: nat)
    requires var outcome := Protocol(business, faults, n).outcome; outcome.Returned? && !outcome.result.CompletedResult?
    ensures business.Returns? <==> faults(n + 1).Some?
    ensures business.Returns? ==>
              Protocol(business, faults, n).outcome ==
              Returned(match faults(n + 1).value
                       case Denial(message, codes) => DeniedResult(message, codes)
                       case OtherError(message) => FailedResult(message))
  {
  }

  // ----- what every run of calls keeps -----

  /** What each of a sequence of calls appends, the first attempt being the n-th. */
  function Parts<T>(calls: seq<Business<T>>, faults: Faults, n: nat): seq<seq<Entry>>
    decreases |calls|
  {
    if calls == [] then []
    else
      var first := Protocol(calls[0], faults, n);
      [first.entries] + Parts(calls[1..], faults, n + first.attempts)
  }

  function Joined(parts: seq<seq<Entry>>): seq<Entry> {
    if parts == [] then [] else parts[0] + Joined(parts[1..])
  }

  /** The history a sequence of calls leaves. */
  function RunCalls<T>(calls: seq<Business<T>>, faults: Faults, n: nat): seq<Entry> {
    Joined(Parts(calls, faults, n))
  }

  function CountOf(entries: seq<Entry>, entry: Entry): nat {
    if entries == [] then 0 else (if entries[0] == entry then 1 else 0) + CountOf(entries[1..], entry)
  }

  lemma {:induction false} CountOfSum(a: seq<Entry>, b: seq<Entry>, entry: Entry)
    ensures CountOf(a + b, entry) == CountOf(a, entry) + CountOf(b, entry)
  {
    if a == [] {
      assert a + b == b;
    } else {
      assert (a + b)[0] == a[0] && (a + b)[1..] == a[1..] + b;
      CountOfSum(a[1..], b, entry);
    }
  }

  ghost predicate Orderly(history: seq<Entry>) {
    && (forall i :: 0 <= i < |history| && history[i] == Ran ==> i > 0 && history[i - 1] == Recorded(Requested))
    && CountOf(history, Ran) == CountOf(history, Recorded(Requested))
    && CountOf(history, Recorded(Completed)) <= CountOf(history, Ran)
  }

  /** Over any run of calls and any failures: every run of a business function stands right behind its own requested
      event, there are as many runs as requested events, and never more completed events than runs. */
  lemma {:induction false} RunsAreRequested<T>(calls: seq<Business<T>>, faults: Faults, n: nat)
    ensures var history := RunCalls(calls, faults, n);
            Orderly(history) && CountOf(history, Ran) <= |calls|
  {
    PartsKeep(calls, faults, n);
    JoinedKeeps(Parts(calls, faults, n));
  }

  ghost predicate OneRunAtMost(entries: seq<Entry>) {
    Orderly(entries) && CountOf(entries, Ran) <= 1
  }

  lemma {:induction false} PartsKeep<T>(calls: seq<Business<T>>, faults: Faults, n: nat)
    ensures var parts := Parts(calls, faults, n);
            |parts| == |calls| && forall part :: part in parts ==> OneRunAtMost(part)
    decreases |calls|
  {
    if calls != [] {
      OneCallKeeps(calls[0], faults, n);
      PartsKeep(calls[1..], faults, n + Protocol(calls[0], faults, n).attempts);
    }
  }

  lemma {:induction false} JoinedKeeps(parts: seq<seq<Entry>>)
    requires forall part :: part in parts ==> OneRunAtMost(part)
    ensures Orderly(Joined(parts)) && CountOf(Joined(parts), Ran) <= |parts|
  {
    if parts != [] {
      assert OneRunAtMost(parts[0]);
      JoinedKeeps(parts[1..]);
      JoinKeeps(parts[0], Joined(parts[1..]));
    }
  }

  lemma OneCallKeeps<T>(business: Business<T>, faults: Faults, n: nat)
    ensures OneRunAtMost(Protocol(business, faults, n).entries)
  {
    RunsOnceAfterRequested(business, faults, n);
    CountsOfOne(Protocol(business, faults, n).entries);
  }

  lemma JoinKeeps(a: seq<Entry>, b: seq<Entry>)
    requires Orderly(a) && Orderly(b)
    ensures Orderly(a + b)
    ensures CountOf(a + b, Ran) == CountOf(a, Ran) + CountOf(b, Ran)
  {
    CountOfSum(a, b, Ran);
    CountOfSum(a, b, Recorded(Requested));
    CountOfSum(a, b, Recorded(Completed));
  }

  lemma CountsOfOne(entries: seq<Entry>)
    requires entries != [] ==>
               && 2 <= |entries| <= 3
               && entries[..2] == [Recorded(Requested), Ran]
               && (|entries| == 3 ==> entries[2].Recorded? && Terminal(entries[2].event))
    ensures Orderly(entries) && CountOf(entries, Ran) <= 1
  {
    if entries != [] {
      var start, tail := [Recorded(Requested), Ran], entries[2..];
      assert entries == start + tail;
      forall entry ensures CountOf(entries, entry) == CountOf(start, entry) + CountOf(tail, entry) {
        CountOfSum(start, tail, entry);
      }
      assert start[1..] == [Ran];
      assert tail == [] || (tail == [entries[2]] && tail[1..] == []);
    }
  }

  /** The failing case: the completed event cannot be recorded, and the finished action is reported as failed. */
  lemma FinishedButReportedAsFailed<T>(data: T, message: string)
    ensures var faults: Faults := i => if i == 1 then Some(OtherError(message)) else None;
            Protocol(Returns(data), faults, 0) ==
            CallTrace([Recorded(Requested), Ran, Recorded(FailedEvent(message))], 3, Returned(FailedResult(message)))
  {
  }
}
