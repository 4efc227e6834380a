/** Lifecycle events become tuple writes and deletes, executed one by one against a store that may fail
    at any of them. */
module Sync {
  import opened Sequences
  import opened Tuples

  datatype EventType =
    | UserOrgAdded | UserOrgRemoved | UserOrgPromoted | UserOrgDemoted | UserResourceGranted | UserResourceRevoked
    | AgentOrgAssigned | AgentOrgRemoved | AgentResourceGranted | AgentResourceRevoked
    | AgentActionAssigned | AgentActionUnassigned | UserActionDelegated | UserActionUndelegated

  datatype Event = Event(eventType: EventType, subject: Entity, target: Entity, relation: Option<Relation>)

  function On(action: Action, e: Event, relation: Relation): Operation {
    Operation(action, Tuple(e.subject, relation, e.target))
  }

  /** `mapEventToTuples`. */
  function MapEvent(e: Event): seq<Operation> {
    match e.eventType
    case UserOrgAdded | AgentOrgAssigned => [On(Write, e, Member)]
    case UserOrgRemoved | AgentOrgRemoved => [On(Delete, e, Member), On(Delete, e, Admin)]
    case UserOrgPromoted => [On(Write, e, Admin), On(Delete, e, Member)]
    case UserOrgDemoted => [On(Delete, e, Admin), On(Write, e, Member)]
    case UserResourceGranted | AgentResourceGranted => [On(Write, e, OrElse(e.relation, Viewer))]
    case UserResourceRevoked | AgentResourceRevoked =>
      [On(Delete, e, Viewer), On(Delete, e, Editor), On(Delete, e, Owner)]
    case AgentActionAssigned => [On(Write, e, Executor)]
    case AgentActionUnassigned => [On(Delete, e, Executor)]
    case UserActionDelegated => [On(Write, e, Delegator)]
    case UserActionUndelegated => [On(Delete, e, Delegator)]
  }

  function MapBatch(events: seq<Event>): seq<Operation> {
    if events == [] then [] else MapBatch(events[..|events| - 1]) + MapEvent(events[|events| - 1])
  }

  // ----- executing operations -----

  type Faults = nat -> Fault

  /** The store after the operations, the i-th of them meeting fault `faults(i)`. */
  function Run(tuples: set<Tuple>, ops: seq<Operation>, faults: Faults): set<Tuple> {
    if ops == [] then tuples
    else
      var n := |ops| - 1;
      Attempt(Run(tuples, ops[..n], faults), ops[n], faults(n))
  }

  /** The store after the operations when nothing fails. */
  function CleanRun(tuples: set<Tuple>, ops: seq<Operation>): set<Tuple> {
    if ops == [] then tuples
    else Effect(CleanRun(tuples, ops[..|ops| - 1]), ops[|ops| - 1])
  }

  datatype Outcome = Ok | Skipped | Failed

  /** `isIdempotentError`: the text decides, whatever the error was about. */
  predicate IsIdempotent(message: string, action: Action) {
    || (action == Write && Includes(message, "already exists"))
    || (action == Delete && Includes(message, "not found"))
    || Includes(message, REFUSED_WRITE)
    || Includes(message, REFUSED_DELETE)
  }

  function OutcomeOf(op: Operation, response: Response): Outcome {
    if response.Done? then Ok else if IsIdempotent(response.message, op.action) then Skipped else Failed
  }

  /** The store's own refusals are told apart as idempotent. */
  lemma RefusalsAreIdempotent(action: Action)
    ensures IsIdempotent(if action == Write then REFUSED_WRITE else REFUSED_DELETE, action)
  {
    assert REFUSED_WRITE[0..] == REFUSED_WRITE && REFUSED_DELETE[0..] == REFUSED_DELETE;
  }

  /** Which texts count as idempotent: for a write those that hold "already exists", for a deletion those that hold
      "not found", and for both those that hold either of the store's own refusals. */
  lemma IdempotentExactly(message: string, action: Action)
    ensures IsIdempotent(message, action) <==>
            || Contains(message, if action == Write then "already exists" else "not found")
            || Contains(message, "cannot write a tuple which already exists")
            || Contains(message, "cannot delete a tuple which does not exist")
  {
    IncludesExactly(message, "already exists");
    IncludesExactly(message, "not found");
    IncludesExactly(message, REFUSED_WRITE);
    IncludesExactly(message, REFUSED_DELETE);
  }

  /** The fault, if there is one, is one whose text counts as idempotent. */
  predicate Tolerated(op: Operation, fault: Fault) {
    fault.NoFault? || IsIdempotent(fault.message, op.action)
  }

  predicate AllTolerated(ops: seq<Operation>, faults: Faults) {
    forall i :: 0 <= i < |ops| ==> Tolerated(ops[i], faults(i))
  }

  datatype OperationResult = OperationResult(op: Operation, outcome: Outcome)

  /** The results pushed along a run, each from the store as it then was. */
  function ResultsOf(tuples: set<Tuple>, ops: seq<Operation>, faults: Faults): (r: seq<OperationResult>)
    ensures |r| == |ops|
  {
    if ops == [] then []
    else
      var n := |ops| - 1;
      ResultsOf(tuples, ops[..n], faults)
      + [OperationResult(ops[n], OutcomeOf(ops[n], ResponseTo(Run(tuples, ops[..n], faults), ops[n], faults(n))))]
  }

  predicate NoFaults(faults: Faults, n: nat) {
    forall i :: 0 <= i < n ==> faults(i) == NoFault
  }

  /** What one more operation adds to a run. */
  lemma OneMore(tuples: set<Tuple>, ops: seq<Operation>, faults: Faults, i: nat)
    requires i < |ops|
    ensures Run(tuples, ops[..i + 1], faults) == Attempt(Run(tuples, ops[..i], faults), ops[i], faults(i))
    ensures ResultsOf(tuples, ops[..i + 1], faults) ==
            ResultsOf(tuples, ops[..i], faults)
            + [OperationResult(ops[i], OutcomeOf(ops[i], ResponseTo(Run(tuples, ops[..i], faults), ops[i], faults(i))))]
    ensures AllTolerated(ops[..i + 1], faults) <==> AllTolerated(ops[..i], faults) && Tolerated(ops[i], faults(i))
  {
    assert ops[..i + 1][..i] == ops[..i];
    assert ops[..i + 1][i] == ops[i];
  }

  datatype SyncResult = SyncResult(operations: seq<OperationResult>, success: bool)

  class TupleSyncService {
    const client: TupleStore

    constructor (client: TupleStore)
      ensures this.client == client
    {
      this.client := client;
    }

    /** The try and catch around one operation. */
    method ExecuteOne(op: Operation, fault: Fault) returns (outcome: Outcome)
      modifies client
      ensures client.tuples == Attempt(old(client.tuples), op, fault)
      ensures outcome == OutcomeOf(op, ResponseTo(old(client.tuples), op, fault))
      ensures outcome != Failed <==> Tolerated(op, fault)
    {
      var response := client.Execute(op, fault);
      RefusalsAreIdempotent(op.action);
      outcome := OutcomeOf(op, response);
    }

    /** The loop of `processEvent`: it carries on after an error. */
    method ExecuteAll(operations: seq<Operation>, faults: Faults) returns (results: seq<OperationResult>, success: bool)
      modifies client
      ensures client.tuples == Run(old(client.tuples), operations, faults)
      ensures results == ResultsOf(old(client.tuples), operations, faults)
      ensures success <==> AllTolerated(operations, faults)
    {
      results := [];
      success := true;
      for i := 0 to |operations|
        invariant client.tuples == Run(old(client.tuples), operations[..i], faults)
        invariant results == ResultsOf(old(client.tuples), operations[..i], faults)
        invariant success <==> AllTolerated(operations[..i], faults)
      {
        OneMore(old(client.tuples), operations, faults, i);
        var outcome := ExecuteOne(operations[i], faults(i));
        results := results + [OperationResult(operations[i], outcome)];
        success := success && outcome != Failed;
      }
      assert operations[..|operations|] == operations;
    }

    /** `processEvent`. */
    method ProcessEvent(event: Event, faults: Faults) returns (result: SyncResult)
      modifies client
      ensures client.tuples == RunEvent(old(client.tuples), event, faults)
      ensures result == ResultOf(old(client.tuples), event, faults)
    {
      var results, success := ExecuteAll(MapEvent(event), faults);
      result := SyncResult(results, success);
    }

    /** `processBatch`. */
    method ProcessBatch(events: seq<Event>, faults: nat -> Faults) returns (results: seq<SyncResult>)
      modifies client
      ensures client.tuples == RunBatch(old(client.tuples), events, faults)
      ensures results == BatchResults(old(client.tuples), events, faults)
    {
      results := [];
      for i := 0 to |events|
        invariant client.tuples == RunBatch(old(client.tuples), events[..i], faults)
        invariant results == BatchResults(old(client.tuples), events[..i], faults)
      {
        results := ProcessNext(events, i, faults, results, old(client.tuples));
      }
      assert events[..|events|] == events;
    }

    /** The body of the loop of `processBatch`. */
    method ProcessNext(events: seq<Event>, i: nat, faults: nat -> Faults, results: seq<SyncResult>,
                       ghost start: set<Tuple>)
      returns (results': seq<SyncResult>)
      requires i < |events| && client.tuples == RunBatch(start, events[..i], faults)
      requires results == BatchResults(start, events[..i], faults)
      modifies client
      ensures client.tuples == RunBatch(start, events[..i + 1], faults)
      ensures results' == BatchResults(start, events[..i + 1], faults)
    {
      assert events[..i + 1][..i] == events[..i];
      var result := ProcessEvent(events[i], faults(i));
      results' := results + [result];
    }
  }

  /** The result of an event: success is reported exactly when every error met has a text that counts as idempotent. */
  function ResultOf(tuples: set<Tuple>, event: Event, faults: Faults): SyncResult {
    SyncResult(ResultsOf(tuples, MapEvent(event), faults), AllTolerated(MapEvent(event), faults))
  }

  /** The results of a batch, each from the store as it then was. */
  function BatchResults(tuples: set<Tuple>, events: seq<Event>, faults: nat -> Faults): seq<SyncResult> {
    if events == [] then []
    else
      var n := |events| - 1;
      BatchResults(tuples, events[..n], faults)
      + [ResultOf(RunBatch(tuples, events[..n], faults), events[n], faults(n))]
  }

  function RunBatch(tuples: set<Tuple>, events: seq<Event>, faults: nat -> Faults): set<Tuple> {
    if events == [] then tuples
    else
      var n := |events| - 1;
      RunEvent(RunBatch(tuples, events[..n], faults), events[n], faults(n))
  }

  function RunEvent(tuples: set<Tuple>, event: Event, faults: Faults): set<Tuple> {
    Run(tuples, MapEvent(event), faults)
  }

  /** None of the event's operations meets a fault. */
  predicate Unfailing(event: Event, faults: Faults) {
    NoFaults(faults, |MapEvent(event)|)
  }

  /** Success of a result means that no operation of it failed. */
  lemma SuccessMeansNoneFailed(tuples: set<Tuple>, event: Event, faults: Faults)
    ensures var result := ResultOf(tuples, event, faults);
            result.success <==> forall i :: 0 <= i < |result.operations| ==> result.operations[i].outcome != Failed
  {
    var ops := MapEvent(event);
    forall i | 0 <= i < |ops|
      ensures ResultsOf(tuples, ops, faults)[i].outcome != Failed <==> Tolerated(ops[i], faults(i))
    {
      ResultAt(tuples, ops, faults, i);
      RefusalsAreIdempotent(ops[i].action);
    }
  }

  /** The operation finds its tuple missing when it writes it, or there when it deletes it. */
  ghost predicate Needed(tuples: set<Tuple>, op: Operation) {
    if op.action == Write then op.tuple !in tuples else op.tuple in tuples
  }

  /** Each result names its operation: ok if it met no error and was needed, skipped if it was not needed or the text of
      its error counts as idempotent, else failed. */
  lemma ResultsExactly(tuples: set<Tuple>, ops: seq<Operation>, faults: Faults, i: nat)
    requires i < |ops|
    ensures var result, before := ResultsOf(tuples, ops, faults)[i], Run(tuples, ops[..i], faults);
            && result.op == ops[i]
            && (result.outcome == Ok <==> faults(i).NoFault? && Needed(before, ops[i]))
            && (result.outcome == Failed <==> !faults(i).NoFault? && !IsIdempotent(faults(i).message, ops[i].action))
  {
    ResultAt(tuples, ops, faults, i);
    RefusalsAreIdempotent(ops[i].action);
  }

  // ----- the last operation on a tuple decides -----

  /** The action of the last operation that touches `t`. */
  function LastTouch(ops: seq<Operation>, t: Tuple): Option<Action> {
    if ops == [] then None
    else if ops[|ops| - 1].tuple == t then Some(ops[|ops| - 1].action)
    else LastTouch(ops[..|ops| - 1], t)
  }

  /** Tuple by tuple, the store is fixed by the last operation touching the tuple, else by the start. */
  lemma {:induction false} LastTouchDecides(tuples: set<Tuple>, ops: seq<Operation>, t: Tuple)
    ensures t in CleanRun(tuples, ops) <==>
            LastTouch(ops, t) == Some(Write) || (LastTouch(ops, t) == None && t in tuples)
  {
    if ops != [] { LastTouchDecides(tuples, ops[..|ops| - 1], t); }
  }

  lemma {:induction false} CleanRunOfSum(tuples: set<Tuple>, a: seq<Operation>, b: seq<Operation>)
    ensures CleanRun(tuples, a + b) == CleanRun(CleanRun(tuples, a), b)
  {
    if b == [] {
      assert a + b == a;
    } else {
      assert (a + b)[..|a + b| - 1] == a + b[..|b| - 1];
      CleanRunOfSum(tuples, a, b[..|b| - 1]);
    }
  }

  lemma {:induction false} RunWithoutFaults(tuples: set<Tuple>, ops: seq<Operation>, faults: Faults)
    requires NoFaults(faults, |ops|)
    ensures Run(tuples, ops, faults) == CleanRun(tuples, ops)
  {
    if ops != [] { RunWithoutFaults(tuples, ops[..|ops| - 1], faults); }
  }

  /** A batch in which nothing fails runs the concatenated operations. */
  lemma {:induction false} CleanBatch(tuples: set<Tuple>, events: seq<Event>, faults: nat -> Faults)
    requires forall i :: 0 <= i < |events| ==> Unfailing(events[i], faults(i))
    ensures RunBatch(tuples, events, faults) == CleanRun(tuples, MapBatch(events))
  {
    if events != [] {
      var n := |events| - 1;
      assert forall i :: 0 <= i < n ==> events[..n][i] == events[i];
      CleanBatch(tuples, events[..n], faults);
      RunWithoutFaults(RunBatch(tuples, events[..n], faults), MapEvent(events[n]), faults(n));
      CleanRunOfSum(tuples, MapBatch(events[..n]), MapEvent(events[n]));
    }
  }

  /** Replaying a whole batch changes nothing. */
  lemma ReplayChangesNothing(tuples: set<Tuple>, events: seq<Event>)
    ensures CleanRun(CleanRun(tuples, MapBatch(events)), MapBatch(events)) == CleanRun(tuples, MapBatch(events))
  {
    var ops := MapBatch(events);
    var once := CleanRun(tuples, ops);
    forall t ensures t in CleanRun(once, ops) <==> t in once {
      LastTouchDecides(once, ops, t);
      LastTouchDecides(tuples, ops, t);
    }
  }

  /** An event touches only tuples of its own subject and object. */
  lemma TouchesOwnPair(e: Event, t: Tuple)
    requires LastTouch(MapEvent(e), t).Some?
    ensures t.user == e.subject && t.target == e.target
  {
    TouchedIsListed(MapEvent(e), t);
  }

  lemma {:induction false} TouchedIsListed(ops: seq<Operation>, t: Tuple)
    requires LastTouch(ops, t).Some?
    ensures exists i :: 0 <= i < |ops| && ops[i].tuple == t
  {
    if ops[|ops| - 1].tuple != t { TouchedIsListed(ops[..|ops| - 1], t); }
  }

  lemma {:induction false} LastTouchOfSum(a: seq<Operation>, b: seq<Operation>, t: Tuple)
    ensures LastTouch(a + b, t) == if LastTouch(b, t).Some? then LastTouch(b, t) else LastTouch(a, t)
  {
    if b == [] {
      assert a + b == a;
    } else {
      assert (a + b)[..|a + b| - 1] == a + b[..|b| - 1];
      LastTouchOfSum(a, b[..|b| - 1], t);
    }
  }

  /** Events on different subjects or objects commute. */
  lemma EventsOnDifferentPairsCommute(tuples: set<Tuple>, e: Event, f: Event)
    requires e.subject != f.subject || e.target != f.target
    ensures CleanRun(CleanRun(tuples, MapEvent(e)), MapEvent(f)) == CleanRun(CleanRun(tuples, MapEvent(f)), MapEvent(e))
  {
    var ef, fe := MapEvent(e) + MapEvent(f), MapEvent(f) + MapEvent(e);
    CleanRunOfSum(tuples, MapEvent(e), MapEvent(f));
    CleanRunOfSum(tuples, MapEvent(f), MapEvent(e));
    forall t ensures t in CleanRun(tuples, ef) <==> t in CleanRun(tuples, fe) {
      LastTouchDecides(tuples, ef, t);
      LastTouchDecides(tuples, fe, t);
      LastTouchOfSum(MapEvent(e), MapEvent(f), t);
      LastTouchOfSum(MapEvent(f), MapEvent(e), t);
      if LastTouch(MapEvent(e), t).Some? && LastTouch(MapEvent(f), t).Some? {
        TouchesOwnPair(e, t);
        TouchesOwnPair(f, t);
      }
    }
  }

  // ----- retrying after failures -----

  lemma {:induction false} RunTouchesOnly(tuples: set<Tuple>, ops: seq<Operation>, faults: Faults, t: Tuple)
    requires LastTouch(ops, t) == None
    ensures t in Run(tuples, ops, faults) <==> t in tuples
  {
    if ops != [] { RunTouchesOnly(tuples, ops[..|ops| - 1], faults, t); }
  }

  /** The store after some attempts at the same operations, each with its own pattern of faults. */
  function Attempts(tuples: set<Tuple>, ops: seq<Operation>, attempts: seq<Faults>): set<Tuple> {
    if attempts == [] then tuples
    else Run(Attempts(tuples, ops, attempts[..|attempts| - 1]), ops, attempts[|attempts| - 1])
  }

  lemma {:induction false} AttemptsTouchOnly(tuples: set<Tuple>, ops: seq<Operation>, attempts: seq<Faults>, t: Tuple)
    requires LastTouch(ops, t) == None
    ensures t in Attempts(tuples, ops, attempts) <==> t in tuples
  {
    if attempts != [] {
      var before := attempts[..|attempts| - 1];
      AttemptsTouchOnly(tuples, ops, before, t);
      RunTouchesOnly(Attempts(tuples, ops, before), ops, attempts[|attempts| - 1], t);
    }
  }

  /** No later operation touches the tuple of the i-th. */
  ghost predicate Final(ops: seq<Operation>, i: nat) {
    i < |ops| && forall j :: i < j < |ops| ==> ops[j].tuple != ops[i].tuple
  }

  /** The i-th operation failed before the store changed, and found its tuple other than it wants it. */
  ghost predicate Missed(tuples: set<Tuple>, ops: seq<Operation>, faults: Faults, i: nat) {
    i < |ops| && faults(i).FailsBefore? && !AsWanted(Run(tuples, ops[..i], faults), ops[i])
  }

  /** The last operation on every tuple left it as wanted. */
  ghost predicate NothingMissed(tuples: set<Tuple>, ops: seq<Operation>, faults: Faults) {
    forall i: nat :: Final(ops, i) ==> !Missed(tuples, ops, faults, i)
  }

  /** What one final operation leaves: its tuple is as wanted exactly if the operation did not miss it. */
  lemma {:induction false} FinalDecides(tuples: set<Tuple>, ops: seq<Operation>, faults: Faults, i: nat)
    requires Final(ops, i)
    ensures AsWanted(Run(tuples, ops, faults), ops[i]) <==> !Missed(tuples, ops, faults, i)
  {
    var front := ops[..|ops| - 1];
    if i < |front| {
      assert front[..i] == ops[..i];
      assert Final(front, i);
      FinalDecides(tuples, front, faults, i);
    }
  }

  lemma {:induction false} TouchedHasFinal(ops: seq<Operation>, t: Tuple) returns (i: nat)
    requires LastTouch(ops, t).Some?
    ensures Final(ops, i) && ops[i].tuple == t && LastTouch(ops, t) == Some(ops[i].action)
  {
    if ops[|ops| - 1].tuple == t {
      i := |ops| - 1;
    } else {
      i := TouchedHasFinal(ops[..|ops| - 1], t);
    }
  }

  lemma {:induction false} FinalIsLastTouch(ops: seq<Operation>, i: nat)
    requires Final(ops, i)
    ensures LastTouch(ops, ops[i].tuple) == Some(ops[i].action)
  {
    if i < |ops| - 1 { FinalIsLastTouch(ops[..|ops| - 1], i); }
  }

  /** Under any faults a run leaves the store of a clean run exactly when the last operation on every tuple left it as
      wanted. */
  lemma RunIsCleanExactly(tuples: set<Tuple>, ops: seq<Operation>, faults: Faults)
    ensures Run(tuples, ops, faults) == CleanRun(tuples, ops) <==> NothingMissed(tuples, ops, faults)
  {
    var after, clean := Run(tuples, ops, faults), CleanRun(tuples, ops);
    forall i: nat | Final(ops, i)
      ensures AsWanted(after, ops[i]) <==> !Missed(tuples, ops, faults, i)
      ensures AsWanted(clean, ops[i])
    {
      FinalDecides(tuples, ops, faults, i);
      FinalIsLastTouch(ops, i);
      LastTouchDecides(tuples, ops, ops[i].tuple);
    }
    if NothingMissed(tuples, ops, faults) {
      forall t ensures t in after <==> t in clean {
        if LastTouch(ops, t).Some? {
          var i := TouchedHasFinal(ops, t);
          assert AsWanted(after, ops[i]) && AsWanted(clean, ops[i]);
        } else {
          LastTouchDecides(tuples, ops, t);
          RunTouchesOnly(tuples, ops, faults, t);
        }
      }
    }
  }

  /** Whatever failed before, in any number of attempts and whether or not the failing operations took effect,
      reprocessing an event (or a whole batch) until an attempt reports success gives the store one clean run would have
      given exactly when that attempt missed nothing: no operation it skipped, last on its tuple, left the tuple other
      than it wants it. Only an error whose text merely sounds idempotent can be skipped that way. */
  lemma RetryUntilSuccess(tuples: set<Tuple>, ops: seq<Operation>, failures: seq<Faults>, last: Faults)
    requires AllTolerated(ops, last)
    ensures var before := Attempts(tuples, ops, failures);
            && (Attempts(tuples, ops, failures + [last]) == CleanRun(tuples, ops) <==> NothingMissed(before, ops, last))
            && forall i: nat :: Missed(before, ops, last, i) ==> ResultsOf(before, ops, last)[i].outcome == Skipped
  {
    var before := Attempts(tuples, ops, failures);
    assert (failures + [last])[..|failures|] == failures;
    RunIsCleanExactly(before, ops, last);
    CleanAfterAttempts(tuples, ops, failures);
    forall i: nat | Missed(before, ops, last, i) ensures ResultsOf(before, ops, last)[i].outcome == Skipped {
      ResultAt(before, ops, last, i);
      assert Tolerated(ops[i], last(i));
    }
  }

  /** In particular when the last attempt meets no error at all. */
  lemma RetryUntilClean(tuples: set<Tuple>, ops: seq<Operation>, failures: seq<Faults>, last: Faults)
    requires NoFaults(last, |ops|)
    ensures Attempts(tuples, ops, failures + [last]) == CleanRun(tuples, ops)
  {
    RetryUntilSuccess(tuples, ops, failures, last);
  }

  lemma CleanAfterAttempts(tuples: set<Tuple>, ops: seq<Operation>, attempts: seq<Faults>)
    ensures CleanRun(Attempts(tuples, ops, attempts), ops) == CleanRun(tuples, ops)
  {
    var before := Attempts(tuples, ops, attempts);
    forall t ensures t in CleanRun(before, ops) <==> t in CleanRun(tuples, ops) {
      LastTouchDecides(before, ops, t);
      LastTouchDecides(tuples, ops, t);
      if LastTouch(ops, t) == None { AttemptsTouchOnly(tuples, ops, attempts, t); }
    }
  }

  lemma {:induction false} ResultAt(tuples: set<Tuple>, ops: seq<Operation>, faults: Faults, i: nat)
    requires i < |ops|
    ensures ResultsOf(tuples, ops, faults)[i] ==
            OperationResult(ops[i], OutcomeOf(ops[i], ResponseTo(Run(tuples, ops[..i], faults), ops[i], faults(i))))
  {
    var front := ops[..|ops| - 1];
    if i < |front| {
      assert front[..i] == ops[..i];
      ResultAt(tuples, front, faults, i);
    }
  }

  const STORE_NOT_FOUND := "Store ID not found"

  /** The failing case: both deletions of a removal are lost because the store itself is not found; the event is
      reported as processed, and the member stays. */
  lemma LostRemovalReportsSuccess(e: Event)
    requires e.eventType == UserOrgRemoved
    ensures var faults: Faults := _ => FailsBefore(STORE_NOT_FOUND);
            var member := Tuple(e.subject, Member, e.target);
            && AllTolerated(MapEvent(e), faults)
            && Run({member}, MapEvent(e), faults) == {member}
            && member !in CleanRun({member}, MapEvent(e))
  {
    assert STORE_NOT_FOUND[9..] == "not found";
    var ops := MapEvent(e);
    var faults: Faults := _ => FailsBefore(STORE_NOT_FOUND);
    var member := Tuple(e.subject, Member, e.target);
    assert ops[..1] == [ops[0]] && ops[..1][..0] == [];
    LastTouchDecides({member}, ops, member);
    LastTouchIsOwn(e, 0);
    assert Run({member}, ops[..1], faults) == Run({member}, ops[..1][..0], faults);
  }

  /** After a successful event every tuple is as its operation wants it, so a replay skips every operation. */
  lemma ReplayIsSkipped(tuples: set<Tuple>, e: Event, i: nat)
    requires i < |MapEvent(e)|
    ensures var ops := MapEvent(e);
            var settled := CleanRun(tuples, ops);
            && (ops[i].tuple in settled <==> ops[i].action == Write)
            && OutcomeOf(ops[i], ResponseTo(CleanRun(settled, ops[..i]), ops[i], NoFault)) == Skipped
  {
    var ops := MapEvent(e);
    var settled := CleanRun(tuples, ops);
    var t := ops[i].tuple;
    LastTouchIsOwn(e, i);
    LastTouchDecides(tuples, ops, t);
    UntouchedBefore(e, i, i);
    LastTouchDecides(settled, ops[..i], t);
    RefusalsAreIdempotent(ops[i].action);
  }

  lemma LastTouchIsOwn(e: Event, i: nat)
    requires i < |MapEvent(e)|
    ensures LastTouch(MapEvent(e), MapEvent(e)[i].tuple) == Some(MapEvent(e)[i].action)
  {
    LastTouchOfDistinct(MapEvent(e), i);
  }

  lemma {:induction false} LastTouchOfDistinct(ops: seq<Operation>, i: nat)
    requires i < |ops| && forall j :: i < j < |ops| ==> ops[j].tuple != ops[i].tuple
    ensures LastTouch(ops, ops[i].tuple) == Some(ops[i].action)
  {
    if i < |ops| - 1 { LastTouchOfDistinct(ops[..|ops| - 1], i); }
  }

  lemma UntouchedBefore(e: Event, i: nat, n: nat)
    requires n <= i < |MapEvent(e)|
    ensures LastTouch(MapEvent(e)[..n], MapEvent(e)[i].tuple) == None
  {
    var ops := MapEvent(e);
    if n > 0 {
      assert ops[..n][..n - 1] == ops[..n - 1];
      UntouchedBefore(e, i, n - 1);
    }
  }
}
