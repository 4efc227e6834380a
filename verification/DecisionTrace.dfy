/** The decision trace engine: RBAC, then ABAC, then the relationship check with its search for an
    inherited path, each leaving a step, and one final decision over the steps. */
module DecisionTrace {
  import opened Sequences
  import opened Tuples

  datatype Layer = Rbac | Abac | OpenFga
  datatype StepResult = Allow | Deny | Skip | RequireMfa
  datatype FinalDecision = Allowed | Denied | MfaRequired

  /** The step metadata that anything reads. */
  datatype Note =
    | NoNote
    | PolicyName(policy: Option<string>)
    | DirectCheck
    | InheritedVia(orgId: string, orgRelation: Relation)

  datatype TraceStep = TraceStep(layer: Layer, result: StepResult, note: Note)
  datatype Trace = Trace(subject: Entity, target: Entity, action: Relation, steps: seq<TraceStep>,
                         decision: FinalDecision)

  datatype Request = Request(subject: Entity, target: Entity, action: Relation)

  /** What the policy engine answers; it is an arbitrary function of the request. */
  datatype PolicyEffect = NoPolicy | PolicyAllows | PolicyDenies | PolicyAsksMfa

  /** A check may also throw. */
  datatype Answer = Yes | No | Throws

  /** The answer to the n-th check of one evaluation, which need not agree with earlier ones. */
  type Answers = (nat, Tuple) -> Answer

  datatype Purpose = OwnAccess | OrgMembership
  datatype CheckCall = CheckCall(purpose: Purpose, tuple: Tuple, answer: Answer)

  /** The inherited step, if one was found, and the checks made on the way. */
  datatype Search = Search(found: Option<TraceStep>, calls: seq<CheckCall>)

  /** One evaluation: its trace and the checks it made. */
  datatype Evaluation = Evaluation(trace: Trace, calls: seq<CheckCall>)

  function OwnTuple(r: Request): Tuple {
    Tuple(FgaSubject(r.subject), r.action, r.target)
  }

  /** `evaluateRbac`: it allows the actions that have a rule, and never denies. */
  function RbacStep(action: Relation): TraceStep {
    TraceStep(Rbac, if action in {Viewer, Editor, Operator, Admin} then Allow else Skip, NoNote)
  }

  /** `evaluateAbac`. */
  function AbacStep(effect: PolicyEffect, policy: Option<string>): TraceStep {
    match effect
    case NoPolicy => TraceStep(Abac, Skip, NoNote)
    case PolicyDenies => TraceStep(Abac, Deny, PolicyName(policy))
    case PolicyAsksMfa => TraceStep(Abac, RequireMfa, PolicyName(policy))
    case PolicyAllows => TraceStep(Abac, Allow, NoNote)
  }

  /** `evaluateOpenFGA`. */
  function DirectStep(answer: Answer): TraceStep {
    TraceStep(OpenFga, if answer == Yes then Allow else Deny, if answer == Throws then NoNote else DirectCheck)
  }

  /** `split(":")[1]` of `organization:id`: the id up to its first colon. */
  function UpToColon(id: string): (r: string)
    ensures ':' !in r && r <= id && (r == id || id[|r|] == ':')
  {
    if id == "" || id[0] == ':' then "" else [id[0]] + UpToColon(id[1..])
  }

  function OrgTuples(tuples: seq<Tuple>): seq<Tuple> {
    Filter(tuples, (t: Tuple) => t.user.kind == Organization)
  }

  function After(calls: seq<CheckCall>, rest: Search): Search {
    Search(rest.found, calls + rest.calls)
  }

  lemma AfterAfter(a: seq<CheckCall>, b: seq<CheckCall>, rest: Search)
    ensures After(a, After(b, rest)) == After(a + b, rest)
  {
    assert a + (b + rest.calls) == (a + b) + rest.calls;
  }

  /** The loop of `checkInheritedAccess`, from its k-th check on. */
  function SearchOrgs(r: Request, answers: Answers, k: nat, orgs: seq<Tuple>): Search
    decreases |orgs|
  {
    if orgs == [] then Search(None, [])
    else
      var orgId := UpToColon(orgs[0].user.id);
      var membership := Tuple(FgaSubject(r.subject), Member, Entity(Organization, orgId));
      var isMember := answers(k, membership);
      var first := CheckCall(OrgMembership, membership, isMember);
      match isMember
      case Throws => Search(None, [first])
      case No => After([first], SearchOrgs(r, answers, k + 1, orgs[1..]))
      case Yes =>
        var own := answers(k + 1, OwnTuple(r));
        var second := CheckCall(OwnAccess, OwnTuple(r), own);
        match own
        case Throws => Search(None, [first, second])
        case Yes => Search(Some(TraceStep(OpenFga, Allow, InheritedVia(orgId, orgs[0].relation))), [first, second])
        case No => After([first, second], SearchOrgs(r, answers, k + 2, orgs[1..]))
  }

  /** `checkInheritedAccess`; reading the tuples of the resource may throw as well. */
  function SearchTuples(r: Request, answers: Answers, tuples: Option<seq<Tuple>>): Search {
    if tuples.None? then Search(None, []) else SearchOrgs(r, answers, 1, OrgTuples(tuples.value))
  }

  /** `resolveFinalDecision`. */
  function Resolve(steps: seq<TraceStep>): FinalDecision {
    var explicitDeny := exists i :: 0 <= i < |steps| && steps[i].result == Deny && !steps[i].note.InheritedVia?;
    var inheritedAllow := exists i :: 0 <= i < |steps| && steps[i].result == Allow && steps[i].note.InheritedVia?;
    if explicitDeny && !inheritedAllow then Denied
    else if exists i :: 0 <= i < |steps| && steps[i].result == RequireMfa then MfaRequired
    else
      var allPass := forall i :: 0 <= i < |steps| ==> steps[i].result in {Allow, Skip, Deny};
      var anyAllow := exists i :: 0 <= i < |steps| && steps[i].result == Allow;
      if anyAllow && (allPass || inheritedAllow) then Allowed else Denied
  }

  function TraceOf(r: Request, steps: seq<TraceStep>, decision: FinalDecision): Trace {
    Trace(r.subject, r.target, r.action, steps, decision)
  }

  /** What one evaluation pushes and asks. */
  function Explain(r: Request, effect: PolicyEffect, policy: Option<string>, answers: Answers,
                   tuples: Option<seq<Tuple>>): Evaluation {
    var rbac, abac := RbacStep(r.action), AbacStep(effect, policy);
    if effect == PolicyDenies then Evaluation(TraceOf(r, [rbac, abac], Denied), [])
    else
      var answer := answers(0, OwnTuple(r));
      var call, direct := CheckCall(OwnAccess, OwnTuple(r), answer), DirectStep(answer);
      var search := if answer == Yes then Search(None, []) else SearchTuples(r, answers, tuples);
      var steps := if search.found.Some? then [rbac, abac, direct, search.found.value] else [rbac, abac, direct];
      Evaluation(TraceOf(r, steps, Resolve(steps)), [call] + search.calls)
  }

  /** `evaluate`, with the steps it pushes. The RBAC step never denies, so the short circuit on its denial is not
      taken. */
  method Evaluate(r: Request, effect: PolicyEffect, policy: Option<string>, answers: Answers,
                  tuples: Option<seq<Tuple>>)
    returns (trace: Trace, calls: seq<CheckCall>)
    ensures Evaluation(trace, calls) == Explain(r, effect, policy, answers, tuples)
  {
    var steps := [RbacStep(r.action)];
    calls := [];
    var abac := AbacStep(effect, policy);
    steps := steps + [abac];
    assert steps == [RbacStep(r.action), abac];
    if abac.result == Deny {
      return TraceOf(r, steps, Denied), calls;
    }
    var answer := answers(0, OwnTuple(r));
    calls := calls + [CheckCall(OwnAccess, OwnTuple(r), answer)];
    var direct := DirectStep(answer);
    steps := steps + [direct];
    assert steps == [RbacStep(r.action), abac, direct];
    if direct.result == Deny {
      var found, asked := CheckInheritedAccess(r, answers, tuples);
      calls := calls + asked;
      if found.Some? {
        steps := steps + [found.value];
        assert steps == [RbacStep(r.action), abac, direct, found.value];
      }
    } else {
      assert calls == calls + [];
    }
    trace := TraceOf(r, steps, Resolve(steps));
  }

  /** `checkInheritedAccess`, with its loop over the organizations named on the resource. */
  method CheckInheritedAccess(r: Request, answers: Answers, tuples: Option<seq<Tuple>>)
    returns (found: Option<TraceStep>, calls: seq<CheckCall>)
    ensures Search(found, calls) == SearchTuples(r, answers, tuples)
  {
    calls := [];
    if tuples.None? {
      return None, calls;
    }
    var orgs := OrgTuples(tuples.value);
    var k := 1;
    assert orgs[0..] == orgs;
    for i := 0 to |orgs|
      invariant SearchOrgs(r, answers, 1, orgs) == After(calls, SearchOrgs(r, answers, k, orgs[i..]))
    {
      ghost var before := calls;
      assert orgs[i..][1..] == orgs[i + 1..];
      var orgId := UpToColon(orgs[i].user.id);
      var membership := Tuple(FgaSubject(r.subject), Member, Entity(Organization, orgId));
      var isMember := answers(k, membership);
      ghost var first := CheckCall(OrgMembership, membership, isMember);
      calls := calls + [CheckCall(OrgMembership, membership, isMember)];
      k := k + 1;
      if isMember == Throws {
        return None, calls;
      }
      if isMember == Yes {
        var own := answers(k, OwnTuple(r));
        ghost var second := CheckCall(OwnAccess, OwnTuple(r), own);
        calls := calls + [CheckCall(OwnAccess, OwnTuple(r), own)];
        assert calls == before + [first, second];
        k := k + 1;
        if own == Throws {
          return None, calls;
        }
        if own == Yes {
          return Some(TraceStep(OpenFga, Allow, InheritedVia(orgId, orgs[i].relation))), calls;
        }
        AfterAfter(before, [first, second], SearchOrgs(r, answers, k, orgs[i + 1..]));
      } else {
        AfterAfter(before, [first], SearchOrgs(r, answers, k, orgs[i + 1..]));
      }
    }
    found := None;
    assert calls + [] == calls;
  }

  // ----- what a trace says, and what is asked for it -----

  /** The subject as the tuples name it: assistants are agents there. */
  ghost function Named(subject: Entity): Entity {
    Entity(if subject.kind == Assistant then Agent else subject.kind, subject.id)
  }

  /** What the policy engine's answer leaves in the trace; a policy is named when it blocks. */
  ghost predicate SaysPolicy(step: TraceStep, effect: PolicyEffect, policy: Option<string>) {
    && step.layer == Abac
    && (effect == NoPolicy ==> step.result == Skip && step.note == NoNote)
    && (effect == PolicyAllows ==> step.result == Allow && step.note == NoNote)
    && (effect == PolicyDenies ==> step.result == Deny && step.note == PolicyName(policy))
    && (effect == PolicyAsksMfa ==> step.result == RequireMfa && step.note == PolicyName(policy))
  }

  /** The steps of every trace: the RBAC step, which allows the actions with a rule and denies none, then the policy
      step, which ends the trace if it denies, then the step of the first check, then an inherited one at most. */
  lemma {:induction false} StepsOfATrace(r: Request, effect: PolicyEffect, policy: Option<string>, answers: Answers,
                                         tuples: Option<seq<Tuple>>)
    ensures var evaluation := Explain(r, effect, policy, answers, tuples);
            var trace, calls := evaluation.trace, evaluation.calls;
            && trace.subject == r.subject && trace.target == r.target && trace.action == r.action
            && |trace.steps| >= 2
            && trace.steps[0].layer == Rbac && trace.steps[0].note == NoNote
            && trace.steps[0].result == (if r.action in {Viewer, Editor, Operator, Admin} then Allow else Skip)
            && SaysPolicy(trace.steps[1], effect, policy)
            && (effect == PolicyDenies ==> |trace.steps| == 2 && calls == [])
            && (effect != PolicyDenies ==>
                  && 3 <= |trace.steps| <= 4
                  && calls != []
                  && calls[0].purpose == OwnAccess && calls[0].tuple == Tuple(Named(r.subject), r.action, r.target)
                  && calls[0].answer == answers(0, calls[0].tuple)
                  && trace.steps[2].layer == OpenFga
                  && trace.steps[2].result == (if calls[0].answer == Yes then Allow else Deny)
                  && trace.steps[2].note == (if calls[0].answer == Throws then NoNote else DirectCheck)
                  && (calls[0].answer == Yes || tuples.None? ==> |calls| == 1 && |trace.steps| == 3)
                  && (calls[0].answer != Yes && tuples.Some? ==>
                        Searches(r, answers, OrgTuples(tuples.value), 1, calls[1..],
                                 if |trace.steps| == 3 then None else Some(trace.steps[3]))))
  {
    if effect != PolicyDenies {
      var own := OwnTuple(r);
      var evaluation := Explain(r, effect, policy, answers, tuples);
      var call := CheckCall(OwnAccess, own, answers(0, own));
      if answers(0, own) != Yes && tuples.Some? {
        var search := SearchOrgs(r, answers, 1, OrgTuples(tuples.value));
        assert evaluation.calls[1..] == search.calls;
        SearchAsks(r, answers, 1, OrgTuples(tuples.value));
      }
    }
  }

  /** The organizations on the resource are asked in the order of their tuples, each tuple once. */
  lemma OrgTuplesInOrder(a: seq<Tuple>, t: Tuple)
    ensures OrgTuples(a + [t]) == OrgTuples(a) + if t.user.kind == Organization then [t] else []
  {
    FilterOfSum(a, [t], (t: Tuple) => t.user.kind == Organization);
  }

  /** How many memberships are asked for among these checks. */
  ghost function Memberships(calls: seq<CheckCall>): nat {
    if calls == [] then 0
    else Memberships(calls[1..]) + if calls[0].purpose == OrgMembership then 1 else 0
  }

  /** Whether the search goes on after this check. */
  ghost predicate GoesOn(call: CheckCall) {
    call.answer == No || (call.answer == Yes && call.purpose == OrgMembership)
  }

  /** The checks of a search over these organizations, numbered from `k`: of each in turn the subject's membership, and
      behind a membership the access itself; up to the first access granted, the first error or the last organization.
      The step found names the organization asked last and its relation. */
  ghost predicate Searches(r: Request, answers: Answers, orgs: seq<Tuple>, k: nat, calls: seq<CheckCall>,
                           found: Option<TraceStep>) {
    && Memberships(calls) <= |orgs|
    && (forall j :: 0 <= j < |calls| ==> AsksInTurn(r, answers, orgs, k, calls, j))
    && (orgs != [] ==> calls != [])
    && (found.Some? <==> calls != [] && calls[|calls| - 1].purpose == OwnAccess && calls[|calls| - 1].answer == Yes)
    && (found.Some? ==>
          && Memberships(calls) > 0
          && var org := orgs[Memberships(calls) - 1];
             found.value == TraceStep(OpenFga, Allow, InheritedVia(UpToColon(org.user.id), org.relation)))
    && (calls != [] && GoesOn(calls[|calls| - 1]) ==>
          calls[|calls| - 1].answer == No && Memberships(calls) == |orgs|)
  }

  ghost predicate AsksInTurn(r: Request, answers: Answers, orgs: seq<Tuple>, k: nat, calls: seq<CheckCall>, j: nat)
    requires j < |calls|
  {
    && (j > 0 ==> GoesOn(calls[j - 1]))
    && (calls[j].purpose == OwnAccess <==> j > 0 && calls[j - 1].purpose == OrgMembership && calls[j - 1].answer == Yes)
    && calls[j].answer == answers(k + j, calls[j].tuple)
    && (calls[j].purpose == OwnAccess ==> calls[j].tuple == Tuple(Named(r.subject), r.action, r.target))
    && (calls[j].purpose == OrgMembership ==>
          && Memberships(calls[..j]) < |orgs|
          && var org := orgs[Memberships(calls[..j])];
             calls[j].tuple == Tuple(Named(r.subject), Member, Entity(Organization, UpToColon(org.user.id))))
  }

  lemma {:induction false} SearchAsks(r: Request, answers: Answers, k: nat, orgs: seq<Tuple>)
    ensures var search := SearchOrgs(r, answers, k, orgs); Searches(r, answers, orgs, k, search.calls, search.found)
    decreases |orgs|
  {
    if orgs != [] {
      var membership := Tuple(FgaSubject(r.subject), Member, Entity(Organization, UpToColon(orgs[0].user.id)));
      var isMember := answers(k, membership);
      var first := CheckCall(OrgMembership, membership, isMember);
      var second := CheckCall(OwnAccess, OwnTuple(r), answers(k + 1, OwnTuple(r)));
      if isMember == No {
        SearchAsks(r, answers, k + 1, orgs[1..]);
        SearchGoesOn(r, answers, orgs, k, [first], SearchOrgs(r, answers, k + 1, orgs[1..]));
      } else if isMember == Yes && second.answer == No {
        SearchAsks(r, answers, k + 2, orgs[1..]);
        MembershipsOfSum([first], [second]);
        assert [first] + [second] == [first, second] && [first, second][..1] == [first];
        SearchGoesOn(r, answers, orgs, k, [first, second], SearchOrgs(r, answers, k + 2, orgs[1..]));
      } else {
        SearchEnds(r, answers, k, orgs);
      }
    }
  }

  lemma {:induction false} SearchEnds(r: Request, answers: Answers, k: nat, orgs: seq<Tuple>)
    requires orgs != []
    requires var membership := Tuple(FgaSubject(r.subject), Member, Entity(Organization, UpToColon(orgs[0].user.id)));
             answers(k, membership) == Throws || (answers(k, membership) == Yes && answers(k + 1, OwnTuple(r)) != No)
    ensures var search := SearchOrgs(r, answers, k, orgs); Searches(r, answers, orgs, k, search.calls, search.found)
  {
    var membership := Tuple(FgaSubject(r.subject), Member, Entity(Organization, UpToColon(orgs[0].user.id)));
    var first := CheckCall(OrgMembership, membership, answers(k, membership));
    var second := CheckCall(OwnAccess, OwnTuple(r), answers(k + 1, OwnTuple(r)));
    if first.answer == Yes {
      var calls := [first, second];
      MembershipsOfSum([first], [second]);
      assert [first] + [second] == calls && calls[..1] == [first];
      assert AsksInTurn(r, answers, orgs, k, calls, 0) && AsksInTurn(r, answers, orgs, k, calls, 1);
    } else {
      assert AsksInTurn(r, answers, orgs, k, [first], 0);
    }
  }

  lemma {:induction false} MembershipsOfSum(a: seq<CheckCall>, b: seq<CheckCall>)
    ensures Memberships(a + b) == Memberships(a) + Memberships(b)
  {
    if a == [] {
      assert a + b == b;
    } else {
      assert (a + b)[0] == a[0] && (a + b)[1..] == a[1..] + b;
      MembershipsOfSum(a[1..], b);
    }
  }

  /** One organization that grants nothing, then a search of the others. */
  lemma {:induction false} SearchGoesOn(r: Request, answers: Answers, orgs: seq<Tuple>, k: nat, front: seq<CheckCall>,
                                        rest: Search)
    requires orgs != [] && 1 <= |front| <= 2 && Memberships(front) == 1 && front[|front| - 1].answer == No
    requires forall j :: 0 <= j < |front| ==> AsksInTurn(r, answers, orgs, k, front, j)
    requires Searches(r, answers, orgs[1..], k + |front|, rest.calls, rest.found)
    ensures Searches(r, answers, orgs, k, front + rest.calls, rest.found)
  {
    var calls, n := front + rest.calls, |front|;
    MembershipsOfSum(front, rest.calls);
    forall j | 0 <= j < |calls| ensures AsksInTurn(r, answers, orgs, k, calls, j) {
      if j < n {
        assert calls[..j] == front[..j];
        assert AsksInTurn(r, answers, orgs, k, front, j);
      } else {
        assert AsksInTurn(r, answers, orgs[1..], k + n, rest.calls, j - n);
        AsksLater(r, answers, orgs, k, front, rest.calls, j - n);
      }
    }
  }

  lemma AsksLater(r: Request, answers: Answers, orgs: seq<Tuple>, k: nat, front: seq<CheckCall>, rest: seq<CheckCall>,
                  j: nat)
    requires orgs != [] && front != [] && Memberships(front) == 1 && front[|front| - 1].answer == No && j < |rest|
    requires AsksInTurn(r, answers, orgs[1..], k + |front|, rest, j)
    ensures AsksInTurn(r, answers, orgs, k, front + rest, |front| + j)
  {
    assert (front + rest)[..|front| + j] == front + rest[..j];
    MembershipsOfSum(front, rest[..j]);
  }

  // ----- the trace engine refines a simple specification -----

  /** Some check of the request's own tuple was answered yes. */
  ghost predicate Granted(calls: seq<CheckCall>) {
    exists i :: 0 <= i < |calls| && calls[i].purpose == OwnAccess && calls[i].answer == Yes
  }

  /** The intended decision: policies and relationships must both let the request through. */
  ghost function Intended(effect: PolicyEffect, granted: bool): FinalDecision {
    if effect == PolicyDenies || !granted then Denied
    else if effect == PolicyAsksMfa then MfaRequired
    else Allowed
  }

  /** Every check of the request's own access is a check of the request's own tuple. */
  ghost predicate AsksItself(r: Request, calls: seq<CheckCall>) {
    forall i :: 0 <= i < |calls| && calls[i].purpose == OwnAccess ==>
      calls[i].tuple == Tuple(Named(r.subject), r.action, r.target)
  }

  lemma {:induction false} SearchFindsOnlyGranted(r: Request, answers: Answers, k: nat, orgs: seq<Tuple>)
    ensures var search := SearchOrgs(r, answers, k, orgs);
            && (search.found.Some? <==> Granted(search.calls))
            && (search.found.Some? ==>
                  search.found.value.layer == OpenFga && search.found.value.result == Allow
                  && search.found.value.note.InheritedVia?)
            && AsksItself(r, search.calls)
    decreases |orgs|
  {
    if orgs != [] {
      var membership := Tuple(FgaSubject(r.subject), Member, Entity(Organization, UpToColon(orgs[0].user.id)));
      var isMember := answers(k, membership);
      var first := CheckCall(OrgMembership, membership, isMember);
      var second := CheckCall(OwnAccess, OwnTuple(r), answers(k + 1, OwnTuple(r)));
      if isMember == No {
        SearchFindsOnlyGranted(r, answers, k + 1, orgs[1..]);
        GrantedSum([first], SearchOrgs(r, answers, k + 1, orgs[1..]).calls);
      } else if isMember == Yes && second.answer == No {
        SearchFindsOnlyGranted(r, answers, k + 2, orgs[1..]);
        GrantedSum([first, second], SearchOrgs(r, answers, k + 2, orgs[1..]).calls);
      } else if isMember == Yes {
        assert [first, second][1] == second;
      }
    }
  }

  lemma GrantedSum(a: seq<CheckCall>, b: seq<CheckCall>)
    ensures Granted(a + b) <==> Granted(a) || Granted(b)
  {
    assert forall i :: 0 <= i < |a| ==> (a + b)[i] == a[i];
    assert forall i :: 0 <= i < |b| ==> (a + b)[|a| + i] == b[i];
  }

  lemma ResolveThree(a: TraceStep, b: TraceStep, c: TraceStep)
    requires !a.note.InheritedVia? && !b.note.InheritedVia? && !c.note.InheritedVia?
    requires a.result in {Allow, Skip} && b.result in {Allow, Skip, RequireMfa} && c.result in {Allow, Deny}
    ensures Resolve([a, b, c]) ==
            if c.result == Deny then Denied else if b.result == RequireMfa then MfaRequired else Allowed
  {
    var steps := [a, b, c];
    assert steps[1] == b && steps[2] == c;
  }

  lemma ResolveFour(a: TraceStep, b: TraceStep, c: TraceStep, d: TraceStep)
    requires !a.note.InheritedVia? && !b.note.InheritedVia? && !c.note.InheritedVia?
    requires a.result in {Allow, Skip} && b.result in {Allow, Skip, RequireMfa} && c.result == Deny
    requires d.result == Allow && d.note.InheritedVia?
    ensures Resolve([a, b, c, d]) == if b.result == RequireMfa then MfaRequired else Allowed
  {
    var steps := [a, b, c, d];
    assert steps[1] == b && steps[3] == d;
  }

  /** For arbitrary check answers, each call its own: the final decision is the intended one for "some check of the
      request's own tuple, made during this evaluation, said yes". So allow never meets an ABAC deny or require_mfa,
      and always rests on a check that returned true. */
  lemma DecisionForAnyAnswers(r: Request, effect: PolicyEffect, policy: Option<string>, answers: Answers,
                              tuples: Option<seq<Tuple>>)
    ensures var evaluation := Explain(r, effect, policy, answers, tuples);
            && evaluation.trace.decision == Intended(effect, Granted(evaluation.calls))
            && AsksItself(r, evaluation.calls)
  {
    if effect != PolicyDenies {
      var a, b := RbacStep(r.action), AbacStep(effect, policy);
      var answer := answers(0, OwnTuple(r));
      var call := CheckCall(OwnAccess, OwnTuple(r), answer);
      assert Granted([call]) <==> answer == Yes by { assert [call][0] == call; }
      ResolveThree(a, b, DirectStep(answer));
      if answer == Yes {
        assert [call] + [] == [call];
      } else if tuples.Some? {
        SearchFindsOnlyGranted(r, answers, 1, OrgTuples(tuples.value));
        var search := SearchOrgs(r, answers, 1, OrgTuples(tuples.value));
        GrantedSum([call], search.calls);
        if search.found.Some? {
          ResolveFour(a, b, DirectStep(answer), search.found.value);
        }
      }
    }
  }

  /** The checks of a tuple store that does not change during the evaluation. */
  ghost predicate Stable(answers: Answers, view: Tuple -> Answer) {
    forall n, t :: answers(n, t) == view(t)
  }

  /** With the tuple store unchanged during the evaluation, the decision is the intended one for the relationship
      itself, and the search for an inherited path adds nothing. */
  lemma DecisionForStableStore(r: Request, effect: PolicyEffect, policy: Option<string>, answers: Answers,
                               view: Tuple -> Answer, tuples: Option<seq<Tuple>>)
    requires Stable(answers, view)
    ensures var trace := Explain(r, effect, policy, answers, tuples).trace;
            && trace.decision == Intended(effect, view(Tuple(Named(r.subject), r.action, r.target)) == Yes)
            && forall step :: step in trace.steps ==> !step.note.InheritedVia?
  {
    DecisionForAnyAnswers(r, effect, policy, answers, tuples);
    var evaluation := Explain(r, effect, policy, answers, tuples);
    if effect != PolicyDenies {
      assert evaluation.calls[0] == CheckCall(OwnAccess, OwnTuple(r), view(OwnTuple(r)));
      if view(OwnTuple(r)) != Yes && tuples.Some? {
        var orgs := OrgTuples(tuples.value);
        StableSearchFindsNothing(r, answers, view, 1, orgs);
        SearchFindsOnlyGranted(r, answers, 1, orgs);
        GrantedSum([evaluation.calls[0]], SearchOrgs(r, answers, 1, orgs).calls);
      }
    }
  }

  lemma {:induction false} StableSearchFindsNothing(r: Request, answers: Answers, view: Tuple -> Answer, k: nat,
                                                    orgs: seq<Tuple>)
    requires Stable(answers, view) && view(OwnTuple(r)) != Yes
    ensures SearchOrgs(r, answers, k, orgs).found == None
    decreases |orgs|
  {
    if orgs != [] {
      StableSearchFindsNothing(r, answers, view, k + 1, orgs[1..]);
      StableSearchFindsNothing(r, answers, view, k + 2, orgs[1..]);
    }
  }
}
