/** `DefaultAuthorizationPolicyEngine`: it collects the reasons against a request and allows
    when there are none. The collecting functions follow the source branch by branch; `Allows`
    and `Objection` say declaratively what they must amount to. */
module PolicyEngine {
  import opened Sequences
  import opened Policies
  import opened ReasonCodes

  /** What an objection is about; several share the owner and scope codes. */
  datatype Topic = TheActor | TheResource | TheConsent | TheVault | TheProvider | TheSession | TheStepUp

  /** The text of a reason: a template of the source, told apart by code and topic, and what it interpolates. */
  datatype Message = Message(topic: Topic, permission: Permission, missing: seq<Scope>)

  datatype Reason = Reason(code: Code, message: Message)

  datatype Decision = Decision(permission: Permission, resourceId: Option<string>, allowed: bool, reasons: seq<Reason>)

  // ----- collecting reasons -----

  /** One `if (raised) reasons.push(reason)`. */
  datatype Check = Check(raised: bool, reason: Reason)

  function Raised(checks: seq<Check>): seq<Reason> {
    if checks == [] then []
    else Raised(checks[..|checks| - 1])
         + if checks[|checks| - 1].raised then [checks[|checks| - 1].reason] else []
  }

  function Because(code: Code, topic: Topic, p: Permission, missing: seq<Scope> := []): Reason {
    Reason(code, Message(topic, p, missing))
  }

  /** The owner checks: an absent or empty owner belongs to nobody. */
  predicate OwnedByOther(owner: Option<string>, subject: string) {
    Truthy(owner) && owner.value != subject
  }

  function Missing(required: seq<Scope>, held: seq<Scope>): (m: seq<Scope>)
    ensures m == [] <==> Covers(held, required)
    ensures forall x :: x in m <==> x in required && x !in held
  {
    var m := Filter(required, (x: Scope) => x !in held);
    assert m != [] ==> m[0] in required && m[0] !in held;
    m
  }

  function OwnerOf(resource: Option<Resource>): Option<string> {
    if resource.Some? then resource.value.owner else None
  }

  predicate NeedsStepUp(c: Context, resource: Option<Resource>) {
    && resource.Some? && resource.value.classification.Some?
    && resource.value.classification.value != Routine
    && !c.stepUpSatisfied
  }

  function BaseChecks(c: Context, p: Permission, policy: Policy, resource: Option<Resource>): seq<Check> {
    [ Check(c.actor.roles == [], Because(ActorRolesMissing, TheActor, p)),
      Check(c.actor.kind !in policy.actorTypes, Because(ActorTypeNotAllowed, TheActor, p)),
      Check(forall r :: r in c.actor.roles ==> r !in policy.roles, Because(RoleGrantMissing, TheActor, p)),
      Check(policy.ownership && OwnedByOther(OwnerOf(resource), c.subject),
            Because(ResourceOwnerMismatch, TheResource, p)) ]
  }

  function ConsentChecks(c: Context, p: Permission, required: seq<Scope>): seq<Check> {
    var missing := Missing(required, c.consent.scopes);
    [ Check(c.consent.status == GrantMissing, Because(ConsentGrantMissing, TheConsent, p)),
      Check(c.consent.status == GrantPending, Because(DelegatedGrantPending, TheConsent, p)),
      Check(c.consent.status == GrantRevoked, Because(ConsentGrantRevoked, TheConsent, p)),
      Check(c.consent.status == GrantExpired, Because(DelegatedGrantExpired, TheConsent, p)),
      Check(OwnedByOther(c.consent.owner, c.subject), Because(ResourceOwnerMismatch, TheConsent, p)),
      Check(missing != [], Because(ConsentScopeMissing, TheConsent, p, missing)) ]
  }

  function VaultChecks(c: Context, p: Permission, required: seq<Scope>): seq<Check> {
    var missing := Missing(required, c.vault.scopes);
    [ Check(c.vault.status == VaultMissing, Because(VaultConnectionMissing, TheVault, p)),
      Check(c.vault.status == VaultDisconnected || c.vault.status == VaultError,
            Because(VaultConnectionUnavailable, TheVault, p)),
      Check(OwnedByOther(c.vault.owner, c.subject), Because(ResourceOwnerMismatch, TheVault, p)),
      Check(missing != [], Because(VaultScopeMissing, TheVault, p, missing)) ]
  }

  function ProviderChecks(c: Context, p: Permission, required: seq<Scope>): seq<Check> {
    var missing := Missing(required, c.provider.scopes);
    [ Check(c.provider.status == ProviderMissing, Because(ProviderConnectionMissing, TheProvider, p)),
      Check(c.provider.status == ProviderPending || c.provider.status == ProviderRevoked
            || c.provider.status == ProviderError,
            Because(ProviderConnectionInactive, TheProvider, p)),
      Check(OwnedByOther(c.provider.owner, c.subject), Because(ResourceOwnerMismatch, TheProvider, p)),
      Check(missing != [], Because(ConsentScopeMissing, TheProvider, p, missing)) ]
  }

  function SessionChecks(c: Context, p: Permission, required: seq<Scope>): seq<Check> {
    var missing := Missing(required, c.session.scopes);
    [ Check(c.session.status == SessionMissing, Because(VaultSessionMissing, TheSession, p)),
      Check(c.session.status == SessionExpired || c.session.status == SessionRevoked,
            Because(VaultSessionInactive, TheSession, p)),
      Check(OwnedByOther(c.session.owner, c.subject), Because(ResourceOwnerMismatch, TheSession, p)),
      Check(missing != [], Because(VaultScopeMissing, TheSession, p, missing)) ]
  }

  function StepUpChecks(c: Context, p: Permission, resource: Option<Resource>): seq<Check> {
    [ Check(NeedsStepUp(c, resource), Because(StepUpRequired, TheStepUp, p)) ]
  }

  function ConsentGroup(c: Context, p: Permission, policy: Policy): seq<Check> {
    if policy.consent.Some? then ConsentChecks(c, p, policy.consent.value) else []
  }

  function VaultGroup(c: Context, p: Permission, policy: Policy): seq<Check> {
    if policy.vault.Some? then VaultChecks(c, p, policy.vault.value) else []
  }

  function ProviderGroup(c: Context, p: Permission, policy: Policy): seq<Check> {
    if policy.provider.Some? then ProviderChecks(c, p, policy.provider.value) else []
  }

  function SessionGroup(c: Context, p: Permission, policy: Policy): seq<Check> {
    if policy.session.Some? then SessionChecks(c, p, policy.session.value) else []
  }

  function StepUpGroup(c: Context, p: Permission, policy: Policy, resource: Option<Resource>): seq<Check> {
    if policy.stepUp then StepUpChecks(c, p, resource) else []
  }

  /** All reasons collected against the request, before they are made unique. */
  function Collect(c: Context, p: Permission, policy: Policy, resource: Option<Resource>): seq<Reason> {
    Raised(BaseChecks(c, p, policy, resource)
           + ConsentGroup(c, p, policy) + VaultGroup(c, p, policy)
           + ProviderGroup(c, p, policy) + SessionGroup(c, p, policy)
           + StepUpGroup(c, p, policy, resource))
  }

  // ----- the declarative specification -----

  predicate Covers(held: seq<Scope>, required: seq<Scope>) {
    forall x :: x in required ==> x in held
  }

  /** The owner is absent, empty, or the subject. */
  ghost predicate NobodyElses(owner: Option<string>, subject: string) {
    owner == None || owner == Some("") || owner == Some(subject)
  }

  ghost predicate NotOfOther(resource: Option<Resource>, subject: string) {
    resource == None || NobodyElses(resource.value.owner, subject)
  }

  /** The resource is not classified sensitive or high-impact, or step-up is satisfied. */
  ghost predicate StepUpHolds(c: Context, resource: Option<Resource>) {
    resource == None || resource.value.classification !in {Some(Sensitive), Some(HighImpact)} || c.stepUpSatisfied
  }

  ghost predicate RoleGranted(c: Context, policy: Policy) {
    exists r :: r in c.actor.roles && r in policy.roles
  }

  ghost predicate ConsentHolds(c: Context, required: seq<Scope>) {
    c.consent.status == Granted && NobodyElses(c.consent.owner, c.subject) && Covers(c.consent.scopes, required)
  }

  ghost predicate VaultHolds(c: Context, required: seq<Scope>) {
    c.vault.status == VaultConnected && NobodyElses(c.vault.owner, c.subject) && Covers(c.vault.scopes, required)
  }

  ghost predicate ProviderHolds(c: Context, required: seq<Scope>) {
    c.provider.status == ProviderConnected && NobodyElses(c.provider.owner, c.subject)
    && Covers(c.provider.scopes, required)
  }

  ghost predicate SessionHolds(c: Context, required: seq<Scope>) {
    c.session.status == SessionActive && NobodyElses(c.session.owner, c.subject) && Covers(c.session.scopes, required)
  }

  ghost predicate BaseHolds(policy: Policy, c: Context, resource: Option<Resource>) {
    && RoleGranted(c, policy)
    && c.actor.kind in policy.actorTypes
    && (policy.ownership ==> NotOfOther(resource, c.subject))
  }

  ghost predicate DelegatedHolds(policy: Policy, c: Context) {
    && (policy.consent.Some? ==> ConsentHolds(c, policy.consent.value))
    && (policy.vault.Some? ==> VaultHolds(c, policy.vault.value))
    && (policy.provider.Some? ==> ProviderHolds(c, policy.provider.value))
    && (policy.session.Some? ==> SessionHolds(c, policy.session.value))
  }

  ghost predicate Allows(policy: Policy, c: Context, resource: Option<Resource>) {
    && BaseHolds(policy, c, resource)
    && DelegatedHolds(policy, c)
    && (policy.stepUp ==> StepUpHolds(c, resource))
  }

  ghost predicate BaseObjects(code: Code, policy: Policy, c: Context, resource: Option<Resource>) {
    || (code == ActorRolesMissing && c.actor.roles == [])
    || (code == ActorTypeNotAllowed && c.actor.kind !in policy.actorTypes)
    || (code == RoleGrantMissing && !RoleGranted(c, policy))
    || (code == ResourceOwnerMismatch && policy.ownership && !NotOfOther(resource, c.subject))
  }

  ghost predicate ConsentObjects(code: Code, c: Context, required: seq<Scope>) {
    || (code == ConsentGrantMissing && c.consent.status == GrantMissing)
    || (code == DelegatedGrantPending && c.consent.status == GrantPending)
    || (code == ConsentGrantRevoked && c.consent.status == GrantRevoked)
    || (code == DelegatedGrantExpired && c.consent.status == GrantExpired)
    || (code == ResourceOwnerMismatch && !NobodyElses(c.consent.owner, c.subject))
    || (code == ConsentScopeMissing && !Covers(c.consent.scopes, required))
  }

  ghost predicate VaultObjects(code: Code, c: Context, required: seq<Scope>) {
    || (code == VaultConnectionMissing && c.vault.status == VaultMissing)
    || (code == VaultConnectionUnavailable && c.vault.status in {VaultDisconnected, VaultError})
    || (code == ResourceOwnerMismatch && !NobodyElses(c.vault.owner, c.subject))
    || (code == VaultScopeMissing && !Covers(c.vault.scopes, required))
  }

  ghost predicate ProviderObjects(code: Code, c: Context, required: seq<Scope>) {
    || (code == ProviderConnectionMissing && c.provider.status == ProviderMissing)
    || (code == ProviderConnectionInactive && c.provider.status in {ProviderPending, ProviderRevoked, ProviderError})
    || (code == ResourceOwnerMismatch && !NobodyElses(c.provider.owner, c.subject))
    || (code == ConsentScopeMissing && !Covers(c.provider.scopes, required))
  }

  ghost predicate SessionObjects(code: Code, c: Context, required: seq<Scope>) {
    || (code == VaultSessionMissing && c.session.status == SessionMissing)
    || (code == VaultSessionInactive && c.session.status in {SessionExpired, SessionRevoked})
    || (code == ResourceOwnerMismatch && !NobodyElses(c.session.owner, c.subject))
    || (code == VaultScopeMissing && !Covers(c.session.scopes, required))
  }

  /** The objections a denial must report, and no others. */
  ghost predicate Objection(code: Code, policy: Policy, c: Context, resource: Option<Resource>) {
    || BaseObjects(code, policy, c, resource)
    || (policy.consent.Some? && ConsentObjects(code, c, policy.consent.value))
    || (policy.vault.Some? && VaultObjects(code, c, policy.vault.value))
    || (policy.provider.Some? && ProviderObjects(code, c, policy.provider.value))
    || (policy.session.Some? && SessionObjects(code, c, policy.session.value))
    || (policy.stepUp && code == StepUpRequired && !StepUpHolds(c, resource))
  }

  ghost predicate Reports(reasons: seq<Reason>, code: Code) {
    exists i :: 0 <= i < |reasons| && reasons[i].code == code
  }

  ghost predicate Raises(checks: seq<Check>, code: Code) {
    exists i :: 0 <= i < |checks| && checks[i].raised && checks[i].reason.code == code
  }

  lemma ReportsSum(a: seq<Reason>, b: seq<Reason>, code: Code)
    ensures Reports(a + b, code) <==> Reports(a, code) || Reports(b, code)
  {
    assert forall i :: 0 <= i < |a| ==> (a + b)[i] == a[i];
    assert forall i :: 0 <= i < |b| ==> (a + b)[|a| + i] == b[i];
  }

  lemma {:induction false} RaisedReports(checks: seq<Check>, code: Code)
    ensures Reports(Raised(checks), code) <==> Raises(checks, code)
  {
    if checks != [] {
      var front, last := checks[..|checks| - 1], checks[|checks| - 1];
      RaisedReports(front, code);
      ReportsSum(Raised(front), if last.raised then [last.reason] else [], code);
      assert last.raised ==> [last.reason][0] == last.reason;
      assert Raises(checks, code) <==> Raises(front, code) || (last.raised && last.reason.code == code);
    }
  }

  lemma RaisesSum(a: seq<Check>, b: seq<Check>, code: Code)
    ensures Raises(a + b, code) <==> Raises(a, code) || Raises(b, code)
  {
    assert forall i :: 0 <= i < |a| ==> (a + b)[i] == a[i];
    assert forall i :: 0 <= i < |b| ==> (a + b)[|a| + i] == b[i];
  }

  lemma RaisesSumOfSix(a: seq<Check>, b: seq<Check>, c: seq<Check>, d: seq<Check>, e: seq<Check>, f: seq<Check>,
                       code: Code)
    ensures Raises(a + b + c + d + e + f, code) <==>
            Raises(a, code) || Raises(b, code) || Raises(c, code) || Raises(d, code) || Raises(e, code)
            || Raises(f, code)
  {
    RaisesSum(a, b, code);
    RaisesSum(a + b, c, code);
    RaisesSum(a + b + c, d, code);
    RaisesSum(a + b + c + d, e, code);
    RaisesSum(a + b + c + d + e, f, code);
  }

  // ----- the engine reports exactly the objections -----

  lemma BaseRaises(c: Context, p: Permission, policy: Policy, resource: Option<Resource>, code: Code)
    ensures Raises(BaseChecks(c, p, policy, resource), code) <==> BaseObjects(code, policy, c, resource)
  {
    var s := BaseChecks(c, p, policy, resource);
    assert s[0].reason.code == ActorRolesMissing
           && s[1].reason.code == ActorTypeNotAllowed
           && s[2].reason.code == RoleGrantMissing
           && s[3].reason.code == ResourceOwnerMismatch;
  }

  lemma ConsentRaises(c: Context, p: Permission, policy: Policy, code: Code)
    ensures Raises(ConsentGroup(c, p, policy), code) <==>
            policy.consent.Some? && ConsentObjects(code, c, policy.consent.value)
  {
    if policy.consent.Some? {
      var s := ConsentChecks(c, p, policy.consent.value);
      assert s[0].reason.code == ConsentGrantMissing
             && s[1].reason.code == DelegatedGrantPending
             && s[2].reason.code == ConsentGrantRevoked
             && s[3].reason.code == DelegatedGrantExpired
             && s[4].reason.code == ResourceOwnerMismatch
             && s[5].reason.code == ConsentScopeMissing;
    }
  }

  lemma VaultRaises(c: Context, p: Permission, policy: Policy, code: Code)
    ensures Raises(VaultGroup(c, p, policy), code) <==> policy.vault.Some? && VaultObjects(code, c, policy.vault.value)
  {
    if policy.vault.Some? {
      var s := VaultChecks(c, p, policy.vault.value);
      assert s[0].reason.code == VaultConnectionMissing
             && s[1].reason.code == VaultConnectionUnavailable
             && s[2].reason.code == ResourceOwnerMismatch
             && s[3].reason.code == VaultScopeMissing;
    }
  }

  lemma ProviderRaises(c: Context, p: Permission, policy: Policy, code: Code)
    ensures Raises(ProviderGroup(c, p, policy), code) <==>
            policy.provider.Some? && ProviderObjects(code, c, policy.provider.value)
  {
    if policy.provider.Some? {
      var s := ProviderChecks(c, p, policy.provider.value);
      assert s[0].reason.code == ProviderConnectionMissing
             && s[1].reason.code == ProviderConnectionInactive
             && s[2].reason.code == ResourceOwnerMismatch
             && s[3].reason.code == ConsentScopeMissing;
    }
  }

  lemma SessionRaises(c: Context, p: Permission, policy: Policy, code: Code)
    ensures Raises(SessionGroup(c, p, policy), code) <==>
            policy.session.Some? && SessionObjects(code, c, policy.session.value)
  {
    if policy.session.Some? {
      var s := SessionChecks(c, p, policy.session.value);
      assert s[0].reason.code == VaultSessionMissing
             && s[1].reason.code == VaultSessionInactive
             && s[2].reason.code == ResourceOwnerMismatch
             && s[3].reason.code == VaultScopeMissing;
    }
  }

  lemma StepUpRaises(c: Context, p: Permission, policy: Policy, resource: Option<Resource>, code: Code)
    ensures Raises(StepUpGroup(c, p, policy, resource), code) <==>
            policy.stepUp && code == StepUpRequired && !StepUpHolds(c, resource)
  {
    assert StepUpChecks(c, p, resource)[0].reason.code == StepUpRequired;
  }

  /** A denial reports a code exactly when the corresponding declarative objection holds. */
  lemma ReportsExactly(c: Context, p: Permission, policy: Policy, resource: Option<Resource>, code: Code)
    ensures Reports(Collect(c, p, policy, resource), code) <==> Objection(code, policy, c, resource)
  {
    var checks := BaseChecks(c, p, policy, resource) + ConsentGroup(c, p, policy) + VaultGroup(c, p, policy)
                  + ProviderGroup(c, p, policy) + SessionGroup(c, p, policy) + StepUpGroup(c, p, policy, resource);
    RaisedReports(checks, code);
    RaisesSumOfSix(BaseChecks(c, p, policy, resource), ConsentGroup(c, p, policy), VaultGroup(c, p, policy),
                   ProviderGroup(c, p, policy), SessionGroup(c, p, policy), StepUpGroup(c, p, policy, resource), code);
    BaseRaises(c, p, policy, resource, code);
    ConsentRaises(c, p, policy, code);
    VaultRaises(c, p, policy, code);
    ProviderRaises(c, p, policy, code);
    SessionRaises(c, p, policy, code);
    StepUpRaises(c, p, policy, resource, code);
  }

  /** The engine finds nothing to object to exactly when the declarative specification holds. */
  lemma CollectMeetsSpec(c: Context, p: Permission, policy: Policy, resource: Option<Resource>)
    ensures Collect(c, p, policy, resource) == [] <==> Allows(policy, c, resource)
  {
    var reasons := Collect(c, p, policy, resource);
    forall code ensures Reports(reasons, code) <==> Objection(code, policy, c, resource) {
      ReportsExactly(c, p, policy, resource, code);
    }
    assert reasons != [] ==> Reports(reasons, reasons[0].code);
    if !Allows(policy, c, resource) {
      var code := SomeObjection(c, policy, resource);
      assert Reports(reasons, code);
    } else {
      forall code ensures !Objection(code, policy, c, resource) { AllowsNoObjection(c, policy, resource, code); }
    }
  }

  lemma SomeObjection(c: Context, policy: Policy, resource: Option<Resource>) returns (code: Code)
    requires !Allows(policy, c, resource)
    ensures Objection(code, policy, c, resource)
  {
    if !BaseHolds(policy, c, resource) {
      code := if !RoleGranted(c, policy) then RoleGrantMissing
              else if c.actor.kind !in policy.actorTypes then ActorTypeNotAllowed else ResourceOwnerMismatch;
    } else if policy.stepUp && !StepUpHolds(c, resource) {
      code := StepUpRequired;
    } else {
      code := SomeDelegatedObjection(c, policy, resource);
    }
  }

  lemma SomeDelegatedObjection(c: Context, policy: Policy, resource: Option<Resource>) returns (code: Code)
    requires !DelegatedHolds(policy, c)
    ensures Objection(code, policy, c, resource)
  {
    if policy.consent.Some? && !ConsentHolds(c, policy.consent.value) {
      code := if !NobodyElses(c.consent.owner, c.subject) then ResourceOwnerMismatch else
        match c.consent.status
        case Granted => ConsentScopeMissing
        case GrantMissing => ConsentGrantMissing
        case GrantPending => DelegatedGrantPending
        case GrantRevoked => ConsentGrantRevoked
        case GrantExpired => DelegatedGrantExpired;
    } else if policy.vault.Some? && !VaultHolds(c, policy.vault.value) {
      code := if !NobodyElses(c.vault.owner, c.subject) then ResourceOwnerMismatch
              else if c.vault.status == VaultConnected then VaultScopeMissing
              else if c.vault.status == VaultMissing then VaultConnectionMissing else VaultConnectionUnavailable;
    } else if policy.provider.Some? && !ProviderHolds(c, policy.provider.value) {
      code := if !NobodyElses(c.provider.owner, c.subject) then ResourceOwnerMismatch
              else if c.provider.status == ProviderConnected then ConsentScopeMissing
              else if c.provider.status == ProviderMissing then ProviderConnectionMissing
                else ProviderConnectionInactive;
    } else {
      code := if !NobodyElses(c.session.owner, c.subject) then ResourceOwnerMismatch
              else if c.session.status == SessionActive then VaultScopeMissing
              else if c.session.status == SessionMissing then VaultSessionMissing else VaultSessionInactive;
    }
  }

  lemma AllowsNoObjection(c: Context, policy: Policy, resource: Option<Resource>, code: Code)
    requires Allows(policy, c, resource)
    ensures !Objection(code, policy, c, resource)
  {
  }

  // ----- scope reasons name the missing scopes -----

  function RequiredBy(policy: Policy, topic: Topic): Option<seq<Scope>> {
    match topic
    case TheConsent => policy.consent
    case TheVault => policy.vault
    case TheProvider => policy.provider
    case TheSession => policy.session
    case _ => None
  }

  function HeldFor(c: Context, topic: Topic): seq<Scope> {
    match topic
    case TheConsent => c.consent.scopes
    case TheVault => c.vault.scopes
    case TheProvider => c.provider.scopes
    case TheSession => c.session.scopes
    case _ => []
  }

  /** A scope reason names exactly the scopes that its topic requires and the context lacks. */
  ghost predicate NamesMissing(r: Reason, c: Context, policy: Policy) {
    r.code == ConsentScopeMissing || r.code == VaultScopeMissing ==>
      && RequiredBy(policy, r.message.topic).Some?
      && forall x :: x in r.message.missing <==>
           x in RequiredBy(policy, r.message.topic).value && x !in HeldFor(c, r.message.topic)
  }

  // ----- every reason is about its topic, and they come in order -----

  function TopicRank(topic: Topic): nat {
    match topic
    case TheActor => 0
    case TheResource => 1
    case TheConsent => 2
    case TheVault => 3
    case TheProvider => 4
    case TheSession => 5
    case TheStepUp => 6
  }

  /** Within a topic: what is missing, what state it is in, whose it is, what its scopes lack. */
  function CodeRank(code: Code): nat {
    match code
    case ActorRolesMissing | ConsentGrantMissing | VaultConnectionMissing | ProviderConnectionMissing
         | VaultSessionMissing | StepUpRequired => 0
    case ActorTypeNotAllowed | DelegatedGrantPending | VaultConnectionUnavailable | ProviderConnectionInactive
         | VaultSessionInactive => 1
    case RoleGrantMissing | ConsentGrantRevoked => 2
    case DelegatedGrantExpired => 3
    case ResourceOwnerMismatch => 4
    case ConsentScopeMissing | VaultScopeMissing => 5
    case PolicyAllow | ContextMissing => 9
  }

  /** Where a reason stands in a denial. */
  function Rank(r: Reason): nat {
    10 * TopicRank(r.message.topic) + CodeRank(r.code)
  }

  /** What the reason says about its topic holds. */
  ghost predicate Justified(r: Reason, policy: Policy, c: Context, resource: Option<Resource>) {
    match r.message.topic
    case TheActor => r.code != ResourceOwnerMismatch && BaseObjects(r.code, policy, c, resource)
    case TheResource => r.code == ResourceOwnerMismatch && BaseObjects(r.code, policy, c, resource)
    case TheConsent => policy.consent.Some? && ConsentObjects(r.code, c, policy.consent.value)
    case TheVault => policy.vault.Some? && VaultObjects(r.code, c, policy.vault.value)
    case TheProvider => policy.provider.Some? && ProviderObjects(r.code, c, policy.provider.value)
    case TheSession => policy.session.Some? && SessionObjects(r.code, c, policy.session.value)
    case TheStepUp => policy.stepUp && r.code == StepUpRequired && !StepUpHolds(c, resource)
  }

  /** The reason is for this permission, is justified, and names missing scopes exactly. */
  ghost predicate Fits(r: Reason, p: Permission, policy: Policy, c: Context, resource: Option<Resource>) {
    r.message.permission == p && Justified(r, policy, c, resource) && NamesMissing(r, c, policy)
  }

  ghost predicate InOrder(reasons: seq<Reason>) {
    forall i, j :: 0 <= i < j < |reasons| ==> Rank(reasons[i]) < Rank(reasons[j])
  }

  /** The checks stand in order within `lo` and `hi`. */
  ghost predicate Ranked(checks: seq<Check>, lo: nat, hi: nat) {
    && (forall i :: 0 <= i < |checks| ==> lo <= Rank(checks[i].reason) < hi)
    && forall i, j :: 0 <= i < j < |checks| ==> Rank(checks[i].reason) < Rank(checks[j].reason)
  }

  /** Every check that is raised fits. */
  ghost predicate AllFit(checks: seq<Check>, p: Permission, policy: Policy, c: Context, resource: Option<Resource>) {
    forall check :: check in checks && check.raised ==> Fits(check.reason, p, policy, c, resource)
  }

  lemma BaseRanked(c: Context, p: Permission, policy: Policy, resource: Option<Resource>)
    ensures Ranked(BaseChecks(c, p, policy, resource), 0, 20)
  {
    var s := BaseChecks(c, p, policy, resource);
    assert Rank(s[0].reason) == 0 && Rank(s[1].reason) == 1 && Rank(s[2].reason) == 2 && Rank(s[3].reason) == 14;
  }

  lemma BaseFits(c: Context, p: Permission, policy: Policy, resource: Option<Resource>)
    ensures AllFit(BaseChecks(c, p, policy, resource), p, policy, c, resource)
  {
  }

  lemma ConsentRanked(c: Context, p: Permission, policy: Policy)
    ensures Ranked(ConsentGroup(c, p, policy), 20, 30)
  {
    if policy.consent.Some? {
      var s := ConsentChecks(c, p, policy.consent.value);
      assert Rank(s[0].reason) == 20 && Rank(s[1].reason) == 21 && Rank(s[2].reason) == 22;
      assert Rank(s[3].reason) == 23 && Rank(s[4].reason) == 24 && Rank(s[5].reason) == 25;
    }
  }

  lemma ConsentFits(c: Context, p: Permission, policy: Policy, resource: Option<Resource>)
    ensures AllFit(ConsentGroup(c, p, policy), p, policy, c, resource)
  {
  }

  lemma VaultRanked(c: Context, p: Permission, policy: Policy)
    ensures Ranked(VaultGroup(c, p, policy), 30, 40)
  {
    if policy.vault.Some? {
      var s := VaultChecks(c, p, policy.vault.value);
      assert Rank(s[0].reason) == 30 && Rank(s[1].reason) == 31;
      assert Rank(s[2].reason) == 34 && Rank(s[3].reason) == 35;
    }
  }

  lemma VaultFits(c: Context, p: Permission, policy: Policy, resource: Option<Resource>)
    ensures AllFit(VaultGroup(c, p, policy), p, policy, c, resource)
  {
  }

  lemma ProviderRanked(c: Context, p: Permission, policy: Policy)
    ensures Ranked(ProviderGroup(c, p, policy), 40, 50)
  {
    if policy.provider.Some? {
      var s := ProviderChecks(c, p, policy.provider.value);
      assert Rank(s[0].reason) == 40 && Rank(s[1].reason) == 41;
      assert Rank(s[2].reason) == 44 && Rank(s[3].reason) == 45;
    }
  }

  lemma ProviderFits(c: Context, p: Permission, policy: Policy, resource: Option<Resource>)
    ensures AllFit(ProviderGroup(c, p, policy), p, policy, c, resource)
  {
  }

  lemma SessionRanked(c: Context, p: Permission, policy: Policy)
    ensures Ranked(SessionGroup(c, p, policy), 50, 60)
  {
    if policy.session.Some? {
      var s := SessionChecks(c, p, policy.session.value);
      assert Rank(s[0].reason) == 50 && Rank(s[1].reason) == 51;
      assert Rank(s[2].reason) == 54 && Rank(s[3].reason) == 55;
    }
  }

  lemma SessionFits(c: Context, p: Permission, policy: Policy, resource: Option<Resource>)
    ensures AllFit(SessionGroup(c, p, policy), p, policy, c, resource)
  {
  }

  lemma StepUpFits(c: Context, p: Permission, policy: Policy, resource: Option<Resource>)
    ensures Ranked(StepUpGroup(c, p, policy, resource), 60, 70)
    ensures AllFit(StepUpGroup(c, p, policy, resource), p, policy, c, resource)
  {
  }

  lemma AllFitSum(a: seq<Check>, b: seq<Check>, p: Permission, policy: Policy, c: Context, resource: Option<Resource>)
    requires AllFit(a, p, policy, c, resource) && AllFit(b, p, policy, c, resource)
    ensures AllFit(a + b, p, policy, c, resource)
  {
  }

  lemma RankedSum(a: seq<Check>, b: seq<Check>, lo: nat, mid: nat, hi: nat)
    requires lo <= mid <= hi && Ranked(a, lo, mid) && Ranked(b, mid, hi)
    ensures Ranked(a + b, lo, hi)
  {
  }

  lemma {:induction false} RaisedAreReasons(checks: seq<Check>, r: Reason)
    requires r in Raised(checks)
    ensures exists i :: 0 <= i < |checks| && checks[i].raised && checks[i].reason == r
  {
    var front := checks[..|checks| - 1];
    if r in Raised(front) {
      RaisedAreReasons(front, r);
      var i :| 0 <= i < |front| && front[i].raised && front[i].reason == r;
      assert checks[i] == front[i];
    }
  }

  lemma {:induction false} RaisedInOrder(checks: seq<Check>, lo: nat, hi: nat)
    requires Ranked(checks, lo, hi)
    ensures InOrder(Raised(checks))
  {
    if checks != [] {
      var n := |checks| - 1;
      var before := Raised(checks[..n]);
      RaisedInOrder(checks[..n], lo, hi);
      forall k | 0 <= k < |before| ensures Rank(before[k]) < Rank(checks[n].reason) {
        RaisedAreReasons(checks[..n], before[k]);
        var i :| 0 <= i < n && checks[..n][i].reason == before[k];
        assert checks[..n][i] == checks[i];
      }
    }
  }

  lemma CollectInOrder(c: Context, p: Permission, policy: Policy, resource: Option<Resource>)
    ensures InOrder(Collect(c, p, policy, resource))
  {
    var a, b, d := BaseChecks(c, p, policy, resource), ConsentGroup(c, p, policy), VaultGroup(c, p, policy);
    var e, f, g := ProviderGroup(c, p, policy), SessionGroup(c, p, policy), StepUpGroup(c, p, policy, resource);
    BaseRanked(c, p, policy, resource);
    ConsentRanked(c, p, policy);
    RankedSum(a, b, 0, 20, 30);
    VaultRanked(c, p, policy);
    RankedSum(a + b, d, 0, 30, 40);
    ProviderRanked(c, p, policy);
    RankedSum(a + b + d, e, 0, 40, 50);
    SessionRanked(c, p, policy);
    RankedSum(a + b + d + e, f, 0, 50, 60);
    StepUpFits(c, p, policy, resource);
    RankedSum(a + b + d + e + f, g, 0, 60, 70);
    RaisedInOrder(a + b + d + e + f + g, 0, 70);
  }

  lemma CollectedFits(c: Context, p: Permission, policy: Policy, resource: Option<Resource>, r: Reason)
    requires r in Collect(c, p, policy, resource)
    ensures Fits(r, p, policy, c, resource)
  {
    var a, b, d := BaseChecks(c, p, policy, resource), ConsentGroup(c, p, policy), VaultGroup(c, p, policy);
    var e, f, g := ProviderGroup(c, p, policy), SessionGroup(c, p, policy), StepUpGroup(c, p, policy, resource);
    BaseFits(c, p, policy, resource);
    ConsentFits(c, p, policy, resource);
    AllFitSum(a, b, p, policy, c, resource);
    VaultFits(c, p, policy, resource);
    AllFitSum(a + b, d, p, policy, c, resource);
    ProviderFits(c, p, policy, resource);
    AllFitSum(a + b + d, e, p, policy, c, resource);
    SessionFits(c, p, policy, resource);
    AllFitSum(a + b + d + e, f, p, policy, c, resource);
    StepUpFits(c, p, policy, resource);
    AllFitSum(a + b + d + e + f, g, p, policy, c, resource);
    RaisedFits(a + b + d + e + f + g, p, policy, c, resource, r);
  }

  lemma RaisedFits(checks: seq<Check>, p: Permission, policy: Policy, c: Context, resource: Option<Resource>, r: Reason)
    requires AllFit(checks, p, policy, c, resource) && r in Raised(checks)
    ensures Fits(r, p, policy, c, resource)
  {
    RaisedAreReasons(checks, r);
    var i :| 0 <= i < |checks| && checks[i].raised && checks[i].reason == r;
    assert checks[i] in checks;
  }

  /** What is collected comes in order, and every reason fits: its permission, what it says about its topic, and the
      scopes it names. */
  lemma CollectFits(c: Context, p: Permission, policy: Policy, resource: Option<Resource>)
    ensures InOrder(Collect(c, p, policy, resource))
    ensures forall r :: r in Collect(c, p, policy, resource) ==> Fits(r, p, policy, c, resource)
  {
    CollectInOrder(c, p, policy, resource);
    forall r | r in Collect(c, p, policy, resource) ensures Fits(r, p, policy, c, resource) {
      CollectedFits(c, p, policy, resource, r);
    }
  }

  lemma MissingScopesAreNamed(c: Context, p: Permission, policy: Policy, resource: Option<Resource>, r: Reason)
    requires r in Collect(c, p, policy, resource)
    ensures NamesMissing(r, c, policy)
  {
    CollectFits(c, p, policy, resource);
  }

  lemma {:induction false} UniqueInOrder(reasons: seq<Reason>, wording: Wording)
    requires InOrder(reasons)
    ensures InOrder(FirstBy(reasons, Identity(wording)))
    ensures forall r :: r in FirstBy(reasons, Identity(wording)) ==> r in reasons
  {
    if reasons != [] {
      var front, last := reasons[..|reasons| - 1], reasons[|reasons| - 1];
      var kept := FirstBy(front, Identity(wording));
      UniqueInOrder(front, wording);
      forall k | 0 <= k < |kept| ensures Rank(kept[k]) < Rank(last) {
        assert kept[k] in front;
      }
    }
  }

  // ----- making reasons unique -----

  type Wording = Message -> string

  /** What two reasons must share to count as the same reason. */
  function Identity(wording: Wording): Reason -> (Code, string) {
    (r: Reason) => (r.code, wording(r.message))
  }

  function Joined(r: Reason, wording: Wording): string {
    JoinedKey(r.code, wording(r.message))
  }

  /** The filter of `uniqueReasons`, with its set of joined keys: it keeps the first reason of each (code, text). */
  method UniqueReasons(reasons: seq<Reason>, wording: Wording) returns (kept: seq<Reason>)
    ensures kept == FirstBy(reasons, Identity(wording))
  {
    var seen: set<string> := {};
    kept := [];
    for i := 0 to |reasons|
      invariant kept == FirstBy(reasons[..i], Identity(wording))
      invariant forall r :: Joined(r, wording) in seen <==>
                HasKey(reasons[..i], Identity(wording), Identity(wording)(r))
    {
      var joined := Joined(reasons[i], wording);
      SeenGrows(reasons, i, wording, seen);
      assert reasons[..i + 1][..i] == reasons[..i];
      if joined !in seen {
        seen := seen + {joined};
        kept := kept + [reasons[i]];
      }
    }
    assert reasons[..|reasons|] == reasons;
  }

  lemma SeenGrows(reasons: seq<Reason>, i: nat, wording: Wording, seen: set<string>)
    requires i < |reasons|
    requires forall r :: Joined(r, wording) in seen <==> HasKey(reasons[..i], Identity(wording), Identity(wording)(r))
    ensures forall r :: Joined(r, wording) in seen + {Joined(reasons[i], wording)}
                        <==> HasKey(reasons[..i + 1], Identity(wording), Identity(wording)(r))
  {
    var key := Identity(wording);
    forall r: Reason
      ensures Joined(r, wording) in seen + {Joined(reasons[i], wording)} <==> HasKey(reasons[..i + 1], key, key(r))
    {
      HasKeySnoc(reasons[..i], reasons[i], key, key(r));
      assert reasons[..i + 1] == reasons[..i] + [reasons[i]];
      if Joined(r, wording) == Joined(reasons[i], wording) {
        JoinedKeyInjective(r.code, wording(r.message), reasons[i].code, wording(reasons[i].message));
      }
    }
  }

  lemma UniqueReportsTheSame(reasons: seq<Reason>, wording: Wording, code: Code)
    ensures Reports(FirstBy(reasons, Identity(wording)), code) <==> Reports(reasons, code)
  {
    var key := Identity(wording);
    var kept := FirstBy(reasons, key);
    FirstByDistinct(reasons, key);
    if Reports(reasons, code) {
      var i :| 0 <= i < |reasons| && reasons[i].code == code;
      assert HasKey(reasons, key, key(reasons[i]));
      assert HasKey(kept, key, key(reasons[i]));
    }
    if Reports(kept, code) {
      var i :| 0 <= i < |kept| && kept[i].code == code;
      assert HasKey(kept, key, key(kept[i]));
      assert HasKey(reasons, key, key(kept[i]));
    }
  }

  /** `evaluatePermission`: it pushes the reasons group by group. */
  method EvaluatePermission(c: Context, p: Permission, resource: Option<Resource>, wording: Wording)
    returns (decision: Decision)
    ensures decision.allowed <==> Allows(PolicyOf(p), c, resource)
    ensures decision.permission == p && decision.resourceId == (if resource.Some? then resource.value.id else None)
    ensures decision.allowed ==> decision.reasons == [Because(PolicyAllow, TheActor, p)]
    ensures !decision.allowed ==>
              forall code :: Reports(decision.reasons, code) <==> Objection(code, PolicyOf(p), c, resource)
    ensures Distinct(decision.reasons, Identity(wording))
    ensures !decision.allowed ==>
              InOrder(decision.reasons) && forall r :: r in decision.reasons ==> Fits(r, p, PolicyOf(p), c, resource)
  {
    var policy := PolicyOf(p);
    var reasons := CollectReasons(c, p, policy, resource);
    CollectMeetsSpec(c, p, policy, resource);
    var id := if resource.Some? then resource.value.id else None;
    if reasons == [] {
      decision := Decision(p, id, true, [Because(PolicyAllow, TheActor, p)]);
    } else {
      var kept := UniqueReasons(reasons, wording);
      decision := Decision(p, id, false, kept);
      FirstByDistinct(reasons, Identity(wording));
      CollectFits(c, p, policy, resource);
      UniqueInOrder(reasons, wording);
      forall code ensures Reports(kept, code) <==> Objection(code, policy, c, resource) {
        ReportsExactly(c, p, policy, resource, code);
        UniqueReportsTheSame(reasons, wording, code);
      }
    }
  }

  method CollectReasons(c: Context, p: Permission, policy: Policy, resource: Option<Resource>)
    returns (reasons: seq<Reason>)
    ensures reasons == Collect(c, p, policy, resource)
  {
    var base := BaseChecks(c, p, policy, resource);
    var checks := base;
    if policy.consent.Some? { checks := checks + ConsentChecks(c, p, policy.consent.value); }
    ghost var consent := base + ConsentGroup(c, p, policy);
    assert checks == consent;
    if policy.vault.Some? { checks := checks + VaultChecks(c, p, policy.vault.value); }
    ghost var vault := consent + VaultGroup(c, p, policy);
    assert checks == vault;
    if policy.provider.Some? { checks := checks + ProviderChecks(c, p, policy.provider.value); }
    ghost var provider := vault + ProviderGroup(c, p, policy);
    assert checks == provider;
    if policy.session.Some? { checks := checks + SessionChecks(c, p, policy.session.value); }
    ghost var session := provider + SessionGroup(c, p, policy);
    assert checks == session;
    if policy.stepUp { checks := checks + StepUpChecks(c, p, resource); }
    assert checks == session + StepUpGroup(c, p, policy, resource);
    reasons := Raised(checks);
  }
}
