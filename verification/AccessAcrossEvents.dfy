/** What lifecycle events do to effective access. */
module AccessAcrossEvents {
  import opened Sequences
  import opened Tuples
  import opened Sync
  import opened RelationshipModel

  lemma OneOperation(tuples: set<Tuple>, a: Operation)
    ensures CleanRun(tuples, [a]) == Effect(tuples, a)
  {
    assert [a][..0] == [];
  }

  lemma TwoOperations(tuples: set<Tuple>, a: Operation, b: Operation)
    ensures CleanRun(tuples, [a, b]) == Effect(Effect(tuples, a), b)
  {
    assert [a, b][..1] == [a];
    OneOperation(tuples, a);
  }

  lemma ThreeOperations(tuples: set<Tuple>, a: Operation, b: Operation, c: Operation)
    ensures CleanRun(tuples, [a, b, c]) == Effect(Effect(Effect(tuples, a), b), c)
  {
    assert [a, b, c][..2] == [a, b];
    TwoOperations(tuples, a, b);
  }

  /** Stepwise, without errors, a member being promoted is an effective member after every single operation. */
  lemma PromotedStaysMember(tuples: set<Tuple>, e: Event, i: nat)
    requires e.eventType == UserOrgPromoted && i <= |MapEvent(e)|
    requires Effective(tuples, e.subject, Member, e.target)
    ensures Effective(CleanRun(tuples, MapEvent(e)[..i]), e.subject, Member, e.target)
  {
    var ops := MapEvent(e);
    EffectiveMember(tuples, e.subject, e.target);
    EffectiveMember(CleanRun(tuples, ops[..i]), e.subject, e.target);
    if i == 1 {
      assert ops[..1] == [ops[0]];
      OneOperation(tuples, ops[0]);
    } else if i == 2 {
      assert ops[..2] == [ops[0], ops[1]];
      TwoOperations(tuples, ops[0], ops[1]);
    }
  }

  /** With errors: the promoted member is still a member afterwards exactly when the admin tuple got written or was
      there already, or the member tuple survived because its deletion did not take effect. */
  lemma PromotionUnderFaults(tuples: set<Tuple>, e: Event, faults: Faults)
    requires e.eventType == UserOrgPromoted && Tuple(e.subject, Member, e.target) in tuples
             && e.target.kind == Organization
    ensures Effective(Run(tuples, MapEvent(e), faults), e.subject, Member, e.target) <==>
            || !faults(0).FailsBefore?
            || Tuple(e.subject, Admin, e.target) in tuples
            || faults(1).FailsBefore?
  {
    var ops := MapEvent(e);
    var first := ops[..1];
    assert first == [ops[0]] && first[..0] == [];
    assert Run(tuples, first, faults) == Attempt(Run(tuples, first[..0], faults), ops[0], faults(0));
    EffectiveMember(Run(tuples, ops, faults), e.subject, e.target);
  }

  predicate RemovesFromOrg(e: Event) {
    e.eventType == UserOrgRemoved || e.eventType == AgentOrgRemoved
  }

  predicate RevokesResource(e: Event) {
    e.eventType == UserResourceRevoked || e.eventType == AgentResourceRevoked
  }

  lemma RemovalDeletes(tuples: set<Tuple>, e: Event)
    requires RemovesFromOrg(e)
    ensures CleanRun(tuples, MapEvent(e)) ==
            tuples - {Tuple(e.subject, Member, e.target), Tuple(e.subject, Admin, e.target)}
  {
    TwoOperations(tuples, MapEvent(e)[0], MapEvent(e)[1]);
  }

  lemma RevocationDeletes(tuples: set<Tuple>, e: Event)
    requires RevokesResource(e)
    ensures CleanRun(tuples, MapEvent(e)) ==
            tuples - {Tuple(e.subject, Viewer, e.target), Tuple(e.subject, Editor, e.target),
                      Tuple(e.subject, Owner, e.target)}
  {
    ThreeOperations(tuples, MapEvent(e)[0], MapEvent(e)[1], MapEvent(e)[2]);
  }

  /** After removal from an organization, what view access remains is exactly what direct tuples or other
      organizations of the resource give. */
  lemma AccessAfterOrgRemoval(tuples: set<Tuple>, e: Event, r: Entity)
    requires RemovesFromOrg(e) && r.kind == Resource
    ensures Effective(CleanRun(tuples, MapEvent(e)), e.subject, Viewer, r) <==>
            || (HoldsDirectly(tuples, e.subject, r))
            || (exists g :: g != e.target && Tuple(g, Org, r) in tuples && HoldsMember(tuples, e.subject, g))
    ensures !Effective(CleanRun(tuples, MapEvent(e)), e.subject, Member, e.target)
  {
    var after := CleanRun(tuples, MapEvent(e));
    RemovalDeletes(tuples, e);
    EffectiveViewer(after, e.subject, r);
    EffectiveMember(after, e.subject, e.target);
    forall g | g != e.target ensures HoldsMember(after, e.subject, g) <==> HoldsMember(tuples, e.subject, g) {
    }
    assert !HoldsMember(after, e.subject, e.target);
    assert forall g :: Tuple(g, Org, r) in after <==> Tuple(g, Org, r) in tuples;
  }

  /** After a resource revocation, what view access remains is exactly what organizations of the resource give;
      access to other resources is untouched. */
  lemma AccessAfterResourceRevocation(tuples: set<Tuple>, e: Event, r: Entity)
    requires RevokesResource(e) && r.kind == Resource
    ensures Effective(CleanRun(tuples, MapEvent(e)), e.subject, Viewer, r) <==>
            || (r != e.target && HoldsDirectly(tuples, e.subject, r))
            || (exists g :: Tuple(g, Org, r) in tuples && HoldsMember(tuples, e.subject, g))
    ensures r != e.target ==>
            (Effective(CleanRun(tuples, MapEvent(e)), e.subject, Viewer, r) <==>
             Effective(tuples, e.subject, Viewer, r))
  {
    var after := CleanRun(tuples, MapEvent(e));
    RevocationDeletes(tuples, e);
    EffectiveViewer(after, e.subject, r);
    EffectiveViewer(tuples, e.subject, r);
    forall g ensures HoldsMember(after, e.subject, g) <==> HoldsMember(tuples, e.subject, g) {
    }
    assert forall g :: Tuple(g, Org, r) in after <==> Tuple(g, Org, r) in tuples;
  }

  // ----- what one event gives and another takes away -----

  predicate GrantsResource(e: Event) {
    e.eventType == UserResourceGranted || e.eventType == AgentResourceGranted
  }

  /** The event type that takes back what one of the given type gave. */
  function UndoOf(eventType: EventType): Option<EventType> {
    match eventType
    case UserOrgAdded => Some(UserOrgRemoved)
    case AgentOrgAssigned => Some(AgentOrgRemoved)
    case UserResourceGranted => Some(UserResourceRevoked)
    case AgentResourceGranted => Some(AgentResourceRevoked)
    case AgentActionAssigned => Some(AgentActionUnassigned)
    case UserActionDelegated => Some(UserActionUndelegated)
    case _ => None
  }

  /** The level an event of a resource grant gives is one that a revocation takes away. */
  predicate Revocable(e: Event) {
    GrantsResource(e) ==> OrElse(e.relation, Viewer) in {Viewer, Editor, Owner}
  }

  /** An event and the event that takes it back come to the second alone exactly when the level given is viewer, editor
      or owner, or was there before and is not taken away: any other level a grant names survives its revocation. */
  lemma UndoneExactly(tuples: set<Tuple>, e: Event, f: Event)
    requires UndoOf(e.eventType) == Some(f.eventType) && f.subject == e.subject && f.target == e.target
    ensures |MapEvent(e)| == 1
    ensures var given := MapEvent(e)[0].tuple; var after := CleanRun(CleanRun(tuples, MapEvent(e)), MapEvent(f));
            && (given !in after <==> Revocable(e))
            && (after == CleanRun(tuples, MapEvent(f)) <==> Revocable(e) || given in tuples)
  {
    var given, undo := MapEvent(e)[0].tuple, MapEvent(f);
    var between := CleanRun(tuples, MapEvent(e));
    OneOperation(tuples, MapEvent(e)[0]);
    if RevokesResource(f) {
      RevocationDeletes(tuples, f);
      RevocationDeletes(between, f);
    } else if RemovesFromOrg(f) {
      RemovalDeletes(tuples, f);
      RemovalDeletes(between, f);
    } else {
      OneOperation(tuples, undo[0]);
      OneOperation(between, undo[0]);
    }
  }

  /** What an event gives takes effect: membership of the organization, view access to the resource. */
  lemma GivenAccessHolds(tuples: set<Tuple>, e: Event)
    ensures e.eventType in {UserOrgAdded, AgentOrgAssigned} && e.target.kind == Organization ==>
              Effective(CleanRun(tuples, MapEvent(e)), e.subject, Member, e.target)
    ensures GrantsResource(e) && Revocable(e) && e.target.kind == Resource ==>
              Effective(CleanRun(tuples, MapEvent(e)), e.subject, Viewer, e.target)
  {
    var after := CleanRun(tuples, MapEvent(e));
    if |MapEvent(e)| == 1 { OneOperation(tuples, MapEvent(e)[0]); }
    EffectiveMember(after, e.subject, e.target);
    if e.target.kind == Resource { EffectiveViewer(after, e.subject, e.target); }
  }

  /** The failing case of a promotion: the admin tuple is not written, the member tuple is deleted, and nothing is
      left. */
  lemma PromotionCanLoseTheMember(userId: string, orgId: string, message: string)
    ensures var e := Event(UserOrgPromoted, Entity(User, userId), Entity(Organization, orgId), None);
            var member := Tuple(e.subject, Member, e.target);
            var faults: Faults := i => if i == 0 then FailsBefore(message) else NoFault;
            && Admitted(member) && Effective({member}, e.subject, Member, e.target)
            && Run({member}, MapEvent(e), faults) == {}
            && !Effective(Run({member}, MapEvent(e), faults), e.subject, Member, e.target)
  {
    var e := Event(UserOrgPromoted, Entity(User, userId), Entity(Organization, orgId), None);
    var member := Tuple(e.subject, Member, e.target);
    var faults: Faults := i => if i == 0 then FailsBefore(message) else NoFault;
    var ops := MapEvent(e);
    assert ops[..1] == [ops[0]] && ops[..1][..0] == [];
    assert Run({member}, ops[..1], faults) == Attempt(Run({member}, ops[..1][..0], faults), ops[0], faults(0));
    EffectiveMember({member}, e.subject, e.target);
    EffectiveMember({}, e.subject, e.target);
  }

  /** On a resource, a level that would survive its revocation is one the deployed model does not admit. */
  lemma UnrevocableIsNotAdmitted(e: Event)
    requires GrantsResource(e) && e.target.kind == Resource && e.subject.kind in {User, Agent}
    ensures Admitted(MapEvent(e)[0].tuple) ==> Revocable(e)
  {
  }

  /** The failing case of a grant: nothing ties a resource event to a resource, so one that names an organization and
      the level member gives an admitted tuple, and membership, which its revocation leaves. */
  lemma OrganizationGrantSurvivesItsRevocation(userId: string, orgId: string)
    ensures var e := Event(UserResourceGranted, Entity(User, userId), Entity(Organization, orgId), Some(Member));
            var f := e.(eventType := UserResourceRevoked);
            var after := CleanRun(CleanRun({}, MapEvent(e)), MapEvent(f));
            Admitted(MapEvent(e)[0].tuple) && Effective(after, e.subject, Member, e.target)
  {
    var e := Event(UserResourceGranted, Entity(User, userId), Entity(Organization, orgId), Some(Member));
    var f := e.(eventType := UserResourceRevoked);
    UndoneExactly({}, e, f);
    EffectiveMember(CleanRun(CleanRun({}, MapEvent(e)), MapEvent(f)), e.subject, e.target);
  }

  // ----- what every event leaves -----

  /** Of the tuples of its subject and object, an event leaves this relation in the store (true), or out of it (false),
      or as it was (none). */
  function Leaves(e: Event, r: Relation): Option<bool> {
    match e.eventType
    case UserOrgAdded | AgentOrgAssigned => if r == Member then Some(true) else None
    case UserOrgRemoved | AgentOrgRemoved => if r == Member || r == Admin then Some(false) else None
    case UserOrgPromoted => if r == Admin then Some(true) else if r == Member then Some(false) else None
    case UserOrgDemoted => if r == Member then Some(true) else if r == Admin then Some(false) else None
    case UserResourceGranted | AgentResourceGranted =>
      if Some(r) == e.relation || (e.relation == None && r == Viewer) then Some(true) else None
    case UserResourceRevoked | AgentResourceRevoked =>
      if r == Owner || r == Editor || r == Viewer then Some(false) else None
    case AgentActionAssigned => if r == Executor then Some(true) else None
    case AgentActionUnassigned => if r == Executor then Some(false) else None
    case UserActionDelegated => if r == Delegator then Some(true) else None
    case UserActionUndelegated => if r == Delegator then Some(false) else None
  }

  /** Which of the event's operations, counted from 0, touches the relation: promotions and demotions turn to the admin
      tuple first, removals to the member tuple, revocations to viewer, editor and owner in turn. */
  function Turn(e: Event, r: Relation): nat {
    if e.eventType in {UserOrgPromoted, UserOrgDemoted} then (if r == Admin then 0 else 1)
    else if e.eventType in {UserOrgRemoved, AgentOrgRemoved} then (if r == Admin then 1 else 0)
    else if e.eventType in {UserResourceRevoked, AgentResourceRevoked} then
      (if r == Viewer then 0 else if r == Editor then 1 else 2)
    else 0
  }

  /** What the first n operations of an event leave: every relation whose turn has come is as the event leaves it, and
      every other tuple as it was. */
  lemma EventLeavesInTurn(tuples: set<Tuple>, e: Event, n: nat, t: Tuple)
    requires n <= |MapEvent(e)|
    ensures t in CleanRun(tuples, MapEvent(e)[..n]) <==>
            if t.user == e.subject && t.target == e.target && Leaves(e, t.relation).Some? && Turn(e, t.relation) < n
            then Leaves(e, t.relation).value else t in tuples
  {
    var ops := MapEvent(e);
    if n == 1 {
      assert ops[..1] == [ops[0]];
      OneOperation(tuples, ops[0]);
    } else if n == 2 {
      assert ops[..2] == [ops[0], ops[1]];
      TwoOperations(tuples, ops[0], ops[1]);
    } else if n == 3 {
      assert ops[..3] == [ops[0], ops[1], ops[2]];
      ThreeOperations(tuples, ops[0], ops[1], ops[2]);
    }
  }

  /** Without errors every event leaves exactly that, and no other tuple is touched. */
  lemma EventLeavesExactly(tuples: set<Tuple>, e: Event, t: Tuple)
    ensures t in CleanRun(tuples, MapEvent(e)) <==>
            if t.user == e.subject && t.target == e.target && Leaves(e, t.relation).Some?
            then Leaves(e, t.relation).value else t in tuples
  {
    var ops := MapEvent(e);
    assert ops[..|ops|] == ops;
    EventLeavesInTurn(tuples, e, |ops|, t);
  }

  /** A demoted admin is a member and no admin any more. */
  lemma DemotedIsMemberOnly(tuples: set<Tuple>, e: Event)
    requires e.eventType == UserOrgDemoted && e.target.kind == Organization
    ensures Effective(CleanRun(tuples, MapEvent(e)), e.subject, Member, e.target)
    ensures !Effective(CleanRun(tuples, MapEvent(e)), e.subject, Admin, e.target)
  {
    EventLeavesExactly(tuples, e, Tuple(e.subject, Member, e.target));
    EventLeavesExactly(tuples, e, Tuple(e.subject, Admin, e.target));
    EffectiveMember(CleanRun(tuples, MapEvent(e)), e.subject, e.target);
  }

  /** A promoted member is an admin, and so still a member. */
  lemma PromotedIsAdmin(tuples: set<Tuple>, e: Event)
    requires e.eventType == UserOrgPromoted && e.target.kind == Organization
    ensures Effective(CleanRun(tuples, MapEvent(e)), e.subject, Admin, e.target)
    ensures Effective(CleanRun(tuples, MapEvent(e)), e.subject, Member, e.target)
  {
    EventLeavesExactly(tuples, e, Tuple(e.subject, Admin, e.target));
    EffectiveMember(CleanRun(tuples, MapEvent(e)), e.subject, e.target);
  }

  /** Unlike a promotion, a demotion has a moment, between its two operations, in which the subject is not a member
      unless it held a member tuple beside the admin tuple. */
  lemma DemotionHasAGap(tuples: set<Tuple>, e: Event)
    requires e.eventType == UserOrgDemoted && e.target.kind == Organization
    ensures Effective(CleanRun(tuples, MapEvent(e)[..1]), e.subject, Member, e.target) <==>
            Tuple(e.subject, Member, e.target) in tuples
  {
    var ops := MapEvent(e);
    assert ops[..1] == [ops[0]];
    OneOperation(tuples, ops[0]);
    EffectiveMember(CleanRun(tuples, ops[..1]), e.subject, e.target);
  }
}
