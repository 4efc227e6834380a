/** What the access view and the explanation come to under the deployed relationship model, the store holding still. */
module AccessViewMeaning {
  import opened Sequences
  import opened Tuples
  import opened RelationshipModel
  import opened ResourceAccess
  import opened DecisionTrace

  /** `read` answers with the tuples of the store. */
  ghost predicate Enumerates(read: Reader, store: set<Tuple>) {
    forall o, t :: t in read(o) <==> t in store && t.target == o
  }

  /** `check` answers what the model grants. */
  ghost predicate Decides(check: Tuple -> bool, store: set<Tuple>) {
    forall t: Tuple :: check(t) <==> Effective(store, t.user, t.relation, t.target)
  }

  ghost predicate MemberThroughOrg(store: set<Tuple>, u: Entity, resource: Entity) {
    exists g :: Tuple(g, Org, resource) in store && HoldsMember(store, u, g)
  }

  lemma HoldsTupleInStore(read: Reader, store: set<Tuple>, user: Entity, relation: Relation, o: Entity)
    requires Enumerates(read, store)
    ensures HoldsTuple(read(o), user, relation) <==> Tuple(user, relation, o) in store
  {
    assert Tuple(user, relation, o) in read(o) <==> Tuple(user, relation, o) in store;
  }

  lemma HasDirectInStore(read: Reader, store: set<Tuple>, id: string, o: Entity)
    requires Enumerates(read, store) && Restricted(store)
    ensures o.kind == Resource ==> (HasDirect(read(o), id) <==> HoldsDirectly(store, Entity(User, id), o))
    ensures o.kind == Organization ==> (HasDirect(read(o), id) <==> HoldsMember(store, Entity(User, id), o))
  {
    var u := Entity(User, id);
    forall relation ensures HoldsTuple(read(o), u, relation) <==> Tuple(u, relation, o) in store {
      HoldsTupleInStore(read, store, u, relation, o);
    }
    if HasDirect(read(o), id) {
      var t :| t in read(o) && t.user == u;
      assert t in store && t == Tuple(u, t.relation, o);
    }
    assert forall relation :: HoldsTuple(read(o), u, relation) ==> HasDirect(read(o), id);
  }

  lemma ThroughOrgInStore(read: Reader, store: set<Tuple>, id: string, o: Entity)
    requires Enumerates(read, store) && Restricted(store) && o.kind == Resource
    ensures ThroughOrg(read, read(o), id) <==> MemberThroughOrg(store, Entity(User, id), o)
  {
    if ThroughOrg(read, read(o), id) {
      var t :| t in read(o) && t.user.kind == Organization && HasDirect(read(t.user), id);
      HasDirectInStore(read, store, id, t.user);
      assert t == Tuple(t.user, Org, o) && t in store;
    }
    if MemberThroughOrg(store, Entity(User, id), o) {
      var g :| Tuple(g, Org, o) in store && HoldsMember(store, Entity(User, id), g);
      HasDirectInStore(read, store, id, g);
      assert Tuple(g, Org, o) in read(o);
    }
  }

  /** On a store that keeps the type restrictions, the users the view lists are exactly the users with view access. */
  lemma ViewListsExactlyTheViewers(read: Reader, store: set<Tuple>, id: string, o: Entity)
    requires Enumerates(read, store) && Restricted(store) && o.kind == Resource
    ensures Listed(Entries(read(o), User) + Inherited(read, read(o)), id) <==>
            Effective(store, Entity(User, id), Viewer, o)
  {
    ListedExactly(read, read(o), id);
    HasDirectInStore(read, store, id, o);
    ThroughOrgInStore(read, store, id, o);
    EffectiveViewer(store, Entity(User, id), o);
  }

  ghost predicate Explained(check: Tuple -> bool, read: Reader, entity: Entity, o: Entity) {
    exists level :: level in LEVELS && Explains(check, read, entity, o, level)
  }

  /** On such a store, a user with view access is explained exactly if the access does not come from an owner tuple
      alone: owners are told they have none. */
  lemma OnlyOwnersGoUnexplained(check: Tuple -> bool, read: Reader, store: set<Tuple>, id: string, o: Entity)
    requires Enumerates(read, store) && Restricted(store) && Decides(check, store) && o.kind == Resource
    ensures var u := Entity(User, id);
            Explained(check, read, u, o) <==>
            Tuple(u, Viewer, o) in store || Tuple(u, Editor, o) in store || MemberThroughOrg(store, u, o)
    ensures Explained(check, read, Entity(User, id), o) ==> Effective(store, Entity(User, id), Viewer, o)
    ensures Effective(store, Entity(User, id), Viewer, o) && !Explained(check, read, Entity(User, id), o) ==>
              Tuple(Entity(User, id), Owner, o) in store
  {
    var u := Entity(User, id);
    EffectiveViewer(store, u, o);
    EffectiveEditor(store, u, o);
    ThroughOrgInStore(read, store, id, o);
    HoldsTupleInStore(read, store, u, Viewer, o);
    HoldsTupleInStore(read, store, u, Editor, o);
    HoldsTupleInStore(read, store, u, Operator, o);
    OperatorIsUndefined(store, u, o);
    assert LEVELS[0] == Viewer && LEVELS[1] == Editor && LEVELS[2] == Operator;
    assert check(Tuple(u, Viewer, o)) <==> Effective(store, u, Viewer, o);
    assert check(Tuple(u, Editor, o)) <==> Effective(store, u, Editor, o);
    assert check(Tuple(u, Operator, o)) <==> Effective(store, u, Operator, o);
    assert Viewer in LEVELS && Editor in LEVELS;
  }

  lemma OperatorIsUndefined(store: set<Tuple>, u: Entity, o: Entity)
    requires o.kind == Resource
    ensures !Effective(store, u, Operator, o)
  {
    forall depth ensures !Check(store, u, Operator, o, depth) {
    }
  }

  /** Without the restrictions (an organization can be granted viewer by the service), an inherited entry is view access
      exactly when the user also belongs to an organization that holds an `org` tuple on the resource. */
  lemma InheritedEntryIsRealExactly(read: Reader, store: set<Tuple>, o: Entity, e: Entry)
    requires Enumerates(read, store) && o.kind == Resource && e in Inherited(read, read(o))
    ensures Effective(store, Entity(User, e.id), Viewer, o) <==> MemberThroughOrg(store, Entity(User, e.id), o)
  {
    var u := Entity(User, e.id);
    InheritedEntriesAreSound(read, read(o), e);
    EffectiveViewer(store, u, o);
    forall relation ensures Tuple(u, relation, o) !in store {
      if Tuple(u, relation, o) in store { HoldsTupleInStore(read, store, u, relation, o); }
    }
  }

  /** The trace engine over such a store: a request to view is allowed exactly when policies let it through and the
      subject holds a tuple on the resource or belongs to one of its organizations. The first check already sees
      memberships, which is why the search for an inherited path has nothing left to find. */
  lemma ViewDecisionUnderModel(r: Request, effect: PolicyEffect, policy: Option<string>, answers: Answers,
                               view: Tuple -> Answer, store: set<Tuple>, tuples: Option<seq<Tuple>>)
    requires r.action == Viewer && r.target.kind == Resource
    requires Stable(answers, view)
    requires forall t: Tuple :: view(t) == Yes <==> Effective(store, t.user, t.relation, t.target)
    ensures Explain(r, effect, policy, answers, tuples).trace.decision == Allowed <==>
            && effect in {NoPolicy, PolicyAllows}
            && (HoldsDirectly(store, FgaSubject(r.subject), r.target)
                || MemberThroughOrg(store, FgaSubject(r.subject), r.target))
  {
    DecisionForStableStore(r, effect, policy, answers, view, tuples);
    EffectiveViewer(store, FgaSubject(r.subject), r.target);
    assert view(OwnTuple(r)) == Yes <==> Effective(store, FgaSubject(r.subject), Viewer, r.target);
  }

  // ----- at concrete stores -----

  /** On a store that keeps the type restrictions every inherited entry is view access. */
  lemma InheritedEntryIsRealWhenRestricted(read: Reader, store: set<Tuple>, o: Entity, e: Entry)
    requires Enumerates(read, store) && Restricted(store) && o.kind == Resource && e in Inherited(read, read(o))
    ensures Effective(store, Entity(User, e.id), Viewer, o)
  {
    ViewListsExactlyTheViewers(read, store, e.id, o);
    assert e in Entries(read(o), User) + Inherited(read, read(o));
  }

  function ReaderOf(tuples: seq<Tuple>): Reader {
    (o: Entity) => Filter(tuples, (t: Tuple) => t.target == o)
  }

  lemma ReaderEnumerates(tuples: seq<Tuple>, store: set<Tuple>)
    requires forall t :: t in tuples <==> t in store
    ensures Enumerates(ReaderOf(tuples), store)
  {
  }

  /** An owner, on a store that keeps the restrictions: effective viewer and listed, but told there is no access. */
  lemma OwnerIsToldNothing(check: Tuple -> bool, id: string, resourceId: string)
    requires Decides(check, {Tuple(Entity(User, id), Owner, Entity(Resource, resourceId))})
    ensures var u, o := Entity(User, id), Entity(Resource, resourceId);
            var store, read := {Tuple(u, Owner, o)}, ReaderOf([Tuple(u, Owner, o)]);
            && Restricted(store) && Enumerates(read, store)
            && Effective(store, u, Viewer, o) && !Explained(check, read, u, o)
  {
    var u, o := Entity(User, id), Entity(Resource, resourceId);
    var store, read := {Tuple(u, Owner, o)}, ReaderOf([Tuple(u, Owner, o)]);
    ReaderEnumerates([Tuple(u, Owner, o)], store);
    EffectiveViewer(store, u, o);
    OnlyOwnersGoUnexplained(check, read, store, id, o);
  }

  /** Off the restrictions: an organization that holds viewer shows its member as inheriting what the model does not
      give. The deployed model does not admit the organization's tuple. */
  lemma UnadmittedViewerMisleads(id: string, orgId: string, resourceId: string)
    ensures var u, g, o := Entity(User, id), Entity(Organization, orgId), Entity(Resource, resourceId);
            var tuples := [Tuple(g, Viewer, o), Tuple(u, Member, g)];
            var store, read := {Tuple(g, Viewer, o), Tuple(u, Member, g)}, ReaderOf(tuples);
            && Enumerates(read, store) && !Admitted(Tuple(g, Viewer, o))
            && Listed(Entries(read(o), User) + Inherited(read, read(o)), id) && !Effective(store, u, Viewer, o)
  {
    var u, g, o := Entity(User, id), Entity(Organization, orgId), Entity(Resource, resourceId);
    var tuples := [Tuple(g, Viewer, o), Tuple(u, Member, g)];
    var store, read := {Tuple(g, Viewer, o), Tuple(u, Member, g)}, ReaderOf(tuples);
    assert tuples[0] in tuples && tuples[1] in tuples;
    ReaderEnumerates(tuples, store);
    assert Tuple(g, Viewer, o) in read(o) && Tuple(u, Member, g) in read(g);
    ListedExactly(read, read(o), id);
    EffectiveViewer(store, u, o);
  }
}
