/** The deployed relationship model: what a set of tuples grants, by the rewrites of each relation. */
module RelationshipModel {
  import opened Sequences
  import opened Tuples

  datatype Rewrite =
    | This
    | ComputedUserset(relation: Relation)
    | TupleToUserset(tupleset: Relation, computed: Relation)
    | Union(children: seq<Rewrite>)
    | Intersection(children: seq<Rewrite>)

  /** The relations of `transformDslToJson`, per type. */
  function Definition(kind: Kind, relation: Relation): Option<Rewrite> {
    match (kind, relation)
    case (Organization, Admin) => Some(This)
    case (Organization, Member) => Some(Union([This, ComputedUserset(Admin)]))
    case (Resource, Org) => Some(This)
    case (Resource, Owner) => Some(This)
    case (Resource, Editor) => Some(Union([This, ComputedUserset(Owner), TupleToUserset(Org, Admin)]))
    case (Resource, Viewer) => Some(Union([This, ComputedUserset(Editor), TupleToUserset(Org, Member)]))
    case (AgentAction, Org) => Some(This)
    case (AgentAction, Executor) => Some(This)
    case (AgentAction, Delegator) => Some(This)
    case (AgentAction, CanExecute) => Some(Intersection([ComputedUserset(Executor), ComputedUserset(Delegator)]))
    case (AgentAction, CanPreview) => Some(Union([This, ComputedUserset(CanExecute), TupleToUserset(Org, Member)]))
    case _ => None
  }

  /** `u` has `relation` on `o`, by a derivation of at most `depth` relations. */
  ghost predicate Check(tuples: set<Tuple>, u: Entity, relation: Relation, o: Entity, depth: nat)
    decreases depth, 0
  {
    && depth > 0
    && Definition(o.kind, relation).Some?
    && Grants(tuples, u, relation, o, Definition(o.kind, relation).value, depth - 1)
  }

  ghost predicate Grants(tuples: set<Tuple>, u: Entity, relation: Relation, o: Entity, rewrite: Rewrite, depth: nat)
    decreases depth, 1, rewrite
  {
    match rewrite
    case This => Tuple(u, relation, o) in tuples
    case ComputedUserset(other) => Check(tuples, u, other, o, depth)
    case TupleToUserset(tupleset, computed) =>
      exists g :: Tuple(g, tupleset, o) in tuples && Check(tuples, u, computed, g, depth)
    case Union(children) =>
      exists i :: 0 <= i < |children| && Grants(tuples, u, relation, o, children[i], depth)
    case Intersection(children) =>
      forall i :: 0 <= i < |children| ==> Grants(tuples, u, relation, o, children[i], depth)
  }

  /** The tuples grant `u` the relation on `o`, by a derivation of any depth. */
  ghost predicate Effective(tuples: set<Tuple>, u: Entity, relation: Relation, o: Entity) {
    exists depth :: Check(tuples, u, relation, o, depth)
  }

  // ----- access is monotone -----

  lemma {:induction false} CheckIsMonotone(a: set<Tuple>, b: set<Tuple>, u: Entity, relation: Relation, o: Entity,
                                           depth: nat)
    requires a <= b && Check(a, u, relation, o, depth)
    ensures Check(b, u, relation, o, depth)
    decreases depth, 0
  {
    GrantsIsMonotone(a, b, u, relation, o, Definition(o.kind, relation).value, depth - 1);
  }

  lemma {:induction false} GrantsIsMonotone(a: set<Tuple>, b: set<Tuple>, u: Entity, relation: Relation, o: Entity,
                                          rewrite: Rewrite, depth: nat)
    requires a <= b && Grants(a, u, relation, o, rewrite, depth)
    ensures Grants(b, u, relation, o, rewrite, depth)
    decreases depth, 1, rewrite
  {
    match rewrite
    case This =>
    case ComputedUserset(other) => CheckIsMonotone(a, b, u, other, o, depth);
    case TupleToUserset(tupleset, computed) =>
      var g :| Tuple(g, tupleset, o) in a && Check(a, u, computed, g, depth);
      CheckIsMonotone(a, b, u, computed, g, depth);
    case Union(children) =>
      var i :| 0 <= i < |children| && Grants(a, u, relation, o, children[i], depth);
      GrantsIsMonotone(a, b, u, relation, o, children[i], depth);
    case Intersection(children) =>
      forall i | 0 <= i < |children| ensures Grants(b, u, relation, o, children[i], depth) {
        GrantsIsMonotone(a, b, u, relation, o, children[i], depth);
      }
  }

  /** More tuples never take access away. */
  lemma AccessIsMonotone(a: set<Tuple>, b: set<Tuple>, u: Entity, relation: Relation, o: Entity)
    requires a <= b && Effective(a, u, relation, o)
    ensures Effective(b, u, relation, o)
  {
    var depth: nat :| Check(a, u, relation, o, depth);
    CheckIsMonotone(a, b, u, relation, o, depth);
  }

  // ----- type restrictions -----

  /** The type restrictions of the model on resources and organizations admit the tuple. */
  ghost predicate Admitted(t: Tuple) {
    && (t.target.kind == Resource ==>
          || (t.relation == Org && t.user.kind == Organization)
          || (t.relation == Owner && t.user.kind == User)
          || (t.relation in {Editor, Viewer} && t.user.kind in {User, Agent}))
    && (t.target.kind == Organization ==> t.relation in {Admin, Member} && t.user.kind in {User, Agent})
  }

  /** What each kind of subject may hold there: users all levels, agents all but owner, organizations only `org` on a
      resource, and nobody else anything. */
  lemma AdmittedByHolder(t: Tuple)
    requires t.target.kind in {Resource, Organization}
    ensures Admitted(t) <==>
            match t.user.kind
            case User => t.relation in (if t.target.kind == Resource then {Owner, Editor, Viewer} else {Admin, Member})
            case Agent => t.relation in (if t.target.kind == Resource then {Editor, Viewer} else {Admin, Member})
            case Organization => t.target.kind == Resource && t.relation == Org
            case _ => false
  {
  }

  ghost predicate Restricted(tuples: set<Tuple>) {
    forall t :: t in tuples ==> Admitted(t)
  }

  // ----- what each relation comes to -----

  lemma DirectRelation(tuples: set<Tuple>, u: Entity, relation: Relation, o: Entity, depth: nat)
    requires Definition(o.kind, relation) == Some(This)
    ensures Check(tuples, u, relation, o, depth) <==> depth > 0 && Tuple(u, relation, o) in tuples
  {
  }

  /** `this or computed` and `this or computed or via from tupleset`, one level unfolded. */
  lemma UnionOfTwo(tuples: set<Tuple>, u: Entity, relation: Relation, o: Entity, first: Relation, depth: nat)
    requires Definition(o.kind, relation) == Some(Union([This, ComputedUserset(first)])) && depth > 0
    ensures Check(tuples, u, relation, o, depth) <==>
            Tuple(u, relation, o) in tuples || Check(tuples, u, first, o, depth - 1)
  {
    var children := [This, ComputedUserset(first)];
    assert Grants(tuples, u, relation, o, children[0], depth - 1) <==> Tuple(u, relation, o) in tuples;
    assert Grants(tuples, u, relation, o, children[1], depth - 1) <==> Check(tuples, u, first, o, depth - 1);
  }

  lemma UnionOfThree(tuples: set<Tuple>, u: Entity, relation: Relation, o: Entity, first: Relation, via: Relation,
                     depth: nat)
    requires Definition(o.kind, relation) == Some(Union([This, ComputedUserset(first), TupleToUserset(Org, via)]))
             && depth > 0
    ensures Check(tuples, u, relation, o, depth) <==>
            || Tuple(u, relation, o) in tuples
            || Check(tuples, u, first, o, depth - 1)
            || (exists g :: Tuple(g, Org, o) in tuples && Check(tuples, u, via, g, depth - 1))
  {
    var children := [This, ComputedUserset(first), TupleToUserset(Org, via)];
    assert Grants(tuples, u, relation, o, children[0], depth - 1) <==> Tuple(u, relation, o) in tuples;
    assert Grants(tuples, u, relation, o, children[1], depth - 1) <==> Check(tuples, u, first, o, depth - 1);
    assert Grants(tuples, u, relation, o, children[2], depth - 1) <==>
           exists g :: Tuple(g, Org, o) in tuples && Check(tuples, u, via, g, depth - 1);
  }

  ghost predicate HoldsMember(tuples: set<Tuple>, u: Entity, g: Entity) {
    g.kind == Organization && (Tuple(u, Member, g) in tuples || Tuple(u, Admin, g) in tuples)
  }

  ghost predicate HoldsAdmin(tuples: set<Tuple>, u: Entity, g: Entity) {
    g.kind == Organization && Tuple(u, Admin, g) in tuples
  }

  /** `u` holds a tuple giving at least view access on `o` itself. */
  ghost predicate HoldsDirectly(tuples: set<Tuple>, u: Entity, o: Entity) {
    Tuple(u, Viewer, o) in tuples || Tuple(u, Editor, o) in tuples || Tuple(u, Owner, o) in tuples
  }

  lemma AdminAt(tuples: set<Tuple>, u: Entity, g: Entity, depth: nat)
    ensures Check(tuples, u, Admin, g, depth) <==> depth > 0 && HoldsAdmin(tuples, u, g)
  {
    if g.kind == Organization { DirectRelation(tuples, u, Admin, g, depth); }
  }

  lemma MemberAt(tuples: set<Tuple>, u: Entity, g: Entity, depth: nat)
    ensures Check(tuples, u, Member, g, depth) ==> HoldsMember(tuples, u, g)
    ensures depth > 1 && HoldsMember(tuples, u, g) ==> Check(tuples, u, Member, g, depth)
  {
    if g.kind == Organization && depth > 0 {
      UnionOfTwo(tuples, u, Member, g, Admin, depth);
      AdminAt(tuples, u, g, depth - 1);
    }
  }

  lemma EditorAt(tuples: set<Tuple>, u: Entity, o: Entity, depth: nat)
    requires o.kind == Resource
    ensures var editor := Tuple(u, Editor, o) in tuples || Tuple(u, Owner, o) in tuples
                          || (exists g :: Tuple(g, Org, o) in tuples && HoldsAdmin(tuples, u, g));
            (Check(tuples, u, Editor, o, depth) ==> editor)
            && (depth > 1 && editor ==> Check(tuples, u, Editor, o, depth))
  {
    if depth > 0 {
      UnionOfThree(tuples, u, Editor, o, Owner, Admin, depth);
      DirectRelation(tuples, u, Owner, o, depth - 1);
      forall g ensures Check(tuples, u, Admin, g, depth - 1) <==> depth > 1 && HoldsAdmin(tuples, u, g) {
        AdminAt(tuples, u, g, depth - 1);
      }
    }
  }

  lemma ViewerAt(tuples: set<Tuple>, u: Entity, o: Entity, depth: nat)
    requires o.kind == Resource
    ensures var viewer := HoldsDirectly(tuples, u, o)
            || exists g :: Tuple(g, Org, o) in tuples && HoldsMember(tuples, u, g);
            (Check(tuples, u, Viewer, o, depth) ==> viewer)
            && (depth > 2 && viewer ==> Check(tuples, u, Viewer, o, depth))
  {
    if depth > 0 {
      UnionOfThree(tuples, u, Viewer, o, Editor, Member, depth);
      EditorAt(tuples, u, o, depth - 1);
      forall g
        ensures Check(tuples, u, Member, g, depth - 1) ==> HoldsMember(tuples, u, g)
        ensures depth > 2 && HoldsMember(tuples, u, g) ==> Check(tuples, u, Member, g, depth - 1)
      {
        MemberAt(tuples, u, g, depth - 1);
      }
    }
  }

  /** A member is who holds a member or admin tuple; an admin is who holds an admin tuple. */
  lemma EffectiveMember(tuples: set<Tuple>, u: Entity, g: Entity)
    ensures Effective(tuples, u, Member, g) <==> HoldsMember(tuples, u, g)
    ensures Effective(tuples, u, Admin, g) <==> HoldsAdmin(tuples, u, g)
  {
    forall depth ensures Check(tuples, u, Member, g, depth) ==> HoldsMember(tuples, u, g) {
      MemberAt(tuples, u, g, depth);
    }
    forall depth ensures Check(tuples, u, Admin, g, depth) ==> HoldsAdmin(tuples, u, g) {
      AdminAt(tuples, u, g, depth);
    }
    MemberAt(tuples, u, g, 2);
    AdminAt(tuples, u, g, 1);
  }

  /** A viewer is who holds a viewer, editor or owner tuple, or is a member of an organization of the resource. */
  lemma EffectiveViewer(tuples: set<Tuple>, u: Entity, o: Entity)
    requires o.kind == Resource
    ensures Effective(tuples, u, Viewer, o) <==>
            HoldsDirectly(tuples, u, o) || exists g :: Tuple(g, Org, o) in tuples && HoldsMember(tuples, u, g)
  {
    forall depth
      ensures Check(tuples, u, Viewer, o, depth) ==>
              HoldsDirectly(tuples, u, o) || exists g :: Tuple(g, Org, o) in tuples && HoldsMember(tuples, u, g)
    {
      ViewerAt(tuples, u, o, depth);
    }
    ViewerAt(tuples, u, o, 3);
  }

  /** An editor is who holds an editor or owner tuple, or is an admin of an organization of the resource. */
  lemma EffectiveEditor(tuples: set<Tuple>, u: Entity, o: Entity)
    requires o.kind == Resource
    ensures Effective(tuples, u, Editor, o) <==>
            || Tuple(u, Editor, o) in tuples || Tuple(u, Owner, o) in tuples
            || exists g :: Tuple(g, Org, o) in tuples && HoldsAdmin(tuples, u, g)
  {
    forall depth
      ensures Check(tuples, u, Editor, o, depth) ==>
              || Tuple(u, Editor, o) in tuples || Tuple(u, Owner, o) in tuples
              || exists g :: Tuple(g, Org, o) in tuples && HoldsAdmin(tuples, u, g)
    {
      EditorAt(tuples, u, o, depth);
    }
    EditorAt(tuples, u, o, 2);
  }

  /** owner is within editor is within viewer, and admin is within member, for every store. */
  lemma AccessLevelsNest(tuples: set<Tuple>, u: Entity, o: Entity)
    ensures Effective(tuples, u, Owner, o) ==> Effective(tuples, u, Editor, o)
    ensures Effective(tuples, u, Editor, o) ==> Effective(tuples, u, Viewer, o)
    ensures Effective(tuples, u, Admin, o) ==> Effective(tuples, u, Member, o)
  {
    EffectiveMember(tuples, u, o);
    if o.kind == Resource {
      EffectiveEditor(tuples, u, o);
      EffectiveViewer(tuples, u, o);
      forall depth ensures Check(tuples, u, Owner, o, depth) ==> Tuple(u, Owner, o) in tuples {
        DirectRelation(tuples, u, Owner, o, depth);
      }
    }
  }

  /** Relations without a rewrite are held by tuple alone: of a resource its organizations and owners, of an action its
      organizations, executors and delegators. */
  lemma EffectiveByTuple(tuples: set<Tuple>, u: Entity, relation: Relation, o: Entity)
    requires (o.kind == Resource && relation in {Org, Owner})
             || (o.kind == AgentAction && relation in {Org, Executor, Delegator})
    ensures Effective(tuples, u, relation, o) <==> Tuple(u, relation, o) in tuples
  {
    forall depth ensures Check(tuples, u, relation, o, depth) <==> depth > 0 && Tuple(u, relation, o) in tuples {
      DirectRelation(tuples, u, relation, o, depth);
    }
    assert Check(tuples, u, relation, o, 1) <==> Tuple(u, relation, o) in tuples;
  }

  /** Nobody holds a relation that the model does not define for the type. */
  lemma UndefinedIsNeverHeld(tuples: set<Tuple>, u: Entity, relation: Relation, o: Entity)
    requires o.kind !in {Organization, Resource, AgentAction}
             || (o.kind == Organization && relation !in {Admin, Member})
             || (o.kind == Resource && relation !in {Org, Owner, Editor, Viewer})
             || (o.kind == AgentAction && relation !in {Org, Executor, Delegator, CanExecute, CanPreview})
    ensures !Effective(tuples, u, relation, o)
  {
    forall depth ensures !Check(tuples, u, relation, o, depth) {
    }
  }

  lemma CanExecuteAt(tuples: set<Tuple>, u: Entity, o: Entity, depth: nat)
    requires o.kind == AgentAction
    ensures Check(tuples, u, CanExecute, o, depth) <==>
            depth > 1 && Tuple(u, Executor, o) in tuples && Tuple(u, Delegator, o) in tuples
  {
    if depth > 0 {
      var children := [ComputedUserset(Executor), ComputedUserset(Delegator)];
      assert Grants(tuples, u, CanExecute, o, children[0], depth - 1) <==> Check(tuples, u, Executor, o, depth - 1);
      assert Grants(tuples, u, CanExecute, o, children[1], depth - 1) <==> Check(tuples, u, Delegator, o, depth - 1);
      DirectRelation(tuples, u, Executor, o, depth - 1);
      DirectRelation(tuples, u, Delegator, o, depth - 1);
    }
  }

  /** Whoever can execute an action both executes and delegates it, and can preview it. */
  lemma ExecuteImpliesPreview(tuples: set<Tuple>, u: Entity, o: Entity)
    requires Effective(tuples, u, CanExecute, o)
    ensures Tuple(u, Executor, o) in tuples && Tuple(u, Delegator, o) in tuples
    ensures Effective(tuples, u, CanPreview, o)
  {
    var depth: nat :| Check(tuples, u, CanExecute, o, depth);
    CanExecuteAt(tuples, u, o, depth);
    UnionOfThree(tuples, u, CanPreview, o, CanExecute, Member, depth + 1);
  }

  /** Who can execute an action is who holds both the executor and the delegator tuple. */
  lemma EffectiveExecute(tuples: set<Tuple>, u: Entity, o: Entity)
    requires o.kind == AgentAction
    ensures Effective(tuples, u, CanExecute, o) <==> Tuple(u, Executor, o) in tuples && Tuple(u, Delegator, o) in tuples
  {
    forall depth ensures Check(tuples, u, CanExecute, o, depth) <==>
                         depth > 1 && Tuple(u, Executor, o) in tuples && Tuple(u, Delegator, o) in tuples {
      CanExecuteAt(tuples, u, o, depth);
    }
    CanExecuteAt(tuples, u, o, 2);
  }

  lemma CanPreviewAt(tuples: set<Tuple>, u: Entity, o: Entity, depth: nat)
    requires o.kind == AgentAction
    ensures var preview := Tuple(u, CanPreview, o) in tuples
                           || (Tuple(u, Executor, o) in tuples && Tuple(u, Delegator, o) in tuples)
                           || (exists g :: Tuple(g, Org, o) in tuples && HoldsMember(tuples, u, g));
            && (Check(tuples, u, CanPreview, o, depth) ==> preview)
            && (depth > 2 && preview ==> Check(tuples, u, CanPreview, o, depth))
  {
    if depth > 0 {
      UnionOfThree(tuples, u, CanPreview, o, CanExecute, Member, depth);
      CanExecuteAt(tuples, u, o, depth - 1);
      forall g
        ensures Check(tuples, u, Member, g, depth - 1) ==> HoldsMember(tuples, u, g)
        ensures depth > 2 && HoldsMember(tuples, u, g) ==> Check(tuples, u, Member, g, depth - 1)
      {
        MemberAt(tuples, u, g, depth - 1);
      }
    }
  }

  /** Who can preview an action is who was given the preview, can execute it, or belongs to an organization of it. */
  lemma EffectivePreview(tuples: set<Tuple>, u: Entity, o: Entity)
    requires o.kind == AgentAction
    ensures Effective(tuples, u, CanPreview, o) <==>
            || Tuple(u, CanPreview, o) in tuples
            || (Tuple(u, Executor, o) in tuples && Tuple(u, Delegator, o) in tuples)
            || (exists g :: Tuple(g, Org, o) in tuples && HoldsMember(tuples, u, g))
  {
    forall depth
      ensures Check(tuples, u, CanPreview, o, depth) ==>
                || Tuple(u, CanPreview, o) in tuples
                || (Tuple(u, Executor, o) in tuples && Tuple(u, Delegator, o) in tuples)
                || (exists g :: Tuple(g, Org, o) in tuples && HoldsMember(tuples, u, g))
    {
      CanPreviewAt(tuples, u, o, depth);
    }
    CanPreviewAt(tuples, u, o, 3);
  }

  /** The type restrictions on executors (agents) and delegators (users). */
  ghost predicate WellTyped(tuples: set<Tuple>) {
    forall t :: t in tuples ==>
      && (t.relation == Executor ==> t.user.kind == Agent)
      && (t.relation == Delegator ==> t.user.kind == User)
  }

  /** On a well-typed store the delegation intersection is empty: nobody can execute anything. */
  lemma NobodyCanExecute(tuples: set<Tuple>, u: Entity, o: Entity)
    requires WellTyped(tuples)
    ensures !Effective(tuples, u, CanExecute, o)
  {
    if Effective(tuples, u, CanExecute, o) {
      ExecuteImpliesPreview(tuples, u, o);
      assert false;
    }
  }
}
