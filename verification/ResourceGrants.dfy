/** Granting and revoking access to a resource through the relationship writer. */
module ResourceGrants {
  import opened Sequences
  import opened Tuples
  import opened RelationshipModel

  /** `isValidRelation` for resources. */
  predicate ValidLevel(subject: Kind, level: Relation) {
    if subject == Assistant then level in {Viewer, Operator} else level in {Viewer, Editor}
  }

  /** The two levels a revocation takes away. */
  function RevokedLevels(subject: Kind): (Relation, Relation) {
    if subject == Assistant then (Viewer, Operator) else (Viewer, Editor)
  }

  function GrantTuple(subject: Entity, level: Relation, resourceId: string): Tuple {
    Tuple(FgaSubject(subject), level, Entity(Resource, resourceId))
  }

  /** How the store names a level of a subject on a resource: assistants are agents there. */
  ghost function NameOf(subject: Entity, level: Relation, resourceId: string): Tuple {
    Tuple(Entity(if subject.kind == Assistant then Agent else subject.kind, subject.id), level,
          Entity(Resource, resourceId))
  }

  /** The tuples a revocation takes away. */
  function RevokedTuples(subject: Entity, resourceId: string): set<Tuple> {
    var (first, second) := RevokedLevels(subject.kind);
    {GrantTuple(subject, first, resourceId), GrantTuple(subject, second, resourceId)}
  }

  /** The result classes of the writer. */
  datatype WriteResult = Ok | AlreadyExists | NotFound | Failed

  datatype GrantOutcome = BadRequest | Outcome(success: bool, detail: WriteResult)

  /** `isAlreadyExists`: the text decides, whatever the error was about. */
  predicate IsAlreadyExists(message: string) {
    Includes(message, "already exists") || Includes(message, REFUSED_WRITE)
  }

  /** `isNotFound`. */
  predicate IsNotFound(message: string) {
    Includes(message, "not found") || Includes(message, REFUSED_DELETE)
  }

  lemma RefusedWriteSays()
    ensures Contains(REFUSED_WRITE, "already exists")
  {
    assert REFUSED_WRITE[27..] == "already exists";
    IncludesExactly(REFUSED_WRITE, "already exists");
  }

  /** Which texts are classed as "already there", and which as "nothing to delete". */
  lemma ClassedByText(message: string)
    ensures IsAlreadyExists(message) <==> Contains(message, "already exists")
    ensures IsNotFound(message) <==>
            Contains(message, "not found") || Contains(message, "cannot delete a tuple which does not exist")
  {
    IncludesExactly(message, "already exists");
    IncludesExactly(message, REFUSED_WRITE);
    IncludesExactly(message, "not found");
    IncludesExactly(message, REFUSED_DELETE);
    RefusedWriteSays();
    if Contains(message, REFUSED_WRITE) {
      ContainsMore(message, REFUSED_WRITE, "already exists");
    }
  }

  /** The store's own refusals are classed as what they are. */
  lemma RefusalsAreClassed()
    ensures IsAlreadyExists(REFUSED_WRITE) && IsNotFound(REFUSED_DELETE)
  {
    assert REFUSED_WRITE[0..] == REFUSED_WRITE && REFUSED_DELETE[0..] == REFUSED_DELETE;
  }

  /** The writer classes the fault, if there is one, as "already there". */
  predicate WriteTolerated(fault: Fault) {
    fault.NoFault? || IsAlreadyExists(fault.message)
  }

  /** The writer classes the fault, if there is one, as "nothing to delete". */
  predicate DeleteTolerated(fault: Fault) {
    fault.NoFault? || IsNotFound(fault.message)
  }

  /** `RelationshipWriter`: the store's answers, by class. */
  class RelationshipWriter {
    const store: TupleStore

    constructor (store: TupleStore)
      ensures this.store == store
    {
      this.store := store;
    }

    /** `write`: only errors that sound like "already exists" are told apart from others. */
    method Write(tuple: Tuple, fault: Fault) returns (result: WriteResult)
      modifies store
      ensures store.tuples == if fault.FailsBefore? then old(store.tuples) else old(store.tuples) + {tuple}
      ensures result.Ok? <==> fault.NoFault? && tuple !in old(store.tuples)
      ensures result.AlreadyExists? <==> WriteTolerated(fault) && (fault.NoFault? ==> tuple in old(store.tuples))
      ensures result.Failed? <==> !WriteTolerated(fault)
    {
      var response := store.Execute(Operation(Action.Write, tuple), fault);
      RefusalsAreClassed();
      result := if response.Done? then Ok else if IsAlreadyExists(response.message) then AlreadyExists else Failed;
    }

    /** `delete`: only errors that sound like "not found" are told apart from others. */
    method Delete(tuple: Tuple, fault: Fault) returns (result: WriteResult)
      modifies store
      ensures store.tuples == if fault.FailsBefore? then old(store.tuples) else old(store.tuples) - {tuple}
      ensures result.Ok? <==> fault.NoFault? && tuple in old(store.tuples)
      ensures result.NotFound? <==> DeleteTolerated(fault) && (fault.NoFault? ==> tuple !in old(store.tuples))
      ensures result.Failed? <==> !DeleteTolerated(fault)
    {
      var response := store.Execute(Operation(Action.Delete, tuple), fault);
      RefusalsAreClassed();
      result := if response.Done? then Ok else if IsNotFound(response.message) then NotFound else Failed;
    }

    /** `grantAccess`. */
    method Grant(subject: Entity, level: Relation, resourceId: string, fault: Fault) returns (outcome: GrantOutcome)
      modifies store
      ensures outcome == BadRequest <==> level !in {Viewer, if subject.kind == Assistant then Operator else Editor}
      ensures outcome == BadRequest ==> store.tuples == old(store.tuples)
      ensures outcome.Outcome? ==>
                && store.tuples == AfterGrant(old(store.tuples), subject, level, resourceId, fault)
                && (outcome.success <==> WriteTolerated(fault))
                && (outcome.detail == Failed <==> !WriteTolerated(fault))
                && (outcome.detail == Ok <==>
                    fault.NoFault? && NameOf(subject, level, resourceId) !in old(store.tuples))
      ensures outcome.Outcome? && !fault.FailsBefore? ==>
                store.tuples == old(store.tuples) + {NameOf(subject, level, resourceId)}
    {
      if !ValidLevel(subject.kind, level) {
        return BadRequest;
      }
      var result := Write(GrantTuple(subject, level, resourceId), fault);
      outcome := Outcome(result == Ok || result == AlreadyExists, result);
    }

    /** `revokeAccess`: both deletions are sent, and one that went through is enough to report success. */
    method Revoke(subject: Entity, resourceId: string, first: Fault, second: Fault) returns (success: bool)
      modifies store
      ensures success <==> DeleteTolerated(first) || DeleteTolerated(second)
      ensures store.tuples == AfterRevoke(old(store.tuples), subject, resourceId, first, second)
      ensures first.NoFault? && second.NoFault? ==>
                store.tuples == old(store.tuples) - {NameOf(subject, Viewer, resourceId)}
                                - {NameOf(subject, if subject.kind == Assistant then Operator else Editor, resourceId)}
    {
      var (level, other) := RevokedLevels(subject.kind);
      var r := Delete(GrantTuple(subject, level, resourceId), first);
      var r' := Delete(GrantTuple(subject, other, resourceId), second);
      success := r in {Ok, NotFound} || r' in {Ok, NotFound};
    }
  }

  function AfterGrant(tuples: set<Tuple>, subject: Entity, level: Relation, resourceId: string,
                      fault: Fault): set<Tuple> {
    if fault.FailsBefore? then tuples else tuples + {GrantTuple(subject, level, resourceId)}
  }

  function AfterRevoke(tuples: set<Tuple>, subject: Entity, resourceId: string, first: Fault,
                       second: Fault): set<Tuple> {
    var (level, other) := RevokedLevels(subject.kind);
    tuples
    - (if first.FailsBefore? then {} else {GrantTuple(subject, level, resourceId)})
    - (if second.FailsBefore? then {} else {GrantTuple(subject, other, resourceId)})
  }

  /** A revocation takes away everything any sequence of valid grants to the subject can have added: granted levels and
      revoked levels are the same. */
  lemma RevokeUndoesGrants(tuples: set<Tuple>, subject: Entity, levels: seq<Relation>, resourceId: string)
    requires forall level :: level in levels ==> ValidLevel(subject.kind, level)
    ensures var granted := Granting(tuples, subject, levels, resourceId);
            AfterRevoke(granted, subject, resourceId, NoFault, NoFault) == tuples - RevokedTuples(subject, resourceId)
    ensures AfterRevoke(Granting(tuples, subject, levels, resourceId), subject, resourceId, NoFault, NoFault) == tuples
            <==> tuples !! RevokedTuples(subject, resourceId)
  {
    GrantsAddOnlyRevokable(tuples, subject, levels, resourceId);
    var granted, revoked := Granting(tuples, subject, levels, resourceId), RevokedTuples(subject, resourceId);
    assert AfterRevoke(granted, subject, resourceId, NoFault, NoFault) == granted - revoked;
    assert granted - revoked == tuples - revoked;
    if tuples - revoked == tuples {
      forall t | t in tuples ensures t !in revoked {
        assert t in tuples - revoked;
      }
    }
  }

  function Granting(tuples: set<Tuple>, subject: Entity, levels: seq<Relation>, resourceId: string): set<Tuple>
    decreases |levels|
  {
    if levels == [] then tuples
    else Granting(AfterGrant(tuples, subject, levels[0], resourceId, NoFault), subject, levels[1..], resourceId)
  }

  lemma {:induction false} GrantsAddOnlyRevokable(tuples: set<Tuple>, subject: Entity, levels: seq<Relation>,
                                                  resourceId: string)
    requires forall level :: level in levels ==> ValidLevel(subject.kind, level)
    ensures var granted := Granting(tuples, subject, levels, resourceId);
            tuples <= granted <= tuples + RevokedTuples(subject, resourceId)
    decreases |levels|
  {
    if levels != [] {
      assert ValidLevel(subject.kind, levels[0]);
      GrantsAddOnlyRevokable(AfterGrant(tuples, subject, levels[0], resourceId, NoFault), subject, levels[1..],
                             resourceId);
    }
  }

  /** When the revocation leaves nothing: exactly when each deletion reached the store or had nothing to delete.
      So a reported success does not say so. */
  lemma RevokedExactly(tuples: set<Tuple>, subject: Entity, resourceId: string, first: Fault, second: Fault)
    ensures var (level, other) := RevokedLevels(subject.kind);
            AfterRevoke(tuples, subject, resourceId, first, second) !! RevokedTuples(subject, resourceId) <==>
            && (first.FailsBefore? ==> GrantTuple(subject, level, resourceId) !in tuples)
            && (second.FailsBefore? ==> GrantTuple(subject, other, resourceId) !in tuples)
  {
    var (level, other) := RevokedLevels(subject.kind);
    var after, revoked := AfterRevoke(tuples, subject, resourceId, first, second), RevokedTuples(subject, resourceId);
    assert GrantTuple(subject, level, resourceId) in revoked && GrantTuple(subject, other, resourceId) in revoked;
  }

  /** The failing case: an editor is revoked, the second deletion is lost, success is reported and the editor stays. */
  lemma SuccessCanLeaveTheEditor(id: string, resourceId: string, message: string)
    ensures var editor := Tuple(Entity(User, id), Editor, Entity(Resource, resourceId));
            AfterRevoke({editor}, Entity(User, id), resourceId, NoFault, FailsBefore(message)) == {editor}
    ensures DeleteTolerated(NoFault)
  {
    var viewer := GrantTuple(Entity(User, id), Viewer, resourceId);
    var editor := GrantTuple(Entity(User, id), Editor, resourceId);
    assert viewer != editor;
  }

  /** Nor need any deletion have gone through: when the store itself is not found, both errors sound like success. */
  lemma StoreNotFoundSoundsLikeSuccess(tuples: set<Tuple>, subject: Entity, resourceId: string)
    ensures var lost := FailsBefore("Store ID not found");
            DeleteTolerated(lost) && AfterRevoke(tuples, subject, resourceId, lost, lost) == tuples
  {
    assert "Store ID not found"[9..] == "not found";
  }

  /** A grant leaves its tuple exactly when the write reached the store or the tuple was there before. */
  lemma GrantedExactly(tuples: set<Tuple>, subject: Entity, level: Relation, resourceId: string, fault: Fault)
    ensures GrantTuple(subject, level, resourceId) in AfterGrant(tuples, subject, level, resourceId, fault) <==>
            !fault.FailsBefore? || GrantTuple(subject, level, resourceId) in tuples
  {
  }

  // ----- grants and the deployed model -----

  /** Of the levels the service accepts, the deployed model admits exactly those of users, and viewer for assistants:
      an assistant cannot be made operator, and an organization cannot be made viewer or editor. */
  lemma AdmittedExactly(subject: Entity, level: Relation, resourceId: string)
    requires subject.kind in {User, Assistant, Organization} && ValidLevel(subject.kind, level)
    ensures Admitted(GrantTuple(subject, level, resourceId)) <==>
            subject.kind == User || (subject.kind == Assistant && level == Viewer)
  {
  }

  /** A store that keeps the type restrictions refuses what they do not admit, before it changes anything. */
  ghost predicate Enforced(t: Tuple, fault: Fault) {
    !Admitted(t) ==> fault.FailsBefore? && !IsAlreadyExists(fault.message)
  }

  /** So on such a store a valid grant to an organization, or of operator to an assistant, is never reported as done. */
  lemma UnadmittedGrantsFail(subject: Entity, level: Relation, resourceId: string, fault: Fault)
    requires subject.kind in {User, Assistant, Organization} && ValidLevel(subject.kind, level)
    requires Enforced(GrantTuple(subject, level, resourceId), fault) && WriteTolerated(fault)
    ensures subject.kind == User || (subject.kind == Assistant && level == Viewer)
  {
    AdmittedExactly(subject, level, resourceId);
  }
}
