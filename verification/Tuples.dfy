/** Relationship tuples, and the remote store that holds them. */
module Tuples {

  datatype Kind = User | Agent | Assistant | Organization | Resource | AgentAction | Decision | OtherKind(name: string)

  /** An OpenFGA name `kind:id`. */
  datatype Entity = Entity(kind: Kind, id: string)

  datatype Relation =
    | Member | Admin | Org | Owner | Editor | Viewer | Operator | Executor | Delegator | CanExecute | CanPreview
    | OtherRelation(name: string)

  datatype Tuple = Tuple(user: Entity, relation: Relation, target: Entity)

  datatype Action = Write | Delete

  /** `TupleOperation`. */
  datatype Operation = Operation(action: Action, tuple: Tuple)

  /** `toFgaSubjectType`: the tuples call an assistant an agent. */
  function FgaSubject(subject: Entity): Entity {
    if subject.kind == Assistant then Entity(Agent, subject.id) else subject
  }

  /** What goes wrong on the way to the store: nothing, or an error with any text, raised before or after the store
      changed. */
  datatype Fault = NoFault | FailsBefore(message: string) | FailsAfter(message: string)

  /** What the client gets: no error, or one with a text. */
  datatype Response = Done | Error(message: string)

  const REFUSED_WRITE := "cannot write a tuple which already exists"
  const REFUSED_DELETE := "cannot delete a tuple which does not exist"

  function Effect(tuples: set<Tuple>, op: Operation): set<Tuple> {
    if op.action == Write then tuples + {op.tuple} else tuples - {op.tuple}
  }

  function Attempt(tuples: set<Tuple>, op: Operation, fault: Fault): set<Tuple> {
    if fault.FailsBefore? then tuples else Effect(tuples, op)
  }

  /** The tuple is in the store if the operation writes it, and not if it deletes it. */
  predicate AsWanted(tuples: set<Tuple>, op: Operation) {
    op.tuple in tuples <==> op.action == Write
  }

  /** The store refuses to write what it holds and to delete what it does not hold. */
  function ResponseTo(tuples: set<Tuple>, op: Operation, fault: Fault): Response {
    if !fault.NoFault? then Error(fault.message)
    else if AsWanted(tuples, op) then Error(if op.action == Write then REFUSED_WRITE else REFUSED_DELETE)
    else Done
  }

  class TupleStore {
    var tuples: set<Tuple>

    constructor ()
      ensures tuples == {}
    {
      tuples := {};
    }

    method Execute(op: Operation, fault: Fault) returns (response: Response)
      modifies this
      ensures tuples ==
              if fault.FailsBefore? then old(tuples)
              else if op.action == Write then old(tuples) + {op.tuple}
              else old(tuples) - {op.tuple}
      ensures !fault.NoFault? ==> response == Error(fault.message)
      ensures fault.NoFault? && op.action == Write ==>
                response == if op.tuple in old(tuples) then Error("cannot write a tuple which already exists") else Done
      ensures fault.NoFault? && op.action == Delete ==>
                response ==
                if op.tuple in old(tuples) then Done else Error("cannot delete a tuple which does not exist")
    {
      response := ResponseTo(tuples, op, fault);
      if fault.FailsBefore? || (fault.NoFault? && response.Error?) {
        return;
      }
      tuples := Effect(tuples, op);
    }
  }
}
