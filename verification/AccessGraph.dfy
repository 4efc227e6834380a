/** The "why does this subject have access" view: a graph and a narrative path built from a decision trace. */
module AccessGraph {
  import opened Sequences
  import opened Tuples
  import opened DecisionTrace

  /** The type a node is drawn with. */
  datatype Shape = Principal(kind: Kind) | ResourceShape | OrganizationShape | DecisionShape

  datatype Node = Node(id: Entity, shape: Shape, title: string)

  datatype EdgeLabel = ByRelation(relation: Relation) | ByDecision(decision: FinalDecision)
  datatype Edge = Edge(from: Entity, to: Entity, via: EdgeLabel, primary: bool)

  datatype PathStep =
    | Identity(subject: Entity)
    | Membership(orgId: string)
    | InheritedPermission(orgRelation: Relation)
    | DirectPermission(action: Relation)
    | Policy(name: Option<string>, result: StepResult)
    | Verdict(title: string)

  const DECISION_NODE := Entity(Decision, "result")

  // ----- what the graph should hold -----

  function SubjectNode(trace: Trace): Node {
    Node(trace.subject, Principal(trace.subject.kind), trace.subject.id)
  }

  function ResourceNode(trace: Trace): Node {
    Node(trace.target, ResourceShape, trace.target.id)
  }

  function DecisionNode(trace: Trace): Node {
    Node(DECISION_NODE, DecisionShape, if trace.decision == Allowed then "Access Granted" else "Access Denied")
  }

  predicate Inherited(step: TraceStep) {
    step.layer == OpenFga && step.note.InheritedVia?
  }

  predicate Direct(step: TraceStep) {
    step.layer == OpenFga && step.note.DirectCheck? && step.result == Allow
  }

  function StepNodes(step: TraceStep): seq<Node> {
    if Inherited(step) then [Node(Entity(Organization, step.note.orgId), OrganizationShape, step.note.orgId)] else []
  }

  function StepEdges(trace: Trace, step: TraceStep): seq<Edge> {
    if Inherited(step) then
      var org := Entity(Organization, step.note.orgId);
      [Edge(trace.subject, org, ByRelation(Member), true),
       Edge(org, trace.target, ByRelation(step.note.orgRelation), true)]
    else if Direct(step) then [Edge(trace.subject, trace.target, ByRelation(trace.action), true)]
    else []
  }

  /** The nodes asked for by the subject, the resource and the first n steps, repetitions included. */
  function Wanted(trace: Trace, n: nat): seq<Node>
    requires n <= |trace.steps|
  {
    if n == 0 then [SubjectNode(trace), ResourceNode(trace)]
    else Wanted(trace, n - 1) + StepNodes(trace.steps[n - 1])
  }

  function EdgesOf(trace: Trace, n: nat): seq<Edge>
    requires n <= |trace.steps|
  {
    if n == 0 then [] else EdgesOf(trace, n - 1) + StepEdges(trace, trace.steps[n - 1])
  }

  function AllWanted(trace: Trace): seq<Node> {
    Wanted(trace, |trace.steps|) + [DecisionNode(trace)]
  }

  function AllEdges(trace: Trace): seq<Edge> {
    EdgesOf(trace, |trace.steps|) + [Edge(trace.target, DECISION_NODE, ByDecision(trace.decision), false)]
  }

  function NodeId(): Node -> Entity {
    (node: Node) => node.id
  }

  // ----- building it -----

  /** `nodes` and `seen` are what adding the wanted nodes one by one leaves. */
  ghost predicate Added(nodes: seq<Node>, seen: set<Entity>, wanted: seq<Node>) {
    && nodes == FirstBy(wanted, NodeId())
    && forall id :: id in seen <==> HasKey(wanted, NodeId(), id)
  }

  /** `addNode`. */
  method AddNode(nodes: seq<Node>, seen: set<Entity>, node: Node, ghost wanted: seq<Node>)
    returns (nodes': seq<Node>, seen': set<Entity>)
    requires Added(nodes, seen, wanted)
    ensures Added(nodes', seen', wanted + [node])
  {
    FirstBySnoc(wanted, node, NodeId());
    forall id ensures HasKey(wanted + [node], NodeId(), id) <==> HasKey(wanted, NodeId(), id) || id == node.id {
      HasKeySnoc(wanted, node, NodeId(), id);
    }
    if node.id in seen {
      return nodes, seen;
    }
    return nodes + [node], seen + {node.id};
  }

  /** The body of the loop over the steps. */
  method AddStep(trace: Trace, step: TraceStep, nodes: seq<Node>, edges: seq<Edge>, seen: set<Entity>,
                 ghost wanted: seq<Node>)
    returns (nodes': seq<Node>, edges': seq<Edge>, seen': set<Entity>)
    requires Added(nodes, seen, wanted)
    ensures Added(nodes', seen', wanted + StepNodes(step))
    ensures edges' == edges + StepEdges(trace, step)
    ensures step.layer == OpenFga && step.note.InheritedVia? ==>
              edges' == edges + [Edge(trace.subject, Entity(Organization, step.note.orgId), ByRelation(Member), true),
                                 Edge(Entity(Organization, step.note.orgId), trace.target,
                                      ByRelation(step.note.orgRelation), true)]
  {
    nodes', edges', seen' := nodes, edges, seen;
    assert wanted + [] == wanted && edges + [] == edges;
    if step.layer == OpenFga {
      if step.note.InheritedVia? {
        var org := Entity(Organization, step.note.orgId);
        nodes', seen' := AddNode(nodes, seen, Node(org, OrganizationShape, step.note.orgId), wanted);
        edges' := edges + [Edge(trace.subject, org, ByRelation(Member), true),
                           Edge(org, trace.target, ByRelation(step.note.orgRelation), true)];
      } else if step.note.DirectCheck? && step.result == Allow {
        edges' := edges + [Edge(trace.subject, trace.target, ByRelation(trace.action), true)];
      }
    }
  }

  /** `buildAccessGraph`. */
  method BuildAccessGraph(trace: Trace) returns (nodes: seq<Node>, edges: seq<Edge>)
    ensures nodes == FirstBy(AllWanted(trace), NodeId())
    ensures edges == AllEdges(trace)
  {
    var seen: set<Entity>;
    nodes, edges, seen := [], [], {};
    nodes, seen := AddNode(nodes, seen, SubjectNode(trace), []);
    nodes, seen := AddNode(nodes, seen, ResourceNode(trace), [SubjectNode(trace)]);
    assert [SubjectNode(trace)] + [ResourceNode(trace)] == Wanted(trace, 0);
    for n := 0 to |trace.steps|
      invariant Added(nodes, seen, Wanted(trace, n))
      invariant edges == EdgesOf(trace, n)
    {
      nodes, edges, seen := AddStep(trace, trace.steps[n], nodes, edges, seen, Wanted(trace, n));
    }
    nodes, seen := AddNode(nodes, seen, DecisionNode(trace), Wanted(trace, |trace.steps|));
    edges := edges + [Edge(trace.target, DECISION_NODE, ByDecision(trace.decision), false)];
  }

  predicate Triggered(step: TraceStep) {
    step.layer == Abac && step.result != Skip
  }

  function PolicyStep(step: TraceStep): PathStep {
    Policy(if step.note.PolicyName? && Truthy(step.note.policy) then step.note.policy else None, step.result)
  }

  function VerdictOf(trace: Trace): PathStep {
    Verdict(match trace.decision
            case Allowed => "Access Granted"
            case MfaRequired => "MFA Required"
            case Denied => "Access Denied")
  }

  function PermissionSteps(trace: Trace): seq<PathStep> {
    var inherited, direct := Find(trace.steps, Inherited), Find(trace.steps, Direct);
    if inherited.Some? then
      [Membership(inherited.value.note.orgId), InheritedPermission(inherited.value.note.orgRelation)]
    else if direct.Some? then [DirectPermission(trace.action)]
    else []
  }

  function PolicySteps(trace: Trace): seq<PathStep> {
    var policy := Find(trace.steps, Triggered);
    if policy.Some? then [PolicyStep(policy.value)] else []
  }

  /** The narrative: who, through what membership and permission, past which policy, with what result. */
  function Narrative(trace: Trace): seq<PathStep> {
    [Identity(trace.subject)] + PermissionSteps(trace) + PolicySteps(trace) + [VerdictOf(trace)]
  }

  /** The i-th step is the first of its kind. */
  ghost predicate FirstOf(steps: seq<TraceStep>, wanted: TraceStep -> bool, i: int) {
    0 <= i < |steps| && wanted(steps[i]) && forall j :: 0 <= j < i ==> !wanted(steps[j])
  }

  /** The permission part: the organization of the first step with an inherited path and the level it gives, else the
      action itself if a direct check allowed it. */
  ghost predicate TellsPermission(trace: Trace, part: seq<PathStep>) {
    var inherited := (s: TraceStep) => s.layer == OpenFga && s.note.InheritedVia?;
    var direct := (s: TraceStep) => s.layer == OpenFga && s.result == Allow && s.note.DirectCheck?;
    if exists s :: s in trace.steps && inherited(s) then
      exists i :: FirstOf(trace.steps, inherited, i)
        && part == [Membership(trace.steps[i].note.orgId), InheritedPermission(trace.steps[i].note.orgRelation)]
    else if exists s :: s in trace.steps && direct(s) then part == [DirectPermission(trace.action)]
    else part == []
  }

  /** The policy part: the first policy step that was not skipped, with its result, and its name if it has one. */
  ghost predicate TellsPolicy(trace: Trace, part: seq<PathStep>) {
    var triggered := (s: TraceStep) => s.layer == Abac && s.result != Skip;
    if exists s :: s in trace.steps && triggered(s) then
      exists i :: FirstOf(trace.steps, triggered, i)
        && part == [Policy(match trace.steps[i].note
                           case PolicyName(Some(name)) => if name == "" then None else Some(name)
                           case _ => None, trace.steps[i].result)]
    else part == []
  }

  lemma PartsTell(trace: Trace)
    ensures TellsPermission(trace, PermissionSteps(trace)) && TellsPolicy(trace, PolicySteps(trace))
  {
    var inherited := (s: TraceStep) => s.layer == OpenFga && s.note.InheritedVia?;
    var triggered := (s: TraceStep) => s.layer == Abac && s.result != Skip;
    if Find(trace.steps, Inherited).Some? {
      FindIsFirst(trace.steps, Inherited);
      var i: nat :| i < |trace.steps| && trace.steps[i] == Find(trace.steps, Inherited).value
                    && forall j :: 0 <= j < i ==> !Inherited(trace.steps[j]);
      assert FirstOf(trace.steps, inherited, i);
    }
    if Find(trace.steps, Triggered).Some? {
      FindIsFirst(trace.steps, Triggered);
      var i: nat :| i < |trace.steps| && trace.steps[i] == Find(trace.steps, Triggered).value
                    && forall j :: 0 <= j < i ==> !Triggered(trace.steps[j]);
      assert FirstOf(trace.steps, triggered, i);
    }
  }

  /** What a path tells: the subject, the permission, the policy and the result. */
  ghost predicate TellsPath(trace: Trace, path: seq<PathStep>) {
    exists permission, policy ::
      && TellsPermission(trace, permission) && TellsPolicy(trace, policy)
      && path == [Identity(trace.subject)] + permission + policy
                 + [Verdict(if trace.decision == Allowed then "Access Granted"
                            else if trace.decision == MfaRequired then "MFA Required"
                            else "Access Denied")]
  }

  /** `buildPath`. */
  method BuildPath(trace: Trace) returns (path: seq<PathStep>)
    ensures path == Narrative(trace) && TellsPath(trace, path)
  {
    PartsTell(trace);
    path := AddPermission(trace, [Identity(trace.subject)]);
    var policy := Find(trace.steps, Triggered);
    if policy.Some? {
      path := path + [PolicyStep(policy.value)];
    } else {
      assert path == path + PolicySteps(trace);
    }
    path := path + [VerdictOf(trace)];
  }

  method AddPermission(trace: Trace, start: seq<PathStep>) returns (path: seq<PathStep>)
    ensures path == start + PermissionSteps(trace)
  {
    path := start;
    var inherited := Find(trace.steps, Inherited);
    if inherited.Some? {
      path := path + [Membership(inherited.value.note.orgId)];
      path := path + [InheritedPermission(inherited.value.note.orgRelation)];
    } else {
      var direct := Find(trace.steps, Direct);
      if direct.Some? {
        path := path + [DirectPermission(trace.action)];
      }
    }
  }

  // ----- the graph of any trace -----

  lemma {:induction false} WantedIds(trace: Trace, n: nat)
    requires n <= |trace.steps|
    ensures forall id :: HasKey(Wanted(trace, n), NodeId(), id) <==>
              id == trace.subject || id == trace.target
              || exists i ::
                   0 <= i < n && Inherited(trace.steps[i]) && id == Entity(Organization, trace.steps[i].note.orgId)
  {
    var wanted := Wanted(trace, n);
    if n == 0 {
      assert wanted[0].id == trace.subject && wanted[1].id == trace.target;
    } else {
      WantedIds(trace, n - 1);
      var before, added := Wanted(trace, n - 1), StepNodes(trace.steps[n - 1]);
      assert forall i :: 0 <= i < |before| ==> wanted[i] == before[i];
      assert forall i :: 0 <= i < |added| ==> wanted[|before| + i] == added[i];
      assert forall id :: HasKey(wanted, NodeId(), id) <==> HasKey(before, NodeId(), id) || HasKey(added, NodeId(), id);
      if Inherited(trace.steps[n - 1]) {
        assert added[0].id == Entity(Organization, trace.steps[n - 1].note.orgId);
      }
    }
  }

  lemma {:induction false} EdgesHaveSteps(trace: Trace, n: nat, edge: Edge)
    requires n <= |trace.steps|
    ensures edge in EdgesOf(trace, n) <==> exists i :: 0 <= i < n && edge in StepEdges(trace, trace.steps[i])
  {
    if n > 0 {
      EdgesHaveSteps(trace, n - 1, edge);
    }
  }

  lemma WantedAll(trace: Trace, id: Entity)
    ensures HasKey(AllWanted(trace), NodeId(), id) <==>
            HasKey(Wanted(trace, |trace.steps|), NodeId(), id) || id == DECISION_NODE
  {
    var front, all := Wanted(trace, |trace.steps|), AllWanted(trace);
    assert forall i :: 0 <= i < |front| ==> all[i] == front[i];
    assert all[|front|].id == DECISION_NODE;
  }

  /** For every trace: no two nodes share an id, and every edge joins nodes that are there. */
  lemma GraphIsWellFormed(trace: Trace)
    ensures Distinct(FirstBy(AllWanted(trace), NodeId()), NodeId())
    ensures forall edge :: edge in AllEdges(trace) ==>
              && HasKey(FirstBy(AllWanted(trace), NodeId()), NodeId(), edge.from)
              && HasKey(FirstBy(AllWanted(trace), NodeId()), NodeId(), edge.to)
  {
    FirstByDistinct(AllWanted(trace), NodeId());
    WantedIds(trace, |trace.steps|);
    forall edge | edge in AllEdges(trace)
      ensures HasKey(AllWanted(trace), NodeId(), edge.from) && HasKey(AllWanted(trace), NodeId(), edge.to)
    {
      WantedAll(trace, edge.from);
      WantedAll(trace, edge.to);
      EdgesHaveSteps(trace, |trace.steps|, edge);
    }
  }

  /** For every trace, which edges there are: the two through the organization of each inherited path, the one of each
      direct check that allowed, and the one from the resource to the decision. */
  lemma EdgesExactly(trace: Trace, edge: Edge)
    ensures edge in AllEdges(trace) <==>
            || edge == Edge(trace.target, Entity(Decision, "result"), ByDecision(trace.decision), false)
            || exists step :: step in trace.steps && step.layer == OpenFga && Draws(trace, step, edge)
  {
    EdgesHaveSteps(trace, |trace.steps|, edge);
  }

  /** The edges one relationship step stands for. */
  ghost predicate Draws(trace: Trace, step: TraceStep, edge: Edge) {
    match step.note
    case InheritedVia(org, level) =>
      || edge == Edge(trace.subject, Entity(Organization, org), ByRelation(Member), true)
      || edge == Edge(Entity(Organization, org), trace.target, ByRelation(level), true)
    case DirectCheck =>
      step.result == Allow && edge == Edge(trace.subject, trace.target, ByRelation(trace.action), true)
    case _ => false
  }

  /** An organization of an inherited path. */
  ghost predicate NamesOrg(trace: Trace, org: string) {
    exists step :: step in trace.steps && step.layer == OpenFga && step.note.InheritedVia? && step.note.orgId == org
  }

  ghost function OrgNode(org: string): Node {
    Node(Entity(Organization, org), OrganizationShape, org)
  }

  /** For every trace, which nodes there are: the subject, the resource, the organizations of inherited paths and the
      decision, each with its title; where two share an id, the one named first here. */
  lemma NodesExactly(trace: Trace, node: Node)
    ensures node in FirstBy(AllWanted(trace), NodeId()) <==>
            || node == Node(trace.subject, Principal(trace.subject.kind), trace.subject.id)
            || (node == Node(trace.target, ResourceShape, trace.target.id) && trace.target != trace.subject)
            || (&& node.id !in {trace.subject, trace.target}
                && NamesOrg(trace, node.id.id) && node == OrgNode(node.id.id))
            || (&& node.id !in {trace.subject, trace.target}
                && node == Node(Entity(Decision, "result"), DecisionShape,
                                if trace.decision == Allowed then "Access Granted" else "Access Denied"))
  {
    var n := |trace.steps|;
    var front, last := Wanted(trace, n), DecisionNode(trace);
    FirstBySnoc(front, last, NodeId());
    WantedHas(trace, n, last.id);
    NodesOfSteps(trace, n, node);
    assert NamedBefore(trace, n, node.id) <==> node.id.kind == Organization && NamesOrg(trace, node.id.id);
  }

  /** The nodes that the subject, the resource and the first n steps leave. */
  ghost predicate Shown(trace: Trace, n: nat, node: Node)
    requires n <= |trace.steps|
  {
    || node == Node(trace.subject, Principal(trace.subject.kind), trace.subject.id)
    || (node == Node(trace.target, ResourceShape, trace.target.id) && trace.target != trace.subject)
    || (&& node.id !in {trace.subject, trace.target}
        && node == OrgNode(node.id.id)
        && NamedBefore(trace, n, node.id))
  }

  ghost predicate InNodes(trace: Trace, n: nat, node: Node)
    requires n <= |trace.steps|
  {
    node in FirstBy(Wanted(trace, n), NodeId())
  }

  ghost predicate NamedBefore(trace: Trace, n: nat, id: Entity)
    requires n <= |trace.steps|
  {
    exists i :: 0 <= i < n && Inherited(trace.steps[i]) && id == Entity(Organization, trace.steps[i].note.orgId)
  }

  lemma FirstNodes(trace: Trace, node: Node)
    ensures InNodes(trace, 0, node) <==> Shown(trace, 0, node)
  {
    var subject, resource := SubjectNode(trace), ResourceNode(trace);
    FirstBySnoc([], subject, NodeId());
    FirstBySnoc([subject], resource, NodeId());
    HasKeySnoc([], subject, NodeId(), trace.target);
    assert [] + [subject] == [subject] && [subject] + [resource] == Wanted(trace, 0);
  }

  /** What the n-th step adds, if it is an inherited path and its organization is new. */
  ghost predicate NewlyShown(trace: Trace, n: nat, node: Node)
    requires n < |trace.steps|
  {
    && Inherited(trace.steps[n])
    && node == OrgNode(trace.steps[n].note.orgId)
    && node.id !in {trace.subject, trace.target} && !NamedBefore(trace, n, node.id)
  }

  lemma NextNode(trace: Trace, n: nat, node: Node)
    requires n < |trace.steps|
    ensures InNodes(trace, n + 1, node) <==>
            InNodes(trace, n, node) || NewlyShown(trace, n, node)
  {
    var before, step := Wanted(trace, n), trace.steps[n];
    if Inherited(step) {
      var org := OrgNode(step.note.orgId);
      assert StepNodes(step) == [org];
      FirstBySnoc(before, org, NodeId());
      WantedHas(trace, n, org.id);
    } else {
      assert before + [] == before;
    }
  }

  lemma ShownNext(trace: Trace, n: nat, node: Node)
    requires n < |trace.steps|
    ensures Shown(trace, n + 1, node) <==> Shown(trace, n, node) || NewlyShown(trace, n, node)
  {
    var step := trace.steps[n];
    assert NamedBefore(trace, n + 1, node.id) <==>
           NamedBefore(trace, n, node.id) || (Inherited(step) && node.id == Entity(Organization, step.note.orgId));
  }

  lemma {:induction false} NodesOfSteps(trace: Trace, n: nat, node: Node)
    requires n <= |trace.steps|
    ensures InNodes(trace, n, node) <==> Shown(trace, n, node)
  {
    if n == 0 {
      FirstNodes(trace, node);
    } else {
      var m := n - 1;
      NodesOfSteps(trace, m, node);
      NextNode(trace, m, node);
      ShownNext(trace, m, node);
      assert InNodes(trace, n, node) <==> Shown(trace, n, node);
    }
  }

  lemma WantedHas(trace: Trace, n: nat, id: Entity)
    requires n <= |trace.steps|
    ensures HasKey(Wanted(trace, n), NodeId(), id) <==> id in {trace.subject, trace.target} || NamedBefore(trace, n, id)
  {
    WantedIds(trace, n);
  }

  predicate IsPermission(step: PathStep) {
    step.InheritedPermission? || step.DirectPermission?
  }

  ghost predicate HasPrimaryEdge(trace: Trace) {
    exists edge :: edge in AllEdges(trace) && edge.primary
  }

  lemma PrimaryEdgesComeFromSteps(trace: Trace)
    ensures HasPrimaryEdge(trace) <==> exists step :: step in trace.steps && (Inherited(step) || Direct(step))
  {
    if HasPrimaryEdge(trace) {
      var edge :| edge in AllEdges(trace) && edge.primary;
      EdgesHaveSteps(trace, |trace.steps|, edge);
    }
    forall i | 0 <= i < |trace.steps| && (Inherited(trace.steps[i]) || Direct(trace.steps[i]))
      ensures HasPrimaryEdge(trace)
    {
      var edge := StepEdges(trace, trace.steps[i])[0];
      EdgesHaveSteps(trace, |trace.steps|, edge);
      assert edge in AllEdges(trace) && edge.primary;
    }
  }

  /** For every trace: the narrative names a permission exactly when the graph draws a primary edge. */
  lemma PathMatchesGraph(trace: Trace)
    ensures (exists step :: step in Narrative(trace) && IsPermission(step)) <==> HasPrimaryEdge(trace)
  {
    PrimaryEdgesComeFromSteps(trace);
    var inherited, direct := Find(trace.steps, Inherited), Find(trace.steps, Direct);
    var permission := PermissionSteps(trace);
    assert forall step :: step in Narrative(trace) && IsPermission(step) ==> step in permission;
    if inherited.Some? {
      assert permission[1] in Narrative(trace) && IsPermission(permission[1]);
      assert inherited.value in trace.steps && Inherited(inherited.value);
    } else if direct.Some? {
      assert permission[0] in Narrative(trace) && IsPermission(permission[0]);
      assert direct.value in trace.steps && Direct(direct.value);
    }
  }

  /** For every trace: a membership the narrative names is drawn as the two edges through that organization. */
  lemma MembershipsAreDrawn(trace: Trace, org: string)
    requires Membership(org) in Narrative(trace)
    ensures Joins(AllEdges(trace), trace.subject, Entity(Organization, org))
    ensures Joins(AllEdges(trace), Entity(Organization, org), trace.target)
  {
    assert Membership(org) in PermissionSteps(trace);
    InheritedStepIsDrawn(trace, Find(trace.steps, Inherited).value);
  }

  lemma InheritedStepIsDrawn(trace: Trace, step: TraceStep)
    requires step in trace.steps && Inherited(step)
    ensures Joins(AllEdges(trace), trace.subject, Entity(Organization, step.note.orgId))
    ensures Joins(AllEdges(trace), Entity(Organization, step.note.orgId), trace.target)
  {
    DrawnEdges(trace, step);
    assert StepEdges(trace, step)[0] in StepEdges(trace, step) && StepEdges(trace, step)[1] in StepEdges(trace, step);
  }

  lemma DrawnEdges(trace: Trace, step: TraceStep)
    requires step in trace.steps
    ensures forall edge :: edge in StepEdges(trace, step) ==>
            edge in AllEdges(trace) && Joins(AllEdges(trace), edge.from, edge.to)
  {
    forall edge | edge in StepEdges(trace, step) ensures edge in AllEdges(trace) {
      EdgesHaveSteps(trace, |trace.steps|, edge);
    }
  }

  // ----- the graph of an evaluated trace -----

  /** A walk along the edges. */
  ghost predicate Walk(edges: seq<Edge>, path: seq<Entity>) {
    forall i :: 0 <= i < |path| - 1 ==> Joins(edges, path[i], path[i + 1])
  }

  ghost predicate Joins(edges: seq<Edge>, from: Entity, to: Entity) {
    exists edge :: edge in edges && edge.from == from && edge.to == to
  }

  ghost predicate Reaches(edges: seq<Edge>, from: Entity, to: Entity) {
    exists path: seq<Entity> :: path != [] && path[0] == from && path[|path| - 1] == to && Walk(edges, path)
  }

  /** In an evaluated trace, a step that draws a primary edge is there exactly when the decision is not deny. */
  lemma NotDeniedMeansPrimaryEdge(r: Request, effect: PolicyEffect, policy: Option<string>, answers: Answers,
                                  tuples: Option<seq<Tuple>>)
    ensures var trace := Explain(r, effect, policy, answers, tuples).trace;
            trace.decision != Denied <==> exists step :: step in trace.steps && (Inherited(step) || Direct(step))
  {
    var trace := Explain(r, effect, policy, answers, tuples).trace;
    var a, b := RbacStep(r.action), AbacStep(effect, policy);
    if effect == PolicyDenies {
      assert trace.steps == [a, b];
    } else {
      var answer := answers(0, OwnTuple(r));
      var direct := DirectStep(answer);
      var found := if answer == Yes then None else SearchTuples(r, answers, tuples).found;
      ResolveThree(a, b, direct);
      assert trace.steps[2] == direct;
      if found.Some? {
        SearchFindsOnlyGranted(r, answers, 1, OrgTuples(tuples.value));
        ResolveFour(a, b, direct, found.value);
        assert trace.steps[3] == found.value && found.value in trace.steps;
      } else {
        assert trace.steps == [a, b, direct] && direct in trace.steps;
      }
    }
  }

  /** Whatever the checks answer, the graph of an evaluated trace leads from the subject to the decision exactly when
      the decision is not deny, or the subject is the resource itself. */
  lemma DecisionReachableExactlyWhenNotDenied(r: Request, effect: PolicyEffect, policy: Option<string>,
                                              answers: Answers, tuples: Option<seq<Tuple>>)
    requires r.subject.kind in {User, Assistant}
    ensures var trace := Explain(r, effect, policy, answers, tuples).trace;
            Reaches(AllEdges(trace), trace.subject, DECISION_NODE) <==>
            trace.decision != Denied || r.subject == r.target
  {
    var trace := Explain(r, effect, policy, answers, tuples).trace;
    NotDeniedMeansPrimaryEdge(r, effect, policy, answers, tuples);
    if trace.decision != Denied {
      LinkedStepReaches(trace);
    } else if r.subject == r.target {
      ResourceReaches(trace);
    } else {
      DeadEnd(trace);
    }
  }

  lemma LastEdge(trace: Trace)
    ensures Joins(AllEdges(trace), trace.target, DECISION_NODE)
  {
    var edge := Edge(trace.target, DECISION_NODE, ByDecision(trace.decision), false);
    assert edge in AllEdges(trace);
  }

  lemma ResourceReaches(trace: Trace)
    ensures Reaches(AllEdges(trace), trace.target, DECISION_NODE)
  {
    LastEdge(trace);
    var path := [trace.target, DECISION_NODE];
    assert Walk(AllEdges(trace), path);
  }

  lemma LinkedStepReaches(trace: Trace)
    requires exists step :: step in trace.steps && (Inherited(step) || Direct(step))
    ensures Reaches(AllEdges(trace), trace.subject, DECISION_NODE)
  {
    LastEdge(trace);
    var k :| 0 <= k < |trace.steps| && (Inherited(trace.steps[k]) || Direct(trace.steps[k]));
    var drawn := StepEdges(trace, trace.steps[k]);
    DrawnEdges(trace, trace.steps[k]);
    assert drawn[0] in drawn;
    if Inherited(trace.steps[k]) {
      assert drawn[1] in drawn;
      var path := [trace.subject, drawn[0].to, trace.target, DECISION_NODE];
      assert Walk(AllEdges(trace), path);
    } else {
      var path := [trace.subject, trace.target, DECISION_NODE];
      assert Walk(AllEdges(trace), path);
    }
  }

  lemma DeadEnd(trace: Trace)
    requires !exists step :: step in trace.steps && (Inherited(step) || Direct(step))
    requires trace.subject != trace.target && trace.subject != DECISION_NODE
    ensures !Reaches(AllEdges(trace), trace.subject, DECISION_NODE)
  {
    PrimaryEdgesComeFromSteps(trace);
    forall to ensures !Joins(AllEdges(trace), trace.subject, to) {
      if Joins(AllEdges(trace), trace.subject, to) {
        var edge :| edge in AllEdges(trace) && edge.from == trace.subject && edge.to == to;
        EdgesHaveSteps(trace, |trace.steps|, edge);
      }
    }
    if Reaches(AllEdges(trace), trace.subject, DECISION_NODE) {
      var path: seq<Entity> :|
        path != [] && path[0] == trace.subject && path[|path| - 1] == DECISION_NODE && Walk(AllEdges(trace), path);
      FirstJoin(AllEdges(trace), path);
    }
  }

  lemma FirstJoin(edges: seq<Edge>, path: seq<Entity>)
    requires Walk(edges, path) && |path| > 1
    ensures Joins(edges, path[0], path[1])
  {
    assert Joins(edges, path[0], path[0 + 1]);
  }

  /** The path of an evaluated trace shows a policy exactly when the policy engine had something to say, with what it
      said, and with its name exactly when it blocked the request and has one. */
  lemma {:induction false} PathShowsThePolicy(r: Request, effect: PolicyEffect, policy: Option<string>,
                                              answers: Answers,
                           tuples: Option<seq<Tuple>>, name: Option<string>, result: StepResult)
    ensures Policy(name, result) in Narrative(Explain(r, effect, policy, answers, tuples).trace) <==>
            && effect != NoPolicy
            && result == AbacStep(effect, policy).result
            && name == if effect in {PolicyDenies, PolicyAsksMfa} && Truthy(policy) then policy else None
  {
    var trace := Explain(r, effect, policy, answers, tuples).trace;
    OnlyOnePolicyStep(r, effect, policy, answers, tuples);
    PolicyInPath(trace, name, result);
  }

  lemma PolicyInPath(trace: Trace, name: Option<string>, result: StepResult)
    ensures Policy(name, result) in Narrative(trace) <==>
            var triggered := Find(trace.steps, Triggered);
            triggered.Some? && PolicyStep(triggered.value) == Policy(name, result)
  {
    var path, triggered := Narrative(trace), Find(trace.steps, Triggered);
    if triggered.Some? {
      assert path[|path| - 2] == PolicyStep(triggered.value) && path[|path| - 2] in path;
    }
  }

  lemma OnlyOnePolicyStep(r: Request, effect: PolicyEffect, policy: Option<string>, answers: Answers,
                          tuples: Option<seq<Tuple>>)
    ensures var steps := Explain(r, effect, policy, answers, tuples).trace.steps;
            && AbacStep(effect, policy) in steps
            && forall step :: step in steps && step.layer == Abac ==> step == AbacStep(effect, policy)
  {
    assert Explain(r, effect, policy, answers, tuples).trace.steps[1] == AbacStep(effect, policy);
    if effect != PolicyDenies && answers(0, OwnTuple(r)) != Yes && tuples.Some? {
      SearchFindsOnlyGranted(r, answers, 1, OrgTuples(tuples.value));
    }
  }

  /** The decision node and the last step of the path tell the same story exactly when no MFA is asked for: the node
      then says "Access Denied" where the path says "MFA Required". */
  lemma TitlesAgreeExactlyWithoutMfa(trace: Trace)
    ensures var path := Narrative(trace);
            path[|path| - 1] == Verdict(DecisionNode(trace).title) <==> trace.decision != MfaRequired
  {
    assert "MFA Required"[0] == 'M' && "Access Denied"[0] == 'A';
  }

  /** For evaluated traces: the two titles differ exactly when the policy engine asks for MFA and some check of the
      request's own tuple granted it. */
  lemma TitlesDifferExactlyWhenMfaBlocks(r: Request, effect: PolicyEffect, policy: Option<string>, answers: Answers,
                                         tuples: Option<seq<Tuple>>)
    ensures var evaluation := Explain(r, effect, policy, answers, tuples);
            var path := Narrative(evaluation.trace);
            path[|path| - 1] != Verdict(DecisionNode(evaluation.trace).title) <==>
            effect == PolicyAsksMfa && Granted(evaluation.calls)
  {
    DecisionForAnyAnswers(r, effect, policy, answers, tuples);
    TitlesAgreeExactlyWithoutMfa(Explain(r, effect, policy, answers, tuples).trace);
  }

  /** The failing cases, for a user who may view but must pass MFA, and for one who asks about itself and is denied. */
  lemma MfaIsDrawnAsDenied(userId: string, resourceId: string)
    ensures var r := Request(Entity(User, userId), Entity(Resource, resourceId), Viewer);
            var trace := Explain(r, PolicyAsksMfa, None, (n: nat, t: Tuple) => Yes, None).trace;
            && trace.decision == MfaRequired
            && DecisionNode(trace).title == "Access Denied" && VerdictOf(trace) == Verdict("MFA Required")
  {
    var r := Request(Entity(User, userId), Entity(Resource, resourceId), Viewer);
    ResolveThree(RbacStep(Viewer), AbacStep(PolicyAsksMfa, None), DirectStep(Yes));
  }

  lemma DeniedButConnected(userId: string)
    ensures var r := Request(Entity(User, userId), Entity(User, userId), Viewer);
            var trace := Explain(r, PolicyDenies, None, (n: nat, t: Tuple) => No, None).trace;
            trace.decision == Denied && Reaches(AllEdges(trace), trace.subject, DECISION_NODE)
  {
    var r := Request(Entity(User, userId), Entity(User, userId), Viewer);
    DecisionReachableExactlyWhenNotDenied(r, PolicyDenies, None, (n: nat, t: Tuple) => No, None);
  }
}
