/** What holds over every run of registrations, allowlist changes and kills, with actions executed anywhere in
    between. */
module AssistantRuns {
  import opened Sequences
  import opened Tuples
  import opened Audit
  import opened AssistantRuntime
  import opened Observability
  import opened WindowCounters

  function Initial(repo: map<string, AssistantRecord>): State {
    State(DEFAULT_TOOLS, map[], repo)
  }

  /** The state after the operations, in order. */
  function Run(repo: map<string, AssistantRecord>, ops: seq<Op>): State {
    if ops == [] then Initial(repo) else Apply(Run(repo, ops[..|ops| - 1]), ops[|ops| - 1])
  }

  // ----- the registry is a map -----

  /** The registry as a map: one entry per id, and registering replaces it. */
  lemma RegistryIsAMap(tools: seq<ToolEntry>, entry: ToolEntry, id: string)
    requires Distinct(tools, ToolId())
    ensures Distinct(Registered(tools, entry), ToolId())
    ensures FindTool(Registered(tools, entry), id) == if id == entry.toolId then Some(entry) else FindTool(tools, id)
  {
    var after := Registered(tools, entry);
    var i := IndexOf(tools, entry.toolId);
    if i == -1 {
      assert forall j :: 0 <= j < |tools| ==> tools[j] in tools && after[j] == tools[j];
    }
    assert Distinct(after, ToolId());
    FoundIsTheOne(tools, id);
    FoundIsTheOne(after, id);
    forall t | t in tools && t.toolId != entry.toolId ensures t in after {
      var j :| 0 <= j < |tools| && tools[j] == t;
      assert after[j] == t;
    }
    assert entry in after by { assert after[if i == -1 then |tools| else i] == entry; }
  }

  lemma FoundIsTheOne(tools: seq<ToolEntry>, id: string)
    requires Distinct(tools, ToolId())
    ensures forall t :: t in tools && t.toolId == id ==> FindTool(tools, id) == Some(t)
  {
    forall t | t in tools && t.toolId == id ensures FindTool(tools, id) == Some(t) {
      var found := FindTool(tools, id).value;
      var i, j :| 0 <= i < |tools| && 0 <= j < |tools| && tools[i] == t && tools[j] == found;
      assert ToolId()(tools[i]) == ToolId()(tools[j]);
    }
  }

  /** The last entry registered under an id, or the default one. */
  function LastEntry(ops: seq<Op>, id: string): Option<ToolEntry> {
    if ops == [] then FindTool(DEFAULT_TOOLS, id)
    else
      var last := ops[|ops| - 1];
      if last.RegisterTool? && last.entry.toolId == id then Some(last.entry) else LastEntry(ops[..|ops| - 1], id)
  }

  /** The last allowlist set for an assistant, if any. */
  function LastAllowlist(ops: seq<Op>, assistantId: string): Option<Allowlist> {
    if ops == [] then None
    else
      var last := ops[|ops| - 1];
      if last.SetAllowlist? && last.assistantId == assistantId then Some(last.allowlist)
      else LastAllowlist(ops[..|ops| - 1], assistantId)
  }

  lemma DefaultsAreDistinct()
    ensures Distinct(DEFAULT_TOOLS, ToolId())
  {
    assert DEFAULT_TOOLS[0].toolId[5] == 'i' && DEFAULT_TOOLS[2].toolId[5] == 'e';
    assert DEFAULT_TOOLS[1].toolId[6] == 'i' && DEFAULT_TOOLS[3].toolId[6] == 'e';
    assert |DEFAULT_TOOLS[0].toolId| == |DEFAULT_TOOLS[2].toolId| == 13
           && |DEFAULT_TOOLS[1].toolId| == |DEFAULT_TOOLS[3].toolId| == 14;
    assert |DEFAULT_TOOLS[4].toolId| == 11 && |DEFAULT_TOOLS[5].toolId| == 15;
  }

  /** After any run, tool ids are unique and a lookup returns the last entry registered for that id; likewise for the
      allowlists; and an assistant is disabled once it has been killed, else as it was. */
  lemma {:induction false} RunIsLastWrites(repo: map<string, AssistantRecord>, ops: seq<Op>)
    ensures var state := Run(repo, ops);
            && Distinct(state.tools, ToolId())
            && (forall id :: FindTool(state.tools, id) == LastEntry(ops, id))
            && (forall a ::
                  (if a in state.allowlists then Some(state.allowlists[a]) else None) == LastAllowlist(ops, a))
            && state.repo.Keys == repo.Keys
            && (forall a :: a in repo ==>
                  state.repo[a] == if Disable(a) in ops then repo[a].(status := Disabled) else repo[a])
  {
    if ops == [] {
      DefaultsAreDistinct();
    } else {
      var front, last := ops[..|ops| - 1], ops[|ops| - 1];
      var before := Run(repo, front);
      RunIsLastWrites(repo, front);
      if last.RegisterTool? {
        RegistryIsAMap(before.tools, last.entry, last.entry.toolId);
        forall id ensures FindTool(Registered(before.tools, last.entry), id) == LastEntry(ops, id) {
          RegistryIsAMap(before.tools, last.entry, id);
        }
      }
      assert forall a :: Disable(a) in ops <==> Disable(a) in front || last == Disable(a);
    }
  }

  // ----- when an action completes -----

  /** An optional text that counts as given: not an empty one. */
  ghost predicate Given(text: Option<string>) {
    text != None && text != Some("")
  }

  /** The user an action is delegated by may view its target; a target without a type is a resource. */
  ghost predicate DelegatorMayView(request: Request, check: Tuple -> bool)
    requires Given(request.onBehalfOf) && Given(request.targetId)
  {
    var kind := if request.targetType.Some? then request.targetType.value else Resource;
    check(Tuple(Entity(User, request.onBehalfOf.value), Viewer, Entity(kind, request.targetId.value)))
  }

  /** What an action needs, in the system's terms: the operations so far, and the assistants at the start. */
  ghost predicate MayExecute(repo: map<string, AssistantRecord>, first: seq<Op>, later: seq<Op>, tenantId: string,
                             request: Request, check: Tuple -> bool)
  {
    var a := request.assistantId;
    && a in repo && repo[a].status == Active && Disable(a) !in first
    && repo[a].tenantId == tenantId
    && (request.delegated ==>
        Given(request.onBehalfOf) && (Given(request.targetId) ==> DelegatorMayView(request, check)))
    && (Given(request.toolName) ==> MayUse(later, request.toolName.value, request))
    && (Given(request.secretCategory) ==> request.secretCategory == Some("platform-api-key"))
  }

  ghost predicate MayUse(ops: seq<Op>, toolId: string, request: Request) {
    var tool, allowlist := LastEntry(ops, toolId), LastAllowlist(ops, request.assistantId);
    && tool.Some? && tool.value.enabled
    && (tool.value.requiresDelegation ==> request.delegated)
    && (allowlist.None? || allowlist.value.AllTools? || toolId in allowlist.value.toolIds)
  }

  /** One `execute`, started after `first`. */
  function Executed(repo: map<string, AssistantRecord>, first: seq<Op>, between: seq<Op>, tenantId: string,
                    request: Request, check: Tuple -> bool, faults: Faults, n: nat): Outcome<()> {
    var objection := Objection(Run(repo, first), Run(repo, first + between), tenantId, request, check);
    Protocol(BusinessOf(objection), faults, n).outcome
  }

  /** The code an action is refused with: that of the first need, in this order, that is not met. */
  ghost function RefusedWith(repo: map<string, AssistantRecord>, first: seq<Op>, later: seq<Op>, tenantId: string,
                             request: Request, check: Tuple -> bool): Option<string> {
    var a := request.assistantId;
    if a !in repo then Some("assistant_not_found")
    else if repo[a].status != Active || Disable(a) in first then Some("assistant_disabled")
    else if repo[a].tenantId != tenantId then Some("tenant_mismatch")
    else if request.delegated && DelegationRefusedWith(request, check).Some? then DelegationRefusedWith(request, check)
    else if Given(request.toolName) && ToolRefusedWith(later, request.toolName.value, request).Some? then
      ToolRefusedWith(later, request.toolName.value, request)
    else if Given(request.secretCategory) then SecretRefusedWith(request.secretCategory.value)
    else None
  }

  ghost function DelegationRefusedWith(request: Request, check: Tuple -> bool): Option<string> {
    if !Given(request.onBehalfOf) then Some("delegation_missing")
    else if Given(request.targetId) && !DelegatorMayView(request, check) then Some("delegation_user_lacks_access")
    else None
  }

  ghost function SecretRefusedWith(category: string): Option<string> {
    if category == "platform-api-key" then None
    else if category in {"database-credentials", "infrastructure", "encryption-keys",
                         "other-assistant-credentials"} then
      Some("secret_access_denied")
    else Some("secret_category_unknown")
  }

  ghost function DenialOf(code: Option<string>): Option<Thrown> {
    if code.None? then None else Some(Denial(code.value, [code.value]))
  }

  lemma DelegationRefusal(request: Request, check: Tuple -> bool)
    ensures CheckDelegation(request, check) == DenialOf(DelegationRefusedWith(request, check))
  {
  }

  lemma SecretRefusal(category: string)
    ensures CheckSecret(category) == DenialOf(SecretRefusedWith(category))
  {
    assert "platform-api-key"[0] == 'p';
    assert "database-credentials"[0] == 'd' && "infrastructure"[0] == 'i' && "encryption-keys"[0] == 'e';
    assert "other-assistant-credentials"[0] == 'o';
  }

  lemma {:induction false} ActiveRefusal(repo: map<string, AssistantRecord>, first: seq<Op>, a: string,
                                         tenantId: string)
    ensures CheckActive(Run(repo, first).repo, a, tenantId) ==
            if a !in repo then DenialOf(Some("assistant_not_found"))
            else if repo[a].status != Active || Disable(a) in first then DenialOf(Some("assistant_disabled"))
            else if repo[a].tenantId != tenantId then DenialOf(Some("tenant_mismatch"))
            else None
  {
    RunIsLastWrites(repo, first);
  }

  ghost function ToolRefusedWith(ops: seq<Op>, toolId: string, request: Request): Option<string> {
    var tool, allowlist := LastEntry(ops, toolId), LastAllowlist(ops, request.assistantId);
    if tool.None? then Some("tool_not_registered")
    else if !tool.value.enabled then Some("tool_disabled")
    else if allowlist.Some? && allowlist.value.OnlyTools? && toolId !in allowlist.value.toolIds then
      Some("tool_not_allowed_for_assistant")
    else if tool.value.requiresDelegation && !request.delegated then Some("delegation_required_for_tool")
    else None
  }

  lemma {:induction false} ToolRefusal(repo: map<string, AssistantRecord>, ops: seq<Op>, request: Request)
    requires request.toolName.Some?
    ensures CheckTool(Run(repo, ops), request) == DenialOf(ToolRefusedWith(ops, request.toolName.value, request))
  {
    RunIsLastWrites(repo, ops);
    var a, state := request.assistantId, Run(repo, ops);
    assert (if a in state.allowlists then Some(state.allowlists[a]) else None) == LastAllowlist(ops, a);
    assert FindTool(state.tools, request.toolName.value) == LastEntry(ops, request.toolName.value);
  }

  lemma {:induction false} ObjectionNames(repo: map<string, AssistantRecord>, first: seq<Op>, later: seq<Op>,
                                          tenantId: string, request: Request, check: Tuple -> bool)
    ensures Objection(Run(repo, first), Run(repo, later), tenantId, request, check) ==
            DenialOf(RefusedWith(repo, first, later, tenantId, request, check))
  {
    ActiveRefusal(repo, first, request.assistantId, tenantId);
    DelegationRefusal(request, check);
    if Truthy(request.toolName) { ToolRefusal(repo, later, request); }
    if Truthy(request.secretCategory) { SecretRefusal(request.secretCategory.value); }
  }

  /** An action raises no objection exactly when it may execute; `first` and `first + between` are the operations done
      when the repository is read, and when the registry is. */
  lemma {:induction false} NoObjectionExactly(repo: map<string, AssistantRecord>, first: seq<Op>, between: seq<Op>,
                                              tenantId: string,
                           request: Request, check: Tuple -> bool)
    ensures Objection(Run(repo, first), Run(repo, first + between), tenantId, request, check).None? <==>
            MayExecute(repo, first, first + between, tenantId, request, check)
  {
    ObjectionNames(repo, first, first + between, tenantId, request, check);
  }

  /** With a writer that records, an action completes or is denied with the code of the first need it does not meet. */
  lemma RefusedForTheFirstLack(repo: map<string, AssistantRecord>, first: seq<Op>, between: seq<Op>, tenantId: string,
                               request: Request, check: Tuple -> bool, faults: Faults, n: nat)
    requires faults(n).None? && faults(n + 1).None?
    ensures Executed(repo, first, between, tenantId, request, check, faults, n) ==
            Returned(match RefusedWith(repo, first, first + between, tenantId, request, check)
                     case None => CompletedResult(())
                     case Some(code) => DeniedResult(code, [code]))
  {
    ObjectionNames(repo, first, first + between, tenantId, request, check);
  }

  /** A tool nobody registered anew can be used by default only under delegation if it writes or reads externally or
      destroys, and not at all if it is deprecated or unknown. */
  lemma {:induction false} DefaultToolsMayBeUsed(ops: seq<Op>, toolId: string, request: Request)
    requires forall entry :: RegisterTool(entry) in ops ==> entry.toolId != toolId
    ensures LastEntry(ops, toolId) == FindTool(DEFAULT_TOOLS, toolId)
    ensures ToolRefusedWith(ops, toolId, request) ==
            if toolId == "deprecated-tool" then Some("tool_disabled")
            else if toolId !in {"read-internal", "write-internal", "read-external", "write-external",
                                "destructive"} then
              Some("tool_not_registered")
            else
              var allowlist := LastAllowlist(ops, request.assistantId);
              if allowlist.Some? && allowlist.value.OnlyTools? && toolId !in allowlist.value.toolIds then
                Some("tool_not_allowed_for_assistant")
              else if toolId in {"read-external", "write-external", "destructive"} && !request.delegated then
                Some("delegation_required_for_tool")
              else None
  {
    LastEntryOfNone(ops, toolId);
    DefaultsAreDistinct();
    FoundIsTheOne(DEFAULT_TOOLS, toolId);
    assert forall i :: 0 <= i < 6 ==> DEFAULT_TOOLS[i] in DEFAULT_TOOLS;
  }

  lemma {:induction false} LastEntryOfNone(ops: seq<Op>, toolId: string)
    requires forall entry :: RegisterTool(entry) in ops ==> entry.toolId != toolId
    ensures LastEntry(ops, toolId) == FindTool(DEFAULT_TOOLS, toolId)
  {
    if ops != [] {
      var last := ops[|ops| - 1];
      assert last in ops;
      LastEntryOfNone(ops[..|ops| - 1], toolId);
    }
  }

  /** Over any reachable state, an action completes exactly when all its checks hold and both its events get
      recorded. */
  lemma CompletesExactly(repo: map<string, AssistantRecord>, first: seq<Op>, between: seq<Op>, tenantId: string,
                         request: Request, check: Tuple -> bool, faults: Faults, n: nat)
    ensures Executed(repo, first, between, tenantId, request, check, faults, n) == Returned(CompletedResult(())) <==>
            && MayExecute(repo, first, first + between, tenantId, request, check)
            && faults(n).None? && faults(n + 1).None?
  {
    NoObjectionExactly(repo, first, between, tenantId, request, check);
    var objection := Objection(Run(repo, first), Run(repo, first + between), tenantId, request, check);
    ResultsAreRecorded(BusinessOf(objection), faults, n);
  }

  // ----- the kill switch -----

  /** Once an assistant has been killed, every later execute for it is refused, whatever else was done before, between
      and after, and whatever the writer does: it never completes, and with a writer that records it is denied as
      disabled. */
  lemma KillSwitchHolds(repo: map<string, AssistantRecord>, ops: seq<Op>, between: seq<Op>, tenantId: string,
                        request: Request, check: Tuple -> bool, faults: Faults, n: nat)
    requires request.assistantId in repo && Disable(request.assistantId) in ops
    ensures var outcome := Executed(repo, ops, between, tenantId, request, check, faults, n);
            && !(outcome.Returned? && outcome.result.CompletedResult?)
            && (faults(n).None? && faults(n + 1).None? ==>
                  outcome == Returned(DeniedResult("assistant_disabled", ["assistant_disabled"])))
  {
    RunIsLastWrites(repo, ops);
    var objection := Objection(Run(repo, ops), Run(repo, ops + between), tenantId, request, check);
    assert objection == Some(Denial("assistant_disabled", ["assistant_disabled"]));
    ResultsAreRecorded(BusinessOf(objection), faults, n);
  }

  /** What a killed assistant's execute signals: the denial and the disabled invocation, and nothing else. */
  lemma DisabledSignals(outcome: Outcome<()>, request: Request)
    requires outcome == Returned(DeniedResult("assistant_disabled", ["assistant_disabled"]))
    ensures Signals(outcome, request) ==
            [Denied("runtime", "assistant_disabled"), DisabledInvocation(request.assistantId)]
  {
    assert "assistant_disabled"[0] == 'a' && "secret_access_denied"[0] == 's' && "secret_category_unknown"[0] == 's';
  }

  /** What any outcome signals: a denial by its first code, then a disabled invocation or a refused secret if that is
      what the code says; a failure only if its text names OpenFGA; and nothing else. */
  lemma SignalsExactly(outcome: Outcome<()>, request: Request)
    ensures outcome.Propagated? || outcome.result.CompletedResult? ==> Signals(outcome, request) == []
    ensures outcome.Returned? && outcome.result.FailedResult? ==>
              Signals(outcome, request) ==
              if Contains(outcome.result.message, "OpenFGA") then [DependencyFailure("openfga")] else []
    ensures outcome.Returned? && outcome.result.DeniedResult? ==>
              var code := if outcome.result.codes == [] then "unknown" else outcome.result.codes[0];
              Signals(outcome, request) ==
              if code == "assistant_disabled" then [Denied("runtime", code), DisabledInvocation(request.assistantId)]
              else if code in {"secret_access_denied", "secret_category_unknown"} then
                [Denied("runtime", code),
                 SecretDenied(if request.secretCategory.Some? then request.secretCategory.value else "unknown")]
              else [Denied("runtime", code)]
  {
    assert "assistant_disabled"[0] == 'a' && "secret_access_denied"[0] == 's' && "secret_category_unknown"[0] == 's';
    if outcome.Returned? && outcome.result.FailedResult? {
      IncludesExactly(outcome.result.message, "OpenFGA");
    }
  }

  // ----- a run of the whole service, and what it counts -----

  /** An execute in flight: the operations done when it read the repository, and how its attempts to record go. */
  datatype Begun = Begun(first: seq<Op>, tenantId: string, request: Request, check: Tuple -> bool, faults: Faults)

  /** The operations done, the executes in flight, and the signals emitted. */
  datatype World = World(ops: seq<Op>, calls: map<nat, Begun>, signals: seq<Signal>)

  /** Operations, executes that begin and finish with anything in between, and signals other parts emit. */
  datatype Step =
    | Operate(op: Op)
    | Begin(call: nat, tenantId: string, request: Request, check: Tuple -> bool, faults: Faults)
    | Finish(call: nat)
    | Tell(signal: Signal)

  /** How an execute comes out that began as `begun` and finishes after `ops`. */
  function OutcomeOf(repo: map<string, AssistantRecord>, begun: Begun, ops: seq<Op>): Outcome<()> {
    var objection := Objection(Run(repo, begun.first), Run(repo, ops), begun.tenantId, begun.request, begun.check);
    Protocol(BusinessOf(objection), begun.faults, 0).outcome
  }

  function NextWorld(repo: map<string, AssistantRecord>, w: World, step: Step): World {
    match step
    case Operate(op) => w.(ops := w.ops + [op])
    case Begin(call, tenantId, request, check, faults) =>
      if call in w.calls then w
      else w.(calls := w.calls[call := Begun(w.ops, tenantId, request, check, faults)])
    case Finish(call) =>
      if call !in w.calls then w
      else World(w.ops, w.calls - {call},
                 w.signals + Signals(OutcomeOf(repo, w.calls[call], w.ops), w.calls[call].request))
    case Tell(signal) => w.(signals := w.signals + [signal])
  }

  function WorldAfter(repo: map<string, AssistantRecord>, run: seq<Step>): World {
    if run == [] then World([], map[], [])
    else NextWorld(repo, WorldAfter(repo, run[..|run| - 1]), run[|run| - 1])
  }

  /** When the k-th signal is counted, and when its alert is then read. */
  type Clock = nat -> (int, int)

  /** The history of counts that a run of the service leaves. */
  function History(repo: map<string, AssistantRecord>, run: seq<Step>, clock: Clock): seq<Call> {
    var signals := WorldAfter(repo, run).signals;
    seq(|signals|, i requires 0 <= i < |signals| => Call(KeyOf(signals[i]), clock(i).0, clock(i).1))
  }

  /** Step `q` finishes an execute for `a` that began after `a` was killed, and whose events get recorded. */
  ghost predicate FinishesKilled(repo: map<string, AssistantRecord>, run: seq<Step>, q: nat, a: string) {
    && q < |run| && run[q].Finish?
    && var calls := WorldAfter(repo, run[..q]).calls;
       run[q].call in calls && KilledBefore(repo, calls[run[q].call], a)
  }

  ghost predicate KilledBefore(repo: map<string, AssistantRecord>, begun: Begun, a: string) {
    && begun.request.assistantId == a && a in repo && Disable(a) in begun.first
    && begun.faults(0).None? && begun.faults(1).None?
  }

  /** Where the disabled invocation that step `q` signals stands among all counts: behind the denial. */
  function CountedAt(repo: map<string, AssistantRecord>, run: seq<Step>, q: nat): nat
    requires q <= |run|
  {
    |WorldAfter(repo, run[..q]).signals| + 1
  }

  /** An execute for an assistant killed before is denied as disabled, whatever is done before it finishes. */
  lemma KilledIsDenied(repo: map<string, AssistantRecord>, begun: Begun, ops: seq<Op>, a: string)
    requires KilledBefore(repo, begun, a)
    ensures OutcomeOf(repo, begun, ops) == Returned(DeniedResult("assistant_disabled", ["assistant_disabled"]))
  {
    RunIsLastWrites(repo, begun.first);
    var objection := Objection(Run(repo, begun.first), Run(repo, ops), begun.tenantId, begun.request, begun.check);
    assert objection == Some(Denial("assistant_disabled", ["assistant_disabled"]));
  }

  /** A step only appends signals. */
  lemma StepAppends(repo: map<string, AssistantRecord>, w: World, step: Step)
    ensures w.signals <= NextWorld(repo, w, step).signals
  {
  }

  lemma {:induction false} SignalsGrow(repo: map<string, AssistantRecord>, run: seq<Step>, q: nat)
    requires q <= |run|
    ensures WorldAfter(repo, run[..q]).signals <= WorldAfter(repo, run).signals
  {
    if q == |run| {
      assert run[..q] == run;
    } else {
      var front := run[..|run| - 1];
      assert front[..q] == run[..q];
      SignalsGrow(repo, front, q);
      StepAppends(repo, WorldAfter(repo, front), run[|run| - 1]);
    }
  }

  /** Finishing a killed execute appends exactly the two signals of a disabled denial. */
  lemma FinishAppends(repo: map<string, AssistantRecord>, w: World, call: nat, a: string)
    requires call in w.calls && KilledBefore(repo, w.calls[call], a)
    ensures NextWorld(repo, w, Finish(call)).signals ==
            w.signals + [Denied("runtime", "assistant_disabled"), DisabledInvocation(a)]
  {
    KilledIsDenied(repo, w.calls[call], w.ops, a);
    DisabledSignals(OutcomeOf(repo, w.calls[call], w.ops), w.calls[call].request);
  }

  lemma KilledIsCounted(repo: map<string, AssistantRecord>, run: seq<Step>, q: nat, a: string)
    requires FinishesKilled(repo, run, q, a)
    ensures |WorldAfter(repo, run[..q + 1]).signals| == CountedAt(repo, run, q) + 1
    ensures CountedAt(repo, run, q) < |WorldAfter(repo, run).signals|
    ensures WorldAfter(repo, run).signals[CountedAt(repo, run, q)] == DisabledInvocation(a)
  {
    assert run[..q + 1][..q] == run[..q];
    FinishAppends(repo, WorldAfter(repo, run[..q]), run[q].call, a);
    SignalsGrow(repo, run, q + 1);
  }

  lemma KilledIsInHistory(repo: map<string, AssistantRecord>, run: seq<Step>, clock: Clock, q: nat, a: string)
    requires FinishesKilled(repo, run, q, a)
    ensures var h, i := History(repo, run, clock), CountedAt(repo, run, q);
            i < |h| && h[i] == Call(DisabledKey(a), clock(i).0, clock(i).1)
  {
    KilledIsCounted(repo, run, q, a);
  }

  lemma LaterIsCountedLater(repo: map<string, AssistantRecord>, run: seq<Step>, q: nat, q': nat, a: string)
    requires FinishesKilled(repo, run, q, a) && q < q' <= |run|
    ensures CountedAt(repo, run, q) < CountedAt(repo, run, q')
  {
    KilledIsCounted(repo, run, q, a);
    assert run[..q'][..q + 1] == run[..q + 1];
    SignalsGrow(repo, run[..q'], q + 1);
  }

  /** In any run of the service, with executes overlapping operations, each other and any other signals: nine executes
      for a killed assistant, each begun after the kill, raise the repeated-invocation alert if the last one's alert is
      read within 60 seconds of the first one's count. */
  lemma {:induction false} NineKilledExecutesRaiseTheAlert(repo: map<string, AssistantRecord>, run: seq<Step>,
                                                           clock: Clock, a: string, finishes: seq<nat>)
    requires Chronological(History(repo, run, clock))
    requires |finishes| == 9
    requires forall k :: 0 <= k < 9 ==> finishes[k] < |run| && FinishesKilled(repo, run, finishes[k], a)
    requires forall k, l :: 0 <= k < l < 9 ==> finishes[k] < finishes[l]
    requires clock(CountedAt(repo, run, finishes[8])).1 - clock(CountedAt(repo, run, finishes[0])).0 < 60_000
    ensures exists k :: 0 <= k < 9 && RaisesAlert(repo, run, clock, CountedAt(repo, run, finishes[k]), a)
  {
    var h := History(repo, run, clock);
    var p := seq(9, k requires 0 <= k < 9 => CountedAt(repo, run, finishes[k]));
    forall k | 0 <= k < 9
      ensures p[k] < |h| && h[p[k]] == Call(DisabledKey(a), clock(p[k]).0, clock(p[k]).1)
    {
      KilledIsInHistory(repo, run, clock, finishes[k], a);
    }
    forall k, l | 0 <= k < l < 9 ensures p[k] < p[l] {
      LaterIsCountedLater(repo, run, finishes[k], finishes[l], a);
    }
    NineInvocationsFire(h, a, p);
    var k :| 0 <= k < 9 && RaisesRepeated(h, p[k], a);
    assert RaisesAlert(repo, run, clock, CountedAt(repo, run, finishes[k]), a);
  }

  /** The repeated-invocation alert for the assistant is raised behind the i-th count of the run. */
  ghost predicate RaisesAlert(repo: map<string, AssistantRecord>, run: seq<Step>, clock: Clock, i: nat, a: string) {
    i < |History(repo, run, clock)| && RaisesRepeated(History(repo, run, clock), i, a)
  }
}
