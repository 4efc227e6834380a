/** The assistant runtime: the checks an action must pass, the tool registry, the allowlists and the kill switch. */
module AssistantRuntime {
  import opened Sequences
  import opened Tuples
  import opened Audit
  import Observability

  datatype ToolEntry = ToolEntry(toolId: string, category: string, requiresDelegation: bool, enabled: bool)
  datatype Allowlist = AllTools | OnlyTools(toolIds: seq<string>)
  datatype Status = Active | Disabled | OtherStatus(name: string)
  datatype AssistantRecord = AssistantRecord(status: Status, tenantId: string)

  datatype Request = Request(
    assistantId: string, delegated: bool, onBehalfOf: Option<string>, targetType: Option<Kind>,
    targetId: Option<string>,
    toolName: Option<string>, secretCategory: Option<string>)

  /** What the checks read: the registry, the allowlists and the repository. */
  datatype State = State(tools: seq<ToolEntry>, allowlists: map<string, Allowlist>, repo: map<string, AssistantRecord>)

  const DEFAULT_TOOLS := [
    ToolEntry("read-internal", "read", false, true),
    ToolEntry("write-internal", "write", false, true),
    ToolEntry("read-external", "read", true, true),
    ToolEntry("write-external", "write", true, true),
    ToolEntry("destructive", "destructive", true, true),
    ToolEntry("deprecated-tool", "legacy", false, false)]

  const FORBIDDEN_SECRETS :=
    {"database-credentials", "infrastructure", "encryption-keys", "other-assistant-credentials"}
  const ALLOWED_SECRETS := {"platform-api-key"}

  // ----- the checks, each returning what it throws -----

  function Refuse(condition: bool, code: string): Option<Thrown> {
    if condition then Some(Denial(code, [code])) else None
  }

  /** `checkAssistantActive`. */
  function CheckActive(repo: map<string, AssistantRecord>, assistantId: string, tenantId: string): Option<Thrown> {
    if assistantId !in repo then Refuse(true, "assistant_not_found")
    else if repo[assistantId].status != Active then Refuse(true, "assistant_disabled")
    else Refuse(repo[assistantId].tenantId != tenantId, "tenant_mismatch")
  }

  /** The relationship a delegated action with a target rests on. */
  function DelegationTuple(request: Request): Tuple
    requires request.onBehalfOf.Some? && request.targetId.Some?
  {
    Tuple(Entity(User, request.onBehalfOf.value), Viewer,
          Entity(OrElse(request.targetType, Resource), request.targetId.value))
  }

  /** `checkDelegation`. */
  function CheckDelegation(request: Request, check: Tuple -> bool): Option<Thrown> {
    if !Truthy(request.onBehalfOf) then Refuse(true, "delegation_missing")
    else Refuse(Truthy(request.targetId) && !check(DelegationTuple(request)), "delegation_user_lacks_access")
  }

  function FindTool(tools: seq<ToolEntry>, toolId: string): Option<ToolEntry> {
    Find(tools, (t: ToolEntry) => t.toolId == toolId)
  }

  predicate Allows(allowlists: map<string, Allowlist>, assistantId: string, toolId: string) {
    assistantId !in allowlists || allowlists[assistantId].AllTools? || toolId in allowlists[assistantId].toolIds
  }

  /** `checkToolAuthorization`. */
  function CheckTool(state: State, request: Request): Option<Thrown>
    requires request.toolName.Some?
  {
    var tool := FindTool(state.tools, request.toolName.value);
    if tool.None? then Refuse(true, "tool_not_registered")
    else if !tool.value.enabled then Refuse(true, "tool_disabled")
    else if !Allows(state.allowlists, request.assistantId, request.toolName.value) then
      Refuse(true, "tool_not_allowed_for_assistant")
    else Refuse(tool.value.requiresDelegation && !request.delegated, "delegation_required_for_tool")
  }

  /** `checkSecretBoundary`. */
  function CheckSecret(category: string): Option<Thrown> {
    if category in FORBIDDEN_SECRETS then Refuse(true, "secret_access_denied")
    else Refuse(category !in ALLOWED_SECRETS, "secret_category_unknown")
  }

  /** The checks of one action, in order. The action waits for the relationship check between reading the repository
      and reading the registry and allowlists, so these may come from a later state. */
  function Objection(first: State, later: State, tenantId: string, request: Request,
                     check: Tuple -> bool): Option<Thrown> {
    var active := CheckActive(first.repo, request.assistantId, tenantId);
    if active.Some? then active
    else
      var delegation := if request.delegated then CheckDelegation(request, check) else None;
      if delegation.Some? then delegation
      else
        var tool := if Truthy(request.toolName) then CheckTool(later, request) else None;
        if tool.Some? then tool
        else if Truthy(request.secretCategory) then CheckSecret(request.secretCategory.value)
        else None
  }

  function BusinessOf(objection: Option<Thrown>): Business<()> {
    if objection.Some? then Throws(objection.value) else Returns(())
  }

  // ----- the registry -----

  function IndexOf(tools: seq<ToolEntry>, toolId: string): (i: int)
    ensures -1 <= i < |tools|
    ensures i == -1 <==> forall t :: t in tools ==> t.toolId != toolId
    ensures i >= 0 ==> tools[i].toolId == toolId && forall j :: 0 <= j < i ==> tools[j].toolId != toolId
  {
    if tools == [] then -1
    else if tools[0].toolId == toolId then 0
    else
      var i := IndexOf(tools[1..], toolId);
      assert forall j :: 0 < j < |tools| ==> tools[j] == tools[1..][j - 1];
      if i == -1 then -1 else i + 1
  }

  function Registered(tools: seq<ToolEntry>, entry: ToolEntry): seq<ToolEntry> {
    var i := IndexOf(tools, entry.toolId);
    if i >= 0 then tools[i := entry] else tools + [entry]
  }

  function ToolId(): ToolEntry -> string {
    (t: ToolEntry) => t.toolId
  }

  // ----- what an outcome signals -----

  function ReasonCode(codes: seq<string>): string {
    if codes == [] then "unknown" else codes[0]
  }

  /** The signals an outcome is followed by: none when it completed or threw. */
  function Signals(outcome: Outcome<()>, request: Request): seq<Observability.Signal> {
    if outcome.Propagated? then []
    else
      match outcome.result
      case CompletedResult(_) => []
      case DeniedResult(_, codes) =>
        var code := ReasonCode(codes);
        [Observability.Denied("runtime", code)]
        + (if code == "assistant_disabled" then [Observability.DisabledInvocation(request.assistantId)] else [])
        + (if code == "secret_access_denied" || code == "secret_category_unknown"
           then [Observability.SecretDenied(OrElse(request.secretCategory, "unknown"))] else [])
      case FailedResult(message) =>
        if Includes(message, "OpenFGA") then [Observability.DependencyFailure("openfga")] else []
  }

  // ----- operations -----

  datatype Op =
    | RegisterTool(entry: ToolEntry)
    | SetAllowlist(assistantId: string, allowlist: Allowlist)
    | Disable(assistantId: string)

  function Apply(state: State, op: Op): State {
    match op
    case RegisterTool(entry) => state.(tools := Registered(state.tools, entry))
    case SetAllowlist(assistantId, allowlist) => state.(allowlists := state.allowlists[assistantId := allowlist])
    case Disable(assistantId) =>
      if assistantId in state.repo
      then state.(repo := state.repo[assistantId := state.repo[assistantId].(status := Disabled)])
      else state
  }

  datatype Killing = UnknownAssistant | Killed(previous: Status) | KilledUnrecorded(thrown: Thrown)

  class AssistantRuntimeService {
    const writer: AuditWriter
    var tools: seq<ToolEntry>
    var allowlists: map<string, Allowlist>
    var repo: map<string, AssistantRecord>

    constructor (writer: AuditWriter, repo: map<string, AssistantRecord>)
      ensures this.writer == writer && View() == State(DEFAULT_TOOLS, map[], repo)
    {
      this.writer, this.repo := writer, repo;
      tools, allowlists := DEFAULT_TOOLS, map[];
    }

    function View(): State
      reads this
    {
      State(tools, allowlists, repo)
    }

    /** `registerTool`. */
    method Register(entry: ToolEntry)
      modifies `tools
      ensures View() == Apply(old(View()), RegisterTool(entry))
      ensures |tools| == |old(tools)| || tools == old(tools) + [entry]
      ensures forall j :: 0 <= j < |old(tools)| ==>
                tools[j] == old(tools)[j]
                || (tools[j] == entry && old(tools)[j].toolId == entry.toolId && |tools| == |old(tools)|)
      ensures |tools| == |old(tools)| <==> exists t :: t in old(tools) && t.toolId == entry.toolId
    {
      var i := IndexOf(tools, entry.toolId);
      if i >= 0 {
        tools := tools[i := entry];
      } else {
        tools := tools + [entry];
      }
    }

    /** `setAssistantToolAllowlist`. */
    method SetAssistantToolAllowlist(assistantId: string, allowlist: Allowlist)
      modifies `allowlists
      ensures View() == Apply(old(View()), SetAllowlist(assistantId, allowlist))
    {
      allowlists := allowlists[assistantId := allowlist];
    }

    /** `disableAssistant`: the status is written before the event is recorded, so the kill stands if that fails. */
    method DisableAssistant(assistantId: string) returns (killing: Killing)
      modifies `repo, writer
      ensures View() == Apply(old(View()), Disable(assistantId))
      ensures writer.history == old(writer.history)
                                + if killing.Killed? then [Recorded(NamedEvent("assistant.killed"))] else []
      ensures killing.UnknownAssistant? <==> assistantId !in old(repo)
      ensures killing.Killed? ==> killing.previous == old(repo)[assistantId].status
      ensures killing.UnknownAssistant? || killing == match writer.faults(old(writer.attempts))
                                              case None => Killed(old(repo)[assistantId].status)
                                              case Some(thrown) => KilledUnrecorded(thrown)
    {
      if assistantId !in repo {
        return UnknownAssistant;
      }
      var previous := repo[assistantId].status;
      repo := repo[assistantId := repo[assistantId].(status := Disabled)];
      var thrown := writer.Record(NamedEvent("assistant.killed"));
      killing := if thrown.Some? then KilledUnrecorded(thrown.value) else Killed(previous);
    }

    /** `execute`, the state holding still meanwhile: the checks run inside the audited operation, and a refusal is
        signalled. */
    method Execute(tenantId: string, request: Request, check: Tuple -> bool)
      returns (outcome: Outcome<()>, signals: seq<Observability.Signal>)
      modifies writer
      ensures var business := BusinessOf(Objection(View(), View(), tenantId, request, check));
              var call := Protocol(business, writer.faults, old(writer.attempts));
              && outcome == call.outcome
              && writer.history == old(writer.history) + call.entries
      ensures signals == Signals(outcome, request)
      ensures View() == old(View())
    {
      var objection := Objection(View(), View(), tenantId, request, check);
      outcome := writer.ExecuteAudited(BusinessOf(objection));
      signals := [];
      if outcome.Returned? && outcome.result.DeniedResult? {
        var code := ReasonCode(outcome.result.codes);
        signals := signals + [Observability.Denied("runtime", code)];
        if code == "assistant_disabled" {
          signals := signals + [Observability.DisabledInvocation(request.assistantId)];
        }
        if code == "secret_access_denied" || code == "secret_category_unknown" {
          signals := signals + [Observability.SecretDenied(OrElse(request.secretCategory, "unknown"))];
        }
      } else if outcome.Returned? && outcome.result.FailedResult? && Includes(outcome.result.message, "OpenFGA") {
        signals := signals + [Observability.DependencyFailure("openfga")];
      }
    }
  }
}
