/** The vocabulary of the authorization package and its table of permission policies. */
module Policies {
  import opened Sequences

  datatype Role = Admin | Operator | Viewer | Service
  datatype ActorType = UserActor | AgentActor | SystemActor

  datatype Scope =
    | ConnectionsRead | ConnectionsConnect | ConnectionsRevoke | ConsentsRead | ConsentsPreview
    | AgentPreview | AgentExecute | TokensDelegated | VaultSessionsRead | SensitiveExecute
    | ValuationsExecute | AuditRead

  datatype Permission =
    | PermissionsRead | ConsentGrantsUse | VaultConnectionsUse | ConnectionsListRead
    | ProviderConnectionsRead | ProviderConnectionsConnect | ProviderConnectionsRevoke
    | DelegatedGrantsRead | DelegatedGrantsPreview | VaultSessionsInspect
    | AgentActionsPreview | AgentActionsExecute | SensitiveActionsExecute | AuditEventsRead
    | BrokeredTokensRead | BrokeredTokensBroker | BrokeredTokensReuse | DelegatedTokensUse
    | TokenCacheInspect | ValuationsRun | ListingsRead

  datatype GrantStatus = GrantMissing | GrantPending | Granted | GrantRevoked | GrantExpired
  datatype VaultStatus = VaultMissing | VaultConnected | VaultDisconnected | VaultError
  datatype ProviderStatus = ProviderMissing | ProviderPending | ProviderConnected | ProviderRevoked | ProviderError
  datatype SessionStatus = SessionMissing | SessionActive | SessionExpired | SessionRevoked
  datatype Classification = Routine | Sensitive | HighImpact

  datatype Actor = Actor(id: string, kind: ActorType, roles: seq<Role>)

  datatype ConsentContext = ConsentContext(
    grantId: Option<string>, status: GrantStatus, scopes: seq<Scope>, owner: Option<string>)

  datatype VaultContext = VaultContext(
    connectionId: Option<string>, provider: Option<string>, status: VaultStatus, scopes: seq<Scope>,
    owner: Option<string>)

  datatype ProviderContext = ProviderContext(
    connectionId: Option<string>, provider: Option<string>, accountLabel: Option<string>,
    status: ProviderStatus, scopes: seq<Scope>, owner: Option<string>)

  datatype SessionContext = SessionContext(
    sessionId: Option<string>, provider: Option<string>, tokenReference: Option<string>,
    status: SessionStatus, audience: Option<string>, scopes: seq<Scope>, owner: Option<string>)

  /** `AuthorizationContext`: who acts, for which subject, and what delegated state it holds. */
  datatype Context = Context(
    actor: Actor,
    subject: string,
    consent: ConsentContext,
    vault: VaultContext,
    provider: ProviderContext,
    session: SessionContext,
    tokenAudience: Option<string>,
    stepUpSatisfied: bool)

  /** `PermissionResourceContext`, without its type tag, which no check reads. */
  datatype Resource = Resource(id: Option<string>, owner: Option<string>, classification: Option<Classification>)

  /** `PermissionPolicy`. A requirement that is switched off is None; one that is on carries the scopes it asks for. */
  datatype Policy = Policy(
    roles: seq<Role>,
    actorTypes: seq<ActorType>,
    consent: Option<seq<Scope>> := None,
    vault: Option<seq<Scope>> := None,
    provider: Option<seq<Scope>> := None,
    session: Option<seq<Scope>> := None,
    stepUp: bool := false,
    ownership: bool := false)

  const ALL_ROLES: seq<Role> := [Admin, Operator, Viewer, Service]
  const READERS: seq<Role> := [Admin, Operator, Viewer]
  const OPERATORS: seq<Role> := [Admin, Operator]
  const BROKERS: seq<Role> := [Admin, Operator, Service]
  const ANY_ACTOR: seq<ActorType> := [UserActor, AgentActor, SystemActor]
  const HUMAN_OR_SYSTEM: seq<ActorType> := [UserActor, SystemActor]
  const HUMAN: seq<ActorType> := [UserActor]
  const SENSITIVE_SCOPES: seq<Scope> := [AgentExecute, TokensDelegated, SensitiveExecute]

  /** `permissionPolicies`. */
  function PolicyOf(permission: Permission): Policy {
    match permission
    case PermissionsRead => Policy(ALL_ROLES, ANY_ACTOR)
    case ConsentGrantsUse => Policy(OPERATORS, HUMAN, consent := Some([]), ownership := true)
    case VaultConnectionsUse => Policy(OPERATORS, HUMAN, vault := Some([]), ownership := true)
    case ConnectionsListRead => Policy(READERS, HUMAN)
    case ProviderConnectionsRead => Policy(READERS, HUMAN)
    case ProviderConnectionsConnect => Policy(OPERATORS, HUMAN, ownership := true)
    case ProviderConnectionsRevoke => Policy(OPERATORS, HUMAN, provider := Some([]), ownership := true)
    case DelegatedGrantsRead => Policy(READERS, HUMAN, ownership := true)
    case DelegatedGrantsPreview => Policy(OPERATORS, HUMAN, ownership := true)
    case VaultSessionsInspect => Policy(READERS, HUMAN, ownership := true)
    case AgentActionsPreview =>
      Policy(OPERATORS, HUMAN, consent := Some([AgentPreview]), vault := Some([AgentPreview]), ownership := true)
    case AgentActionsExecute =>
      Policy(OPERATORS, HUMAN, consent := Some([AgentExecute]), vault := Some([AgentExecute]), ownership := true)
    case SensitiveActionsExecute =>
      Policy(OPERATORS, HUMAN,
             consent := Some(SENSITIVE_SCOPES), vault := Some(SENSITIVE_SCOPES), provider := Some(SENSITIVE_SCOPES),
             session := Some([TokensDelegated, SensitiveExecute]), stepUp := true, ownership := true)
    case AuditEventsRead => Policy(READERS, HUMAN_OR_SYSTEM)
    case BrokeredTokensRead => Policy(ALL_ROLES, HUMAN_OR_SYSTEM)
    case BrokeredTokensBroker => Policy(BROKERS, HUMAN_OR_SYSTEM)
    case BrokeredTokensReuse => Policy(BROKERS, HUMAN_OR_SYSTEM)
    case DelegatedTokensUse =>
      Policy(OPERATORS, HUMAN,
             consent := Some([TokensDelegated]), vault := Some([TokensDelegated]), provider := Some([TokensDelegated]),
             session := Some([TokensDelegated]), ownership := true)
    case TokenCacheInspect => Policy(BROKERS, HUMAN_OR_SYSTEM)
    case ValuationsRun => Policy(BROKERS, ANY_ACTOR, vault := Some([ValuationsExecute]))
    case ListingsRead => Policy(ALL_ROLES, ANY_ACTOR)
  }

  /** The permissions in the order of the table. */
  const ALL_PERMISSIONS: seq<Permission> :=
    [ PermissionsRead, ConsentGrantsUse, VaultConnectionsUse, ConnectionsListRead,
      ProviderConnectionsRead, ProviderConnectionsConnect, ProviderConnectionsRevoke,
      DelegatedGrantsRead, DelegatedGrantsPreview, VaultSessionsInspect,
      AgentActionsPreview, AgentActionsExecute, SensitiveActionsExecute, AuditEventsRead,
      BrokeredTokensRead, BrokeredTokensBroker, BrokeredTokensReuse, DelegatedTokensUse,
      TokenCacheInspect, ValuationsRun, ListingsRead ]

  /** `rolePermissions`. */
  function RolePermissions(role: Role): seq<Permission> {
    Filter(ALL_PERMISSIONS, (p: Permission) => role in PolicyOf(p).roles)
  }
}
