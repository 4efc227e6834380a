/** How decisions move when the context grows or the policy weakens. */
module PolicyOrder {
  import opened Sequences
  import opened Policies
  import opened PolicyEngine

  /** `more` has at least the roles, scopes and step-up of `c`, and is otherwise the same. */
  ghost predicate GrantsMore(c: Context, more: Context) {
    && more.subject == c.subject && more.actor.kind == c.actor.kind
    && (forall r :: r in c.actor.roles ==> r in more.actor.roles)
    && more.consent.status == c.consent.status && more.consent.owner == c.consent.owner
    && Covers(more.consent.scopes, c.consent.scopes)
    && more.vault.status == c.vault.status && more.vault.owner == c.vault.owner
    && Covers(more.vault.scopes, c.vault.scopes)
    && more.provider.status == c.provider.status && more.provider.owner == c.provider.owner
    && Covers(more.provider.scopes, c.provider.scopes)
    && more.session.status == c.session.status && more.session.owner == c.session.owner
    && Covers(more.session.scopes, c.session.scopes)
    && (c.stepUpSatisfied ==> more.stepUpSatisfied)
  }

  /** Adding roles, scopes or step-up never turns allow into deny. */
  lemma AllowIsMonotone(policy: Policy, c: Context, more: Context, resource: Option<Resource>)
    requires GrantsMore(c, more) && Allows(policy, c, resource)
    ensures Allows(policy, more, resource)
  {
    var r :| r in c.actor.roles && r in policy.roles;
    assert r in more.actor.roles;
  }

  /** Requirement `q` asks for no more than requirement `p`. */
  ghost predicate AsksNoMore(q: Option<seq<Scope>>, p: Option<seq<Scope>>) {
    q.Some? ==> p.Some? && Covers(p.value, q.value)
  }

  /** Policy `q` demands, component by component, no more than policy `p`. */
  ghost predicate DemandsNoMore(q: Policy, p: Policy) {
    && (forall r :: r in p.roles ==> r in q.roles)
    && (forall k :: k in p.actorTypes ==> k in q.actorTypes)
    && AsksNoMore(q.consent, p.consent)
    && AsksNoMore(q.vault, p.vault)
    && AsksNoMore(q.provider, p.provider)
    && AsksNoMore(q.session, p.session)
    && (q.stepUp ==> p.stepUp)
    && (q.ownership ==> p.ownership)
  }

  lemma WeakerPolicyAllows(q: Policy, p: Policy, c: Context, resource: Option<Resource>)
    requires DemandsNoMore(q, p) && Allows(p, c, resource)
    ensures Allows(q, c, resource)
  {
    var r :| r in c.actor.roles && r in p.roles;
    assert r in q.roles;
  }

  function Scopes(required: Option<seq<Scope>>): seq<Scope> {
    if required.Some? then required.value else []
  }

  /** The poorest context that `p` still allows, for an actor of the given role and kind. */
  function Poorest(p: Policy, role: Role, kind: ActorType): Context {
    Context(
      Actor("actor", kind, [role]), "subject",
      ConsentContext(None, if p.consent.Some? then Granted else GrantMissing, Scopes(p.consent), None),
      VaultContext(None, None, if p.vault.Some? then VaultConnected else VaultMissing, Scopes(p.vault), None),
      ProviderContext(
        None, None, None, if p.provider.Some? then ProviderConnected else ProviderMissing, Scopes(p.provider), None),
      SessionContext(
        None, None, None, if p.session.Some? then SessionActive else SessionMissing, None, Scopes(p.session), None),
      None, p.stepUp)
  }

  /** A sensitive resource; it is somebody else's unless `p` checks ownership. */
  function Hardest(p: Policy): Option<Resource> {
    Some(Resource(None, if p.ownership then None else Some("s"), Some(Sensitive)))
  }

  lemma PoorestIsAllowed(p: Policy, role: Role, kind: ActorType)
    requires role in p.roles && kind in p.actorTypes
    ensures Allows(p, Poorest(p, role, kind), Hardest(p))
  {
    var c := Poorest(p, role, kind);
    assert c.actor.roles[0] == role;
  }

  lemma PoorestTells(q: Policy, p: Policy, role: Role, kind: ActorType)
    requires Allows(q, Poorest(p, role, kind), Hardest(p))
    ensures role in q.roles && kind in q.actorTypes
    ensures AsksNoMore(q.consent, p.consent) && AsksNoMore(q.vault, p.vault)
    ensures AsksNoMore(q.provider, p.provider) && AsksNoMore(q.session, p.session)
    ensures (q.stepUp ==> p.stepUp) && (q.ownership ==> p.ownership)
  {
    assert |"s"| == 1 && |"subject"| == 7;
  }

  /** The component order is exact: `q` allows whatever `p` allows if and only if it demands no more. */
  lemma PolicyOrderIsExact(q: Policy, p: Policy)
    requires p.roles != [] && p.actorTypes != []
    ensures DemandsNoMore(q, p) <==>
            (forall c: Context, resource: Option<Resource> :: Allows(p, c, resource) ==> Allows(q, c, resource))
  {
    if DemandsNoMore(q, p) {
      forall c: Context, resource: Option<Resource> | Allows(p, c, resource) ensures Allows(q, c, resource) {
        WeakerPolicyAllows(q, p, c, resource);
      }
    }
    if forall c: Context, resource: Option<Resource> :: Allows(p, c, resource) ==> Allows(q, c, resource) {
      forall role, kind | role in p.roles && kind in p.actorTypes
        ensures Allows(q, Poorest(p, role, kind), Hardest(p))
      {
        PoorestIsAllowed(p, role, kind);
      }
      forall r | r in p.roles ensures r in q.roles { PoorestTells(q, p, r, p.actorTypes[0]); }
      forall k | k in p.actorTypes ensures k in q.actorTypes { PoorestTells(q, p, p.roles[0], k); }
      PoorestTells(q, p, p.roles[0], p.actorTypes[0]);
    }
  }

  /** Whoever may execute sensitive actions may use delegated tokens and execute agent actions. */
  lemma SensitiveImpliesDelegated(c: Context, resource: Option<Resource>)
    requires Allows(PolicyOf(SensitiveActionsExecute), c, resource)
    ensures Allows(PolicyOf(DelegatedTokensUse), c, resource)
    ensures Allows(PolicyOf(AgentActionsExecute), c, resource)
  {
    assert SENSITIVE_SCOPES[0] == AgentExecute && SENSITIVE_SCOPES[1] == TokensDelegated;
    assert [TokensDelegated, SensitiveExecute][0] == TokensDelegated;
    WeakerPolicyAllows(PolicyOf(DelegatedTokensUse), PolicyOf(SensitiveActionsExecute), c, resource);
    WeakerPolicyAllows(PolicyOf(AgentActionsExecute), PolicyOf(SensitiveActionsExecute), c, resource);
  }

  /** `rolePermissions` lists a permission for a role exactly when its policy names the role. */
  lemma {:induction false} RolePermissionsAreThePolicies(role: Role, p: Permission)
    ensures p in RolePermissions(role) <==> role in PolicyOf(p).roles
  {
    EveryPermissionIsListed(p);
  }

  lemma EveryPermissionIsListed(p: Permission)
    ensures p in ALL_PERMISSIONS
  {
    var at := match p
      case PermissionsRead => 0 case ConsentGrantsUse => 1 case VaultConnectionsUse => 2 case ConnectionsListRead => 3
      case ProviderConnectionsRead => 4 case ProviderConnectionsConnect => 5 case ProviderConnectionsRevoke => 6
      case DelegatedGrantsRead => 7 case DelegatedGrantsPreview => 8 case VaultSessionsInspect => 9
      case AgentActionsPreview => 10 case AgentActionsExecute => 11 case SensitiveActionsExecute => 12
      case AuditEventsRead => 13 case BrokeredTokensRead => 14 case BrokeredTokensBroker => 15
      case BrokeredTokensReuse => 16 case DelegatedTokensUse => 17 case TokenCacheInspect => 18
      case ValuationsRun => 19 case ListingsRead => 20;
    assert ALL_PERMISSIONS[at] == p;
  }

  /** Nothing is allowed that no role of the actor is granted. */
  lemma {:induction false} AllowedIsGrantedToSomeRole(p: Permission, c: Context, resource: Option<Resource>)
    requires Allows(PolicyOf(p), c, resource)
    ensures exists role :: role in c.actor.roles && p in RolePermissions(role)
  {
    var role :| role in c.actor.roles && role in PolicyOf(p).roles;
    RolePermissionsAreThePolicies(role, p);
  }

  // ----- the table, column by column -----

  /** Which roles may ask at all: admins and operators for everything, viewers and services for what is listed. */
  lemma WhoMayAsk(p: Permission)
    ensures var policy := PolicyOf(p);
            && Admin in policy.roles && Operator in policy.roles
            && (Viewer in policy.roles <==>
                p in {PermissionsRead, ConnectionsListRead, ProviderConnectionsRead, DelegatedGrantsRead,
                      VaultSessionsInspect, AuditEventsRead, BrokeredTokensRead, ListingsRead})
            && (Service in policy.roles <==>
                p in {PermissionsRead, BrokeredTokensRead, BrokeredTokensBroker, BrokeredTokensReuse, TokenCacheInspect,
                      ValuationsRun, ListingsRead})
  {
    assert ALL_ROLES[0] == Admin && ALL_ROLES[1] == Operator && ALL_ROLES[2] == Viewer && ALL_ROLES[3] == Service;
    assert READERS[0] == Admin && READERS[1] == Operator && READERS[2] == Viewer;
    assert OPERATORS[0] == Admin && OPERATORS[1] == Operator;
    assert BROKERS[0] == Admin && BROKERS[1] == Operator && BROKERS[2] == Service;
  }

  /** Which actors may ask at all: users for everything, agents and the system for what is listed. */
  lemma WhichActorsMayAsk(p: Permission)
    ensures var policy := PolicyOf(p);
            && UserActor in policy.actorTypes
            && (AgentActor in policy.actorTypes <==> p in {PermissionsRead, ValuationsRun, ListingsRead})
            && (SystemActor in policy.actorTypes <==>
                p in {PermissionsRead, AuditEventsRead, BrokeredTokensRead, BrokeredTokensBroker, BrokeredTokensReuse,
                      TokenCacheInspect, ValuationsRun, ListingsRead})
  {
    assert ANY_ACTOR[0] == UserActor && ANY_ACTOR[1] == AgentActor && ANY_ACTOR[2] == SystemActor;
    assert HUMAN_OR_SYSTEM[0] == UserActor && HUMAN_OR_SYSTEM[1] == SystemActor && HUMAN[0] == UserActor;
  }

  /** What the subject must own, and when step-up is asked for. */
  lemma WhatIsOwned(p: Permission)
    ensures PolicyOf(p).stepUp <==> p == SensitiveActionsExecute
    ensures PolicyOf(p).ownership <==>
            p in {ConsentGrantsUse, VaultConnectionsUse, ProviderConnectionsConnect, ProviderConnectionsRevoke,
                  DelegatedGrantsRead, DelegatedGrantsPreview, VaultSessionsInspect, AgentActionsPreview,
                  AgentActionsExecute, SensitiveActionsExecute, DelegatedTokensUse}
  {
  }

  /** The requirement, if there is one, asks for exactly these scopes. */
  ghost predicate AsksExactly(required: Option<seq<Scope>>, scopes: set<Scope>) {
    required.Some? && forall x :: x in required.value <==> x in scopes
  }

  /** Which delegated state a permission needs, and with which scopes. */
  lemma WhatIsDelegated(p: Permission)
    ensures PolicyOf(p).consent.Some? <==>
            p in {ConsentGrantsUse, AgentActionsPreview, AgentActionsExecute, SensitiveActionsExecute,
                  DelegatedTokensUse}
    ensures PolicyOf(p).vault.Some? <==>
            p in {VaultConnectionsUse, AgentActionsPreview, AgentActionsExecute, SensitiveActionsExecute,
                  DelegatedTokensUse, ValuationsRun}
    ensures PolicyOf(p).provider.Some? <==>
            p in {ProviderConnectionsRevoke, SensitiveActionsExecute, DelegatedTokensUse}
    ensures PolicyOf(p).session.Some? <==> p in {SensitiveActionsExecute, DelegatedTokensUse}
  {
  }

  lemma WhichScopes()
    ensures AsksExactly(PolicyOf(ConsentGrantsUse).consent, {}) && AsksExactly(PolicyOf(VaultConnectionsUse).vault, {})
    ensures AsksExactly(PolicyOf(ProviderConnectionsRevoke).provider, {})
    ensures AsksExactly(PolicyOf(AgentActionsPreview).consent, {AgentPreview})
    ensures AsksExactly(PolicyOf(AgentActionsPreview).vault, {AgentPreview})
    ensures AsksExactly(PolicyOf(AgentActionsExecute).consent, {AgentExecute})
    ensures AsksExactly(PolicyOf(AgentActionsExecute).vault, {AgentExecute})
    ensures AsksExactly(PolicyOf(ValuationsRun).vault, {ValuationsExecute})
  {
    assert [AgentPreview][0] == AgentPreview && [AgentExecute][0] == AgentExecute;
    assert [ValuationsExecute][0] == ValuationsExecute;
  }

  lemma WhichDelegatedScopes()
    ensures AsksExactly(PolicyOf(DelegatedTokensUse).consent, {TokensDelegated})
    ensures AsksExactly(PolicyOf(DelegatedTokensUse).vault, {TokensDelegated})
    ensures AsksExactly(PolicyOf(DelegatedTokensUse).provider, {TokensDelegated})
    ensures AsksExactly(PolicyOf(DelegatedTokensUse).session, {TokensDelegated})
    ensures AsksExactly(PolicyOf(SensitiveActionsExecute).consent, {AgentExecute, TokensDelegated, SensitiveExecute})
    ensures AsksExactly(PolicyOf(SensitiveActionsExecute).vault, {AgentExecute, TokensDelegated, SensitiveExecute})
    ensures AsksExactly(PolicyOf(SensitiveActionsExecute).provider, {AgentExecute, TokensDelegated, SensitiveExecute})
    ensures AsksExactly(PolicyOf(SensitiveActionsExecute).session, {TokensDelegated, SensitiveExecute})
  {
    assert [TokensDelegated][0] == TokensDelegated;
    assert [TokensDelegated, SensitiveExecute][0] == TokensDelegated
           && [TokensDelegated, SensitiveExecute][1] == SensitiveExecute;
    assert SENSITIVE_SCOPES[0] == AgentExecute && SENSITIVE_SCOPES[1] == TokensDelegated
           && SENSITIVE_SCOPES[2] == SensitiveExecute;
  }
}
