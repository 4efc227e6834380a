/** Decision reason codes, the text of each, and the joined key `code:message` by which
    the engine recognises a repeated reason. */
module ReasonCodes {

  datatype Code =
    | PolicyAllow | ContextMissing | ActorRolesMissing | ActorTypeNotAllowed | RoleGrantMissing
    | ConsentGrantMissing | DelegatedGrantPending | ConsentGrantRevoked | DelegatedGrantExpired
    | ConsentScopeMissing | VaultConnectionMissing | VaultConnectionUnavailable | VaultScopeMissing
    | ProviderConnectionMissing | ProviderConnectionInactive | VaultSessionMissing | VaultSessionInactive
    | StepUpRequired | ResourceOwnerMismatch

  function CodeName(code: Code): string {
    match code
    case PolicyAllow => "policy_allow"
    case ContextMissing => "authorization_context_missing"
    case ActorRolesMissing => "actor_roles_missing"
    case ActorTypeNotAllowed => "actor_type_not_allowed"
    case RoleGrantMissing => "role_grant_missing"
    case ConsentGrantMissing => "consent_grant_missing"
    case DelegatedGrantPending => "delegated_grant_pending"
    case ConsentGrantRevoked => "consent_grant_revoked"
    case DelegatedGrantExpired => "delegated_grant_expired"
    case ConsentScopeMissing => "consent_scope_missing"
    case VaultConnectionMissing => "vault_connection_missing"
    case VaultConnectionUnavailable => "vault_connection_unavailable"
    case VaultScopeMissing => "vault_scope_missing"
    case ProviderConnectionMissing => "provider_connection_missing"
    case ProviderConnectionInactive => "provider_connection_inactive"
    case VaultSessionMissing => "vault_session_missing"
    case VaultSessionInactive => "vault_session_inactive"
    case StepUpRequired => "step_up_required"
    case ResourceOwnerMismatch => "resource_owner_mismatch"
  }

  function JoinedKey(code: Code, text: string): string {
    CodeName(code) + ":" + text
  }

  /** Reads a code back from its text. */
  function CodeNamed(n: string): Code {
    if |n| == 12 then PolicyAllow
    else if |n| == 29 then ContextMissing
    else if |n| == 19 then (if n[0] == 'a' then ActorRolesMissing else VaultScopeMissing)
    else if |n| == 22 then (if n[0] == 'a' then ActorTypeNotAllowed else VaultSessionInactive)
    else if |n| == 18 then RoleGrantMissing
    else if |n| == 24 then VaultConnectionMissing
    else if |n| == 27 then ProviderConnectionMissing
    else if |n| == 28 then (if n[0] == 'v' then VaultConnectionUnavailable else ProviderConnectionInactive)
    else if |n| == 16 then StepUpRequired
    else if |n| == 23 then
      (if n[0] == 'r' then ResourceOwnerMismatch
       else if n[16] == 'p' then DelegatedGrantPending else DelegatedGrantExpired)
    else if |n| == 21 then
      (if n[0] == 'v' then VaultSessionMissing else if n[8] == 's' then ConsentScopeMissing
       else if n[14] == 'm' then ConsentGrantMissing else ConsentGrantRevoked)
    else PolicyAllow
  }

  ghost predicate WellNamed(code: Code) {
    ':' !in CodeName(code) && CodeNamed(CodeName(code)) == code
  }

  lemma {:induction false} CodesAreWellNamed(code: Code)
    ensures WellNamed(code)
  {
    match code
    case PolicyAllow | ContextMissing | ActorRolesMissing | ActorTypeNotAllowed | RoleGrantMissing =>
      WellNamedGroup1(code);
    case ConsentGrantMissing | DelegatedGrantPending | ConsentGrantRevoked | DelegatedGrantExpired
         | ConsentScopeMissing =>
      WellNamedGroup2(code);
    case VaultConnectionMissing | VaultConnectionUnavailable | VaultScopeMissing | ProviderConnectionMissing
         | ProviderConnectionInactive =>
      WellNamedGroup3(code);
    case VaultSessionMissing | VaultSessionInactive | StepUpRequired | ResourceOwnerMismatch => WellNamedGroup4(code);
  }

  lemma WellNamedGroup1(code: Code)
    requires code in {PolicyAllow, ContextMissing, ActorRolesMissing, ActorTypeNotAllowed, RoleGrantMissing}
    ensures WellNamed(code)
  {
  }

  lemma WellNamedGroup2(code: Code)
    requires code in {ConsentGrantMissing, DelegatedGrantPending, ConsentGrantRevoked, DelegatedGrantExpired,
                      ConsentScopeMissing}
    ensures WellNamed(code)
  {
  }

  lemma WellNamedGroup3(code: Code)
    requires code in {VaultConnectionMissing, VaultConnectionUnavailable, VaultScopeMissing, ProviderConnectionMissing,
                      ProviderConnectionInactive}
    ensures WellNamed(code)
  {
  }

  lemma WellNamedGroup4(code: Code)
    requires code in {VaultSessionMissing, VaultSessionInactive, StepUpRequired, ResourceOwnerMismatch}
    ensures WellNamed(code)
  {
  }

  /** No code holds a colon, so a joined key determines both its parts. */
  lemma JoinedKeyInjective(code: Code, text: string, code': Code, text': string)
    requires JoinedKey(code, text) == JoinedKey(code', text')
    ensures code == code' && text == text'
  {
    CodesAreWellNamed(code);
    CodesAreWellNamed(code');
    ColonSplits(CodeName(code), text, CodeName(code'), text');
  }

  lemma ColonSplits(a: string, x: string, b: string, y: string)
    requires ':' !in a && ':' !in b
    requires a + ":" + x == b + ":" + y
    ensures a == b && x == y
  {
    FirstColonAfter(a, x);
    FirstColonAfter(b, y);
    var s := a + ":" + x;
    assert a == s[..|a|] && b == s[..|b|];
    assert x == s[|a| + 1..] && y == s[|b| + 1..];
  }

  /** `indexOf(":")`, with the length of the string where the source has -1. */
  function FirstColon(s: string): (i: nat)
    ensures i <= |s| && ':' !in s[..i] && (i < |s| ==> s[i] == ':')
  {
    if s == "" || s[0] == ':' then 0
    else
      assert s[..1 + FirstColon(s[1..])] == [s[0]] + s[1..][..FirstColon(s[1..])];
      1 + FirstColon(s[1..])
  }

  lemma FirstColonAfter(a: string, x: string)
    requires ':' !in a
    ensures FirstColon(a + ":" + x) == |a|
  {
    var s := a + ":" + x;
    var i := FirstColon(s);
    assert s[|a|] == ':';
    assert forall j :: 0 <= j < |a| ==> s[j] == a[j];
    assert forall j :: 0 <= j < i ==> s[j] == s[..i][j];
  }
}
