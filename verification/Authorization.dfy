/**
 The scope and permission policy, and the actors the IAM driver builds from validated claims.
 */
module Authorization {
  import opened Wrappers
  import opened Strings

  const UserType := "user"
  const ServiceType := "service"

  const DefaultScopes: seq<string> := ["openid", "profile", "email"]

  datatype Denial = AuthenticationRequired | InsufficientTokenScope | InsufficientPermissions

  /** The parts of an actor the authorizer looks at. */
  datatype Credentials = Credentials(kind: string, scopes: seq<string>, permissions: seq<string>)

  // ---------------------------------------------------------------------------------------------------------------
  // The policy
  // ---------------------------------------------------------------------------------------------------------------

  /** What comes before the first colon, if there is one. */
  function ServiceOf(permission: string): (service: string)
    ensures ':' !in service && service <= permission
    ensures service == permission || permission[|service|] == ':'
  {
    Split(permission, ':')[0]
  }

  /** The four entries that grant a permission, spelled out. */
  ghost predicate IsGrant(s: string, permission: string) {
    || s == permission || s == "admin:" + permission
    || exists service :: IsServiceOf(service, permission) && (s == service + ":*" || s == "admin:" + service + ":*")
  }

  predicate IsServiceOf(service: string, permission: string) {
    ':' !in service && service <= permission && (service == permission || permission[|service|] == ':')
  }

  lemma GrantsSpelled(s: string, permission: string)
    ensures s in Grants(permission) <==> IsGrant(s, permission)
  {
    var service := ServiceOf(permission);
    assert IsServiceOf(service, permission);
    forall other | IsServiceOf(other, permission) ensures other == service {
      assert permission == other + permission[|other|..] == service + permission[|service|..];
      SameHead(service, permission[|service|..], other, permission[|other|..], ':');
    }
  }

  /** The policy, spelled out. */
  ghost predicate Permits(list: seq<string>, required: seq<string>) {
    forall p | p in required :: exists s :: s in list && IsGrant(s, p)
  }

  lemma PermitsSpelled(list: seq<string>, required: seq<string>)
    ensures AllCovered(list, required) <==> Permits(list, required)
  {
    forall p ensures Covers(Elements(list), p) <==> exists s :: s in list && IsGrant(s, p) {
      forall s ensures s in Grants(p) <==> IsGrant(s, p) {
        GrantsSpelled(s, p);
      }
      assert Covers(Elements(list), p) <==> exists s :: s in Elements(list) * Grants(p);
      assert forall s :: s in Elements(list) * Grants(p) <==> s in list && s in Grants(p);
    }
  }

  lemma TrustedSpelled(c: Credentials)
    ensures Trusted(c) <==>
              c.kind == "service" || ("openid" in c.scopes && "profile" in c.scopes && "email" in c.scopes)
  {
    assert DefaultScopes[0] == "openid" && DefaultScopes[1] == "profile" && DefaultScopes[2] == "email";
    assert forall s :: s in Elements(DefaultScopes) <==> s == "openid" || s == "profile" || s == "email";
    if Elements(DefaultScopes) <= Elements(c.scopes) {
      assert "openid" in Elements(DefaultScopes) && "openid" in Elements(c.scopes);
      assert "profile" in Elements(DefaultScopes) && "profile" in Elements(c.scopes);
      assert "email" in Elements(DefaultScopes) && "email" in Elements(c.scopes);
    }
  }

  /** The decision, without the sets: who passes, and which denial anybody else gets. */
  ghost predicate Decides(a: Credentials, required: seq<string>, denial: Option<Denial>) {
    var trusted := a.kind == "service" || ("openid" in a.scopes && "profile" in a.scopes && "email" in a.scopes);
    var scoped, permitted := Permits(a.scopes, required), Permits(a.permissions, required);
    && (denial.None? <==> trusted || (scoped && permitted))
    && (denial == Some(InsufficientTokenScope) <==> !trusted && !scoped)
    && (denial == Some(InsufficientPermissions) <==> !trusted && scoped && !permitted)
  }

  lemma DecisionSpelled(a: Credentials, required: seq<string>)
    ensures Decides(a, required, Decision(Some(a), required))
  {
    TrustedSpelled(a);
    PermitsSpelled(a.scopes, required);
    PermitsSpelled(a.permissions, required);
  }

  /** The entries that grant a permission: itself, its admin form, and the two wildcards of its service. */
  function Grants(permission: string): set<string> {
    var service := ServiceOf(permission);
    {permission, "admin:" + permission, service + ":*", "admin:" + service + ":*"}
  }

  predicate Covers(list: set<string>, permission: string) {
    list * Grants(permission) != {}
  }

  /** The policy on sets: who may do everything, and what anybody else needs. */
  predicate Trusted(c: Credentials) {
    c.kind == ServiceType || Elements(DefaultScopes) <= Elements(c.scopes)
  }

  predicate AllCovered(list: seq<string>, required: seq<string>) {
    forall p | p in required :: Covers(Elements(list), p)
  }

  function Decision(c: Option<Credentials>, required: seq<string>): Option<Denial> {
    match c
    case None => Some(AuthenticationRequired)
    case Some(c) =>
      if Trusted(c) then None
      else if !AllCovered(c.scopes, required) then Some(InsufficientTokenScope)
      else if !AllCovered(c.permissions, required) then Some(InsufficientPermissions)
      else None
  }

  // ---------------------------------------------------------------------------------------------------------------
  // The loops
  // ---------------------------------------------------------------------------------------------------------------

  method Contains(list: seq<string>, s: string) returns (found: bool)
    ensures found <==> s in Elements(list)
  {
    for i := 0 to |list|
      invariant forall k | 0 <= k < i :: list[k] != s
    {
      if list[i] == s {
        return true;
      }
    }
    found := false;
  }

  method IsForStandardFlow(scopes: seq<string>) returns (standard: bool)
    ensures standard <==> Elements(DefaultScopes) <= Elements(scopes)
  {
    for i := 0 to |DefaultScopes|
      invariant forall k | 0 <= k < i :: DefaultScopes[k] in Elements(scopes)
    {
      var found := Contains(scopes, DefaultScopes[i]);
      if !found {
        assert DefaultScopes[i] in Elements(DefaultScopes);
        return false;
      }
    }
    standard := true;
  }

  method HasValidScope(list: seq<string>, permission: string) returns (valid: bool)
    ensures valid <==> Covers(Elements(list), permission)
    ensures valid <==> exists k :: 0 <= k < |list| && IsGrant(list[k], permission)
  {
    var service := Split(permission, ':')[0];
    var adminForm := "admin:" + permission;
    for i := 0 to |list|
      invariant forall k | 0 <= k < i :: list[k] !in Grants(permission)
    {
      var s := list[i];
      if s == permission || s == adminForm || s == service + ":*" || s == "admin:" + service + ":*" {
        assert s in Elements(list) * Grants(permission);
        GrantsSpelled(list[i], permission);
        return true;
      }
    }
    forall k | 0 <= k < |list| ensures !IsGrant(list[k], permission) {
      GrantsSpelled(list[k], permission);
    }
    valid := false;
  }

  method Authorize(c: Option<Credentials>, required: seq<string>) returns (denial: Option<Denial>)
    ensures denial == Decision(c, required)
    ensures denial == Some(AuthenticationRequired) <==> c.None?
  {
    if c.None? {
      return Some(AuthenticationRequired);
    }
    var actor := c.value;
    if actor.kind == ServiceType {
      return None;
    }
    var standard := IsForStandardFlow(actor.scopes);
    if standard {
      return None;
    }
    for i := 0 to |required|
      invariant forall k | 0 <= k < i :: Covers(Elements(actor.scopes), required[k])
    {
      var valid := HasValidScope(actor.scopes, required[i]);
      if !valid {
        return Some(InsufficientTokenScope);
      }
    }
    for i := 0 to |required|
      invariant forall k | 0 <= k < i :: Covers(Elements(actor.permissions), required[k])
    {
      var valid := HasValidScope(actor.permissions, required[i]);
      if !valid {
        return Some(InsufficientPermissions);
      }
    }
    denial := None;
  }

  // ---------------------------------------------------------------------------------------------------------------
  // Properties of the policy
  // ---------------------------------------------------------------------------------------------------------------

  /** More scopes or more permissions never turn a permitted request into a denied one. */
  lemma Monotone(c: Credentials, d: Credentials, required: seq<string>)
    requires c.kind == d.kind
    requires Elements(c.scopes) <= Elements(d.scopes) && Elements(c.permissions) <= Elements(d.permissions)
    requires Decision(Some(c), required).None?
    ensures Decision(Some(d), required).None?
  {
    forall p | p in required && Covers(Elements(c.scopes), p) ensures Covers(Elements(d.scopes), p) {
      var s :| s in Elements(c.scopes) * Grants(p);
      assert s in Elements(d.scopes) * Grants(p);
    }
    forall p | p in required && Covers(Elements(c.permissions), p) ensures Covers(Elements(d.permissions), p) {
      var s :| s in Elements(c.permissions) * Grants(p);
      assert s in Elements(d.permissions) * Grants(p);
    }
  }

  /** Requiring two lists together succeeds iff requiring each does, and a missing scope is reported first. */
  lemma Splits(c: Credentials, a: seq<string>, b: seq<string>)
    ensures Decision(Some(c), a + b).None? <==> Decision(Some(c), a).None? && Decision(Some(c), b).None?
    ensures Decision(Some(c), a + b) == Some(InsufficientTokenScope) <==>
              || Decision(Some(c), a) == Some(InsufficientTokenScope)
              || Decision(Some(c), b) == Some(InsufficientTokenScope)
  {
    assert forall p :: p in a + b <==> p in a || p in b;
  }

  // ---------------------------------------------------------------------------------------------------------------
  // Actors built from claims
  // ---------------------------------------------------------------------------------------------------------------

  /**
   What the results below need to know of unicode.ToLower, which strings.ToLower applies to every character: nothing
   but the colon becomes a colon, and the letters of "admin" are in lower case.
   */
  ghost predicate Lowers(lower: char -> char) {
    && (forall c :: lower(c) == ':' <==> c == ':')
    && (forall c | c in "admin" :: lower(c) == c)
  }

  function ToLower(lower: char -> char, s: string): string {
    if s == "" then "" else [lower(s[0])] + ToLower(lower, s[1..])
  }

  function AdminRoleFor(lower: char -> char, service: string): string {
    "admin:" + ToLower(lower, service) + ":*"
  }

  lemma ServiceOfQualified(service: string, rest: string)
    requires ':' !in service
    ensures ServiceOf(service + ":" + rest) == service
  {
    FindAfter(service, ":" + rest, ':');
    assert service + ":" + rest == service + (":" + rest);
    assert (service + (":" + rest))[..|service|] == service;
  }

  /**
   The admin role of a service covers every permission of that service iff the service is configured in lower case:
   the role lowercases the name, the permissions do not.
   */
  lemma AdminCoversService(lower: char -> char, service: string, rest: string)
    requires Lowers(lower) && ':' !in service
    ensures Covers({AdminRoleFor(lower, service)}, service + ":" + rest) <==> ToLower(lower, service) == service
  {
    var permission, role := service + ":" + rest, AdminRoleFor(lower, service);
    ServiceOfQualified(service, rest);
    if role in Grants(permission) {
      RoleInGrants(lower, service, rest);
    }
    assert ToLower(lower, service) == service ==> role in {role} * Grants(permission);
    assert role !in Grants(permission) ==> {role} * Grants(permission) == {};
  }

  /** Whichever of the four forms the role equals, the service name is its own lower case. */
  lemma RoleInGrants(lower: char -> char, service: string, rest: string)
    requires Lowers(lower) && ':' !in service
    requires AdminRoleFor(lower, service) in {service + ":" + rest, "admin:" + (service + ":" + rest),
                                              service + ":*", "admin:" + service + ":*"}
    ensures ToLower(lower, service) == service
  {
    var role := AdminRoleFor(lower, service);
    assert service + ":*" == service + ":" + "*" && "admin:" + service + ":*" == "admin:" + (service + ":" + "*");
    if role == service + ":" + rest {
      PlainRole(lower, service, rest);
    } else if role == "admin:" + (service + ":" + rest) {
      AdminRole(lower, service, rest);
    } else if role == service + ":*" {
      PlainRole(lower, service, "*");
    } else {
      AdminRole(lower, service, "*");
    }
  }

  lemma PlainRole(lower: char -> char, service: string, tail: string)
    requires Lowers(lower) && ':' !in service && AdminRoleFor(lower, service) == service + ":" + tail
    ensures ToLower(lower, service) == service
  {
    assert AdminRoleFor(lower, service) == "admin" + (":" + ToLower(lower, service) + ":*");
    assert service + ":" + tail == service + (":" + tail);
    SameHead("admin", ":" + ToLower(lower, service) + ":*", service, ":" + tail, ':');
    LowerKeeps(lower, "admin");
  }

  lemma AdminRole(lower: char -> char, service: string, tail: string)
    requires Lowers(lower) && ':' !in service && AdminRoleFor(lower, service) == "admin:" + (service + ":" + tail)
    ensures ToLower(lower, service) == service
  {
    LowerKeepsColons(lower, service);
    SameService(ToLower(lower, service), service, tail);
  }

  lemma SameService(a: string, b: string, tail: string)
    requires ':' !in a && ':' !in b && "admin:" + a + ":*" == "admin:" + (b + ":" + tail)
    ensures a == b
  {
    assert "admin:" + a + ":*" == "admin:" + (a + ":*");
    SameTail("admin:", a + ":*", b + ":" + tail);
    assert b + ":" + tail == b + (":" + tail);
    SameHead(a, ":*", b, ":" + tail, ':');
  }

  lemma {:induction false} LowerKeepsColons(lower: char -> char, s: string)
    requires Lowers(lower) && ':' !in s
    ensures ':' !in ToLower(lower, s)
    decreases |s|
  {
    if s != "" {
      assert s[0] in s;
      LowerKeepsColons(lower, s[1..]);
    }
  }

  lemma {:induction false} LowerKeeps(lower: char -> char, s: string)
    requires forall c | c in s :: lower(c) == c
    ensures ToLower(lower, s) == s
    decreases |s|
  {
    if s != "" {
      assert s[0] in s;
      LowerKeeps(lower, s[1..]);
    }
  }

  /** The subject of a token: absent, a UUID in canonical or in another spelling, or something else. */
  datatype Sub = Absent | UuidText(id: nat, canonical: bool) | OtherText

  datatype Claims = Claims(sub: Sub, scopes: seq<string>, roles: seq<string>, serviceAccount: bool)

  class Actor {
    const id: nat
    const kind: string
    const scopes: seq<string>
    var permissions: seq<string>
    var isAdmin: bool

    constructor (id: nat, kind: string, scopes: seq<string>, permissions: seq<string>, isAdmin: bool)
      ensures this.id == id && this.kind == kind && this.scopes == scopes
      ensures this.permissions == permissions && this.isAdmin == isAdmin
    {
      this.id, this.kind, this.scopes := id, kind, scopes;
      this.permissions, this.isAdmin := permissions, isAdmin;
    }

    /** IsAdmin says whether the permissions hold the service's admin role. */
    predicate Valid(adminRole: string)
      reads this
    {
      isAdmin <==> adminRole in permissions
    }
  }

  class Authenticator {
    const adminRole: string
    const hasUserInfo: bool

    constructor (lower: char -> char, serviceName: string, hasUserInfo: bool)
      ensures adminRole == AdminRoleFor(lower, serviceName) && this.hasUserInfo == hasUserInfo
    {
      adminRole := AdminRoleFor(lower, serviceName);
      this.hasUserInfo := hasUserInfo;
    }

    /** The actor of validated claims: a service actor without permissions, or a user actor with the token's roles. */
    method ActorFor(c: Claims, resolves: bool) returns (actor: Actor?)
      ensures actor == null <==> !c.sub.UuidText? || (!c.serviceAccount && !resolves)
      ensures actor != null ==>
                && fresh(actor) && actor.Valid(adminRole)
                && actor.id == c.sub.id && actor.scopes == c.scopes
                && actor.kind == (if c.serviceAccount then ServiceType else UserType)
                && actor.permissions == (if c.serviceAccount then [] else c.roles)
    {
      if !c.sub.UuidText? || (!c.serviceAccount && !resolves) {
        return null;
      }
      if c.serviceAccount {
        actor := new Actor(c.sub.id, ServiceType, c.scopes, [], false);
      } else {
        var isAdmin := Contains(c.roles, adminRole);
        actor := new Actor(c.sub.id, UserType, c.scopes, c.roles, isAdmin);
      }
    }

    /**
     Completes the roles of a user actor that has none from the userinfo endpoint. The two kinds of error, a failed
     fetch and a subject that is not the actor's canonical id, leave the actor as it was.
     */
    method EnsureRoles(actor: Actor?, fetched: Option<Claims>) returns (err: bool)
      requires actor != null ==> actor.Valid(adminRole)
      modifies actor
      ensures actor != null ==> actor.Valid(adminRole)
      ensures err <==>
                && hasUserInfo && actor != null && actor.kind == UserType && old(actor.permissions) == []
                && (fetched.None? || (!fetched.value.sub.Absent? && fetched.value.sub != UuidText(actor.id, true)))
      ensures actor != null ==>
                if hasUserInfo && actor.kind == UserType && old(actor.permissions) == [] && !err
                then actor.permissions == fetched.value.roles
                else actor.permissions == old(actor.permissions)
    {
      if !hasUserInfo || actor == null || actor.kind != UserType || |actor.permissions| > 0 {
        return false;
      }
      if fetched.None? {
        return true;
      }
      var claims := fetched.value;
      if !claims.sub.Absent? && claims.sub != UuidText(actor.id, true) {
        return true;
      }
      actor.permissions := claims.roles;
      var isAdmin := Contains(claims.roles, adminRole);
      actor.isAdmin := isAdmin;
      err := false;
    }
  }

  /** An admin of a lower-case service passes the permission half for every permission of that service. */
  lemma AdminPasses(lower: char -> char, actor: Actor, service: string, required: seq<string>)
    requires Lowers(lower) && ':' !in service && ToLower(lower, service) == service
    requires actor.Valid(AdminRoleFor(lower, service)) && actor.isAdmin
    requires forall p | p in required :: exists rest :: p == service + ":" + rest
    ensures AllCovered(actor.permissions, required)
  {
    forall p | p in required ensures Covers(Elements(actor.permissions), p) {
      var rest :| p == service + ":" + rest;
      AdminCoversService(lower, service, rest);
      var s :| s in {AdminRoleFor(lower, service)} * Grants(p);
      assert s in Elements(actor.permissions) * Grants(p);
    }
  }
}
