/** From the configured role table to the admission of one request. */
module Authorization {
  import opened Wrappers
  import opened Claims
  import opened Text
  import opened RoleGraph

  datatype Role = Role(inherits: seq<string>, permissions: seq<string>, priority: int)

  type Roles = map<string, Role>

  datatype RankError = UnknownRole(name: string)

  /** The rank of a configured role; an unknown name is an error, never rank zero. */
  function Priority(roles: Roles, name: string): Result<int, RankError> {
    if name in roles then Ok(roles[name].priority) else Err(UnknownRole(name))
  }

  function PermissionTable(roles: Roles): map<string, seq<string>> {
    map name | name in roles :: roles[name].permissions
  }

  function InheritanceTable(roles: Roles): map<string, seq<string>> {
    map name | name in roles :: roles[name].inherits
  }

  datatype VerifierError = InvalidSignature | VerifierUnavailable

  datatype Refusal =
    | Unauthenticated
    | VerifierRefused(cause: VerifierError)
    | UnknownRoleInToken(name: string)
    | Forbidden

  datatype Verdict = Admitted(claims: Option<AccessClaims>) | Refused(why: Refusal)

  // The inheritance graph, said of the configuration alone.

  ghost predicate Inherits(roles: Roles, role: string, parent: string) {
    role in roles && parent in roles[role].inherits
  }

  /** Each role after the first is one that the role before it inherits. */
  ghost predicate RolePath(roles: Roles, path: seq<string>) {
    && |path| > 0
    && forall i :: 0 < i < |path| ==> Inherits(roles, path[i - 1], path[i])
  }

  ghost predicate RoleCycle(roles: Roles) {
    exists path :: RolePath(roles, path) && |path| > 1 && path[0] == path[|path| - 1]
  }

  ghost predicate UndefinedParent(roles: Roles) {
    exists role, parent :: Inherits(roles, role, parent) && parent !in roles
  }

  /** The role path leads from the role to one that is configured with the permission. */
  ghost predicate LeadsTo(roles: Roles, path: seq<string>, role: string, permission: string) {
    && RolePath(roles, path) && path[0] == role
    && path[|path| - 1] in roles && permission in roles[path[|path| - 1]].permissions
  }

  lemma RolePathIsPath(roles: Roles, path: seq<string>)
    ensures RolePath(roles, path) <==> IsPath(InheritanceTable(roles), path)
  {
    forall i | 0 < i < |path|
      ensures Inherits(roles, path[i - 1], path[i]) <==> IsEdge(InheritanceTable(roles), path[i - 1], path[i])
    {
    }
  }

  /** The two tables given to the resolver carry the configured graph and nothing else. */
  lemma TablesAreTheConfiguration(roles: Roles)
    ensures HasCycle(InheritanceTable(roles)) <==> RoleCycle(roles)
    ensures NamesUndefinedParent(PermissionTable(roles), InheritanceTable(roles)) <==> UndefinedParent(roles)
    ensures forall path, role, permission ::
              Leads(PermissionTable(roles), InheritanceTable(roles), path, role, permission)
              <==> LeadsTo(roles, path, role, permission)
  {
    forall path ensures RolePath(roles, path) <==> IsPath(InheritanceTable(roles), path) {
      RolePathIsPath(roles, path);
    }
    if UndefinedParent(roles) {
      var role, parent :| Inherits(roles, role, parent) && parent !in roles;
      assert parent in InheritanceTable(roles)[role];
      assert parent !in Modules(PermissionTable(roles), InheritanceTable(roles));
    }
    if NamesUndefinedParent(PermissionTable(roles), InheritanceTable(roles)) {
      var deps := InheritanceTable(roles);
      var m, p :| m in deps && p in deps[m] && p !in Modules(PermissionTable(roles), deps);
      assert Inherits(roles, m, p) && p in roles ==> p in PermissionTable(roles);
    }
  }

  /** The role leads, through zero or more Inherits edges, to one configured with the permission. */
  ghost predicate RoleReaches(roles: Roles, role: string, permission: string) {
    exists path :: LeadsTo(roles, path, role, permission)
  }

  lemma ReachesIsRoleReaches(roles: Roles, role: string, permission: string)
    ensures Reaches(PermissionTable(roles), InheritanceTable(roles), role, permission)
            <==> RoleReaches(roles, role, permission)
  {
    TablesAreTheConfiguration(roles);
    var mods, deps := PermissionTable(roles), InheritanceTable(roles);
    if Reaches(mods, deps, role, permission) {
      var path :| Leads(mods, deps, path, role, permission);
      assert LeadsTo(roles, path, role, permission);
    }
    if RoleReaches(roles, role, permission) {
      var path :| LeadsTo(roles, path, role, permission);
      assert Leads(mods, deps, path, role, permission);
    }
  }

  /** The permissions of a role are its own, in order, and all those of the roles it leads to. */
  ghost predicate Resolved(roles: Roles, table: map<string, seq<string>>) {
    && table.Keys == roles.Keys
    && (forall role :: role in roles ==> roles[role].permissions <= table[role])
    && (forall role, permission :: role in roles ==>
          (permission in table[role] <==> RoleReaches(roles, role, permission)))
  }

  lemma PromisedIsResolved(roles: Roles, table: map<string, seq<string>>)
    requires Promised(PermissionTable(roles), InheritanceTable(roles), table)
    ensures Resolved(roles, table)
  {
    var mods := PermissionTable(roles);
    assert table.Keys == mods.Keys + InheritanceTable(roles).Keys == roles.Keys;
    forall role | role in roles ensures roles[role].permissions <= table[role] {
      assert role in mods && mods[role] == roles[role].permissions;
    }
    forall role, permission | role in roles
      ensures permission in table[role] <==> RoleReaches(roles, role, permission)
    {
      ReachesIsRoleReaches(roles, role, permission);
    }
  }

  /** Resolves the role table once, at startup; an unresolvable table stops the program. */
  method NewAuthHandler(roles: Roles) returns (resolved: Result<map<string, seq<string>>, ResolveError>)
    ensures resolved.Ok? <==> !RoleCycle(roles) && !UndefinedParent(roles)
    ensures resolved.Ok? ==> IsFlattening(PermissionTable(roles), InheritanceTable(roles), resolved.value)
    ensures resolved.Ok? ==> Resolved(roles, resolved.value)
  {
    TablesAreTheConfiguration(roles);
    resolved := ResolveDependants(PermissionTable(roles), InheritanceTable(roles));
    if resolved.Ok? { PromisedIsResolved(roles, resolved.value); }
  }

  /** The header is exactly the word Bearer, one space, and a token without spaces. */
  ghost predicate IsBearer(header: string, token: string) {
    header == "Bearer " + token && ' ' !in token
  }

  lemma BearerParts(header: string)
    ensures |Split(header, ' ')| == 2 && Split(header, ' ')[0] == "Bearer"
            <==> exists token :: IsBearer(header, token)
    ensures forall token :: IsBearer(header, token) ==> Split(header, ' ') == ["Bearer", token]
  {
    var parts := Split(header, ' ');
    forall token | IsBearer(header, token) ensures parts == ["Bearer", token] {
      assert header == "Bearer" + [' '] + token;
      SplitFirst("Bearer", token, ' ');
      SplitWhole(token, ' ');
    }
    if |parts| == 2 && parts[0] == "Bearer" {
      JoinSplit(header, ' ');
      PartsAreClean(header, ' ');
      assert Join(parts[1..], ' ') == parts[1];
      assert "Bearer" + [' '] + parts[1] == "Bearer " + parts[1];
      assert IsBearer(header, parts[1]);
    }
  }

  ghost predicate Grants(table: map<string, seq<string>>, role: string, required: seq<string>) {
    role in table && exists permission :: permission in table[role] && permission in required
  }

  /** Scanning the roles in order, `at` is the first that is unknown or grants something required. */
  ghost predicate FirstDeciding(table: map<string, seq<string>>, required: seq<string>, roles: seq<string>, at: int) {
    && 0 <= at < |roles|
    && (roles[at] in table ==> Grants(table, roles[at], required))
    && forall j :: 0 <= j < at ==> roles[j] in table && !Grants(table, roles[j], required)
  }

  lemma FirstDecidingIsUnique(table: map<string, seq<string>>, required: seq<string>, roles: seq<string>, first: int)
    requires FirstDeciding(table, required, roles, first)
    ensures forall k :: FirstDeciding(table, required, roles, k) ==> k == first
  {
  }

  /** Every outcome of the scan, each with the exact condition under which it is given. */
  ghost predicate Decides(
    table: map<string, seq<string>>, required: seq<string>, claims: AccessClaims, verdict: Verdict)
  {
    var held := claims.roles;
    && (verdict == Admitted(Some(claims)) <==>
        exists k :: FirstDeciding(table, required, held, k) && held[k] in table)
    && (forall name :: verdict == Refused(UnknownRoleInToken(name)) <==>
        exists k :: FirstDeciding(table, required, held, k) && held[k] == name && name !in table)
    && (verdict == Refused(Forbidden) <==> !exists k :: FirstDeciding(table, required, held, k))
  }

  /** The scan over the token's roles. */
  method CheckRoles(
    table: map<string, seq<string>>, required: seq<string>, claims: AccessClaims)
    returns (verdict: Verdict)
    ensures Decides(table, required, claims, verdict)
  {
    var wanted := set permission | permission in required;
    for i := 0 to |claims.roles|
      invariant forall j :: 0 <= j < i ==> claims.roles[j] in table && !Grants(table, claims.roles[j], required)
    {
      var role := claims.roles[i];
      if role !in table {
        FirstDecidingIsUnique(table, required, claims.roles, i);
        return Refused(UnknownRoleInToken(role));
      }
      if exists permission :: permission in table[role] && permission in wanted {
        FirstDecidingIsUnique(table, required, claims.roles, i);
        return Admitted(Some(claims));
      }
    }
    return Refused(Forbidden);
  }

  /** One request: `verify` is the json-keys claims verifier, `table` the flattened permissions. */
  method Middleware(table: map<string, seq<string>>, required: seq<string>, header: string,
                    verify: string -> Result<AccessClaims, VerifierError>)
    returns (verdict: Verdict)
    ensures header == "" && required == [] ==> verdict == Admitted(None)
    ensures header == "" && required != [] ==> verdict == Refused(Unauthenticated)
    ensures header != "" && !(exists token :: IsBearer(header, token)) ==> verdict == Refused(Unauthenticated)
    ensures forall token :: IsBearer(header, token) ==>
              match verify(token)
              case Err(cause) => verdict == Refused(VerifierRefused(cause))
              case Ok(claims) =>
                if required == [] then verdict == Admitted(Some(claims))
                else Decides(table, required, claims, verdict)
  {
    BearerParts(header);
    if header == "" && |required| == 0 {
      return Admitted(None);
    }
    if header == "" {
      return Refused(Unauthenticated);
    }
    var authToken := Split(header, ' ');
    if |authToken| != 2 || authToken[0] != "Bearer" {
      return Refused(Unauthenticated);
    }
    var verified := verify(authToken[1]);
    if verified.Err? {
      return Refused(VerifierRefused(verified.error));
    }
    if |required| > 0 {
      verdict := CheckRoles(table, required, verified.value);
    } else {
      verdict := Admitted(Some(verified.value));
    }
  }

  // ---------------------------------------------------------------------------------------
  // The decision in terms of the configured table alone.

  /** The role leads, through zero or more Inherits edges, to a role that lists a required permission. */
  ghost predicate InheritsRequired(roles: Roles, role: string, required: seq<string>) {
    exists permission :: permission in required && RoleReaches(roles, role, permission)
  }

  ghost predicate FirstDecidingRole(roles: Roles, required: seq<string>, held: seq<string>, at: int) {
    && 0 <= at < |held|
    && (held[at] in roles ==> InheritsRequired(roles, held[at], required))
    && forall j :: 0 <= j < at ==> held[j] in roles && !InheritsRequired(roles, held[j], required)
  }

  lemma GrantsIsInheritance(roles: Roles, table: map<string, seq<string>>, role: string, required: seq<string>)
    requires !RoleCycle(roles)
    requires IsFlattening(PermissionTable(roles), InheritanceTable(roles), table)
    requires role in roles
    ensures role in table && (Grants(table, role, required) <==> InheritsRequired(roles, role, required))
  {
    TablesAreTheConfiguration(roles);
    forall permission | permission in required
      ensures permission in table[role] <==> RoleReaches(roles, role, permission)
    {
      ReachesIsRoleReaches(roles, role, permission);
      FlatteningIsReachability(PermissionTable(roles), InheritanceTable(roles), table, role, permission);
    }
  }

  /** The scan over the flattened table decides exactly as a scan over the inheritance graph. */
  lemma EndToEndAuthorization(roles: Roles, table: map<string, seq<string>>, required: seq<string>, held: seq<string>)
    requires !RoleCycle(roles)
    requires IsFlattening(PermissionTable(roles), InheritanceTable(roles), table)
    ensures forall k {:trigger FirstDeciding(table, required, held, k)}
              {:trigger FirstDecidingRole(roles, required, held, k)} ::
              FirstDeciding(table, required, held, k) <==> FirstDecidingRole(roles, required, held, k)
    ensures forall name :: name in table <==> name in roles
  {
    assert table.Keys == roles.Keys;
    forall role | role in roles
      ensures Grants(table, role, required) <==> InheritsRequired(roles, role, required)
    {
      GrantsIsInheritance(roles, table, role, required);
    }
  }

  /** What the token's roles decide, said of the configuration alone: admission, the refusal that
      names an unknown role, and the plain refusal. */
  ghost predicate DecidesByInheritance(roles: Roles, required: seq<string>, claims: AccessClaims, verdict: Verdict) {
    var held := claims.roles;
    && (verdict == Admitted(Some(claims)) <==>
        exists k :: FirstDecidingRole(roles, required, held, k) && held[k] in roles)
    && (forall name :: verdict == Refused(UnknownRoleInToken(name)) <==>
        exists k :: FirstDecidingRole(roles, required, held, k) && held[k] == name && name !in roles)
    && (verdict == Refused(Forbidden) <==> !exists k :: FirstDecidingRole(roles, required, held, k))
  }

  lemma AdmissionIsInheritance(
    roles: Roles, table: map<string, seq<string>>, required: seq<string>, claims: AccessClaims, verdict: Verdict)
    requires !RoleCycle(roles)
    requires IsFlattening(PermissionTable(roles), InheritanceTable(roles), table)
    requires Decides(table, required, claims, verdict)
    ensures DecidesByInheritance(roles, required, claims, verdict)
  {
    EndToEndAuthorization(roles, table, required, claims.roles);
  }

  /** The two halves together: the handler built from a role table, serving one request. */
  method Authorize(
    roles: Roles, required: seq<string>, header: string, verify: string -> Result<AccessClaims, VerifierError>)
    returns (result: Result<Verdict, ResolveError>)
    ensures result.Ok? <==> !RoleCycle(roles) && !UndefinedParent(roles)
    ensures result.Ok? && header == "" ==>
              result.value == if required == [] then Admitted(None) else Refused(Unauthenticated)
    ensures result.Ok? && header != "" && !(exists token :: IsBearer(header, token)) ==>
              result.value == Refused(Unauthenticated)
    ensures result.Ok? ==> forall token :: IsBearer(header, token) ==>
              match verify(token)
              case Err(cause) => result.value == Refused(VerifierRefused(cause))
              case Ok(claims) =>
                if required == [] then result.value == Admitted(Some(claims))
                else DecidesByInheritance(roles, required, claims, result.value)
  {
    var resolved := NewAuthHandler(roles);
    if resolved.Err? {
      return Err(resolved.error);
    }
    var verdict := Middleware(resolved.value, required, header, verify);
    forall token | IsBearer(header, token) && verify(token).Ok? && required != []
      ensures DecidesByInheritance(roles, required, verify(token).value, verdict)
    {
      AdmissionIsInheritance(roles, resolved.value, required, verify(token).value, verdict);
    }
    return Ok(verdict);
  }

  /** A parent that no entry defines is reported as a cycle although there is none. */
  lemma UndefinedParentIsNoCycle()
    ensures var roles: Roles := map["auth:user" := Role(["auth:ghost"], [], 1)];
            !RoleCycle(roles) && UndefinedParent(roles)
  {
    var roles: Roles := map["auth:user" := Role(["auth:ghost"], [], 1)];
    forall path | RolePath(roles, path) && |path| > 1 ensures path[0] != path[|path| - 1] {
      assert Inherits(roles, path[0], path[1]);
      assert |path| > 2 ==> Inherits(roles, path[1], path[2]);
    }
    assert Inherits(roles, "auth:user", "auth:ghost");
  }
}
