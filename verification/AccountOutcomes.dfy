/** What each identity flow comes to: exactly when it commits, what it then leaves row by row, and why
    it is refused otherwise, told by the two tables and the request alone. */
module AccountOutcomes {
  import opened Wrappers
  import opened Claims
  import opened ShortCodes
  import opened Authorization
  import opened Ranks
  import opened Accounts
  import Sessions

  /** None of the first so many calls fails. */
  predicate Spared(outage: Outage, calls: nat) {
    outage.None? || outage.value >= calls
  }

  ghost predicate Holds(accounts: AccountTable, u: Uuid, email: string) {
    u in accounts && accounts[u].email == email
  }

  ghost predicate Held(accounts: AccountTable, email: string) {
    exists u :: Holds(accounts, u, email)
  }

  lemma HeldIsTaken(accounts: AccountTable, email: string)
    ensures Held(accounts, email) <==> EmailTaken(accounts, email)
  {
    if EmailTaken(accounts, email) {
      var u :| u in accounts && accounts[u].email == email;
      assert Holds(accounts, u, email);
    }
  }

  // ---------------------------------------------------------------------------------------
  // Issuing.

  /** The code is in force for its pair, as asked for and until its lifetime is over; what was in
      force before is deleted as overridden, and nothing of another pair is touched. */
  ghost predicate Issued(
    h: Hasher, db: Db, db': Db, usage: Usage, target: string, data: Option<string>, mint: Mint)
  {
    && db'.accounts == db.accounts
    && mint.id !in db.codes && db'.codes.Keys == db.codes.Keys + {mint.id}
    && db'.codes[mint.id]
       == ShortCode(mint.id, h.hash(mint.code), usage, target, data,
                    Rounded(mint.now), Rounded(mint.now + mint.ttl), None)
    && forall id :: id in db.codes ==>
         if db.codes[id].usage != usage || db.codes[id].target != target then db'.codes[id] == db.codes[id]
         else if db.codes[id].deletion.None? then
           db'.codes[id] == db.codes[id].(deletion := Some(Deletion(Rounded(mint.now - 1_000_000), Override)))
         else db'.codes[id] == db.codes[id].(deletion := db'.codes[id].deletion) && db'.codes[id].deletion.Some?
  }

  lemma InsertedIsIssued(
    h: Hasher, db: Db, usage: Usage, target: string, data: Option<string>, mint: Mint, clock: Time)
    requires Inserted(db.codes, RequestOf(h, usage, target, data, mint), clock).Ok?
    ensures Issued(h, db, db.(codes := Inserted(db.codes, RequestOf(h, usage, target, data, mint), clock).value),
                   usage, target, data, mint)
  {
    InsertEffect(db.codes, RequestOf(h, usage, target, data, mint), clock);
  }

  lemma IssueOutcome(
    h: Hasher, db: Db, usage: Usage, target: string, data: Option<string>, mint: Mint, clock: Time, outage: Outage)
    ensures match IssueCode(h, db, usage, target, data, mint, clock, outage)
            case Committed(db', spent) =>
              Spared(outage, 2) && Issued(h, db, db', usage, target, data, mint) && spent == None
            case RolledBack(e) =>
              e == CodeNotIssued(if Spared(outage, 2) then AlreadyExists else InsertUnavailable)
              && (Spared(outage, 2) ==> mint.id in db.codes)
  {
    var r := RequestOf(h, usage, target, data, mint);
    InsertIsAcceptedExactly(db.codes, r, clock);
    if Inserted(db.codes, r, clock).Ok? { InsertedIsIssued(h, db, usage, target, data, mint, clock); }
  }

  /** A registration code goes to a free address and to that address only. */
  lemma RegisterCodeOutcome(h: Hasher, db: Db, email: string, mint: Mint, clock: Time, outage: Outage)
    ensures match RequestRegister(h, db, email, mint, clock, outage)
            case Committed(db', _) =>
              Spared(outage, 3) && !Held(db.accounts, email) && Issued(h, db, db', Register, email, None, mint)
            case RolledBack(AccountExists) => outage != Some(0) && Held(db.accounts, email)
            case RolledBack(CodeNotIssued(AlreadyExists)) => Spared(outage, 3) && mint.id in db.codes
            case RolledBack(CodeNotIssued(InsertUnavailable)) => outage in {Some(1), Some(2)}
            case RolledBack(e) => e == Unavailable && outage == Some(0)
    ensures RequestRegister(h, db, email, mint, clock, outage).Committed?
            <==> Spared(outage, 3) && !Held(db.accounts, email) && mint.id !in db.codes
    ensures Held(db.accounts, email) && outage != Some(0) ==>
              RequestRegister(h, db, email, mint, clock, outage) == RolledBack(AccountExists)
  {
    HeldIsTaken(db.accounts, email);
    IssueOutcome(h, db, Register, email, None, mint, clock, Remaining(outage, 1));
  }

  /** A change code is bound to the user and carries the address, which nobody may hold. */
  lemma EmailChangeCodeOutcome(h: Hasher, db: Db, user: Uuid, email: string, mint: Mint, clock: Time, outage: Outage)
    ensures match RequestEmailChange(h, db, user, email, mint, clock, outage)
            case Committed(db', _) => Issued(h, db, db', ValidateEmail, user, Some(email), mint)
            case RolledBack(AccountExists) => outage != Some(0) && Held(db.accounts, email)
            case RolledBack(CodeNotIssued(AlreadyExists)) => Spared(outage, 3) && mint.id in db.codes
            case RolledBack(CodeNotIssued(InsertUnavailable)) => outage in {Some(1), Some(2)}
            case RolledBack(e) => e == Unavailable && outage == Some(0)
    ensures RequestEmailChange(h, db, user, email, mint, clock, outage).Committed?
            <==> Spared(outage, 3) && !Held(db.accounts, email) && mint.id !in db.codes
    ensures Held(db.accounts, email) && outage != Some(0) ==>
              RequestEmailChange(h, db, user, email, mint, clock, outage) == RolledBack(AccountExists)
  {
    HeldIsTaken(db.accounts, email);
    IssueOutcome(h, db, ValidateEmail, user, Some(email), mint, clock, Remaining(outage, 1));
  }

  /** A reset code is bound to the account that holds the address. */
  lemma ResetCodeOutcome(h: Hasher, db: Db, u: Uuid, email: string, mint: Mint, clock: Time, outage: Outage)
    requires UniqueEmails(db.accounts)
    ensures Holds(db.accounts, u, email) ==>
              match RequestPasswordReset(h, db, email, mint, clock, outage)
              case Committed(db', _) => Issued(h, db, db', ResetPassword, u, None, mint)
              case RolledBack(CodeNotIssued(AlreadyExists)) => Spared(outage, 3) && mint.id in db.codes
              case RolledBack(CodeNotIssued(InsertUnavailable)) => outage in {Some(1), Some(2)}
              case RolledBack(e) => e == Unavailable && outage == Some(0)
    ensures RequestPasswordReset(h, db, email, mint, clock, outage).Committed?
            <==> Spared(outage, 3) && Held(db.accounts, email) && mint.id !in db.codes
    ensures !Held(db.accounts, email) && outage != Some(0) ==>
              RequestPasswordReset(h, db, email, mint, clock, outage) == RolledBack(NoSuchAccount)
  {
    HeldIsTaken(db.accounts, email);
    var holder := HolderOf(db.accounts, email);
    if holder.Some? {
      IssueOutcome(h, db, ResetPassword, holder.value, None, mint, clock, Remaining(outage, 1));
    }
  }

  // ---------------------------------------------------------------------------------------
  // Redeeming.

  /** The row is in force for the pair, for the database and for the service, and the code is its own. */
  ghost predicate CanRedeem(h: Hasher, codes: Table, id: Uuid, usage: Usage, target: string, plain: string, m: Moment) {
    && id in codes && codes[id].deletion.None? && codes[id].usage == usage && codes[id].target == target
    && codes[id].expiresAt > m.db && codes[id].expiresAt >= m.check
    && h.matches(plain, codes[id].code)
  }

  ghost predicate SomeCode(h: Hasher, codes: Table, usage: Usage, target: string, plain: string, m: Moment) {
    exists id :: CanRedeem(h, codes, id, usage, target, plain, m)
  }

  /** The row is dated as consumed, to the second, and no other row changes. */
  ghost predicate SpentIn(codes: Table, codes': Table, id: Uuid, now: Time) {
    id in codes && codes' == codes[id := codes[id].(deletion := Some(Deletion(Rounded(now), Consumed)))]
  }

  ghost predicate Waiting(codes: Table, id: Uuid, usage: Usage, target: string, clock: Time) {
    && id in codes && codes[id].deletion.None? && codes[id].usage == usage && codes[id].target == target
    && codes[id].expiresAt > clock
  }

  /** Success, and each of the refusals, exactly when it is due. */
  lemma RedemptionOutcome(
    h: Hasher, codes: Table, id: Uuid, usage: Usage, target: string, plain: string, m: Moment, outage: Outage)
    requires Sound(codes)
    ensures var r := Redemption(h.matches, codes, usage, target, plain, m, outage);
            && (r == Ok(id) <==> CanRedeem(h, codes, id, usage, target, plain, m) && Spared(outage, 2))
            && (r.Ok? <==> SomeCode(h, codes, usage, target, plain, m) && Spared(outage, 2))
            && (r == Err(NotFound) <==> outage != Some(0) && forall x :: !Waiting(codes, x, usage, target, m.db))
            && (Waiting(codes, id, usage, target, m.db) && outage != Some(0) ==>
                  && (r == Err(Expired) <==> codes[id].expiresAt < m.check)
                  && (r == Err(Invalid) <==> codes[id].expiresAt >= m.check && !h.matches(plain, codes[id].code)))
  {
    var selected := Selected(codes, usage, target, m.db);
    if selected.Some? {
      assert Waiting(codes, selected.value, usage, target, m.db);
      forall x | Waiting(codes, x, usage, target, m.db) ensures x == selected.value {
      }
      forall x | CanRedeem(h, codes, x, usage, target, plain, m) ensures x == selected.value {
        assert Waiting(codes, x, usage, target, m.db);
      }
      if Redemption(h.matches, codes, usage, target, plain, m, outage).Ok? {
        assert CanRedeem(h, codes, selected.value, usage, target, plain, m);
      }
    } else {
      forall x ensures !Waiting(codes, x, usage, target, m.db) && !CanRedeem(h, codes, x, usage, target, plain, m) {
        assert x in codes ==> !Selects(codes[x], usage, target, m.db);
      }
    }
  }

  /** A registration commits exactly with a redeemable code for a free, non-empty address, and then
      spends that code and adds that account and nothing else. */
  lemma RegistrationOutcome(
    h: Hasher, db: Db, id: Uuid, email: string, password: Secret, plain: string, m: Moment, now: Time, outage: Outage)
    requires Sound(db.codes)
    ensures CreateAccount(h, db, id, email, password, plain, m, now, outage).Committed?
            <==> && Spared(outage, 3) && SomeCode(h, db.codes, Register, email, plain, m)
                 && email != "" && id !in db.accounts && !Held(db.accounts, email)
    ensures match CreateAccount(h, db, id, email, password, plain, m, now, outage)
            case Committed(db', spent) =>
              && spent.Some? && CanRedeem(h, db.codes, spent.value, Register, email, plain, m)
              && SpentIn(db.codes, db'.codes, spent.value, m.write)
              && db'.accounts
                 == db.accounts[id := Account(email, h.hash(password), "auth:user", Rounded(now), Rounded(now))]
            case RolledBack(CodeRefused(e)) =>
              Redemption(h.matches, db.codes, Register, email, plain, m, outage) == Err(e)
            case RolledBack(AccountExists) =>
              && SomeCode(h, db.codes, Register, email, plain, m) && email != ""
              && (id in db.accounts || Held(db.accounts, email))
            case RolledBack(e) => e == Unavailable && (outage == Some(2) || email == "")
  {
    HeldIsTaken(db.accounts, email);
    var r := Redemption(h.matches, db.codes, Register, email, plain, m, outage);
    RedemptionOutcome(h, db.codes, if r.Ok? then r.value else id, Register, email, plain, m, outage);
  }

  /** The address another account holds. */
  ghost predicate HeldByOther(accounts: AccountTable, user: Uuid, email: string) {
    exists u :: u != user && Holds(accounts, u, email)
  }

  lemma HeldByOtherIsTaken(accounts: AccountTable, user: Uuid, email: string)
    ensures HeldByOther(accounts, user, email) <==> EmailTaken(accounts - {user}, email)
  {
    if EmailTaken(accounts - {user}, email) {
      var u :| u in accounts - {user} && (accounts - {user})[u].email == email;
      assert Holds(accounts, u, email);
    }
    if HeldByOther(accounts, user, email) {
      var u :| u != user && Holds(accounts, u, email);
      assert u in accounts - {user} && (accounts - {user})[u].email == email;
    }
  }

  /** An email change that commits spends a redeemable code of the user and gives that user, and
      nobody else, the address the code carries; it is refused in exactly the cases listed. */
  lemma EmailChangeOutcome(
    h: Hasher, db: Db, user: Uuid, plain: string, code: Uuid, m: Moment, now: Time, outage: Outage)
    requires Sound(db.codes)
    ensures ChangeEmail(h, db, user, plain, m, now, outage).Committed? ==>
              SomeCode(h, db.codes, ValidateEmail, user, plain, m) && Spared(outage, 3)
    ensures CanRedeem(h, db.codes, code, ValidateEmail, user, plain, m) && Spared(outage, 2) ==>
              match db.codes[code].data
              case None => ChangeEmail(h, db, user, plain, m, now, outage) == RolledBack(BadPayload)
              case Some(email) =>
                if outage == Some(2) then ChangeEmail(h, db, user, plain, m, now, outage) == RolledBack(Unavailable)
                else if user !in db.accounts then
                  ChangeEmail(h, db, user, plain, m, now, outage) == RolledBack(NoSuchAccount)
                else if email == "" then ChangeEmail(h, db, user, plain, m, now, outage) == RolledBack(Unavailable)
                else if HeldByOther(db.accounts, user, email) then
                  ChangeEmail(h, db, user, plain, m, now, outage) == RolledBack(AccountExists)
                else
                  match ChangeEmail(h, db, user, plain, m, now, outage)
                  case RolledBack(_) => false
                  case Committed(db', spent) =>
                    var was := db.accounts[user];
                    && spent == Some(code) && SpentIn(db.codes, db'.codes, code, m.write)
                    && db'.accounts
                       == db.accounts[user := Account(email, was.password, was.role, was.createdAt, Rounded(now))]
  {
    RedemptionOutcome(h, db.codes, code, ValidateEmail, user, plain, m, outage);
    if CanRedeem(h, db.codes, code, ValidateEmail, user, plain, m) && db.codes[code].data.Some? {
      HeldByOtherIsTaken(db.accounts, user, db.codes[code].data.value);
    }
  }

  ghost predicate PasswordSet(h: Hasher, db: Db, db': Db, user: Uuid, password: Secret, now: Time) {
    && user in db.accounts
    && var was := db.accounts[user];
       db'.accounts == db.accounts[user := Account(was.email, h.hash(password), was.role, was.createdAt, Rounded(now))]
  }

  /** The reset path commits exactly with a redeemable code of an account that exists. */
  lemma ResetOutcome(
    h: Hasher, db: Db, user: Uuid, password: Secret, current: string, plain: string, m: Moment, now: Time,
    outage: Outage)
    requires Sound(db.codes) && plain != ""
    ensures UpdatePassword(h, db, user, password, current, plain, m, now, outage).Committed?
            <==> Spared(outage, 3) && SomeCode(h, db.codes, ResetPassword, user, plain, m) && user in db.accounts
    ensures match UpdatePassword(h, db, user, password, current, plain, m, now, outage)
            case Committed(db', spent) =>
              && spent.Some? && CanRedeem(h, db.codes, spent.value, ResetPassword, user, plain, m)
              && SpentIn(db.codes, db'.codes, spent.value, m.write) && PasswordSet(h, db, db', user, password, now)
            case RolledBack(CodeRefused(e)) =>
              Redemption(h.matches, db.codes, ResetPassword, user, plain, m, outage) == Err(e)
            case RolledBack(NoSuchAccount) => user !in db.accounts
            case RolledBack(e) => e == Unavailable && outage == Some(2)
  {
    var r := Redemption(h.matches, db.codes, ResetPassword, user, plain, m, outage);
    RedemptionOutcome(h, db.codes, if r.Ok? then r.value else user, ResetPassword, user, plain, m, outage);
  }

  /** The change path commits exactly with the current password of an account that exists, and spends
      no code. */
  lemma ChangeOutcome(
    h: Hasher, db: Db, user: Uuid, password: Secret, current: string, m: Moment, now: Time, outage: Outage)
    ensures UpdatePassword(h, db, user, password, current, "", m, now, outage).Committed?
            <==> && Spared(outage, 2) && current != "" && user in db.accounts
                 && h.matches(current, db.accounts[user].password)
    ensures match UpdatePassword(h, db, user, password, current, "", m, now, outage)
            case Committed(db', spent) =>
              spent == None && db'.codes == db.codes && PasswordSet(h, db, db', user, password, now)
            case RolledBack(RequestInvalid) => current == ""
            case RolledBack(NoSuchAccount) => current != "" && user !in db.accounts
            case RolledBack(WrongPassword) => user in db.accounts && !h.matches(current, db.accounts[user].password)
            case RolledBack(e) => e == Unavailable && outage in {Some(0), Some(1)}
  {
  }

  /** The bootstrap, whichever call fails: an absent account is created, a present one reconciled. */
  lemma BootstrapExact(h: Hasher, db: Db, id: Uuid, email: string, password: Secret, now: Time, u: Uuid, outage: Outage)
    requires UniqueEmails(db.accounts)
    ensures !Held(db.accounts, email) ==>
              match CreateSuperAdmin(h, db, id, email, password, now, outage)
              case Committed(db', _) =>
                && Spared(outage, 2) && email != "" && id !in db.accounts && db'.codes == db.codes
                && db'.accounts
                   == db.accounts[id := Account(email, h.hash(password), "auth:superadmin", Rounded(now), Rounded(now))]
              case RolledBack(e) =>
                if !Spared(outage, 2) || email == "" then e == Unavailable else e == AccountExists && id in db.accounts
    ensures Holds(db.accounts, u, email) ==>
              match CreateSuperAdmin(h, db, id, email, password, now, outage)
              case Committed(db', _) =>
                && Spared(outage, if db.accounts[u].role == "auth:superadmin" then 2 else 3) && db'.codes == db.codes
                && db'.accounts
                   == db.accounts[u := Account(email, h.hash(password), "auth:superadmin",
                                               db.accounts[u].createdAt, Rounded(now))]
              case RolledBack(e) =>
                e == Unavailable && !Spared(outage, if db.accounts[u].role == "auth:superadmin" then 2 else 3)
  {
    HeldIsTaken(db.accounts, email);
    var holder := HolderOf(db.accounts, email);
    if Holds(db.accounts, u, email) {
      assert holder == Some(u);
    }
  }

  // ---------------------------------------------------------------------------------------
  // Roles.

  ghost predicate HoldsRank(roles: Roles, db: Db, u: Uuid) {
    u in db.accounts && db.accounts[u].role in roles
  }

  /** The update meets its guards: a different account, both ranked, the actor above the target and
      not below the wanted role. */
  ghost predicate Allowed(roles: Roles, db: Db, u: RoleUpdate) {
    && u.wanted in roles && u.actor != u.target && HoldsRank(roles, db, u.target) && HoldsRank(roles, db, u.actor)
    && roles[db.accounts[u.target].role].priority < roles[db.accounts[u.actor].role].priority
    && roles[u.wanted].priority <= roles[db.accounts[u.actor].role].priority
  }

  /** An update commits exactly when its guards allow it and no call fails, and then the target, and
      nobody else, holds the wanted role, unless its rank is already that of the wanted role. */
  lemma RoleUpdateOutcome(db: Db, roles: Roles, u: RoleUpdate, now: Time, outage: Outage)
    ensures match UpdateRole(db, roles, u, now, outage)
            case Committed(db', spent) =>
              && Allowed(roles, db, u) && Spared(outage, 2) && spent == None && db'.codes == db.codes
              && var was := db.accounts[u.target];
                 if roles[u.wanted].priority == roles[was.role].priority then db' == db
                 else
                   && Spared(outage, 3)
                   && db'.accounts
                      == db.accounts[u.target := Account(was.email, was.password, u.wanted,
                                                         was.createdAt, Rounded(now))]
            case RolledBack(_) => !Allowed(roles, db, u) || !Spared(outage, 3)
    ensures Allowed(roles, db, u) && Spared(outage, 3) ==> UpdateRole(db, roles, u, now, outage).Committed?
  {
    UpdateIsExact(roles, HeldRoles(db.accounts), u);
  }

  /** Without an outage a refused update says which guard refused it. */
  lemma RoleRefusalIsNamed(db: Db, roles: Roles, u: RoleUpdate, now: Time)
    requires UpdateRole(db, roles, u, now, None).RolledBack?
    ensures match UpdateRole(db, roles, u, now, None).error
            case RoleRefused(InvalidRequest) => u.wanted !in roles
            case RoleRefused(SelfUpdate) => u.wanted in roles && u.actor == u.target
            case RoleRefused(AccountNotFound) => u.target !in db.accounts || u.actor !in db.accounts
            case RoleRefused(UnknownStoredRole(name)) =>
              && u.target in db.accounts && u.actor in db.accounts && name !in roles
              && (name == db.accounts[u.target].role || name == db.accounts[u.actor].role)
            case RoleRefused(ToHigher) =>
              && HoldsRank(roles, db, u.actor) && HoldsRank(roles, db, u.target) && u.wanted in roles
              && roles[u.wanted].priority > roles[db.accounts[u.actor].role].priority
              && roles[u.wanted].priority >= roles[db.accounts[u.target].role].priority
            case RoleRefused(DowngradeSuperior) =>
              && HoldsRank(roles, db, u.actor) && HoldsRank(roles, db, u.target) && u.wanted in roles
              && roles[u.wanted].priority <= roles[db.accounts[u.target].role].priority
              && roles[db.accounts[u.target].role].priority >= roles[db.accounts[u.actor].role].priority
            case _ => false
  {
    UpdateRefusalIsNamed(roles, HeldRoles(db.accounts), u);
  }

  // ---------------------------------------------------------------------------------------
  // Signing in.

  /** A login is that of the account that holds the address, exactly with its password. */
  lemma LoginOutcome(h: Hasher, db: Db, email: string, attempt: string, u: Uuid, fails: bool)
    requires UniqueEmails(db.accounts)
    ensures Login(h, db, email, attempt, fails) == Ok(u)
            <==> !fails && Holds(db.accounts, u, email) && h.matches(attempt, db.accounts[u].password)
    ensures Login(h, db, email, attempt, fails) == Err(NoSuchAccount) <==> !fails && !Held(db.accounts, email)
    ensures Holds(db.accounts, u, email) && !fails && !h.matches(attempt, db.accounts[u].password) ==>
              Login(h, db, email, attempt, fails) == Err(WrongPassword)
    ensures Login(h, db, email, attempt, fails) == Err(Unavailable) <==> fails
  {
    HeldIsTaken(db.accounts, email);
    if Holds(db.accounts, u, email) { assert HolderOf(db.accounts, email) == Some(u); }
  }

  /** The pair an account gets: an access token with its user and stored role and a refresh token of
      that user, bound to each other, and the one renews the other. */
  lemma SignedOutcome(world: Sessions.World, accounts: AccountTable, user: Uuid, signer: Signer)
    requires user in accounts
    requires var w := world.(roles := HeldRoles(accounts));
             Sessions.Binding(w) && Sessions.SignerLawful(w, Sessions.SignIn(user, signer.refresh, signer.access))
    ensures Signed(world, accounts, user, signer).1.Ok? <==> signer.refresh.Some? && signer.access.Some?
    ensures match Signed(world, accounts, user, signer)
            case (_, Err(e)) => e == Unavailable
            case (world', Ok(pair)) =>
              && pair.access == signer.access.value && pair.refresh == Some(signer.refresh.value.0)
              && pair.access in world'.access
              && world'.access[pair.access]
                 == AccessClaims(Some(user), [accounts[user].role], signer.refresh.value.1)
              && pair.refresh.value in world'.refresh
              && world'.refresh[pair.refresh.value] == RefreshClaims(signer.refresh.value.1, user)
              && Sessions.Renewal(world', pair.access, pair.refresh.value, false).Ok?
  {
    Sessions.SignedPairWorks(world.(roles := HeldRoles(accounts)), user, signer.refresh, signer.access);
  }
}
