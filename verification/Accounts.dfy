/** The identity flows over the two tables. Each flow is one transaction: the functions say what it
    commits, or that it commits nothing; the class runs it statement by statement, with rollback. */
module Accounts {
  import opened Wrappers
  import opened Claims
  import opened Argon2
  import opened Base64
  import opened ShortCodes
  import opened Authorization
  import opened Ranks
  import Sessions

  const ROLE_USER := "auth:user"
  const ROLE_SUPER_ADMIN := "auth:superadmin"

  datatype Account = Account(email: string, password: string, role: string, createdAt: Time, updatedAt: Time)

  type AccountTable = map<Uuid, Account>

  datatype Db = Db(codes: Table, accounts: AccountTable)

  type Salt = s: seq<byte> | |s| == 32 ghost witness seq(32, _ => 0)

  /** A password (or plain code) with what the random source and the host add when it is hashed. */
  datatype Secret = Secret(plain: string, salt: Salt, cpus: nat)

  /** How secrets are hashed and compared; `Argon2Hasher` is the one the service uses. */
  datatype Hasher = Hasher(hash: Secret -> string, matches: Matcher)

  function Argon2Hasher(kdf: Kdf): Hasher {
    Hasher((s: Secret) => Generate(kdf, s.plain, DEFAULT_PARAMS, s.salt, s.cpus),
           (plain: string, hash: string) => Compare(kdf, plain, hash).Ok?)
  }

  predicate EmailTaken(accounts: AccountTable, email: string) {
    exists u :: u in accounts && accounts[u].email == email
  }

  predicate UniqueEmails(accounts: AccountTable) {
    forall u, v :: u in accounts && v in accounts && accounts[u].email == accounts[v].email ==> u == v
  }

  lemma WriteKeepsUnique(accounts: AccountTable, u: Uuid, account: Account)
    requires UniqueEmails(accounts) && !EmailTaken(accounts - {u}, account.email)
    ensures UniqueEmails(accounts[u := account])
  {
    forall v | v in accounts && v != u ensures accounts[v].email != account.email {
      assert v in accounts - {u} && (accounts - {u})[v] == accounts[v];
    }
  }

  ghost predicate Valid(db: Db) {
    Sound(db.codes) && UniqueEmails(db.accounts)
  }

  function HeldRoles(accounts: AccountTable): Holders {
    map u | u in accounts :: accounts[u].role
  }

  /** One data-access call of the flow fails for reasons of infrastructure: the one with this number. */
  type Outage = Option<nat>

  predicate Hits(outage: Outage, calls: nat) {
    outage.Some? && outage.value < calls
  }

  /** The outage as seen after so many calls. */
  function Remaining(outage: Outage, calls: nat): Outage {
    if outage.Some? && outage.value >= calls then Some(outage.value - calls) else None
  }

  /** `AccountExists` is the unique violation, of the address or of the identifier; `Unavailable` is
      whatever the database, or the signer, reports without a name. */
  datatype FlowError =
    | CodeRefused(why: ConsumeError)
    | CodeNotIssued(reason: InsertError)
    | AccountExists
    | NoSuchAccount
    | BadPayload
    | WrongPassword
    | RequestInvalid
    | RoleRefused(refusal: RoleRefusal)
    | Unavailable

  /** What a transaction does to the database; `spent` is the code it redeemed. */
  datatype Flow = RolledBack(error: FlowError) | Committed(db: Db, spent: Option<Uuid>)

  // ---------------------------------------------------------------------------------------
  // What each flow commits.

  /** The insert transaction when one of its statements may fail: discard and insert, with the
      conflict check between them unless it overrides. */
  function InsertedUnder(t: Table, r: InsertRequest, clock: Time, outage: Outage): Result<Table, InsertError> {
    var conflict := !r.overriding && |Conflicts(Discard(t, r, clock), r.usage, r.target, clock)| == 1;
    if Hits(outage, 2) || (outage == Some(2) && !r.overriding && !conflict) then Err(InsertUnavailable)
    else Inserted(t, r, clock)
  }

  /** The row a redemption spends, or why there is none: select, expiry, comparison, delete. */
  ghost function Redemption(
    matches: Matcher, t: Table, usage: Usage, target: string, plain: string, m: Moment, outage: Outage)
    : (r: Result<Uuid, ConsumeError>)
    ensures r.Ok? ==> r.value in t && Redeems(matches, t[r.value], usage, target, plain, m)
  {
    if outage == Some(0) then Err(ConsumeUnavailable)
    else match Selected(t, usage, target, m.db)
      case None => Err(NotFound)
      case Some(id) =>
        if t[id].expiresAt < m.check then Err(Expired)
        else if !matches(plain, t[id].code) then Err(Invalid)
        else if outage == Some(1) then Err(ConsumeUnavailable)
        else Ok(id)
  }

  /** With no call failing, a code is redeemed exactly when some row is redeemable, and it is that row. */
  lemma RedemptionIsExact(
    matches: Matcher, t: Table, usage: Usage, target: string, plain: string, m: Moment, outage: Outage)
    requires Sound(t)
    ensures Redemption(matches, t, usage, target, plain, m, outage).Ok?
            <==> Redeemable(matches, t, usage, target, plain, m).Some? && !Hits(outage, 2)
    ensures Redemption(matches, t, usage, target, plain, m, outage).Ok? ==>
              Redeemable(matches, t, usage, target, plain, m)
              == Some(Redemption(matches, t, usage, target, plain, m, outage).value)
  {
    var selected := Selected(t, usage, target, m.db);
    var redeemable := Redeemable(matches, t, usage, target, plain, m);
    if redeemable.Some? {
      assert Selects(t[redeemable.value], usage, target, m.db);
      assert selected == redeemable;
    } else if selected.Some? {
      assert !Redeems(matches, t[selected.value], usage, target, plain, m);
    }
  }

  datatype Mint = Mint(id: Uuid, code: Secret, now: Time, ttl: Time)

  function RequestOf(h: Hasher, usage: Usage, target: string, data: Option<string>, mint: Mint): InsertRequest {
    InsertRequest(mint.id, h.hash(mint.code), usage, target, data, mint.now, mint.now + mint.ttl, true)
  }

  function IssueCode(
    h: Hasher, db: Db, usage: Usage, target: string, data: Option<string>, mint: Mint, clock: Time,
    outage: Outage): Flow
  {
    match InsertedUnder(db.codes, RequestOf(h, usage, target, data, mint), clock, outage)
    case Ok(codes) => Committed(db.(codes := codes), None)
    case Err(e) => RolledBack(CodeNotIssued(e))
  }

  function RequestRegister(h: Hasher, db: Db, email: string, mint: Mint, clock: Time, outage: Outage): Flow {
    if outage == Some(0) then RolledBack(Unavailable)
    else if EmailTaken(db.accounts, email) then RolledBack(AccountExists)
    else IssueCode(h, db, Register, email, None, mint, clock, Remaining(outage, 1))
  }

  /** The code is bound to the user and carries the address; it is not checked that the user exists. */
  function RequestEmailChange(
    h: Hasher, db: Db, user: Uuid, email: string, mint: Mint, clock: Time, outage: Outage): Flow
  {
    if outage == Some(0) then RolledBack(Unavailable)
    else if EmailTaken(db.accounts, email) then RolledBack(AccountExists)
    else IssueCode(h, db, ValidateEmail, user, Some(email), mint, clock, Remaining(outage, 1))
  }

  ghost function HolderOf(accounts: AccountTable, email: string): (holder: Option<Uuid>)
    ensures holder.Some? ==> holder.value in accounts && accounts[holder.value].email == email
    ensures holder.None? ==> !EmailTaken(accounts, email)
  {
    if EmailTaken(accounts, email) then
      var u :| u in accounts && accounts[u].email == email;
      Some(u)
    else None
  }

  ghost function RequestPasswordReset(h: Hasher, db: Db, email: string, mint: Mint, clock: Time, outage: Outage): Flow {
    if outage == Some(0) then RolledBack(Unavailable)
    else match HolderOf(db.accounts, email)
      case None => RolledBack(NoSuchAccount)
      case Some(u) => IssueCode(h, db, ResetPassword, u, None, mint, clock, Remaining(outage, 1))
  }

  /** The check that the address is not empty comes before the unique indexes. */
  function AccountInserted(
    accounts: AccountTable, id: Uuid, account: Account, fails: bool): Result<AccountTable, FlowError>
  {
    if fails || account.email == "" then Err(Unavailable)
    else if id in accounts || EmailTaken(accounts, account.email) then Err(AccountExists)
    else Ok(accounts[id := account])
  }

  ghost function CreateAccount(h: Hasher, db: Db, id: Uuid, email: string, password: Secret, plain: string,
                               m: Moment, now: Time, outage: Outage): Flow
  {
    match Redemption(h.matches, db.codes, Register, email, plain, m, outage)
    case Err(e) => RolledBack(CodeRefused(e))
    case Ok(code) =>
      var account := Account(email, h.hash(password), ROLE_USER, Rounded(now), Rounded(now));
      match AccountInserted(db.accounts, id, account, outage == Some(2))
      case Err(e) => RolledBack(e)
      case Ok(accounts) => Committed(Db(Spend(db.codes, code, m.write), accounts), Some(code))
  }

  ghost function ChangeEmail(h: Hasher, db: Db, user: Uuid, plain: string, m: Moment, now: Time, outage: Outage): Flow {
    match Redemption(h.matches, db.codes, ValidateEmail, user, plain, m, outage)
    case Err(e) => RolledBack(CodeRefused(e))
    case Ok(code) =>
      match db.codes[code].data
      case None => RolledBack(BadPayload)
      case Some(email) =>
        if outage == Some(2) then RolledBack(Unavailable)
        else if user !in db.accounts then RolledBack(NoSuchAccount)
        else if email == "" then RolledBack(Unavailable)
        else if EmailTaken(db.accounts - {user}, email) then RolledBack(AccountExists)
        else
          var account := db.accounts[user].(email := email, updatedAt := Rounded(now));
          Committed(Db(Spend(db.codes, code, m.write), db.accounts[user := account]), Some(code))
  }

  function SetPassword(h: Hasher, accounts: AccountTable, user: Uuid, password: Secret, now: Time): AccountTable
    requires user in accounts
  {
    accounts[user := accounts[user].(password := h.hash(password), updatedAt := Rounded(now))]
  }

  /** With a code the reset path is taken, whatever the current password says. */
  ghost function UpdatePassword(h: Hasher, db: Db, user: Uuid, password: Secret, current: string, plain: string,
                                m: Moment, now: Time, outage: Outage): Flow
  {
    if plain != "" then
      match Redemption(h.matches, db.codes, ResetPassword, user, plain, m, outage)
      case Err(e) => RolledBack(CodeRefused(e))
      case Ok(code) =>
        if outage == Some(2) then RolledBack(Unavailable)
        else if user !in db.accounts then RolledBack(NoSuchAccount)
        else Committed(Db(Spend(db.codes, code, m.write), SetPassword(h, db.accounts, user, password, now)), Some(code))
    else if current == "" then RolledBack(RequestInvalid)
    else if outage == Some(0) then RolledBack(Unavailable)
    else if user !in db.accounts then RolledBack(NoSuchAccount)
    else if !h.matches(current, db.accounts[user].password) then RolledBack(WrongPassword)
    else if outage == Some(1) then RolledBack(Unavailable)
    else Committed(db.(accounts := SetPassword(h, db.accounts, user, password, now)), None)
  }

  ghost function CreateSuperAdmin(
    h: Hasher, db: Db, id: Uuid, email: string, password: Secret, now: Time, outage: Outage): Flow
  {
    if outage == Some(0) then RolledBack(Unavailable)
    else match HolderOf(db.accounts, email)
      case None =>
        var account := Account(email, h.hash(password), ROLE_SUPER_ADMIN, Rounded(now), Rounded(now));
        (match AccountInserted(db.accounts, id, account, outage == Some(1))
         case Err(e) => RolledBack(e)
         case Ok(accounts) => Committed(db.(accounts := accounts), None))
      case Some(u) =>
        if Hits(outage, if db.accounts[u].role == ROLE_SUPER_ADMIN then 2 else 3) then RolledBack(Unavailable)
        else
          var updated := SetPassword(h, db.accounts, u, password, now);
          Committed(db.(accounts := updated[u := updated[u].(role := ROLE_SUPER_ADMIN)]), None)
  }

  /** Two reads, then the write if the rank differs. */
  function UpdateRole(db: Db, roles: Roles, u: RoleUpdate, now: Time, outage: Outage): Flow {
    var decision := Decide(roles, HeldRoles(db.accounts), u);
    if decision == Err(InvalidRequest) || decision == Err(SelfUpdate) then RolledBack(RoleRefused(decision.error))
    else if outage == Some(0) || (outage == Some(1) && u.target in db.accounts) then RolledBack(Unavailable)
    else if decision.Err? then RolledBack(RoleRefused(decision.error))
    else if Judge(roles, u.wanted, db.accounts[u.target].role, db.accounts[u.actor].role) == Ok(NoChange)
    then Committed(db, None)
    else if outage == Some(2) then RolledBack(Unavailable)
    else
      var account := db.accounts[u.target].(role := decision.value, updatedAt := Rounded(now));
      Committed(db.(accounts := db.accounts[u.target := account]), None)
  }

  /** Login: the account whose tokens are signed, or why there is none. */
  ghost function Login(h: Hasher, db: Db, email: string, attempt: string, fails: bool): Result<Uuid, FlowError> {
    if fails then Err(Unavailable)
    else match HolderOf(db.accounts, email)
      case None => Err(NoSuchAccount)
      case Some(u) => if h.matches(attempt, db.accounts[u].password) then Ok(u) else Err(WrongPassword)
  }

  /** What the signer answers to the two requests of a token pair; None is a failing signer. */
  datatype Signer = Signer(refresh: Option<(Sessions.Token, string)>, access: Option<Sessions.Token>)

  /** The token pair of an account, signed outside every transaction. */
  function Signed(world: Sessions.World, accounts: AccountTable, user: Uuid, signer: Signer)
    : (Sessions.World, Result<Sessions.TokenPair, FlowError>)
  {
    match Sessions.SignTokenPair(world.(roles := HeldRoles(accounts)), user, signer.refresh, signer.access)
    case (after, Ok(pair)) => (after, Ok(pair))
    case (after, Err(_)) => (after, Err(Unavailable))
  }

  // ---------------------------------------------------------------------------------------
  // The flows, statement by statement.

  class Database {
    var codes: Table
    var accounts: AccountTable

    ghost function Snapshot(): Db
      reads this
    {
      Db(codes, accounts)
    }

    constructor ()
      ensures Snapshot() == Db(map[], map[])
    {
      codes, accounts := map[], map[];
    }

    // -- data access: short codes

    /** The insert owns its transaction: discard, check, insert, or nothing at all. */
    method InsertCode(r: InsertRequest, clock: Time, outage: Outage) returns (result: Result<ShortCode, InsertError>)
      modifies this`codes
      ensures match InsertedUnder(old(codes), r, clock, outage)
              case Ok(table) => codes == table && result == Ok(NewRow(r))
              case Err(e) => codes == old(codes) && result == Err(e)
      ensures old(Sound(codes)) ==> Sound(codes)
    {
      if Sound(codes) { InsertedIsSound(codes, r, clock); }
      var saved := codes;
      if outage == Some(0) {
        return Err(InsertUnavailable);
      }
      codes := Discard(codes, r, clock);
      var calls := 1;
      if !r.overriding {
        if outage == Some(1) {
          codes := saved;
          return Err(InsertUnavailable);
        }
        var found := Conflicts(codes, r.usage, r.target, clock);
        if |found| == 1 {
          codes := saved;
          return Err(AlreadyExists);
        }
        calls := 2;
      }
      if outage == Some(calls) {
        codes := saved;
        return Err(InsertUnavailable);
      }
      if IndexRefuses(codes, r) {
        codes := saved;
        return Err(AlreadyExists);
      }
      codes := codes[r.id := NewRow(r)];
      return Ok(NewRow(r));
    }

    method SelectCode(
      usage: Usage, target: string, clock: Time, fails: bool)
      returns (result: Result<ShortCode, ConsumeError>)
      requires Sound(codes)
      ensures result.Ok? ==> !fails && result.value.id in codes && codes[result.value.id] == result.value
                             && Selects(result.value, usage, target, clock)
      ensures result == Err(NotFound)
              <==> !fails && forall id :: id in codes ==> !Selects(codes[id], usage, target, clock)
      ensures result.Err? ==> result.error == if fails then ConsumeUnavailable else NotFound
    {
      if fails {
        return Err(ConsumeUnavailable);
      }
      var found := set id | id in codes && Selects(codes[id], usage, target, clock);
      assert forall id :: id in codes && Selects(codes[id], usage, target, clock) ==> id in found;
      if found == {} {
        return Err(NotFound);
      }
      var id :| id in found;
      return Ok(codes[id]);
    }

    method DeleteCode(
      id: Uuid, now: Time, comment: Comment, clock: Time, fails: bool)
      returns (result: Result<(), ConsumeError>)
      modifies this`codes
      ensures result.Ok? <==> !fails && id in old(codes) && Deletable(old(codes)[id], clock)
      ensures codes == if result.Ok? then old(codes)[id := old(codes)[id].Tombstone(now, comment)] else old(codes)
      ensures result.Err? ==> result.error == if fails then ConsumeUnavailable else NotFound
    {
      if fails {
        return Err(ConsumeUnavailable);
      }
      if id in codes && Deletable(codes[id], clock) {
        codes := codes[id := codes[id].Tombstone(now, comment)];
        return Ok(());
      }
      return Err(NotFound);
    }

    /** Runs inside the caller's transaction: select, check the expiry, compare, delete. */
    method ConsumeCode(h: Hasher, usage: Usage, target: string, plain: string, m: Moment, outage: Outage)
      returns (result: Result<ShortCode, ConsumeError>)
      requires Sound(codes)
      modifies this`codes
      ensures match Redemption(h.matches, old(codes), usage, target, plain, m, outage)
              case Ok(code) => result == Ok(old(codes)[code]) && codes == Spend(old(codes), code, m.write)
              case Err(e) => result == Err(e) && codes == old(codes)
      ensures result.Ok? <==> Redeemable(h.matches, old(codes), usage, target, plain, m).Some? && !Hits(outage, 2)
      ensures outage.None? ==> (result == Err(NotFound) <==>
                                forall id :: id in old(codes) ==> !Selects(old(codes)[id], usage, target, m.db))
      ensures outage.None? ==> (result == Err(Expired) <==>
                                exists id :: id in old(codes) && Selects(old(codes)[id], usage, target, m.db)
                                             && old(codes)[id].expiresAt < m.check)
      ensures Sound(codes)
    {
      RedemptionIsExact(h.matches, codes, usage, target, plain, m, outage);
      var selected := SelectCode(usage, target, m.db, outage == Some(0));
      if selected.Err? {
        return Err(selected.error);
      }
      var entity := selected.value;
      assert forall id :: id in codes && Selects(codes[id], usage, target, m.db) ==> id == entity.id;
      if entity.expiresAt < m.check {
        return Err(Expired);
      }
      if !h.matches(plain, entity.code) {
        return Err(Invalid);
      }
      var deleted := DeleteCode(entity.id, m.write, Consumed, m.db, outage == Some(1));
      if deleted.Err? {
        return Err(deleted.error);
      }
      SpendIsSound(old(codes), entity.id, m.write);
      return Ok(entity);
    }

    // -- data access: accounts

    method SelectByEmail(email: string) returns (found: Option<Uuid>)
      requires UniqueEmails(accounts)
      ensures found == HolderOf(accounts, email)
    {
      var holders := set u | u in accounts && accounts[u].email == email;
      assert forall u :: u in accounts && accounts[u].email == email ==> u in holders;
      if holders == {} {
        return None;
      }
      var u :| u in holders;
      return Some(u);
    }

    /** Refused by the check that the address is not empty, then by the primary key or the unique
        address; an account that goes in is the one and only holder of its address. */
    method InsertAccount(id: Uuid, account: Account, fails: bool) returns (result: Result<Account, FlowError>)
      modifies this`accounts
      ensures match AccountInserted(old(accounts), id, account, fails)
              case Ok(table) => accounts == table && result == Ok(account)
              case Err(e) => accounts == old(accounts) && result == Err(e)
      ensures result.Ok? ==> forall u :: u in accounts && accounts[u].email == account.email <==> u == id
      ensures old(UniqueEmails(accounts)) ==> UniqueEmails(accounts)
      ensures result == Err(AccountExists) ==>
                account.email != "" && (id in accounts || EmailTaken(accounts, account.email))
    {
      if fails || account.email == "" {
        return Err(Unavailable);
      }
      if id in accounts || EmailTaken(accounts, account.email) {
        return Err(AccountExists);
      }
      accounts := accounts[id := account];
      return Ok(account);
    }

    // -- flows

    method RequestRegisterCode(h: Hasher, email: string, mint: Mint, clock: Time, outage: Outage)
      returns (result: Result<ShortCode, FlowError>)
      requires Valid(Snapshot())
      modifies this`codes
      ensures match RequestRegister(h, old(Snapshot()), email, mint, clock, outage)
              case RolledBack(e) => result == Err(e) && Snapshot() == old(Snapshot())
              case Committed(db, _) =>
                result == Ok(NewRow(RequestOf(h, Register, email, None, mint))) && Snapshot() == db
      ensures Valid(Snapshot())
    {
      if outage == Some(0) {
        return Err(Unavailable);
      }
      var taken := SelectByEmail(email);
      if taken.Some? {
        return Err(AccountExists);
      }
      var inserted := InsertCode(RequestOf(h, Register, email, None, mint), clock, Remaining(outage, 1));
      return if inserted.Ok? then Ok(inserted.value) else Err(CodeNotIssued(inserted.error));
    }

    method RequestEmailChangeCode(h: Hasher, user: Uuid, email: string, mint: Mint, clock: Time, outage: Outage)
      returns (result: Result<ShortCode, FlowError>)
      requires Valid(Snapshot())
      modifies this`codes
      ensures match RequestEmailChange(h, old(Snapshot()), user, email, mint, clock, outage)
              case RolledBack(e) => result == Err(e) && Snapshot() == old(Snapshot())
              case Committed(db, _) =>
                result == Ok(NewRow(RequestOf(h, ValidateEmail, user, Some(email), mint))) && Snapshot() == db
      ensures Valid(Snapshot())
    {
      if outage == Some(0) {
        return Err(Unavailable);
      }
      var taken := SelectByEmail(email);
      if taken.Some? {
        return Err(AccountExists);
      }
      var inserted := InsertCode(RequestOf(h, ValidateEmail, user, Some(email), mint), clock, Remaining(outage, 1));
      return if inserted.Ok? then Ok(inserted.value) else Err(CodeNotIssued(inserted.error));
    }

    method RequestPasswordResetCode(h: Hasher, email: string, mint: Mint, clock: Time, outage: Outage)
      returns (result: Result<ShortCode, FlowError>)
      requires Valid(Snapshot())
      modifies this`codes
      ensures match RequestPasswordReset(h, old(Snapshot()), email, mint, clock, outage)
              case RolledBack(e) => result == Err(e) && Snapshot() == old(Snapshot())
              case Committed(db, _) =>
                && HolderOf(old(accounts), email).Some?
                && result == Ok(NewRow(RequestOf(h, ResetPassword, HolderOf(old(accounts), email).value, None, mint)))
                && Snapshot() == db
      ensures Valid(Snapshot())
    {
      if outage == Some(0) {
        return Err(Unavailable);
      }
      var holder := SelectByEmail(email);
      if holder.None? {
        return Err(NoSuchAccount);
      }
      var inserted := InsertCode(RequestOf(h, ResetPassword, holder.value, None, mint), clock, Remaining(outage, 1));
      return if inserted.Ok? then Ok(inserted.value) else Err(CodeNotIssued(inserted.error));
    }

    /** Redeem and insert in one transaction, then sign: an error from the signer comes after the
        commit and leaves the account in place. */
    method CredentialsCreate(
      h: Hasher, id: Uuid, email: string, password: Secret, plain: string, m: Moment, now: Time, outage: Outage,
      world: Sessions.World, signer: Signer)
      returns (result: Result<Sessions.TokenPair, FlowError>, world': Sessions.World)
      requires Valid(Snapshot())
      modifies this
      ensures match CreateAccount(h, old(Snapshot()), id, email, password, plain, m, now, outage)
              case RolledBack(e) => result == Err(e) && Snapshot() == old(Snapshot()) && world' == world
              case Committed(db, _) => Snapshot() == db && (world', result) == Signed(world, db.accounts, id, signer)
      ensures Valid(Snapshot())
    {
      var encrypted := h.hash(password);
      var savedCodes := codes;
      var consumed := ConsumeCode(h, Register, email, plain, m, outage);
      if consumed.Err? {
        return Err(CodeRefused(consumed.error)), world;
      }
      var account := Account(email, encrypted, ROLE_USER, Rounded(now), Rounded(now));
      var inserted := InsertAccount(id, account, outage == Some(2));
      if inserted.Err? {
        codes := savedCodes;
        return Err(inserted.error), world;
      }
      world', result := SignPair(world, id, signer);
    }

    method SignPair(world: Sessions.World, user: Uuid, signer: Signer)
      returns (world': Sessions.World, result: Result<Sessions.TokenPair, FlowError>)
      ensures (world', result) == Signed(world, accounts, user, signer)
    {
      var signed := Sessions.SignTokenPair(world.(roles := HeldRoles(accounts)), user, signer.refresh, signer.access);
      world' := signed.0;
      result := if signed.1.Ok? then Ok(signed.1.value) else Err(Unavailable);
    }

    method CredentialsUpdateEmail(h: Hasher, user: Uuid, plain: string, m: Moment, now: Time, outage: Outage)
      returns (result: Result<Account, FlowError>)
      requires Valid(Snapshot())
      modifies this
      ensures match ChangeEmail(h, old(Snapshot()), user, plain, m, now, outage)
              case RolledBack(e) => result == Err(e) && Snapshot() == old(Snapshot())
              case Committed(db, _) => user in db.accounts && result == Ok(db.accounts[user]) && Snapshot() == db
      ensures Valid(Snapshot())
    {
      var savedCodes := codes;
      var consumed := ConsumeCode(h, ValidateEmail, user, plain, m, outage);
      if consumed.Err? {
        return Err(CodeRefused(consumed.error));
      }
      if consumed.value.data.None? {
        codes := savedCodes;
        return Err(BadPayload);
      }
      result := WriteEmail(user, consumed.value.data.value, now, outage == Some(2));
      if result.Err? {
        codes := savedCodes;
      }
    }

    /** Nothing to update is noticed before the column check, and that before the unique index. */
    method WriteEmail(user: Uuid, email: string, now: Time, fails: bool) returns (result: Result<Account, FlowError>)
      requires UniqueEmails(accounts)
      modifies this`accounts
      ensures result.Ok?
              <==> !fails && user in old(accounts) && email != "" && !EmailTaken(old(accounts) - {user}, email)
      ensures result == Err(NoSuchAccount) <==> !fails && user !in old(accounts)
      ensures result == Err(AccountExists)
              <==> !fails && user in old(accounts) && email != "" && EmailTaken(old(accounts) - {user}, email)
      ensures result.Err? ==> accounts == old(accounts) && result.error in {NoSuchAccount, AccountExists, Unavailable}
      ensures result.Ok? ==>
                result.value == old(accounts)[user].(email := email, updatedAt := Rounded(now))
                && accounts == old(accounts)[user := result.value]
      ensures UniqueEmails(accounts)
    {
      if fails {
        return Err(Unavailable);
      }
      if user !in accounts {
        return Err(NoSuchAccount);
      }
      if email == "" {
        return Err(Unavailable);
      }
      if EmailTaken(accounts - {user}, email) {
        return Err(AccountExists);
      }
      var account := accounts[user].(email := email, updatedAt := Rounded(now));
      WriteKeepsUnique(accounts, user, account);
      accounts := accounts[user := account];
      return Ok(account);
    }

    method CredentialsUpdatePassword(
      h: Hasher, user: Uuid, password: Secret, current: string, plain: string, m: Moment, now: Time, outage: Outage)
      returns (result: Result<Account, FlowError>)
      requires Valid(Snapshot())
      modifies this
      ensures match UpdatePassword(h, old(Snapshot()), user, password, current, plain, m, now, outage)
              case RolledBack(e) => result == Err(e) && Snapshot() == old(Snapshot())
              case Committed(db, _) => user in db.accounts && result == Ok(db.accounts[user]) && Snapshot() == db
      ensures Valid(Snapshot())
    {
      if plain == "" && current == "" {
        return Err(RequestInvalid);
      }
      var encrypted := h.hash(password);
      var savedCodes := codes;
      var calls;
      if plain != "" {
        var consumed := ConsumeCode(h, ResetPassword, user, plain, m, outage);
        if consumed.Err? {
          return Err(CodeRefused(consumed.error));
        }
        calls := 2;
      } else {
        if outage == Some(0) {
          return Err(Unavailable);
        }
        if user !in accounts {
          return Err(NoSuchAccount);
        }
        if !h.matches(current, accounts[user].password) {
          return Err(WrongPassword);
        }
        calls := 1;
      }
      if outage == Some(calls) || user !in accounts {
        codes := savedCodes;
        return Err(if outage == Some(calls) then Unavailable else NoSuchAccount);
      }
      accounts := accounts[user := accounts[user].(password := encrypted, updatedAt := Rounded(now))];
      return Ok(accounts[user]);
    }

    method CredentialsCreateSuperAdmin(h: Hasher, id: Uuid, email: string, password: Secret, now: Time, outage: Outage)
      returns (result: Result<Account, FlowError>)
      requires Valid(Snapshot())
      modifies this`accounts
      ensures match CreateSuperAdmin(h, old(Snapshot()), id, email, password, now, outage)
              case RolledBack(e) => result == Err(e) && Snapshot() == old(Snapshot())
              case Committed(db, _) =>
                && Snapshot() == db && result.Ok?
                && exists u :: u in db.accounts && result.value == db.accounts[u] && db.accounts[u].email == email
      ensures Valid(Snapshot())
    {
      var encrypted := h.hash(password);
      var savedAccounts := accounts;
      if outage == Some(0) {
        return Err(Unavailable);
      }
      var holder := SelectByEmail(email);
      if holder.None? {
        var account := Account(email, encrypted, ROLE_SUPER_ADMIN, Rounded(now), Rounded(now));
        result := InsertAccount(id, account, outage == Some(1));
        return;
      }
      var u := holder.value;
      if outage == Some(1) {
        return Err(Unavailable);
      }
      accounts := accounts[u := accounts[u].(password := encrypted, updatedAt := Rounded(now))];
      if accounts[u].role != ROLE_SUPER_ADMIN {
        if outage == Some(2) {
          accounts := savedAccounts;
          return Err(Unavailable);
        }
        accounts := accounts[u := accounts[u].(role := ROLE_SUPER_ADMIN, updatedAt := Rounded(now))];
      }
      return Ok(accounts[u]);
    }

    method TokenCreate(h: Hasher, email: string, attempt: string, fails: bool, world: Sessions.World, signer: Signer)
      returns (result: Result<Sessions.TokenPair, FlowError>, world': Sessions.World)
      requires UniqueEmails(accounts)
      ensures match Login(h, Snapshot(), email, attempt, fails)
              case Err(e) => result == Err(e) && world' == world
              case Ok(user) => (world', result) == Signed(world, accounts, user, signer)
      ensures result == Err(NoSuchAccount) <==> !fails && !EmailTaken(accounts, email)
    {
      if fails {
        return Err(Unavailable), world;
      }
      var holder := SelectByEmail(email);
      if holder.None? {
        return Err(NoSuchAccount), world;
      }
      if !h.matches(attempt, accounts[holder.value].password) {
        return Err(WrongPassword), world;
      }
      world', result := SignPair(world, holder.value, signer);
    }

    method CredentialsUpdateRole(
      roles: Roles, u: RoleUpdate, now: Time, outage: Outage)
      returns (result: Result<Account, FlowError>)
      requires Valid(Snapshot())
      modifies this`accounts
      ensures match UpdateRole(old(Snapshot()), roles, u, now, outage)
              case RolledBack(e) => result == Err(e) && Snapshot() == old(Snapshot())
              case Committed(db, _) =>
                u.target in db.accounts && result == Ok(db.accounts[u.target]) && Snapshot() == db
      ensures Valid(Snapshot())
    {
      if u.wanted !in roles {
        return Err(RoleRefused(InvalidRequest));
      }
      if u.actor == u.target {
        return Err(RoleRefused(SelfUpdate));
      }
      var next := roles[u.wanted].priority;
      if outage == Some(0) {
        return Err(Unavailable);
      }
      if u.target !in accounts {
        return Err(RoleRefused(AccountNotFound));
      }
      if outage == Some(1) {
        return Err(Unavailable);
      }
      if u.actor !in accounts {
        return Err(RoleRefused(AccountNotFound));
      }
      var held := Priority(roles, accounts[u.target].role);
      if held.Err? {
        return Err(RoleRefused(UnknownStoredRole(accounts[u.target].role)));
      }
      var own := Priority(roles, accounts[u.actor].role);
      if own.Err? {
        return Err(RoleRefused(UnknownStoredRole(accounts[u.actor].role)));
      }
      if next >= held.value && next > own.value {
        return Err(RoleRefused(ToHigher));
      }
      if next <= held.value && held.value >= own.value {
        return Err(RoleRefused(DowngradeSuperior));
      }
      if next == held.value {
        return Ok(accounts[u.target]);
      }
      if outage == Some(2) {
        return Err(Unavailable);
      }
      accounts := accounts[u.target := accounts[u.target].(role := u.wanted, updatedAt := Rounded(now))];
      return Ok(accounts[u.target]);
    }
  }
}
