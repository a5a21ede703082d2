/** Whole runs of the identity flows: what the accounts and the codes have to do with the history
    of what was committed. */
module AccountHistory {
  import opened Wrappers
  import opened Claims
  import opened ShortCodes
  import opened Authorization
  import opened Ranks
  import opened Accounts

  /** What a committed flow did; `code` is the short code it redeemed or, for a reset that was only
      asked for, the one it issued for the address it was asked with. */
  datatype Event =
    | ResetAsked(user: Uuid, email: string, code: Uuid)
    | Registered(user: Uuid, email: string, plain: string, code: Uuid)
    | EmailChanged(user: Uuid, email: string, code: Uuid)
    | PasswordReset(user: Uuid, plain: string, code: Uuid)
    | PasswordChanged(user: Uuid, plain: string)
    | Bootstrapped(user: Uuid, email: string, plain: string)

  datatype State = State(db: Db, journal: seq<Event>)

  datatype Op =
    | AskRegister(email: string, mint: Mint, clock: Time, outage: Outage)
    | AskEmailChange(user: Uuid, email: string, mint: Mint, clock: Time, outage: Outage)
    | AskPasswordReset(email: string, mint: Mint, clock: Time, outage: Outage)
    | DoRegister(id: Uuid, email: string, password: Secret, plain: string, m: Moment, now: Time, outage: Outage)
    | DoEmailChange(user: Uuid, plain: string, m: Moment, now: Time, outage: Outage)
    | DoPassword(user: Uuid, password: Secret, current: string, plain: string, m: Moment, now: Time, outage: Outage)
    | DoBootstrap(id: Uuid, email: string, password: Secret, now: Time, outage: Outage)
    | DoRole(u: RoleUpdate, now: Time, outage: Outage)

  ghost function FlowOf(h: Hasher, roles: Roles, db: Db, op: Op): Flow {
    match op
    case AskRegister(email, mint, clock, outage) => RequestRegister(h, db, email, mint, clock, outage)
    case AskEmailChange(user, email, mint, clock, outage) => RequestEmailChange(h, db, user, email, mint, clock, outage)
    case AskPasswordReset(email, mint, clock, outage) => RequestPasswordReset(h, db, email, mint, clock, outage)
    case DoRegister(id, email, password, plain, m, now, outage) =>
      CreateAccount(h, db, id, email, password, plain, m, now, outage)
    case DoEmailChange(user, plain, m, now, outage) => ChangeEmail(h, db, user, plain, m, now, outage)
    case DoPassword(user, password, current, plain, m, now, outage) =>
      UpdatePassword(h, db, user, password, current, plain, m, now, outage)
    case DoBootstrap(id, email, password, now, outage) => CreateSuperAdmin(h, db, id, email, password, now, outage)
    case DoRole(u, now, outage) => UpdateRole(db, roles, u, now, outage)
  }

  /** The entry a committed flow leaves in the history. */
  ghost function EventsOf(db: Db, op: Op, spent: Option<Uuid>): seq<Event> {
    match op
    case AskPasswordReset(email, mint, _, _) =>
      var holder := HolderOf(db.accounts, email);
      if holder.Some? then [ResetAsked(holder.value, email, mint.id)] else []
    case DoRegister(id, email, password, _, _, _, _) =>
      if spent.Some? then [Registered(id, email, password.plain, spent.value)] else []
    case DoEmailChange(user, _, _, _, _) =>
      if spent.Some? && spent.value in db.codes && db.codes[spent.value].data.Some?
      then [EmailChanged(user, db.codes[spent.value].data.value, spent.value)] else []
    case DoPassword(user, password, _, _, _, _, _) =>
      if spent.Some? then [PasswordReset(user, password.plain, spent.value)]
      else [PasswordChanged(user, password.plain)]
    case DoBootstrap(id, email, password, _, _) =>
      var holder := HolderOf(db.accounts, email);
      [Bootstrapped(if holder.Some? then holder.value else id, email, password.plain)]
    case _ => []
  }

  ghost function Next(h: Hasher, roles: Roles, s: State, op: Op): State {
    match FlowOf(h, roles, s.db, op)
    case RolledBack(_) => s
    case Committed(db, spent) => State(db, s.journal + EventsOf(s.db, op, spent))
  }

  ghost function Run(h: Hasher, roles: Roles, s: State, ops: seq<Op>): State
    decreases |ops|
  {
    if ops == [] then s else Run(h, roles, Next(h, roles, s, ops[0]), ops[1..])
  }

  const EMPTY := State(Db(map[], map[]), [])

  // ---------------------------------------------------------------------------------------
  // Codes and history.

  predicate Spends(e: Event, code: Uuid) {
    (e.Registered? || e.EmailChanged? || e.PasswordReset?) && e.code == code
  }

  /** The row is dead and was issued for exactly this change. */
  predicate Authorises(c: ShortCode, e: Event) {
    && !c.Live()
    && match e
       case Registered(_, email, _, _) => c.For(Register, email)
       case EmailChanged(user, email, _) => c.For(ValidateEmail, user) && c.data == Some(email)
       case PasswordReset(user, _, _) => c.For(ResetPassword, user)
       case _ => false
  }

  ghost predicate EntryOk(codes: Table, journal: seq<Event>, k: nat)
    requires k < |journal|
  {
    forall code :: Spends(journal[k], code) ==> code in codes && Authorises(codes[code], journal[k])
  }

  ghost predicate SpentInHistory(journal: seq<Event>, code: Uuid) {
    exists k :: 0 <= k < |journal| && Spends(journal[k], code)
  }

  ghost predicate CodesInv(codes: Table, journal: seq<Event>) {
    && Sound(codes)
    && (forall k {:trigger EntryOk(codes, journal, k)} :: 0 <= k < |journal| ==> EntryOk(codes, journal, k))
    && (forall j, k, code {:trigger Spends(journal[j], code), Spends(journal[k], code)} ::
          0 <= j < k < |journal| ==> !(Spends(journal[j], code) && Spends(journal[k], code)))
    && (forall code :: code in ConsumedIds(codes) ==> SpentInHistory(journal, code))
  }

  lemma IssueKeepsCodes(codes: Table, journal: seq<Event>, r: InsertRequest, clock: Time)
    requires CodesInv(codes, journal) && Inserted(codes, r, clock).Ok?
    ensures CodesInv(Inserted(codes, r, clock).value, journal)
  {
    var codes' := Inserted(codes, r, clock).value;
    InsertedIsSound(codes, r, clock);
    InsertKeepsAuditTrail(codes, r, clock);
    forall k | 0 <= k < |journal| ensures EntryOk(codes', journal, k) {
      assert EntryOk(codes, journal, k);
    }
  }

  lemma SpendKeepsCodes(codes: Table, journal: seq<Event>, code: Uuid, now: Time, e: Event)
    requires CodesInv(codes, journal) && code in codes && codes[code].Live()
    requires Spends(e, code) && Authorises(codes[code].Tombstone(now, Consumed), e)
    ensures CodesInv(Spend(codes, code, now), journal + [e])
  {
    var codes', journal' := Spend(codes, code, now), journal + [e];
    SpendIsSound(codes, code, now);
    forall k | 0 <= k < |journal'| ensures EntryOk(codes', journal', k) {
      if k < |journal| { assert EntryOk(codes, journal, k); }
    }
    forall j, k, c | 0 <= j < k < |journal'| ensures !(Spends(journal'[j], c) && Spends(journal'[k], c)) {
      assert EntryOk(codes, journal, j);
    }
    forall c | c in ConsumedIds(codes') ensures SpentInHistory(journal', c) {
      if c == code {
        assert Spends(journal'[|journal|], c);
      } else {
        assert c in ConsumedIds(codes);
        var k :| 0 <= k < |journal| && Spends(journal[k], c);
        assert Spends(journal'[k], c);
      }
    }
  }

  lemma OtherEventKeepsCodes(codes: Table, journal: seq<Event>, e: Event)
    requires CodesInv(codes, journal) && (e.PasswordChanged? || e.Bootstrapped? || e.ResetAsked?)
    ensures CodesInv(codes, journal + [e])
  {
    var journal' := journal + [e];
    forall k | 0 <= k < |journal'| ensures EntryOk(codes, journal', k) {
      if k < |journal| { assert EntryOk(codes, journal, k); }
    }
    forall c | c in ConsumedIds(codes) ensures SpentInHistory(journal', c) {
      var k :| 0 <= k < |journal| && Spends(journal[k], c);
      assert Spends(journal'[k], c);
    }
  }

  // ---------------------------------------------------------------------------------------
  // Accounts and history.

  predicate GivesEmail(e: Event, user: Uuid) {
    (e.Registered? || e.EmailChanged? || e.Bootstrapped?) && e.user == user
  }

  /** Which entry of the history most recently gave the account an address. */
  function LastGiver(journal: seq<Event>, user: Uuid): (k: Option<nat>)
    ensures k.Some? ==> k.value < |journal| && GivesEmail(journal[k.value], user)
  {
    if journal == [] then None
    else
      var last := |journal| - 1;
      if GivesEmail(journal[last], user) then Some(last) else LastGiver(journal[..last], user)
  }

  /** The address most recently given to the account. */
  function LastEmail(journal: seq<Event>, user: Uuid): Option<string> {
    var k := LastGiver(journal, user);
    if k.Some? then Some(journal[k.value].email) else None
  }

  predicate SetsPassword(e: Event, user: Uuid) {
    (e.Registered? || e.PasswordReset? || e.PasswordChanged? || e.Bootstrapped?) && e.user == user
  }

  /** The password most recently committed for the account. */
  function LastPassword(journal: seq<Event>, user: Uuid): Option<string> {
    if journal == [] then None
    else
      var last := |journal| - 1;
      if SetsPassword(journal[last], user) then Some(journal[last].plain) else LastPassword(journal[..last], user)
  }

  ghost predicate HashedFrom(h: Hasher, hash: string, plain: string) {
    exists secret: Secret :: secret.plain == plain && h.hash(secret) == hash
  }

  ghost predicate AccountOk(h: Hasher, accounts: AccountTable, journal: seq<Event>, u: Uuid)
    requires u in accounts
  {
    && LastEmail(journal, u) == Some(accounts[u].email)
    && LastPassword(journal, u).Some?
    && HashedFrom(h, accounts[u].password, LastPassword(journal, u).value)
  }

  ghost predicate AccountsInv(h: Hasher, accounts: AccountTable, journal: seq<Event>) {
    && UniqueEmails(accounts)
    && forall u {:trigger AccountOk(h, accounts, journal, u)} :: u in accounts ==> AccountOk(h, accounts, journal, u)
  }

  /** One account is written and one event recorded, each explaining the other. */
  lemma WriteKeepsAccounts(h: Hasher, accounts: AccountTable, journal: seq<Event>, u: Uuid, account: Account, e: Event)
    requires AccountsInv(h, accounts, journal) && e.user == u
    requires !EmailTaken(accounts - {u}, account.email)
    requires if GivesEmail(e, u) then e.email == account.email else u in accounts && account.email == accounts[u].email
    requires if SetsPassword(e, u) then HashedFrom(h, account.password, e.plain)
             else u in accounts && account.password == accounts[u].password
    ensures AccountsInv(h, accounts[u := account], journal + [e])
  {
    var accounts', journal' := accounts[u := account], journal + [e];
    assert journal'[..|journal|] == journal;
    forall v | v in accounts' ensures AccountOk(h, accounts', journal', v) {
      if v in accounts { assert AccountOk(h, accounts, journal, v); }
    }
    WriteKeepsUnique(accounts, u, account);
  }

  /** A write that touches neither address nor password leaves no event. */
  lemma RoleKeepsAccounts(h: Hasher, accounts: AccountTable, journal: seq<Event>, u: Uuid, account: Account)
    requires AccountsInv(h, accounts, journal) && u in accounts
    requires account.email == accounts[u].email && account.password == accounts[u].password
    ensures AccountsInv(h, accounts[u := account], journal)
  {
    var accounts' := accounts[u := account];
    forall v | v in accounts' ensures AccountOk(h, accounts', journal, v) {
      assert AccountOk(h, accounts, journal, v);
    }
  }

  /** An event that gives no address and sets no password leaves every account explained. */
  lemma AskKeepsAccounts(h: Hasher, accounts: AccountTable, journal: seq<Event>, e: Event)
    requires AccountsInv(h, accounts, journal) && e.ResetAsked?
    ensures AccountsInv(h, accounts, journal + [e])
  {
    var journal' := journal + [e];
    assert journal'[..|journal|] == journal;
    forall u | u in accounts ensures AccountOk(h, accounts, journal', u) {
      assert AccountOk(h, accounts, journal, u);
    }
  }

  // ---------------------------------------------------------------------------------------
  // Every flow keeps both.

  ghost predicate Inv(h: Hasher, s: State) {
    CodesInv(s.db.codes, s.journal) && AccountsInv(h, s.db.accounts, s.journal)
  }

  lemma OwnEmailIsFree(accounts: AccountTable, u: Uuid)
    requires UniqueEmails(accounts) && u in accounts
    ensures !EmailTaken(accounts - {u}, accounts[u].email)
  {
  }

  lemma SecretHashes(h: Hasher, s: Secret)
    ensures HashedFrom(h, h.hash(s), s.plain)
  {
  }

  lemma AskKeeps(
    h: Hasher, s: State, usage: Usage, target: string, data: Option<string>, mint: Mint, clock: Time, outage: Outage)
    requires Inv(h, s)
    ensures match IssueCode(h, s.db, usage, target, data, mint, clock, outage)
            case RolledBack(_) => true
            case Committed(db, _) => Inv(h, State(db, s.journal))
  {
    var r := RequestOf(h, usage, target, data, mint);
    if InsertedUnder(s.db.codes, r, clock, outage).Ok? {
      IssueKeepsCodes(s.db.codes, s.journal, r, clock);
    }
  }

  lemma AskResetKeeps(h: Hasher, roles: Roles, s: State, op: Op)
    requires Inv(h, s) && op.AskPasswordReset?
    ensures Inv(h, Next(h, roles, s, op))
  {
    match FlowOf(h, roles, s.db, op)
    case RolledBack(_) =>
    case Committed(db, _) =>
      var user := HolderOf(s.db.accounts, op.email).value;
      var e := ResetAsked(user, op.email, op.mint.id);
      AskKeeps(h, s, ResetPassword, user, None, op.mint, op.clock, Remaining(op.outage, 1));
      OtherEventKeepsCodes(db.codes, s.journal, e);
      AskKeepsAccounts(h, s.db.accounts, s.journal, e);
  }

  lemma RegisterKeeps(h: Hasher, roles: Roles, s: State, op: Op)
    requires Inv(h, s) && op.DoRegister?
    ensures Inv(h, Next(h, roles, s, op))
  {
    match FlowOf(h, roles, s.db, op)
    case RolledBack(_) =>
    case Committed(db, spent) =>
      var e := Registered(op.id, op.email, op.password.plain, spent.value);
      SpendKeepsCodes(s.db.codes, s.journal, spent.value, op.m.write, e);
      SecretHashes(h, op.password);
      WriteKeepsAccounts(h, s.db.accounts, s.journal, op.id, db.accounts[op.id], e);
  }

  lemma EmailChangeKeeps(h: Hasher, roles: Roles, s: State, op: Op)
    requires Inv(h, s) && op.DoEmailChange?
    ensures Inv(h, Next(h, roles, s, op))
  {
    match FlowOf(h, roles, s.db, op)
    case RolledBack(_) =>
    case Committed(db, spent) =>
      var e := EmailChanged(op.user, s.db.codes[spent.value].data.value, spent.value);
      SpendKeepsCodes(s.db.codes, s.journal, spent.value, op.m.write, e);
      WriteKeepsAccounts(h, s.db.accounts, s.journal, op.user, db.accounts[op.user], e);
  }

  lemma PasswordKeeps(h: Hasher, roles: Roles, s: State, op: Op)
    requires Inv(h, s) && op.DoPassword?
    ensures Inv(h, Next(h, roles, s, op))
  {
    match FlowOf(h, roles, s.db, op)
    case RolledBack(_) =>
    case Committed(db, spent) =>
      OwnEmailIsFree(s.db.accounts, op.user);
      SecretHashes(h, op.password);
      if spent.Some? {
        var e := PasswordReset(op.user, op.password.plain, spent.value);
        SpendKeepsCodes(s.db.codes, s.journal, spent.value, op.m.write, e);
        WriteKeepsAccounts(h, s.db.accounts, s.journal, op.user, db.accounts[op.user], e);
      } else {
        var e := PasswordChanged(op.user, op.password.plain);
        OtherEventKeepsCodes(s.db.codes, s.journal, e);
        WriteKeepsAccounts(h, s.db.accounts, s.journal, op.user, db.accounts[op.user], e);
      }
  }

  lemma BootstrapKeeps(h: Hasher, roles: Roles, s: State, op: Op)
    requires Inv(h, s) && op.DoBootstrap?
    ensures Inv(h, Next(h, roles, s, op))
  {
    match FlowOf(h, roles, s.db, op)
    case RolledBack(_) =>
    case Committed(db, _) =>
      var holder := HolderOf(s.db.accounts, op.email);
      var u := if holder.Some? then holder.value else op.id;
      var e := Bootstrapped(u, op.email, op.password.plain);
      OtherEventKeepsCodes(s.db.codes, s.journal, e);
      if holder.Some? { OwnEmailIsFree(s.db.accounts, u); }
      SecretHashes(h, op.password);
      WriteKeepsAccounts(h, s.db.accounts, s.journal, u, db.accounts[u], e);
      assert db.accounts == s.db.accounts[u := db.accounts[u]];
  }

  lemma NextKeeps(h: Hasher, roles: Roles, s: State, op: Op)
    requires Inv(h, s)
    ensures Inv(h, Next(h, roles, s, op))
  {
    assert s.journal + [] == s.journal;
    match op
    case AskRegister(email, mint, clock, outage) =>
      AskKeeps(h, s, Register, email, None, mint, clock, Remaining(outage, 1));
    case AskEmailChange(user, email, mint, clock, outage) =>
      AskKeeps(h, s, ValidateEmail, user, Some(email), mint, clock, Remaining(outage, 1));
    case AskPasswordReset(_, _, _, _) => AskResetKeeps(h, roles, s, op);
    case DoRegister(_, _, _, _, _, _, _) => RegisterKeeps(h, roles, s, op);
    case DoEmailChange(_, _, _, _, _) => EmailChangeKeeps(h, roles, s, op);
    case DoPassword(_, _, _, _, _, _, _) => PasswordKeeps(h, roles, s, op);
    case DoBootstrap(_, _, _, _, _) => BootstrapKeeps(h, roles, s, op);
    case DoRole(u, now, outage) =>
      match FlowOf(h, roles, s.db, op)
      case RolledBack(_) =>
      case Committed(db, _) =>
        if db != s.db { RoleKeepsAccounts(h, s.db.accounts, s.journal, u.target, db.accounts[u.target]); }
  }

  lemma {:induction false} RunKeeps(h: Hasher, roles: Roles, s: State, ops: seq<Op>)
    requires Inv(h, s)
    ensures Inv(h, Run(h, roles, s, ops))
    decreases |ops|
  {
    if ops != [] {
      NextKeeps(h, roles, s, ops[0]);
      RunKeeps(h, roles, Next(h, roles, s, ops[0]), ops[1..]);
    }
  }

  lemma EmptyIsFine(h: Hasher)
    ensures Inv(h, EMPTY)
  {
  }

  // ---------------------------------------------------------------------------------------
  // No field of an account changes without the proof that goes with it.

  /** The submitted code was in force for the user and this step spent it. */
  ghost predicate SpentFor(
    h: Hasher, s: State, s': State, usage: Usage, target: string, plain: string, m: Moment,
    data: Option<string>)
  {
    exists code :: code in s.db.codes && Redeems(h.matches, s.db.codes[code], usage, target, plain, m)
                   && (data.Some? ==> s.db.codes[code].data == data)
                   && code in s'.db.codes && !s'.db.codes[code].Live()
  }

  ghost predicate EmailProof(h: Hasher, s: State, op: Op, s': State, u: Uuid)
    requires u in s'.db.accounts
  {
    op.DoEmailChange? && op.user == u
    && SpentFor(h, s, s', ValidateEmail, u, op.plain, op.m, Some(s'.db.accounts[u].email))
  }

  ghost predicate PasswordProof(h: Hasher, s: State, op: Op, s': State, u: Uuid)
    requires u in s.db.accounts
  {
    || (op.DoBootstrap? && op.email == s.db.accounts[u].email)
    || (op.DoPassword? && op.user == u
        && if op.plain != "" then SpentFor(h, s, s', ResetPassword, u, op.plain, op.m, None)
           else op.current != "" && h.matches(op.current, s.db.accounts[u].password))
  }

  ghost predicate RoleProof(roles: Roles, s: State, op: Op, s': State, u: Uuid)
    requires u in s.db.accounts && u in s'.db.accounts
  {
    || (op.DoBootstrap? && op.email == s.db.accounts[u].email && s'.db.accounts[u].role == ROLE_SUPER_ADMIN)
    || (op.DoRole? && op.u.target == u && op.u.actor in s.db.accounts
        && exists held, own, next ::
             RankedAt(roles, s.db.accounts[u].role, held) && RankedAt(roles, s.db.accounts[op.u.actor].role, own)
             && RankedAt(roles, s'.db.accounts[u].role, next) && held < own && next <= own)
  }

  /** An account keeps its identity and creation time for ever; its address, password and role
      change only with a spent code, the current password, a higher rank, or the bootstrap. */
  lemma ChangesAreProved(h: Hasher, roles: Roles, s: State, op: Op, u: Uuid)
    requires u in s.db.accounts
    ensures var s' := Next(h, roles, s, op);
            && u in s'.db.accounts
            && s'.db.accounts[u].createdAt == s.db.accounts[u].createdAt
            && (s'.db.accounts[u].email != s.db.accounts[u].email ==> EmailProof(h, s, op, s', u))
            && (s'.db.accounts[u].password != s.db.accounts[u].password ==> PasswordProof(h, s, op, s', u))
            && (s'.db.accounts[u].role != s.db.accounts[u].role ==> RoleProof(roles, s, op, s', u))
  {
    if op.DoRole? && FlowOf(h, roles, s.db, op).Committed? {
      UpdateNeedsOutranking(roles, HeldRoles(s.db.accounts), op.u);
    }
  }

  /** An account comes into being only with a spent registration code for its address, as an
      ordinary user, or through the bootstrap. */
  lemma CreationIsProved(h: Hasher, roles: Roles, s: State, op: Op, u: Uuid)
    requires u !in s.db.accounts && u in Next(h, roles, s, op).db.accounts
    ensures var s' := Next(h, roles, s, op);
            && !EmailTaken(s.db.accounts, s'.db.accounts[u].email)
            && (op.DoBootstrap? || (op.DoRegister? && s'.db.accounts[u].role == ROLE_USER
                                    && SpentFor(h, s, s', Register, s'.db.accounts[u].email, op.plain, op.m, None)))
  {
  }
}
