/** What holds of every run of the identity flows from an empty database. */
module AccountProofs {
  import opened Wrappers
  import opened Claims
  import opened Argon2
  import opened ShortCodes
  import opened Authorization
  import opened Accounts
  import opened AccountHistory

  /** Where an account's address comes from: the target of a registration code, the payload of a
      change code issued for this very account, or the bootstrap; the code is spent. */
  ghost predicate Proves(codes: Table, e: Event, u: Uuid, email: string) {
    match e
    case Registered(user, address, _, code) =>
      user == u && address == email && code in codes && !codes[code].Live() && codes[code].For(Register, email)
    case EmailChanged(user, address, code) =>
      user == u && address == email && code in codes && !codes[code].Live()
      && codes[code].For(ValidateEmail, u) && codes[code].data == Some(email)
    case Bootstrapped(user, address, _) => user == u && address == email
    case _ => false
  }

  /** In every reachable state no two accounts share an address, and the address of an account is
      the one that the latest entry to give it one gave, with the code that goes with that entry. */
  lemma EmailProvenance(h: Hasher, roles: Roles, ops: seq<Op>, u: Uuid)
    ensures var s := Run(h, roles, EMPTY, ops);
            && UniqueEmails(s.db.accounts)
            && (u in s.db.accounts ==>
                  LastGiver(s.journal, u).Some?
                  && Proves(s.db.codes, s.journal[LastGiver(s.journal, u).value], u, s.db.accounts[u].email))
  {
    EmptyIsFine(h);
    RunKeeps(h, roles, EMPTY, ops);
    var s := Run(h, roles, EMPTY, ops);
    if u in s.db.accounts {
      assert AccountOk(h, s.db.accounts, s.journal, u);
      var k := LastGiver(s.journal, u).value;
      assert EntryOk(s.db.codes, s.journal, k);
      if !s.journal[k].Bootstrapped? { assert Spends(s.journal[k], s.journal[k].code); }
    }
  }

  // ---------------------------------------------------------------------------------------
  // Conservation: the codes recorded as consumed against the identity changes committed.

  predicate IsIdentityChange(e: Event) {
    e.Registered? || e.EmailChanged? || e.PasswordReset?
  }

  function IdentityChanges(journal: seq<Event>): nat {
    if journal == [] then 0
    else
      var last := |journal| - 1;
      IdentityChanges(journal[..last]) + (if IsIdentityChange(journal[last]) then 1 else 0)
  }

  function SpentIds(journal: seq<Event>): set<Uuid> {
    if journal == [] then {}
    else
      var last := |journal| - 1;
      SpentIds(journal[..last]) + (if IsIdentityChange(journal[last]) then {journal[last].code} else {})
  }

  lemma {:induction false} SpentIdsAreSpent(journal: seq<Event>, code: Uuid)
    ensures code in SpentIds(journal) <==> SpentInHistory(journal, code)
  {
    if journal != [] {
      var last := |journal| - 1;
      SpentIdsAreSpent(journal[..last], code);
      if SpentInHistory(journal, code) {
        var k :| 0 <= k < |journal| && Spends(journal[k], code);
        assert k < last ==> Spends(journal[..last][k], code);
      }
      if SpentInHistory(journal[..last], code) {
        var k :| 0 <= k < last && Spends(journal[..last][k], code);
        assert Spends(journal[k], code);
      }
      assert Spends(journal[last], code) ==> SpentInHistory(journal, code);
    }
  }

  lemma {:induction false} OneCodePerChange(journal: seq<Event>)
    requires forall j, k, code {:trigger Spends(journal[j], code), Spends(journal[k], code)} ::
               0 <= j < k < |journal| ==> !(Spends(journal[j], code) && Spends(journal[k], code))
    ensures |SpentIds(journal)| == IdentityChanges(journal)
  {
    if journal != [] {
      var last := |journal| - 1;
      var before := journal[..last];
      forall j, k, code | 0 <= j < k < last ensures !(Spends(before[j], code) && Spends(before[k], code)) {
        assert before[j] == journal[j] && before[k] == journal[k];
      }
      OneCodePerChange(before);
      if IsIdentityChange(journal[last]) {
        var code := journal[last].code;
        SpentIdsAreSpent(before, code);
        assert Spends(journal[last], code);
        forall j | 0 <= j < last ensures !Spends(before[j], code) {
          assert before[j] == journal[j];
        }
      }
    }
  }

  /** Spent codes whose row no longer says so. */
  ghost function Lost(s: State): set<Uuid> {
    SpentIds(s.journal) - ConsumedIds(s.db.codes)
  }

  ghost function AskedPair(db: Db, op: Op): Option<(Usage, string, Time)> {
    match op
    case AskRegister(email, _, clock, _) => Some((Register, email, clock))
    case AskEmailChange(user, _, _, clock, _) => Some((ValidateEmail, user, clock))
    case AskPasswordReset(email, _, clock, _) =>
      var holder := HolderOf(db.accounts, email);
      if holder.Some? then Some((ResetPassword, holder.value, clock)) else None
    case _ => None
  }

  /** A code is issued for a pair whose last redemption is dated ahead of the database clock. */
  ghost predicate Rewrites(h: Hasher, roles: Roles, db: Db, op: Op) {
    match AskedPair(db, op)
    case None => false
    case Some((usage, target, clock)) =>
      FlowOf(h, roles, db, op).Committed? && FreshlyConsumed(db.codes, usage, target, clock)
  }

  lemma AskLoses(
    h: Hasher, s: State, usage: Usage, target: string, data: Option<string>, mint: Mint, clock: Time, outage: Outage,
    journal: seq<Event>)
    requires Inv(h, s) && IssueCode(h, s.db, usage, target, data, mint, clock, outage).Committed?
    requires SpentIds(journal) == SpentIds(s.journal)
    ensures var s' := State(IssueCode(h, s.db, usage, target, data, mint, clock, outage).db, journal);
            Lost(s) <= Lost(s') && (Lost(s') == Lost(s) <==> !FreshlyConsumed(s.db.codes, usage, target, clock))
  {
    var r := RequestOf(h, usage, target, data, mint);
    var s' := State(IssueCode(h, s.db, usage, target, data, mint, clock, outage).db, journal);
    InsertKeepsAuditTrail(s.db.codes, r, clock);
    forall code | code in ConsumedIds(s.db.codes) ensures code in SpentIds(s.journal) {
      SpentIdsAreSpent(s.journal, code);
    }
    if FreshlyConsumed(s.db.codes, usage, target, clock) {
      var code :| code in ConsumedIds(s.db.codes) && code !in ConsumedIds(s'.db.codes);
      assert code in Lost(s') && code !in Lost(s);
    }
  }

  lemma SpendLosesNothing(s: State, code: Uuid, now: Time, e: Event, accounts: AccountTable)
    requires code in s.db.codes && Spends(e, code)
    requires s.db.codes[code].Live() && CodesInv(s.db.codes, s.journal)
    ensures Lost(State(Db(Spend(s.db.codes, code, now), accounts), s.journal + [e])) == Lost(s)
  {
    var s' := State(Db(Spend(s.db.codes, code, now), accounts), s.journal + [e]);
    assert s'.journal[..|s.journal|] == s.journal;
    assert ConsumedIds(s'.db.codes) == ConsumedIds(s.db.codes) + {code};
    SpentIdsAreSpent(s.journal, code);
    forall k | 0 <= k < |s.journal| ensures !Spends(s.journal[k], code) {
      assert EntryOk(s.db.codes, s.journal, k);
    }
  }

  lemma DoLoses(h: Hasher, roles: Roles, s: State, op: Op)
    requires Inv(h, s) && FlowOf(h, roles, s.db, op).Committed?
    requires op.DoRegister? || op.DoEmailChange? || op.DoPassword? || op.DoBootstrap?
    ensures Lost(Next(h, roles, s, op)) == Lost(s)
  {
    var Committed(db, spent) := FlowOf(h, roles, s.db, op);
    var e := EventsOf(s.db, op, spent)[0];
    assert EventsOf(s.db, op, spent) == [e];
    if IsIdentityChange(e) {
      SpendLosesNothing(s, spent.value, op.m.write, e, db.accounts);
    } else {
      assert (s.journal + [e])[..|s.journal|] == s.journal;
    }
  }

  lemma AskResetLoses(h: Hasher, roles: Roles, s: State, op: Op)
    requires Inv(h, s) && op.AskPasswordReset? && FlowOf(h, roles, s.db, op).Committed?
    ensures Lost(s) <= Lost(Next(h, roles, s, op))
    ensures Lost(Next(h, roles, s, op)) == Lost(s) <==> !Rewrites(h, roles, s.db, op)
  {
    var user := HolderOf(s.db.accounts, op.email).value;
    var journal := s.journal + [ResetAsked(user, op.email, op.mint.id)];
    assert journal[..|s.journal|] == s.journal;
    AskLoses(h, s, ResetPassword, user, None, op.mint, op.clock, Remaining(op.outage, 1), journal);
  }

  lemma NextLoses(h: Hasher, roles: Roles, s: State, op: Op)
    requires Inv(h, s)
    ensures Lost(s) <= Lost(Next(h, roles, s, op))
    ensures Lost(Next(h, roles, s, op)) == Lost(s) <==> !Rewrites(h, roles, s.db, op)
  {
    assert s.journal + [] == s.journal;
    if FlowOf(h, roles, s.db, op).Committed? {
      if op.AskRegister? {
        AskLoses(h, s, Register, op.email, None, op.mint, op.clock, Remaining(op.outage, 1), s.journal);
      } else if op.AskEmailChange? {
        AskLoses(h, s, ValidateEmail, op.user, Some(op.email), op.mint, op.clock, Remaining(op.outage, 1), s.journal);
      } else if op.AskPasswordReset? {
        AskResetLoses(h, roles, s, op);
      } else if !op.DoRole? {
        DoLoses(h, roles, s, op);
      }
    }
  }

  ghost predicate NeverRewrites(h: Hasher, roles: Roles, s: State, ops: seq<Op>)
    decreases |ops|
  {
    ops == [] || (!Rewrites(h, roles, s.db, ops[0]) && NeverRewrites(h, roles, Next(h, roles, s, ops[0]), ops[1..]))
  }

  lemma {:induction false} RunLoses(h: Hasher, roles: Roles, s: State, ops: seq<Op>)
    requires Inv(h, s)
    ensures Lost(s) <= Lost(Run(h, roles, s, ops))
    ensures Lost(Run(h, roles, s, ops)) == Lost(s) <==> NeverRewrites(h, roles, s, ops)
    decreases |ops|
  {
    if ops != [] {
      NextLoses(h, roles, s, ops[0]);
      NextKeeps(h, roles, s, ops[0]);
      RunLoses(h, roles, Next(h, roles, s, ops[0]), ops[1..]);
    }
  }

  /** The code that the change names is dead and was issued for this very change: its usage, its
      target and its payload. */
  ghost predicate HasItsCode(codes: Table, journal: seq<Event>, k: nat)
    requires k < |journal|
  {
    IsIdentityChange(journal[k]) ==> journal[k].code in codes && Authorises(codes[journal[k].code], journal[k])
  }

  lemma ChangesHaveTheirCodes(codes: Table, journal: seq<Event>)
    requires CodesInv(codes, journal)
    ensures forall k {:trigger HasItsCode(codes, journal, k)} :: 0 <= k < |journal| ==> HasItsCode(codes, journal, k)
    ensures forall j, k :: 0 <= j < k < |journal| && IsIdentityChange(journal[j]) && IsIdentityChange(journal[k])
              ==> journal[j].code != journal[k].code
  {
    forall k | 0 <= k < |journal| ensures HasItsCode(codes, journal, k) {
      assert EntryOk(codes, journal, k);
      if IsIdentityChange(journal[k]) { assert Spends(journal[k], journal[k].code); }
    }
    forall j, k | 0 <= j < k < |journal| && IsIdentityChange(journal[j]) && IsIdentityChange(journal[k])
      ensures journal[j].code != journal[k].code
    {
      assert Spends(journal[j], journal[j].code) && Spends(journal[k], journal[k].code);
    }
  }

  /** Each identity change redeemed a code of its own, issued for it, and every row recorded as
      consumed belongs to one; the two sets are the same exactly when no code was ever issued for a
      pair whose last redemption was dated ahead of the database clock. */
  lemma Conservation(h: Hasher, roles: Roles, ops: seq<Op>)
    ensures var s := Run(h, roles, EMPTY, ops);
            && |SpentIds(s.journal)| == IdentityChanges(s.journal)
            && (forall k {:trigger HasItsCode(s.db.codes, s.journal, k)} ::
                  0 <= k < |s.journal| ==> HasItsCode(s.db.codes, s.journal, k))
            && (forall j, k ::
                  0 <= j < k < |s.journal| && IsIdentityChange(s.journal[j]) && IsIdentityChange(s.journal[k]) ==>
                    s.journal[j].code != s.journal[k].code)
            && ConsumedIds(s.db.codes) <= SpentIds(s.journal)
            && (ConsumedIds(s.db.codes) == SpentIds(s.journal) <==> NeverRewrites(h, roles, EMPTY, ops))
  {
    EmptyIsFine(h);
    RunKeeps(h, roles, EMPTY, ops);
    RunLoses(h, roles, EMPTY, ops);
    var s := Run(h, roles, EMPTY, ops);
    OneCodePerChange(s.journal);
    ChangesHaveTheirCodes(s.db.codes, s.journal);
    forall code | code in ConsumedIds(s.db.codes) ensures code in SpentIds(s.journal) {
      SpentIdsAreSpent(s.journal, code);
    }
    assert Lost(EMPTY) == {};
    assert Lost(s) == {} <==> ConsumedIds(s.db.codes) == SpentIds(s.journal);
  }

  // ---------------------------------------------------------------------------------------
  // Login agrees with history.

  /** In every reachable state the stored hash of an account carries a salt, the CPU count of the host
      that made it, and the key that the password last committed for it derives with them; a login
      is accepted exactly when the submitted password derives that same key. */
  lemma LoginAgreesWithHistory(kdf: Kdf, roles: Roles, ops: seq<Op>, u: Uuid, attempt: string)
    requires YieldsRequestedLength(kdf)
    requires u in Run(Argon2Hasher(kdf), roles, EMPTY, ops).db.accounts
    ensures var s := Run(Argon2Hasher(kdf), roles, EMPTY, ops);
            && LastPassword(s.journal, u).Some?
            && match DecodeHash(s.db.accounts[u].password)
               case Err(_) => false
               case Ok(Decoded(used, salt, key)) =>
                 && used == Params(65536, 3, used.parallelism, 32, 32) && |salt| == 32
                 && key == kdf(LastPassword(s.journal, u).value, salt, 3, 65536, used.parallelism, 32)
                 && Login(Argon2Hasher(kdf), s.db, s.db.accounts[u].email, attempt, false)
                    == if kdf(attempt, salt, 3, 65536, used.parallelism, 32) == key then Ok(u) else Err(WrongPassword)
  {
    var h := Argon2Hasher(kdf);
    EmptyIsFine(h);
    RunKeeps(h, roles, EMPTY, ops);
    var s := Run(h, roles, EMPTY, ops);
    assert AccountOk(h, s.db.accounts, s.journal, u);
    var last := LastPassword(s.journal, u).value;
    var secret: Secret :| secret.plain == last && h.hash(secret) == s.db.accounts[u].password;
    var used := CompareGenerated(kdf, last, attempt, DEFAULT_PARAMS, secret.salt, secret.cpus);
    assert s.db.accounts[u].password == Generate(kdf, last, DEFAULT_PARAMS, secret.salt, secret.cpus);
    assert HolderOf(s.db.accounts, s.db.accounts[u].email) == Some(u);
  }

  // ---------------------------------------------------------------------------------------
  // Bootstrap.

  ghost predicate OnlyHolder(accounts: AccountTable, u: Uuid, email: string) {
    u in accounts && forall v :: v in accounts && accounts[v].email == email <==> v == u
  }

  /** Success leaves exactly one holder of the address, a super-admin with the given password, and
      touches nobody else and no code; an account that was there keeps identity and creation time.
      It fails only for an outage or, on an absent account, an empty address or a reused identifier,
      and then nothing has changed. */
  lemma BootstrapOutcome(
    h: Hasher, db: Db, id: Uuid, email: string, password: Secret, now: Time, outage: Outage)
    returns (u: Uuid)
    requires Valid(db)
    ensures CreateSuperAdmin(h, db, id, email, password, now, None).Committed?
            <==> EmailTaken(db.accounts, email) || (email != "" && id !in db.accounts)
    ensures match CreateSuperAdmin(h, db, id, email, password, now, outage)
            case RolledBack(_) => true
            case Committed(after, spent) =>
              && spent == None && after.codes == db.codes && Valid(after)
              && OnlyHolder(after.accounts, u, email)
              && after.accounts[u].role == ROLE_SUPER_ADMIN && after.accounts[u].password == h.hash(password)
              && (u in db.accounts ==>
                    db.accounts[u].email == email && after.accounts[u].createdAt == db.accounts[u].createdAt)
              && (u !in db.accounts ==> u == id && !EmailTaken(db.accounts, email))
              && after.accounts - {u} == db.accounts - {u}
  {
    var holder := HolderOf(db.accounts, email);
    u := if holder.Some? then holder.value else id;
  }

  /** A second run, with whatever identifier, password and clock, finds the account of the first. */
  lemma BootstrapTwice(h: Hasher, db: Db, email: string, id1: Uuid, password1: Secret, now1: Time,
                       id2: Uuid, password2: Secret, now2: Time)
    requires Valid(db) && CreateSuperAdmin(h, db, id1, email, password1, now1, None).Committed?
    ensures var once := CreateSuperAdmin(h, db, id1, email, password1, now1, None).db;
            && CreateSuperAdmin(h, once, id2, email, password2, now2, None).Committed?
            && var twice := CreateSuperAdmin(h, once, id2, email, password2, now2, None).db;
               && twice.accounts.Keys == once.accounts.Keys
               && (forall v :: v in once.accounts && once.accounts[v].email != email ==>
                     twice.accounts[v] == once.accounts[v])
               && (forall v :: v in once.accounts && once.accounts[v].email == email ==>
                     twice.accounts[v].createdAt == once.accounts[v].createdAt
                     && twice.accounts[v].role == ROLE_SUPER_ADMIN
                     && twice.accounts[v].password == h.hash(password2))
               && (password1 == password2 && now1 == now2 ==> twice == once)
  {
    var once := CreateSuperAdmin(h, db, id1, email, password1, now1, None).db;
    var u := BootstrapOutcome(h, db, id1, email, password1, now1, None);
    var v := BootstrapOutcome(h, once, id2, email, password2, now2, None);
    assert EmailTaken(once.accounts, email);
  }
}
