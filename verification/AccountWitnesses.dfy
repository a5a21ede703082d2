/** Two concrete runs of the identity flows in which a promise fails: a code's record is rewritten,
    and a reset code still works after the address it was sent to is gone. */
module AccountWitnesses {
  import opened Wrappers
  import opened Claims
  import opened ShortCodes
  import opened Authorization
  import opened Accounts
  import opened AccountHistory
  import opened AccountProofs
  import opened ResetCodes

  const USER: Uuid := "00000000-0000-0000-0000-000000000001"
  const RESET: Uuid := "00000000-0000-0000-0000-000000000002"
  const CHANGE: Uuid := "00000000-0000-0000-0000-000000000003"
  const AGAIN: Uuid := "00000000-0000-0000-0000-000000000004"
  const OLD_ADDRESS := "old@example.com"
  const NEW_ADDRESS := "new@example.com"

  /** Any code whose plain text its own hash accepts. */
  ghost predicate Usable(h: Hasher, code: Secret) {
    code.plain != "" && h.matches(code.plain, h.hash(code))
  }

  function Once(now: Time): Moment {
    Moment(now, now, now)
  }

  function MintAt(id: Uuid, code: Secret, now: Time): Mint {
    Mint(id, code, now, 60 * SECOND)
  }

  /** An overriding insert that finds nothing to discard only adds its row. */
  lemma IssueAdds(h: Hasher, db: Db, usage: Usage, target: string, data: Option<string>, mint: Mint, clock: Time)
    requires mint.id !in db.codes && forall id :: id in db.codes ==> !OverrideHits(db.codes[id], usage, target, clock)
    ensures var row := NewRow(RequestOf(h, usage, target, data, mint));
            IssueCode(h, db, usage, target, data, mint, clock, None)
            == Committed(db.(codes := db.codes[mint.id := row]), None)
  {
    var r := RequestOf(h, usage, target, data, mint);
    OverrideInserts(db.codes, r, clock);
    assert Discard(db.codes, r, clock) == db.codes;
  }

  lemma RedemptionOfOnly(h: Hasher, codes: Table, id: Uuid, usage: Usage, target: string, code: Secret, now: Time)
    requires Sound(codes) && id in codes && Selects(codes[id], usage, target, now)
    requires Usable(h, code) && codes[id].code == h.hash(code)
    ensures Redemption(h.matches, codes, usage, target, code.plain, Once(now), None) == Ok(id)
  {
    assert Selected(codes, usage, target, now) == Some(id);
  }

  function FirstOps(password: Secret, code: Secret): seq<Op> {
    [DoBootstrap(USER, OLD_ADDRESS, password, 0, None), AskPasswordReset(OLD_ADDRESS, MintAt(RESET, code, 0), 0, None)]
  }

  function FirstState(h: Hasher, password: Secret, code: Secret): State {
    State(Db(map[RESET := NewRow(RequestOf(h, ResetPassword, USER, None, MintAt(RESET, code, 0)))],
             map[USER := Account(OLD_ADDRESS, h.hash(password), ROLE_SUPER_ADMIN, 0, 0)]),
          [Bootstrapped(USER, OLD_ADDRESS, password.plain), ResetAsked(USER, OLD_ADDRESS, RESET)])
  }

  lemma FirstRun(h: Hasher, roles: Roles, password: Secret, code: Secret)
    ensures Run(h, roles, EMPTY, FirstOps(password, code)) == FirstState(h, password, code)
  {
    var ops := FirstOps(password, code);
    var s := Next(h, roles, EMPTY, ops[0]);
    assert s.db.accounts == map[USER := Account(OLD_ADDRESS, h.hash(password), ROLE_SUPER_ADMIN, 0, 0)];
    assert s.journal == [Bootstrapped(USER, OLD_ADDRESS, password.plain)];
    assert HolderOf(s.db.accounts, OLD_ADDRESS) == Some(USER);
    IssueAdds(h, s.db, ResetPassword, USER, None, MintAt(RESET, code, 0), 0);
    assert ops[1..][1..] == [];
    assert Next(h, roles, s, ops[1]) == FirstState(h, password, code);
    assert Run(h, roles, s, ops[1..]) == Next(h, roles, s, ops[1]);
  }

  lemma {:induction false} RunInTwo(h: Hasher, roles: Roles, s: State, first: seq<Op>, rest: seq<Op>)
    ensures Run(h, roles, s, first + rest) == Run(h, roles, Run(h, roles, s, first), rest)
    ensures NeverRewrites(h, roles, s, first + rest) ==> NeverRewrites(h, roles, Run(h, roles, s, first), rest)
    decreases |first|
  {
    if first == [] {
      assert first + rest == rest;
    } else {
      assert (first + rest)[1..] == first[1..] + rest;
      RunInTwo(h, roles, Next(h, roles, s, first[0]), first[1..], rest);
    }
  }

  function ResetOp(password: Secret, code: Secret, now: Time): Op {
    DoPassword(USER, password, "", code.plain, Once(now), now, None)
  }

  function AskAgain(again: Secret): Op {
    AskPasswordReset(OLD_ADDRESS, MintAt(AGAIN, again, 10_700_000), 10_700_000, None)
  }

  function LosingOps(password: Secret, code: Secret, reset: Secret, again: Secret): seq<Op> {
    FirstOps(password, code) + [ResetOp(reset, code, 10_600_000), AskAgain(again)]
  }

  lemma ResetSpends(h: Hasher, roles: Roles, password: Secret, code: Secret, reset: Secret) returns (s: State)
    requires Usable(h, code)
    ensures s == Next(h, roles, FirstState(h, password, code), ResetOp(reset, code, 10_600_000))
    ensures s.db.codes == Spend(FirstState(h, password, code).db.codes, RESET, 10_600_000)
    ensures s.db.accounts.Keys == {USER} && s.db.accounts[USER].email == OLD_ADDRESS
  {
    var first := FirstState(h, password, code);
    RedemptionOfOnly(h, first.db.codes, RESET, ResetPassword, USER, code, 10_600_000);
    s := Next(h, roles, first, ResetOp(reset, code, 10_600_000));
  }

  lemma AskingAgainRewrites(h: Hasher, roles: Roles, db: Db, again: Secret)
    requires db.codes.Keys == {RESET} && db.codes[RESET].For(ResetPassword, USER)
    requires db.codes[RESET].deletion == Some(Deletion(11 * SECOND, Consumed))
    requires db.accounts.Keys == {USER} && db.accounts[USER].email == OLD_ADDRESS
    ensures Rewrites(h, roles, db, AskAgain(again))
  {
    assert HolderOf(db.accounts, OLD_ADDRESS) == Some(USER) by { assert EmailTaken(db.accounts, OLD_ADDRESS); }
    OverrideInserts(db.codes, RequestOf(h, ResetPassword, USER, None, AskAgain(again).mint), 10_700_000);
    assert RESET in ConsumedIds(db.codes) && DeletedLater(db.codes[RESET], 10_700_000);
  }

  lemma SecondRewrites(h: Hasher, roles: Roles, s: State, first: Op, second: Op)
    requires Rewrites(h, roles, Next(h, roles, s, first).db, second)
    ensures !NeverRewrites(h, roles, s, [first, second])
  {
    assert [first, second][1..][0] == second;
    assert !NeverRewrites(h, roles, Next(h, roles, s, first), [first, second][1..]);
  }

  /** A reset code is redeemed at 10.6 s and dated 11 s; the reset asked for at 10.7 s rewrites the
      record that it was consumed. */
  lemma AuditTrailIsLostInARun(h: Hasher, roles: Roles, password: Secret, code: Secret, reset: Secret, again: Secret)
    requires Usable(h, code)
    ensures !NeverRewrites(h, roles, EMPTY, LosingOps(password, code, reset, again))
  {
    FirstRun(h, roles, password, code);
    var s := ResetSpends(h, roles, password, code, reset);
    AskingAgainRewrites(h, roles, s.db, again);
    SecondRewrites(h, roles, FirstState(h, password, code), ResetOp(reset, code, 10_600_000), AskAgain(again));
    RunInTwo(h, roles, EMPTY, FirstOps(password, code), [ResetOp(reset, code, 10_600_000), AskAgain(again)]);
  }

  /** The set of rows recorded as consumed and the set of spent codes then differ. */
  lemma ConservationFailsInARun(h: Hasher, roles: Roles, password: Secret, code: Secret, reset: Secret, again: Secret)
    requires Usable(h, code)
    ensures var s := Run(h, roles, EMPTY, LosingOps(password, code, reset, again));
            ConsumedIds(s.db.codes) != SpentIds(s.journal)
  {
    AuditTrailIsLostInARun(h, roles, password, code, reset, again);
    Conservation(h, roles, LosingOps(password, code, reset, again));
  }

  // ---------------------------------------------------------------------------------------
  // A reset after the address has changed.

  function ChangeOps(change: Secret): seq<Op> {
    [AskEmailChange(USER, NEW_ADDRESS, MintAt(CHANGE, change, SECOND), SECOND, None),
     DoEmailChange(USER, change.plain, Once(2 * SECOND), 2 * SECOND, None)]
  }

  lemma AskChange(h: Hasher, roles: Roles, password: Secret, code: Secret, change: Secret) returns (s: State)
    ensures s == Next(h, roles, FirstState(h, password, code), ChangeOps(change)[0])
    ensures var first := FirstState(h, password, code);
            var row := NewRow(RequestOf(h, ValidateEmail, USER, Some(NEW_ADDRESS), MintAt(CHANGE, change, SECOND)));
            s == State(Db(first.db.codes[CHANGE := row], first.db.accounts), first.journal)
  {
    var first := FirstState(h, password, code);
    IssueAdds(h, first.db, ValidateEmail, USER, Some(NEW_ADDRESS), MintAt(CHANGE, change, SECOND), SECOND);
    s := Next(h, roles, first, ChangeOps(change)[0]);
    assert s.journal == first.journal;
  }

  lemma DoChange(h: Hasher, roles: Roles, s: State, change: Secret) returns (s': State)
    requires Usable(h, change) && Sound(s.db.codes) && CHANGE in s.db.codes
    requires s.db.codes[CHANGE]
             == NewRow(RequestOf(h, ValidateEmail, USER, Some(NEW_ADDRESS), MintAt(CHANGE, change, SECOND)))
    requires s.db.accounts.Keys == {USER}
    ensures s' == Next(h, roles, s, ChangeOps(change)[1])
    ensures s'.db.codes == Spend(s.db.codes, CHANGE, 2 * SECOND)
    ensures s'.db.accounts.Keys == {USER} && s'.db.accounts[USER].email == NEW_ADDRESS
    ensures s'.journal == s.journal + [EmailChanged(USER, NEW_ADDRESS, CHANGE)]
  {
    RedemptionOfOnly(h, s.db.codes, CHANGE, ValidateEmail, USER, change, 2 * SECOND);
    s' := Next(h, roles, s, ChangeOps(change)[1]);
  }

  lemma ChangeRun(h: Hasher, roles: Roles, password: Secret, code: Secret, change: Secret) returns (s: State)
    requires Usable(h, change)
    ensures s == Run(h, roles, FirstState(h, password, code), ChangeOps(change))
    ensures Sound(s.db.codes) && s.db.accounts.Keys == {USER} && s.db.accounts[USER].email == NEW_ADDRESS
    ensures RESET in s.db.codes && s.db.codes[RESET] == FirstState(h, password, code).db.codes[RESET]
    ensures s.journal == FirstState(h, password, code).journal + [EmailChanged(USER, NEW_ADDRESS, CHANGE)]
  {
    var ops := ChangeOps(change);
    var asked := AskChange(h, roles, password, code, change);
    s := DoChange(h, roles, asked, change);
    SpendIsSound(asked.db.codes, CHANGE, 2 * SECOND);
    assert ops[1..][1..] == [] && Run(h, roles, asked, ops[1..]) == s;
  }

  lemma ResetCommits(h: Hasher, roles: Roles, s: State, code: Secret, reset: Secret)
    requires Usable(h, code) && Sound(s.db.codes) && RESET in s.db.codes && USER in s.db.accounts
    requires s.db.codes[RESET] == NewRow(RequestOf(h, ResetPassword, USER, None, MintAt(RESET, code, 0)))
    ensures FlowOf(h, roles, s.db, ResetOp(reset, code, 3 * SECOND)).Committed?
    ensures FlowOf(h, roles, s.db, ResetOp(reset, code, 3 * SECOND)).spent == Some(RESET)
  {
    RedemptionOfOnly(h, s.db.codes, RESET, ResetPassword, USER, code, 3 * SECOND);
  }

  lemma AskedFirst(journal: seq<Event>, plain: string, c: ShortCode, more: seq<Event>)
    requires journal == [Bootstrapped(USER, OLD_ADDRESS, plain), ResetAsked(USER, OLD_ADDRESS, RESET)] + more
    requires c.id == RESET && c.target == USER
    ensures AskedAt(journal, c, 1) && journal[1].email == OLD_ADDRESS
  {
    assert journal[..1] == [Bootstrapped(USER, OLD_ADDRESS, plain)];
  }

  /** A reset is asked for, the address of the account is changed, and the code sent to the old
      address still sets the password. */
  lemma OldAddressStillResets(h: Hasher, roles: Roles, password: Secret, code: Secret, change: Secret, reset: Secret)
    requires Usable(h, code) && Usable(h, change)
    ensures var s := Run(h, roles, EMPTY, FirstOps(password, code) + ChangeOps(change));
            && FlowOf(h, roles, s.db, ResetOp(reset, code, 3 * SECOND)).Committed?
            && FlowOf(h, roles, s.db, ResetOp(reset, code, 3 * SECOND)).spent == Some(RESET)
            && RESET in s.db.codes && |s.journal| == 3
            && AskedAt(s.journal, s.db.codes[RESET], 1) && s.journal[1].email == OLD_ADDRESS
            && USER in s.db.accounts && s.db.accounts[USER].email == NEW_ADDRESS
  {
    FirstRun(h, roles, password, code);
    RunInTwo(h, roles, EMPTY, FirstOps(password, code), ChangeOps(change));
    var s := ChangeRun(h, roles, password, code, change);
    ResetCommits(h, roles, s, code, reset);
    AskedFirst(s.journal, password.plain, s.db.codes[RESET], [EmailChanged(USER, NEW_ADDRESS, CHANGE)]);
  }
}
