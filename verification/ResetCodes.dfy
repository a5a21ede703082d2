/** What a password reset code proves. The service takes it as proof that the caller owns the address
    of the account; it was sent to the address the account had when the reset was asked for. */
module ResetCodes {
  import opened Wrappers
  import opened Claims
  import opened ShortCodes
  import opened Authorization
  import opened Accounts
  import opened AccountHistory

  /** This entry of the history is the request the code was issued for, made with the address that
      the account had at that moment. */
  ghost predicate AskedAt(journal: seq<Event>, c: ShortCode, k: nat)
    requires k < |journal|
  {
    && journal[k].ResetAsked? && journal[k].user == c.target && journal[k].code == c.id
    && LastEmail(journal[..k], c.target) == Some(journal[k].email)
  }

  ghost predicate WasAsked(journal: seq<Event>, c: ShortCode) {
    exists k: nat :: k < |journal| && AskedAt(journal, c, k)
  }

  /** Only an email change replaces an address: the other entries that give one give the first, or
      the one that the account has already. */
  ghost predicate GiftOk(journal: seq<Event>, j: nat)
    requires j < |journal|
  {
    journal[j].Registered? || journal[j].Bootstrapped? ==>
      LastEmail(journal[..j], journal[j].user) in {None, Some(journal[j].email)}
  }

  ghost predicate EmailOk(accounts: AccountTable, journal: seq<Event>, u: Uuid) {
    LastEmail(journal, u) == if u in accounts then Some(accounts[u].email) else None
  }

  ghost predicate EmailsInv(accounts: AccountTable, journal: seq<Event>) {
    && (forall u {:trigger EmailOk(accounts, journal, u)} :: EmailOk(accounts, journal, u))
    && (forall j: nat {:trigger GiftOk(journal, j)} :: j < |journal| ==> GiftOk(journal, j))
  }

  ghost predicate CodesAsked(codes: Table, journal: seq<Event>) {
    forall id {:trigger WasAsked(journal, codes[id])} ::
      id in codes && codes[id].usage == ResetPassword ==> WasAsked(journal, codes[id])
  }

  ghost predicate ResetsInv(s: State) {
    EmailsInv(s.db.accounts, s.journal) && CodesAsked(s.db.codes, s.journal)
  }

  lemma LastEmailAfter(journal: seq<Event>, e: Event, u: Uuid)
    ensures LastEmail(journal + [e], u) == if GivesEmail(e, u) then Some(e.email) else LastEmail(journal, u)
  {
    assert (journal + [e])[..|journal|] == journal;
  }

  /** What an entry says about the accounts before and after it. */
  ghost predicate Explains(accounts: AccountTable, e: Event, accounts': AccountTable) {
    && accounts'.Keys == accounts.Keys + (if e.Registered? || e.EmailChanged? || e.Bootstrapped? then {e.user} else {})
    && (forall u :: u in accounts' ==>
          if GivesEmail(e, u) then accounts'[u].email == e.email
          else u in accounts && accounts'[u].email == accounts[u].email)
    && (e.Registered? || e.Bootstrapped? ==> e.user !in accounts || accounts[e.user].email == e.email)
  }

  lemma EntryKeepsEmails(accounts: AccountTable, journal: seq<Event>, e: Event, accounts': AccountTable)
    requires EmailsInv(accounts, journal) && Explains(accounts, e, accounts')
    ensures EmailsInv(accounts', journal + [e])
  {
    var journal' := journal + [e];
    forall u ensures EmailOk(accounts', journal', u) {
      assert EmailOk(accounts, journal, u);
      LastEmailAfter(journal, e, u);
    }
    forall j: nat | j < |journal'| ensures GiftOk(journal', j) {
      if j < |journal| {
        assert GiftOk(journal, j) && journal'[..j] == journal[..j];
      } else {
        assert journal'[..j] == journal;
        if e.Registered? || e.Bootstrapped? { assert EmailOk(accounts, journal, e.user); }
      }
    }
  }

  lemma FlowsExplain(h: Hasher, roles: Roles, db: Db, op: Op)
    requires FlowOf(h, roles, db, op).Committed?
    ensures var Committed(db', spent) := FlowOf(h, roles, db, op);
            var more := EventsOf(db, op, spent);
            if more == [] then db'.accounts.Keys == db.accounts.Keys
                               && forall u :: u in db.accounts ==> db'.accounts[u].email == db.accounts[u].email
            else more == [more[0]] && Explains(db.accounts, more[0], db'.accounts)
  {
  }

  lemma WasAskedStays(journal: seq<Event>, more: seq<Event>, c: ShortCode, c': ShortCode)
    requires WasAsked(journal, c) && c'.id == c.id && c'.target == c.target
    ensures WasAsked(journal + more, c')
  {
    var k: nat :| k < |journal| && AskedAt(journal, c, k);
    assert (journal + more)[..k] == journal[..k];
    assert AskedAt(journal + more, c', k);
  }

  /** The rows after a step are rows from before it, perhaps deleted since, and at most one that was
      not there, whose usage is that of the request. */
  lemma RowsComeFrom(h: Hasher, roles: Roles, s: State, op: Op, id: Uuid)
    requires id in Next(h, roles, s, op).db.codes
    requires Next(h, roles, s, op).db.codes[id].usage == ResetPassword
    ensures var c := Next(h, roles, s, op).db.codes[id];
            || (id in s.db.codes && s.db.codes[id] == c.(deletion := s.db.codes[id].deletion))
            || (op.AskPasswordReset? && FlowOf(h, roles, s.db, op).Committed? && c.id == op.mint.id
                && HolderOf(s.db.accounts, op.email) == Some(c.target))
  {
  }

  lemma NextKeepsCodesAsked(h: Hasher, roles: Roles, s: State, op: Op)
    requires ResetsInv(s)
    ensures CodesAsked(Next(h, roles, s, op).db.codes, Next(h, roles, s, op).journal)
  {
    var s' := Next(h, roles, s, op);
    assert s.journal + [] == s.journal;
    assert s'.journal[..|s.journal|] == s.journal;
    var more := s'.journal[|s.journal|..];
    assert s'.journal == s.journal + more;
    forall id | id in s'.db.codes && s'.db.codes[id].usage == ResetPassword
      ensures WasAsked(s'.journal, s'.db.codes[id])
    {
      var c := s'.db.codes[id];
      RowsComeFrom(h, roles, s, op, id);
      if id in s.db.codes && s.db.codes[id] == c.(deletion := s.db.codes[id].deletion) {
        assert WasAsked(s.journal, s.db.codes[id]);
        WasAskedStays(s.journal, more, s.db.codes[id], c);
      } else {
        assert EmailOk(s.db.accounts, s.journal, c.target);
        assert AskedAt(s'.journal, c, |s.journal|);
      }
    }
  }

  lemma NextKeepsEmails(h: Hasher, roles: Roles, s: State, op: Op)
    requires ResetsInv(s)
    ensures EmailsInv(Next(h, roles, s, op).db.accounts, Next(h, roles, s, op).journal)
  {
    match FlowOf(h, roles, s.db, op)
    case RolledBack(_) =>
    case Committed(db, spent) =>
      var more := EventsOf(s.db, op, spent);
      FlowsExplain(h, roles, s.db, op);
      if more == [] {
        assert s.journal + more == s.journal;
        forall u ensures EmailOk(db.accounts, s.journal, u) { assert EmailOk(s.db.accounts, s.journal, u); }
      } else {
        EntryKeepsEmails(s.db.accounts, s.journal, more[0], db.accounts);
        assert s.journal + more == s.journal + [more[0]];
      }
  }

  lemma {:induction false} RunKeepsResets(h: Hasher, roles: Roles, s: State, ops: seq<Op>)
    requires ResetsInv(s)
    ensures ResetsInv(Run(h, roles, s, ops))
    decreases |ops|
  {
    if ops != [] {
      NextKeepsCodesAsked(h, roles, s, ops[0]);
      NextKeepsEmails(h, roles, s, ops[0]);
      RunKeepsResets(h, roles, Next(h, roles, s, ops[0]), ops[1..]);
    }
  }

  /** The latest email change of the account from this entry on. */
  function LastChange(journal: seq<Event>, from: nat, u: Uuid): (k: Option<nat>)
    ensures k.Some? ==> from <= k.value < |journal| && journal[k.value].EmailChanged? && journal[k.value].user == u
  {
    if |journal| <= from then None
    else
      var last := |journal| - 1;
      if journal[last].EmailChanged? && journal[last].user == u then Some(last)
      else LastChange(journal[..last], from, u)
  }

  /** From an entry on, an account keeps its address but for the email changes. */
  lemma {:induction false} EmailSince(journal: seq<Event>, from: nat, u: Uuid)
    requires from <= |journal| && LastEmail(journal[..from], u).Some?
    requires forall j: nat {:trigger GiftOk(journal, j)} :: j < |journal| ==> GiftOk(journal, j)
    ensures LastEmail(journal, u)
            == var k := LastChange(journal, from, u);
               if k.Some? then Some(journal[k.value].email) else LastEmail(journal[..from], u)
    decreases |journal|
  {
    if |journal| == from {
      assert journal[..from] == journal;
    } else {
      var last := |journal| - 1;
      var before := journal[..last];
      assert before[..from] == journal[..from] && before + [journal[last]] == journal;
      forall j: nat | j < |before| ensures GiftOk(before, j) {
        assert GiftOk(journal, j) && before[..j] == journal[..j];
      }
      EmailSince(before, from, u);
      LastEmailAfter(before, journal[last], u);
      assert GiftOk(journal, last);
    }
  }

  /** A committed reset spent a code that was asked for with the address the account had at that
      time. That is the address the account has now if and only if no email change was committed for
      it since the request, or the latest one since set that very address again. */
  lemma ResetProvesAddress(h: Hasher, roles: Roles, ops: seq<Op>, op: Op)
    requires op.DoPassword? && op.plain != ""
    requires FlowOf(h, roles, Run(h, roles, EMPTY, ops).db, op).Committed?
    ensures var s := Run(h, roles, EMPTY, ops);
            var id := FlowOf(h, roles, s.db, op).spent.value;
            && id in s.db.codes && s.db.codes[id].For(ResetPassword, op.user) && op.user in s.db.accounts
            && WasAsked(s.journal, s.db.codes[id])
            && forall k: nat :: k < |s.journal| && AskedAt(s.journal, s.db.codes[id], k) ==>
                 (s.journal[k].email == s.db.accounts[op.user].email
                  <==> var change := LastChange(s.journal, k, op.user);
                       change.None? || s.journal[change.value].email == s.journal[k].email)
  {
    var s := Run(h, roles, EMPTY, ops);
    RunKeepsResets(h, roles, EMPTY, ops);
    var id := FlowOf(h, roles, s.db, op).spent.value;
    var c := s.db.codes[id];
    assert WasAsked(s.journal, c);
    assert EmailOk(s.db.accounts, s.journal, op.user);
    forall k: nat | k < |s.journal| && AskedAt(s.journal, c, k)
      ensures s.journal[k].email == s.db.accounts[op.user].email
              <==> var change := LastChange(s.journal, k, op.user);
                   change.None? || s.journal[change.value].email == s.journal[k].email
    {
      EmailSince(s.journal, k, op.user);
    }
  }
}
