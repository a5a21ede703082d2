/** What every interleaving of issue and redeem transactions keeps, and what follows from it. */
module ShortCodeRaceProofs {
  import opened Wrappers
  import opened Claims
  import opened ShortCodes
  import opened ShortCodeRaces

  // ---------------------------------------------------------------------------------------
  // Each kind of step keeps the invariant.

  lemma QuietKeeps(s: State)
    requires Quiet(s)
    ensures Inv(s)
  {
  }

  lemma BeginKeeps(s: State, t: TxId, job: Job, clock: Time)
    requires Inv(s) && t !in s.txs
    ensures Inv(s.(txs := s.txs[t := Tx(job, clock, Begun)]))
  {
    var s' := s.(txs := s.txs[t := Tx(job, clock, Begun)]);
    forall id | id in s'.rows ensures RowOk(s', id) { assert RowOk(s, id); }
    forall u | u in s'.txs ensures TxOk(s', u) && RedemptionOk(s', u) {
      if u != t { assert TxOk(s, u) && RedemptionOk(s, u); }
    }
    forall a, b | a in s'.rows && b in s'.rows ensures Exclusive(s', a, b) { assert Exclusive(s, a, b); }
    forall id | id in s'.retired ensures RetirementOk(s', id) { assert RetirementOk(s, id); }
  }

  lemma MovedKeeps(s: State, t: TxId, phase: Phase)
    requires Inv(s) && s.Active(t) && !s.txs[t].phase.Ready?
    requires !phase.Ready? && !phase.Finished? && TxOk(Moved(s, t, phase), t)
    ensures Inv(Moved(s, t, phase))
  {
    var s' := Moved(s, t, phase);
    forall id | id in s'.rows ensures RowOk(s', id) { assert RowOk(s, id); }
    forall u | u in s'.txs ensures TxOk(s', u) && RedemptionOk(s', u) { assert TxOk(s, u) && RedemptionOk(s, u); }
    forall a, b | a in s'.rows && b in s'.rows ensures Exclusive(s', a, b) { assert Exclusive(s, a, b); }
    forall id | id in s'.retired ensures RetirementOk(s', id) { assert RetirementOk(s, id); }
  }

  lemma DeletionKeepsExclusive(s: State, t: TxId, id: Uuid, version: ShortCode, s': State, a: Uuid, b: Uuid)
    requires Inv(s) && id in s.rows && s.rows[id].committed.Some? && !s.rows[id].LockedFor(t) && !version.Live()
    requires s'.rows == Drafted(s, t, id, version).rows && a in s'.rows && b in s'.rows
    ensures Exclusive(s', a, b)
  {
    assert Exclusive(s, a, b);
  }

  lemma RollbackKeepsExclusive(s: State, t: TxId, outcome: Outcome, a: Uuid, b: Uuid)
    requires Inv(s) && t in s.txs && a in RolledBack(s, t, outcome).rows && b in RolledBack(s, t, outcome).rows
    ensures Exclusive(RolledBack(s, t, outcome), a, b)
  {
    assert Exclusive(s, a, b);
  }

  /** A transaction puts a deletion on a committed row it may lock. */
  lemma DraftedKeeps(s: State, t: TxId, id: Uuid, version: ShortCode)
    requires Inv(s) && s.Active(t)
    requires id in s.rows && s.rows[id].committed.Some? && !s.rows[id].LockedFor(t)
    requires DraftOk(Drafted(s, t, id, version), id)
    ensures Inv(Drafted(s, t, id, version))
  {
    var s' := Drafted(s, t, id, version);
    forall x | x in s'.rows ensures RowOk(s', x) {
      assert RowOk(s, x);
      if x != id && s.rows[x].draft.Some? { assert DraftOk(s, x) && DraftOk(s', x); }
    }
    forall u | u in s'.txs ensures TxOk(s', u) && RedemptionOk(s', u) { assert TxOk(s, u) && RedemptionOk(s, u); }
    forall a, b | a in s'.rows && b in s'.rows ensures Exclusive(s', a, b) {
      DeletionKeepsExclusive(s, t, id, version, s', a, b);
    }
    forall x | x in s'.retired ensures RetirementOk(s', x) { assert RetirementOk(s, x); }
  }

  lemma RolledBackKeeps(s: State, t: TxId, outcome: Outcome)
    requires Inv(s) && s.Active(t) && !outcome.Committed?
    requires s.txs[t].job.Issue? && outcome.Refused? ==> outcome.why == CodeExists
    ensures Inv(RolledBack(s, t, outcome))
  {
    var s' := RolledBack(s, t, outcome);
    forall x | x in s'.rows ensures RowOk(s', x) {
      assert RowOk(s, x);
      if s'.rows[x].draft.Some? { assert DraftOk(s, x) && DraftOk(s', x); }
    }
    forall u | u in s'.txs ensures TxOk(s', u) && RedemptionOk(s', u) {
      assert TxOk(s, u) && RedemptionOk(s, u);
    }
    forall a, b | a in s'.rows && b in s'.rows ensures Exclusive(s', a, b) {
      RollbackKeepsExclusive(s, t, outcome, a, b);
    }
    forall x | x in s'.retired ensures RetirementOk(s', x) { assert RetirementOk(s, x); }
  }

  lemma InsertKeepsExclusive(s: State, t: TxId, r: InsertRequest, s': State, a: Uuid, b: Uuid)
    requires Inv(s) && s.At(t, Issue(r), Inserting) && r.id !in s.rows
    requires forall id :: id in s.rows ==> !MustWait(s.rows[id], t, r.usage, r.target)
    requires forall id :: id in s.rows ==> !InTheWay(s.rows[id], t, r.usage, r.target)
    requires s' == Moved(s.(rows := s.rows[r.id := Row(None, Some(Draft(t, NewRow(r))))]), t, Ready(r.id))
    requires a in s'.rows && b in s'.rows
    ensures Exclusive(s', a, b)
  {
    if a != r.id && b != r.id {
      assert Exclusive(s, a, b);
    } else if a == r.id && b != r.id {
      assert RowOk(s, b) && !MustWait(s.rows[b], t, r.usage, r.target) && !InTheWay(s.rows[b], t, r.usage, r.target);
    } else if b == r.id && a != r.id {
      assert RowOk(s, a) && !MustWait(s.rows[a], t, r.usage, r.target);
    }
  }

  lemma InsertKeepsRow(s: State, t: TxId, r: InsertRequest, s': State, x: Uuid)
    requires Inv(s) && s.At(t, Issue(r), Inserting) && r.id !in s.rows
    requires s' == Moved(s.(rows := s.rows[r.id := Row(None, Some(Draft(t, NewRow(r))))]), t, Ready(r.id))
    requires x in s'.rows
    ensures RowOk(s', x)
  {
    if x != r.id {
      assert RowOk(s, x);
      if s'.rows[x].draft.Some? { assert DraftOk(s, x) && DraftOk(s', x); }
    }
  }

  lemma InsertKeepsTx(s: State, t: TxId, r: InsertRequest, s': State, u: TxId)
    requires Inv(s) && s.At(t, Issue(r), Inserting) && r.id !in s.rows
    requires s' == Moved(s.(rows := s.rows[r.id := Row(None, Some(Draft(t, NewRow(r))))]), t, Ready(r.id))
    requires u in s'.txs
    ensures TxOk(s', u) && RedemptionOk(s', u)
  {
    assert TxOk(s, u) && RedemptionOk(s, u);
  }

  lemma InsertKeeps(s: State, t: TxId, r: InsertRequest, s': State)
    requires Inv(s) && s.At(t, Issue(r), Inserting) && r.id !in s.rows
    requires forall id :: id in s.rows ==> !MustWait(s.rows[id], t, r.usage, r.target)
    requires forall id :: id in s.rows ==> !InTheWay(s.rows[id], t, r.usage, r.target)
    requires s' == Moved(s.(rows := s.rows[r.id := Row(None, Some(Draft(t, NewRow(r))))]), t, Ready(r.id))
    ensures Inv(s')
  {
    forall x | x in s'.rows ensures RowOk(s', x) { InsertKeepsRow(s, t, r, s', x); }
    forall u | u in s'.txs ensures TxOk(s', u) && RedemptionOk(s', u) { InsertKeepsTx(s, t, r, s', u); }
    forall a, b | a in s'.rows && b in s'.rows ensures Exclusive(s', a, b) {
      InsertKeepsExclusive(s, t, r, s', a, b);
    }
    forall x | x in s'.retired ensures RetirementOk(s', x) { assert RetirementOk(s, x); }
  }

  lemma CommitKeepsExclusive(s: State, t: TxId, id: Uuid, a: Uuid, b: Uuid)
    requires Inv(s) && s.Active(t) && a in s.rows && b in s.rows
    ensures Exclusive(CommittedState(s, t, id), a, b)
  {
    assert Exclusive(s, a, b) && Exclusive(s, b, a);
    assert RowOk(s, a) && RowOk(s, b);
  }

  lemma CommitKeepsRow(s: State, t: TxId, id: Uuid, x: Uuid)
    requires Inv(s) && s.Active(t) && s.txs[t].phase == Ready(id) && x in s.rows
    ensures RowOk(CommittedState(s, t, id), x)
  {
    assert RowOk(s, x);
    var s' := CommittedState(s, t, id);
    if s'.rows[x].draft.Some? { assert DraftOk(s, x) && DraftOk(s', x); }
  }

  lemma CommitKeepsRetirement(s: State, t: TxId, id: Uuid, x: Uuid)
    requires Inv(s) && s.Active(t) && s.txs[t].phase == Ready(id)
    requires x in CommittedState(s, t, id).retired
    ensures RetirementOk(CommittedState(s, t, id), x)
  {
    if x in s.retired { assert RetirementOk(s, x); }
    assert RowOk(s, x);
  }

  lemma CommitKeepsTx(s: State, t: TxId, id: Uuid, u: TxId)
    requires Inv(s) && s.Active(t) && s.txs[t].phase == Ready(id) && u in s.txs
    ensures TxOk(CommittedState(s, t, id), u) && RedemptionOk(CommittedState(s, t, id), u)
  {
    assert TxOk(s, u) && RedemptionOk(s, u) && TxOk(s, t) && RowOk(s, id);
    if u != t && s.txs[u].phase.Finished? && s.txs[u].phase.outcome.Committed? && s.txs[u].job.Redeem? {
      assert RetirementOk(s, s.txs[u].phase.outcome.id);
    }
  }

  lemma CommitKeeps(s: State, t: TxId, id: Uuid)
    requires Inv(s) && s.Active(t) && s.txs[t].phase == Ready(id)
    ensures Inv(CommittedState(s, t, id))
  {
    var s' := CommittedState(s, t, id);
    forall x | x in s'.rows ensures RowOk(s', x) { CommitKeepsRow(s, t, id, x); }
    forall x | x in s'.retired ensures RetirementOk(s', x) { CommitKeepsRetirement(s, t, id, x); }
    forall u | u in s'.txs ensures TxOk(s', u) && RedemptionOk(s', u) { CommitKeepsTx(s, t, id, u); }
    forall a, b | a in s'.rows && b in s'.rows ensures Exclusive(s', a, b) { CommitKeepsExclusive(s, t, id, a, b); }
  }

  lemma IssueStepKeeps(s: State, t: TxId, r: InsertRequest, a: Action, s': State)
    requires Inv(s) && s.Active(t) && s.txs[t].job == Issue(r)
    requires IssueStep(s, t, r, a, s')
    ensures Inv(s')
  {
    assert TxOk(s, t);
    var phase := s.txs[t].phase;
    match a {
      case StartDiscard => MovedKeeps(s, t, s'.txs[t].phase);
      case TouchRow(id) =>
        var moved := Moved(s, t, Discarding(phase.todo - {id}));
        MovedKeeps(s, t, Discarding(phase.todo - {id}));
        assert RowOk(s, id);
        if DiscardHits(s.rows[id].committed.value, r, s.txs[t].clock) {
          DraftedKeeps(moved, t, id, Discarded(s.rows[id].committed.value, r, s.txs[t].clock));
        }
      case EndDiscard => MovedKeeps(s, t, s'.txs[t].phase);
      case Check =>
        if s' == Moved(s, t, Inserting) { MovedKeeps(s, t, Inserting); }
        else { RolledBackKeeps(s, t, Refused(CodeExists)); }
      case Insert =>
        if exists id :: id in s.rows && InTheWay(s.rows[id], t, r.usage, r.target) {
          RolledBackKeeps(s, t, Refused(CodeExists));
        } else {
          InsertKeeps(s, t, r, s');
        }
    }
  }

  lemma RedeemStepKeeps(matches: Matcher, s: State, t: TxId, job: Job, a: Action, s': State)
    requires Inv(s) && s.Active(t) && s.txs[t].job == job && job.Redeem?
    requires RedeemStep(matches, s, t, job, a, s')
    ensures Inv(s')
  {
    assert TxOk(s, t);
    var phase := s.txs[t].phase;
    if s'.txs[t].phase.Finished? {
      RolledBackKeeps(s, t, s'.txs[t].phase.outcome);
    } else if a.LockDelete? {
      var version := s.rows[phase.id].committed.value.Tombstone(phase.now, Consumed);
      LockDeleteKeeps(s, t, phase.id, version);
    } else {
      assert a.Select? ==> RowOk(s, a.found.value);
      MovedKeeps(s, t, s'.txs[t].phase);
    }
  }

  lemma LockDeleteKeeps(s: State, t: TxId, id: Uuid, version: ShortCode)
    requires Inv(s) && s.Active(t) && s.txs[t].job.Redeem? && s.txs[t].phase.Locking?
    requires OfPair(s, id, s.txs[t].job) && s.rows[id].IsLive() && !s.rows[id].LockedFor(t)
    requires version == s.rows[id].committed.value.(deletion := version.deletion)
    requires version.deletion.Some? && version.deletion.value.comment == Consumed
    ensures Inv(Moved(Drafted(s, t, id, version), t, Ready(id)))
  {
    var s' := Moved(Drafted(s, t, id, version), t, Ready(id));
    assert RowOk(s, id);
    forall x | x in s'.rows ensures RowOk(s', x) {
      assert RowOk(s, x);
      if x != id && s'.rows[x].draft.Some? { assert DraftOk(s, x) && DraftOk(s', x); }
    }
    forall u | u in s'.txs ensures TxOk(s', u) && RedemptionOk(s', u) { assert TxOk(s, u) && RedemptionOk(s, u); }
    forall a, b | a in s'.rows && b in s'.rows ensures Exclusive(s', a, b) {
      DeletionKeepsExclusive(s, t, id, version, s', a, b);
    }
    forall x | x in s'.retired ensures RetirementOk(s', x) { assert RetirementOk(s, x); }
  }

  lemma StepKeeps(matches: Matcher, s: State, t: TxId, a: Action, s': State)
    requires Inv(s) && Step(matches, s, t, a, s')
    ensures Inv(s')
  {
    if a.Begin? {
      BeginKeeps(s, t, a.job, a.clock);
    } else if a.Cancel? {
      RolledBackKeeps(s, t, Cancelled);
    } else if a.Commit? {
      CommitKeeps(s, t, s.txs[t].phase.id);
    } else if s.txs[t].job.Issue? {
      IssueStepKeeps(s, t, s.txs[t].job.r, a, s');
    } else {
      RedeemStepKeeps(matches, s, t, s.txs[t].job, a, s');
    }
  }

  lemma {:induction false} RunKeeps(matches: Matcher, states: seq<State>, moves: seq<Move>, i: nat)
    requires IsRun(matches, states, moves) && i < |states|
    ensures Inv(states[i])
  {
    if i == 0 {
      QuietKeeps(states[0]);
    } else {
      RunKeeps(matches, states, moves, i - 1);
      assert StepAt(matches, states, moves, i - 1);
      StepKeeps(matches, states[i - 1], moves[i - 1].t, moves[i - 1].action, states[i]);
    }
  }

  /** In no committed state of any run are two rows of one pair live. */
  lemma NeverTwoLive(matches: Matcher, states: seq<State>, moves: seq<Move>, i: nat)
    requires IsRun(matches, states, moves) && i < |states|
    ensures Sound(CommittedRows(states[i]))
  {
    RunKeeps(matches, states, moves, i);
    var t := CommittedRows(states[i]);
    forall a, b | a in t && b in t && t[a].Live() && t[b].Live() && t[a].SamePair(t[b]) ensures a == b {
      assert Exclusive(states[i], a, b);
    }
    forall id | id in t ensures t[id].id == id { assert RowOk(states[i], id); }
  }

  // ---------------------------------------------------------------------------------------
  // Life of a code: what one step, and then a whole run, can do to a committed row.

  /** The committed row is still there, unchanged unless it was or is being retired for good. */
  ghost predicate Ages(s: State, s': State, id: Uuid)
    requires id in s.rows && s.rows[id].committed.Some?
  {
    && id in s'.rows && s'.rows[id].committed.Some?
    && s'.rows[id].committed.value == s.rows[id].committed.value.(deletion := s'.rows[id].committed.value.deletion)
    && (s.rows[id].IsLive() && !s'.rows[id].IsLive() ==> id in s'.retired && id !in s.retired)
    && (!s.rows[id].IsLive() ==> !s'.rows[id].IsLive())
    && (s.rows[id].IsLive() && s'.rows[id].IsLive() ==> s'.rows[id].committed == s.rows[id].committed)
  }

  ghost predicate Follows(s: State, s': State) {
    && (forall id :: id in s.rows && s.rows[id].committed.Some? ==> Ages(s, s', id))
    && (forall id :: id in s.retired ==> id in s'.retired && s'.retired[id] == s.retired[id])
    && (forall t :: t in s.txs ==> t in s'.txs && s'.txs[t].job == s.txs[t].job
                                   && (s.txs[t].phase.Finished? ==> s'.txs[t] == s.txs[t]))
  }

  ghost predicate SameCommitted(s: State, s': State) {
    && s'.retired == s.retired
    && (forall id :: id in s.rows && s.rows[id].committed.Some? ==>
          id in s'.rows && s'.rows[id].committed == s.rows[id].committed)
    && (forall id :: id in s'.rows && s'.rows[id].committed.Some? ==> id in s.rows && s.rows[id].committed.Some?)
  }

  /** Only a commit shows outside its transaction. */
  lemma OnlyCommitShows(matches: Matcher, s: State, t: TxId, a: Action, s': State)
    requires Step(matches, s, t, a, s') && !a.Commit?
    ensures SameCommitted(s, s') && CommittedRows(s') == CommittedRows(s)
    ensures t in s'.txs && s'.txs == s.txs[t := s'.txs[t]]
    ensures t in s.txs ==> s.Active(t) && s'.txs[t].job == s.txs[t].job && s'.txs[t].clock == s.txs[t].clock
  {
    if a.Cancel? {
      RollbackHidesAll(s, t, Cancelled);
    } else if !a.Begin? {
      if s.txs[t].job.Issue? { IssueShowsNothing(s, t, s.txs[t].job.r, a, s'); }
      else { RedeemShowsNothing(matches, s, t, s.txs[t].job, a, s'); }
    }
    SameCommittedRows(s, s');
  }

  lemma IssueShowsNothing(s: State, t: TxId, r: InsertRequest, a: Action, s': State)
    requires s.Active(t) && IssueStep(s, t, r, a, s')
    ensures SameCommitted(s, s') && t in s'.txs && s'.txs == s.txs[t := s'.txs[t]]
    ensures s'.txs[t].job == s.txs[t].job && s'.txs[t].clock == s.txs[t].clock
  {
    if s'.txs[t].phase.Finished? { RollbackHidesAll(s, t, s'.txs[t].phase.outcome); }
  }

  lemma RedeemShowsNothing(matches: Matcher, s: State, t: TxId, job: Job, a: Action, s': State)
    requires s.Active(t) && job.Redeem? && RedeemStep(matches, s, t, job, a, s')
    ensures SameCommitted(s, s') && t in s'.txs && s'.txs == s.txs[t := s'.txs[t]]
    ensures s'.txs[t].job == s.txs[t].job && s'.txs[t].clock == s.txs[t].clock
  {
    if s'.txs[t].phase.Finished? { RollbackHidesAll(s, t, s'.txs[t].phase.outcome); }
  }

  lemma SameCommittedRows(s: State, s': State)
    requires SameCommitted(s, s')
    ensures CommittedRows(s') == CommittedRows(s)
  {
    assert CommittedRows(s').Keys == CommittedRows(s).Keys;
  }

  lemma RollbackHidesAll(s: State, t: TxId, outcome: Outcome)
    requires t in s.txs
    ensures SameCommitted(s, RolledBack(s, t, outcome))
  {
  }

  lemma CommitFollows(s: State, t: TxId, id: Uuid)
    requires Inv(s) && s.Active(t) && s.txs[t].phase == Ready(id)
    ensures Follows(s, CommittedState(s, t, id))
  {
    var s' := CommittedState(s, t, id);
    forall x | x in s.rows && s.rows[x].committed.Some? ensures Ages(s, s', x) {
      assert RowOk(s, x);
      if x in s.retired { assert RetirementOk(s, x); }
    }
    forall x | x in s.retired ensures s'.retired[x] == s.retired[x] {
      assert RetirementOk(s, x);
    }
  }

  lemma StepFollows(matches: Matcher, s: State, t: TxId, a: Action, s': State)
    requires Inv(s) && Step(matches, s, t, a, s')
    ensures Follows(s, s')
  {
    if a.Commit? {
      CommitFollows(s, t, s.txs[t].phase.id);
    } else {
      OnlyCommitShows(matches, s, t, a, s');
    }
  }

  lemma RunStep(matches: Matcher, states: seq<State>, moves: seq<Move>, i: nat)
    requires IsRun(matches, states, moves) && i < |moves|
    ensures Inv(states[i]) && Inv(states[i + 1])
    ensures Step(matches, states[i], moves[i].t, moves[i].action, states[i + 1])
    ensures Follows(states[i], states[i + 1])
  {
    RunKeeps(matches, states, moves, i);
    RunKeeps(matches, states, moves, i + 1);
    assert StepAt(matches, states, moves, i);
    StepFollows(matches, states[i], moves[i].t, moves[i].action, states[i + 1]);
  }

  lemma FollowsItself(s: State)
    ensures Follows(s, s)
  {
  }

  lemma {:induction false} RunFollows(matches: Matcher, states: seq<State>, moves: seq<Move>, i: nat, j: nat)
    requires IsRun(matches, states, moves) && i <= j < |states|
    ensures Follows(states[i], states[j])
    decreases j
  {
    if i == j {
      FollowsItself(states[i]);
    } else {
      RunFollows(matches, states, moves, i, j - 1);
      RunStep(matches, states, moves, j - 1);
      RunKeeps(matches, states, moves, i);
      FollowsIsTransitive(states[i], states[j - 1], states[j]);
    }
  }

  lemma FollowsIsTransitive(a: State, b: State, c: State)
    requires Inv(a) && Inv(b) && Inv(c) && Follows(a, b) && Follows(b, c)
    ensures Follows(a, c)
  {
    forall id | id in a.rows && a.rows[id].committed.Some? ensures Ages(a, c, id) {
      assert Ages(a, b, id) && Ages(b, c, id);
      if id in a.retired { assert RetirementOk(a, id); }
    }
  }

  predicate HasCommitted(s: State, t: TxId) {
    t in s.txs && s.txs[t].phase.Finished? && s.txs[t].phase.outcome.Committed?
  }

  predicate RedeemedBy(s: State, t: TxId, id: Uuid) {
    HasCommitted(s, t) && s.txs[t].job.Redeem? && s.txs[t].phase.outcome.id == id
  }

  /** A code once committed stays in the table with nothing but its deletion changed. It leaves the
      live state at most once and never returns, and leaving it is what the history records: by
      which committed transaction, and for the one reason that transaction can have. The redemptions
      that committed and the rows retired as consumed are the same set, one for one. */
  lemma SingleUse(matches: Matcher, states: seq<State>, moves: seq<Move>, i: nat, j: nat, id: Uuid)
    requires IsRun(matches, states, moves) && i <= j < |states|
    ensures id in CommittedRows(states[i]) ==>
              var was := CommittedRows(states[i])[id];
              && id in CommittedRows(states[j])
              && var now := CommittedRows(states[j])[id];
                 && now == was.(deletion := now.deletion)
                 && (!was.Live() ==> !now.Live())
                 && (was.Live() && !now.Live() ==> id in states[j].retired && id !in states[i].retired)
    ensures id in states[i].retired ==> id in states[j].retired && states[j].retired[id] == states[i].retired[id]
    ensures id in states[i].retired ==> id in CommittedRows(states[j]) && !CommittedRows(states[j])[id].Live()
    ensures id in states[j].retired ==>
              var Retirement(actor, comment) := states[j].retired[id];
              HasCommitted(states[j], actor) && comment == ReasonOf(states[j].txs[actor].job)
    ensures forall t :: RedeemedBy(states[j], t, id)
                        <==> id in states[j].retired && states[j].retired[id] == Retirement(t, Consumed)
  {
    RunFollows(matches, states, moves, i, j);
    RunKeeps(matches, states, moves, j);
    if id in CommittedRows(states[i]) { assert Ages(states[i], states[j], id); }
    if id in states[j].retired { assert RetirementOk(states[j], id); }
    forall t | RedeemedBy(states[j], t, id)
      ensures id in states[j].retired && states[j].retired[id] == Retirement(t, Consumed)
    {
      assert RedemptionOk(states[j], t);
    }
  }

  lemma AtMostOneRedemption(matches: Matcher, states: seq<State>, moves: seq<Move>, i: nat, id: Uuid, t: TxId, u: TxId)
    requires IsRun(matches, states, moves) && i < |states|
    requires RedeemedBy(states[i], t, id) && RedeemedBy(states[i], u, id)
    ensures t == u
  {
    SingleUse(matches, states, moves, i, i, id);
  }

  /** A redeemer that has selected this code, and whatever became of it. */
  predicate Aims(s: State, t: TxId, id: Uuid) {
    && t in s.txs && s.txs[t].job.Redeem?
    && match s.txs[t].phase
       case Judging(found) => found.id == id
       case Deleting(x) => x == id
       case Locking(x, _) => x == id
       case Ready(x) => x == id
       case Finished(Committed(x)) => x == id
       case Finished(_) => true
       case _ => false
  }

  lemma StepAims(matches: Matcher, s: State, u: TxId, a: Action, s': State, t: TxId, id: Uuid)
    requires Step(matches, s, u, a, s') && Aims(s, t, id)
    ensures Aims(s', t, id)
  {
    if !a.Commit? { OnlyCommitShows(matches, s, u, a, s'); }
  }

  lemma {:induction false} RunAims(
    matches: Matcher, states: seq<State>, moves: seq<Move>, i: nat, j: nat, t: TxId, id: Uuid)
    requires IsRun(matches, states, moves) && i <= j < |states| && Aims(states[i], t, id)
    ensures Aims(states[j], t, id)
    decreases j
  {
    if i < j {
      RunAims(matches, states, moves, i, j - 1, t, id);
      RunStep(matches, states, moves, j - 1);
      StepAims(matches, states[j - 1], moves[j - 1].t, moves[j - 1].action, states[j], t, id);
    }
  }

  /** A redeemer whose selected code somebody else retires, between its select and its delete or at
      any other moment, never commits; and a retired code is redeemed by nobody else. */
  lemma RetiredCodeIsNotRedeemed(
    matches: Matcher, states: seq<State>, moves: seq<Move>, i: nat, j: nat, id: Uuid, t: TxId)
    requires IsRun(matches, states, moves) && i <= j < |states|
    requires id in states[i].retired && states[i].retired[id].actor != t
    ensures !RedeemedBy(states[j], t, id)
    ensures Aims(states[i], t, id) ==> !HasCommitted(states[j], t)
  {
    SingleUse(matches, states, moves, i, j, id);
    if Aims(states[i], t, id) { RunAims(matches, states, moves, i, j, t, id); }
  }

  /** Whatever fails leaves no trace: it holds no lock and no draft and retired nothing, and every
      code live earlier in the run is either still the same live row, with its data and expiry, or
      was retired by a transaction that committed. */
  lemma FailureDestroysNothing(
    matches: Matcher, states: seq<State>, moves: seq<Move>, i: nat, j: nat, id: Uuid, failed: TxId)
    requires IsRun(matches, states, moves) && i <= j < |states|
    requires failed in states[j].txs && states[j].txs[failed].phase.Finished? && !HasCommitted(states[j], failed)
    requires id in CommittedRows(states[i]) && CommittedRows(states[i])[id].Live()
    ensures forall x :: x in states[j].rows ==> !states[j].rows[x].OwnedBy(failed)
    ensures forall x :: x in states[j].retired ==> states[j].retired[x].actor != failed
    ensures id in CommittedRows(states[j])
    ensures if CommittedRows(states[j])[id].Live() then CommittedRows(states[j])[id] == CommittedRows(states[i])[id]
            else id in states[j].retired && HasCommitted(states[j], states[j].retired[id].actor)
  {
    RunFollows(matches, states, moves, i, j);
    RunKeeps(matches, states, moves, i);
    RunKeeps(matches, states, moves, j);
    assert Ages(states[i], states[j], id);
    forall x | x in states[j].rows ensures !states[j].rows[x].OwnedBy(failed) { assert RowOk(states[j], x); }
    forall x | x in states[j].retired ensures HasCommitted(states[j], states[j].retired[x].actor) {
      assert RetirementOk(states[j], x);
    }
  }

  // ---------------------------------------------------------------------------------------
  // Racing overrides.

  predicate Issues(s: State, t: TxId, usage: Usage, target: string) {
    t in s.txs && s.txs[t].job.Issue? && s.txs[t].job.Concerns(usage, target)
  }

  ghost predicate OnlyOverrides(s: State, usage: Usage, target: string) {
    forall t :: Issues(s, t, usage, target) ==> s.txs[t].job.r.overriding
  }

  ghost predicate NoWinner(s: State, usage: Usage, target: string) {
    forall t :: Issues(s, t, usage, target) ==> !HasCommitted(s, t)
  }

  predicate LiveFor(s: State, id: Uuid, usage: Usage, target: string) {
    id in s.rows && s.rows[id].IsLive() && s.rows[id].committed.value.For(usage, target)
  }

  /** While nobody has won, a racer has dealt with every live row of the pair or is still going to. */
  ghost predicate Clearing(s: State, t: TxId, usage: Usage, target: string)
    requires Issues(s, t, usage, target)
  {
    var phase := s.txs[t].phase;
    && !phase.Checking? && (phase.Finished? ==> phase.outcome.Cancelled?)
    && forall id :: LiveFor(s, id, usage, target) ==>
         phase.Begun? || phase.Finished? || (phase.Discarding? && id in phase.todo) || s.rows[id].OwnedBy(t)
  }

  lemma NoNewLiveRow(matches: Matcher, s: State, t: TxId, a: Action, s': State, usage: Usage, target: string, id: Uuid)
    requires Inv(s) && Inv(s') && Step(matches, s, t, a, s') && NoWinner(s', usage, target)
    requires LiveFor(s', id, usage, target)
    ensures LiveFor(s, id, usage, target)
  {
    if a.Commit? {
      assert RowOk(s, id);
      if s.rows[id].OwnedBy(t) {
        assert DraftOk(s, id);
        assert s.rows[id].committed.None? ==> Issues(s', t, usage, target) && HasCommitted(s', t);
      }
    } else {
      OnlyCommitShows(matches, s, t, a, s');
    }
  }

  /** No step takes a lock away from another transaction. */
  lemma LocksStay(matches: Matcher, s: State, t: TxId, a: Action, s': State, u: TxId, id: Uuid)
    requires Step(matches, s, t, a, s') && u != t
    requires id in s.rows && s.rows[id].OwnedBy(u)
    ensures id in s'.rows && s'.rows[id].OwnedBy(u)
  {
  }

  lemma OwnStepClears(matches: Matcher, s: State, t: TxId, a: Action, s': State, usage: Usage, target: string)
    requires Inv(s) && s.Active(t) && Issues(s, t, usage, target) && IssueStep(s, t, s.txs[t].job.r, a, s')
    requires s.txs[t].job.r.overriding && Clearing(s, t, usage, target)
    requires Issues(s', t, usage, target)
    requires forall id :: LiveFor(s', id, usage, target) ==> LiveFor(s, id, usage, target)
    ensures Clearing(s', t, usage, target)
  {
    var r := s.txs[t].job.r;
    if a.Insert? {
      forall id | id in s.rows ensures !InTheWay(s.rows[id], t, r.usage, r.target) {
        assert LiveFor(s, id, usage, target) ==> s.rows[id].OwnedBy(t);
      }
    } else if a.StartDiscard? {
      forall id | LiveFor(s, id, usage, target) ensures id in s'.txs[t].phase.todo {
        assert OverrideHits(s.rows[id].committed.value, usage, target, s.txs[t].clock);
      }
    } else if a.TouchRow? {
      forall id | LiveFor(s', id, usage, target) ensures id in s'.txs[t].phase.todo || s'.rows[id].OwnedBy(t) {
        assert LiveFor(s, id, usage, target);
        assert id == a.id ==> DiscardHits(s.rows[id].committed.value, r, s.txs[t].clock);
      }
    }
  }

  lemma OtherStaysClearing(
    matches: Matcher, s: State, t: TxId, a: Action, s': State, usage: Usage, target: string, u: TxId)
    requires Step(matches, s, t, a, s') && u != t
    requires Issues(s', u, usage, target) && (Issues(s, u, usage, target) ==> Clearing(s, u, usage, target))
    requires forall id :: LiveFor(s', id, usage, target) ==> LiveFor(s, id, usage, target)
    ensures Clearing(s', u, usage, target)
  {
    assert s'.txs == s.txs[t := s'.txs[t]] by {
      if !a.Commit? { OnlyCommitShows(matches, s, t, a, s'); }
    }
    forall id | LiveFor(s', id, usage, target) && s.rows[id].OwnedBy(u) ensures s'.rows[id].OwnedBy(u) {
      LocksStay(matches, s, t, a, s', u, id);
    }
  }

  lemma ClearingKeeps(matches: Matcher, s: State, t: TxId, a: Action, s': State, usage: Usage, target: string, u: TxId)
    requires Inv(s) && Inv(s') && Step(matches, s, t, a, s')
    requires OnlyOverrides(s', usage, target) && NoWinner(s', usage, target)
    requires Issues(s, u, usage, target) ==> Clearing(s, u, usage, target)
    requires Issues(s', u, usage, target)
    ensures Clearing(s', u, usage, target)
  {
    forall id | LiveFor(s', id, usage, target) ensures LiveFor(s, id, usage, target) {
      NoNewLiveRow(matches, s, t, a, s', usage, target, id);
    }
    if u != t {
      OtherStaysClearing(matches, s, t, a, s', usage, target, u);
    } else if a.Begin? || a.Cancel? {
    } else if a.Commit? {
      assert HasCommitted(s', t);
    } else {
      OnlyCommitShows(matches, s, t, a, s');
      OwnStepClears(matches, s, t, a, s', usage, target);
    }
  }

  lemma RaceBefore(matches: Matcher, states: seq<State>, moves: seq<Move>, i: nat, usage: Usage, target: string)
    requires IsRun(matches, states, moves) && i < |moves|
    requires OnlyOverrides(states[i + 1], usage, target) && NoWinner(states[i + 1], usage, target)
    ensures OnlyOverrides(states[i], usage, target) && NoWinner(states[i], usage, target)
  {
    RunStep(matches, states, moves, i);
    assert forall v :: Issues(states[i], v, usage, target) ==> Issues(states[i + 1], v, usage, target);
  }

  lemma {:induction false} RacersKeepClearing(
    matches: Matcher, states: seq<State>, moves: seq<Move>, i: nat, usage: Usage, target: string, u: TxId)
    requires IsRun(matches, states, moves) && i < |states|
    requires OnlyOverrides(states[i], usage, target) && NoWinner(states[i], usage, target)
    requires Issues(states[i], u, usage, target)
    ensures Clearing(states[i], u, usage, target)
    decreases i
  {
    if i > 0 {
      RaceBefore(matches, states, moves, i - 1, usage, target);
      if Issues(states[i - 1], u, usage, target) {
        RacersKeepClearing(matches, states, moves, i - 1, usage, target, u);
      }
      RunStep(matches, states, moves, i - 1);
      ClearingKeeps(matches, states[i - 1], moves[i - 1].t, moves[i - 1].action, states[i], usage, target, u);
    }
  }

  /** Overrides race for a pair, redemptions may run beside them: nobody is refused unless another
      racer has committed, so the first racer to finish commits unless it is cut off. A refusal is
      always the ordinary already-exists. */
  lemma LoserHasWinner(
    matches: Matcher, states: seq<State>, moves: seq<Move>, i: nat, usage: Usage, target: string, loser: TxId)
    requires IsRun(matches, states, moves) && i < |states|
    requires OnlyOverrides(states[i], usage, target)
    requires Issues(states[i], loser, usage, target)
    requires states[i].txs[loser].phase.Finished? && states[i].txs[loser].phase.outcome.Refused?
    ensures exists winner :: Issues(states[i], winner, usage, target) && HasCommitted(states[i], winner)
    ensures states[i].txs[loser].phase.outcome.why == CodeExists
  {
    RunKeeps(matches, states, moves, i);
    assert TxOk(states[i], loser);
    if NoWinner(states[i], usage, target) {
      RacersKeepClearing(matches, states, moves, i, usage, target, loser);
    }
  }

  ghost predicate OnlyIssues(s: State, usage: Usage, target: string) {
    forall t :: t in s.txs && s.txs[t].job.Concerns(usage, target) ==> s.txs[t].job.Issue?
  }

  lemma LiveRowIsReplaced(
    matches: Matcher, s: State, t: TxId, a: Action, s': State, usage: Usage, target: string, id: Uuid)
    returns (live: Uuid)
    requires Inv(s) && Step(matches, s, t, a, s') && OnlyIssues(s, usage, target)
    requires LiveFor(s, id, usage, target)
    ensures LiveFor(s', live, usage, target)
  {
    live := id;
    assert RowOk(s, id);
    if a.Commit? {
      if s.rows[id].OwnedBy(t) {
        assert DraftOk(s, id) && TxOk(s, t);
        live := s.txs[t].phase.id;
        assert RowOk(s, live) && DraftOk(s, live);
      }
    } else {
      OnlyCommitShows(matches, s, t, a, s');
    }
  }

  lemma LiveSurvivesStep(
    matches: Matcher, states: seq<State>, moves: seq<Move>, i: nat, usage: Usage, target: string, id: Uuid)
    returns (live: Uuid)
    requires IsRun(matches, states, moves) && i < |moves|
    requires OnlyIssues(states[i + 1], usage, target) && LiveFor(states[i], id, usage, target)
    ensures LiveFor(states[i + 1], live, usage, target)
  {
    RunStep(matches, states, moves, i);
    live := LiveRowIsReplaced(matches, states[i], moves[i].t, moves[i].action, states[i + 1], usage, target, id);
  }

  lemma OnlyIssuesBefore(matches: Matcher, states: seq<State>, moves: seq<Move>, i: nat, usage: Usage, target: string)
    requires IsRun(matches, states, moves) && i < |moves|
    requires OnlyIssues(states[i + 1], usage, target)
    ensures OnlyIssues(states[i], usage, target)
  {
    RunStep(matches, states, moves, i);
  }

  lemma {:induction false} SomeLive(
    matches: Matcher, states: seq<State>, moves: seq<Move>, i: nat, usage: Usage, target: string, id: Uuid)
    returns (live: Uuid)
    requires IsRun(matches, states, moves) && i < |states|
    requires OnlyIssues(states[i], usage, target)
    requires LiveFor(states[0], id, usage, target)
    ensures LiveFor(states[i], live, usage, target)
    decreases i
  {
    if i == 0 {
      live := id;
    } else {
      OnlyIssuesBefore(matches, states, moves, i - 1, usage, target);
      live := SomeLive(matches, states, moves, i - 1, usage, target, id);
      live := LiveSurvivesStep(matches, states, moves, i - 1, usage, target, live);
    }
  }

  /** Issued over a pair that has a live code, by any number of transactions and while nobody
      redeems it, the pair has exactly one live code in every committed state. */
  lemma ExactlyOneLive(matches: Matcher, states: seq<State>, moves: seq<Move>, i: nat, usage: Usage, target: string)
    requires IsRun(matches, states, moves) && i < |states|
    requires OnlyIssues(states[i], usage, target)
    requires exists id :: LiveFor(states[0], id, usage, target)
    ensures exists id :: LiveFor(states[i], id, usage, target)
                         && forall x :: LiveFor(states[i], x, usage, target) ==> x == id
  {
    var first :| LiveFor(states[0], first, usage, target);
    var live := SomeLive(matches, states, moves, i, usage, target, first);
    RunKeeps(matches, states, moves, i);
    forall x | LiveFor(states[i], x, usage, target) ensures x == live {
      assert Exclusive(states[i], x, live);
    }
  }
}
