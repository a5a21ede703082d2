/** A transaction that runs alone: the step system then does what the one-statement-at-a-time
    functions of the table say, whatever the order in which its rows are touched. */
module ShortCodeSolo {
  import opened Wrappers
  import opened Claims
  import opened ShortCodes
  import opened ShortCodeRaces

  predicate IssueJob(s: State, t: TxId, r: InsertRequest, clock: Time) {
    t in s.txs && s.txs[t].job == Issue(r) && s.txs[t].clock == clock
  }

  /** The rows are those of `before`; the discarded ones among `done` carry their tombstone. */
  ghost predicate Touched(s: State, t: TxId, r: InsertRequest, clock: Time, before: Table, pending: set<Uuid>) {
    && s.rows.Keys == before.Keys
    && forall id :: id in before ==>
         && s.rows[id].committed == Some(before[id])
         && s.rows[id].draft == if DiscardHits(before[id], r, clock) && id !in pending
                                then Some(Draft(t, Discarded(before[id], r, clock))) else None
  }

  ghost predicate Settled(s: State, after: Table) {
    && s.rows.Keys == after.Keys
    && forall id :: id in after ==> s.rows[id] == Row(Some(after[id]), None)
  }

  ghost predicate AboutToCommit(s: State, t: TxId, r: InsertRequest, clock: Time, before: Table) {
    && r.id !in before && r.id in s.rows
    && Inserted(before, r, clock) == Ok(Discard(before, r, clock)[r.id := NewRow(r)])
    && s.rows[r.id] == Row(None, Some(Draft(t, NewRow(r))))
    && Touched(s.(rows := s.rows - {r.id}), t, r, clock, before, {})
  }

  ghost predicate SoloIssue(s: State, t: TxId, r: InsertRequest, clock: Time, before: Table) {
    && IssueJob(s, t, r, clock)
    && match s.txs[t].phase
       case Begun => Settled(s, before)
       case Discarding(todo) => Touched(s, t, r, clock, before, todo)
       case Checking => !r.overriding && Touched(s, t, r, clock, before, {})
       case Inserting =>
         Touched(s, t, r, clock, before, {})
         && (r.overriding || |Conflicts(Discard(before, r, clock), r.usage, r.target, clock)| != 1)
       case Ready(id) => id == r.id && AboutToCommit(s, t, r, clock, before)
       case Finished(Committed(id)) =>
         id == r.id && Inserted(before, r, clock).Ok? && Settled(s, Inserted(before, r, clock).value)
       case Finished(Refused(_)) => Inserted(before, r, clock).Err? && Settled(s, before)
       case Finished(Cancelled) => Settled(s, before)
       case _ => false
  }

  lemma ViewIsDiscarded(s: State, t: TxId, r: InsertRequest, clock: Time, before: Table)
    requires Touched(s, t, r, clock, before, {})
    ensures View(s, t) == Discard(before, r, clock)
  {
    assert View(s, t).Keys == Discard(before, r, clock).Keys;
  }

  lemma RollbackRestores(
    s: State, t: TxId, r: InsertRequest, clock: Time, before: Table, pending: set<Uuid>, outcome: Outcome)
    requires t in s.txs && Touched(s, t, r, clock, before, pending)
    ensures Settled(RolledBack(s, t, outcome), before)
  {
  }

  lemma CommitSettles(s: State, t: TxId, r: InsertRequest, clock: Time, before: Table)
    requires t in s.txs && AboutToCommit(s, t, r, clock, before)
    ensures Settled(CommittedState(s, t, r.id), Inserted(before, r, clock).value)
    ensures Settled(RolledBack(s, t, Cancelled), before)
  {
    var s' := CommittedState(s, t, r.id);
    var after := Inserted(before, r, clock).value;
    var without := s.(rows := s.rows - {r.id});
    forall id | id in after ensures s'.rows[id] == Row(Some(after[id]), None) {
      if id != r.id { assert without.rows[id] == s.rows[id]; }
    }
    forall id | id in before ensures RolledBack(s, t, Cancelled).rows[id] == Row(Some(before[id]), None) {
      assert without.rows[id] == s.rows[id];
    }
  }

  /** The insert's own discard leaves the row of its pair live. */
  predicate StillLive(c: ShortCode, r: InsertRequest, clock: Time) {
    Discarded(c, r, clock).Live() && Discarded(c, r, clock).For(r.usage, r.target)
  }

  lemma InTheWayIsLive(s: State, t: TxId, r: InsertRequest, clock: Time, before: Table)
    requires Touched(s, t, r, clock, before, {})
    ensures (exists id :: id in s.rows && InTheWay(s.rows[id], t, r.usage, r.target))
            <==> (exists id :: id in before && StillLive(before[id], r, clock))
  {
    forall id | id in before ensures
      InTheWay(s.rows[id], t, r.usage, r.target)
      <==> StillLive(before[id], r, clock)
    {
    }
  }

  lemma InsertVerdict(r: InsertRequest, clock: Time, before: Table)
    requires r.id !in before
    requires r.overriding || |Conflicts(Discard(before, r, clock), r.usage, r.target, clock)| != 1
    ensures if exists id :: id in before && StillLive(before[id], r, clock)
            then Inserted(before, r, clock) == Err(AlreadyExists)
            else Inserted(before, r, clock) == Ok(Discard(before, r, clock)[r.id := NewRow(r)])
  {
    var cleared := Discard(before, r, clock);
    if id :| id in before && StillLive(before[id], r, clock) {
      assert cleared[id].Live();
    }
  }

  lemma SoloInsert(s: State, t: TxId, r: InsertRequest, clock: Time, before: Table, s': State)
    requires IssueJob(s, t, r, clock) && Touched(s, t, r, clock, before, {})
    requires r.overriding || |Conflicts(Discard(before, r, clock), r.usage, r.target, clock)| != 1
    requires IssueStep(s, t, r, Insert, s')
    ensures SoloIssue(s', t, r, clock, before)
  {
    InTheWayIsLive(s, t, r, clock, before);
    InsertVerdict(r, clock, before);
    if exists id :: id in s.rows && InTheWay(s.rows[id], t, r.usage, r.target) {
      RollbackRestores(s, t, r, clock, before, {}, Refused(CodeExists));
    } else {
      InsertedRowWaits(s, t, r, clock, before, s');
    }
  }

  lemma InsertedRowWaits(s: State, t: TxId, r: InsertRequest, clock: Time, before: Table, s': State)
    requires Touched(s, t, r, clock, before, {}) && r.id !in before
    requires Inserted(before, r, clock) == Ok(Discard(before, r, clock)[r.id := NewRow(r)])
    requires s'.rows == s.rows[r.id := Row(None, Some(Draft(t, NewRow(r))))]
    ensures AboutToCommit(s', t, r, clock, before)
  {
    assert s'.rows - {r.id} == s.rows;
  }

  lemma SoloDiscard(s: State, t: TxId, r: InsertRequest, clock: Time, before: Table, a: Action, s': State)
    requires SoloIssue(s, t, r, clock, before) && IssueStep(s, t, r, a, s')
    requires a.StartDiscard? || a.TouchRow? || a.EndDiscard?
    ensures SoloIssue(s', t, r, clock, before)
  {
  }

  lemma SoloCheck(s: State, t: TxId, r: InsertRequest, clock: Time, before: Table, s': State)
    requires SoloIssue(s, t, r, clock, before) && IssueStep(s, t, r, Check, s')
    ensures SoloIssue(s', t, r, clock, before)
  {
    ViewIsDiscarded(s, t, r, clock, before);
    RollbackRestores(s, t, r, clock, before, {}, Refused(CodeExists));
  }

  lemma SoloEnd(s: State, t: TxId, r: InsertRequest, clock: Time, before: Table)
    requires SoloIssue(s, t, r, clock, before) && s.Active(t)
    ensures SoloIssue(RolledBack(s, t, Cancelled), t, r, clock, before)
    ensures s.txs[t].phase.Ready? ==> SoloIssue(CommittedState(s, t, s.txs[t].phase.id), t, r, clock, before)
  {
    var phase := s.txs[t].phase;
    if phase.Ready? {
      CommitSettles(s, t, r, clock, before);
    } else if !phase.Begun? {
      RollbackRestores(s, t, r, clock, before, if phase.Discarding? then phase.todo else {}, Cancelled);
    }
  }

  lemma SoloIssueStep(
    matches: Matcher, s: State, t: TxId, r: InsertRequest, clock: Time, before: Table, a: Action, s': State)
    requires SoloIssue(s, t, r, clock, before) && Step(matches, s, t, a, s')
    ensures SoloIssue(s', t, r, clock, before)
  {
    if a.Commit? || a.Cancel? {
      SoloEnd(s, t, r, clock, before);
    } else if a.Insert? {
      SoloInsert(s, t, r, clock, before, s');
    } else if a.Check? {
      SoloCheck(s, t, r, clock, before, s');
    } else {
      SoloDiscard(s, t, r, clock, before, a, s');
    }
  }

  /** Alone, an insert transaction ends as the table function says: with that table committed, or
      refused and with nothing changed. */
  lemma {:induction false} SoloIssueIsInserted(
    matches: Matcher, states: seq<State>, moves: seq<Move>, t: TxId, r: InsertRequest, clock: Time, i: nat)
    requires IsRun(matches, states, moves) && 0 < i < |states|
    requires moves[0] == Move(t, Begin(Issue(r), clock)) && forall k :: 0 <= k < |moves| ==> moves[k].t == t
    ensures SoloIssue(states[i], t, r, clock, CommittedRows(states[0]))
  {
    assert StepAt(matches, states, moves, i - 1);
    if i == 1 {
      assert states[1].rows == states[0].rows;
    } else {
      SoloIssueIsInserted(matches, states, moves, t, r, clock, i - 1);
      SoloIssueStep(matches, states[i - 1], t, r, clock, CommittedRows(states[0]), moves[i - 1].action, states[i]);
    }
  }

  // ---------------------------------------------------------------------------------------
  // Redemption alone.

  ghost predicate SoloRedeem(matches: Matcher, s: State, t: TxId, job: Job, clock: Time, before: Table) {
    && job.Redeem? && t in s.txs && s.txs[t].job == job && s.txs[t].clock == clock
    && match s.txs[t].phase
       case Begun => Settled(s, before)
       case Judging(found) =>
         Settled(s, before) && found.id in before && before[found.id] == found
         && Selects(found, job.usage, job.target, clock)
       case Deleting(id) =>
         Settled(s, before) && id in before && exists m :: Accepted(matches, before, job, id, clock, m)
       case Locking(id, now) =>
         Settled(s, before) && id in before
         && exists m :: Accepted(matches, before, job, id, clock, m) && m.write == now
       case Ready(id) =>
         && id in before && id in s.rows && s.rows[id].committed == Some(before[id])
         && (exists m :: Accepted(matches, before, job, id, clock, m)
                         && s.rows[id].draft == Some(Draft(t, before[id].Tombstone(m.write, Consumed))))
         && Settled(s.(rows := s.rows[id := Row(Some(before[id]), None)]), before)
       case Finished(Committed(id)) =>
         id in before
         && exists m :: Accepted(matches, before, job, id, clock, m) && Settled(s, Spend(before, id, m.write))
       case Finished(_) => Settled(s, before)
       case _ => false
  }

  ghost predicate Accepted(matches: Matcher, before: Table, job: Job, id: Uuid, clock: Time, m: Moment)
    requires job.Redeem?
  {
    m.db == clock && id in before && Redeems(matches, before[id], job.usage, job.target, job.plain, m)
  }

  lemma SoloSelectJudge(matches: Matcher, s: State, t: TxId, job: Job, clock: Time, before: Table, a: Action, s': State)
    requires Keyed(before) && SoloRedeem(matches, s, t, job, clock, before) && RedeemStep(matches, s, t, job, a, s')
    requires a.Select? || a.Judge? || a.StartDelete?
    ensures SoloRedeem(matches, s', t, job, clock, before)
  {
    var phase := s.txs[t].phase;
    if a.Judge? && s'.txs[t].phase.Deleting? {
      assert Accepted(matches, before, job, phase.found.id, clock, Moment(clock, a.now, 0));
    } else if a.StartDelete? && s'.txs[t].phase.Locking? {
      var m :| Accepted(matches, before, job, phase.id, clock, m);
      assert Accepted(matches, before, job, phase.id, clock, Moment(clock, m.check, a.now));
    }
  }

  lemma SoloLock(matches: Matcher, s: State, t: TxId, job: Job, clock: Time, before: Table, s': State)
    requires SoloRedeem(matches, s, t, job, clock, before) && RedeemStep(matches, s, t, job, LockDelete, s')
    ensures SoloRedeem(matches, s', t, job, clock, before)
  {
    var phase := s.txs[t].phase;
    var m :| Accepted(matches, before, job, phase.id, clock, m) && m.write == phase.now;
    if s'.txs[t].phase.Ready? {
      assert s'.rows[phase.id].draft == Some(Draft(t, before[phase.id].Tombstone(m.write, Consumed)));
      assert s'.rows[phase.id := Row(Some(before[phase.id]), None)] == s.rows;
    }
  }

  lemma SoloRedeemEnd(matches: Matcher, s: State, t: TxId, job: Job, clock: Time, before: Table)
    requires SoloRedeem(matches, s, t, job, clock, before) && s.Active(t)
    ensures SoloRedeem(matches, RolledBack(s, t, Cancelled), t, job, clock, before)
    ensures s.txs[t].phase.Ready? ==>
              SoloRedeem(matches, CommittedState(s, t, s.txs[t].phase.id), t, job, clock, before)
  {
    var phase := s.txs[t].phase;
    if phase.Ready? {
      var restored := s.rows[phase.id := Row(Some(before[phase.id]), None)];
      forall id | id in before && id != phase.id ensures s.rows[id] == Row(Some(before[id]), None) {
        assert restored[id] == s.rows[id];
      }
      var m :| Accepted(matches, before, job, phase.id, clock, m)
               && s.rows[phase.id].draft == Some(Draft(t, before[phase.id].Tombstone(m.write, Consumed)));
      assert Settled(CommittedState(s, t, phase.id), Spend(before, phase.id, m.write));
    }
  }

  lemma SoloRedeemStep(matches: Matcher, s: State, t: TxId, job: Job, clock: Time, before: Table, a: Action, s': State)
    requires Keyed(before) && SoloRedeem(matches, s, t, job, clock, before) && Step(matches, s, t, a, s')
    ensures SoloRedeem(matches, s', t, job, clock, before)
  {
    if a.Commit? || a.Cancel? {
      SoloRedeemEnd(matches, s, t, job, clock, before);
    } else if a.LockDelete? {
      SoloLock(matches, s, t, job, clock, before, s');
    } else {
      SoloSelectJudge(matches, s, t, job, clock, before, a, s');
    }
  }

  /** Alone, a redemption that commits spent a row that its submission redeems, and nothing else. */
  lemma {:induction false} SoloRedeemIsSpend(
    matches: Matcher, states: seq<State>, moves: seq<Move>, t: TxId, job: Job, clock: Time, i: nat)
    requires IsRun(matches, states, moves) && 0 < i < |states| && job.Redeem?
    requires moves[0] == Move(t, Begin(job, clock)) && forall k :: 0 <= k < |moves| ==> moves[k].t == t
    ensures SoloRedeem(matches, states[i], t, job, clock, CommittedRows(states[0]))
  {
    assert StepAt(matches, states, moves, i - 1);
    if i == 1 {
      assert states[1].rows == states[0].rows;
    } else {
      SoloRedeemIsSpend(matches, states, moves, t, job, clock, i - 1);
      SoloRedeemStep(matches, states[i - 1], t, job, clock, CommittedRows(states[0]), moves[i - 1].action, states[i]);
    }
  }
}
