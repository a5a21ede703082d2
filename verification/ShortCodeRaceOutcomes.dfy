/** The answers that racing transactions give: every refusal has its cause, every redemption that goes
    through was judged rightly, and nobody waits for a transaction of another pair. */
module ShortCodeRaceOutcomes {
  import opened Wrappers
  import opened Claims
  import opened ShortCodes
  import opened ShortCodeRaces
  import opened ShortCodeRaceProofs
  import opened ShortCodeSolo

  // ---------------------------------------------------------------------------------------
  // What a redeemer knows of the row it has chosen.

  /** The row was in force at some time of the run, for the redeemer's pair and past its clock. */
  ghost predicate WasOffered(s: State, t: TxId, id: Uuid)
    requires t in s.txs && s.txs[t].job.Redeem?
  {
    && id in s.rows && s.rows[id].committed.Some?
    && (s.rows[id].IsLive() || id in s.retired)
    && s.rows[id].committed.value.usage == s.txs[t].job.usage
    && s.rows[id].committed.value.target == s.txs[t].job.target
    && s.rows[id].committed.value.expiresAt > s.txs[t].clock
  }

  ghost predicate Approved(matches: Matcher, s: State, t: TxId, id: Uuid)
    requires t in s.txs && s.txs[t].job.Redeem?
  {
    WasOffered(s, t, id) && matches(s.txs[t].job.plain, s.rows[id].committed.value.code)
  }

  ghost predicate ChoiceOk(matches: Matcher, s: State, t: TxId)
    requires t in s.txs
  {
    s.txs[t].job.Redeem? ==>
      match s.txs[t].phase
      case Judging(found) => WasOffered(s, t, found.id) && found.deletion.None? && Persists(s, found)
      case Deleting(id) => Approved(matches, s, t, id)
      case Locking(id, _) => Approved(matches, s, t, id)
      case Ready(id) => Approved(matches, s, t, id)
      case Finished(Committed(id)) => Approved(matches, s, t, id)
      case _ => true
  }

  /** The rows an insert has still to look at are committed rows of its pair, and it checks for
      conflicts only when it does not override. */
  ghost predicate TodoOk(s: State, t: TxId)
    requires t in s.txs
  {
    && (s.txs[t].job.Issue? && s.txs[t].phase.Discarding? ==>
          forall id :: id in s.txs[t].phase.todo ==> OfPair(s, id, s.txs[t].job))
    && (s.txs[t].job.Issue? && s.txs[t].phase.Checking? ==> !s.txs[t].job.r.overriding)
  }

  ghost predicate KnowsWell(matches: Matcher, s: State) {
    forall t :: t in s.txs ==> ChoiceOk(matches, s, t) && TodoOk(s, t)
  }

  lemma OfferedStays(s: State, s': State, t: TxId, id: Uuid)
    requires Follows(s, s') && t in s.txs && s.txs[t].job.Redeem? && WasOffered(s, t, id)
    requires t in s'.txs && s'.txs[t].job == s.txs[t].job && s'.txs[t].clock == s.txs[t].clock
    ensures WasOffered(s', t, id) && s'.rows[id].committed.value.code == s.rows[id].committed.value.code
  {
    assert Ages(s, s', id);
  }

  lemma PairStays(s: State, s': State, id: Uuid, job: Job)
    requires Follows(s, s') && OfPair(s, id, job)
    ensures OfPair(s', id, job)
  {
    assert Ages(s, s', id);
  }

  lemma OthersKnowWell(matches: Matcher, s: State, s': State, u: TxId)
    requires Follows(s, s') && u in s.txs && u in s'.txs && s'.txs[u] == s.txs[u]
    requires ChoiceOk(matches, s, u) && TodoOk(s, u)
    ensures ChoiceOk(matches, s', u) && TodoOk(s', u)
  {
    var Tx(job, clock, phase) := s.txs[u];
    if job.Redeem? {
      match phase {
        case Judging(found) =>
          OfferedStays(s, s', u, found.id);
          assert Ages(s, s', found.id);
        case Deleting(id) => OfferedStays(s, s', u, id);
        case Locking(id, _) => OfferedStays(s, s', u, id);
        case Ready(id) => OfferedStays(s, s', u, id);
        case Finished(Committed(id)) => OfferedStays(s, s', u, id);
        case _ =>
      }
    } else if phase.Discarding? {
      forall id | id in phase.todo ensures OfPair(s', id, job) {
        PairStays(s, s', id, job);
      }
    }
  }

  lemma IssuerKnowsWell(matches: Matcher, s: State, t: TxId, r: InsertRequest, a: Action, s': State)
    requires Follows(s, s') && s.Active(t) && s.txs[t].job == Issue(r) && IssueStep(s, t, r, a, s') && TodoOk(s, t)
    requires t in s'.txs && s'.txs[t].job == s.txs[t].job
    ensures ChoiceOk(matches, s', t) && TodoOk(s', t)
  {
    if s'.txs[t].phase.Discarding? {
      forall id | id in s'.txs[t].phase.todo ensures OfPair(s', id, s.txs[t].job) {
        PairStays(s, s', id, s.txs[t].job);
      }
    }
  }

  lemma RedeemerKnowsWell(matches: Matcher, s: State, t: TxId, a: Action, s': State)
    requires Inv(s) && Follows(s, s') && s.Active(t) && s.txs[t].job.Redeem?
    requires RedeemStep(matches, s, t, s.txs[t].job, a, s') && ChoiceOk(matches, s, t)
    requires t in s'.txs && s'.txs[t].job == s.txs[t].job && s'.txs[t].clock == s.txs[t].clock
    ensures ChoiceOk(matches, s', t)
  {
    match a
    case Select(found) =>
      if found.Some? {
        assert RowOk(s, found.value) && WasOffered(s, t, found.value);
        OfferedStays(s, s', t, found.value);
      }
    case Judge(_) => OfferedStays(s, s', t, s.txs[t].phase.found.id);
    case StartDelete(_) => OfferedStays(s, s', t, s.txs[t].phase.id);
    case LockDelete => OfferedStays(s, s', t, s.txs[t].phase.id);
  }

  lemma CommitterKnowsWell(matches: Matcher, s: State, t: TxId, s': State)
    requires Follows(s, s') && s.Active(t) && s.txs[t].phase.Ready? && ChoiceOk(matches, s, t)
    requires s' == CommittedState(s, t, s.txs[t].phase.id)
    ensures ChoiceOk(matches, s', t) && TodoOk(s', t)
  {
    if s.txs[t].job.Redeem? { OfferedStays(s, s', t, s.txs[t].phase.id); }
  }

  /** A step moves its own transaction, and no other. */
  lemma OnlyOneMoves(matches: Matcher, s: State, t: TxId, a: Action, s': State, u: TxId)
    requires Step(matches, s, t, a, s') && u != t
    ensures (u in s'.txs <==> u in s.txs) && (u in s.txs ==> s'.txs[u] == s.txs[u])
  {
    if !a.Commit? { OnlyCommitShows(matches, s, t, a, s'); }
  }

  lemma StepKnowsWell(matches: Matcher, s: State, t: TxId, a: Action, s': State)
    requires Inv(s) && Step(matches, s, t, a, s') && KnowsWell(matches, s)
    ensures KnowsWell(matches, s')
  {
    StepFollows(matches, s, t, a, s');
    forall u | u in s'.txs ensures ChoiceOk(matches, s', u) && TodoOk(s', u) {
      if u != t {
        OnlyOneMoves(matches, s, t, a, s', u);
        OthersKnowWell(matches, s, s', u);
      } else if a.Commit? {
        CommitterKnowsWell(matches, s, t, s');
      } else if !a.Begin? && !a.Cancel? {
        OnlyCommitShows(matches, s, t, a, s');
        if s.txs[t].job.Issue? { IssuerKnowsWell(matches, s, t, s.txs[t].job.r, a, s'); }
        else { RedeemerKnowsWell(matches, s, t, a, s'); }
      }
    }
  }

  lemma NextKnowsWell(matches: Matcher, states: seq<State>, moves: seq<Move>, i: nat)
    requires IsRun(matches, states, moves) && i < |moves| && KnowsWell(matches, states[i])
    ensures KnowsWell(matches, states[i + 1])
  {
    RunStep(matches, states, moves, i);
    StepKnowsWell(matches, states[i], moves[i].t, moves[i].action, states[i + 1]);
  }

  lemma {:induction false} RunKnowsWell(matches: Matcher, states: seq<State>, moves: seq<Move>, i: nat)
    requires IsRun(matches, states, moves) && i < |states|
    ensures KnowsWell(matches, states[i])
  {
    if i > 0 {
      RunKnowsWell(matches, states, moves, i - 1);
      NextKnowsWell(matches, states, moves, i - 1);
    }
  }

  // ---------------------------------------------------------------------------------------
  // Every refusal has its cause.

  lemma FinishStep(matches: Matcher, states: seq<State>, moves: seq<Move>, i: nat, t: TxId)
    requires IsRun(matches, states, moves) && i < |moves|
    requires t in states[i + 1].txs && states[i + 1].txs[t].phase.Finished?
    ensures t in states[i].txs && states[i].txs[t].job == states[i + 1].txs[t].job
    ensures states[i].txs[t].clock == states[i + 1].txs[t].clock
    ensures states[i].txs[t] == states[i + 1].txs[t] || (moves[i].t == t && states[i].Active(t))
  {
    RunStep(matches, states, moves, i);
    var s, u, a, s' := states[i], moves[i].t, moves[i].action, states[i + 1];
    if u != t { OnlyOneMoves(matches, s, u, a, s', t); }
    if !a.Commit? { OnlyCommitShows(matches, s, u, a, s'); }
  }

  /** The step with which a transaction finished. */
  lemma {:induction false} FinishedAt(matches: Matcher, states: seq<State>, moves: seq<Move>, j: nat, t: TxId)
    returns (i: nat)
    requires IsRun(matches, states, moves) && j < |states|
    requires t in states[j].txs && states[j].txs[t].phase.Finished?
    ensures i < j && moves[i].t == t && states[i].Active(t)
    ensures t in states[i + 1].txs && states[i + 1].txs[t] == states[j].txs[t]
    ensures states[i].txs[t].job == states[j].txs[t].job && states[i].txs[t].clock == states[j].txs[t].clock
  {
    assert j > 0;
    i := j - 1;
    FinishStep(matches, states, moves, i, t);
    if states[i].txs[t] == states[j].txs[t] {
      i := FinishedAt(matches, states, moves, i, t);
    }
  }

  /** In force, for the redeemer's pair, and unexpired by the redeemer's clock in the database. */
  ghost predicate OnOffer(rows: Table, id: Uuid, usage: Usage, target: string, clock: Time) {
    && id in rows && rows[id].deletion.None? && rows[id].usage == usage && rows[id].target == target
    && rows[id].expiresAt > clock
  }

  ghost predicate TakenByOther(s: State, t: TxId, id: Uuid) {
    id in s.retired && s.retired[id].actor != t && HasCommitted(s, s.retired[id].actor)
  }

  /** Why this step of a redeemer refuses: the row it looked at was over when it was judged; its hash
      rejects the code; nothing was on offer; or what was is gone, by another committed transaction. */
  ghost predicate RefusalCause(matches: Matcher, s: State, t: TxId, a: Action, why: Refusal)
    requires t in s.txs && s.txs[t].job.Redeem?
  {
    var Tx(job, clock, phase) := s.txs[t];
    match why
    case CodeExpired =>
      && a.Judge? && phase.Judging? && WasOffered(s, t, phase.found.id)
      && s.rows[phase.found.id].committed.value.expiresAt < a.now
    case CodeInvalid =>
      && a.Judge? && phase.Judging? && WasOffered(s, t, phase.found.id)
      && s.rows[phase.found.id].committed.value.expiresAt >= a.now
      && !matches(job.plain, s.rows[phase.found.id].committed.value.code)
    case CodeNotFound =>
      if phase.Begun? then forall id :: !OnOffer(CommittedRows(s), id, job.usage, job.target, clock)
      else (phase.Deleting? || phase.Locking?) && Approved(matches, s, t, phase.id) && TakenByOther(s, t, phase.id)
    case CodeExists => false
  }

  lemma RefusalStep(matches: Matcher, s: State, t: TxId, a: Action, s': State, why: Refusal)
    requires Inv(s) && ChoiceOkAt(matches, s, t) && s.txs[t].job.Redeem? && Step(matches, s, t, a, s')
    requires s.Active(t) && t in s'.txs && s'.txs[t].phase == Finished(Refused(why))
    ensures RefusalCause(matches, s, t, a, why)
  {
    var phase := s.txs[t].phase;
    if a.Select? {
      var Tx(job, clock, _) := s.txs[t];
      forall id | id in CommittedRows(s) ensures !OnOffer(CommittedRows(s), id, job.usage, job.target, clock) {
      }
    } else if a.StartDelete? || a.LockDelete? {
      assert RetirementOk(s, phase.id);
    }
  }

  ghost predicate ChoiceOkAt(matches: Matcher, s: State, t: TxId) {
    t in s.txs && ChoiceOk(matches, s, t)
  }

  /** In every run, every refused redeemer was refused by a step that had the cause it names. */
  lemma RefusedForCause(matches: Matcher, states: seq<State>, moves: seq<Move>, j: nat, t: TxId, why: Refusal)
    returns (i: nat)
    requires IsRun(matches, states, moves) && j < |states|
    requires t in states[j].txs && states[j].txs[t].job.Redeem? && states[j].txs[t].phase == Finished(Refused(why))
    ensures i < j && moves[i].t == t && t in states[i].txs && states[i].txs[t].job == states[j].txs[t].job
    ensures RefusalCause(matches, states[i], t, moves[i].action, why)
    ensures why == CodeNotFound && !states[i].txs[t].phase.Begun? ==>
              TakenByOther(states[j], t, states[i].txs[t].phase.id)
  {
    i := FinishedAt(matches, states, moves, j, t);
    RunStep(matches, states, moves, i);
    RunKnowsWell(matches, states, moves, i);
    RefusalStep(matches, states[i], t, moves[i].action, states[i + 1], why);
    RunFollows(matches, states, moves, i, j);
  }

  predicate PastJudging(phase: Phase, id: Uuid) {
    match phase
    case Deleting(x) => x == id
    case Locking(x, _) => x == id
    case Ready(x) => x == id
    case Finished(Committed(x)) => x == id
    case _ => false
  }

  /** A judging that lets the code pass. */
  ghost predicate JudgedRight(matches: Matcher, s: State, t: TxId, a: Action, id: Uuid) {
    && t in s.txs && s.txs[t].job.Redeem? && s.txs[t].phase.Judging? && s.txs[t].phase.found.id == id
    && a.Judge? && s.txs[t].phase.found.expiresAt >= a.now
    && matches(s.txs[t].job.plain, s.txs[t].phase.found.code)
  }

  lemma RedeemPassStep(matches: Matcher, s: State, t: TxId, a: Action, s': State, id: Uuid)
    requires s.Active(t) && s.txs[t].job.Redeem? && RedeemStep(matches, s, t, s.txs[t].job, a, s')
    requires t in s'.txs && PastJudging(s'.txs[t].phase, id)
    ensures PastJudging(s.txs[t].phase, id) || JudgedRight(matches, s, t, a, id)
  {
  }

  lemma PassStep(matches: Matcher, states: seq<State>, moves: seq<Move>, i: nat, t: TxId, id: Uuid)
    requires IsRun(matches, states, moves) && i < |moves|
    requires t in states[i + 1].txs && states[i + 1].txs[t].job.Redeem? && PastJudging(states[i + 1].txs[t].phase, id)
    ensures t in states[i].txs && states[i].txs[t].job == states[i + 1].txs[t].job
    ensures states[i].txs[t].clock == states[i + 1].txs[t].clock
    ensures PastJudging(states[i].txs[t].phase, id)
            || (moves[i].t == t && JudgedRight(matches, states[i], t, moves[i].action, id))
  {
    RunStep(matches, states, moves, i);
    var s, u, a, s' := states[i], moves[i].t, moves[i].action, states[i + 1];
    if u != t {
      OnlyOneMoves(matches, s, u, a, s', t);
    } else if !a.Commit? {
      OnlyCommitShows(matches, s, t, a, s');
      if !a.Begin? && !a.Cancel? { RedeemPassStep(matches, s, t, a, s', id); }
    }
  }

  /** Whoever gets past the judging of a code, and so whoever redeems one, was judged: the code
      matched and had not expired. */
  lemma {:induction false} PassedForCause(
    matches: Matcher, states: seq<State>, moves: seq<Move>, j: nat, t: TxId, id: Uuid) returns (i: nat)
    requires IsRun(matches, states, moves) && j < |states|
    requires t in states[j].txs && states[j].txs[t].job.Redeem? && PastJudging(states[j].txs[t].phase, id)
    ensures i < j && moves[i].t == t && JudgedRight(matches, states[i], t, moves[i].action, id)
    ensures states[i].txs[t].job == states[j].txs[t].job && states[i].txs[t].clock == states[j].txs[t].clock
    ensures Approved(matches, states[j], t, id)
  {
    RunKnowsWell(matches, states, moves, j);
    assert ChoiceOk(matches, states[j], t) && j > 0;
    PassStep(matches, states, moves, j - 1, t, id);
    i := j - 1;
    if PastJudging(states[i].txs[t].phase, id) {
      i := PassedForCause(matches, states, moves, i, t, id);
    }
  }

  /** The row that stands in the way of an insert, at the step that refuses it. */
  ghost predicate InsertCause(s: State, t: TxId, r: InsertRequest, clock: Time, a: Action, id: Uuid) {
    && id in s.rows && s.rows[id].committed.Some?
    && s.rows[id].committed.value.usage == r.usage && s.rows[id].committed.value.target == r.target
    && if a.Insert? then s.rows[id].IsLive() && !s.rows[id].OwnedBy(t)
       else a.Check? && !r.overriding && s.rows[id].committed.value.expiresAt > clock
            && (s.rows[id].OwnedBy(t) || s.rows[id].IsLive() || s.rows[id].committed.value.deletion.value.at > clock)
  }

  lemma CheckRefuses(s: State, t: TxId, r: InsertRequest) returns (id: Uuid)
    requires Inv(s) && s.At(t, Issue(r), Checking) && !r.overriding
    requires |Conflicts(View(s, t), r.usage, r.target, s.txs[t].clock)| == 1
    ensures InsertCause(s, t, r, s.txs[t].clock, Check, id)
  {
    var counted := Conflicts(View(s, t), r.usage, r.target, s.txs[t].clock);
    assert counted != {};
    id :| id in counted;
    assert RowOk(s, id);
    if s.rows[id].OwnedBy(t) { assert DraftOk(s, id); }
  }

  lemma InsertRefusalStep(s: State, t: TxId, r: InsertRequest, a: Action, s': State) returns (id: Uuid)
    requires Inv(s) && s.Active(t) && s.txs[t].job == Issue(r) && IssueStep(s, t, r, a, s')
    requires a == Check ==> !r.overriding
    requires t in s'.txs && s'.txs[t].phase.Finished? && s'.txs[t].phase.outcome.Refused?
    ensures InsertCause(s, t, r, s.txs[t].clock, a, id)
  {
    if a.Insert? {
      id :| id in s.rows && InTheWay(s.rows[id], t, r.usage, r.target);
    } else {
      id := CheckRefuses(s, t, r);
    }
  }

  /** In every run, every refused insert was refused by a step that found a row of its pair. */
  lemma InsertRefusedForCause(
    matches: Matcher, states: seq<State>, moves: seq<Move>, j: nat, t: TxId, r: InsertRequest)
    returns (i: nat, id: Uuid)
    requires IsRun(matches, states, moves) && j < |states|
    requires t in states[j].txs && states[j].txs[t].job == Issue(r)
    requires states[j].txs[t].phase.Finished? && states[j].txs[t].phase.outcome.Refused?
    ensures i < j && moves[i].t == t && InsertCause(states[i], t, r, states[j].txs[t].clock, moves[i].action, id)
    ensures states[j].txs[t].phase.outcome == Refused(CodeExists)
  {
    i := FinishedAt(matches, states, moves, j, t);
    RunKeeps(matches, states, moves, j);
    assert TxOk(states[j], t);
    RunKeeps(matches, states, moves, i);
    RunKnowsWell(matches, states, moves, i);
    assert TodoOk(states[i], t) && StepAt(matches, states, moves, i);
    id := InsertRefusalStep(states[i], t, r, moves[i].action, states[i + 1]);
  }

  // ---------------------------------------------------------------------------------------
  // Nobody waits for a transaction of another pair.

  ghost predicate AloneOnPair(s: State, t: TxId)
    requires t in s.txs
  {
    forall u :: u != t && s.Active(u) ==> !s.txs[u].job.Concerns(s.txs[t].job.UsageOf(), s.txs[t].job.TargetOf())
  }

  ghost predicate CanStep(matches: Matcher, s: State, t: TxId) {
    exists a: Action, s': State :: !a.Cancel? && Step(matches, s, t, a, s')
  }

  lemma NotLocked(s: State, t: TxId, id: Uuid)
    requires Inv(s) && t in s.txs && AloneOnPair(s, t) && OfPair(s, id, s.txs[t].job)
    ensures !s.rows[id].LockedFor(t)
  {
    assert RowOk(s, id);
    if s.rows[id].draft.Some? { assert DraftOk(s, id); }
  }

  lemma NothingToWaitFor(s: State, t: TxId, id: Uuid)
    requires Inv(s) && t in s.txs && AloneOnPair(s, t) && id in s.rows
    ensures !MustWait(s.rows[id], t, s.txs[t].job.UsageOf(), s.txs[t].job.TargetOf())
  {
    assert RowOk(s, id);
  }

  lemma DiscarderCanStep(matches: Matcher, s: State, t: TxId, r: InsertRequest)
    requires Inv(s) && s.Active(t) && s.txs[t].job == Issue(r) && AloneOnPair(s, t) && TodoOk(s, t)
    requires s.txs[t].phase.Discarding?
    ensures CanStep(matches, s, t)
  {
    var todo := s.txs[t].phase.todo;
    if todo == {} {
      assert Step(matches, s, t, EndDiscard, Moved(s, t, if r.overriding then Inserting else Checking));
    } else {
      var id :| id in todo;
      NotLocked(s, t, id);
      var moved := Moved(s, t, Discarding(todo - {id}));
      var latest := s.rows[id].committed.value;
      if DiscardHits(latest, r, s.txs[t].clock) {
        assert Step(matches, s, t, TouchRow(id), Drafted(moved, t, id, Discarded(latest, r, s.txs[t].clock)));
      } else {
        assert Step(matches, s, t, TouchRow(id), moved);
      }
    }
  }

  lemma InserterCanStep(matches: Matcher, s: State, t: TxId, r: InsertRequest)
    requires Inv(s) && s.At(t, Issue(r), Inserting) && AloneOnPair(s, t) && r.id !in s.rows
    ensures CanStep(matches, s, t)
  {
    forall id | id in s.rows ensures !MustWait(s.rows[id], t, r.usage, r.target) {
      NothingToWaitFor(s, t, id);
    }
    if exists id :: id in s.rows && InTheWay(s.rows[id], t, r.usage, r.target) {
      assert Step(matches, s, t, Insert, RolledBack(s, t, Refused(CodeExists)));
    } else {
      assert Step(matches, s, t, Insert,
                  Moved(s.(rows := s.rows[r.id := Row(None, Some(Draft(t, NewRow(r))))]), t, Ready(r.id)));
    }
  }

  lemma IssuerCanStep(matches: Matcher, s: State, t: TxId, r: InsertRequest)
    requires Inv(s) && s.Active(t) && s.txs[t].job == Issue(r) && AloneOnPair(s, t) && TodoOk(s, t)
    requires s.txs[t].phase.Inserting? ==> r.id !in s.rows
    ensures CanStep(matches, s, t)
  {
    assert TxOk(s, t);
    var phase, clock := s.txs[t].phase, s.txs[t].clock;
    if phase.Begun? {
      var hit := set id | id in s.rows && s.rows[id].committed.Some?
                          && DiscardHits(s.rows[id].committed.value, r, clock);
      assert Step(matches, s, t, StartDiscard, Moved(s, t, Discarding(hit)));
    } else if phase.Discarding? {
      DiscarderCanStep(matches, s, t, r);
    } else if phase.Checking? {
      var refused := |Conflicts(View(s, t), r.usage, r.target, clock)| == 1;
      assert Step(matches, s, t, Check,
                  if refused then RolledBack(s, t, Refused(CodeExists)) else Moved(s, t, Inserting));
    } else if phase.Inserting? {
      InserterCanStep(matches, s, t, r);
    } else {
      assert Step(matches, s, t, Commit, CommittedState(s, t, phase.id));
    }
  }

  lemma DeleterCanStep(matches: Matcher, s: State, t: TxId)
    requires Inv(s) && s.Active(t) && s.txs[t].job.Redeem? && AloneOnPair(s, t)
    requires s.txs[t].phase.Locking? && Approved(matches, s, t, s.txs[t].phase.id)
    ensures CanStep(matches, s, t)
  {
    var Locking(id, now) := s.txs[t].phase;
    NotLocked(s, t, id);
    var latest := s.rows[id].committed.value;
    if Deletable(latest, s.txs[t].clock) {
      assert Step(matches, s, t, LockDelete, Moved(Drafted(s, t, id, latest.Tombstone(now, Consumed)), t, Ready(id)));
    } else {
      assert Step(matches, s, t, LockDelete, RolledBack(s, t, Refused(CodeNotFound)));
    }
  }

  lemma SelecterCanStep(matches: Matcher, s: State, t: TxId)
    requires s.Active(t) && s.txs[t].job.Redeem? && s.txs[t].phase.Begun?
    ensures CanStep(matches, s, t)
  {
    var Tx(job, clock, _) := s.txs[t];
    if id :| id in s.rows && s.rows[id].committed.Some?
             && Selects(s.rows[id].committed.value, job.usage, job.target, clock) {
      assert Step(matches, s, t, Select(Some(id)), Moved(s, t, Judging(s.rows[id].committed.value)));
    } else {
      assert Step(matches, s, t, Select(None), RolledBack(s, t, Refused(CodeNotFound)));
    }
  }

  lemma RedeemerCanStep(matches: Matcher, s: State, t: TxId)
    requires Inv(s) && s.Active(t) && s.txs[t].job.Redeem? && AloneOnPair(s, t) && ChoiceOkAt(matches, s, t)
    ensures CanStep(matches, s, t)
  {
    assert TxOk(s, t);
    var Tx(job, clock, phase) := s.txs[t];
    if phase.Begun? {
      SelecterCanStep(matches, s, t);
    } else if phase.Judging? {
      assert Step(matches, s, t, Judge(0),
                  if phase.found.expiresAt < 0 then RolledBack(s, t, Refused(CodeExpired))
                  else if !matches(job.plain, phase.found.code) then RolledBack(s, t, Refused(CodeInvalid))
                  else Moved(s, t, Deleting(phase.found.id)));
    } else if phase.Deleting? {
      assert Step(matches, s, t, StartDelete(0),
                  if Deletable(s.rows[phase.id].committed.value, clock)
                  then Moved(s, t, Locking(phase.id, 0)) else RolledBack(s, t, Refused(CodeNotFound)));
    } else if phase.Locking? {
      DeleterCanStep(matches, s, t);
    } else {
      assert Step(matches, s, t, Commit, CommittedState(s, t, phase.id));
    }
  }

  /** In every reachable state, a transaction that shares its pair with no other active one can take
      its next step. */
  lemma NobodyWaitsForOtherPairs(matches: Matcher, states: seq<State>, moves: seq<Move>, i: nat, t: TxId)
    requires IsRun(matches, states, moves) && i < |states| && states[i].Active(t) && AloneOnPair(states[i], t)
    requires states[i].txs[t].job.Issue? && states[i].txs[t].phase.Inserting? ==>
               states[i].txs[t].job.r.id !in states[i].rows
    ensures CanStep(matches, states[i], t)
  {
    RunKeeps(matches, states, moves, i);
    RunKnowsWell(matches, states, moves, i);
    if states[i].txs[t].job.Issue? { IssuerCanStep(matches, states[i], t, states[i].txs[t].job.r); }
    else { RedeemerCanStep(matches, states[i], t); }
  }

  // ---------------------------------------------------------------------------------------
  // A redemption that runs alone.

  lemma {:induction false} OnlyTx(matches: Matcher, states: seq<State>, moves: seq<Move>, i: nat, t: TxId, u: TxId)
    requires IsRun(matches, states, moves) && i < |states| && forall k :: 0 <= k < |moves| ==> moves[k].t == t
    requires u in states[i].txs
    ensures u == t
  {
    if i > 0 && u != t {
      RunStep(matches, states, moves, i - 1);
      OnlyOneMoves(matches, states[i - 1], t, moves[i - 1].action, states[i], u);
      OnlyTx(matches, states, moves, i - 1, t, u);
    }
  }

  /** What judging the row at this moment comes to. */
  function Judgement(matches: Matcher, c: ShortCode, plain: string, now: Time): Outcome {
    if c.expiresAt < now then Refused(CodeExpired)
    else if !matches(plain, c.code) then Refused(CodeInvalid)
    else Committed(c.id)
  }

  ghost predicate JudgedAs(matches: Matcher, moves: seq<Move>, i: nat, c: ShortCode, plain: string, outcome: Outcome) {
    exists k :: 0 <= k < i && k < |moves| && moves[k].action.Judge?
                && outcome == Judgement(matches, c, plain, moves[k].action.now)
  }

  lemma SoloRefusal(
    matches: Matcher, states: seq<State>, moves: seq<Move>, t: TxId, job: Job, clock: Time, i: nat,
    why: Refusal, id: Uuid)
    requires IsRun(matches, states, moves) && 0 < i < |states| && job.Redeem?
    requires moves[0] == Move(t, Begin(job, clock)) && forall k :: 0 <= k < |moves| ==> moves[k].t == t
    requires t in states[i].txs && states[i].txs[t].phase == Finished(Refused(why))
    ensures var before := CommittedRows(states[0]);
            && (why == CodeNotFound <==> forall x :: !OnOffer(before, x, job.usage, job.target, clock))
            && (OnOffer(before, id, job.usage, job.target, clock) ==>
                  JudgedAs(matches, moves, i, before[id], job.plain, Refused(why)))
  {
    SoloRedeemIsSpend(matches, states, moves, t, job, clock, i);
    var f := RefusedForCause(matches, states, moves, i, t, why);
    assert f > 0;
    SoloRedeemIsSpend(matches, states, moves, t, job, clock, f);
    NeverTwoLive(matches, states, moves, 0);
    var before := CommittedRows(states[0]);
    if why == CodeNotFound {
      if states[f].txs[t].phase.Begun? {
        assert CommittedRows(states[f]) == before;
      } else {
        OnlyTx(matches, states, moves, i, t, states[i].retired[states[f].txs[t].phase.id].actor);
        assert false;
      }
    } else {
      var found := states[f].txs[t].phase.found;
      assert OnOffer(before, found.id, job.usage, job.target, clock);
      if OnOffer(before, id, job.usage, job.target, clock) {
        assert Refused(why) == Judgement(matches, before[id], job.plain, moves[f].action.now);
      }
    }
  }

  lemma SoloSuccess(
    matches: Matcher, states: seq<State>, moves: seq<Move>, t: TxId, job: Job, clock: Time, i: nat,
    done: Uuid, id: Uuid)
    requires IsRun(matches, states, moves) && 0 < i < |states| && job.Redeem?
    requires moves[0] == Move(t, Begin(job, clock)) && forall k :: 0 <= k < |moves| ==> moves[k].t == t
    requires t in states[i].txs && states[i].txs[t].phase == Finished(Committed(done))
    ensures var before := CommittedRows(states[0]);
            && OnOffer(before, done, job.usage, job.target, clock)
            && (OnOffer(before, id, job.usage, job.target, clock) ==>
                  JudgedAs(matches, moves, i, before[id], job.plain, Committed(done)))
  {
    SoloRedeemIsSpend(matches, states, moves, t, job, clock, i);
    var k := PassedForCause(matches, states, moves, i, t, done);
    assert k > 0;
    SoloRedeemIsSpend(matches, states, moves, t, job, clock, k);
    NeverTwoLive(matches, states, moves, 0);
    var before := CommittedRows(states[0]);
    if OnOffer(before, id, job.usage, job.target, clock) {
      assert before[id] == states[k].txs[t].phase.found;
      assert Committed(done) == Judgement(matches, before[id], job.plain, moves[k].action.now);
    }
  }

  /** Alone and not cancelled, a redemption is refused as not found exactly when nothing is on offer;
      what is on offer it redeems if the code matches and the row has not expired at the moment of
      judging, and otherwise it names which of the two failed. */
  lemma SoloRedeemOutcome(
    matches: Matcher, states: seq<State>, moves: seq<Move>, t: TxId, job: Job, clock: Time, i: nat, id: Uuid)
    requires IsRun(matches, states, moves) && 0 < i < |states| && job.Redeem?
    requires moves[0] == Move(t, Begin(job, clock)) && forall k :: 0 <= k < |moves| ==> moves[k].t == t
    requires t in states[i].txs && states[i].txs[t].phase.Finished? && !states[i].txs[t].phase.outcome.Cancelled?
    ensures var before, outcome := CommittedRows(states[0]), states[i].txs[t].phase.outcome;
            && (outcome == Refused(CodeNotFound) <==> forall x :: !OnOffer(before, x, job.usage, job.target, clock))
            && (OnOffer(before, id, job.usage, job.target, clock) ==>
                  JudgedAs(matches, moves, i, before[id], job.plain, outcome))
  {
    match states[i].txs[t].phase.outcome
    case Refused(why) => SoloRefusal(matches, states, moves, t, job, clock, i, why, id);
    case Committed(done) => SoloSuccess(matches, states, moves, t, job, clock, i, done, id);
  }

  function Rank(phase: Phase): nat {
    match phase
    case Begun => 0
    case Judging(_) => 1
    case Deleting(_) => 2
    case Locking(_, _) => 3
    case Ready(_) => 4
    case _ => 5
  }

  lemma RedeemRankGrows(matches: Matcher, s: State, t: TxId, a: Action, s': State)
    requires s.Active(t) && s.txs[t].job.Redeem? && RedeemStep(matches, s, t, s.txs[t].job, a, s') && t in s'.txs
    ensures Rank(s'.txs[t].phase) > Rank(s.txs[t].phase)
  {
  }

  /** The three kinds of step that a redeemer takes. */
  lemma RedeemerSteps(matches: Matcher, s: State, t: TxId, a: Action, s': State)
    requires Step(matches, s, t, a, s') && t in s.txs && s.txs[t].job.Redeem?
    ensures s.Active(t)
    ensures || s' == RolledBack(s, t, Cancelled)
            || (s.txs[t].phase.Ready? && s' == CommittedState(s, t, s.txs[t].phase.id))
            || RedeemStep(matches, s, t, s.txs[t].job, a, s')
  {
  }

  lemma RedeemerRankGrows(matches: Matcher, s: State, t: TxId, a: Action, s': State)
    requires Step(matches, s, t, a, s') && t in s.txs && s.txs[t].job.Redeem? && Rank(s.txs[t].phase) < 5
    ensures t in s'.txs && s'.txs[t].job == s.txs[t].job && Rank(s'.txs[t].phase) > Rank(s.txs[t].phase)
  {
    RedeemerSteps(matches, s, t, a, s');
    if RedeemStep(matches, s, t, s.txs[t].job, a, s') {
      RedeemShowsNothing(matches, s, t, s.txs[t].job, a, s');
      RedeemRankGrows(matches, s, t, a, s');
    }
  }

  lemma RankGrows(matches: Matcher, states: seq<State>, moves: seq<Move>, i: nat, t: TxId)
    requires IsRun(matches, states, moves) && i < |moves| && moves[i].t == t
    requires t in states[i].txs && states[i].txs[t].job.Redeem?
    ensures t in states[i + 1].txs && states[i + 1].txs[t].job == states[i].txs[t].job
    ensures Rank(states[i + 1].txs[t].phase) > Rank(states[i].txs[t].phase)
  {
    RunKeeps(matches, states, moves, i);
    assert StepAt(matches, states, moves, i) && TxOk(states[i], t);
    RedeemerSteps(matches, states[i], t, moves[i].action, states[i + 1]);
    RedeemerRankGrows(matches, states[i], t, moves[i].action, states[i + 1]);
  }

  lemma SoloCanStep(matches: Matcher, states: seq<State>, moves: seq<Move>, t: TxId, i: nat)
    requires IsRun(matches, states, moves) && i < |states| && forall k :: 0 <= k < |moves| ==> moves[k].t == t
    requires states[i].Active(t) && states[i].txs[t].job.Redeem?
    ensures CanStep(matches, states[i], t)
  {
    forall u | states[i].Active(u) ensures u == t {
      OnlyTx(matches, states, moves, i, t, u);
    }
    NobodyWaitsForOtherPairs(matches, states, moves, i, t);
  }

  /** It takes at most six steps, of which none has to wait, so unless it is cancelled it comes to
      that outcome. */
  lemma {:induction false} SoloRedeemEnds(
    matches: Matcher, states: seq<State>, moves: seq<Move>, t: TxId, job: Job, clock: Time, i: nat)
    requires IsRun(matches, states, moves) && 0 < i < |states| && job.Redeem?
    requires moves[0] == Move(t, Begin(job, clock)) && forall k :: 0 <= k < |moves| ==> moves[k].t == t
    ensures t in states[i].txs && states[i].txs[t].job == job && i <= Rank(states[i].txs[t].phase) + 1 <= 6
    ensures states[i].txs[t].phase.Finished? || CanStep(matches, states[i], t)
  {
    if i == 1 {
      assert StepAt(matches, states, moves, 0);
    } else {
      SoloRedeemEnds(matches, states, moves, t, job, clock, i - 1);
      RankGrows(matches, states, moves, i - 1, t);
    }
    if states[i].Active(t) { SoloCanStep(matches, states, moves, t, i); }
  }
}
