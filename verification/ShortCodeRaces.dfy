/** The short-code table under concurrent transactions at read-committed isolation.

    The rules of the database that the source relies on are stated here as the rules of a step
    system: a statement reads the rows committed when it starts and its own transaction's
    changes; a changed row stays locked until its transaction ends; an UPDATE that meets a locked
    row waits, then looks at its WHERE clause again on the version then committed; an insert waits
    for a transaction that may still settle a conflict in the partial unique index, and is refused
    when the conflict is committed. A blocked statement is a step that is not enabled. */
module ShortCodeRaces {
  import opened Wrappers
  import opened Claims
  import opened ShortCodes

  type TxId = nat

  datatype Draft = Draft(owner: TxId, version: ShortCode)

  /** A row whose insert is not committed yet has no committed version. */
  datatype Row = Row(committed: Option<ShortCode>, draft: Option<Draft>) {
    predicate OwnedBy(t: TxId) { draft.Some? && draft.value.owner == t }

    predicate LockedFor(t: TxId) { draft.Some? && draft.value.owner != t }

    predicate IsLive() { committed.Some? && committed.value.Live() }

    predicate DraftsLive() { draft.Some? && draft.value.version.Live() }
  }

  datatype Job = Issue(r: InsertRequest) | Redeem(usage: Usage, target: string, plain: string) {
    function UsageOf(): Usage { if Issue? then r.usage else usage }

    function TargetOf(): string { if Issue? then r.target else target }

    predicate Concerns(u: Usage, x: string) { UsageOf() == u && TargetOf() == x }
  }

  datatype Refusal = CodeExists | CodeNotFound | CodeExpired | CodeInvalid

  datatype Outcome = Committed(id: Uuid) | Refused(why: Refusal) | Cancelled

  datatype Phase =
    | Begun
    | Discarding(todo: set<Uuid>)
    | Checking
    | Inserting
    | Judging(found: ShortCode)
    | Deleting(id: Uuid)
    | Locking(id: Uuid, now: Time)
    | Ready(id: Uuid)
    | Finished(outcome: Outcome)

  /** `clock` is the CURRENT_TIMESTAMP of the transaction. */
  datatype Tx = Tx(job: Job, clock: Time, phase: Phase)

  /** Why and by whom a committed live row stopped being live; a history of the run. */
  datatype Retirement = Retirement(actor: TxId, comment: Comment)

  datatype State = State(rows: map<Uuid, Row>, txs: map<TxId, Tx>, retired: map<Uuid, Retirement>) {
    predicate Active(t: TxId) { t in txs && !txs[t].phase.Finished? }

    predicate At(t: TxId, job: Job, phase: Phase) { t in txs && txs[t].job == job && txs[t].phase == phase }
  }

  function Moved(s: State, t: TxId, phase: Phase): State
    requires t in s.txs
  {
    s.(txs := s.txs[t := s.txs[t].(phase := phase)])
  }

  function Drafted(s: State, t: TxId, id: Uuid, version: ShortCode): State
    requires id in s.rows
  {
    s.(rows := s.rows[id := s.rows[id].(draft := Some(Draft(t, version)))])
  }

  /** Every change of the transaction is undone and its locks are released. */
  function RolledBack(s: State, t: TxId, outcome: Outcome): State
    requires t in s.txs
  {
    Moved(s.(rows := map id | id in s.rows && !(s.rows[id].OwnedBy(t) && s.rows[id].committed.None?) ::
                       if s.rows[id].OwnedBy(t) then s.rows[id].(draft := None) else s.rows[id]),
          t, Finished(outcome))
  }

  function CommentOf(c: ShortCode): Comment {
    if c.deletion.Some? then c.deletion.value.comment else Override
  }

  /** The reason a transaction can have for retiring a row. */
  function ReasonOf(job: Job): Comment {
    if job.Redeem? then Consumed else if job.r.overriding then Override else ExpiredBeforeInsert
  }

  function CommittedState(s: State, t: TxId, id: Uuid): State
    requires t in s.txs
  {
    var rows := map x | x in s.rows ::
      if s.rows[x].OwnedBy(t) then Row(Some(s.rows[x].draft.value.version), None) else s.rows[x];
    var retirements := map x | x in s.rows && s.rows[x].OwnedBy(t) && s.rows[x].IsLive() ::
      Retirement(t, CommentOf(s.rows[x].draft.value.version));
    Moved(s.(rows := rows, retired := s.retired + retirements), t, Finished(Committed(id)))
  }

  /** The rows a statement of the transaction reads. */
  function View(s: State, t: TxId): Table {
    map id | id in s.rows && (s.rows[id].OwnedBy(t) || s.rows[id].committed.Some?) ::
      if s.rows[id].OwnedBy(t) then s.rows[id].draft.value.version else s.rows[id].committed.value
  }

  predicate DiscardHits(c: ShortCode, r: InsertRequest, clock: Time) {
    if r.overriding then OverrideHits(c, r.usage, r.target, clock) else ExpiryHits(c, r.usage, r.target, r.now)
  }

  /** Another transaction may still bring a conflicting row into the index, or take one out. */
  predicate MustWait(row: Row, t: TxId, usage: Usage, target: string) {
    row.LockedFor(t) && (row.IsLive() || row.DraftsLive()) && row.draft.value.version.For(usage, target)
  }

  predicate InTheWay(row: Row, t: TxId, usage: Usage, target: string) {
    row.IsLive() && row.committed.value.For(usage, target) && !row.OwnedBy(t)
  }

  // ---------------------------------------------------------------------------------------
  // The steps.

  datatype Action =
    | Begin(job: Job, clock: Time)
    | StartDiscard
    | TouchRow(id: Uuid)
    | EndDiscard
    | Check
    | Insert
    | Select(found: Option<Uuid>)
    | Judge(now: Time)
    | StartDelete(now: Time)
    | LockDelete
    | Commit
    | Cancel

  ghost predicate IssueStep(s: State, t: TxId, r: InsertRequest, a: Action, s': State)
    requires t in s.txs
  {
    var clock, phase := s.txs[t].clock, s.txs[t].phase;
    match a
    case StartDiscard =>
      && phase == Begun
      && s' == Moved(s, t, Discarding(set id | id in s.rows && s.rows[id].committed.Some?
                                               && DiscardHits(s.rows[id].committed.value, r, clock)))
    case TouchRow(id) =>
      && phase.Discarding? && id in phase.todo && id in s.rows && s.rows[id].committed.Some?
      && !s.rows[id].LockedFor(t)
      && var latest := s.rows[id].committed.value;
         var moved := Moved(s, t, Discarding(phase.todo - {id}));
         s' == if DiscardHits(latest, r, clock) then Drafted(moved, t, id, Discarded(latest, r, clock)) else moved
    case EndDiscard =>
      && phase == Discarding({})
      && s' == Moved(s, t, if r.overriding then Inserting else Checking)
    case Check =>
      && phase == Checking
      && s' == if |Conflicts(View(s, t), r.usage, r.target, clock)| == 1
               then RolledBack(s, t, Refused(CodeExists)) else Moved(s, t, Inserting)
    case Insert =>
      && phase == Inserting
      && r.id !in s.rows
      && (forall id :: id in s.rows ==> !MustWait(s.rows[id], t, r.usage, r.target))
      && s' == if exists id :: id in s.rows && InTheWay(s.rows[id], t, r.usage, r.target)
               then RolledBack(s, t, Refused(CodeExists))
               else Moved(s.(rows := s.rows[r.id := Row(None, Some(Draft(t, NewRow(r))))]), t, Ready(r.id))
    case _ => false
  }

  ghost predicate RedeemStep(matches: Matcher, s: State, t: TxId, job: Job, a: Action, s': State)
    requires t in s.txs && job.Redeem?
  {
    var clock, phase := s.txs[t].clock, s.txs[t].phase;
    match a
    case Select(found) =>
      && phase == Begun
      && (match found
          case None =>
            && (forall id :: id in s.rows && s.rows[id].committed.Some? ==>
                               !Selects(s.rows[id].committed.value, job.usage, job.target, clock))
            && s' == RolledBack(s, t, Refused(CodeNotFound))
          case Some(id) =>
            && id in s.rows && s.rows[id].committed.Some?
            && Selects(s.rows[id].committed.value, job.usage, job.target, clock)
            && s' == Moved(s, t, Judging(s.rows[id].committed.value)))
    case Judge(now) =>
      && phase.Judging?
      && s' == (if phase.found.expiresAt < now then RolledBack(s, t, Refused(CodeExpired))
                else if !matches(job.plain, phase.found.code) then RolledBack(s, t, Refused(CodeInvalid))
                else Moved(s, t, Deleting(phase.found.id)))
    case StartDelete(now) =>
      && phase.Deleting?
      && s' == (if phase.id in s.rows && s.rows[phase.id].committed.Some?
                   && Deletable(s.rows[phase.id].committed.value, clock)
                then Moved(s, t, Locking(phase.id, now)) else RolledBack(s, t, Refused(CodeNotFound)))
    case LockDelete =>
      && phase.Locking? && phase.id in s.rows && s.rows[phase.id].committed.Some?
      && !s.rows[phase.id].LockedFor(t)
      && var latest := s.rows[phase.id].committed.value;
         s' == if Deletable(latest, clock)
               then Moved(Drafted(s, t, phase.id, latest.Tombstone(phase.now, Consumed)), t, Ready(phase.id))
               else RolledBack(s, t, Refused(CodeNotFound))
    case _ => false
  }

  /** One step of transaction `t`. A flow that redeemed a code and then fails is a Cancel, as is a
      lost connection; both roll back. */
  ghost predicate Step(matches: Matcher, s: State, t: TxId, a: Action, s': State) {
    match a
    case Begin(job, clock) => t !in s.txs && s' == s.(txs := s.txs[t := Tx(job, clock, Begun)])
    case Cancel => s.Active(t) && s' == RolledBack(s, t, Cancelled)
    case Commit => s.Active(t) && s.txs[t].phase.Ready? && s' == CommittedState(s, t, s.txs[t].phase.id)
    case _ => s.Active(t) && (match s.txs[t].job
                              case Issue(r) => IssueStep(s, t, r, a, s')
                              case Redeem(_, _, _) => RedeemStep(matches, s, t, s.txs[t].job, a, s'))
  }

  // ---------------------------------------------------------------------------------------
  // The invariant.

  /** Each draft is one its transaction can have made at the phase it is in. */
  ghost predicate DraftOk(s: State, id: Uuid)
    requires id in s.rows && s.rows[id].draft.Some?
  {
    var row, t, version := s.rows[id], s.rows[id].draft.value.owner, s.rows[id].draft.value.version;
    && s.Active(t) && version.id == id
    && version.For(s.txs[t].job.UsageOf(), s.txs[t].job.TargetOf())
    && (row.committed.None? ==>
          s.txs[t].job.Issue? && s.txs[t].phase == Ready(id) && version.Live() && version == NewRow(s.txs[t].job.r))
    && (row.committed.Some? ==>
          && !version.Live() && version == row.committed.value.(deletion := version.deletion)
          && CommentOf(version) == ReasonOf(s.txs[t].job)
          && (s.txs[t].job.Redeem? ==> row.IsLive() && s.txs[t].phase == Ready(id)))
  }

  ghost predicate RowOk(s: State, id: Uuid)
    requires id in s.rows
  {
    && (s.rows[id].committed.None? ==> s.rows[id].draft.Some?)
    && (s.rows[id].committed.Some? ==> s.rows[id].committed.value.id == id)
    && (s.rows[id].draft.Some? ==> DraftOk(s, id))
  }

  ghost predicate TxOk(s: State, t: TxId)
    requires t in s.txs
  {
    var Tx(job, _, phase) := s.txs[t];
    && (job.Issue? ==>
          phase.Begun? || phase.Discarding? || phase.Checking? || phase.Inserting? || phase.Ready? || phase.Finished?)
    && (job.Redeem? ==>
          phase.Begun? || phase.Judging? || phase.Deleting? || phase.Locking? || phase.Ready? || phase.Finished?)
    && (job.Issue? && phase.Finished? && phase.outcome.Refused? ==> phase.outcome.why == CodeExists)
    && (phase.Judging? ==> phase.found.For(job.UsageOf(), job.TargetOf()) && Persists(s, phase.found))
    && (phase.Deleting? ==> OfPair(s, phase.id, job))
    && (phase.Locking? ==> OfPair(s, phase.id, job))
    && (phase.Ready? ==>
          phase.id in s.rows && s.rows[phase.id].OwnedBy(t) && (job.Issue? <==> s.rows[phase.id].committed.None?))
  }

  /** A version once committed is still there, with nothing but its deletion changed. */
  ghost predicate Persists(s: State, c: ShortCode) {
    && c.id in s.rows && s.rows[c.id].committed.Some?
    && s.rows[c.id].committed.value == c.(deletion := s.rows[c.id].committed.value.deletion)
  }

  ghost predicate OfPair(s: State, id: Uuid, job: Job) {
    id in s.rows && s.rows[id].committed.Some? && s.rows[id].committed.value.For(job.UsageOf(), job.TargetOf())
  }

  /** No two rows of a pair are live, none is being made live twice, and a row being made live
      goes with the deletion, in the same transaction, of the one that still is. */
  ghost predicate Exclusive(s: State, a: Uuid, b: Uuid)
    requires a in s.rows && b in s.rows
  {
    var ra, rb := s.rows[a], s.rows[b];
    && (ra.IsLive() && rb.IsLive() && ra.committed.value.SamePair(rb.committed.value) ==> a == b)
    && (ra.DraftsLive() && rb.DraftsLive() && ra.draft.value.version.SamePair(rb.draft.value.version) ==> a == b)
    && (ra.DraftsLive() && rb.IsLive() && ra.draft.value.version.SamePair(rb.committed.value) ==>
          rb.OwnedBy(ra.draft.value.owner))
  }

  ghost predicate RetirementOk(s: State, id: Uuid)
    requires id in s.retired
  {
    var Retirement(t, comment) := s.retired[id];
    && id in s.rows && s.rows[id].committed.Some? && !s.rows[id].committed.value.Live()
    && t in s.txs && s.txs[t].phase.Finished? && s.txs[t].phase.outcome.Committed?
    && comment == ReasonOf(s.txs[t].job)
    && (comment == Consumed ==> s.txs[t].phase.outcome.id == id)
  }

  ghost predicate RedemptionOk(s: State, t: TxId)
    requires t in s.txs
  {
    s.txs[t].job.Redeem? && s.txs[t].phase.Finished? && s.txs[t].phase.outcome.Committed? ==>
      s.txs[t].phase.outcome.id in s.retired && s.retired[s.txs[t].phase.outcome.id] == Retirement(t, Consumed)
  }

  ghost predicate Inv(s: State) {
    && (forall id :: id in s.rows ==> RowOk(s, id))
    && (forall t :: t in s.txs ==> TxOk(s, t))
    && (forall a, b :: a in s.rows && b in s.rows ==> Exclusive(s, a, b))
    && (forall id :: id in s.retired ==> RetirementOk(s, id))
    && (forall t :: t in s.txs ==> RedemptionOk(s, t))
  }

  /** A table at rest: nothing in flight, no history yet. */
  ghost predicate Quiet(s: State) {
    && s.txs == map[] && s.retired == map[]
    && (forall id :: id in s.rows ==>
          s.rows[id].draft.None? && s.rows[id].committed.Some? && s.rows[id].committed.value.id == id)
    && (forall a, b :: a in s.rows && b in s.rows ==>
          s.rows[a].IsLive() && s.rows[b].IsLive() && s.rows[a].committed.value.SamePair(s.rows[b].committed.value) ==>
            a == b)
  }

  // ---------------------------------------------------------------------------------------
  // Runs.

  datatype Move = Move(t: TxId, action: Action)

  ghost predicate StepAt(matches: Matcher, states: seq<State>, moves: seq<Move>, i: nat)
    requires i < |moves| && i + 1 < |states|
  {
    Step(matches, states[i], moves[i].t, moves[i].action, states[i + 1])
  }

  ghost predicate IsRun(matches: Matcher, states: seq<State>, moves: seq<Move>) {
    && |states| == |moves| + 1
    && Quiet(states[0])
    && forall i {:trigger StepAt(matches, states, moves, i)} :: 0 <= i < |moves| ==> StepAt(matches, states, moves, i)
  }

  /** The rows that a reader outside every transaction sees. */
  function CommittedRows(s: State): Table {
    map id | id in s.rows && s.rows[id].committed.Some? :: s.rows[id].committed.value
  }
}
