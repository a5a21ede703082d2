/** The short-code table: its rows, the WHERE clause of every statement, and the statements. */
module ShortCodes {
  import opened Wrappers
  import opened Claims

  /** Microseconds. */
  type Time = int

  const SECOND: Time := 1_000_000

  /** The table's time columns have whole-second precision and round to the nearest second. */
  function Rounded(t: Time): Time {
    (t + SECOND / 2) / SECOND * SECOND
  }

  datatype Usage = ValidateEmail | ResetPassword | Register

  datatype Comment = Override | Consumed | ExpiredBeforeInsert

  datatype Deletion = Deletion(at: Time, comment: Comment)

  /** `code` is the Argon2id hash of the code; `data` the payload carried for the consumer. */
  datatype ShortCode = ShortCode(
    id: Uuid, code: string, usage: Usage, target: string, data: Option<string>,
    createdAt: Time, expiresAt: Time, deletion: Option<Deletion>)
  {
    predicate Live() { deletion.None? }

    predicate For(u: Usage, t: string) { usage == u && target == t }

    predicate SamePair(other: ShortCode) { For(other.usage, other.target) }

    function Tombstone(at: Time, comment: Comment): ShortCode {
      this.(deletion := Some(Deletion(Rounded(at), comment)))
    }
  }

  type Table = map<Uuid, ShortCode>

  datatype InsertRequest = InsertRequest(
    id: Uuid, code: string, usage: Usage, target: string, data: Option<string>,
    now: Time, expiresAt: Time, overriding: bool)

  datatype InsertError = AlreadyExists | InsertUnavailable

  datatype ConsumeError = NotFound | Expired | Invalid | ConsumeUnavailable

  // ---------------------------------------------------------------------------------------
  // WHERE clauses. `clock` is the database's CURRENT_TIMESTAMP, fixed when a transaction starts.

  predicate DeletedLater(c: ShortCode, clock: Time) {
    c.deletion.Some? && c.deletion.value.at > clock
  }

  predicate OverrideHits(c: ShortCode, usage: Usage, target: string, clock: Time) {
    c.For(usage, target) && (c.Live() || DeletedLater(c, clock))
  }

  predicate ExpiryHits(c: ShortCode, usage: Usage, target: string, now: Time) {
    c.For(usage, target) && c.Live() && c.expiresAt <= now
  }

  predicate ConflictHits(c: ShortCode, usage: Usage, target: string, clock: Time) {
    c.For(usage, target) && (c.Live() || DeletedLater(c, clock)) && c.expiresAt > clock
  }

  predicate Selects(c: ShortCode, usage: Usage, target: string, clock: Time) {
    c.For(usage, target) && c.Live() && c.expiresAt > clock
  }

  predicate Deletable(c: ShortCode, clock: Time) {
    c.Live() && c.expiresAt > clock
  }

  // ---------------------------------------------------------------------------------------
  // Statements.

  /** What the insert stores, as the columns round it. */
  function NewRow(r: InsertRequest): ShortCode {
    ShortCode(r.id, r.code, r.usage, r.target, r.data, Rounded(r.now), Rounded(r.expiresAt), None)
  }

  /** The version of a row that the insert's discard statement leaves. The override path
      backdates the deletion by a second, the other path does not. */
  function Discarded(c: ShortCode, r: InsertRequest, clock: Time): ShortCode {
    if r.overriding then
      if OverrideHits(c, r.usage, r.target, clock) then c.Tombstone(r.now - SECOND, Override) else c
    else
      if ExpiryHits(c, r.usage, r.target, r.now) then c.Tombstone(r.now, ExpiredBeforeInsert) else c
  }

  function Discard(t: Table, r: InsertRequest, clock: Time): (t': Table)
    ensures t'.Keys == t.Keys
  {
    map id | id in t :: Discarded(t[id], r, clock)
  }

  function Conflicts(t: Table, usage: Usage, target: string, clock: Time): set<Uuid> {
    set id | id in t && ConflictHits(t[id], usage, target, clock)
  }

  /** The partial unique index on the pair among live rows, and the primary key. */
  predicate IndexRefuses(t: Table, r: InsertRequest) {
    r.id in t || exists id :: id in t && t[id].Live() && t[id].For(r.usage, r.target)
  }

  /** What a whole insert transaction does to the table when it runs alone: the new table, or
      nothing at all. The conflict query counts rows and only a count of exactly one is refused. */
  function Inserted(t: Table, r: InsertRequest, clock: Time): Result<Table, InsertError> {
    var cleared := Discard(t, r, clock);
    if !r.overriding && |Conflicts(cleared, r.usage, r.target, clock)| == 1 then Err(AlreadyExists)
    else if IndexRefuses(cleared, r) then Err(AlreadyExists)
    else Ok(cleared[r.id := NewRow(r)])
  }

  // ---------------------------------------------------------------------------------------
  // What every table reachable through these statements satisfies.

  predicate Keyed(t: Table) {
    forall id :: id in t ==> t[id].id == id
  }

  /** At most one live row for each pair of usage and target. */
  predicate OneLive(t: Table) {
    forall a, b :: a in t && b in t && t[a].Live() && t[b].Live() && t[a].SamePair(t[b]) ==> a == b
  }

  predicate Sound(t: Table) {
    Keyed(t) && OneLive(t)
  }

  /** The second nearest to the time, the later one of two. */
  lemma RoundedIsNearest(t: Time)
    ensures Rounded(t) % SECOND == 0 && Rounded(t) - SECOND / 2 <= t < Rounded(t) + SECOND / 2
  {
  }

  /** No row of the pair is in force and unexpired for the service. */
  ghost predicate NothingInForce(t: Table, r: InsertRequest) {
    forall id :: id in t && t[id].deletion.None? && t[id].usage == r.usage && t[id].target == r.target ==>
      t[id].expiresAt <= r.now
  }

  /** What an accepted insert leaves, row by row: the new row as it was asked for and in force; the
      live rows of the pair deleted, a second back and as overridden or, on the other path, only
      the expired ones and as expired; an overridden tombstone of the future rewritten; every other
      row as it was. */
  lemma InsertEffect(t: Table, r: InsertRequest, clock: Time)
    requires Inserted(t, r, clock).Ok?
    ensures var after := Inserted(t, r, clock).value;
            && r.id !in t && after.Keys == t.Keys + {r.id}
            && after[r.id]
               == ShortCode(r.id, r.code, r.usage, r.target, r.data, Rounded(r.now), Rounded(r.expiresAt), None)
            && forall id :: id in t ==>
                 after[id] ==
                   var c := t[id];
                   if c.usage != r.usage || c.target != r.target then c
                   else if r.overriding && (c.deletion.None? || c.deletion.value.at > clock)
                     then c.(deletion := Some(Deletion(Rounded(r.now - 1_000_000), Override)))
                   else if !r.overriding && c.deletion.None?
                     then c.(deletion := Some(Deletion(Rounded(r.now), ExpiredBeforeInsert)))
                   else c
    ensures !r.overriding ==> NothingInForce(t, r)
  {
    var cleared := Discard(t, r, clock);
    forall id | id in t && t[id].Live() && t[id].For(r.usage, r.target) && !r.overriding
      ensures t[id].expiresAt <= r.now
    {
      assert !cleared[id].Live();
    }
  }

  /** The rows of the pair that the database still takes for unexpired and for not deleted yet, once
      the expired ones have been given a deletion time of now. */
  ghost function Counted(t: Table, r: InsertRequest, clock: Time): set<Uuid> {
    set id | id in t && t[id].usage == r.usage && t[id].target == r.target && t[id].expiresAt > clock
             && clock < if t[id].deletion.Some? then t[id].deletion.value.at else Rounded(r.now)
  }

  /** When an insert is accepted, told by the rows: a fresh identifier, and on the path that does not
      override nothing of the pair in force and not exactly one row that counts as a conflict. */
  lemma InsertIsAcceptedExactly(t: Table, r: InsertRequest, clock: Time)
    ensures Inserted(t, r, clock).Ok?
            <==> r.id !in t && (r.overriding || (NothingInForce(t, r) && |Counted(t, r, clock)| != 1))
    ensures Inserted(t, r, clock).Err? ==> Inserted(t, r, clock).error == AlreadyExists
  {
    var cleared := Discard(t, r, clock);
    if r.overriding {
      OverrideInserts(t, r, clock);
    } else if NothingInForce(t, r) {
      assert Conflicts(cleared, r.usage, r.target, clock) == Counted(t, r, clock);
      assert forall id :: id in cleared && cleared[id].Live() ==> !cleared[id].For(r.usage, r.target);
    } else {
      var id :| id in t && t[id].deletion.None? && t[id].usage == r.usage && t[id].target == r.target
                && t[id].expiresAt > r.now;
      assert cleared[id] == t[id];
    }
  }

  lemma InsertedIsSound(t: Table, r: InsertRequest, clock: Time)
    requires Sound(t)
    ensures Inserted(t, r, clock).Ok? ==> Sound(Inserted(t, r, clock).value)
  {
    var cleared := Discard(t, r, clock);
    assert forall id :: id in cleared && cleared[id].Live() ==> t[id].Live() && cleared[id] == t[id];
  }

  /** Overriding clears the index, so only a duplicate identifier can be refused. */
  lemma OverrideInserts(t: Table, r: InsertRequest, clock: Time)
    requires r.overriding
    ensures Inserted(t, r, clock).Ok? <==> r.id !in t
  {
    var cleared := Discard(t, r, clock);
    assert forall id :: id in cleared && cleared[id].Live() ==> !cleared[id].For(r.usage, r.target);
  }

  // ---------------------------------------------------------------------------------------
  // Redemption.

  /** The three instants one redemption looks at: the transaction's clock in the database, and
      the service's clock when it checks the expiry and when it writes the deletion. */
  datatype Moment = Moment(db: Time, check: Time, write: Time)

  /** Whether a submitted code matches a stored hash. */
  type Matcher = (string, string) -> bool

  /** The submitted code redeems this row. */
  predicate Redeems(matches: Matcher, c: ShortCode, usage: Usage, target: string, plain: string, m: Moment) {
    Selects(c, usage, target, m.db) && c.expiresAt >= m.check && matches(plain, c.code)
  }

  ghost function Selected(t: Table, usage: Usage, target: string, clock: Time): (found: Option<Uuid>)
    ensures found.Some? ==> found.value in t && Selects(t[found.value], usage, target, clock)
    ensures found.None? ==> forall id :: id in t ==> !Selects(t[id], usage, target, clock)
  {
    if exists id :: id in t && Selects(t[id], usage, target, clock) then
      var id :| id in t && Selects(t[id], usage, target, clock);
      Some(id)
    else None
  }

  ghost function Redeemable(
    matches: Matcher, t: Table, usage: Usage, target: string, plain: string, m: Moment): (found: Option<Uuid>)
    ensures found.Some? ==> found.value in t && Redeems(matches, t[found.value], usage, target, plain, m)
    ensures found.None? ==> forall id :: id in t ==> !Redeems(matches, t[id], usage, target, plain, m)
  {
    if exists id :: id in t && Redeems(matches, t[id], usage, target, plain, m) then
      var id :| id in t && Redeems(matches, t[id], usage, target, plain, m);
      Some(id)
    else None
  }

  function Spend(t: Table, id: Uuid, now: Time): Table
    requires id in t
  {
    t[id := t[id].Tombstone(now, Consumed)]
  }

  lemma SpendIsSound(t: Table, id: Uuid, now: Time)
    requires Sound(t) && id in t
    ensures Sound(Spend(t, id, now))
  {
  }

  // ---------------------------------------------------------------------------------------
  // The audit trail. An override also rewrites a tombstone whose deletion time still lies ahead
  // of the database clock, and with it the reason the row was deleted for.

  ghost function ConsumedIds(t: Table): set<Uuid> {
    set id | id in t && t[id].deletion.Some? && t[id].deletion.value.comment == Consumed
  }

  /** A consumed row of the pair whose recorded deletion is not yet in the past. */
  ghost predicate FreshlyConsumed(t: Table, usage: Usage, target: string, clock: Time) {
    exists id ::
      id in ConsumedIds(t) && t[id].usage == usage && t[id].target == target && t[id].deletion.value.at > clock
  }

  lemma InsertKeepsAuditTrail(t: Table, r: InsertRequest, clock: Time)
    requires Inserted(t, r, clock).Ok?
    ensures ConsumedIds(Inserted(t, r, clock).value) <= ConsumedIds(t)
    ensures ConsumedIds(Inserted(t, r, clock).value) == ConsumedIds(t)
            <==> !(r.overriding && FreshlyConsumed(t, r.usage, r.target, clock))
  {
    var after := Inserted(t, r, clock).value;
    if r.overriding && FreshlyConsumed(t, r.usage, r.target, clock) {
      var id :| id in ConsumedIds(t) && t[id].For(r.usage, r.target) && DeletedLater(t[id], clock);
      assert after[id].deletion.value.comment == Override && id !in ConsumedIds(after);
    } else {
      forall id | id in ConsumedIds(t) ensures id in ConsumedIds(after) {
        assert after[id] == t[id];
      }
    }
  }

  /** One second of one clock is enough: a code is consumed, the deletion time is rounded up past
      the present, and a new code for the pair is issued a tenth of a second later. */
  lemma AuditTrailCanBeRewritten()
    ensures var c := ShortCode("a", "hash", Register, "me@example.com", None, 0, 60 * SECOND, None);
            var spent := Spend(map["a" := c], "a", 10_600_000);
            var r := InsertRequest("b", "hash", Register, "me@example.com", None, 10_700_000, 70 * SECOND, true);
            && Inserted(spent, r, 10_700_000).Ok?
            && ConsumedIds(spent) == {"a"}
            && ConsumedIds(Inserted(spent, r, 10_700_000).value) == {}
  {
    var c := ShortCode("a", "hash", Register, "me@example.com", None, 0, 60 * SECOND, None);
    var spent := Spend(map["a" := c], "a", 10_600_000);
    var r := InsertRequest("b", "hash", Register, "me@example.com", None, 10_700_000, 70 * SECOND, true);
    OverrideInserts(spent, r, 10_700_000);
    assert spent["a"].deletion == Some(Deletion(11_000_000, Consumed));
    assert "a" in ConsumedIds(spent) && DeletedLater(spent["a"], 10_700_000);
    InsertKeepsAuditTrail(spent, r, 10_700_000);
    assert ConsumedIds(spent) == {"a"};
  }
}
