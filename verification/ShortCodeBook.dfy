/** Run one operation at a time under one clock, the soft-delete table is a plain partial map from
    (usage, target) to the code in force, and this module says exactly how far that holds. */
module ShortCodeBook {
  import opened Wrappers
  import opened Claims
  import opened ShortCodes

  datatype Entry = Entry(hash: string, data: Option<string>, expiresAt: Time)

  type Book = map<(Usage, string), Entry>

  function EntryOf(c: ShortCode): Entry {
    Entry(c.code, c.data, c.expiresAt)
  }

  function KeyOf(c: ShortCode): (Usage, string) {
    (c.usage, c.target)
  }

  ghost predicate HasLive(t: Table, key: (Usage, string)) {
    exists id :: id in t && t[id].Live() && KeyOf(t[id]) == key
  }

  /** The map holds the live rows, all of them and nothing else: the tombstones are forgotten. */
  ghost predicate Mirrors(t: Table, b: Book) {
    && (forall id :: id in t && t[id].Live() ==> KeyOf(t[id]) in b && b[KeyOf(t[id])] == EntryOf(t[id]))
    && (forall key {:trigger HasLive(t, key)} :: key in b <==> HasLive(t, key))
  }

  /** A sound table has exactly one such map. */
  lemma MirrorIsUnique(t: Table, first: Book, second: Book)
    requires Mirrors(t, first) && Mirrors(t, second)
    ensures first == second
  {
    forall key | key in first ensures key in second && first[key] == second[key] {
      assert HasLive(t, key);
    }
    forall key | key in second ensures key in first {
      assert HasLive(t, key);
    }
  }

  datatype Op = Issue(r: InsertRequest) | Redeem(usage: Usage, target: string, plain: string, now: Time)

  datatype Answer = Issued | Taken | Redeemed(data: Option<string>) | Unknown | WrongCode

  predicate Accepts(b: Book, r: InsertRequest) {
    r.overriding || (r.usage, r.target) !in b || b[(r.usage, r.target)].expiresAt <= r.now
  }

  /** Override is put, plain insert is put-if-absent-or-expired, redeem is
      remove-if-unexpired-and-matching. */
  function BookStep(matches: Matcher, b: Book, op: Op): (Book, Answer) {
    match op
    case Issue(r) =>
      if !Accepts(b, r) then (b, Taken)
      else (b[(r.usage, r.target) := Entry(r.code, r.data, Rounded(r.expiresAt))], Issued)
    case Redeem(usage, target, plain, now) =>
      var key := (usage, target);
      if key !in b || b[key].expiresAt <= now then (b, Unknown)
      else if !matches(plain, b[key].hash) then (b, WrongCode)
      else (b - {key}, Redeemed(b[key].data))
  }

  ghost function TableStep(matches: Matcher, t: Table, op: Op): (Table, Answer) {
    match op
    case Issue(r) =>
      (match Inserted(t, r, r.now)
       case Ok(t') => (t', Issued)
       case Err(_) => (t, Taken))
    case Redeem(usage, target, plain, now) =>
      if !exists id :: id in t && Selects(t[id], usage, target, now) then (t, Unknown)
      else match Redeemable(matches, t, usage, target, plain, Moment(now, now, now))
        case None => (t, WrongCode)
        case Some(id) => (Spend(t, id, now), Redeemed(t[id].data))
  }

  /** Tombstones of the pair that the conflict query still counts. */
  function Lingering(t: Table, usage: Usage, target: string, now: Time): set<Uuid> {
    set id | id in t && t[id].usage == usage && t[id].target == target && t[id].expiresAt > now
             && t[id].deletion.Some? && t[id].deletion.value.at > now
  }

  /** Only a deletion written less than half a second ago can linger. */
  lemma LingeringIsRecent(written: Time, now: Time)
    ensures Rounded(written) > now ==> now - written < SECOND / 2
    ensures Rounded(written - SECOND) <= written
  {
  }

  /** The table refuses what the map accepts: a reused identifier, or exactly one lingering
      tombstone under a plain insert. */
  ghost predicate Snags(t: Table, b: Book, op: Op) {
    && op.Issue? && Accepts(b, op.r)
    && (op.r.id in t || (!op.r.overriding && |Lingering(t, op.r.usage, op.r.target, op.r.now)| == 1))
  }

  lemma IssueAgrees(t: Table, b: Book, r: InsertRequest)
    requires Sound(t) && Mirrors(t, b)
    ensures Inserted(t, r, r.now).Ok? <==> Accepts(b, r) && !Snags(t, b, Issue(r))
  {
    var key := (r.usage, r.target);
    var cleared := Discard(t, r, r.now);
    assert HasLive(t, key) <==> key in b;
    if r.overriding {
      OverrideInserts(t, r, r.now);
    } else if !Accepts(b, r) {
      var id :| id in t && t[id].Live() && KeyOf(t[id]) == key;
      assert cleared[id] == t[id];
    } else {
      assert Conflicts(cleared, r.usage, r.target, r.now) == Lingering(t, r.usage, r.target, r.now);
      assert forall id :: id in cleared && cleared[id].Live() ==> !cleared[id].For(r.usage, r.target);
    }
  }

  lemma IssuePuts(t: Table, b: Book, r: InsertRequest)
    requires Sound(t) && Mirrors(t, b) && Inserted(t, r, r.now).Ok?
    ensures Mirrors(Inserted(t, r, r.now).value, b[(r.usage, r.target) := Entry(r.code, r.data, Rounded(r.expiresAt))])
  {
    var t' := Inserted(t, r, r.now).value;
    var mine := (r.usage, r.target);
    assert t'[r.id] == NewRow(r);
    forall id | id in t && id != r.id ensures
      && (t'[id].Live() ==> t'[id] == t[id] && KeyOf(t[id]) != mine)
      && (t[id].Live() && KeyOf(t[id]) != mine ==> t'[id] == t[id])
    {
    }
    forall key | key != mine ensures HasLive(t', key) <==> HasLive(t, key) {
      if HasLive(t, key) {
        var id :| id in t && t[id].Live() && KeyOf(t[id]) == key;
        assert t'[id] == t[id];
      }
    }
    assert HasLive(t', mine);
  }

  lemma SpendRemoves(t: Table, b: Book, id: Uuid, now: Time)
    requires Sound(t) && Mirrors(t, b) && id in t && t[id].Live()
    ensures Mirrors(Spend(t, id, now), b - {KeyOf(t[id])})
  {
    var mine := KeyOf(t[id]);
    var t' := Spend(t, id, now);
    forall key | key != mine ensures HasLive(t', key) <==> HasLive(t, key) {
      if HasLive(t, key) {
        var other :| other in t && t[other].Live() && KeyOf(t[other]) == key;
        assert t'[other] == t[other];
      }
    }
    assert !HasLive(t', mine);
    forall other | other in t' && t'[other].Live() ensures KeyOf(t'[other]) in b - {mine} {
      assert t'[other] == t[other];
    }
  }

  lemma RedeemRemoves(matches: Matcher, t: Table, b: Book, op: Op)
    requires Sound(t) && Mirrors(t, b) && op.Redeem?
    ensures TableStep(matches, t, op).1 == BookStep(matches, b, op).1
    ensures Sound(TableStep(matches, t, op).0)
    ensures Mirrors(TableStep(matches, t, op).0, BookStep(matches, b, op).0)
  {
    assert HasLive(t, (op.usage, op.target)) <==> (op.usage, op.target) in b;
    if active :| active in t && Selects(t[active], op.usage, op.target, op.now) {
      var found := Redeemable(matches, t, op.usage, op.target, op.plain, Moment(op.now, op.now, op.now));
      assert KeyOf(t[active]) == (op.usage, op.target);
      assert found.Some? ==> found.value == active;
      assert found.Some? <==> matches(op.plain, t[active].code) by {
        assert Redeems(matches, t[active], op.usage, op.target, op.plain, Moment(op.now, op.now, op.now))
               <==> matches(op.plain, t[active].code);
      }
      SpendRemoves(t, b, active, op.now);
      SpendIsSound(t, active, op.now);
    }
  }

  /** One operation: table and map answer alike exactly when it does not snag, and then they are
      still in step. */
  lemma StepAgrees(matches: Matcher, t: Table, b: Book, op: Op)
    requires Sound(t) && Mirrors(t, b)
    ensures Sound(TableStep(matches, t, op).0)
    ensures TableStep(matches, t, op).1 == BookStep(matches, b, op).1 <==> !Snags(t, b, op)
    ensures !Snags(t, b, op) ==> Mirrors(TableStep(matches, t, op).0, BookStep(matches, b, op).0)
  {
    match op
    case Issue(r) =>
      IssueAgrees(t, b, r);
      InsertedIsSound(t, r, r.now);
      if Inserted(t, r, r.now).Ok? { IssuePuts(t, b, r); }
    case Redeem(_, _, _, _) =>
      RedeemRemoves(matches, t, b, op);
  }

  // ---------------------------------------------------------------------------------------
  // Every sequence of operations.

  ghost function TableAnswers(matches: Matcher, t: Table, ops: seq<Op>): seq<Answer>
    decreases |ops|
  {
    if ops == [] then []
    else [TableStep(matches, t, ops[0]).1] + TableAnswers(matches, TableStep(matches, t, ops[0]).0, ops[1..])
  }

  function BookAnswers(matches: Matcher, b: Book, ops: seq<Op>): seq<Answer>
    decreases |ops|
  {
    if ops == [] then []
    else [BookStep(matches, b, ops[0]).1] + BookAnswers(matches, BookStep(matches, b, ops[0]).0, ops[1..])
  }

  ghost predicate NeverSnags(matches: Matcher, t: Table, b: Book, ops: seq<Op>)
    decreases |ops|
  {
    ops == []
    || (!Snags(t, b, ops[0])
        && NeverSnags(matches, TableStep(matches, t, ops[0]).0, BookStep(matches, b, ops[0]).0, ops[1..]))
  }

  /** Every answer of every run agrees with the map, if and only if no operation snags. */
  lemma {:induction false} TableRefinesBook(matches: Matcher, t: Table, b: Book, ops: seq<Op>)
    requires Sound(t) && Mirrors(t, b)
    ensures TableAnswers(matches, t, ops) == BookAnswers(matches, b, ops) <==> NeverSnags(matches, t, b, ops)
    decreases |ops|
  {
    if ops != [] {
      StepAgrees(matches, t, b, ops[0]);
      var (t', fromTable) := TableStep(matches, t, ops[0]);
      var (b', fromBook) := BookStep(matches, b, ops[0]);
      if !Snags(t, b, ops[0]) {
        TableRefinesBook(matches, t', b', ops[1..]);
      }
      SameHeadSameTail(fromTable, TableAnswers(matches, t', ops[1..]), fromBook, BookAnswers(matches, b', ops[1..]));
    }
  }

  lemma SameHeadSameTail(a: Answer, restA: seq<Answer>, b: Answer, restB: seq<Answer>)
    ensures [a] + restA == [b] + restB <==> a == b && restA == restB
  {
    assert ([a] + restA)[0] == a && ([a] + restA)[1..] == restA;
    assert ([b] + restB)[0] == b && ([b] + restB)[1..] == restB;
  }

  // ---------------------------------------------------------------------------------------
  // How many tombstones can linger.

  ghost function TableAfter(matches: Matcher, t: Table, ops: seq<Op>): Table
    decreases |ops|
  {
    if ops == [] then t else TableAfter(matches, TableStep(matches, t, ops[0]).0, ops[1..])
  }

  function TimeOf(op: Op): Time {
    match op
    case Issue(r) => r.now
    case Redeem(_, _, _, now) => now
  }

  /** The clock of the operations never goes back. */
  predicate Chronological(ops: seq<Op>, from: Time)
    decreases |ops|
  {
    ops == [] || (from <= TimeOf(ops[0]) && Chronological(ops[1..], TimeOf(ops[0])))
  }

  function LastTime(ops: seq<Op>, from: Time): Time {
    if ops == [] then from else TimeOf(ops[|ops| - 1])
  }

  predicate Lingers(c: ShortCode, now: Time) {
    c.deletion.Some? && c.deletion.value.at > now && c.expiresAt > now
  }

  /** A lingering tombstone has its pair to itself. */
  ghost predicate LingersAlone(t: Table, now: Time) {
    forall a, b ::
      (a in t && b in t && Lingers(t[a], now) && (t[b].Live() || Lingers(t[b], now)) && t[a].SamePair(t[b])) ==> a == b
  }

  lemma IssueLingersAlone(t: Table, r: InsertRequest)
    requires Sound(t) && LingersAlone(t, r.now) && Inserted(t, r, r.now).Ok?
    ensures LingersAlone(Inserted(t, r, r.now).value, r.now)
  {
    var t' := Inserted(t, r, r.now).value;
    var cleared := Discard(t, r, r.now);
    forall a | a in t && Lingers(cleared[a], r.now) ensures cleared[a] == t[a] && !t[a].For(r.usage, r.target) {
      LingeringIsRecent(r.now, r.now);
      if t[a].For(r.usage, r.target) {
        assert cleared[a] == t[a] && !r.overriding;
        var counted := Conflicts(cleared, r.usage, r.target, r.now);
        forall x | x in counted ensures x == a {
          assert cleared[x] == t[x];
        }
        assert a in counted;
        AtMostOne(counted);
        assert false;
      }
    }
    assert t'[r.id] == NewRow(r);
  }

  lemma StepLingersAlone(matches: Matcher, t: Table, op: Op, from: Time)
    requires Sound(t) && LingersAlone(t, from) && from <= TimeOf(op)
    ensures LingersAlone(TableStep(matches, t, op).0, TimeOf(op))
    ensures Sound(TableStep(matches, t, op).0)
  {
    assert LingersAlone(t, TimeOf(op));
    match op
    case Issue(r) =>
      InsertedIsSound(t, r, r.now);
      if Inserted(t, r, r.now).Ok? { IssueLingersAlone(t, r); }
    case Redeem(usage, target, plain, now) =>
      var found := Redeemable(matches, t, usage, target, plain, Moment(now, now, now));
      if found.Some? { SpendIsSound(t, found.value, now); }
  }

  lemma {:induction false} RunLingersAlone(matches: Matcher, t: Table, ops: seq<Op>, from: Time)
    requires Sound(t) && LingersAlone(t, from) && Chronological(ops, from)
    ensures LingersAlone(TableAfter(matches, t, ops), LastTime(ops, from)) && Sound(TableAfter(matches, t, ops))
    decreases |ops|
  {
    if ops != [] {
      StepLingersAlone(matches, t, ops[0], from);
      RunLingersAlone(matches, TableStep(matches, t, ops[0]).0, ops[1..], TimeOf(ops[0]));
    }
  }

  /** Under one clock that never goes back, no pair ever has two lingering tombstones, and one that
      lingers leaves the pair without a code in force: the conflict count is never above one. */
  lemma AtMostOneLingers(matches: Matcher, ops: seq<Op>, from: Time, usage: Usage, target: string, now: Time)
    requires Chronological(ops, from) && LastTime(ops, from) <= now
    ensures var t := TableAfter(matches, map[], ops);
            && |Lingering(t, usage, target, now)| <= 1
            && |Conflicts(t, usage, target, now)| <= 1
  {
    RunLingersAlone(matches, map[], ops, from);
    var t := TableAfter(matches, map[], ops);
    assert LingersAlone(t, now);
    AtMostOne(Lingering(t, usage, target, now));
    AtMostOne(Conflicts(t, usage, target, now));
  }

  lemma AtMostOne(ids: set<Uuid>)
    requires forall a, b :: a in ids && b in ids ==> a == b
    ensures |ids| <= 1
  {
    if ids != {} {
      var a :| a in ids;
      assert ids == {a};
    }
  }

  const PAIR := (Register, "me@example.com")

  function PlainIssue(id: Uuid, hash: string, now: Time, expiry: Time): InsertRequest {
    InsertRequest(id, hash, Register, "me@example.com", None, now, expiry, false)
  }

  lemma FirstIssueThenRedeem(matches: Matcher, plain: string, hash: string) returns (spent: Table)
    requires matches(plain, hash)
    ensures var issued := TableStep(matches, map[], Issue(PlainIssue("a", hash, 0, 60 * SECOND))).0;
            spent == TableStep(matches, issued, Redeem(Register, "me@example.com", plain, 10_600_000)).0
    ensures "a" in spent && spent.Keys == {"a"} && spent["a"].For(Register, "me@example.com")
    ensures spent["a"].expiresAt == 60 * SECOND && spent["a"].deletion == Some(Deletion(11 * SECOND, Consumed))
  {
    var r := PlainIssue("a", hash, 0, 60 * SECOND);
    assert Discard(map[], r, 0) == map[] && Conflicts(map[], Register, "me@example.com", 0) == {};
    var issued := TableStep(matches, map[], Issue(r)).0;
    assert issued == map["a" := NewRow(r)];
    assert Selects(issued["a"], Register, "me@example.com", 10_600_000);
    assert Redeems(matches, issued["a"], Register, "me@example.com", plain, Moment(10_600_000, 10_600_000, 10_600_000));
    spent := TableStep(matches, issued, Redeem(Register, "me@example.com", plain, 10_600_000)).0;
    assert spent == Spend(issued, "a", 10_600_000);
  }

  lemma BookIssueThenRedeem(matches: Matcher, plain: string, hash: string) returns (held: Book)
    requires matches(plain, hash)
    ensures held == BookStep(matches, map[], Issue(PlainIssue("a", hash, 0, 60 * SECOND))).0
    ensures BookStep(matches, map[], Issue(PlainIssue("a", hash, 0, 60 * SECOND))).1 == Issued
    ensures BookStep(matches, held, Redeem(Register, "me@example.com", plain, 10_600_000)) == (map[], Redeemed(None))
  {
    var (book, answer) := BookStep(matches, map[], Issue(PlainIssue("a", hash, 0, 60 * SECOND)));
    held := book;
    assert held == map[PAIR := Entry(hash, None, 60 * SECOND)] && held - {PAIR} == map[];
  }

  /** It does happen under one clock: a code redeemed at 10.6 s is dated 11 s, so a plain insert for
      the pair at 10.7 s is refused although nothing is in force. */
  lemma SnagsAfterRedemption(matches: Matcher, plain: string, hash: string)
    requires matches(plain, hash)
    ensures !NeverSnags(matches, map[], map[],
              [Issue(PlainIssue("a", hash, 0, 60 * SECOND)), Redeem(Register, "me@example.com", plain, 10_600_000),
               Issue(PlainIssue("b", hash, 10_700_000, 70 * SECOND))])
  {
    var first, redeem, last := Issue(PlainIssue("a", hash, 0, 60 * SECOND)),
      Redeem(Register, "me@example.com", plain, 10_600_000), Issue(PlainIssue("b", hash, 10_700_000, 70 * SECOND));
    var ops := [first, redeem, last];
    assert ops[1..] == [redeem, last] && [redeem, last][1..] == [last];
    var spent := FirstIssueThenRedeem(matches, plain, hash);
    var held := BookIssueThenRedeem(matches, plain, hash);
    assert Lingering(spent, Register, "me@example.com", 10_700_000) == {"a"};
    assert Snags(spent, map[], last) && !NeverSnags(matches, spent, map[], [last]);
    assert !NeverSnags(matches, TableStep(matches, map[], first).0, held, [redeem, last]);
  }

  function SpentRow(id: Uuid, at: Time): ShortCode {
    ShortCode(id, "hash", Register, "me@example.com", None, 0, 60 * SECOND, Some(Deletion(at, Consumed)))
  }

  /** A clock that goes back brings a second one into play, and a count of two is let through: with
      two codes redeemed and dated 11 s and 13 s, a plain insert is refused at 12 s but not at 9 s. */
  lemma TwoLingerWhenClockGoesBack()
    ensures var t: Table := map["a" := SpentRow("a", 11 * SECOND), "b" := SpentRow("b", 13 * SECOND)];
            && Lingering(t, Register, "me@example.com", 12 * SECOND) == {"b"}
            && Inserted(t, PlainIssue("c", "hash", 12 * SECOND, 60 * SECOND), 12 * SECOND).Err?
            && Lingering(t, Register, "me@example.com", 9 * SECOND) == {"a", "b"}
            && Inserted(t, PlainIssue("c", "hash", 9 * SECOND, 60 * SECOND), 9 * SECOND).Ok?
  {
    var t: Table := map["a" := SpentRow("a", 11 * SECOND), "b" := SpentRow("b", 13 * SECOND)];
    var early := PlainIssue("c", "hash", 9 * SECOND, 60 * SECOND);
    var late := PlainIssue("c", "hash", 12 * SECOND, 60 * SECOND);
    assert Discard(t, early, 9 * SECOND) == t && Discard(t, late, 12 * SECOND) == t;
    assert Conflicts(t, Register, "me@example.com", 9 * SECOND) == {"a", "b"};
    assert Conflicts(t, Register, "me@example.com", 12 * SECOND) == {"b"};
  }
}
