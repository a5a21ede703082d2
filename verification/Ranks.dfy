/** Role updates and the rank hierarchy: one update, runs of updates taken one at a time, and
    updates whose two reads and one write interleave with those of others. */
module Ranks {
  import opened Wrappers
  import opened Claims
  import opened Authorization

  datatype RoleRefusal =
    | InvalidRequest
    | SelfUpdate
    | AccountNotFound
    | UnknownStoredRole(name: string)
    | ToHigher
    | DowngradeSuperior

  datatype RoleVerdict = NoChange | Write

  /** The guards of an update, on the roles that were read for the target and for the actor. */
  function Judge(
    roles: Roles, wanted: string, targetRole: string, actorRole: string): Result<RoleVerdict, RoleRefusal>
  {
    match Priority(roles, wanted)
    case Err(_) => Err(InvalidRequest)
    case Ok(next) =>
      match Priority(roles, targetRole)
      case Err(UnknownRole(name)) => Err(UnknownStoredRole(name))
      case Ok(held) =>
        match Priority(roles, actorRole)
        case Err(UnknownRole(name)) => Err(UnknownStoredRole(name))
        case Ok(own) =>
          if next >= held && next > own then Err(ToHigher)
          else if next <= held && held >= own then Err(DowngradeSuperior)
          else if next == held then Ok(NoChange)
          else Ok(Write)
  }

  predicate RankedAt(roles: Roles, name: string, rank: int) {
    Priority(roles, name) == Ok(rank)
  }

  /** The two guards together: the actor outranks the target and is not outranked by the new role. */
  lemma JudgeIsOutranking(
    roles: Roles, wanted: string, targetRole: string, actorRole: string, next: int, held: int, own: int)
    requires RankedAt(roles, wanted, next) && RankedAt(roles, targetRole, held) && RankedAt(roles, actorRole, own)
    ensures Judge(roles, wanted, targetRole, actorRole).Ok? <==> held < own && next <= own
    ensures Judge(roles, wanted, targetRole, actorRole) == Ok(Write) <==> held < own && next <= own && next != held
    ensures Judge(roles, wanted, targetRole, actorRole) == Err(ToHigher) <==> next > own && next >= held
    ensures Judge(roles, wanted, targetRole, actorRole) == Err(DowngradeSuperior)
            <==> held >= own && next <= held && !(next > own && next >= held)
    ensures Judge(roles, wanted, targetRole, actorRole) == Ok(NoChange) <==> held < own && next == held
  {
  }

  /** Who holds which role. */
  type Holders = map<Uuid, string>

  datatype RoleUpdate = RoleUpdate(actor: Uuid, target: Uuid, wanted: string)

  /** The role the target holds after the update, or why nothing happens. */
  function Decide(roles: Roles, holders: Holders, u: RoleUpdate): Result<string, RoleRefusal> {
    if u.wanted !in roles then Err(InvalidRequest)
    else if u.actor == u.target then Err(SelfUpdate)
    else if u.target !in holders || u.actor !in holders then Err(AccountNotFound)
    else match Judge(roles, u.wanted, holders[u.target], holders[u.actor])
      case Err(e) => Err(e)
      case Ok(NoChange) => Ok(holders[u.target])
      case Ok(Write) => Ok(u.wanted)
  }

  function After(roles: Roles, holders: Holders, u: RoleUpdate): (after: Holders)
    ensures after.Keys == holders.Keys
  {
    match Decide(roles, holders, u)
    case Ok(role) => holders[u.target := role]
    case Err(_) => holders
  }

  function AfterAll(roles: Roles, holders: Holders, updates: seq<RoleUpdate>): (after: Holders)
    ensures after.Keys == holders.Keys
    decreases |updates|
  {
    if updates == [] then holders else AfterAll(roles, After(roles, holders, updates[0]), updates[1..])
  }

  ghost predicate NobodyAbove(roles: Roles, holders: Holders, rank: int) {
    forall id :: id in holders && holders[id] in roles ==> roles[holders[id]].priority <= rank
  }

  /** Every accepted update is one by an account that outranks the target, to a rank it holds itself. */
  lemma UpdateNeedsOutranking(roles: Roles, holders: Holders, u: RoleUpdate)
    requires Decide(roles, holders, u).Ok?
    ensures u.actor != u.target && u.target in holders && u.actor in holders
    ensures exists held, own, next :: RankedAt(roles, holders[u.target], held) && RankedAt(roles, holders[u.actor], own)
                                      && RankedAt(roles, u.wanted, next) && held < own && next <= own
  {
    var held, own := Priority(roles, holders[u.target]), Priority(roles, holders[u.actor]);
    var next := Priority(roles, u.wanted);
    JudgeIsOutranking(roles, u.wanted, holders[u.target], holders[u.actor], next.value, held.value, own.value);
    assert RankedAt(roles, holders[u.target], held.value) && RankedAt(roles, holders[u.actor], own.value)
           && RankedAt(roles, u.wanted, next.value);
  }

  /** A stored role that is configured. */
  predicate Ranked(roles: Roles, holders: Holders, id: Uuid) {
    id in holders && holders[id] in roles
  }

  /** One update, in terms of configured priorities alone: it is accepted exactly when a different,
      ranked account outranks the ranked target and is not outranked by the wanted role, and then the
      target holds the wanted role, or keeps its own when the ranks are the same. */
  lemma UpdateIsExact(roles: Roles, holders: Holders, u: RoleUpdate)
    ensures Decide(roles, holders, u).Ok?
            <==> && u.wanted in roles && u.actor != u.target
                 && Ranked(roles, holders, u.target) && Ranked(roles, holders, u.actor)
                 && roles[holders[u.target]].priority < roles[holders[u.actor]].priority
                 && roles[u.wanted].priority <= roles[holders[u.actor]].priority
    ensures Decide(roles, holders, u).Ok? ==>
              After(roles, holders, u)
              == if roles[u.wanted].priority == roles[holders[u.target]].priority then holders
                 else holders[u.target := u.wanted]
    ensures Decide(roles, holders, u).Err? ==> After(roles, holders, u) == holders
  {
  }

  /** Why an update is refused. */
  lemma UpdateRefusalIsNamed(roles: Roles, holders: Holders, u: RoleUpdate)
    requires Decide(roles, holders, u).Err?
    ensures match Decide(roles, holders, u).error
            case InvalidRequest => u.wanted !in roles
            case SelfUpdate => u.wanted in roles && u.actor == u.target
            case AccountNotFound =>
              u.wanted in roles && u.actor != u.target && (u.target !in holders || u.actor !in holders)
            case UnknownStoredRole(name) =>
              && u.target in holders && u.actor in holders && name !in roles
              && name == if holders[u.target] in roles then holders[u.actor] else holders[u.target]
            case ToHigher =>
              && Ranked(roles, holders, u.target) && Ranked(roles, holders, u.actor) && u.wanted in roles
              && roles[u.wanted].priority > roles[holders[u.actor]].priority
              && roles[u.wanted].priority >= roles[holders[u.target]].priority
            case DowngradeSuperior =>
              && Ranked(roles, holders, u.target) && Ranked(roles, holders, u.actor) && u.wanted in roles
              && roles[u.wanted].priority <= roles[holders[u.target]].priority
              && roles[holders[u.target]].priority >= roles[holders[u.actor]].priority
  {
  }

  lemma UpdateRespectsTop(roles: Roles, holders: Holders, u: RoleUpdate, top: int)
    requires NobodyAbove(roles, holders, top)
    ensures NobodyAbove(roles, After(roles, holders, u), top)
    ensures forall id :: id in holders && RankedAt(roles, holders[id], top) ==>
              After(roles, holders, u)[id] == holders[id]
  {
    if Decide(roles, holders, u).Ok? {
      UpdateNeedsOutranking(roles, holders, u);
    }
  }

  /** No run of updates creates a rank above the highest one held at its start, and whoever holds
      that rank keeps the very same role throughout. */
  lemma {:induction false} RunRespectsTop(roles: Roles, holders: Holders, updates: seq<RoleUpdate>, top: int)
    requires NobodyAbove(roles, holders, top)
    ensures NobodyAbove(roles, AfterAll(roles, holders, updates), top)
    ensures forall id :: id in holders && RankedAt(roles, holders[id], top) ==>
              AfterAll(roles, holders, updates)[id] == holders[id]
    decreases |updates|
  {
    if updates != [] {
      UpdateRespectsTop(roles, holders, updates[0], top);
      RunRespectsTop(roles, After(roles, holders, updates[0]), updates[1..], top);
    }
  }

  // ---------------------------------------------------------------------------------------
  // The update runs in no transaction: its reads and its write are three separate statements.

  datatype Stage = Asked | TargetRead(role: string) | Approved(role: string) | Closed

  datatype Pending = Pending(update: RoleUpdate, stage: Stage)

  datatype Race = Race(holders: Holders, pending: map<nat, Pending>)

  datatype Statement = Ask(u: RoleUpdate) | ReadTarget | ReadActor | WriteRole

  predicate CanRun(race: Race, t: nat, st: Statement) {
    match st
    case Ask(_) => t !in race.pending
    case ReadTarget => t in race.pending && race.pending[t].stage == Asked
    case ReadActor => t in race.pending && race.pending[t].stage.TargetRead?
    case WriteRole => t in race.pending && race.pending[t].stage.Approved?
  }

  function RunStatement(roles: Roles, race: Race, t: nat, st: Statement): Race
    requires CanRun(race, t, st)
  {
    match st
    case Ask(u) =>
      var stage := if u.wanted !in roles || u.actor == u.target then Closed else Asked;
      race.(pending := race.pending[t := Pending(u, stage)])
    case ReadTarget =>
      var p := race.pending[t];
      race.(pending := race.pending[t := p.(stage :=
        if p.update.target in race.holders then TargetRead(race.holders[p.update.target]) else Closed)])
    case ReadActor =>
      var p := race.pending[t];
      race.(pending := race.pending[t := p.(stage :=
        if p.update.actor in race.holders
           && Judge(roles, p.update.wanted, p.stage.role, race.holders[p.update.actor]) == Ok(Write)
        then Approved(p.stage.role) else Closed)])
    case WriteRole =>
      var u := race.pending[t].update;
      Race(if u.target in race.holders then race.holders[u.target := u.wanted] else race.holders,
           race.pending[t := race.pending[t].(stage := Closed)])
  }

  /** An update whose statements run together, undisturbed by the rest of the race, does what one
      update does: it can always take its next statement, and leaves the holders it should. */
  lemma AloneIsOneUpdate(roles: Roles, race: Race, t: nat, u: RoleUpdate) returns (end: Race)
    requires t !in race.pending
    ensures end.holders == After(roles, race.holders, u)
    ensures t in end.pending && end.pending[t] == Pending(u, Closed) && end.pending - {t} == race.pending - {t}
    ensures var asked := RunStatement(roles, race, t, Ask(u));
            || end == asked
            || (CanRun(asked, t, ReadTarget)
                && var target := RunStatement(roles, asked, t, ReadTarget);
                   || end == target
                   || (CanRun(target, t, ReadActor)
                       && var actor := RunStatement(roles, target, t, ReadActor);
                          || end == actor
                          || (CanRun(actor, t, WriteRole) && end == RunStatement(roles, actor, t, WriteRole))))
  {
    end := RunStatement(roles, race, t, Ask(u));
    if end.pending[t].stage == Asked { end := RunStatement(roles, end, t, ReadTarget); }
    if end.pending[t].stage.TargetRead? { end := RunStatement(roles, end, t, ReadActor); }
    if end.pending[t].stage.Approved? { end := RunStatement(roles, end, t, WriteRole); }
    UpdateIsExact(roles, race.holders, u);
  }

  ghost predicate RaceBelow(roles: Roles, race: Race, top: int) {
    && NobodyAbove(roles, race.holders, top)
    && forall t :: t in race.pending && race.pending[t].stage.Approved? ==>
         && race.pending[t].update.wanted in roles && roles[race.pending[t].update.wanted].priority <= top
         && race.pending[t].stage.role in roles && roles[race.pending[t].stage.role].priority < top
  }

  /** However the statements interleave, no rank above the initial maximum is ever written. */
  lemma InterleavingRespectsBound(roles: Roles, race: Race, t: nat, st: Statement, top: int)
    requires CanRun(race, t, st) && RaceBelow(roles, race, top)
    ensures RaceBelow(roles, RunStatement(roles, race, t, st), top)
  {
    if st.ReadActor? && race.pending[t].update.actor in race.holders {
      var p := race.pending[t];
      var next, held, own := Priority(roles, p.update.wanted), Priority(roles, p.stage.role),
                             Priority(roles, race.holders[p.update.actor]);
      if next.Ok? && held.Ok? && own.Ok? {
        JudgeIsOutranking(roles, p.update.wanted, p.stage.role, race.holders[p.update.actor],
                          next.value, held.value, own.value);
      }
    }
  }

  ghost predicate Interleaves(roles: Roles, races: seq<Race>, who: seq<nat>, what: seq<Statement>) {
    && |races| == |who| + 1 == |what| + 1
    && forall i :: 0 <= i < |who| ==>
         CanRun(races[i], who[i], what[i]) && races[i + 1] == RunStatement(roles, races[i], who[i], what[i])
  }

  lemma {:induction false} EveryInterleavingRespectsBound(
    roles: Roles, races: seq<Race>, who: seq<nat>, what: seq<Statement>, top: int, i: nat)
    requires Interleaves(roles, races, who, what) && i < |races|
    requires races[0].pending == map[] && NobodyAbove(roles, races[0].holders, top)
    ensures NobodyAbove(roles, races[i].holders, top) && RaceBelow(roles, races[i], top)
  {
    if i > 0 {
      EveryInterleavingRespectsBound(roles, races, who, what, top, i - 1);
      InterleavingRespectsBound(roles, races[i - 1], who[i - 1], what[i - 1], top);
    }
  }

  /** The write finds another role on the target than the one its guards looked at. */
  predicate IsStale(race: Race, t: nat, st: Statement)
    requires CanRun(race, t, st)
  {
    st.WriteRole? && race.pending[t].update.target in race.holders
    && race.holders[race.pending[t].update.target] != race.pending[t].stage.role
  }

  /** The write replaces a role of the highest rank. */
  predicate OvertakesTop(roles: Roles, race: Race, t: nat, st: Statement, top: int)
    requires CanRun(race, t, st)
  {
    st.WriteRole? && race.pending[t].update.target in race.holders
    && RankedAt(roles, race.holders[race.pending[t].update.target], top)
    && race.holders[race.pending[t].update.target] != race.pending[t].update.wanted
  }

  ghost predicate KeepsTop(roles: Roles, before: Holders, after: Holders, top: int) {
    forall id :: id in before && RankedAt(roles, before[id], top) ==> id in after && after[id] == before[id]
  }

  /** A statement takes the role of a holder of the highest rank if and only if it is a write whose
      target has reached that rank, and such a write is always stale. */
  lemma OnlyStaleWritesReachTop(roles: Roles, race: Race, t: nat, st: Statement, top: int)
    requires CanRun(race, t, st) && RaceBelow(roles, race, top)
    ensures KeepsTop(roles, race.holders, RunStatement(roles, race, t, st).holders, top)
            <==> !OvertakesTop(roles, race, t, st, top)
    ensures OvertakesTop(roles, race, t, st, top) ==> IsStale(race, t, st)
  {
    if OvertakesTop(roles, race, t, st, top) {
      var target := race.pending[t].update.target;
      assert RunStatement(roles, race, t, st).holders[target] != race.holders[target];
    }
  }

  ghost predicate FromRest(
    roles: Roles, races: seq<Race>, who: seq<nat>, what: seq<Statement>, top: int)
  {
    && Interleaves(roles, races, who, what)
    && races[0].pending == map[] && NobodyAbove(roles, races[0].holders, top)
  }

  ghost predicate KeepsTopBetween(roles: Roles, races: seq<Race>, top: int, i: nat, j: nat)
    requires i <= j < |races|
  {
    KeepsTop(roles, races[i].holders, races[j].holders, top)
  }

  ghost predicate OvertakesTopAt(
    roles: Roles, races: seq<Race>, who: seq<nat>, what: seq<Statement>, top: int, k: nat)
    requires Interleaves(roles, races, who, what) && k < |who|
  {
    OvertakesTop(roles, races[k], who[k], what[k], top)
  }

  lemma {:induction false} TopKeptBetween(
    roles: Roles, races: seq<Race>, who: seq<nat>, what: seq<Statement>, top: int, i: nat, j: nat)
    requires FromRest(roles, races, who, what, top) && i <= j < |races|
    requires forall k :: i <= k < j ==> !OvertakesTopAt(roles, races, who, what, top, k)
    ensures KeepsTopBetween(roles, races, top, i, j)
    decreases j
  {
    if i < j {
      TopKeptBetween(roles, races, who, what, top, i, j - 1);
      EveryInterleavingRespectsBound(roles, races, who, what, top, j - 1);
      assert !OvertakesTopAt(roles, races, who, what, top, j - 1);
      OnlyStaleWritesReachTop(roles, races[j - 1], who[j - 1], what[j - 1], top);
    }
  }

  /** The holders of the highest rank keep their role throughout an interleaving if and only if no
      write of it overtakes one. */
  lemma TopKeptExactly(roles: Roles, races: seq<Race>, who: seq<nat>, what: seq<Statement>, top: int)
    requires FromRest(roles, races, who, what, top)
    ensures (forall i: nat, j: nat :: i <= j < |races| ==> KeepsTopBetween(roles, races, top, i, j))
            <==> (forall k: nat :: k < |who| ==> !OvertakesTopAt(roles, races, who, what, top, k))
  {
    if forall k: nat :: k < |who| ==> !OvertakesTopAt(roles, races, who, what, top, k) {
      forall i: nat, j: nat | i <= j < |races| ensures KeepsTopBetween(roles, races, top, i, j) {
        TopKeptBetween(roles, races, who, what, top, i, j);
      }
    } else {
      var k: nat :| k < |who| && OvertakesTopAt(roles, races, who, what, top, k);
      EveryInterleavingRespectsBound(roles, races, who, what, top, k);
      OnlyStaleWritesReachTop(roles, races[k], who[k], what[k], top);
      assert !KeepsTopBetween(roles, races, top, k, k + 1);
    }
  }

  /** With no stale write, the holders of the highest rank keep their role through any interleaving. */
  lemma FreshWritesKeepTop(
    roles: Roles, races: seq<Race>, who: seq<nat>, what: seq<Statement>, top: int, i: nat, j: nat)
    requires FromRest(roles, races, who, what, top) && i <= j < |races|
    requires forall k :: i <= k < j ==> !IsStale(races[k], who[k], what[k])
    ensures KeepsTop(roles, races[i].holders, races[j].holders, top)
  {
    forall k: nat | i <= k < j ensures !OvertakesTopAt(roles, races, who, what, top, k) {
      EveryInterleavingRespectsBound(roles, races, who, what, top, k);
      OnlyStaleWritesReachTop(roles, races[k], who[k], what[k], top);
    }
    TopKeptBetween(roles, races, who, what, top, i, j);
  }

  /** The update stands between its read of the target and its write. */
  predicate Holds(race: Race, t: nat, target: Uuid) {
    t in race.pending && race.pending[t].update.target == target
    && (race.pending[t].stage.TargetRead? || race.pending[t].stage.Approved?)
  }

  /** A discipline a caller can enforce, with a lock on the target for instance: a role is written
      only while no other update of the same target stands between its read and its write. */
  ghost predicate WritesAlone(race: Race, t: nat, st: Statement)
    requires CanRun(race, t, st)
  {
    st.WriteRole? ==> forall u :: u != t ==> !Holds(race, u, race.pending[t].update.target)
  }

  ghost predicate Serialized(roles: Roles, races: seq<Race>, who: seq<nat>, what: seq<Statement>)
    requires Interleaves(roles, races, who, what)
  {
    forall k: nat :: k < |who| ==> WritesAlone(races[k], who[k], what[k])
  }

  /** What an update has read is still what is stored. */
  ghost predicate ReadsAreCurrent(race: Race) {
    forall t, target :: Holds(race, t, target) ==>
      target in race.holders && race.holders[target] == race.pending[t].stage.role
  }

  lemma {:induction false} SerializedReadsAreCurrent(
    roles: Roles, races: seq<Race>, who: seq<nat>, what: seq<Statement>, k: nat)
    requires Interleaves(roles, races, who, what) && k < |races|
    requires races[0].pending == map[] && Serialized(roles, races, who, what)
    ensures ReadsAreCurrent(races[k])
  {
    if k > 0 {
      SerializedReadsAreCurrent(roles, races, who, what, k - 1);
      assert WritesAlone(races[k - 1], who[k - 1], what[k - 1]);
      forall t, target | Holds(races[k], t, target)
        ensures target in races[k].holders && races[k].holders[target] == races[k].pending[t].stage.role
      {
        assert t != who[k - 1] ==> Holds(races[k - 1], t, target);
        assert t == who[k - 1] && what[k - 1].ReadActor? ==> Holds(races[k - 1], t, target);
      }
    }
  }

  /** Under that discipline no write is stale, so the promise about the highest rank holds in every
      interleaving. */
  lemma SerializedUpdatesKeepTop(
    roles: Roles, races: seq<Race>, who: seq<nat>, what: seq<Statement>, top: int, i: nat, j: nat)
    requires FromRest(roles, races, who, what, top) && i <= j < |races|
    requires Serialized(roles, races, who, what)
    ensures forall k: nat :: k < |who| ==> !IsStale(races[k], who[k], what[k])
    ensures KeepsTop(roles, races[i].holders, races[j].holders, top)
  {
    forall k: nat | k < |who| ensures !IsStale(races[k], who[k], what[k]) {
      SerializedReadsAreCurrent(roles, races, who, what, k);
      if what[k].WriteRole? {
        assert Holds(races[k], who[k], races[k].pending[who[k]].update.target);
      }
    }
    FreshWritesKeepTop(roles, races, who, what, top, i, j);
  }

  /** What only holds one update at a time: with a stale read, an account that has been raised to
      the highest rank in between is written all the same. */
  lemma StaleReadDemotesTop(roles: Roles, top: string, low: string, mid: string, a: Uuid, b: Uuid, x: Uuid)
    requires top in roles && low in roles && mid in roles
    requires roles[low].priority < roles[mid].priority < roles[top].priority
    requires a != b && a != x && b != x
    ensures var start := Race(map[a := top, b := top, x := low], map[]);
            var s1 := RunStatement(roles, start, 0, Ask(RoleUpdate(a, x, mid)));
            var s2 := RunStatement(roles, s1, 0, ReadTarget);
            var s3 := RunStatement(roles, s2, 0, ReadActor);
            var s4 := RunStatement(roles, s3, 1, Ask(RoleUpdate(b, x, top)));
            var s5 := RunStatement(roles, s4, 1, ReadTarget);
            var s6 := RunStatement(roles, s5, 1, ReadActor);
            var s7 := RunStatement(roles, s6, 1, WriteRole);
            var s8 := RunStatement(roles, s7, 0, WriteRole);
            s7.holders[x] == top && s8.holders[x] == mid
  {
  }
}
