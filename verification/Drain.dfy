/** Shutdown: every service counts its detached sends in a wait group, and Drain waits for all the
    groups or for its context, whichever comes first. */
module Drain {
  import opened Wrappers

  /** One detached send: the mail attempt, then the deferred calls, the last of which is Done. */
  datatype Send = InFlight | Ending(how: Ending) | Done

  datatype Ending = Delivered | Failed | Panicked

  /** A short-code service: its wait-group counter and the sends it has launched. */
  datatype Service = Service(counter: int, sends: seq<Send>)

  /** The goroutine inside Drain: the index of the waiter it stands on, or past them all. */
  datatype Waiting = NotCalled | WaitingOn(i: nat) | DoneClosed

  datatype Outcome = Drained | TimedOut

  datatype State = State(
    serving: bool, services: seq<Service>, waiting: Waiting,
    expired: bool, returned: Option<Outcome>)

  function Unfinished(sends: seq<Send>): nat {
    if sends == [] then 0 else Unfinished(sends[..|sends| - 1]) + (if sends[|sends| - 1].Done? then 0 else 1)
  }

  datatype Action =
    | Launch(service: nat)
    | EndAttempt(service: nat, send: nat, how: Ending)
    | RunDeferred(service: nat, send: nat)
    | StopHttp
    | CallDrain
    | PassWaiter
    | CloseDone
    | ExpireContext
    | Return(outcome: Outcome)

  function WithSend(s: State, i: nat, k: nat, send: Send, change: int): State
    requires i < |s.services| && k < |s.services[i].sends|
  {
    var service := s.services[i];
    s.(services := s.services[i := Service(service.counter + change, service.sends[k := send])])
  }

  predicate Step(s: State, a: Action, s': State) {
    match a
    case Launch(i) =>
      // a handler adds one to the group, then starts the goroutine
      && s.serving && i < |s.services|
      && s' == s.(services := s.services[i := Service(s.services[i].counter + 1, s.services[i].sends + [InFlight])])
    case EndAttempt(i, k, how) =>
      && i < |s.services| && k < |s.services[i].sends| && s.services[i].sends[k].InFlight?
      && s' == WithSend(s, i, k, Ending(how), 0)
    case RunDeferred(i, k) =>
      // deferred calls run however the attempt ended, a panic included
      && i < |s.services| && k < |s.services[i].sends| && s.services[i].sends[k].Ending?
      && s' == WithSend(s, i, k, Done, -1)
    case StopHttp => s.serving && s' == s.(serving := false)
    case CallDrain => !s.serving && s.waiting.NotCalled? && s' == s.(waiting := WaitingOn(0))
    case PassWaiter =>
      && s.waiting.WaitingOn? && s.waiting.i < |s.services| && s.services[s.waiting.i].counter == 0
      && s' == s.(waiting := WaitingOn(s.waiting.i + 1))
    case CloseDone => s.waiting == WaitingOn(|s.services|) && s' == s.(waiting := DoneClosed)
    case ExpireContext => !s.expired && s' == s.(expired := true)
    case Return(outcome) =>
      && s.returned.None? && !s.waiting.NotCalled?
      && (if outcome.Drained? then s.waiting.DoneClosed? else s.expired)
      && s' == s.(returned := Some(outcome))
  }

  ghost predicate Start(s: State) {
    && s.serving && s.waiting.NotCalled? && !s.expired && s.returned.None?
    && forall i :: 0 <= i < |s.services| ==> s.services[i] == Service(0, [])
  }

  function Passed(s: State): nat {
    match s.waiting
    case NotCalled => 0
    case WaitingOn(i) => i
    case DoneClosed => |s.services|
  }

  ghost predicate Inv(s: State) {
    && CountersAgree(s)
    && (!s.waiting.NotCalled? ==> !s.serving)
    && Passed(s) <= |s.services|
    && (forall i :: 0 <= i < Passed(s) ==> s.services[i].counter == 0)
    && (s.returned == Some(Drained) ==> s.waiting.DoneClosed?)
    && (s.returned == Some(TimedOut) ==> s.expired)
  }

  lemma {:induction false} UnfinishedAfter(sends: seq<Send>, k: nat, send: Send)
    requires k < |sends|
    ensures Unfinished(sends[k := send])
            == Unfinished(sends) - (if sends[k].Done? then 0 else 1) + (if send.Done? then 0 else 1)
  {
    var last := |sends| - 1;
    if k == last {
      assert sends[k := send][..last] == sends[..last];
    } else {
      assert sends[k := send][..last] == sends[..last][k := send];
      UnfinishedAfter(sends[..last], k, send);
    }
  }

  lemma {:induction false} NoneUnfinished(sends: seq<Send>)
    ensures Unfinished(sends) == 0 <==> forall k :: 0 <= k < |sends| ==> sends[k].Done?
  {
    if sends != [] {
      var last := |sends| - 1;
      NoneUnfinished(sends[..last]);
      assert forall k :: 0 <= k < last ==> sends[..last][k] == sends[k];
    }
  }

  ghost predicate CountersAgree(s: State) {
    forall i :: 0 <= i < |s.services| ==> s.services[i].counter == Unfinished(s.services[i].sends)
  }

  lemma CountersStay(s: State, a: Action, s': State)
    requires CountersAgree(s) && Step(s, a, s')
    ensures CountersAgree(s')
  {
    match a
    case Launch(i) =>
      var sends := s.services[i].sends + [InFlight];
      assert sends[..|sends| - 1] == s.services[i].sends;
    case EndAttempt(i, k, how) => UnfinishedAfter(s.services[i].sends, k, Ending(how));
    case RunDeferred(i, k) => UnfinishedAfter(s.services[i].sends, k, Done);
    case _ =>
  }

  lemma StepKeeps(s: State, a: Action, s': State)
    requires Inv(s) && Step(s, a, s')
    ensures Inv(s')
  {
    CountersStay(s, a, s');
    if a.RunDeferred? {
      // a counter that is zero has no send left to finish
      NoneUnfinished(s.services[a.service].sends);
    }
  }

  ghost predicate IsRun(states: seq<State>, actions: seq<Action>) {
    && |states| == |actions| + 1 && Start(states[0])
    && forall i :: 0 <= i < |actions| ==> Step(states[i], actions[i], states[i + 1])
  }

  lemma {:induction false} RunKeeps(states: seq<State>, actions: seq<Action>, i: nat)
    requires IsRun(states, actions) && i < |states|
    ensures Inv(states[i])
  {
    if i > 0 {
      RunKeeps(states, actions, i - 1);
      StepKeeps(states[i - 1], actions[i - 1], states[i]);
    }
  }

  /** In every run: Drain reports success only when every send of every service is over, reports a
      timeout only when its context expired, and no counter ever differs from the number of its
      service's sends that are not over. */
  lemma DrainIsSafe(states: seq<State>, actions: seq<Action>, i: nat)
    requires IsRun(states, actions) && i < |states|
    ensures forall n :: 0 <= n < |states[i].services| ==>
              states[i].services[n].counter == Unfinished(states[i].services[n].sends)
    ensures states[i].returned == Some(Drained) ==>
              forall n, k :: 0 <= n < |states[i].services| && 0 <= k < |states[i].services[n].sends| ==>
                states[i].services[n].sends[k].Done?
    ensures states[i].returned == Some(TimedOut) ==> states[i].expired
  {
    RunKeeps(states, actions, i);
    if states[i].returned == Some(Drained) {
      forall n | 0 <= n < |states[i].services| ensures Unfinished(states[i].services[n].sends) == 0 {
        assert states[i].services[n].counter == 0;
      }
      forall n, k | 0 <= n < |states[i].services| && 0 <= k < |states[i].services[n].sends|
        ensures states[i].services[n].sends[k].Done?
      {
        NoneUnfinished(states[i].services[n].sends);
      }
    }
  }

  /** Drain is never stuck for nothing: while it waits, either some send is still to finish or the
      waiting goroutine can move. */
  lemma DrainCanMove(states: seq<State>, actions: seq<Action>, i: nat)
    requires IsRun(states, actions) && i < |states|
    requires states[i].waiting.WaitingOn?
    ensures (exists s' :: Step(states[i], PassWaiter, s') || Step(states[i], CloseDone, s'))
            || exists n, k :: 0 <= n < |states[i].services| && 0 <= k < |states[i].services[n].sends|
                              && !states[i].services[n].sends[k].Done?
  {
    RunKeeps(states, actions, i);
    var s := states[i];
    var at := s.waiting.i;
    if at == |s.services| {
      assert Step(s, CloseDone, s.(waiting := DoneClosed));
    } else {
      NoneUnfinished(s.services[at].sends);
      if s.services[at].counter == 0 {
        assert Step(s, PassWaiter, s.(waiting := WaitingOn(at + 1)));
      } else {
        assert exists k :: 0 <= k < |s.services[at].sends| && !s.services[at].sends[k].Done?;
      }
    }
  }

  ghost predicate AllDone(s: State) {
    forall n, k :: 0 <= n < |s.services| && 0 <= k < |s.services[n].sends| ==> s.services[n].sends[k].Done?
  }

  /** A send always comes to its end, delivered, failed or panicked alike and whatever else is going
      on, and its end takes exactly one off the counter of its own service. */
  lemma EverySendCanEnd(s: State, n: nat, k: nat, how: Ending)
    requires n < |s.services| && k < |s.services[n].sends| && s.services[n].sends[k].InFlight?
    ensures exists ended, over :: Step(s, EndAttempt(n, k, how), ended) && Step(ended, RunDeferred(n, k), over)
              && over == s.(services := s.services[n :=
                   Service(s.services[n].counter - 1, s.services[n].sends[k := Done])])
  {
    var ended := WithSend(s, n, k, Ending(how), 0);
    var over := WithSend(ended, n, k, Done, -1);
    assert Step(s, EndAttempt(n, k, how), ended) && Step(ended, RunDeferred(n, k), over);
    assert ended.services[n].sends[k := Done] == s.services[n].sends[k := Done];
    assert over.services == s.services[n := Service(s.services[n].counter - 1, s.services[n].sends[k := Done])];
  }

  /** A request that is served launches its send, which the counter then covers; nothing is launched
      once the server has stopped. */
  lemma LaunchIsCounted(s: State, n: nat, s': State)
    requires n < |s.services|
    ensures s.serving <==> exists after :: Step(s, Launch(n), after)
    ensures Step(s, Launch(n), s') ==>
              && |s'.services| == |s.services|
              && s'.services[n].counter == s.services[n].counter + 1
              && s'.services[n].sends == s.services[n].sends + [InFlight]
              && forall m :: 0 <= m < |s.services| && m != n ==> s'.services[m] == s.services[m]
  {
    if s.serving {
      var launched := Service(s.services[n].counter + 1, s.services[n].sends + [InFlight]);
      assert Step(s, Launch(n), s.(services := s.services[n := launched]));
    }
  }

  ghost predicate Steps(states: seq<State>, actions: seq<Action>) {
    && |states| == |actions| + 1
    && forall i :: 0 <= i < |actions| ==> Step(states[i], actions[i], states[i + 1])
  }

  /** Once every send is over, the goroutine and Drain by themselves get to the answer nil. */
  lemma {:induction false} DrainReturns(s: State) returns (states: seq<State>, actions: seq<Action>)
    requires Inv(s) && AllDone(s) && s.waiting.WaitingOn? && s.returned.None?
    ensures Steps(states, actions) && states[0] == s
    ensures states[|actions|] == s.(waiting := DoneClosed, returned := Some(Drained))
    decreases |s.services| - s.waiting.i
  {
    var at := s.waiting.i;
    if at == |s.services| {
      var closed := s.(waiting := DoneClosed);
      states := [s, closed, closed.(returned := Some(Drained))];
      actions := [CloseDone, Return(Drained)];
    } else {
      NoneUnfinished(s.services[at].sends);
      var next := s.(waiting := WaitingOn(at + 1));
      assert Step(s, PassWaiter, next);
      var restStates, restActions := DrainReturns(next);
      states, actions := [s] + restStates, [PassWaiter] + restActions;
      forall i | 0 <= i < |actions| ensures Step(states[i], actions[i], states[i + 1]) {
        if i > 0 { assert Step(restStates[i - 1], restActions[i - 1], restStates[i]); }
      }
    }
  }

  /** Drain can be called as soon as the server has stopped, and returns with an error whenever its
      context has expired before, however many sends are still out. */
  lemma DrainIsBounded(s: State)
    requires s.returned.None?
    ensures !s.serving && s.waiting.NotCalled? ==> Step(s, CallDrain, s.(waiting := WaitingOn(0)))
    ensures !s.waiting.NotCalled? && s.expired ==> Step(s, Return(TimedOut), s.(returned := Some(TimedOut)))
    ensures !s.expired ==> Step(s, ExpireContext, s.(expired := true))
    ensures s.serving ==> Step(s, StopHttp, s.(serving := false))
  {
  }
}
