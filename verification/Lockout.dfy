/** The manager-override challenge: two renewing-window counters with hard locks. Times are milliseconds. */
module Lockout {
  import opened Outcome
  import opened Sums

  type Id = string

  const PER_MANAGER_FAILURE_THRESHOLD := 5
  const COUNT_WINDOW_MS := 15 * 60_000
  const MANAGER_LOCK_MS := 15 * 60_000
  const PER_ACTOR_FAILURE_THRESHOLD := 10
  const ACTOR_LOCK_MS := 30 * 60_000

  /** How many failures lock, and for how long. */
  datatype Policy = Policy(threshold: nat, lockMs: int)

  const ActorPolicy := Policy(PER_ACTOR_FAILURE_THRESHOLD, ACTOR_LOCK_MS)
  const ManagerPolicy := Policy(PER_MANAGER_FAILURE_THRESHOLD, MANAGER_LOCK_MS)

  datatype AttemptOutcome = Succeeded | FailedWrongPin | FailedUnknownOrInactiveManager | RejectedLocked

  datatype Attempt = Attempt(manager: Id, actor: Id, outcome: AttemptOutcome, at: int)

  datatype SecurityEvent = SecurityEvent(actor: Id, attemptCount: nat, managersTried: set<Id>, at: int)

  /** One counter row. */
  datatype Counter = Counter(failures: nat, windowStartedAt: Option<int>, lockedUntil: Option<int>)

  const Fresh := Counter(0, None, None)

  datatype Decision = Authenticated(at: int) | RateLimited(retryAfterMs: int) | FailedAuthentication

  /** What the challenge finds about the target: an active manager with a PIN, and whether the PIN given matches it. */
  datatype Challenge = Challenge(now: int, actor: Id, manager: Id, managerUsable: bool, pinMatches: bool)

  datatype State = State(actors: map<Id, Counter>, managers: map<Id, Counter>, attempts: seq<Attempt>,
                         events: seq<SecurityEvent>)

  const Empty := State(map[], map[], [], [])

  function Row(rows: map<Id, Counter>, id: Id): Counter {
    if id in rows then rows[id] else Fresh
  }

  predicate IsActiveLock(row: Counter, now: int) {
    row.lockedUntil.Some? && row.lockedUntil.value > now
  }

  /** A failure inside the open window increments; one after it starts a fresh window at 1. */
  function AdvanceWindow(row: Counter, now: int): (nat, int) {
    if row.windowStartedAt.None? || now - row.windowStartedAt.value >= COUNT_WINDOW_MS then (1, now)
    else (row.failures + 1, row.windowStartedAt.value)
  }

  function CountFailure(row: Counter, now: int, policy: Policy): Counter {
    var (failures, started) := AdvanceWindow(row, now);
    Counter(failures, Some(started), if failures >= policy.threshold then Some(now + policy.lockMs)
            else row.lockedUntil)
  }

  predicate Locks(row: Counter, now: int, policy: Policy) {
    AdvanceWindow(row, now).0 >= policy.threshold
  }

  function OutcomeOf(c: Challenge): AttemptOutcome {
    if !c.managerUsable then FailedUnknownOrInactiveManager
    else if !c.pinMatches then FailedWrongPin
    else Succeeded
  }

  function ManagersTried(attempts: seq<Attempt>, actor: Id, since: int): set<Id> {
    set a | a in attempts && a.actor == actor && a.at >= since :: a.manager
  }

  function Record(s: State, c: Challenge, outcome: AttemptOutcome): State {
    s.(attempts := s.attempts + [Attempt(c.manager, c.actor, outcome, c.now)])
  }

  /** A refused challenge is audited, and neither counted nor does it extend the lock. */
  function Refuse(s: State, c: Challenge, row: Counter): (State, Decision)
    requires IsActiveLock(row, c.now)
  {
    (Record(s, c, RejectedLocked), RateLimited(row.lockedUntil.value - c.now))
  }

  function Fail(s: State, c: Challenge): State {
    var recorded := Record(s, c, OutcomeOf(c));
    var actor := CountFailure(Row(s.actors, c.actor), c.now, ActorPolicy);
    State(
      s.actors[c.actor := actor],
      s.managers[c.manager := CountFailure(Row(s.managers, c.manager), c.now, ManagerPolicy)],
      recorded.attempts,
      if Locks(Row(s.actors, c.actor), c.now, ActorPolicy) then
        s.events + [SecurityEvent(c.actor, actor.failures,
                                  ManagersTried(recorded.attempts, c.actor, actor.windowStartedAt.value), c.now)]
      else s.events)
  }

  /** One challenge: the actor's lock first, then the manager's, then the PIN. */
  function Run(s: State, c: Challenge): (State, Decision) {
    if IsActiveLock(Row(s.actors, c.actor), c.now) then Refuse(s, c, Row(s.actors, c.actor))
    else if IsActiveLock(Row(s.managers, c.manager), c.now) then Refuse(s, c, Row(s.managers, c.manager))
    else if OutcomeOf(c).Succeeded? then
      (Record(s, c, Succeeded).(managers := s.managers[c.manager := Fresh]), Authenticated(c.now))
    else (Fail(s, c), FailedAuthentication)
  }

  function Exec(challenges: seq<Challenge>): State {
    if challenges == [] then Empty
    else Run(Exec(challenges[..|challenges| - 1]), challenges[|challenges| - 1]).0
  }

  ghost predicate ClockNeverBack(challenges: seq<Challenge>) {
    forall i, j :: 0 <= i < j < |challenges| ==> challenges[i].now <= challenges[j].now
  }

  /** The tables as the transaction changes them, statement by statement. */
  class Authenticator {
    var actors: map<Id, Counter>
    var managers: map<Id, Counter>
    var attempts: seq<Attempt>
    var events: seq<SecurityEvent>

    function Tables(): State
      reads this
    {
      State(actors, managers, attempts, events)
    }

    constructor ()
      ensures Tables() == Empty
    {
      actors, managers, attempts, events := map[], map[], [], [];
    }

    method RunChallenge(c: Challenge) returns (decision: Decision)
      modifies this
      ensures Tables() == Run(old(Tables()), c).0 && decision == Run(old(Tables()), c).1
    {
      var actorState := Row(actors, c.actor);
      if IsActiveLock(actorState, c.now) {
        attempts := attempts + [Attempt(c.manager, c.actor, RejectedLocked, c.now)];
        return RateLimited(actorState.lockedUntil.value - c.now);
      }
      var managerState := Row(managers, c.manager);
      if IsActiveLock(managerState, c.now) {
        attempts := attempts + [Attempt(c.manager, c.actor, RejectedLocked, c.now)];
        return RateLimited(managerState.lockedUntil.value - c.now);
      }
      var outcome := OutcomeOf(c);
      attempts := attempts + [Attempt(c.manager, c.actor, outcome, c.now)];
      if outcome.Succeeded? {
        managers := managers[c.manager := Counter(0, None, None)];
        return Authenticated(c.now);
      }
      var (managerFailures, managerWindow) := AdvanceWindow(managerState, c.now);
      var managerLock := if managerFailures >= PER_MANAGER_FAILURE_THRESHOLD then Some(c.now + MANAGER_LOCK_MS)
        else managerState.lockedUntil;
      managers := managers[c.manager := Counter(managerFailures, Some(managerWindow), managerLock)];
      var (failures, window) := AdvanceWindow(actorState, c.now);
      var lockActivated := failures >= PER_ACTOR_FAILURE_THRESHOLD;
      actors := actors[c.actor := Counter(failures, Some(window), if lockActivated then Some(c.now + ACTOR_LOCK_MS)
                                          else actorState.lockedUntil)];
      if lockActivated {
        events := events + [SecurityEvent(c.actor, failures, ManagersTried(attempts, c.actor, window), c.now)];
      }
      return FailedAuthentication;
    }
  }

  // ------------------------------------------------ the ledger, read by itself

  predicate Counted(a: Attempt, actor: Id) {
    a.actor == actor && (a.outcome.FailedWrongPin? || a.outcome.FailedUnknownOrInactiveManager?)
  }

  /** When the counted failures of an actor happened. */
  function FailureTimes(attempts: seq<Attempt>, actor: Id): seq<int> {
    if attempts == [] then []
    else
      var last := attempts[|attempts| - 1];
      FailureTimes(attempts[..|attempts| - 1], actor) + (if Counted(last, actor) then [last.at] else [])
  }

  /** The failure that opened the window which failure `i` falls in. */
  function Opener(times: seq<int>, i: nat): nat
    requires i < |times|
    ensures Opener(times, i) <= i
  {
    if i == 0 then 0
    else
      var o := Opener(times, i - 1);
      if times[i] - times[o] >= COUNT_WINDOW_MS then i else o
  }

  /** How many failures the window holds when failure `i` is in. */
  function CountAt(times: seq<int>, i: nat): nat
    requires i < |times|
  {
    i - Opener(times, i) + 1
  }

  ghost predicate Ascending(times: seq<int>) {
    forall i, j :: 0 <= i < j < |times| ==> times[i] <= times[j]
  }

  /** No window holds more than the threshold, and after a full one nothing is counted for the length of the lock. */
  ghost predicate Throttled(times: seq<int>, policy: Policy) {
    && (forall i {:trigger CountAt(times, i)} :: 0 <= i < |times| ==> CountAt(times, i) <= policy.threshold)
    && (forall i {:trigger CountAt(times, i)} :: 0 <= i < |times| - 1 && CountAt(times, i) == policy.threshold ==>
          times[i + 1] >= times[i] + policy.lockMs)
  }

  /** The times at which a window filled up. */
  function LockTimes(times: seq<int>, n: nat): seq<int>
    requires n <= |times|
  {
    if n == 0 then []
    else LockTimes(times, n - 1) + (if CountAt(times, n - 1) == PER_ACTOR_FAILURE_THRESHOLD then [times[n - 1]] else [])
  }

  function EventTimes(events: seq<SecurityEvent>, actor: Id): seq<int> {
    if events == [] then []
    else
      var last := events[|events| - 1];
      EventTimes(events[..|events| - 1], actor) + (if last.actor == actor then [last.at] else [])
  }

  predicate CountedAgainst(a: Attempt, manager: Id) {
    a.manager == manager && (a.outcome.FailedWrongPin? || a.outcome.FailedUnknownOrInactiveManager?)
  }

  /** When the failures against a manager happened, since the last success. */
  function TimesAgainst(attempts: seq<Attempt>, manager: Id): seq<int> {
    if attempts == [] then []
    else
      var last := attempts[|attempts| - 1];
      if last.manager == manager && last.outcome.Succeeded? then []
      else TimesAgainst(attempts[..|attempts| - 1], manager) + (if CountedAgainst(last, manager) then [last.at] else [])
  }

  lemma TimesAgainstSnoc(attempts: seq<Attempt>, a: Attempt, manager: Id)
    ensures TimesAgainst(attempts + [a], manager)
            == if a.manager == manager && a.outcome.Succeeded? then []
               else TimesAgainst(attempts, manager) + (if CountedAgainst(a, manager) then [a.at] else [])
  {
    assert (attempts + [a])[..|attempts|] == attempts;
  }

  lemma FailureTimesSnoc(attempts: seq<Attempt>, a: Attempt, actor: Id)
    ensures FailureTimes(attempts + [a], actor)
            == FailureTimes(attempts, actor) + (if Counted(a, actor) then [a.at] else [])
  {
    assert (attempts + [a])[..|attempts|] == attempts;
  }

  lemma EventTimesSnoc(events: seq<SecurityEvent>, e: SecurityEvent, actor: Id)
    ensures EventTimes(events + [e], actor) == EventTimes(events, actor) + (if e.actor == actor then [e.at] else [])
  {
    assert (events + [e])[..|events|] == events;
  }

  lemma {:induction false} OpenerSnoc(times: seq<int>, t: int, i: nat)
    requires i < |times|
    ensures Opener(times + [t], i) == Opener(times, i)
  {
    if i > 0 {
      OpenerSnoc(times, t, i - 1);
    }
  }

  lemma {:induction false} LockTimesSnoc(times: seq<int>, t: int, n: nat)
    requires n <= |times|
    ensures LockTimes(times + [t], n) == LockTimes(times, n)
  {
    if n > 0 {
      LockTimesSnoc(times, t, n - 1);
      OpenerSnoc(times, t, n - 1);
      assert (times + [t])[n - 1] == times[n - 1] && CountAt(times + [t], n - 1) == CountAt(times, n - 1);
    }
  }

  // ---------------------------------------------------------- the invariant

  /** The row says what the ledger says: the failures of the window they open, and the lock of a full one. */
  ghost predicate CounterInv(row: Counter, times: seq<int>, now: int, policy: Policy) {
    && Ascending(times) && Throttled(times, policy) && (forall t :: t in times ==> t <= now)
    && (if times == [] then row == Fresh
        else
          var n := |times| - 1;
          && row.failures == CountAt(times, n) && row.windowStartedAt == Some(times[Opener(times, n)])
          && if row.failures == policy.threshold then row.lockedUntil == Some(times[n] + policy.lockMs)
             else !IsActiveLock(row, now))
  }

  ghost predicate ActorOk(s: State, actor: Id, now: int) {
    var times := FailureTimes(s.attempts, actor);
    && CounterInv(Row(s.actors, actor), times, now, ActorPolicy)
    && EventTimes(s.events, actor) == LockTimes(times, |times|)
  }

  ghost predicate ManagerOk(s: State, manager: Id, now: int) {
    CounterInv(Row(s.managers, manager), TimesAgainst(s.attempts, manager), now, ManagerPolicy)
  }

  ghost predicate Inv(s: State, now: int) {
    && (forall a {:trigger ActorOk(s, a, now)} :: ActorOk(s, a, now))
    && (forall m {:trigger ManagerOk(s, m, now)} :: ManagerOk(s, m, now))
    && (forall e :: e in s.events ==> e.attemptCount == PER_ACTOR_FAILURE_THRESHOLD)
  }

  /** A policy whose lock outlives the counting window, as both do. */
  predicate LockOutlivesWindow(policy: Policy) { policy.threshold >= 2 && policy.lockMs >= COUNT_WINDOW_MS }

  /** A counted failure keeps the row and the ledger in step. */
  lemma CountKeeps(row: Counter, times: seq<int>, before: int, now: int, policy: Policy)
    requires CounterInv(row, times, before, policy) && before <= now && !IsActiveLock(row, now)
             && LockOutlivesWindow(policy)
    ensures CounterInv(CountFailure(row, now, policy), times + [now], now, policy)
    ensures CountFailure(row, now, policy).failures == CountAt(times + [now], |times|)
    ensures Locks(row, now, policy) <==> CountAt(times + [now], |times|) == policy.threshold
  {
    if times != [] {
      OpenerSnoc(times, now, |times| - 1);
      WindowOver(times, now, policy);
    }
    ThrottledSnoc(times, now, policy);
  }

  /** At the threshold the lock outlives the window, so the next counted failure opens a new one. */
  lemma WindowOver(times: seq<int>, now: int, policy: Policy)
    requires times != [] && Ascending(times) && LockOutlivesWindow(policy)
    ensures CountAt(times, |times| - 1) == policy.threshold && now >= times[|times| - 1] + policy.lockMs ==>
              now - times[Opener(times, |times| - 1)] >= COUNT_WINDOW_MS
  {
  }

  lemma ThrottledSnoc(times: seq<int>, now: int, policy: Policy)
    requires Throttled(times, policy) && Ascending(times) && (forall t :: t in times ==> t <= now)
             && LockOutlivesWindow(policy)
    requires times != [] && CountAt(times, |times| - 1) == policy.threshold ==>
             now >= times[|times| - 1] + policy.lockMs
    ensures Throttled(times + [now], policy) && Ascending(times + [now])
  {
    var longer := times + [now];
    assert forall i :: 0 <= i < |times| ==> times[i] in times;
    forall i | 0 <= i < |longer|
      ensures CountAt(longer, i) <= policy.threshold
      ensures i < |longer| - 1 && CountAt(longer, i) == policy.threshold ==> longer[i + 1] >= longer[i] + policy.lockMs
    {
      if i < |times| {
        OpenerSnoc(times, now, i);
        assert CountAt(longer, i) == CountAt(times, i);
      } else {
        LastCount(times, now, policy);
      }
    }
  }

  lemma LastCount(times: seq<int>, now: int, policy: Policy)
    requires Throttled(times, policy) && Ascending(times) && LockOutlivesWindow(policy)
    requires times != [] && CountAt(times, |times| - 1) == policy.threshold ==>
             now >= times[|times| - 1] + policy.lockMs
    ensures CountAt(times + [now], |times|) <= policy.threshold
  {
    if times != [] {
      OpenerSnoc(times, now, |times| - 1);
      assert CountAt(times, |times| - 1) <= policy.threshold;
      WindowOver(times, now, policy);
    }
  }

  lemma LaterCounter(row: Counter, times: seq<int>, before: int, now: int, policy: Policy)
    requires CounterInv(row, times, before, policy) && before <= now
    ensures CounterInv(row, times, now, policy)
  {
  }

  lemma UncountedKeeps(s: State, n: State, a: Attempt, actor: Id, before: int, now: int)
    requires ActorOk(s, actor, before) && before <= now
    requires n.attempts == s.attempts + [a] && !Counted(a, actor)
    requires Row(n.actors, actor) == Row(s.actors, actor) && EventTimes(n.events, actor) == EventTimes(s.events, actor)
    ensures ActorOk(n, actor, now)
  {
    FailureTimesSnoc(s.attempts, a, actor);
    assert FailureTimes(s.attempts, actor) + [] == FailureTimes(s.attempts, actor);
    LaterCounter(Row(s.actors, actor), FailureTimes(s.attempts, actor), before, now, ActorPolicy);
  }

  lemma OthersEvents(s: State, c: Challenge, actor: Id)
    requires actor != c.actor
    ensures EventTimes(Fail(s, c).events, actor) == EventTimes(s.events, actor)
  {
    if Fail(s, c).events != s.events {
      EventTimesSnoc(s.events, Fail(s, c).events[|s.events|], actor);
    }
  }

  lemma OwnFailure(s: State, before: int, c: Challenge)
    requires ActorOk(s, c.actor, before) && before <= c.now && !OutcomeOf(c).Succeeded?
             && !IsActiveLock(Row(s.actors, c.actor), c.now)
    ensures ActorOk(Fail(s, c), c.actor, c.now)
  {
    var times := FailureTimes(s.attempts, c.actor);
    CountKeeps(Row(s.actors, c.actor), times, before, c.now, ActorPolicy);
    FailureTimesSnoc(s.attempts, Attempt(c.manager, c.actor, OutcomeOf(c), c.now), c.actor);
    OwnEvents(s, c, times);
    ActorOkFrom(Fail(s, c), c.actor, c.now, times + [c.now]);
  }

  lemma ActorOkFrom(s: State, actor: Id, now: int, times: seq<int>)
    requires FailureTimes(s.attempts, actor) == times && CounterInv(Row(s.actors, actor), times, now, ActorPolicy)
    requires EventTimes(s.events, actor) == LockTimes(times, |times|)
    ensures ActorOk(s, actor, now)
  {
  }

  lemma OwnEvents(s: State, c: Challenge, times: seq<int>)
    requires EventTimes(s.events, c.actor) == LockTimes(times, |times|)
    requires Locks(Row(s.actors, c.actor), c.now, ActorPolicy) <==>
             CountAt(times + [c.now], |times|) == PER_ACTOR_FAILURE_THRESHOLD
    ensures EventTimes(Fail(s, c).events, c.actor) == LockTimes(times + [c.now], |times| + 1)
  {
    LockTimesSnoc(times, c.now, |times|);
    if Locks(Row(s.actors, c.actor), c.now, ActorPolicy) {
      EventTimesSnoc(s.events, Fail(s, c).events[|s.events|], c.actor);
    }
  }

  lemma RunActors(s: State, before: int, c: Challenge, actor: Id)
    requires ActorOk(s, actor, before) && before <= c.now
    ensures ActorOk(Run(s, c).0, actor, c.now)
  {
    var n := Run(s, c).0;
    if Run(s, c).1.FailedAuthentication? && actor == c.actor {
      OwnFailure(s, before, c);
    } else {
      if Run(s, c).1.FailedAuthentication? {
        OthersEvents(s, c, actor);
      }
      UncountedKeeps(s, n, n.attempts[|s.attempts|], actor, before, c.now);
    }
  }

  lemma ManagerOkFrom(s: State, manager: Id, now: int, times: seq<int>)
    requires TimesAgainst(s.attempts, manager) == times
             && CounterInv(Row(s.managers, manager), times, now, ManagerPolicy)
    ensures ManagerOk(s, manager, now)
  {
  }

  lemma UncountedAgainst(s: State, n: State, a: Attempt, m: Id, before: int, now: int)
    requires ManagerOk(s, m, before) && before <= now && n.attempts == s.attempts + [a]
             && Row(n.managers, m) == Row(s.managers, m)
    requires !CountedAgainst(a, m) && !(a.manager == m && a.outcome.Succeeded?)
    ensures ManagerOk(n, m, now)
  {
    var times := TimesAgainst(s.attempts, m);
    TimesAgainstSnoc(s.attempts, a, m);
    LaterCounter(Row(s.managers, m), times, before, now, ManagerPolicy);
    assert times + [] == times;
    ManagerOkFrom(n, m, now, times);
  }

  lemma FailureAgainst(s: State, before: int, c: Challenge)
    requires ManagerOk(s, c.manager, before) && before <= c.now && !OutcomeOf(c).Succeeded?
             && !IsActiveLock(Row(s.managers, c.manager), c.now)
    ensures ManagerOk(Fail(s, c), c.manager, c.now)
  {
    var times := TimesAgainst(s.attempts, c.manager);
    TimesAgainstSnoc(s.attempts, Attempt(c.manager, c.actor, OutcomeOf(c), c.now), c.manager);
    CountKeeps(Row(s.managers, c.manager), times, before, c.now, ManagerPolicy);
    ManagerOkFrom(Fail(s, c), c.manager, c.now, times + [c.now]);
  }

  lemma RunManagers(s: State, before: int, c: Challenge, m: Id)
    requires ManagerOk(s, m, before) && before <= c.now
    ensures ManagerOk(Run(s, c).0, m, c.now)
  {
    var n := Run(s, c).0;
    if m == c.manager && Run(s, c).1.FailedAuthentication? {
      FailureAgainst(s, before, c);
    } else if m == c.manager && Run(s, c).1.Authenticated? {
      TimesAgainstSnoc(s.attempts, Attempt(c.manager, c.actor, Succeeded, c.now), m);
      ManagerOkFrom(n, m, c.now, []);
    } else {
      UncountedAgainst(s, n, n.attempts[|s.attempts|], m, before, c.now);
    }
  }

  lemma RunEvents(s: State, before: int, c: Challenge)
    requires Inv(s, before) && before <= c.now
    ensures forall e :: e in Run(s, c).0.events ==> e.attemptCount == PER_ACTOR_FAILURE_THRESHOLD
  {
    if Run(s, c).1.FailedAuthentication? {
      assert ActorOk(s, c.actor, before);
      CountKeeps(Row(s.actors, c.actor), FailureTimes(s.attempts, c.actor), before, c.now, ActorPolicy);
    }
  }

  lemma RunKeeps(s: State, before: int, c: Challenge)
    requires Inv(s, before) && before <= c.now
    ensures Inv(Run(s, c).0, c.now)
  {
    var n := Run(s, c).0;
    forall a ensures ActorOk(n, a, c.now) {
      assert ActorOk(s, a, before);
      RunActors(s, before, c, a);
    }
    forall m ensures ManagerOk(n, m, c.now) {
      assert ManagerOk(s, m, before);
      RunManagers(s, before, c, m);
    }
    RunEvents(s, before, c);
  }

  function LastNow(challenges: seq<Challenge>, start: int): int {
    if challenges == [] then start else challenges[|challenges| - 1].now
  }

  lemma {:induction false} ExecKeeps(challenges: seq<Challenge>, start: int)
    requires ClockNeverBack(challenges) && (challenges != [] ==> start <= challenges[0].now)
    ensures Inv(Exec(challenges), LastNow(challenges, start))
  {
    if challenges == [] {
      forall a ensures ActorOk(Empty, a, start) && ManagerOk(Empty, a, start) {
      }
    } else {
      var n := |challenges| - 1;
      ExecKeeps(challenges[..n], start);
      RunKeeps(Exec(challenges[..n]), LastNow(challenges[..n], start), challenges[n]);
    }
  }

  lemma ReachableInv(challenges: seq<Challenge>)
    requires ClockNeverBack(challenges)
    ensures Inv(Exec(challenges), LastNow(challenges, 0))
  {
    ExecKeeps(challenges, if challenges == [] then 0 else challenges[0].now);
  }

  // ------------------------------------------------------- over every run

  /** Neither counter ever passes its threshold. */
  lemma CountersBounded(challenges: seq<Challenge>, actor: Id, manager: Id)
    requires ClockNeverBack(challenges)
    ensures Row(Exec(challenges).actors, actor).failures <= PER_ACTOR_FAILURE_THRESHOLD
    ensures Row(Exec(challenges).managers, manager).failures <= PER_MANAGER_FAILURE_THRESHOLD
  {
    ReachableInv(challenges);
    var now := LastNow(challenges, 0);
    var s := Exec(challenges);
    assert ActorOk(s, actor, now) && ManagerOk(s, manager, now);
    RowBounded(Row(s.actors, actor), FailureTimes(s.attempts, actor), now, ActorPolicy);
    RowBounded(Row(s.managers, manager), TimesAgainst(s.attempts, manager), now, ManagerPolicy);
  }

  lemma RowBounded(row: Counter, times: seq<int>, now: int, policy: Policy)
    requires CounterInv(row, times, now, policy)
    ensures row.failures <= policy.threshold
  {
    if times != [] {
      assert CountAt(times, |times| - 1) <= policy.threshold;
    }
  }

  /** The counter is the number of these failures in the window they open, and they were throttled. */
  ghost predicate CountsLedger(row: Counter, times: seq<int>, policy: Policy) {
    row.failures == (if times == [] then 0 else CountAt(times, |times| - 1)) && Throttled(times, policy)
  }

  lemma RowCountsLedger(row: Counter, times: seq<int>, now: int, policy: Policy)
    requires CounterInv(row, times, now, policy)
    ensures CountsLedger(row, times, policy)
  {
  }

  /**
   * Each counter is what the ledger says: the actor's failures, never reset by a success, and the
   * failures against the manager since the last success, each within the window they open.
   */
  lemma CountersAreLedgerCounts(challenges: seq<Challenge>, id: Id)
    requires ClockNeverBack(challenges)
    ensures CountsLedger(Row(Exec(challenges).actors, id), FailureTimes(Exec(challenges).attempts, id), ActorPolicy)
    ensures CountsLedger(Row(Exec(challenges).managers, id), TimesAgainst(Exec(challenges).attempts, id), ManagerPolicy)
  {
    ReachableInv(challenges);
    var now := LastNow(challenges, 0);
    var s := Exec(challenges);
    assert ActorOk(s, id, now);
    RowCountsLedger(Row(s.actors, id), FailureTimes(s.attempts, id), now, ActorPolicy);
    assert ManagerOk(s, id, now);
    RowCountsLedger(Row(s.managers, id), TimesAgainst(s.attempts, id), now, ManagerPolicy);
  }

  lemma RestartsAtOne(row: Counter, times: seq<int>, before: int, now: int, policy: Policy)
    requires CounterInv(row, times, before, policy) && before <= now && !IsActiveLock(row, now)
             && LockOutlivesWindow(policy)
    ensures row.failures == policy.threshold ==> CountFailure(row, now, policy).failures == 1
  {
    if times != [] {
      WindowOver(times, now, policy);
    }
  }

  /** When a lock is over, the next counted failure starts again at 1, for the actor and for the manager. */
  lemma ExpiredLockRestarts(challenges: seq<Challenge>, c: Challenge)
    requires ClockNeverBack(challenges + [c])
    requires Run(Exec(challenges), c).1.FailedAuthentication?
    ensures var s, n := Exec(challenges), Run(Exec(challenges), c).0;
            && (Row(s.actors, c.actor).failures == PER_ACTOR_FAILURE_THRESHOLD ==> Row(n.actors, c.actor).failures == 1)
            && (Row(s.managers, c.manager).failures == PER_MANAGER_FAILURE_THRESHOLD ==>
                Row(n.managers, c.manager).failures == 1)
  {
    PrefixClock(challenges, c);
    var now := if challenges == [] then c.now else challenges[|challenges| - 1].now;
    ExecKeeps(challenges, if challenges == [] then c.now else challenges[0].now);
    var s := Exec(challenges);
    assert ActorOk(s, c.actor, now) && ManagerOk(s, c.manager, now);
    RestartsAtOne(Row(s.actors, c.actor), FailureTimes(s.attempts, c.actor), now, c.now, ActorPolicy);
    RestartsAtOne(Row(s.managers, c.manager), TimesAgainst(s.attempts, c.manager), now, c.now, ManagerPolicy);
  }

  lemma PrefixClock(challenges: seq<Challenge>, c: Challenge)
    requires ClockNeverBack(challenges + [c])
    ensures ClockNeverBack(challenges)
    ensures forall x :: x in challenges ==> x.now <= c.now
  {
    var all := challenges + [c];
    forall i, j | 0 <= i < j < |challenges| ensures challenges[i].now <= challenges[j].now {
      assert all[i].now <= all[j].now;
    }
    forall x | x in challenges ensures x.now <= c.now {
      var i :| 0 <= i < |challenges| && challenges[i] == x;
      assert all[i].now <= all[|challenges|].now;
    }
  }

  /** Each actor lock writes one security event, with count ten, and nothing else does. */
  lemma OneEventPerLock(challenges: seq<Challenge>, actor: Id)
    requires ClockNeverBack(challenges)
    ensures var s := Exec(challenges);
            var times := FailureTimes(s.attempts, actor);
            && EventTimes(s.events, actor) == LockTimes(times, |times|)
            && forall e :: e in s.events ==> e.attemptCount == PER_ACTOR_FAILURE_THRESHOLD
  {
    ReachableInv(challenges);
    var now := LastNow(challenges, 0);
    assert ActorOk(Exec(challenges), actor, now);
  }

  // ------------------------------------------------------- what is answered

  /** The answer and the ledger row of one challenge, and what it leaves alone, from the two rows it locks. */
  lemma DecisionExactlyWhen(s: State, c: Challenge)
    ensures var actor, manager := Row(s.actors, c.actor), Row(s.managers, c.manager);
            var actorLocked := actor.lockedUntil.Some? && actor.lockedUntil.value > c.now;
            var managerLocked := manager.lockedUntil.Some? && manager.lockedUntil.value > c.now;
            var (n, decision) := Run(s, c);
            && (decision == Authenticated(c.now) <==> !actorLocked && !managerLocked && c.managerUsable && c.pinMatches)
            && (decision.Authenticated? ==> decision.at == c.now)
            && (decision.RateLimited? <==> actorLocked || managerLocked)
            && (actorLocked ==> decision == RateLimited(actor.lockedUntil.value - c.now))
            && (!actorLocked && managerLocked ==> decision == RateLimited(manager.lockedUntil.value - c.now))
            && (decision.RateLimited? ==>
                  && n.actors == s.actors && n.managers == s.managers && n.events == s.events
                  && n.attempts == s.attempts + [Attempt(c.manager, c.actor, RejectedLocked, c.now)])
            && (decision.Authenticated? ==>
                  && n.actors == s.actors && n.events == s.events
                  && Row(n.managers, c.manager) == Counter(0, None, None)
                  && n.attempts == s.attempts + [Attempt(c.manager, c.actor, Succeeded, c.now)])
            && (decision.FailedAuthentication? ==>
                  n.attempts == s.attempts + [Attempt(c.manager, c.actor, if c.managerUsable then FailedWrongPin
                                                      else FailedUnknownOrInactiveManager, c.now)])
            && (forall x :: x != c.actor ==> Row(n.actors, x) == Row(s.actors, x))
            && (forall x :: x != c.manager ==> Row(n.managers, x) == Row(s.managers, x))
  {
  }

  lemma InvBefore(challenges: seq<Challenge>, c: Challenge) returns (before: int)
    requires ClockNeverBack(challenges + [c])
    ensures before <= c.now && Inv(Exec(challenges), before)
  {
    PrefixClock(challenges, c);
    before := if challenges == [] then c.now else challenges[|challenges| - 1].now;
    ExecKeeps(challenges, if challenges == [] then c.now else challenges[0].now);
  }

  /** When the last failure filled its window: the end of the lock it starts. */
  function LockEnd(times: seq<int>, threshold: nat, lockMs: int): Option<int> {
    if times != [] && CountAt(times, |times| - 1) == threshold then Some(times[|times| - 1] + lockMs) else None
  }

  predicate Later(t: Option<int>, now: int) { t.Some? && t.value > now }

  lemma LockedByLedger(row: Counter, times: seq<int>, before: int, now: int, policy: Policy)
    requires CounterInv(row, times, before, policy) && before <= now
    ensures IsActiveLock(row, now) <==> Later(LockEnd(times, policy.threshold, policy.lockMs), now)
    ensures IsActiveLock(row, now) ==> row.lockedUntil == LockEnd(times, policy.threshold, policy.lockMs)
  {
  }

  lemma ActorLockFromLedger(challenges: seq<Challenge>, c: Challenge, end: Option<int>)
    requires ClockNeverBack(challenges + [c])
    requires end == LockEnd(FailureTimes(Exec(challenges).attempts, c.actor), 10, 30 * 60_000)
    ensures IsActiveLock(Row(Exec(challenges).actors, c.actor), c.now) <==> Later(end, c.now)
    ensures Later(end, c.now) ==> Row(Exec(challenges).actors, c.actor).lockedUntil == end
  {
    var before := InvBefore(challenges, c);
    var s := Exec(challenges);
    assert ActorOk(s, c.actor, before);
    LockedByLedger(Row(s.actors, c.actor), FailureTimes(s.attempts, c.actor), before, c.now, ActorPolicy);
  }

  lemma ManagerLockFromLedger(challenges: seq<Challenge>, c: Challenge, end: Option<int>)
    requires ClockNeverBack(challenges + [c])
    requires end == LockEnd(TimesAgainst(Exec(challenges).attempts, c.manager), 5, 15 * 60_000)
    ensures IsActiveLock(Row(Exec(challenges).managers, c.manager), c.now) <==> Later(end, c.now)
    ensures Later(end, c.now) ==> Row(Exec(challenges).managers, c.manager).lockedUntil == end
  {
    var before := InvBefore(challenges, c);
    var s := Exec(challenges);
    assert ManagerOk(s, c.manager, before);
    LockedByLedger(Row(s.managers, c.manager), TimesAgainst(s.attempts, c.manager), before, c.now, ManagerPolicy);
  }

  /**
   * Over every run the answer can be read off the ledger: refused for 30 minutes after the actor's tenth
   * failure in a window, else for 15 minutes after the fifth against the manager, else by the PIN.
   */
  lemma DecisionFromLedger(challenges: seq<Challenge>, c: Challenge, own: Option<int>, against: Option<int>)
    requires ClockNeverBack(challenges + [c])
    requires own == LockEnd(FailureTimes(Exec(challenges).attempts, c.actor), 10, 30 * 60_000)
    requires against == LockEnd(TimesAgainst(Exec(challenges).attempts, c.manager), 5, 15 * 60_000)
    ensures Run(Exec(challenges), c).1 ==
              if Later(own, c.now) then RateLimited(own.value - c.now)
              else if Later(against, c.now) then RateLimited(against.value - c.now)
              else if c.managerUsable && c.pinMatches then Authenticated(c.now)
              else FailedAuthentication
  {
    ActorLockFromLedger(challenges, c, own);
    ManagerLockFromLedger(challenges, c, against);
  }

  /** An active lock stands, whatever is tried meanwhile. */
  lemma LockStands(s: State, c: Challenge, id: Id)
    ensures IsActiveLock(Row(s.actors, id), c.now) ==> Row(Run(s, c).0.actors, id) == Row(s.actors, id)
    ensures IsActiveLock(Row(s.managers, id), c.now) ==> Row(Run(s, c).0.managers, id) == Row(s.managers, id)
  {
  }

  lemma {:induction false} LocksStand(challenges: seq<Challenge>, more: seq<Challenge>, id: Id, now: int)
    requires forall x :: x in more ==> x.now <= now
    ensures var s, n := Exec(challenges), Exec(challenges + more);
            && (IsActiveLock(Row(s.actors, id), now) ==> Row(n.actors, id) == Row(s.actors, id))
            && (IsActiveLock(Row(s.managers, id), now) ==> Row(n.managers, id) == Row(s.managers, id))
    decreases |more|
  {
    if more == [] {
      assert challenges + more == challenges;
    } else {
      var k := |more| - 1;
      LocksStand(challenges, more[..k], id, now);
      assert challenges + more == (challenges + more[..k]) + [more[k]];
      ExecSnoc(challenges + more[..k], more[k]);
      assert more[k] in more;
      LockStands(Exec(challenges + more[..k]), more[k], id);
    }
  }

  /**
   * No one gets in while locked: for 30 minutes after the failure that fills an actor's window, every
   * challenge of that actor is refused, and for 15 every challenge of a manager whose window is full.
   */
  lemma NoEntryWhileLocked(challenges: seq<Challenge>, more: seq<Challenge>, c: Challenge, own: Option<int>,
                           against: Option<int>)
    requires ClockNeverBack(challenges + more + [c])
    requires own == LockEnd(FailureTimes(Exec(challenges).attempts, c.actor), 10, 30 * 60_000)
    requires against == LockEnd(TimesAgainst(Exec(challenges).attempts, c.manager), 5, 15 * 60_000)
    ensures Later(own, c.now) ==> Run(Exec(challenges + more), c).1 == RateLimited(own.value - c.now)
    ensures Later(against, c.now) ==> Run(Exec(challenges + more), c).1.RateLimited?
  {
    MoreIsBefore(challenges, more, c);
    ActorLockFromLedger(challenges, c, own);
    ManagerLockFromLedger(challenges, c, against);
    LocksStand(challenges, more, c.actor, c.now);
    LocksStand(challenges, more, c.manager, c.now);
  }

  lemma MoreIsBefore(challenges: seq<Challenge>, more: seq<Challenge>, c: Challenge)
    requires ClockNeverBack(challenges + more + [c])
    ensures ClockNeverBack(challenges + [c]) && forall x :: x in more ==> x.now <= c.now
  {
    var all, some := challenges + more + [c], challenges + [c];
    PrefixClock(challenges + more, c);
    forall i, j | 0 <= i < j < |some| ensures some[i].now <= some[j].now {
      assert all[i] == some[i];
      assert j < |challenges| ==> all[j] == some[j];
      assert all[|all| - 1] == c;
    }
    forall x | x in more ensures x.now <= c.now {
      assert x in challenges + more;
    }
  }

  /** A failure opens or fills the window that the ledger says, and the event of a full one names it. */
  lemma FailureCounted(s: State, before: int, c: Challenge, times: seq<int>)
    requires ActorOk(s, c.actor, before) && before <= c.now && Run(s, c).1.FailedAuthentication?
    requires times == FailureTimes(s.attempts, c.actor) + [c.now]
    ensures FailureTimes(Run(s, c).0.attempts, c.actor) == times
    ensures var row, n := CountFailure(Row(s.actors, c.actor), c.now, ActorPolicy), |times| - 1;
            && row.failures == CountAt(times, n) && row.windowStartedAt == Some(times[Opener(times, n)])
    ensures Locks(Row(s.actors, c.actor), c.now, ActorPolicy) <==> CountAt(times, |times| - 1) == 10
  {
    CountKeeps(Row(s.actors, c.actor), FailureTimes(s.attempts, c.actor), before, c.now, ActorPolicy);
    FailureTimesSnoc(s.attempts, Attempt(c.manager, c.actor, OutcomeOf(c), c.now), c.actor);
  }

  lemma EventOfStep(s: State, c: Challenge, row: Counter)
    requires row == CountFailure(Row(s.actors, c.actor), c.now, ActorPolicy)
    ensures var n := Run(s, c).0;
            n.events ==
              if Run(s, c).1.FailedAuthentication? && Locks(Row(s.actors, c.actor), c.now, ActorPolicy) then
                s.events + [SecurityEvent(c.actor, row.failures,
                                          ManagersTried(n.attempts, c.actor, row.windowStartedAt.value), c.now)]
              else s.events
  {
  }

  /** Every manager the actor tried since a time, whatever came of it. */
  lemma TriedSince(attempts: seq<Attempt>, actor: Id, since: int, m: Id)
    ensures m in ManagersTried(attempts, actor, since) <==>
            exists a :: a in attempts && a.actor == actor && a.manager == m && a.at >= since
  {
  }

  lemma FailureCountedInRun(challenges: seq<Challenge>, c: Challenge, times: seq<int>)
    requires ClockNeverBack(challenges + [c]) && Run(Exec(challenges), c).1.FailedAuthentication?
    requires times == FailureTimes(Run(Exec(challenges), c).0.attempts, c.actor)
    ensures times != []
    ensures var row := CountFailure(Row(Exec(challenges).actors, c.actor), c.now, ActorPolicy);
            && row.failures == CountAt(times, |times| - 1)
            && row.windowStartedAt == Some(times[Opener(times, |times| - 1)])
            && (Locks(Row(Exec(challenges).actors, c.actor), c.now, ActorPolicy) <==> CountAt(times, |times| - 1) == 10)
  {
    var before := ActorOkBefore(challenges, c);
    FailureCounted(Exec(challenges), before, c, FailureTimes(Exec(challenges).attempts, c.actor) + [c.now]);
  }

  lemma ActorOkBefore(challenges: seq<Challenge>, c: Challenge) returns (before: int)
    requires ClockNeverBack(challenges + [c])
    ensures before <= c.now && ActorOk(Exec(challenges), c.actor, before)
  {
    before := InvBefore(challenges, c);
    assert ActorOk(Exec(challenges), c.actor, before);
  }

  /** The event of a lock names its actor, the count and every manager tried in the window that filled up. */
  lemma EventNamesManagers(challenges: seq<Challenge>, c: Challenge, s: State, n: State, times: seq<int>)
    requires ClockNeverBack(challenges + [c]) && s == Exec(challenges) && n == Run(s, c).0
    requires times == FailureTimes(n.attempts, c.actor)
    ensures Run(s, c).1.FailedAuthentication? ==> times != []
    ensures if Run(s, c).1.FailedAuthentication? && CountAt(times, |times| - 1) == 10 then
              var tried := ManagersTried(n.attempts, c.actor, times[Opener(times, |times| - 1)]);
              n.events == s.events + [SecurityEvent(c.actor, 10, tried, c.now)]
            else n.events == s.events
  {
    EventOfStep(s, c, CountFailure(Row(s.actors, c.actor), c.now, ActorPolicy));
    if Run(s, c).1.FailedAuthentication? {
      FailureCountedInRun(challenges, c, times);
    }
  }

  const MOST_IN_ANY_WINDOW := 18

  /** Failures less than a window apart: at most eight of an old window and ten of a new one. */
  lemma CloseFailures(times: seq<int>, lo: nat, hi: nat)
    requires Ascending(times) && Throttled(times, ActorPolicy) && lo <= hi < |times|
             && times[hi] - times[lo] < COUNT_WINDOW_MS
    ensures hi - lo + 1 <= MOST_IN_ANY_WINDOW
  {
    var s := Opener(times, hi);
    assert CountAt(times, hi) <= PER_ACTOR_FAILURE_THRESHOLD;
    if s > lo {
      OpenerStarts(times, hi);
      var o := Opener(times, s - 1);
      assert times[s] - times[o] >= COUNT_WINDOW_MS;
      assert s <= hi && times[s] <= times[hi];
      assert o < lo;
      assert CountAt(times, s - 1) <= PER_ACTOR_FAILURE_THRESHOLD;
      assert times[lo] <= times[s - 1];
    }
  }

  /** The opener of a window is its own opener. */
  lemma {:induction false} OpenerStarts(times: seq<int>, i: nat)
    requires i < |times|
    ensures var o := Opener(times, i); Opener(times, o) == o
  {
    if i > 0 && Opener(times, i) != i {
      OpenerStarts(times, i - 1);
    }
  }

  // Counting inside an arbitrary interval

  predicate Within(from: int, t: int) { from <= t < from + COUNT_WINDOW_MS }

  /** Counted failures of an actor in the half-open window-length interval that starts at `from`. */
  function FailuresWithin(attempts: seq<Attempt>, actor: Id, from: int): seq<int> {
    Select((t: int) => Within(from, t), FailureTimes(attempts, actor))
  }

  lemma {:induction false} SelectAtMost(times: seq<int>, from: int)
    ensures |Select((t: int) => Within(from, t), times)| <= |times|
  {
    if times != [] {
      SelectAtMost(times[1..], from);
    }
  }

  lemma SelectBetween(times: seq<int>, from: int, lo: nat, hi: nat)
    requires lo <= hi <= |times|
    requires forall i :: 0 <= i < |times| && Within(from, times[i]) ==> lo <= i < hi
    ensures |Select((t: int) => Within(from, t), times)| <= hi - lo
  {
    var keep := (t: int) => Within(from, t);
    var front, middle, back := times[..lo], times[lo..hi], times[hi..];
    assert times == front + (middle + back);
    SelectAppend(keep, front, middle + back);
    SelectAppend(keep, middle, back);
    SelectNone(keep, front);
    SelectNone(keep, back);
    SelectAtMost(middle, from);
  }

  lemma ThrottledWithin(times: seq<int>, from: int)
    requires Ascending(times) && Throttled(times, ActorPolicy)
    ensures |Select((t: int) => Within(from, t), times)| <= MOST_IN_ANY_WINDOW
  {
    if exists i :: 0 <= i < |times| && Within(from, times[i]) {
      var lo, hi := Ends(times, from);
      CloseFailures(times, lo, hi);
      SelectBetween(times, from, lo, hi + 1);
    } else {
      assert forall t :: t in times ==> !Within(from, t);
      SelectNone((t: int) => Within(from, t), times);
    }
  }

  /** The first and the last failure inside the interval. */
  lemma Ends(times: seq<int>, from: int) returns (lo: nat, hi: nat)
    requires exists i :: 0 <= i < |times| && Within(from, times[i])
    ensures lo <= hi < |times| && Within(from, times[lo]) && Within(from, times[hi])
    ensures forall i :: 0 <= i < |times| && Within(from, times[i]) ==> lo <= i <= hi
  {
    lo := 0;
    while !Within(from, times[lo])
      invariant lo < |times|
      invariant forall i :: 0 <= i < lo ==> !Within(from, times[i])
      decreases |times| - lo
    {
      if lo + 1 == |times| {
        assert forall i :: 0 <= i < |times| ==> !Within(from, times[i]);
      }
      lo := lo + 1;
    }
    hi := |times| - 1;
    while !Within(from, times[hi])
      invariant lo <= hi < |times|
      invariant forall i :: hi < i < |times| ==> !Within(from, times[i])
      decreases hi
    {
      hi := hi - 1;
    }
  }

  /** Whichever managers are targeted, no 15-minute interval holds more than 18 counted failures of an actor. */
  lemma ThrottledInterval(challenges: seq<Challenge>, actor: Id, from: int)
    requires ClockNeverBack(challenges)
    ensures |FailuresWithin(Exec(challenges).attempts, actor, from)| <= MOST_IN_ANY_WINDOW
    ensures |Select((t: int) => from <= t < from + 15 * 60_000, FailureTimes(Exec(challenges).attempts, actor))| <= 18
  {
    SelectEqual((t: int) => from <= t < from + 15 * 60_000, (t: int) => Within(from, t),
                FailureTimes(Exec(challenges).attempts, actor));
    ReachableInv(challenges);
    var now := LastNow(challenges, 0);
    assert ActorOk(Exec(challenges), actor, now);
    ThrottledWithin(FailureTimes(Exec(challenges).attempts, actor), from);
  }

  // The bound is reached

  /** A different manager each time, so that no manager lock gets in the way. */
  function Target(i: nat): Id { seq(i, _ => 'm') }

  function Miss(i: nat): Challenge {
    var now := if i == 0 then 0 else if i < 9 then COUNT_WINDOW_MS - 1 else COUNT_WINDOW_MS;
    Challenge(now, "a", Target(i), true, false)
  }

  function Misses(n: nat): seq<Challenge> {
    if n == 0 then [] else Misses(n - 1) + [Miss(n - 1)]
  }

  function MissTimes(n: nat): seq<int> {
    if n == 0 then [] else MissTimes(n - 1) + [Miss(n - 1).now]
  }

  lemma ExecSnoc(challenges: seq<Challenge>, c: Challenge)
    ensures Exec(challenges + [c]) == Run(Exec(challenges), c).0
  {
    assert (challenges + [c])[..|challenges|] == challenges;
  }

  /** The actor's counter after `n` misses. */
  ghost predicate AfterMisses(s: State, n: nat) {
    var row := Row(s.actors, "a");
    && FailureTimes(s.attempts, "a") == MissTimes(n)
    && (forall m :: m in s.managers ==> |m| < n)
    && row.failures == (if n <= 9 then n else n - 9)
    && row.windowStartedAt == (if n == 0 then None else if n <= 9 then Some(0) else Some(COUNT_WINDOW_MS))
    && (n < 19 ==> row.lockedUntil == None)
  }

  lemma MissOnce(s: State, n: nat)
    requires n < 19 && AfterMisses(s, n)
    ensures AfterMisses(Run(s, Miss(n)).0, n + 1)
  {
    var c := Miss(n);
    assert |Target(n)| == n;
    assert Row(s.managers, c.manager) == Fresh;
    FailureTimesSnoc(s.attempts, Attempt(c.manager, "a", FailedWrongPin, c.now), "a");
  }

  lemma {:induction false} MissesAreCounted(n: nat)
    requires n <= 19
    ensures AfterMisses(Exec(Misses(n)), n)
  {
    if n > 0 {
      MissesAreCounted(n - 1);
      ExecSnoc(Misses(n - 1), Miss(n - 1));
      MissOnce(Exec(Misses(n - 1)), n - 1);
    }
  }

  lemma {:induction false} MissesAscend(n: nat)
    ensures |Misses(n)| == n && ClockNeverBack(Misses(n))
    ensures forall i :: 0 <= i < n ==> Misses(n)[i] == Miss(i)
  {
    if n > 0 {
      MissesAscend(n - 1);
    }
  }

  lemma {:induction false} MissTimesAre(n: nat)
    requires 1 <= n <= 19
    ensures |Select((t: int) => Within(COUNT_WINDOW_MS - 1, t), MissTimes(n))| == n - 1
  {
    var keep := (t: int) => Within(COUNT_WINDOW_MS - 1, t);
    if n == 1 {
      assert MissTimes(1) == [0];
    } else {
      MissTimesAre(n - 1);
      SelectAppend(keep, MissTimes(n - 1), [Miss(n - 1).now]);
      assert Select(keep, [Miss(n - 1).now]) == [Miss(n - 1).now];
    }
  }

  /** Eighteen failures inside one interval do happen. */
  lemma BoundIsReached()
    ensures ClockNeverBack(Misses(19))
    ensures |FailuresWithin(Exec(Misses(19)).attempts, "a", COUNT_WINDOW_MS - 1)| == MOST_IN_ANY_WINDOW
  {
    MissesAscend(19);
    MissesAreCounted(19);
    MissTimesAre(19);
  }
}
