/**
 * Concurrent enrollments with one token: verifyToken at the start, and the consume step at the end
 * as the load and the save it is. `usedCount` is a counter of the kind in Counters.
 */
module EnrollmentBudget {
  import opened Common
  import opened SetupService
  import opened Counters

  datatype Phase = Verified | Loaded(reading: Reading)

  /** History of an enrollment that was accepted: who asked, when, and whether the token's user was active. */
  datatype Start = Start(employeeId: string, userActive: bool, at: int)

  /** `peak` is the most enrollments ever in flight, `starts` every one that was ever accepted. */
  datatype State = State(
    token: EnrollmentToken, saves: nat, overlapped: bool, flights: map<nat, Phase>, peak: nat, starts: seq<Start>)

  datatype Action =
    | Begin(id: nat, employeeId: string, userActive: bool, now: int)
    | LoadToken(id: nat)
    | SaveToken(id: nat)
    | Abort(id: nat)

  function CounterOf(s: State): Counter {
    Counter(s.token.usedCount, s.saves, s.overlapped)
  }

  predicate Accepts(token: EnrollmentToken, employeeId: string, userActive: bool, now: int) {
    TokenAccepts(map["" := token], map[token.userId := userActive], "", employeeId, now)
  }

  function Apply(s: State, a: Action): State {
    match a
    case Begin(id, employeeId, userActive, now) =>
      if id in s.flights || !Accepts(s.token, employeeId, userActive, now) then s
      else s.(flights := s.flights[id := Verified], peak := Max(s.peak, |s.flights| + 1),
              starts := s.starts + [Start(employeeId, userActive, now)])
    case LoadToken(id) =>
      if id !in s.flights || s.flights[id].Loaded? then s
      else s.(flights := s.flights[id := Loaded(Load(CounterOf(s)))])
    case SaveToken(id) =>
      if id !in s.flights || s.flights[id].Verified? then s
      else
        var counter := Save(CounterOf(s), s.flights[id].reading);
        State(SaveUse(s.token, s.flights[id].reading.value), counter.saves, counter.overlapped, s.flights - {id},
          s.peak, s.starts)
    case Abort(id) => s.(flights := s.flights - {id})
  }

  function Run(s: State, actions: seq<Action>): State
    decreases |actions|
  {
    if actions == [] then s else Run(Apply(s, actions[0]), actions[1..])
  }

  predicate NewToken(token: EnrollmentToken) {
    !token.isUsed && token.usedCount == 0 && token.maxDevices >= 1
  }

  function Fresh(token: EnrollmentToken): State {
    State(token, 0, false, map[], 0, [])
  }

  ghost predicate Inv(s: State) {
    && s.token.maxDevices >= 1 && Exact(CounterOf(s)) && |s.flights| <= s.peak
    && (forall id :: id in s.flights && s.flights[id].Loaded? ==> Current(CounterOf(s), s.flights[id].reading))
    && (s.token.usedCount >= s.token.maxDevices ==> s.token.isUsed)
    && (!s.overlapped ==>
          && (s.token.isUsed ==> s.token.usedCount >= s.token.maxDevices)
          && s.token.usedCount + |s.flights| < s.token.maxDevices + Max(1, s.peak))
    && (s.peak <= 1 ==> !s.overlapped && forall id :: id in s.flights ==> UpToDate(s, s.flights[id]))
  }

  /** No save has come since the load. */
  predicate UpToDate(s: State, p: Phase) {
    p.Loaded? ==> p.reading.saves == s.saves
  }

  lemma BeginKeepsInv(s: State, a: Action)
    requires Inv(s) && a.Begin?
    ensures Inv(Apply(s, a))
  {
  }

  lemma SaveKeepsInv(s: State, id: nat)
    requires Inv(s) && id in s.flights && s.flights[id].Loaded?
    ensures Inv(Apply(s, SaveToken(id)))
  {
    var s', reading := Apply(s, SaveToken(id)), s.flights[id].reading;
    RemoveKey(s.flights, id);
    if s.peak <= 1 { assert UpToDate(s, s.flights[id]) && |s'.flights| == 0 && s'.flights == map[]; }
    SaveExact(CounterOf(s), reading, reading);
    assert CounterOf(s') == Save(CounterOf(s), reading);
    forall j | j in s'.flights && s'.flights[j].Loaded? ensures Current(CounterOf(s'), s'.flights[j].reading) {
      SaveExact(CounterOf(s), reading, s.flights[j].reading);
    }
  }

  lemma ApplyKeepsInv(s: State, a: Action)
    requires Inv(s)
    ensures Inv(Apply(s, a)) && Apply(s, a).token.maxDevices == s.token.maxDevices
  {
    match a
    case Begin(_, _, _, _) => BeginKeepsInv(s, a);
    case LoadToken(id) =>
      var s' := Apply(s, a);
      if s' != s { assert s'.flights.Keys == s.flights.Keys; assert |s'.flights.Keys| == |s.flights.Keys|; }
    case SaveToken(id) => if id in s.flights && s.flights[id].Loaded? { SaveKeepsInv(s, id); }
    case Abort(id) => RemoveKey(s.flights, id);
  }

  lemma {:induction false} RunKeepsInv(s: State, actions: seq<Action>)
    requires Inv(s)
    ensures Inv(Run(s, actions)) && Run(s, actions).token.maxDevices == s.token.maxDevices
    decreases |actions|
  {
    if actions != [] {
      var next, rest := Apply(s, actions[0]), actions[1..];
      ApplyKeepsInv(s, actions[0]);
      RunKeepsInv(next, rest);
      assert Run(s, actions) == Run(next, rest);
    }
  }

  /**
   * Enrollment conservation under any interleaving. `usedCount` equals the completed enrollments
   * exactly when no save has overwritten another; while that holds, `isUsed` means spent, and
   * completed plus in-flight enrollments stay below `maxDevices` plus the most ever in flight.
   */
  lemma EnrollmentConservation(token: EnrollmentToken, actions: seq<Action>)
    requires NewToken(token)
    ensures var s := Run(Fresh(token), actions);
      && s.token.usedCount <= s.saves && (s.token.usedCount == s.saves <==> !s.overlapped)
      && (!s.overlapped ==>
            && (s.token.isUsed <==> s.token.usedCount >= token.maxDevices)
            && s.saves + |s.flights| <= token.maxDevices + Max(1, s.peak) - 1)
  {
    RunKeepsInv(Fresh(token), actions);
  }

  /** One enrollment at a time: exactly counted, and never more than `maxDevices`. */
  lemma SequentialEnrollment(token: EnrollmentToken, actions: seq<Action>)
    requires NewToken(token) && Run(Fresh(token), actions).peak <= 1
    ensures var s := Run(Fresh(token), actions);
      s.token.usedCount == s.saves <= token.maxDevices && (s.token.isUsed <==> s.saves >= token.maxDevices)
  {
    RunKeepsInv(Fresh(token), actions);
  }

  /** The consume step taken as one: every load is directly followed by its own save. */
  predicate Atomic(actions: seq<Action>)
    decreases |actions|
  {
    actions == [] ||
    if actions[0].LoadToken? then |actions| >= 2 && actions[1] == SaveToken(actions[0].id) && Atomic(actions[2..])
    else Atomic(actions[1..])
  }

  ghost predicate NoneLoaded(s: State) {
    forall id :: id in s.flights ==> s.flights[id].Verified?
  }

  lemma ConsumeStep(s: State, id: nat)
    requires NoneLoaded(s)
    ensures var t := Apply(Apply(s, LoadToken(id)), SaveToken(id)); NoneLoaded(t) && t.overlapped == s.overlapped
  {
  }

  lemma {:induction false} AtomicRun(s: State, actions: seq<Action>)
    requires NoneLoaded(s) && !s.overlapped && Atomic(actions)
    ensures !Run(s, actions).overlapped
    decreases |actions|
  {
    if actions != [] {
      var next, rest := Apply(s, actions[0]), actions[1..];
      assert Run(s, actions) == Run(next, rest);
      if actions[0].LoadToken? {
        ConsumeStep(s, actions[0].id);
        assert rest[1..] == actions[2..];
        assert Run(next, rest) == Run(Apply(next, rest[0]), rest[1..]);
        AtomicRun(Apply(next, rest[0]), actions[2..]);
      } else {
        AtomicRun(next, rest);
      }
    }
  }

  /** With an atomic consume step, any number in flight: exactly counted, and over by less than the most in flight. */
  lemma AtomicEnrollment(token: EnrollmentToken, actions: seq<Action>)
    requires NewToken(token) && Atomic(actions)
    ensures var s := Run(Fresh(token), actions);
      && s.token.usedCount == s.saves && (s.token.isUsed <==> s.saves >= token.maxDevices)
      && s.saves + |s.flights| <= token.maxDevices + Max(1, s.peak) - 1
  {
    AtomicRun(Fresh(token), actions);
    EnrollmentConservation(token, actions);
  }

  /** What never changes of a token, and when the enrollments that came of it were accepted. */
  ghost predicate Rightly(s: State, token: EnrollmentToken) {
    && s.token == token.(usedCount := s.token.usedCount, isUsed := s.token.isUsed)
    && (token.isUsed ==> s.token.isUsed)
    && (forall start :: start in s.starts ==>
          start.at <= token.expiresAt && start.employeeId == token.employeeId && start.userActive)
    && s.saves + |s.flights| <= |s.starts|
  }

  lemma BeginRightly(s: State, a: Action, token: EnrollmentToken)
    requires a.Begin? && Rightly(s, token)
    ensures Rightly(Apply(s, a), token)
  {
    var t := Apply(s, a);
    if t != s {
      var start := Start(a.employeeId, a.userActive, a.now);
      assert t.starts == s.starts + [start];
      assert forall x :: x in t.starts <==> x in s.starts || x == start;
      assert t.flights.Keys == s.flights.Keys + {a.id} && |t.flights.Keys| == |s.flights.Keys| + 1;
    }
  }

  lemma StepRightly(s: State, a: Action, token: EnrollmentToken)
    requires Rightly(s, token)
    ensures Rightly(Apply(s, a), token)
  {
    match a
    case Begin(_, _, _, _) => BeginRightly(s, a, token);
    case LoadToken(id) =>
      var t := Apply(s, a);
      assert t.flights.Keys == s.flights.Keys && |t.flights.Keys| == |s.flights.Keys|;
    case SaveToken(id) => RemoveKey(s.flights, id);
    case Abort(id) => RemoveKey(s.flights, id);
  }

  lemma {:induction false} RunRightly(s: State, actions: seq<Action>, token: EnrollmentToken)
    requires Rightly(s, token)
    ensures Rightly(Run(s, actions), token)
    decreases |actions|
  {
    if actions != [] {
      var next, rest := Apply(s, actions[0]), actions[1..];
      StepRightly(s, actions[0], token);
      RunRightly(next, rest, token);
      assert Run(s, actions) == Run(next, rest);
    }
  }

  lemma {:induction false} UsedForGood(s: State, actions: seq<Action>)
    requires s.token.isUsed
    ensures Run(s, actions).token.isUsed
    decreases |actions|
  {
    if actions != [] {
      var next, rest := Apply(s, actions[0]), actions[1..];
      assert next.token.isUsed;
      UsedForGood(next, rest);
      assert Run(s, actions) == Run(next, rest);
    }
  }

  /**
   * Under every interleaving: each enrollment in flight or completed was accepted at or before the
   * token's expiry, for the token's own employee and with its user active; and however the saves
   * overlap, the token keeps its user, employee, expiry and number of devices, and stays used once it is.
   */
  lemma AcceptedInTime(token: EnrollmentToken, actions: seq<Action>)
    ensures var s := Run(Fresh(token), actions);
      && s.saves + |s.flights| <= |s.starts|
      && (forall start :: start in s.starts ==>
            start.at <= token.expiresAt && start.employeeId == token.employeeId && start.userActive)
      && s.token.userId == token.userId && s.token.employeeId == token.employeeId
      && s.token.expiresAt == token.expiresAt && s.token.maxDevices == token.maxDevices
    ensures forall start: State, more: seq<Action> :: start.token.isUsed ==> Run(start, more).token.isUsed
  {
    forall start: State, more: seq<Action> | start.token.isUsed
      ensures Run(start, more).token.isUsed
    {
      UsedForGood(start, more);
    }
    RunRightly(Fresh(token), actions, token);
  }

  /** Loading and saving, with nothing between, uses the token once, and marks it used at its maximum. */
  lemma ConsumesOne(s: State, id: nat)
    requires id in s.flights && s.flights[id] == Verified
    ensures var t, count := Apply(Apply(s, LoadToken(id)), SaveToken(id)), s.token.usedCount + 1;
      && t.token == s.token.(usedCount := count, isUsed := s.token.isUsed || count >= s.token.maxDevices)
      && t.flights == s.flights - {id} && t.saves == s.saves + 1 && t.overlapped == s.overlapped
  {
    assert Apply(s, LoadToken(id)).flights - {id} == s.flights - {id};
  }

  /** An enrollment that fails after its checks, before or after it loads the token, uses nothing up. */
  lemma FailedUsesNothing(s: State, id: nat, employeeId: string, userActive: bool, now: int)
    requires id !in s.flights
    ensures var begun := Apply(s, Begin(id, employeeId, userActive, now));
      && Apply(begun, Abort(id)) == begun.(flights := s.flights)
      && Apply(Apply(begun, LoadToken(id)), Abort(id)) == begun.(flights := s.flights) && begun.token == s.token
  {
    var begun := Apply(s, Begin(id, employeeId, userActive, now));
    assert begun.flights - {id} == s.flights && Apply(begun, LoadToken(id)).flights - {id} == s.flights;
  }

  /**
   * After a save the token is accepted exactly in time, from its own employee, while its user is
   * active, when the count that the save had loaded was two or more below the maximum.
   */
  lemma AcceptsAfterSave(s: State, id: nat, employeeId: string, userActive: bool, now: int)
    requires Inv(s) && id in s.flights && s.flights[id].Loaded?
    ensures Accepts(Apply(s, SaveToken(id)).token, employeeId, userActive, now) <==>
      && s.flights[id].reading.value + 1 < s.token.maxDevices
      && now <= s.token.expiresAt && employeeId == s.token.employeeId && userActive
  {
  }

  lemma RunFour(s: State, a: Action, b: Action, c: Action, d: Action, rest: seq<Action>)
    ensures Run(s, [a, b, c, d] + rest) == Run(Apply(Apply(Apply(Apply(s, a), b), c), d), rest)
  {
    var all := [a, b, c, d] + rest;
    var r1 := all[1..];
    var r2 := r1[1..];
    var r3 := r2[1..];
    assert r3[1..] == rest;
    assert Run(s, all) == Run(Apply(s, a), r1);
    assert Run(Apply(s, a), r1) == Run(Apply(Apply(s, a), b), r2);
    assert Run(Apply(Apply(s, a), b), r2) == Run(Apply(Apply(Apply(s, a), b), c), r3);
  }

  function ThreeBegun(token: EnrollmentToken): State {
    var start := Start(token.employeeId, true, 0);
    State(token, 0, false, map[1 := Loaded(Reading(0, 0)), 2 := Verified, 3 := Verified], 3, [start, start, start])
  }

  /** Three requests with one token for two devices, the first of them having loaded it. */
  lemma ThreeBegin(token: EnrollmentToken)
    requires NewToken(token) && token.maxDevices == 2 && 0 <= token.expiresAt
    ensures var e := token.employeeId;
      Apply(Apply(Apply(Apply(Fresh(token), Begin(1, e, true, 0)), Begin(2, e, true, 0)), Begin(3, e, true, 0)),
        LoadToken(1))
      == ThreeBegun(token)
  {
    var e := token.employeeId;
    var start := Start(e, true, 0);
    var s1 := State(token, 0, false, map[1 := Verified], 1, [start]);
    assert Apply(Fresh(token), Begin(1, e, true, 0)) == s1;
    var s2 := State(token, 0, false, map[1 := Verified, 2 := Verified], 2, [start, start]);
    assert |s1.flights| == 1 && Apply(s1, Begin(2, e, true, 0)) == s2;
    assert |s2.flights| == 2;
    assert Apply(s2, Begin(3, e, true, 0)) ==
        State(token, 0, false, map[1 := Verified, 2 := Verified, 3 := Verified], 3, [start, start, start]);
  }

  /** The other two complete: the token is spent. */
  lemma TwoComplete(token: EnrollmentToken)
    requires NewToken(token) && token.maxDevices == 2
    ensures var s := ThreeBegun(token);
      Apply(Apply(Apply(Apply(s, LoadToken(2)), SaveToken(2)), LoadToken(3)), SaveToken(3))
      == s.(token := token.(usedCount := 2, isUsed := true), saves := 2, flights := map[1 := Loaded(Reading(0, 0))])
  {
    var s := ThreeBegun(token);
    var s2 := s.(token := token.(usedCount := 1), saves := 1,
                 flights := map[1 := Loaded(Reading(0, 0)), 3 := Verified]);
    assert Apply(Apply(s, LoadToken(2)), SaveToken(2)) == s2;
    assert Apply(s2, LoadToken(3)) == s2.(flights := map[1 := Loaded(Reading(0, 0)), 3 := Loaded(Reading(1, 1))]);
    assert Apply(Apply(s2, LoadToken(3)), SaveToken(3)).flights == map[1 := Loaded(Reading(0, 0))];
  }

  /**
   * A late save reopens a spent token. With a token for two devices, two enrollments complete and it
   * is refused; then a third, which loaded the token before either, saves, and it is accepted again.
   */
  lemma LateSaveReopensToken(token: EnrollmentToken)
    requires NewToken(token) && token.maxDevices == 2 && 0 <= token.expiresAt
    ensures var e := token.employeeId;
      var spent := Run(Fresh(token), [Begin(1, e, true, 0), Begin(2, e, true, 0), Begin(3, e, true, 0), LoadToken(1)]
                                     + ([LoadToken(2), SaveToken(2), LoadToken(3), SaveToken(3)] + []));
      && spent.saves == 2 && !Accepts(spent.token, e, true, 0)
      && Apply(spent, SaveToken(1)).saves == 3 && Accepts(Apply(spent, SaveToken(1)).token, e, true, 0)
  {
    var e := token.employeeId;
    var s := ThreeBegun(token);
    ThreeBegin(token);
    TwoComplete(token);
    RunFour(Fresh(token), Begin(1, e, true, 0), Begin(2, e, true, 0), Begin(3, e, true, 0), LoadToken(1),
            [LoadToken(2), SaveToken(2), LoadToken(3), SaveToken(3)] + []);
    RunFour(s, LoadToken(2), SaveToken(2), LoadToken(3), SaveToken(3), []);
  }
}
