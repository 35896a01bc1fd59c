/**
 The adaptive limiter: a semaphore whose capacity shrinks while its slots are in use. What cannot be
 removed at once becomes debt, paid off by the slots that come back. A returned slot is first counted
 under the lock and only afterwards put back, so it can be on its way while the limit changes.
 */
module Limiters {
  import opened Wrappers

  /** `level` is how far an adjustment under way has got; `limit` the published limit; `free` the slots in
      the channel, `held` those handed out, `transit` those returned and not yet put back. */
  datatype Sys = Sys(min: nat, max: nat, limit: nat, level: nat, goal: Option<nat>,
                     free: nat, debt: nat, held: nat, transit: nat)

  datatype Action = Acquire | GiveBackLock | GiveBackSend | BeginSet(target: int) | GrowOne | ShrinkOne | EndSet

  function Clamp(x: int, min: nat, max: nat): int {
    var low := if x < min then min as int else x;
    if low > max then max else low
  }

  ghost predicate Enabled(s: Sys, a: Action) {
    match a
    case Acquire => s.free > 0
    case GiveBackLock => s.held > 0 && s.goal.None?
    case GiveBackSend => s.transit > 0
    case BeginSet(_) => s.goal.None?
    case GrowOne => s.goal.Some? && s.level < s.goal.value
    case ShrinkOne => s.goal.Some? && s.level > s.goal.value
    case EndSet => s.goal == Some(s.level)
  }

  /** A send into the full channel drops the slot. */
  function Put(s: Sys): Sys {
    if s.free < s.max then s.(free := s.free + 1) else s
  }

  function Apply(s: Sys, a: Action): Sys
    requires Enabled(s, a)
  {
    match a
    case Acquire => s.(free := s.free - 1, held := s.held + 1)
    case GiveBackLock =>
      if s.debt > 0 then s.(held := s.held - 1, debt := s.debt - 1)
      else s.(held := s.held - 1, transit := s.transit + 1)
    case GiveBackSend => Put(s.(transit := s.transit - 1))
    case BeginSet(target) =>
      var goal := Clamp(target, s.min, s.max);
      if goal == s.limit then s else s.(goal := Some(goal))
    case GrowOne =>
      var t := s.(level := s.level + 1);
      if s.debt > 0 then t.(debt := s.debt - 1) else Put(t)
    case ShrinkOne =>
      var t := s.(level := s.level - 1);
      if s.free > 0 then t.(free := s.free - 1) else t.(debt := s.debt + 1)
    case EndSet => s.(limit := s.level, goal := None)
  }

  /** A slot is neither lost nor made: what is free, held or on its way is the level plus the debt. */
  ghost predicate Conserved(s: Sys) {
    && 1 <= s.min <= s.limit <= s.max
    && s.min <= s.level && s.level + s.debt <= s.max
    && s.free + s.held + s.transit == s.level + s.debt
    && (s.goal.None? ==> s.level == s.limit)
    && (s.goal.Some? ==> s.min <= s.goal.value <= s.max)
  }

  ghost predicate Legal(s: Sys, run: seq<Action>)
    decreases |run|
  {
    run == [] || (Enabled(s, run[0]) && Legal(Apply(s, run[0]), run[1..]))
  }

  function Exec(s: Sys, run: seq<Action>): Sys
    requires Legal(s, run)
    decreases |run|
  {
    if run == [] then s else Exec(Apply(s, run[0]), run[1..])
  }

  lemma StepConserves(s: Sys, a: Action)
    requires Conserved(s) && Enabled(s, a)
    ensures Conserved(Apply(s, a))
    ensures a.GiveBackSend? || (a.GrowOne? && s.debt == 0) ==> s.free < s.max
  {
  }

  /** In every run, with slots returned at any moment, the slots add up, and a slot put back always finds
      room: none is dropped. */
  lemma {:induction false} SlotsAreConserved(s: Sys, run: seq<Action>, next: Action)
    requires Conserved(s) && Legal(s, run) && Enabled(Exec(s, run), next)
    ensures var t := Exec(s, run);
      && Conserved(t)
      && (next.GiveBackSend? || (next.GrowOne? && t.debt == 0) ==> t.free < t.max)
    decreases |run|
  {
    if run == [] {
      StepConserves(s, next);
    } else {
      StepConserves(s, run[0]);
      SlotsAreConserved(Apply(s, run[0]), run[1..], next);
    }
  }

  // ----- when the limit binds

  /** Debt is owed only by slots that are held. */
  ghost predicate Settled(s: Sys) {
    s.debt > 0 ==> s.free == 0 && s.transit == 0
  }

  /** No adjustment removes a slot while one is on its way back: what returning in one step would give. */
  ghost predicate Quiet(s: Sys, run: seq<Action>)
    requires Legal(s, run)
    decreases |run|
  {
    run == [] || ((run[0].ShrinkOne? ==> s.transit == 0 || s.free > 0) && Quiet(Apply(s, run[0]), run[1..]))
  }

  /** As long as no slot is written off while one is on its way back, an acquisition is granted only below
      the limit, and when everything has been returned there is no debt and exactly the limit is free. */
  lemma {:induction false} QuietRunsObeyTheLimit(s: Sys, run: seq<Action>)
    requires Conserved(s) && Settled(s) && Legal(s, run) && Quiet(s, run)
    ensures var t := Exec(s, run);
      && Settled(t)
      && (Enabled(t, Acquire) ==> t.held < t.level)
      && (t.held == 0 && t.transit == 0 ==> t.debt == 0 && t.free == t.level)
    decreases |run|
  {
    if run != [] {
      StepConserves(s, run[0]);
      QuietRunsObeyTheLimit(Apply(s, run[0]), run[1..]);
    }
  }

  /** Returning in one step: the lock is not released in between. */
  ghost predicate OneStepReturns(s: Sys, run: seq<Action>)
    requires Legal(s, run)
    decreases |run|
  {
    run == [] || ((s.transit > 0 ==> run[0].GiveBackSend?) && OneStepReturns(Apply(s, run[0]), run[1..]))
  }

  lemma {:induction false} OneStepIsQuiet(s: Sys, run: seq<Action>)
    requires Legal(s, run) && OneStepReturns(s, run)
    ensures Quiet(s, run)
    decreases |run|
  {
    if run != [] {
      OneStepIsQuiet(Apply(s, run[0]), run[1..]);
    }
  }

  /** Were giveBack one step, no acquisition would ever be granted at or above the limit, and once all is
      returned exactly the limit would be free. */
  lemma OneStepReturnsObeyTheLimit(s: Sys, run: seq<Action>)
    requires Conserved(s) && Settled(s) && Legal(s, run) && OneStepReturns(s, run)
    ensures var t := Exec(s, run);
      && (Enabled(t, Acquire) ==> t.held < t.level)
      && (t.held == 0 && t.transit == 0 ==> t.debt == 0 && t.free == t.level)
  {
    OneStepIsQuiet(s, run);
    QuietRunsObeyTheLimit(s, run);
  }

  // ----- a whole adjustment

  lemma Stop(s: Sys)
    ensures Legal(s, []) && Exec(s, []) == s
  {
  }

  lemma Prepend(s: Sys, a: Action, rest: seq<Action>)
    requires Enabled(s, a) && Legal(Apply(s, a), rest)
    ensures Legal(s, Then(a, rest)) && Exec(s, Then(a, rest)) == Exec(Apply(s, a), rest)
  {
    assert Then(a, rest)[1..] == rest;
  }

  function Repeat(a: Action, n: nat): (r: seq<Action>)
    ensures |r| == n
  {
    if n == 0 then [] else [a] + Repeat(a, n - 1)
  }

  /** n slots fewer at once: idle ones go first, the rest becomes debt. */
  function Shrunk(s: Sys, n: nat): Sys
    requires n <= s.level
  {
    s.(level := s.level - n, free := Max(0, s.free - n), debt := s.debt + Max(0, n - s.free))
  }

  /** n slots more at once: debt is cancelled first. */
  function Grown(s: Sys, n: nat): Sys {
    s.(level := s.level + n, debt := Max(0, s.debt - n), free := s.free + Max(0, n - s.debt))
  }

  lemma {:induction false} ShrinkSteps(s: Sys, n: nat)
    requires s.goal.Some? && s.level == s.goal.value + n
    ensures Legal(s, Repeat(ShrinkOne, n)) && Exec(s, Repeat(ShrinkOne, n)) == Shrunk(s, n)
    decreases n
  {
    if n > 0 {
      ShrinkSteps(Apply(s, ShrinkOne), n - 1);
      assert Repeat(ShrinkOne, n)[1..] == Repeat(ShrinkOne, n - 1);
    }
  }

  lemma {:induction false} GrowSteps(s: Sys, n: nat)
    requires Conserved(s) && s.goal.Some? && s.goal.value == s.level + n
    ensures Legal(s, Repeat(GrowOne, n)) && Exec(s, Repeat(GrowOne, n)) == Grown(s, n)
    decreases n
  {
    if n > 0 {
      StepConserves(s, GrowOne);
      GrowSteps(Apply(s, GrowOne), n - 1);
      assert Repeat(GrowOne, n)[1..] == Repeat(GrowOne, n - 1);
    }
  }

  /** Where an uninterrupted adjustment ends. */
  function SetTo(s: Sys, target: int): Sys
    requires Conserved(s) && s.goal.None?
  {
    var goal := Clamp(target, s.min, s.max);
    if goal > s.limit then Grown(s, goal - s.limit).(limit := goal)
    else Shrunk(s, s.limit - goal).(limit := goal)
  }

  /** The steps of the loop that moves the level from one limit to another. */
  function Loop(from: nat, to: nat): seq<Action> {
    if to > from then Repeat(GrowOne, to - from) else Repeat(ShrinkOne, from - to)
  }

  function SetRun(s: Sys, target: int): seq<Action>
    requires Conserved(s) && s.goal.None?
  {
    var goal := Clamp(target, s.min, s.max);
    if goal == s.limit then Then(BeginSet(target), [])
    else Then(BeginSet(target), Loop(s.limit, goal) + Then(EndSet, []))
  }

  lemma {:induction false} ExecJoin(s: Sys, a: seq<Action>, b: seq<Action>)
    requires Legal(s, a) && Legal(Exec(s, a), b)
    ensures Legal(s, a + b) && Exec(s, a + b) == Exec(Exec(s, a), b)
    decreases |a|
  {
    if a == [] {
      assert a + b == b;
    } else {
      ExecJoin(Apply(s, a[0]), a[1..], b);
      assert (a + b)[0] == a[0] && (a + b)[1..] == a[1..] + b;
    }
  }

  /** From `begun` the loop leads to a state whose publication is the new limit. */
  lemma LoopSteps(s: Sys, goal: nat)
    requires Conserved(s) && s.goal.None? && s.min <= goal <= s.max
    ensures var begun := s.(goal := Some(goal)); var loop := Loop(s.limit, goal);
      Legal(begun, loop)
      && Exec(begun, loop) == if goal > s.limit then Grown(begun, goal - s.limit) else Shrunk(begun, s.limit - goal)
  {
    var begun := s.(goal := Some(goal));
    if goal > s.limit {
      GrowSteps(begun, goal - s.limit);
    } else {
      ShrinkSteps(begun, s.limit - goal);
    }
  }

  lemma Publish(s: Sys, goal: nat)
    requires Conserved(s) && s.goal.None? && s.min <= goal <= s.max
    ensures var begun := s.(goal := Some(goal)); var run := Loop(s.limit, goal) + Then(EndSet, []);
      Legal(begun, run) && Exec(begun, run) == SetTo(s, goal)
  {
    var begun, loop := s.(goal := Some(goal)), Loop(s.limit, goal);
    LoopSteps(s, goal);
    hide Legal, Exec, Then, Loop;
    var done := Exec(begun, loop);
    assert Enabled(done, EndSet) && Apply(done, EndSet) == SetTo(s, goal);
    Stop(Apply(done, EndSet));
    Prepend(done, EndSet, []);
    ExecJoin(begun, loop, Then(EndSet, []));
  }

  /** The loops of an adjustment, run without interruption, end there. */
  lemma SetToIsARun(s: Sys, target: int)
    requires Conserved(s) && s.goal.None?
    ensures Legal(s, SetRun(s, target)) && Exec(s, SetRun(s, target)) == SetTo(s, target)
  {
    var goal := Clamp(target, s.min, s.max);
    hide Legal, Exec, Then, Loop;
    if goal == s.limit {
      Stop(s);
      Prepend(s, BeginSet(target), []);
      assert SetTo(s, target) == s;
    } else {
      Publish(s, goal);
      assert Apply(s, BeginSet(target)) == s.(goal := Some(goal));
      assert SetTo(s, target) == SetTo(s, goal);
      Prepend(s, BeginSet(target), Loop(s.limit, goal) + Then(EndSet, []));
    }
  }

  /** An adjustment leaves debt owed only by held slots exactly when it raises the limit, or nothing was on
      its way back, or idle slots covered the whole reduction. */
  lemma AdjustmentSettlesIff(s: Sys, target: int)
    requires Conserved(s) && Settled(s) && s.goal.None?
    ensures var n := s.limit - Clamp(target, s.min, s.max);
      Settled(SetTo(s, target)) <==> s.transit == 0 || n <= s.free
  {
  }

  ghost function Started(min: nat, max: nat, start: nat): Sys {
    Sys(min, max, start, start, None, start, 0, 0, 0)
  }

  function Halving(): seq<Action> {
    Then(BeginSet(1), Then(ShrinkOne, Then(EndSet, Then(GiveBackSend, []))))
  }

  /** With slots returned but not yet put back, the limit is halved to one and then one of them is put back. */
  lemma HalvedInFlight(s: Sys)
    requires s.min == 1 && s.max == 2 && s.limit == s.level == 2 && s.goal.None?
    requires s.free == 0 && s.debt == 0 && s.transit > 0
    ensures Legal(s, Halving())
    ensures Exec(s, Halving()) == s.(limit := 1, level := 1, debt := 1, free := 1, transit := s.transit - 1)
  {
    hide Legal, Exec, Then;
    var a := Apply(s, BeginSet(1));
    var b := Apply(a, ShrinkOne);
    var c := Apply(b, EndSet);
    Stop(Apply(c, GiveBackSend));
    Prepend(c, GiveBackSend, []);
    Prepend(b, EndSet, Then(GiveBackSend, []));
    Prepend(a, ShrinkOne, Then(EndSet, Then(GiveBackSend, [])));
    Prepend(s, BeginSet(1), Then(ShrinkOne, Then(EndSet, Then(GiveBackSend, []))));
  }

  // A limit of two: idle, one and two slots handed out, one returned, both returned and not yet put back.
  const IDLE: Sys := Sys(1, 2, 2, 2, None, 2, 0, 0, 0)
  const ONE_OUT: Sys := Sys(1, 2, 2, 2, None, 1, 0, 1, 0)
  const TWO_OUT: Sys := Sys(1, 2, 2, 2, None, 0, 0, 2, 0)
  const ONE_BACK: Sys := Sys(1, 2, 2, 2, None, 0, 0, 1, 1)
  const TWO_BACK: Sys := Sys(1, 2, 2, 2, None, 0, 0, 0, 2)

  lemma FirstSteps()
    ensures Enabled(IDLE, Acquire) && Apply(IDLE, Acquire) == ONE_OUT
    ensures Enabled(ONE_OUT, Acquire) && Apply(ONE_OUT, Acquire) == TWO_OUT
    ensures Enabled(TWO_OUT, GiveBackLock) && Apply(TWO_OUT, GiveBackLock) == ONE_BACK
    ensures Enabled(ONE_BACK, GiveBackLock) && Apply(ONE_BACK, GiveBackLock) == TWO_BACK
  {
  }

  /** Both slots handed out and one of them returned, but not yet put back. */
  lemma OneReturned(rest: seq<Action>) returns (run: seq<Action>)
    requires Legal(ONE_BACK, rest)
    ensures Legal(IDLE, run) && Exec(IDLE, run) == Exec(ONE_BACK, rest)
  {
    FirstSteps();
    hide *;
    Prepend(TWO_OUT, GiveBackLock, rest);
    run := Then(GiveBackLock, rest);
    Prepend(ONE_OUT, Acquire, run);
    run := Then(Acquire, run);
    Prepend(IDLE, Acquire, run);
    run := Then(Acquire, run);
  }

  /** A slot can be handed out although as many as the limit allows already are. */
  ghost predicate Overcommitted(s: Sys) {
    s.goal.None? && Enabled(s, Acquire) && s.held >= s.limit
  }

  /** Two slots handed out, one returned and counted, the limit halved before it is put back: the slot that
      then arrives can be handed out although the limit is already reached. */
  lemma ReturnInFlightExceedsLimit() returns (run: seq<Action>)
    ensures Legal(IDLE, run) && Overcommitted(Exec(IDLE, run))
  {
    HalvedInFlight(ONE_BACK);
    hide Legal, Exec, Halving;
    assert Overcommitted(Exec(ONE_BACK, Halving()));
    hide *;
    run := OneReturned(Halving());
  }

  /** The same with both returned: everything is back, yet a slot of debt is owed and two are free under a
      limit of one. */
  lemma ReturnInFlightLeavesDebt() returns (run: seq<Action>)
    ensures Legal(IDLE, run)
    ensures var t := Exec(IDLE, run);
      t.held == 0 && t.transit == 0 && t.debt == 1 && t.free == 2 && t.limit == 1
  {
    FirstSteps();
    HalvedInFlight(TWO_BACK);
    hide Legal, Exec, Halving, Then;
    var left := Exec(TWO_BACK, Halving());
    Stop(Apply(left, GiveBackSend));
    Prepend(left, GiveBackSend, []);
    ExecJoin(TWO_BACK, Halving(), Then(GiveBackSend, []));
    Prepend(ONE_BACK, GiveBackLock, Halving() + Then(GiveBackSend, []));
    run := OneReturned(Then(GiveBackLock, Halving() + Then(GiveBackSend, [])));
  }

  // ----- exactly when an adjustment lets the limit be broken later

  /** Only acquisitions and returns, no further adjustment. */
  ghost predicate Plain(run: seq<Action>) {
    forall i :: 0 <= i < |run| ==> run[i].Acquire? || run[i].GiveBackLock? || run[i].GiveBackSend?
  }

  /** Some continuation hands out a slot at or above the limit. */
  ghost predicate WillOvercommit(s: Sys) {
    exists run :: Legal(s, run) && Plain(run) && Overcommitted(Exec(s, run))
  }

  /** Everything is back and debt is still owed. */
  ghost predicate DebtLeft(s: Sys) {
    s.held == 0 && s.transit == 0 && s.debt > 0
  }

  lemma {:induction false} PlainIsQuiet(s: Sys, run: seq<Action>)
    requires Legal(s, run) && Plain(run)
    ensures Quiet(s, run)
    decreases |run|
  {
    if run != [] {
      PlainIsQuiet(Apply(s, run[0]), run[1..]);
    }
  }

  lemma {:induction false} PlainKeepsLimit(s: Sys, run: seq<Action>)
    requires Legal(s, run) && Plain(run)
    ensures var t := Exec(s, run); t.limit == s.limit && t.level == s.level && t.goal == s.goal
    decreases |run|
  {
    if run != [] {
      PlainKeepsLimit(Apply(s, run[0]), run[1..]);
    }
  }

  lemma SettledNeverOvercommits(s: Sys)
    requires Conserved(s) && Settled(s) && s.goal.None?
    ensures !WillOvercommit(s)
  {
    forall run | Legal(s, run) && Plain(run)
      ensures !Overcommitted(Exec(s, run))
    {
      PlainIsQuiet(s, run);
      PlainKeepsLimit(s, run);
      QuietRunsObeyTheLimit(s, run);
    }
  }

  /** Debt beside a slot that is free or on its way back: put slots back and hand them out until as many are
      held as the limit allows; a free one is left. */
  lemma {:induction false} DebtOvercommits(s: Sys) returns (run: seq<Action>)
    requires Conserved(s) && s.goal.None? && s.debt > 0 && s.free + s.transit > 0
    ensures Legal(s, run) && Plain(run) && Overcommitted(Exec(s, run))
    decreases s.transit, s.free
  {
    if s.free > 0 && s.held >= s.limit {
      Stop(s);
      run := [];
    } else {
      var a := if s.free > 0 then Acquire else GiveBackSend;
      StepConserves(s, a);
      run := DebtOvercommits(Apply(s, a));
      Prepend(s, a, run);
      run := Then(a, run);
    }
  }

  lemma SetToConserves(s: Sys, target: int)
    requires Conserved(s) && s.goal.None?
    ensures Conserved(SetTo(s, target)) && SetTo(s, target).goal.None?
  {
  }

  /** After an adjustment that nothing interrupts, the limit can be exceeded if and only if a slot was on its way
      back when it began and the reduction exceeded the idle slots. */
  lemma UninterruptedBreaksIff(s: Sys, target: int)
    requires Conserved(s) && Settled(s) && s.goal.None?
    ensures WillOvercommit(SetTo(s, target))
      <==> s.transit > 0 && s.limit - Clamp(target, s.min, s.max) > s.free
  {
    var t := SetTo(s, target);
    SetToConserves(s, target);
    AdjustmentSettlesIff(s, target);
    if Settled(t) {
      SettledNeverOvercommits(t);
    } else {
      var run := DebtOvercommits(t);
    }
  }

  /** The run contains no adjustment beyond one that may be under way. */
  ghost predicate NoOther(run: seq<Action>) {
    forall i :: 0 <= i < |run| ==> !run[i].BeginSet?
  }

  /** An adjustment to the target, interleaved with acquisitions and returns in any way. */
  ghost predicate OneAdjustment(s: Sys, target: int, run: seq<Action>) {
    run != [] && run[0] == BeginSet(target) && NoOther(run[1..]) && Legal(s, run)
  }

  /** With nothing on its way back, or nothing to be taken away, no slot is written off while one is on its way:
      the lock keeps slots from starting back while the adjustment lasts. */
  lemma {:induction false} HarmlessIsQuiet(s: Sys, run: seq<Action>)
    requires Legal(s, run) && NoOther(run)
    requires s.goal.Some? ==> s.transit == 0 || s.level <= s.goal.value
    ensures Quiet(s, run)
    decreases |run|
  {
    if run != [] {
      HarmlessIsQuiet(Apply(s, run[0]), run[1..]);
    }
  }

  /** The limit is only published at the end, and without an adjustment under way it is the level. */
  lemma {:induction false} RunConserves(s: Sys, run: seq<Action>)
    requires Conserved(s) && Legal(s, run)
    ensures Conserved(Exec(s, run))
    decreases |run|
  {
    if run != [] {
      StepConserves(s, run[0]);
      RunConserves(Apply(s, run[0]), run[1..]);
    }
  }

  lemma PlainIsNoOther(run: seq<Action>)
    requires Plain(run)
    ensures NoOther(run)
  {
  }

  lemma NoOtherMore(a: Action, rest: seq<Action>)
    requires !a.BeginSet? && NoOther(rest)
    ensures NoOther(Then(a, rest))
  {
  }

  /** Take the idle slots first, so that the reduction becomes debt, and finish the adjustment. */
  lemma {:induction false} DrainAndShrink(s: Sys) returns (run: seq<Action>)
    requires Conserved(s) && s.goal.Some? && s.goal.value <= s.level && s.transit > 0
    requires s.debt > 0 || s.level > s.goal.value
    ensures Legal(s, run) && NoOther(run) && Overcommitted(Exec(s, run))
    decreases s.free, s.level
  {
    var a := if s.free > 0 then Acquire else if s.level > s.goal.value then ShrinkOne else EndSet;
    var t := Apply(s, a);
    StepConserves(s, a);
    if a.EndSet? {
      run := DebtOvercommits(t);
      PlainIsNoOther(run);
    } else {
      run := DrainAndShrink(t);
    }
    hide Legal, Exec, Then, Overcommitted, NoOther;
    Prepend(s, a, run);
    NoOtherMore(a, run);
    run := Then(a, run);
  }

  /** However an adjustment is interleaved with acquisitions and returns, during it and after it: some run hands
      out a slot at or above the limit if and only if a slot was on its way back when the adjustment began and
      the limit was lowered. */
  lemma LimitBreaksIff(s: Sys, target: int)
    requires Conserved(s) && Settled(s) && s.goal.None?
    ensures (exists run :: OneAdjustment(s, target, run) && Overcommitted(Exec(s, run)))
      <==> s.transit > 0 && Clamp(target, s.min, s.max) < s.limit
  {
    var begun := Apply(s, BeginSet(target));
    StepConserves(s, BeginSet(target));
    if s.transit > 0 && Clamp(target, s.min, s.max) < s.limit {
      var run := DrainAndShrink(begun);
      Prepend(s, BeginSet(target), run);
      assert Then(BeginSet(target), run)[1..] == run;
      assert OneAdjustment(s, target, Then(BeginSet(target), run));
    } else {
      forall run | OneAdjustment(s, target, run)
        ensures !Overcommitted(Exec(s, run))
      {
        HarmlessIsQuiet(begun, run[1..]);
        QuietRunsObeyTheLimit(begun, run[1..]);
        RunConserves(begun, run[1..]);
      }
    }
  }

  // ----- exactly when debt outlives everything

  /** Return everything; each held slot pays one of the debt. */
  lemma {:induction false} ReturnAll(s: Sys) returns (run: seq<Action>)
    requires Conserved(s) && s.goal.None? && s.debt > s.held
    ensures Legal(s, run) && Plain(run) && DebtLeft(Exec(s, run))
    decreases s.held + s.transit
  {
    if s.held == 0 && s.transit == 0 {
      Stop(s);
      run := [];
    } else {
      var a := if s.held > 0 then GiveBackLock else GiveBackSend;
      StepConserves(s, a);
      run := ReturnAll(Apply(s, a));
      Prepend(s, a, run);
      run := Then(a, run);
    }
  }

  /** While at most the new limit is on its way back, debt never exceeds what is held. */
  lemma {:induction false} DebtStaysHeld(s: Sys, run: seq<Action>)
    requires Conserved(s) && Legal(s, run) && NoOther(run) && s.debt <= s.held
    requires s.goal.Some? ==> s.transit <= s.goal.value
    ensures !DebtLeft(Exec(s, run))
    decreases |run|
  {
    if run != [] {
      StepConserves(s, run[0]);
      DebtStaysHeld(Apply(s, run[0]), run[1..]);
    }
  }

  /** Finish the adjustment and return everything. */
  lemma {:induction false} ShrinkAndReturn(s: Sys) returns (run: seq<Action>)
    requires Conserved(s) && s.goal.Some? && s.goal.value <= s.level && s.transit > s.goal.value
    ensures Legal(s, run) && NoOther(run) && DebtLeft(Exec(s, run))
    decreases s.level
  {
    var a := if s.level > s.goal.value then ShrinkOne else EndSet;
    var t := Apply(s, a);
    StepConserves(s, a);
    if a.EndSet? {
      run := ReturnAll(t);
      PlainIsNoOther(run);
    } else {
      run := ShrinkAndReturn(t);
    }
    hide Legal, Exec, Then, DebtLeft, NoOther;
    Prepend(s, a, run);
    NoOtherMore(a, run);
    run := Then(a, run);
  }

  /** However an adjustment is interleaved: everything can come back with debt still owed if and only if more
      slots were on their way back than the new limit. */
  lemma DebtOutlivesIff(s: Sys, target: int)
    requires Conserved(s) && Settled(s) && s.goal.None?
    ensures (exists run :: OneAdjustment(s, target, run) && DebtLeft(Exec(s, run)))
      <==> s.transit > Clamp(target, s.min, s.max)
  {
    var begun := Apply(s, BeginSet(target));
    StepConserves(s, BeginSet(target));
    if s.transit > Clamp(target, s.min, s.max) {
      var run := ShrinkAndReturn(begun);
      Prepend(s, BeginSet(target), run);
      assert Then(BeginSet(target), run)[1..] == run;
      assert OneAdjustment(s, target, Then(BeginSet(target), run));
    } else {
      forall run | OneAdjustment(s, target, run)
        ensures !DebtLeft(Exec(s, run))
      {
        DebtStaysHeld(begun, run[1..]);
      }
    }
  }

  lemma SameLimit(s: Sys)
    requires Conserved(s) && s.goal.None?
    ensures SetTo(s, s.limit) == s
  {
  }

  // ----- the limiter itself

  datatype Outcome = OK | Throttled | TimedOut | Failed

  datatype Window = Window(ok: nat, throttled: nat, timeout: nat, failed: nat) {
    function Total(): nat {
      ok + throttled + timeout + failed
    }

    predicate ShouldShrink() {
      throttled > 0 || timeout > 0 || (Total() >= 8 && failed * 4 > Total())
    }

    function Count(o: Outcome): Window {
      match o
      case OK => this.(ok := ok + 1)
      case Throttled => this.(throttled := throttled + 1)
      case TimedOut => this.(timeout := timeout + 1)
      case Failed => this.(failed := failed + 1)
    }
  }

  const EMPTY: Window := Window(0, 0, 0, 0)

  const DEFAULT_INTERVAL: int := 10_000_000_000

  /** Halve on trouble, grow by one on success, stay otherwise. */
  function Target(limit: nat, w: Window): int {
    if w.Total() == 0 then limit
    else if w.ShouldShrink() then limit / 2
    else if w.ok > 0 then limit + 1
    else limit
  }

  /** The fields of the limiter; `held` and `transit` record what its callers hold or are putting back. */
  class Limiter {
    const min: nat
    const max: nat
    const interval: int
    const enabled: bool
    var limit: nat
    var free: nat
    var debt: nat
    var window: Window
    var lastAdj: int
    ghost var held: nat
    ghost var transit: nat

    ghost function State(): Sys
      reads this
    {
      Sys(min, max, limit, limit, None, free, debt, held, transit)
    }

    ghost predicate Valid()
      reads this
    {
      Conserved(State())
    }

    constructor (start: int, min: int, max: int, interval: int, enabled: bool, now: int)
      ensures Valid()
      ensures this.interval == (if interval > 0 then interval else 10_000_000_000) && lastAdj == now
      ensures this.min == Max(min, 1) && this.max == Max(max, this.min)
      ensures limit == free == Min(Max(start, this.min), this.max) && debt == held == transit == 0
      ensures var lo := Max(min, 1); var hi := Max(max, lo);
        State() == Started(lo, hi, Clamp(start, lo, hi)) && this.enabled == enabled && window == EMPTY
    {
      var lo := min;
      if lo < 1 {
        lo := 1;
      }
      var hi := max;
      if hi < lo {
        hi := lo;
      }
      var begin := start;
      if begin < lo {
        begin := lo;
      }
      if begin > hi {
        begin := hi;
      }
      this.min, this.max, this.enabled := lo, hi, enabled;
      this.interval := if interval <= 0 then DEFAULT_INTERVAL else interval;
      this.lastAdj := now;
      this.limit, this.debt, this.window := begin, 0, EMPTY;
      this.free, this.held, this.transit := begin, 0, 0;
    }

    /** Granted when a slot is free. */
    method Acquire() returns (ok: bool)
      requires Valid()
      modifies this`free, this`held
      ensures Valid() && ok == (old(free) > 0)
      ensures ok ==> free == old(free) - 1 && held == old(held) + 1
      ensures !ok ==> free == old(free) && held == old(held)
      ensures State() == if ok then Apply(old(State()), Action.Acquire) else old(State())
    {
      ok := free > 0;
      if ok {
        free := free - 1;
        held := held + 1;
      }
    }

    /** The part of a return under the lock: debt is paid first. */
    method GiveBackLock() returns (put: bool)
      requires Valid() && held > 0
      modifies this`debt, this`held, this`transit
      ensures Valid() && State() == Apply(old(State()), Action.GiveBackLock) && put == (old(debt) == 0)
      ensures held == old(held) - 1
      ensures put ==> debt == old(debt) && transit == old(transit) + 1
      ensures !put ==> debt == old(debt) - 1 && transit == old(transit)
    {
      held := held - 1;
      if debt > 0 {
        debt := debt - 1;
        return false;
      }
      transit := transit + 1;
      put := true;
    }

    /** The part after it: the slot goes back into the channel, which always has room. */
    method GiveBackSend()
      requires Valid() && transit > 0
      modifies this`free, this`transit
      ensures Valid() && State() == Apply(old(State()), Action.GiveBackSend) && free == old(free) + 1
    {
      transit := transit - 1;
      if free < max {
        free := free + 1;
      }
    }

    method SetLocked(target: int)
      requires Valid()
      modifies this`limit, this`free, this`debt
      ensures Valid() && State() == SetTo(old(State()), target)
      ensures limit == Min(Max(target, min), max)
      ensures limit <= old(limit) ==> var n := old(limit) - limit;
        free == Max(0, old(free) - n) && debt == old(debt) + Max(0, n - old(free))
      ensures limit > old(limit) ==> var n := limit - old(limit);
        debt == Max(0, old(debt) - n) && free == old(free) + Max(0, n - old(debt))
    {
      var goal := target;
      if goal < min {
        goal := min;
      }
      if goal > max {
        goal := max;
      }
      if goal == limit {
        return;
      }
      var i := limit;
      if goal > limit {
        while i < goal
          invariant limit <= i <= goal
          invariant debt == Max(0, old(debt) - (i - limit)) && free == old(free) + Max(0, (i - limit) - old(debt))
          invariant limit == old(limit)
        {
          if debt > 0 {
            debt := debt - 1;
          } else if free < max {
            free := free + 1;
          }
          i := i + 1;
        }
      } else {
        while i > goal
          invariant goal <= i <= limit
          invariant free == Max(0, old(free) - (limit - i)) && debt == old(debt) + Max(0, (limit - i) - old(free))
          invariant limit == old(limit)
        {
          if free > 0 {
            free := free - 1;
          } else {
            debt := debt + 1;
          }
          i := i - 1;
        }
      }
      limit := goal;
    }

    method SetLimit(target: int)
      requires Valid()
      modifies this`limit, this`free, this`debt
      ensures Valid() && State() == SetTo(old(State()), target)
    {
      SetLocked(target);
    }

    /** The end of a window: a new limit, and counting starts over. */
    method Adjust(now: int)
      requires Valid()
      modifies this`limit, this`free, this`debt, this`window, this`lastAdj
      ensures Valid() && window == EMPTY && lastAdj == now
      ensures State() == SetTo(old(State()), Target(old(limit), old(window)))
      ensures var w := old(window);
        var trouble := w.throttled > 0 || w.timeout > 0 ||
          (w.ok + w.throttled + w.timeout + w.failed >= 8
           && 4 * w.failed > w.ok + w.throttled + w.timeout + w.failed);
        limit == if trouble then Max(min, old(limit) / 2)
                 else if w.ok > 0 then Min(max, old(limit) + 1) else old(limit)
    {
      hide SetTo;
      SameLimit(State());
      if window.Total() > 0 {
        var target: int := limit;
        if window.ShouldShrink() {
          target := limit / 2;
        } else if window.ok > 0 {
          target := limit + 1;
        }
        SetLocked(target);
      }
      window := EMPTY;
      lastAdj := now;
    }

    /** The interval since the last adjustment has passed. */
    ghost predicate Due(now: int)
      reads this
    {
      enabled && now - lastAdj >= interval
    }

    method Report(outcome: Outcome, now: int)
      requires Valid()
      modifies this`limit, this`free, this`debt, this`window, this`lastAdj
      ensures Valid()
      ensures !old(Due(now)) ==>
        State() == old(State()) && window == old(window).Count(outcome) && lastAdj == old(lastAdj)
      ensures old(Due(now)) ==> window == EMPTY && lastAdj == now && (interval > 0 ==> !Due(now))
      ensures enabled && now - old(lastAdj) >= interval ==>
        var w := old(window);
        var ok := w.ok + if outcome.OK? then 1 else 0;
        var throttled := w.throttled + if outcome.Throttled? then 1 else 0;
        var timeout := w.timeout + if outcome.TimedOut? then 1 else 0;
        var failed := w.failed + if outcome.Failed? then 1 else 0;
        var total := ok + throttled + timeout + failed;
        window == Window(0, 0, 0, 0) && lastAdj == now &&
        limit == if throttled > 0 || timeout > 0 || (total >= 8 && 4 * failed > total) then Max(min, old(limit) / 2)
                 else if ok > 0 then Min(max, old(limit) + 1) else old(limit)
      ensures !enabled || now - old(lastAdj) < interval ==>
        && limit == old(limit) && free == old(free) && debt == old(debt) && lastAdj == old(lastAdj)
        && window.ok == old(window).ok + (if outcome.OK? then 1 else 0)
        && window.throttled == old(window).throttled + (if outcome.Throttled? then 1 else 0)
        && window.timeout == old(window).timeout + (if outcome.TimedOut? then 1 else 0)
        && window.failed == old(window).failed + (if outcome.Failed? then 1 else 0)
      ensures old(Due(now)) ==> State() == SetTo(old(State()), Target(old(limit), old(window).Count(outcome)))
    {
      window := window.Count(outcome);
      if !enabled {
        return;
      }
      if now - lastAdj < interval {
        return;
      }
      Adjust(now);
    }

    method Tick(now: int)
      requires Valid()
      modifies this`limit, this`free, this`debt, this`window, this`lastAdj
      ensures Valid()
      ensures !old(Due(now)) ==> State() == old(State()) && window == old(window) && lastAdj == old(lastAdj)
      ensures old(Due(now)) ==> window == EMPTY && lastAdj == now
      ensures enabled && now - old(lastAdj) >= interval ==>
        var w := old(window);
        var total := w.ok + w.throttled + w.timeout + w.failed;
        window == Window(0, 0, 0, 0) && lastAdj == now &&
        limit == if w.throttled > 0 || w.timeout > 0 || (total >= 8 && 4 * w.failed > total)
                 then Max(min, old(limit) / 2)
                 else if w.ok > 0 then Min(max, old(limit) + 1) else old(limit)
      ensures !enabled || now - old(lastAdj) < interval ==>
        limit == old(limit) && window == old(window) && lastAdj == old(lastAdj)
      ensures old(Due(now)) ==> State() == SetTo(old(State()), Target(old(limit), old(window)))
    {
      if !enabled {
        return;
      }
      if now - lastAdj < interval {
        return;
      }
      Adjust(now);
    }
  }
}
