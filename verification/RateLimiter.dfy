/**
 The virtual-time rate limiter: each request is given the next slot, slots lag behind the clock by at most
 the burst, and a penalty pushes all later slots back. Times are nanoseconds on any clock, which may jump.
 */
module RateLimiters {
  import opened Wrappers

  type Time = int

  /** What has happened so far: requests with the clock reading and slot they got, and penalties with the
      time they reach to. */
  datatype Entry = Request(now: Time, slot: Time) | Penalty(until: Time)

  /** `interval` between slots, `size` the number of requests that may go at once. */
  datatype Sys = Sys(interval: nat, size: nat, next: Time, log: seq<Entry>)

  datatype Call = Wait(now: Time) | Penalize(now: Time, d: int)

  function Burst(s: Sys): int {
    (s.size - 1) * s.interval
  }

  function Step(s: Sys, c: Call): Sys {
    match c
    case Wait(now) =>
      var slot := Max(s.next, now - Burst(s));
      s.(next := slot + s.interval, log := s.log + [Request(now, slot)])
    case Penalize(now, d) =>
      if d <= 0 then s else s.(next := Max(s.next, now + d), log := s.log + [Penalty(now + d)])
  }

  function Run(s: Sys, calls: seq<Call>): Sys
    decreases |calls|
  {
    if calls == [] then s else Run(Step(s, calls[0]), calls[1..])
  }

  /** When a request may go: it waits for its slot unless that has passed. */
  function Eligible(e: Entry): Time
    requires e.Request?
  {
    Max(e.slot, e.now)
  }

  // ----- spacing

  /** The earliest a slot can be after an entry. */
  function Floor(s: Sys, e: Entry): Time {
    match e
    case Request(_, slot) => slot + s.interval
    case Penalty(until) => until
  }

  /** Slots are spaced, lag the clock by no more than the burst, and lie beyond every earlier penalty. */
  ghost predicate Spaced(s: Sys) {
    && s.size >= 1
    && (forall i :: 0 <= i < |s.log| ==> Floor(s, s.log[i]) <= s.next)
    && (forall i :: 0 <= i < |s.log| && s.log[i].Request? ==> s.log[i].slot >= s.log[i].now - Burst(s))
    && (forall i, j :: 0 <= i < j < |s.log| && s.log[j].Request? ==> Floor(s, s.log[i]) <= s.log[j].slot)
  }

  lemma StepKeepsSpaced(s: Sys, c: Call)
    requires Spaced(s)
    ensures Spaced(Step(s, c)) && Step(s, c).next >= s.next && s.log <= Step(s, c).log
  {
    var t := Step(s, c);
    assert Burst(t) == Burst(s);
    forall i | 0 <= i < |s.log|
      ensures t.log[i] == s.log[i] && Floor(t, t.log[i]) == Floor(s, s.log[i]) <= s.next <= t.next
    {
    }
  }

  lemma {:induction false} RunKeepsSpaced(s: Sys, calls: seq<Call>)
    requires Spaced(s)
    ensures var t := Run(s, calls); Spaced(t) && t.interval == s.interval && t.size == s.size
    decreases |calls|
  {
    if calls != [] {
      StepKeepsSpaced(s, calls[0]);
      hide Spaced;
      RunKeepsSpaced(Step(s, calls[0]), calls[1..]);
    }
  }

  // ----- the window

  /** `picks` are requests, in order, that became eligible within [a, a + span]. */
  ghost predicate Within(s: Sys, picks: seq<nat>, a: Time, span: nat) {
    && (forall k :: 0 <= k < |picks| ==>
          picks[k] < |s.log| && s.log[picks[k]].Request? && a <= Eligible(s.log[picks[k]]) <= a + span)
    && (forall j, k :: 0 <= j < k < |picks| ==> picks[j] < picks[k])
  }

  lemma {:induction false} PicksAreSpaced(s: Sys, picks: seq<nat>, a: Time, span: nat, k: nat)
    requires Spaced(s) && Within(s, picks, a, span) && k < |picks|
    ensures s.log[picks[k]].slot - s.log[picks[0]].slot >= k * s.interval
  {
    if k > 0 {
      PicksAreSpaced(s, picks, a, span, k - 1);
      assert picks[k - 1] < picks[k];
      assert Floor(s, s.log[picks[k - 1]]) <= s.log[picks[k]].slot;
      assert k * s.interval == (k - 1) * s.interval + s.interval;
    }
  }

  /** At most a burst of b and one more for every interval i within the window. */
  ghost predicate Bounded(n: nat, b: nat, i: nat, span: nat) {
    (n - b) * i <= span && (i > 0 ==> n <= b + span / i)
  }

  /** The first and the n-th slot lie within the window and the burst before it. */
  ghost predicate Fits(n: nat, b: nat, i: nat, span: nat) {
    n > 0 ==> (n - 1) * i <= span + (b - 1) * i
  }

  /** For any calls at any clock readings, the requests eligible within a window of length `span` exceed the
      burst by at most span / interval. */
  lemma WindowIsBounded(start: Sys, calls: seq<Call>, picks: seq<nat>, a: Time, span: nat)
    requires start.size >= 1 && start.log == []
    requires Within(Run(start, calls), picks, a, span)
    ensures Bounded(|picks|, start.size, start.interval, span)
  {
    StartSpaced(start);
    hide *;
    RunKeepsSpaced(start, calls);
    PicksFit(Run(start, calls), picks, a, span);
    Room(|picks|, start.size, start.interval, span);
  }

  lemma StartSpaced(start: Sys)
    requires start.size >= 1 && start.log == []
    ensures Spaced(start)
  {
  }

  lemma PicksFit(s: Sys, picks: seq<nat>, a: Time, span: nat)
    requires Spaced(s) && Within(s, picks, a, span)
    ensures Fits(|picks|, s.size, s.interval, span)
  {
    if |picks| > 0 {
      PicksAreSpaced(s, picks, a, span, |picks| - 1);
      assert s.log[picks[0]].slot >= a - Burst(s);
    }
  }

  lemma Room(n: nat, b: nat, i: nat, span: nat)
    requires b >= 1 && Fits(n, b, i, span)
    ensures Bounded(n, b, i, span)
  {
    assert (n - b) * i == (n - 1) * i - (b - 1) * i;
    if n == 0 {
      Product(b, i);
      assert (n - b) * i == -(b * i);
    }
    if i > 0 {
      Quotient(n - b, i, span);
    }
  }

  lemma Product(a: nat, b: nat)
    ensures a * b >= 0
  {
  }

  lemma Quotient(k: int, i: nat, span: nat)
    requires i > 0 && k * i <= span
    ensures k <= span / i
  {
    var q := span / i;
    assert q * i + span % i == span;
    assert (q + 1) * i == q * i + i;
    assert k * i == (q + 1) * i + (k - q - 1) * i;
    if k >= q + 1 {
      Product(k - q - 1, i);
    }
  }

  /** The bound is met: from rest, a burst's worth of requests at one moment all go at that moment. */
  lemma {:induction false} BurstGoesAtOnce(s: Sys, now: Time, n: nat)
    requires s.size >= 1 && s.next <= now - Burst(s) && n <= s.size
    ensures var t := Run(s, seq(n, _ => Wait(now)));
      |t.log| == |s.log| + n && forall k :: |s.log| <= k < |t.log| ==> t.log[k].Request? && Eligible(t.log[k]) == now
  {
    BurstFrom(s.(next := now - Burst(s)), now, n);
    if n > 0 {
      SameFromEarliest(s, now, n);
    }
  }

  /** A slot before the earliest useful one counts as that one. */
  lemma SameFromEarliest(s: Sys, now: Time, n: nat)
    requires s.next <= now - Burst(s) && n > 0
    ensures Run(s, seq(n, _ => Wait(now))) == Run(s.(next := now - Burst(s)), seq(n, _ => Wait(now)))
  {
    assert Step(s, Wait(now)) == Step(s.(next := now - Burst(s)), Wait(now));
  }

  lemma {:induction false} BurstFrom(s: Sys, now: Time, n: nat)
    requires s.size >= 1 && now - Burst(s) <= s.next && s.next + (n - 1) * s.interval <= now
    ensures var t := Run(s, seq(n, _ => Wait(now)));
      |t.log| == |s.log| + n && (forall k :: 0 <= k < |s.log| ==> t.log[k] == s.log[k])
      && forall k :: |s.log| <= k < |t.log| ==> t.log[k].Request? && Eligible(t.log[k]) == now
    decreases n
  {
    if n > 0 {
      var calls := seq(n, _ => Wait(now));
      var t := Step(s, calls[0]);
      assert calls[1..] == seq(n - 1, _ => Wait(now));
      assert (n - 1) * s.interval == (n - 2) * s.interval + s.interval;
      Product(n - 1, s.interval);
      SameBurst(s, t);
      BurstFrom(t, now, n - 1);
    }
  }

  lemma SameBurst(s: Sys, t: Sys)
    requires s.size == t.size && s.interval == t.interval
    ensures Burst(s) == Burst(t)
  {
  }

  /** The exact timetable: of requests at one moment, from rest, the k-th (counted from zero) has the slot
      k - (burst - 1) intervals from then, and goes at that slot or at once. */
  lemma {:induction false} TimetableFrom(s: Sys, now: Time, n: nat)
    requires s.size >= 1 && s.next >= now - (s.size - 1) * s.interval
    ensures var t := Run(s, seq(n, _ => Wait(now)));
      && |t.log| == |s.log| + n && (forall k :: 0 <= k < |s.log| ==> t.log[k] == s.log[k])
      && t.next == s.next + n * s.interval
      && forall k :: 0 <= k < n ==> t.log[|s.log| + k] == Request(now, s.next + k * s.interval)
    decreases n
  {
    if n > 0 {
      var calls := seq(n, _ => Wait(now));
      var t := Step(s, calls[0]);
      assert calls[1..] == seq(n - 1, _ => Wait(now));
      Product(1, s.interval);
      TimetableFrom(t, now, n - 1);
      var u := Run(t, seq(n - 1, _ => Wait(now)));
      assert n * s.interval == s.interval + (n - 1) * s.interval;
      forall k | 0 <= k < n
        ensures u.log[|s.log| + k] == Request(now, s.next + k * s.interval)
      {
        if k == 0 {
          assert u.log[|s.log|] == t.log[|s.log|];
        } else {
          assert u.log[|t.log| + (k - 1)] == Request(now, t.next + (k - 1) * s.interval);
          assert k * s.interval == s.interval + (k - 1) * s.interval;
        }
      }
    }
  }

  /** From rest: a burst goes at once, and every later one an interval after the one before. */
  lemma Timetable(s: Sys, now: Time, n: nat, k: nat)
    requires s.size >= 1 && s.next <= now - (s.size - 1) * s.interval && k < n
    ensures var t := Run(s, seq(n, _ => Wait(now)));
      && |t.log| == |s.log| + n && t.log[|s.log| + k].Request?
      && Eligible(t.log[|s.log| + k]) == now + Max(0, k + 1 - s.size) * s.interval
  {
    SameFromEarliest(s, now, n);
    var r := s.(next := now - Burst(s));
    TimetableFrom(r, now, n);
    assert r.next + k * s.interval == now + (k + 1 - s.size) * s.interval;
    if k + 1 < s.size {
      Product(s.size - k - 1, s.interval);
      assert (k + 1 - s.size) * s.interval == -((s.size - k - 1) * s.interval);
    } else {
      Product(k + 1 - s.size, s.interval);
    }
  }

  // ----- penalties

  lemma {:induction false} RunExtends(s: Sys, calls: seq<Call>)
    requires Spaced(s)
    ensures s.log <= Run(s, calls).log
    decreases |calls|
  {
    if calls != [] {
      StepKeepsSpaced(s, calls[0]);
      RunExtends(Step(s, calls[0]), calls[1..]);
    }
  }

  /** After a penalty of d at time t, no slot assigned later lies before t + d, whatever the clock does. */
  lemma PenaltyPostpones(start: Sys, before: seq<Call>, now: Time, d: int, after: seq<Call>, j: nat)
    requires start.size >= 1 && start.log == [] && d > 0
    requires var s := Run(start, before); var t := Run(Step(s, Penalize(now, d)), after);
      |s.log| < j < |t.log| && t.log[j].Request?
    ensures Run(Step(Run(start, before), Penalize(now, d)), after).log[j].slot >= now + d
  {
    var s := Run(start, before);
    RunKeepsSpaced(start, before);
    var u := Step(s, Penalize(now, d));
    StepKeepsSpaced(s, Penalize(now, d));
    RunKeepsSpaced(u, after);
    RunExtends(u, after);
    var t := Run(u, after);
    assert t.log[|s.log|] == u.log[|s.log|] == Penalty(now + d);
    assert Floor(t, t.log[|s.log|]) <= t.log[j].slot;
  }

  // ----- the limiter itself

  class RateLimiter {
    const interval: nat
    const burst: nat
    const size: nat
    var next: Time
    ghost var log: seq<Entry>

    ghost function State(): Sys
      reads this
    {
      Sys(interval, size, next, log)
    }

    ghost predicate Valid()
      reads this
    {
      Spaced(State()) && burst == Burst(State())
    }

    /** `next` starts at the zero time. */
    constructor (perSecond: real, burst: int, zero: Time)
      requires perSecond > 0.0
      ensures Valid() && State() == Sys((1000000000.0 / perSecond).Floor, Max(burst, 1), zero, [])
    {
      var b := burst;
      if b < 1 {
        b := 1;
      }
      var i := (1000000000.0 / perSecond).Floor;
      Product(b - 1, i);
      this.interval, this.size, this.burst := i, b, (b - 1) * i;
      this.next, this.log := zero, [];
    }

    /** Assign a slot; `delay` is how long the caller then waits. */
    method Wait(now: Time) returns (delay: nat)
      requires Valid()
      modifies this
      ensures Valid() && State() == Step(old(State()), Call.Wait(now))
      ensures var slot := Max(old(next), now - (size - 1) * interval);
        next == slot + interval && delay == Max(0, slot - now)
      ensures now + delay == Eligible(log[|log| - 1])
    {
      StepKeepsSpaced(State(), Call.Wait(now));
      var earliest := now - burst;
      if next < earliest {
        next := earliest;
      }
      var slot := next;
      next := next + interval;
      log := log + [Request(now, slot)];
      delay := if slot - now <= 0 then 0 else slot - now;
    }

    method Penalize(now: Time, d: int)
      requires Valid()
      modifies this
      ensures Valid() && State() == Step(old(State()), Call.Penalize(now, d))
      ensures next == if d > 0 then Max(old(next), now + d) else old(next)
    {
      StepKeepsSpaced(State(), Call.Penalize(now, d));
      if d <= 0 {
        return;
      }
      var until := now + d;
      if next < until {
        next := until;
      }
      log := log + [Penalty(until)];
    }
  }

  /** No limiter at all when no rate is given. */
  method NewRateLimiter(perSecond: real, burst: int, zero: Time) returns (r: RateLimiter?)
    ensures r == null <==> perSecond <= 0.0
    ensures r != null ==> fresh(r) && r.Valid()
    ensures r != null ==> r.State() == Sys((1000000000.0 / perSecond).Floor, Max(burst, 1), zero, [])
  {
    if perSecond <= 0.0 {
      return null;
    }
    r := new RateLimiter(perSecond, burst, zero);
  }
}
