/**
  Active-window arithmetic on the wall clock. An instant counts microseconds from a Monday midnight; a time
  of day counts them from the last midnight. A window [start, end) may wrap around midnight, and start == end
  means that it never closes.
*/
module Windows {
  import opened Prelude

  const SECOND := 1_000_000
  const DAY := 86_400_000_000

  type TimeOfDay = t: int | 0 <= t < DAY witness 0

  // parse_clock reads HH:MM, so a window starts and ends on a whole minute
  type Bound = t: int | 0 <= t < DAY && t % (60 * SECOND) == 0 witness 0

  function Midnight(now: int): (r: int)
    ensures r <= now < r + DAY && r % DAY == 0
  {
    now - now % DAY
  }

  function Clock(now: int): (r: TimeOfDay)
    ensures now == Midnight(now) + r
  {
    now % DAY
  }

  // datetime.weekday(): Monday is 0
  function Weekday(now: int): (r: int)
    ensures 0 <= r < 7
  {
    (now / DAY) % 7
  }

  predicate Within(now: TimeOfDay, start: Bound, end: Bound) {
    if start == end then true
    else if start < end then start <= now < end
    else now >= start || now < end
  }

  predicate WithinSchedule(now: int, start: Bound, end: Bound, weekend24h: bool) {
    (weekend24h && Weekday(now) >= 5) || Within(Clock(now), start, end)
  }

  /** max(1, int((target - now).total_seconds())); the gaps below are never negative. */
  function WholeSeconds(gap: int): (r: int)
    requires 0 <= gap
    ensures 1 <= r
    ensures r * SECOND <= gap < (r + 1) * SECOND || (r == 1 && gap < SECOND)
  {
    if gap / SECOND < 1 then 1 else gap / SECOND
  }

  // The instant that seconds_until_active_window counts down to.
  function NextStart(now: int, start: Bound): int {
    var today := Midnight(now) + start;
    if now < today then today else today + DAY
  }

  /** Whole seconds up to that instant, but at least one. */
  function SecondsUntilActiveWindow(now: int, start: Bound, end: Bound): (r: int)
    ensures r == 0 <==> Within(Clock(now), start, end)
    ensures r > 0 ==>
      now + r * SECOND <= NextStart(now, start) < now + (r + 1) * SECOND
      || (r == 1 && now < NextStart(now, start) < now + SECOND)
  {
    if Within(Clock(now), start, end) then 0 else WholeSeconds(NextStart(now, start) - now)
  }

  // The instant that seconds_until_window_end counts down to.
  function WindowEnd(now: int, start: Bound, end: Bound): int {
    var today := Midnight(now) + end;
    if start < end then today
    else if Clock(now) >= start then today + DAY
    else today
  }

  function SecondsUntilWindowEnd(now: int, start: Bound, end: Bound): (r: Option<int>)
    ensures r.Some? <==> Within(Clock(now), start, end)
    ensures r.Some? ==>
      now + r.value * SECOND <= WindowEnd(now, start, end) < now + (r.value + 1) * SECOND
      || (r.value == 1 && now < WindowEnd(now, start, end) < now + SECOND)
  {
    if !Within(Clock(now), start, end) then None
    else
      WindowEndIsFirstInactive(now, start, end, now);
      Some(WholeSeconds(WindowEnd(now, start, end) - now))
  }

  /** Two instants of the same day, or one of the day after. */
  lemma SameDay(now: int, t: int)
    requires Midnight(now) <= t < Midnight(now) + 2 * DAY
    ensures Clock(t) == if t < Midnight(now) + DAY then t - Midnight(now) else t - Midnight(now) - DAY
    ensures Weekday(t) == if t < Midnight(now) + DAY then Weekday(now) else (Weekday(now) + 1) % 7
  {
  }

  /** Outside the window the wait ends at the first instant that is inside. */
  lemma NextStartIsFirstActive(now: int, start: Bound, end: Bound, t: int)
    requires !Within(Clock(now), start, end)
    ensures now < NextStart(now, start) <= now + 86_400_000_000 && Clock(NextStart(now, start)) == start
    ensures Within(Clock(NextStart(now, start)), start, end)
    ensures now <= t < NextStart(now, start) ==> !Within(Clock(t), start, end)
  {
    SameDay(now, NextStart(now, start));
    if now <= t < NextStart(now, start) { SameDay(now, t); }
  }

  /** Until the window opens, every instant waits for the same opening. */
  lemma SameOpening(t: int, r: int, start: Bound)
    requires t <= r < NextStart(t, start)
    ensures NextStart(r, start) == NextStart(t, start)
  {
  }

  /** For how long the window is open at a time. */
  function OpenLength(start: Bound, end: Bound): (r: int)
    ensures 0 < r <= DAY
  {
    if start < end then end - start else end - start + DAY
  }

  /** Two instants outside the window, with an opening between them. */
  predicate Missed(t: int, r: int, start: Bound, end: Bound) {
    !Within(Clock(t), start, end) && !Within(Clock(r), start, end) && NextStart(t, start) <= r
  }

  /** Such instants lie further apart than the window is open. */
  lemma MissIsLong(t: int, r: int, start: Bound, end: Bound)
    requires Missed(t, r, start, end)
    ensures t + OpenLength(start, end) < r
  {
    var opening := NextStart(t, start);
    NextStartIsFirstActive(t, start, end, t);
    if r < opening + OpenLength(start, end) {
      SameDay(t, opening);
      SameDay(opening, r);
    }
  }

  /**
    Inside the window the target lies ahead and everything before it is inside; the target itself is outside
    exactly when the window ever closes.
  */
  lemma WindowEndIsFirstInactive(now: int, start: Bound, end: Bound, t: int)
    requires Within(Clock(now), start, end)
    ensures now < WindowEnd(now, start, end) <= now + DAY
    ensures Within(Clock(WindowEnd(now, start, end)), start, end) <==> start == end
    ensures Clock(WindowEnd(now, start, end)) == end
    ensures now <= t < WindowEnd(now, start, end) ==> Within(Clock(t), start, end)
  {
    SameDay(now, WindowEnd(now, start, end));
    if now <= t < WindowEnd(now, start, end) { SameDay(now, t); }
  }

  function Min(s: seq<int>): (m: int)
    requires s != []
    ensures m in s && forall x :: x in s ==> m <= x
  {
    if |s| == 1 then s[0]
    else
      var rest := Min(s[1..]);
      assert forall x :: x in s <==> x == s[0] || x in s[1..];
      if s[0] < rest then s[0] else rest
  }

  /** The instants before t, from now on, are outside the AI schedule, and t is inside. */
  ghost predicate FirstActive(now: int, t: int, start: Bound, end: Bound, weekend24h: bool) {
    && now < t
    && WithinSchedule(t, start, end, weekend24h)
    && forall u :: now <= u < t ==> !WithinSchedule(u, start, end, weekend24h)
  }

  /** Midnight of the Saturday that follows a working day. */
  function NextSaturday(now: int): (r: int)
    requires Weekday(now) < 5
  {
    Midnight(now) + (5 - Weekday(now)) * DAY
  }

  lemma DayStart(now: int, k: nat)
    ensures Midnight(Midnight(now) + k * DAY) == Midnight(now) + k * DAY
    ensures Weekday(Midnight(now) + k * DAY) == (Weekday(now) + k) % 7
  {
  }

  lemma BeforeSaturday(now: int, u: int)
    requires Weekday(now) < 5 && now <= u < NextSaturday(now)
    ensures Weekday(u) < 5
  {
  }

  lemma SaturdayIsActive(now: int, k: nat, start: Bound, end: Bound)
    requires (Weekday(now) + k) % 7 == 5
    ensures WithinSchedule(Midnight(now) + k * DAY, start, end, true)
  {
  }

  lemma StartIsActive(now: int, k: nat, start: Bound, end: Bound, weekend24h: bool)
    ensures WithinSchedule(Midnight(now) + k * DAY + start, start, end, weekend24h)
  {
    var midnight := Midnight(now) + k * DAY;
    DayStart(now, k);
    SameDay(midnight, midnight + start);
  }

  /** The earliest of some active instants ahead is the first one, if no other can come before it. */
  lemma EarliestIsFirst(now: int, t: int, start: Bound, end: Bound, weekend24h: bool)
    requires !WithinSchedule(now, start, end, weekend24h) && now < t
    requires WithinSchedule(t, start, end, weekend24h)
    requires t <= NextStart(now, start)
    requires weekend24h ==> t <= NextSaturday(now)
    ensures FirstActive(now, t, start, end, weekend24h)
  {
    forall u | now <= u < t ensures !WithinSchedule(u, start, end, weekend24h) {
      NextStartIsFirstActive(now, start, end, u);
      if weekend24h { BeforeSaturday(now, u); }
    }
  }

  /**
    seconds_until_ai_active_schedule: collects the starts of the next eight days and takes the earliest. The
    list is never empty, so the fallback for an empty list is not reached.
  */
  method SecondsUntilAiActiveSchedule(now: int, start: Bound, end: Bound, weekend24h: bool)
    returns (seconds: int, target: int)
    ensures WithinSchedule(now, start, end, weekend24h) ==> seconds == 0
    ensures !WithinSchedule(now, start, end, weekend24h) ==>
      && FirstActive(now, target, start, end, weekend24h)
      && seconds == WholeSeconds(target - now)
  {
    if WithinSchedule(now, start, end, weekend24h) { return 0, now; }
    assert weekend24h ==> Weekday(now) < 5;
    hide WithinSchedule, FirstActive, WholeSeconds;
    var candidates: seq<int> := [];
    var offset := 0;
    while offset < 8
      invariant 0 <= offset <= 8
      invariant forall c :: c in candidates ==> now < c && WithinSchedule(c, start, end, weekend24h)
      invariant (if now < Midnight(now) + start then 1 else 2) <= offset ==> NextStart(now, start) in candidates
      invariant weekend24h && 5 - Weekday(now) < offset ==> NextSaturday(now) in candidates
    {
      var day := Midnight(now) + offset * DAY;
      DayStart(now, offset);
      var activeStart := day + start;
      if activeStart > now {
        StartIsActive(now, offset, start, end, weekend24h);
        candidates := candidates + [activeStart];
        assert activeStart in candidates;
      }
      if weekend24h && Weekday(day) == 5 {
        if day > now {
          SaturdayIsActive(now, offset, start, end);
          candidates := candidates + [day];
        }
      }
      offset := offset + 1;
    }
    target := Min(candidates);
    EarliestIsFirst(now, target, start, end, weekend24h);
    seconds := WholeSeconds(target - now);
  }

  /**
    The window deadline of a crawl cycle on the monotonic clock. The wall clock is read twice: at `first` to
    see whether the window is open, and at `second` for the time that is left.
  */
  function ActiveDeadline(enforce: bool, first: int, second: int, monotonic: int, start: Bound, end: Bound)
    : (deadline: Option<int>)
  {
    if !enforce then None
    else if !Within(Clock(first), start, end) then Some(monotonic)
    else
      match SecondsUntilWindowEnd(second, start, end)
      case Some(seconds) => Some(monotonic + seconds * SECOND)
      case None => None
  }

  /**
    What a deadline set at `setAt` has to do with the window. Outside the window it is due at once; inside, it lies as
    far ahead as the end of the window lay at the second reading, in whole seconds, but at least one.
  */
  ghost predicate DeadlineFits(enforce: bool, first: int, second: int, setAt: int, start: Bound, end: Bound,
                               deadline: Option<int>)
  {
    && (!enforce ==> deadline.None?)
    && (enforce && !Within(Clock(first), start, end) ==> deadline == Some(setAt))
    && (enforce && Within(Clock(first), start, end) ==>
          (deadline.Some? <==> Within(Clock(second), start, end))
          && (deadline.Some? ==>
                var reached := second + (deadline.value - setAt);
                || WindowEnd(second, start, end) - 1_000_000 < reached <= WindowEnd(second, start, end)
                || WindowEnd(second, start, end) < reached == second + 1_000_000))
  }

  lemma DeadlineIsEnd(enforce: bool, first: int, second: int, monotonic: int, start: Bound, end: Bound)
    ensures DeadlineFits(enforce, first, second, monotonic, start, end,
                         ActiveDeadline(enforce, first, second, monotonic, start, end))
  {
  }

  /** An enforced window is left without a deadline exactly when it closes between the two readings. */
  lemma DeadlineIsSet(first: int, second: int, monotonic: int, start: Bound, end: Bound)
    ensures ActiveDeadline(true, first, second, monotonic, start, end).None? <==>
      Within(Clock(first), start, end) && !Within(Clock(second), start, end)
    ensures first <= second < first + DAY && ActiveDeadline(true, first, second, monotonic, start, end).None? ==>
      start != end && first < WindowEnd(first, start, end) <= second
  {
    if Within(Clock(first), start, end) { WindowEndIsFirstInactive(first, start, end, second); }
  }
}
