/** The nightly window of the automatic updates, and the search for the next time in it at which one may start.

    Times are nanoseconds of the box's wall clock, on which every day has 1440 minutes. */
module UpdateWindow {

  const SECOND := 1_000_000_000
  const MINUTE := 60 * SECOND
  const DAY := 1440 * MINUTE

  datatype Option<T> = None | Some(value: T)

  /** A window of every night, in minutes of its first day: one that does not end after it starts goes past midnight. */
  datatype Window = Window(start: int, end: int)

  /** Both are times of a day, at least an hour apart. */
  predicate IsValid(w: Window) {
    0 <= w.start < 1440 && 0 <= w.end < 1440 && (w.end - w.start + 1440) % 1440 >= 60
  }

  function Opens(w: Window, day: int): int {
    day * DAY + w.start * MINUTE
  }

  function Closes(w: Window, day: int): int {
    (if w.end <= w.start then day + 1 else day) * DAY + w.end * MINUTE
  }

  /** Whether a time is in the occurrence of the window that opens on a day. */
  predicate IsIn(w: Window, day: int, t: int) {
    Opens(w, day) <= t < Closes(w, day)
  }

  predicate IsTaken(w: Window, day: int, attempted: Option<int>) {
    attempted.Some? && IsIn(w, day, attempted.value)
  }

  /** A time at which an update may start: in an occurrence in which none was attempted. */
  predicate IsFree(w: Window, day: int, t: int, attempted: Option<int>) {
    IsIn(w, day, t) && !IsTaken(w, day, attempted)
  }

  function DayOf(t: int): int {
    t / DAY
  }

  // ---------------------------------------------------------------- occurrences

  lemma {:induction false} DayHolds(t: int)
    ensures DayOf(t) * DAY <= t < (DayOf(t) + 1) * DAY
  {
  }

  /** An occurrence is at least an hour long, and over before the next one opens. */
  lemma {:induction false} OccurrencesAreApart(w: Window, day: int)
    requires IsValid(w)
    ensures Opens(w, day) + 60 * MINUTE <= Closes(w, day) < Opens(w, day + 1)
    ensures Opens(w, day + 1) == Opens(w, day) + DAY
  {
  }

  lemma {:induction false} LaterOpensLater(w: Window, a: int, b: int)
    requires IsValid(w) && a < b
    ensures Opens(w, a) < Closes(w, a) < Opens(w, b) < Closes(w, b)
    decreases b - a
  {
  }

  /** No time is in two occurrences. */
  lemma {:induction false} OccurrenceIsOne(w: Window, a: int, b: int, t: int)
    requires IsValid(w) && IsIn(w, a, t) && IsIn(w, b, t)
    ensures a == b
  {
  }

  /** A time is in some occurrence exactly when its time of the day is in the window, which may go past midnight. */
  lemma {:induction false} InWindowExactly(w: Window, t: int)
    requires IsValid(w)
    ensures
      var clock := t % (24 * 60 * MINUTE);
      (exists day :: IsIn(w, day, t)) <==>
        if w.start < w.end then w.start * MINUTE <= clock < w.end * MINUTE
        else w.start * MINUTE <= clock || clock < w.end * MINUTE
  {
    var today, clock := DayOf(t), t % DAY;
    assert t == today * DAY + clock;
    if IsIn(w, today, t) || IsIn(w, today - 1, t) {
    } else if day :| IsIn(w, day, t) {
      AroundNow(w, t);
      if day > today {
        LaterOpens(w, today + 1, day);
      } else {
        LaterOpens(w, day, today - 2);
      }
    }
  }

  lemma {:induction false} LaterOpens(w: Window, a: int, b: int)
    requires IsValid(w) && a <= b
    ensures Opens(w, a) <= Opens(w, b) && Closes(w, a) <= Closes(w, b)
  {
    if a < b {
      LaterOpensLater(w, a, b);
    }
  }

  /** Those of the days before yesterday are over, and those from tomorrow on are to come. */
  lemma {:induction false} AroundNow(w: Window, t: int)
    requires IsValid(w)
    ensures Closes(w, DayOf(t) - 2) <= t < Opens(w, DayOf(t) + 1)
  {
    DayHolds(t);
  }

  // ---------------------------------------------------------------- the search

  /** The first of the times from `t` on at which an update may start. */
  ghost predicate IsEarliest(w: Window, t: int, attempted: Option<int>, at: int) {
    && t <= at && (exists day :: IsFree(w, day, at, attempted))
    && forall day, other :: t <= other && IsFree(w, day, other, attempted) ==> at <= other
  }

  /** Whether the search passes an occurrence over: it is over, or an attempt was made in it. */
  predicate IsPassed(w: Window, day: int, t: int, attempted: Option<int>) {
    Closes(w, day) <= t || IsTaken(w, day, attempted)
  }

  function FirstIn(w: Window, day: int, t: int): int {
    if Opens(w, day) > t then Opens(w, day) else t
  }

  /** What the search comes to, which looks at four occurrences at most. */
  function Earliest(w: Window, t: int, attempted: Option<int>): int {
    var today := DayOf(t);
    if !IsPassed(w, today - 1, t, attempted) then FirstIn(w, today - 1, t)
    else if !IsPassed(w, today, t, attempted) then FirstIn(w, today, t)
    else if !IsPassed(w, today + 1, t, attempted) then FirstIn(w, today + 1, t)
    else FirstIn(w, today + 2, t)
  }

  lemma {:induction false} FirstIsEarliest(w: Window, day: int, t: int, attempted: Option<int>)
    requires IsValid(w) && !IsPassed(w, day, t, attempted)
    requires forall before :: before < day ==> IsPassed(w, before, t, attempted)
    ensures IsEarliest(w, t, attempted, FirstIn(w, day, t))
  {
    var at := FirstIn(w, day, t);
    OccurrencesAreApart(w, day);
    assert IsFree(w, day, at, attempted);
    forall other, free | t <= free && IsFree(w, other, free, attempted)
      ensures at <= free
    {
      assert other < day ==> IsPassed(w, other, t, attempted);
      if other > day {
        LaterOpensLater(w, day, other);
      }
    }
  }

  lemma {:induction false} PassedBefore(w: Window, t: int, attempted: Option<int>, day: int)
    requires IsValid(w) && day < DayOf(t) - 1
    ensures IsPassed(w, day, t, attempted)
  {
  }

  lemma {:induction false} NotBothTaken(w: Window, t: int, attempted: Option<int>)
    requires IsValid(w) && IsPassed(w, DayOf(t) + 1, t, attempted)
    ensures !IsPassed(w, DayOf(t) + 2, t, attempted)
  {
  }

  /** Starting with yesterday's occurrence misses none, and the fourth is always free. */
  lemma {:induction false} EarliestIsEarliest(w: Window, t: int, attempted: Option<int>)
    requires IsValid(w)
    ensures IsEarliest(w, t, attempted, Earliest(w, t, attempted))
  {
    var today := DayOf(t);
    forall before | before < today - 1
      ensures IsPassed(w, before, t, attempted)
    {
      PassedBefore(w, t, attempted, before);
    }
    if !IsPassed(w, today - 1, t, attempted) {
      FirstIsEarliest(w, today - 1, t, attempted);
    } else if !IsPassed(w, today, t, attempted) {
      FirstIsEarliest(w, today, t, attempted);
    } else if !IsPassed(w, today + 1, t, attempted) {
      FirstIsEarliest(w, today + 1, t, attempted);
    } else {
      NotBothTaken(w, t, attempted);
      FirstIsEarliest(w, today + 2, t, attempted);
    }
  }

  /** An update may start now exactly when now is in an occurrence in which none was attempted. */
  lemma {:induction false} EarliestIsNow(w: Window, t: int, attempted: Option<int>)
    requires IsValid(w)
    ensures Earliest(w, t, attempted) >= t
    ensures Earliest(w, t, attempted) == t <==> exists day :: IsFree(w, day, t, attempted)
  {
    EarliestIsEarliest(w, t, attempted);
  }

  /** The first time from `t` on at which an update may start, found in `turns` turns. */
  method FindEarliest(w: Window, t: int, attempted: Option<int>) returns (at: int, turns: nat)
    requires IsValid(w)
    ensures IsEarliest(w, t, attempted, at) && at == Earliest(w, t, attempted)
    ensures turns <= 4
  {
    EarliestIsEarliest(w, t, attempted);
    AroundNow(w, t);
    var days := -1;
    turns := 1;
    while true
      invariant -1 <= days <= 2 && turns == days + 2
      invariant forall day :: DayOf(t) - 1 <= day < DayOf(t) + days ==> IsPassed(w, day, t, attempted)
      decreases 2 - days
    {
      var day := DayOf(t) + days;
      if Closes(w, day) <= t || (attempted.Some? && Opens(w, day) <= attempted.value < Closes(w, day)) {
        assert IsPassed(w, day, t, attempted);
        if days >= 1 {
          NotBothTaken(w, t, attempted);
        }
        days, turns := days + 1, turns + 1;
        continue;
      }
      if Opens(w, day) > t {
        return Opens(w, day), turns;
      }
      return t, turns;
    }
  }
}
