/** The calling window (outreach/window.py) on a fixed-offset clock.

    Instants are whole microseconds since the epoch, in UTC; a duration is a
    number of microseconds too. A window's `opens` and `closes` are minutes
    after local midnight. */
module Window {
  import opened Wrappers

  const MINUTE: int := 60_000_000
  const DAY: int := 1440 * MINUTE

  datatype Hours = Hours(opens: nat, closes: nat, offset: int, heldMinutes: nat) {
    function Start(): int { opens * MINUTE }

    function End(): int { closes * MINUTE }
  }

  /** What the document model lets through: two different clock times. */
  type WaitWindow = h: Hours | h.opens < 1440 && h.closes < 1440 && h.opens != h.closes
    witness Hours(0, 1, 0, 0)

  /** The plan's clock: microseconds since local midnight. */
  function ClockAt(at: int, window: WaitWindow): (clock: int)
    ensures 0 <= clock < DAY
  {
    (at + window.offset) % DAY
  }

  /** The branch the code takes: is the clock reading inside the hours? */
  predicate Inside(at: int, window: WaitWindow) {
    var clock := ClockAt(at, window);
    if window.Start() < window.End() then window.Start() <= clock < window.End()
    else clock >= window.Start() || clock < window.End()
  }

  /** `at` itself when the window is open, else its next opening. */
  function OpensAt(at: int, window: WaitWindow): int {
    if Inside(at, window) then at
    else
      var today := at - ClockAt(at, window) + window.Start();
      if today <= at then today + DAY else today
  }

  /** A timer set inside the reserved minutes after TODAY's opening. */
  predicate InReservedPeriod(at: int, window: WaitWindow) {
    window.heldMinutes > 0 &&
    window.Start() <= ClockAt(at, window) < window.Start() + window.heldMinutes * MINUTE
  }

  /** A wait's alarm on arrival: how long, then when that may act. `lasts` is
      the square's own duration, None when the document leaves it out. */
  function AlarmAt(lasts: Option<int>, listening: bool, window: Option<WaitWindow>, now: int, runEndsAt: int): int {
    var wake :=
      if lasts.Some? && lasts.value != 0 then
        now + lasts.value
        + (if window.Some? && InReservedPeriod(now, window.value) then window.value.heldMinutes * MINUTE else 0)
      else if listening then
        (if runEndsAt > now then runEndsAt else now) + MINUTE
      else
        now;
    if window.Some? then OpensAt(wake, window.value) else wake
  }

  /** How long a wait asks to last before any hours are considered. */
  function UnheldAlarm(lasts: Option<int>, listening: bool, window: Option<WaitWindow>, now: int, runEndsAt: int): int {
    AlarmAt(lasts, listening, None, now, runEndsAt)
    + (if lasts.Some? && lasts.value != 0 && window.Some? && InReservedPeriod(now, window.value)
       then window.value.heldMinutes * MINUTE else 0)
  }

  // ---- What the window means, without a clock reading ----

  /** Day `day`'s opening, as an instant. */
  function OpeningOf(day: int, window: WaitWindow): int {
    day * DAY + window.Start() - window.offset
  }

  /** The closing that follows day `day`'s opening: the next morning's when the
      window spans midnight. */
  function ClosingOf(day: int, window: WaitWindow): int {
    day * DAY + window.End() - window.offset + (if window.Start() < window.End() then 0 else DAY)
  }

  /** Some day's opening has passed and its closing has not. */
  ghost predicate Open(t: int, window: WaitWindow) {
    exists day: int :: OpeningOf(day, window) <= t < ClosingOf(day, window)
  }

  /** Some day's opening has passed, by less than the reserved minutes. */
  ghost predicate Reserved(t: int, window: WaitWindow) {
    exists day: int :: OpeningOf(day, window) <= t < OpeningOf(day, window) + window.heldMinutes * MINUTE
  }

  /** Fewer minutes, fewer days. */
  lemma WholeDays(lo: int, days: int, hi: int)
    requires lo * DAY < days * DAY < hi * DAY
    ensures lo < days < hi
  {
  }

  /** Only today's hours, or last night's, can hold an instant. */
  lemma HoursThatHold(t: int, day: int, d: int, window: WaitWindow)
    requires t + window.offset == day * DAY + ClockAt(t, window)
    requires OpeningOf(d, window) <= t < ClosingOf(d, window)
    ensures Inside(t, window)
  {
    WholeDays(day - 2, d, day + 1);
    if d == day {
    } else {
      assert d == day - 1;
    }
  }

  /** The branch's meaning: inside is what some day's hours hold. */
  lemma InsideIsOpen(t: int, window: WaitWindow)
    ensures Inside(t, window) <==> Open(t, window)
  {
    var day := (t + window.offset) / DAY;
    assert t + window.offset == day * DAY + ClockAt(t, window);
    if Open(t, window) {
      var d :| OpeningOf(d, window) <= t < ClosingOf(d, window);
      HoursThatHold(t, day, d, window);
    } else if window.Start() <= ClockAt(t, window) {
      assert !(OpeningOf(day, window) <= t < ClosingOf(day, window));
    } else {
      assert !(OpeningOf(day - 1, window) <= t < ClosingOf(day - 1, window));
    }
  }

  /** `OpensAt` is the least instant, not before `at`, at which the window is
      open; and it is less than a day away. */
  lemma OpensAtIsTheNextOpenInstant(at: int, window: WaitWindow)
    ensures at <= OpensAt(at, window) < at + DAY
    ensures Open(OpensAt(at, window), window)
    ensures forall t :: at <= t < OpensAt(at, window) ==> !Open(t, window)
  {
    var next := OpensAt(at, window);
    var day := (at + window.offset) / DAY;
    assert at + window.offset == day * DAY + ClockAt(at, window);
    if !Inside(at, window) {
      var d := if window.Start() <= ClockAt(at, window) then day + 1 else day;
      assert next == OpeningOf(d, window);
      assert OpeningOf(d, window) <= next < ClosingOf(d, window);
    }
    InsideIsOpen(at, window);
    forall t | at <= t < next ensures !Open(t, window) {
      if Open(t, window) {
        var d :| OpeningOf(d, window) <= t < ClosingOf(d, window);
        NothingOpensBetween(at, day, d, t, window);
      }
    }
  }

  /** No day's hours hold an instant between a shut one and the next opening. */
  lemma NothingOpensBetween(at: int, day: int, d: int, t: int, window: WaitWindow)
    requires !Inside(at, window) && at + window.offset == day * DAY + ClockAt(at, window)
    requires at <= t < OpensAt(at, window)
    ensures !(OpeningOf(d, window) <= t < ClosingOf(d, window))
  {
    if OpeningOf(d, window) <= t < ClosingOf(d, window) {
      if window.Start() <= ClockAt(at, window) {
        assert OpensAt(at, window) == OpeningOf(day + 1, window);
        WholeDays(day - 1, d, day + 1);
      } else {
        assert OpensAt(at, window) == OpeningOf(day, window);
        WholeDays(day - 2, d, day);
      }
      assert false;
    }
  }

  /** There is only one such instant, so asking twice changes nothing. */
  lemma OpensAtIsIdempotent(at: int, window: WaitWindow)
    ensures OpensAt(OpensAt(at, window), window) == OpensAt(at, window)
  {
    OpensAtIsTheNextOpenInstant(at, window);
    InsideIsOpen(OpensAt(at, window), window);
  }

  /** A windowed wait fires at the first open instant at or after its own
      duration: never in the shut hours, and never later than it must. */
  lemma WindowedAlarmFallsInTheHours(
    lasts: Option<int>, listening: bool, window: WaitWindow, now: int, runEndsAt: int)
    ensures var alarm := AlarmAt(lasts, listening, Some(window), now, runEndsAt);
            var asked := UnheldAlarm(lasts, listening, Some(window), now, runEndsAt);
            && Open(alarm, window)
            && asked <= alarm < asked + DAY
            && forall t :: asked <= t < alarm ==> !Open(t, window)
  {
    OpensAtIsTheNextOpenInstant(UnheldAlarm(lasts, listening, Some(window), now, runEndsAt), window);
  }

  /** A listening wait with no duration of its own sleeps past the end of the
      run's life, window or not; so the claim its alarm causes finds a run
      older than its maximum age. */
  lemma ListeningForLifeOutlivesTheRun(
    lasts: Option<int>, window: Option<WaitWindow>, arrived: int, entered: int, maxAge: int, claimed: int)
    requires lasts.None? || lasts.value == 0
    requires claimed >= AlarmAt(lasts, true, window, arrived, entered + maxAge)
    ensures claimed - entered > maxAge
  {
    if window.Some? {
      OpensAtIsTheNextOpenInstant(UnheldAlarm(lasts, true, window, arrived, entered + maxAge), window.value);
    }
  }

  /** The reserved minutes are read from today's opening only, so they are the
      minutes the document asks for exactly when they end by midnight (or start
      at it). */
  lemma ReservedPeriodIsHonouredIffItEndsByMidnight(window: WaitWindow)
    ensures (forall at: int :: InReservedPeriod(at, window) <==> Reserved(at, window))
            <==> window.opens == 0 || window.opens + window.heldMinutes <= 1440
  {
    if window.opens == 0 || window.opens + window.heldMinutes <= 1440 {
      forall at: int ensures InReservedPeriod(at, window) <==> Reserved(at, window) {
        ReservedToday(at, window);
      }
    } else {
      var midnight := -window.offset;
      assert midnight + window.offset == 0 * DAY + 0;
      assert ClockAt(midnight, window) == 0;
      assert OpeningOf(-1, window) <= midnight < OpeningOf(-1, window) + window.heldMinutes * MINUTE;
      assert Reserved(midnight, window) && !InReservedPeriod(midnight, window);
    }
  }

  lemma ReservedToday(at: int, window: WaitWindow)
    requires window.opens == 0 || window.opens + window.heldMinutes <= 1440
    ensures InReservedPeriod(at, window) <==> Reserved(at, window)
  {
    var day := (at + window.offset) / DAY;
    assert at + window.offset == day * DAY + ClockAt(at, window);
    if InReservedPeriod(at, window) {
      assert OpeningOf(day, window) <= at < OpeningOf(day, window) + window.heldMinutes * MINUTE;
    }
    if Reserved(at, window) {
      var d :| OpeningOf(d, window) <= at < OpeningOf(d, window) + window.heldMinutes * MINUTE;
      if window.opens == 0 {
        ReservedSinceMidnight(at, day, d, window);
      } else {
        WholeDays(day - 1, d, day + 1);
      }
    }
  }

  lemma ReservedSinceMidnight(at: int, day: int, d: int, window: WaitWindow)
    requires window.opens == 0 && at + window.offset == day * DAY + ClockAt(at, window)
    requires OpeningOf(d, window) <= at < OpeningOf(d, window) + window.heldMinutes * MINUTE
    ensures InReservedPeriod(at, window)
  {
    var days := day - d;
    assert days * DAY + ClockAt(at, window) == at - OpeningOf(d, window);
    assert days >= 0;
  }
}
