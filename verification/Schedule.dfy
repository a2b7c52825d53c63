/** Schedules and quiet hours: `src/policy/schedule.ts` and `src/policy/quiethours.ts`. Instants are milliseconds; the
    operator's wall clock may be set, so that a local day need not have 24 hours. */
module Schedule {
  import opened Text

  const MINUTE := 60_000
  const DAY_MIN := 1440
  const DAY := 86_400_000

  datatype Clock = Clock(h: int, m: int)

  predicate IsDigit(c: char) {
    '0' <= c <= '9'
  }

  function DigitAt(s: string, i: nat): (d: int)
    requires i < |s| && IsDigit(s[i])
    ensures 0 <= d <= 9
  {
    s[i] as int - '0' as int
  }

  /** One or two digits, a colon, two digits, white space around; a time of day that exists. */
  function ParseHHMM(text: string): (r: Option<Clock>)
    ensures r.Some? ==> 0 <= r.value.h <= 23 && 0 <= r.value.m <= 59
  {
    var s := Trim(text);
    var k := |s| - 3;
    if (k != 1 && k != 2) || s[k] != ':' || !(forall i :: 0 <= i < |s| && i != k ==> IsDigit(s[i])) then None
    else
      var h := if k == 1 then DigitAt(s, 0) else 10 * DigitAt(s, 0) + DigitAt(s, 1);
      var m := 10 * DigitAt(s, k + 1) + DigitAt(s, k + 2);
      if h > 23 || m > 59 then None else Some(Clock(h, m))
  }

  /** A time written out in full is read as written. */
  lemma ParsesInFull(s: string)
    requires |s| == 5 && s[2] == ':' && IsDigit(s[0]) && IsDigit(s[1]) && IsDigit(s[3]) && IsDigit(s[4])
    ensures var h, m := 10 * DigitAt(s, 0) + DigitAt(s, 1), 10 * DigitAt(s, 3) + DigitAt(s, 4);
            ParseHHMM(s) == if h > 23 || m > 59 then None else Some(Clock(h, m))
  {
    TrimmedIff(s);
    forall i | 0 <= i < |s| && i != 2
      ensures IsDigit(s[i])
    {
      assert i == 0 || i == 1 || i == 3 || i == 4;
    }
  }

  /** The text is a time of day: one or two digits, a colon and two digits, that name an hour and a minute there is. */
  predicate Writes(t: string, c: Clock) {
    && (|t| == 4 || |t| == 5)
    && (forall i :: 0 <= i < |t| && i != |t| - 3 ==> IsDigit(t[i])) && t[|t| - 3] == ':'
    && c.h == (if |t| == 4 then DigitAt(t, 0) else 10 * DigitAt(t, 0) + DigitAt(t, 1)) < 24
    && c.m == 10 * DigitAt(t, |t| - 2) + DigitAt(t, |t| - 1) < 60
  }

  /** What is read as a time of day, and as which. */
  lemma ParsesIff(text: string, c: Clock)
    ensures ParseHHMM(text) == Some(c) <==> Writes(Trim(text), c)
  {
  }

  predicate IsTime(c: Clock) {
    0 <= c.h <= 23 && 0 <= c.m <= 59
  }

  function Offset(c: Clock): int {
    c.h * 60 * MINUTE + c.m * MINUTE
  }

  // ---- the wall clock --------------------------------------------------------

  /** The operator's wall clock: the local day of an instant, and the instant at which a local day shows a time. Days
      may be longer or shorter than 24 hours, and a time that a day skips is whatever instant of that day it becomes. */
  datatype Zone = Zone(dayOf: int -> int, at: (int, Clock) -> int)

  /** Days follow one another, no three of them meet within 24 hours, and a day's times lie on that day. */
  ghost predicate Calendar(z: Zone) {
    && (forall t, u :: t <= u ==> z.dayOf(t) <= z.dayOf(u) && (u <= t + DAY ==> z.dayOf(u) <= z.dayOf(t) + 2))
    && (forall d, c :: IsTime(c) ==> z.dayOf(z.at(d, c)) == d)
  }

  /** Clocks that are never set. */
  function Fixed(zero: int): Zone {
    Zone((t: int) => (t - zero) / DAY, (d: int, c: Clock) => d * DAY + zero + Offset(c))
  }

  /** Clocks that go back an hour once, at three in the morning of day 0. */
  const GOING_BACK :=
    Zone((t: int) => if t < 0 then t / DAY else if t < DAY + 60 * MINUTE then 0 else (t - 60 * MINUTE) / DAY,
         (d: int, c: Clock) => d * DAY + Offset(c) + if d > 0 || (d == 0 && c.h >= 3) then 60 * MINUTE else 0)

  /** Clocks that go forward an hour once, at two in the morning of day 0. */
  const GOING_FORWARD :=
    Zone((t: int) => if t < 0 then t / DAY else if t < DAY - 60 * MINUTE then 0 else (t + 60 * MINUTE) / DAY,
         (d: int, c: Clock) => d * DAY + Offset(c) - if d > 0 || (d == 0 && c.h >= 3) then 60 * MINUTE else 0)

  lemma FixedIsACalendar(zero: int)
    ensures Calendar(Fixed(zero))
  {
    var z := Fixed(zero);
    forall d, c | IsTime(c)
      ensures z.dayOf(z.at(d, c)) == d
    {
      assert 0 <= Offset(c) < DAY;
    }
  }

  lemma GoingBackIsACalendar()
    ensures Calendar(GOING_BACK)
  {
    var z := GOING_BACK;
    forall d, c | IsTime(c)
      ensures z.dayOf(z.at(d, c)) == d
    {
      assert 0 <= Offset(c) < DAY;
    }
  }

  lemma GoingForwardIsACalendar()
    ensures Calendar(GOING_FORWARD)
  {
    var z := GOING_FORWARD;
    forall d, c | IsTime(c)
      ensures z.dayOf(z.at(d, c)) == d
    {
      assert 0 <= Offset(c) < DAY;
    }
  }

  lemma TimesGrow(z: Zone, c: Clock, d: int, e: int)
    requires Calendar(z) && IsTime(c) && d < e
    ensures z.at(d, c) < z.at(e, c)
  {
    assert z.dayOf(z.at(d, c)) == d && z.dayOf(z.at(e, c)) == e;
  }

  /** The day of the latest boundary, that is, of the latest instant at or before `now` that shows the time. */
  function Slot(z: Zone, now: int, c: Clock): int {
    if z.at(z.dayOf(now), c) <= now then z.dayOf(now) else z.dayOf(now) - 1
  }

  lemma SlotIsLatest(z: Zone, now: int, c: Clock, d: int)
    requires Calendar(z) && IsTime(c)
    ensures z.at(d, c) <= now <==> d <= Slot(z, now, c)
  {
    var today := z.dayOf(now);
    if d < today {
      assert z.dayOf(z.at(d, c)) == d;
    } else if d > today {
      assert z.dayOf(z.at(d, c)) == d;
    }
  }

  /** Before today's boundary the code takes the instant 24 hours before it for yesterday's. */
  function LastDailyBoundary(z: Zone, now: int, c: Clock): int {
    var today := z.at(z.dayOf(now), c);
    if today <= now then today else today - DAY
  }

  /** The boundary of day `d` comes 24 hours after the one before, unless it is the first instant of its day. */
  ghost predicate SteadyOn(z: Zone, c: Clock, d: int) {
    z.at(d, c) - z.at(d - 1, c) == DAY || z.dayOf(z.at(d, c) - 1) != d
  }

  ghost predicate Steady(z: Zone, c: Clock) {
    forall d :: SteadyOn(z, c, d)
  }

  /** What the code computes is the latest boundary if and only if today's has passed or came 24 hours after
      yesterday's. */
  lemma LastDailyBoundaryIff(z: Zone, now: int, c: Clock)
    requires Calendar(z) && IsTime(c)
    ensures var r, today := LastDailyBoundary(z, now, c), z.dayOf(now);
            (r <= now && (exists d :: r == z.at(d, c)) && forall d :: z.at(d, c) <= now ==> z.at(d, c) <= r)
            <==> z.at(today, c) <= now || z.at(today, c) - z.at(today - 1, c) == DAY
    ensures SteadyOn(z, c, z.dayOf(now)) ==> LastDailyBoundary(z, now, c) == z.at(Slot(z, now, c), c)
  {
    var r, today := LastDailyBoundary(z, now, c), z.dayOf(now);
    var slot := Slot(z, now, c);
    SlotIsLatest(z, now, c, slot);
    if r == z.at(slot, c) {
      forall d | z.at(d, c) <= now
        ensures z.at(d, c) <= r
      {
        SlotIsLatest(z, now, c, d);
        if d < slot { TimesGrow(z, c, d, slot); }
      }
    } else if d :| r == z.at(d, c) {
      SlotIsLatest(z, now, c, d);
      if r <= now && d < slot { TimesGrow(z, c, d, slot); }
    }
    if z.at(today, c) > now {
      assert z.dayOf(z.at(today, c)) == today;
      assert today <= z.dayOf(z.at(today, c) - 1) <= today;
    }
  }

  datatype SessionSchedule = SessionSchedule(enabled: Option<bool>, everyMinutes: Option<real>, dailyAt: string)

  predicate Every(s: SessionSchedule) {
    s.everyMinutes.Some? && s.everyMinutes.value >= 1.0
  }

  predicate IsDue(z: Zone, schedule: Option<SessionSchedule>, now: int, lastFire: int) {
    if schedule == None || schedule.value.enabled == Some(false) then false
    else
      var s := schedule.value;
      var daily := ParseHHMM(s.dailyAt);
      || (Every(s) && (now - lastFire) as real >= s.everyMinutes.value * MINUTE as real)
      || (daily.Some? && var boundary := LastDailyBoundary(z, now, daily.value); lastFire < boundary <= now)
  }

  predicate HasActiveTrigger(schedule: Option<SessionSchedule>) {
    && schedule.Some? && schedule.value.enabled != Some(false)
    && (Every(schedule.value) || ParseHHMM(schedule.value.dailyAt).Some?)
  }

  /** A schedule counts as active when it can fire at all: it is not switched off, and has an interval of a minute or
      more or a time of day. */
  lemma ActiveIffItCanFire(z: Zone, schedule: Option<SessionSchedule>)
    requires Calendar(z)
    ensures HasActiveTrigger(schedule) <==> exists now, last :: IsDue(z, schedule, now, last)
    ensures HasActiveTrigger(schedule) <==>
            && schedule.Some? && (schedule.value.enabled.Some? ==> schedule.value.enabled.value)
            && (|| (schedule.value.everyMinutes.Some? && !(schedule.value.everyMinutes.value < 1.0))
                || exists c :: Writes(Trim(schedule.value.dailyAt), c))
  {
    if schedule.Some? {
      var s := schedule.value;
      var daily := ParseHHMM(s.dailyAt);
      if daily.Some? {
        ParsesIff(s.dailyAt, daily.value);
      } else if c :| Writes(Trim(s.dailyAt), c) {
        ParsesIff(s.dailyAt, c);
      }
      if HasActiveTrigger(schedule) {
        if daily.Some? {
          var now := z.at(0, daily.value);
          assert z.dayOf(now) == 0;
          assert IsDue(z, schedule, now, now - 1);
        } else {
          LongAgoIsDue(z, schedule);
        }
      }
    }
  }

  lemma LongAgoIsDue(z: Zone, schedule: Option<SessionSchedule>)
    requires schedule.Some? && schedule.value.enabled != Some(false) && Every(schedule.value)
    ensures exists now, last :: IsDue(z, schedule, now, last)
  {
    var wait := schedule.value.everyMinutes.value * MINUTE as real;
    assert IsDue(z, schedule, wait.Floor + 1, 0);
  }

  // ---- over a run of ticks ---------------------------------------------------

  /** One look at the schedule: when, and whether the session could be started. */
  datatype Tick = Tick(at: int, idle: bool)

  /** When the session last fired, as the ticks leave it. */
  function LastFire(z: Zone, schedule: Option<SessionSchedule>, seed: int, ticks: seq<Tick>): int {
    if ticks == [] then seed
    else
      var last, t := LastFire(z, schedule, seed, ticks[..|ticks| - 1]), ticks[|ticks| - 1];
      if HasActiveTrigger(schedule) && t.idle && IsDue(z, schedule, t.at, last) then t.at else last
  }

  predicate FiresAt(z: Zone, schedule: Option<SessionSchedule>, seed: int, ticks: seq<Tick>, i: nat)
    requires i < |ticks|
  {
    HasActiveTrigger(schedule) && ticks[i].idle
      && IsDue(z, schedule, ticks[i].at, LastFire(z, schedule, seed, ticks[..i]))
  }

  lemma LastFireStep(z: Zone, schedule: Option<SessionSchedule>, seed: int, ticks: seq<Tick>, i: nat)
    requires i < |ticks|
    ensures LastFire(z, schedule, seed, ticks[..i + 1]) == if FiresAt(z, schedule, seed, ticks, i) then ticks[i].at
            else LastFire(z, schedule, seed, ticks[..i])
  {
    assert ticks[..i + 1][..i] == ticks[..i];
  }

  /** A schedule with a daily time only. */
  predicate DailyOnly(schedule: Option<SessionSchedule>, c: Clock) {
    && schedule.Some? && schedule.value.enabled != Some(false)
    && !Every(schedule.value) && ParseHHMM(schedule.value.dailyAt) == Some(c)
  }

  lemma BoundaryStartsSlot(z: Zone, now: int, c: Clock, last: int)
    requires Calendar(z) && IsTime(c) && SteadyOn(z, c, z.dayOf(now))
    ensures LastDailyBoundary(z, now, c) <= now
    ensures LastDailyBoundary(z, now, c) > last <==> Slot(z, now, c) > Slot(z, last, c)
  {
    LastDailyBoundaryIff(z, now, c);
    SlotIsLatest(z, now, c, Slot(z, now, c));
    SlotIsLatest(z, last, c, Slot(z, now, c));
  }

  /** The slot of the last firing is the latest slot met so far. */
  lemma {:induction false} LastSlotIsTheLatest(z: Zone, schedule: Option<SessionSchedule>, c: Clock, seed: int,
                                               ticks: seq<Tick>)
    requires Calendar(z) && Steady(z, c) && DailyOnly(schedule, c)
    ensures var last := Slot(z, LastFire(z, schedule, seed, ticks), c);
            && last >= Slot(z, seed, c)
            && (forall j :: 0 <= j < |ticks| && ticks[j].idle ==> last >= Slot(z, ticks[j].at, c))
            && (last == Slot(z, seed, c) || exists j ::
                0 <= j < |ticks| && ticks[j].idle && Slot(z, ticks[j].at, c) == last)
  {
    if ticks != [] {
      var init, t := ticks[..|ticks| - 1], ticks[|ticks| - 1];
      LastSlotIsTheLatest(z, schedule, c, seed, init);
      assert SteadyOn(z, c, z.dayOf(t.at));
      BoundaryStartsSlot(z, t.at, c, LastFire(z, schedule, seed, init));
      assert forall j :: 0 <= j < |init| ==> ticks[j] == init[j];
    }
  }

  /** A daily schedule fires at a tick exactly when the session is idle and no instant before it -
      neither the seed nor an earlier idle tick - lies in the same slot or a later one. */
  lemma DailyFiresIff(z: Zone, schedule: Option<SessionSchedule>, c: Clock, seed: int, ticks: seq<Tick>, i: nat)
    requires Calendar(z) && Steady(z, c) && DailyOnly(schedule, c) && i < |ticks|
    ensures FiresAt(z, schedule, seed, ticks, i) <==>
            && ticks[i].idle
            && Slot(z, seed, c) < Slot(z, ticks[i].at, c)
            && forall j :: 0 <= j < i && ticks[j].idle ==> Slot(z, ticks[j].at, c) < Slot(z, ticks[i].at, c)
  {
    var before := ticks[..i];
    LastSlotIsTheLatest(z, schedule, c, seed, before);
    assert SteadyOn(z, c, z.dayOf(ticks[i].at));
    BoundaryStartsSlot(z, ticks[i].at, c, LastFire(z, schedule, seed, before));
    assert forall j :: 0 <= j < i ==> before[j] == ticks[j];
  }

  /** On a clock that does not run backwards: each slot after the seed's with an idle tick in it fires once,
      at its first idle tick. */
  lemma {:induction false} EachSlotFiresOnce(z: Zone, schedule: Option<SessionSchedule>, c: Clock, seed: int,
                                             ticks: seq<Tick>,
                                             i: nat)
    returns (first: nat)
    requires Calendar(z) && Steady(z, c) && DailyOnly(schedule, c) && i < |ticks| && ticks[i].idle
             && Slot(z, ticks[i].at, c) > Slot(z, seed, c)
    requires forall j, k :: 0 <= j < k < |ticks| ==> ticks[j].at <= ticks[k].at
    ensures first <= i && FiresAt(z, schedule, seed, ticks, first)
            && Slot(z, ticks[first].at, c) == Slot(z, ticks[i].at, c)
    ensures forall j :: 0 <= j < first && ticks[j].idle ==> Slot(z, ticks[j].at, c) != Slot(z, ticks[i].at, c)
    ensures forall k ::
              0 <= k < |ticks| && FiresAt(z, schedule, seed, ticks, k)
                && Slot(z, ticks[k].at, c) == Slot(z, ticks[i].at, c) ==>
                k == first
  {
    first := FirstIdleIn(z, c, ticks, i);
    DailyFiresIff(z, schedule, c, seed, ticks, first);
    forall j | 0 <= j < first && ticks[j].idle
      ensures Slot(z, ticks[j].at, c) < Slot(z, ticks[first].at, c)
    {
      assert ticks[j].at <= ticks[first].at;
    }
    forall k | 0 <= k < |ticks| && FiresAt(z, schedule, seed, ticks, k)
      && Slot(z, ticks[k].at, c) == Slot(z, ticks[i].at, c)
      ensures k == first
    {
      DailyFiresIff(z, schedule, c, seed, ticks, k);
    }
  }

  lemma {:induction false} FirstIdleIn(z: Zone, c: Clock, ticks: seq<Tick>, i: nat) returns (first: nat)
    requires i < |ticks| && ticks[i].idle
    ensures first <= i && ticks[first].idle && Slot(z, ticks[first].at, c) == Slot(z, ticks[i].at, c)
    ensures forall j :: 0 <= j < first && ticks[j].idle ==> Slot(z, ticks[j].at, c) != Slot(z, ticks[i].at, c)
  {
    if j :| 0 <= j < i && ticks[j].idle && Slot(z, ticks[j].at, c) == Slot(z, ticks[i].at, c) {
      first := FirstIdleIn(z, c, ticks, j);
    } else {
      first := i;
    }
  }

  /** One tick, after a seed. */
  predicate FiresOnce(z: Zone, schedule: Option<SessionSchedule>, seed: int, at: int) {
    FiresAt(z, schedule, seed, [Tick(at, true)], 0)
  }

  lemma FiresOnceIff(z: Zone, schedule: Option<SessionSchedule>, c: Clock, seed: int, at: int)
    requires DailyOnly(schedule, c)
    ensures FiresOnce(z, schedule, seed, at) <==> seed < LastDailyBoundary(z, at, c) <= at
  {
    assert [Tick(at, true)][..0] == [];
  }

  /** Firing in every new slot, and only there, is what the code does if and only if the daily boundaries are steady:
      each comes 24 hours after the one before or starts its day. */
  lemma DailyIsExactIff(z: Zone, schedule: Option<SessionSchedule>, c: Clock)
    requires Calendar(z) && DailyOnly(schedule, c)
    ensures Steady(z, c) <==>
            forall seed, at :: FiresOnce(z, schedule, seed, at) <==> Slot(z, seed, c) < Slot(z, at, c)
  {
    if Steady(z, c) {
      forall seed, at
        ensures FiresOnce(z, schedule, seed, at) <==> Slot(z, seed, c) < Slot(z, at, c)
      {
        FiresOnceIff(z, schedule, c, seed, at);
        assert SteadyOn(z, c, z.dayOf(at));
        BoundaryStartsSlot(z, at, c, seed);
      }
    } else {
      var d :| !SteadyOn(z, c, d);
      var seed, at := UnsteadyDay(z, schedule, c, d);
    }
  }

  /** The last instant before an unsteady boundary: too late a seed and yet it fires, or too early a one and it
      does not. */
  lemma UnsteadyDay(z: Zone, schedule: Option<SessionSchedule>, c: Clock, d: int) returns (seed: int, at: int)
    requires Calendar(z) && DailyOnly(schedule, c) && !SteadyOn(z, c, d)
    ensures !(FiresOnce(z, schedule, seed, at) <==> Slot(z, seed, c) < Slot(z, at, c))
  {
    var before := z.at(d - 1, c);
    TimesGrow(z, c, d - 1, d);
    at := z.at(d, c) - 1;
    seed := if z.at(d, c) - before > DAY then before else before - 1;
    FiresOnceIff(z, schedule, c, seed, at);
    SlotIsLatest(z, seed, c, d - 1);
    SlotIsLatest(z, before, c, d);
  }

  /** On a day that its boundary ends more than 24 hours after the last one, as when the clocks go back, a schedule that
      has just fired fires again, in the same slot: at every tick of that day between a day before that boundary and the
      boundary itself. */
  lemma LongDayFiresTwice(z: Zone, schedule: Option<SessionSchedule>, c: Clock, d: int, seed: int, again: int)
    requires Calendar(z) && DailyOnly(schedule, c) && seed < z.at(d - 1, c)
    requires z.at(d, c) - z.at(d - 1, c) > DAY
    requires z.dayOf(again) == d && z.at(d, c) - DAY <= again < z.at(d, c)
    ensures var ticks := [Tick(z.at(d - 1, c), true), Tick(again, true)];
            && FiresAt(z, schedule, seed, ticks, 0) && FiresAt(z, schedule, seed, ticks, 1)
            && Slot(z, ticks[0].at, c) == Slot(z, ticks[1].at, c) == d - 1
  {
    var ticks := [Tick(z.at(d - 1, c), true), Tick(again, true)];
    assert z.dayOf(z.at(d - 1, c)) == d - 1;
    assert ticks[..0] == [] && ticks[..1] == [ticks[0]] && [ticks[0]][..0] == [];
    assert FiresAt(z, schedule, seed, ticks, 0);
    assert LastFire(z, schedule, seed, ticks[..1]) == ticks[0].at;
  }

  /** On a day that its boundary ends less than 24 hours after the last one, as when the clocks go forward, a start
      due since then is dropped: whatever the ticks before that boundary, none fires if the last firing, or the seed,
      lies in the time by which the day is too short. */
  lemma {:induction false} ShortDayDropsAStart(z: Zone, schedule: Option<SessionSchedule>, c: Clock, d: int, seed: int,
                                               ticks: seq<Tick>, i: nat)
    requires Calendar(z) && DailyOnly(schedule, c) && i < |ticks|
    requires z.at(d, c) - DAY <= seed < z.at(d - 1, c)
    requires forall k :: 0 <= k <= i ==> z.dayOf(ticks[k].at) == d && ticks[k].at < z.at(d, c)
    ensures !FiresAt(z, schedule, seed, ticks, i) && LastFire(z, schedule, seed, ticks[..i + 1]) == seed
    ensures Slot(z, seed, c) < Slot(z, ticks[i].at, c) == d - 1
  {
    LastFireStep(z, schedule, seed, ticks, i);
    if i == 0 {
      assert ticks[..0] == [];
    } else {
      ShortDayDropsAStart(z, schedule, c, d, seed, ticks, i - 1);
    }
    SlotIsLatest(z, seed, c, d - 1);
  }

  const AT_NOON := Some(SessionSchedule(None, None, "12:00"))

  lemma NoonIsDaily()
    ensures DailyOnly(AT_NOON, Clock(12, 0))
  {
    ParsesInFull("12:00");
  }

  lemma NoonsGoingBack()
    ensures var z, noon := GOING_BACK, Clock(12, 0);
            && z.at(0, noon) == 780 * MINUTE && z.at(-1, noon) == z.at(0 - 1, noon) == -720 * MINUTE
            && z.at(0, Clock(0, 0)) == 0 && z.dayOf(0) == 0 && z.dayOf(780 * MINUTE - 1) == 0
    ensures !Steady(GOING_BACK, Clock(12, 0))
  {
    var z, noon := GOING_BACK, Clock(12, 0);
    assert Offset(noon) == 720 * MINUTE && Offset(Clock(0, 0)) == 0;
    assert z.at(0, noon) == 780 * MINUTE && z.at(0 - 1, noon) == 720 * MINUTE - DAY;
    assert z.dayOf(780 * MINUTE - 1) == 0;
    assert !SteadyOn(z, noon, 0);
  }

  /** When the clocks go back: a session scheduled for noon is started at noon, and again at the next midnight. */
  lemma GoingBackFiresTwice(seed: int)
    requires seed < GOING_BACK.at(-1, Clock(12, 0))
    ensures var z, noon := GOING_BACK, Clock(12, 0);
            var ticks := [Tick(z.at(-1, noon), true), Tick(z.at(0, Clock(0, 0)), true)];
            && Calendar(z) && !Steady(z, noon)
            && FiresAt(z, AT_NOON, seed, ticks, 0) && FiresAt(z, AT_NOON, seed, ticks, 1)
            && Slot(z, ticks[0].at, noon) == Slot(z, ticks[1].at, noon) == -1
  {
    GoingBackIsACalendar();
    NoonIsDaily();
    NoonsGoingBack();
    LongDayFiresTwice(GOING_BACK, AT_NOON, Clock(12, 0), 0, seed, 0);
  }

  lemma NoonsGoingForward()
    ensures var z, noon := GOING_FORWARD, Clock(12, 0);
            && z.at(0, noon) == 660 * MINUTE && z.at(-1, noon) == z.at(0 - 1, noon) == -720 * MINUTE
            && z.at(-1, Clock(11, 30)) == -750 * MINUTE
    ensures !Steady(GOING_FORWARD, Clock(12, 0))
  {
    var z, noon := GOING_FORWARD, Clock(12, 0);
    assert Offset(noon) == 720 * MINUTE && Offset(Clock(11, 30)) == 690 * MINUTE;
    assert z.at(0, noon) == 660 * MINUTE && z.at(0 - 1, noon) == 720 * MINUTE - DAY;
    assert z.dayOf(660 * MINUTE - 1) == 0;
    assert !SteadyOn(z, noon, 0);
  }

  /** When they go forward: a session scheduled for noon that was last started or seeded at half past eleven and was
      busy from then to midnight is not started for that noon any more. */
  lemma GoingForwardDropsAStart(at: int)
    requires 0 <= at < GOING_FORWARD.at(0, Clock(12, 0))
    ensures var z, noon := GOING_FORWARD, Clock(12, 0);
            var seed := z.at(-1, Clock(11, 30));
            && Calendar(z) && !Steady(z, noon)
            && !FiresAt(z, AT_NOON, seed, [Tick(at, true)], 0) && Slot(z, seed, noon) < Slot(z, at, noon)
  {
    var z, noon := GOING_FORWARD, Clock(12, 0);
    GoingForwardIsACalendar();
    NoonIsDaily();
    NoonsGoingForward();
    ShortDayDropsAStart(z, AT_NOON, noon, 0, z.at(-1, Clock(11, 30)), [Tick(at, true)], 0);
  }

  // ---- days of 24 hours --------------------------------------------------------

  lemma FixedIsSteady(zero: int, c: Clock)
    ensures Steady(Fixed(zero), c)
  {
    forall d
      ensures SteadyOn(Fixed(zero), c, d)
    {
      assert Fixed(zero).at(d, c) - Fixed(zero).at(d - 1, c) == DAY;
    }
  }

  /** On a clock that is never set a daily schedule does what it says: at a tick it fires if and only if the session is
      idle and nothing before it - neither the seed nor an earlier idle tick - comes after the latest boundary. */
  lemma DailyOnAFixedClock(zero: int, schedule: Option<SessionSchedule>, c: Clock, seed: int, ticks: seq<Tick>, i: nat)
    requires DailyOnly(schedule, c) && i < |ticks|
    ensures var z := Fixed(zero);
            var boundary := z.at(Slot(z, ticks[i].at, c), c);
            && boundary <= ticks[i].at < boundary + DAY
            && (FiresAt(z, schedule, seed, ticks, i) <==>
                && ticks[i].idle && seed < boundary
                && forall j :: 0 <= j < i && ticks[j].idle ==> ticks[j].at < boundary)
  {
    var z := Fixed(zero);
    var slot := Slot(z, ticks[i].at, c);
    FixedIsACalendar(zero);
    FixedIsSteady(zero, c);
    DailyFiresIff(z, schedule, c, seed, ticks, i);
    SlotIsLatest(z, ticks[i].at, c, slot);
    SlotIsLatest(z, ticks[i].at, c, slot + 1);
    assert z.at(slot + 1, c) == z.at(slot, c) + DAY;
    SlotIsLatest(z, seed, c, slot);
    forall j | 0 <= j < i
      ensures ticks[j].at < z.at(slot, c) <==> Slot(z, ticks[j].at, c) < slot
    {
      SlotIsLatest(z, ticks[j].at, c, slot);
    }
  }

  /** With an interval only, two firings are always at least the interval apart, and an idle tick that far
      from the last firing always fires. */
  lemma {:induction false} IntervalIsKept(z: Zone, schedule: Option<SessionSchedule>, seed: int, ticks: seq<Tick>,
                                          i: nat,
                                          j: nat)
    requires schedule.Some? && schedule.value.enabled != Some(false) && Every(schedule.value)
    requires ParseHHMM(schedule.value.dailyAt) == None
    requires i < j < |ticks| && FiresAt(z, schedule, seed, ticks, i)
    ensures FiresAt(z, schedule, seed, ticks, j) ==>
              (ticks[j].at - ticks[i].at) as real >= schedule.value.everyMinutes.value * MINUTE as real
    ensures ticks[j].idle && (forall k :: i < k < j ==> !FiresAt(z, schedule, seed, ticks, k))
            && (ticks[j].at - ticks[i].at) as real >= schedule.value.everyMinutes.value * MINUTE as real
            ==> FiresAt(z, schedule, seed, ticks, j)
  {
    FiredSince(z, schedule, seed, ticks, i, j);
  }

  lemma {:induction false} FiredSince(z: Zone, schedule: Option<SessionSchedule>, seed: int, ticks: seq<Tick>, i: nat,
                                      j: nat)
    requires schedule.Some? && schedule.value.enabled != Some(false) && Every(schedule.value)
    requires ParseHHMM(schedule.value.dailyAt) == None
    requires i < j <= |ticks| && FiresAt(z, schedule, seed, ticks, i)
    ensures LastFire(z, schedule, seed, ticks[..j]) >= ticks[i].at
    ensures (forall k :: i < k < j ==> !FiresAt(z, schedule, seed, ticks, k)) ==>
            LastFire(z, schedule, seed, ticks[..j]) == ticks[i].at
    decreases j
  {
    LastFireStep(z, schedule, seed, ticks, j - 1);
    if j - 1 > i {
      FiredSince(z, schedule, seed, ticks, i, j - 1);
      if FiresAt(z, schedule, seed, ticks, j - 1) {
        assert schedule.value.everyMinutes.value * MINUTE as real >= 0.0;
      }
    }
  }

  // ---- quiet hours -----------------------------------------------------------

  datatype QuietHours = QuietHours(enabled: Option<bool>, start: string, end: string, days: seq<int>, allowUrgent: bool)

  /** Sunday is 0; day 0 was a Thursday. */
  function Weekday(day: int): int {
    (day + 4) % 7
  }

  /** The week: seven days, one after the other; the first of January 1970 is a Thursday. */
  lemma WeekdaysFollow(day: int)
    ensures 0 <= Weekday(day) <= 6 && Weekday(0) == 4
    ensures Weekday(day + 1) == if Weekday(day) == 6 then 0 else Weekday(day) + 1
  {
  }

  function MinuteOfDay(c: Clock): int {
    c.h * 60 + c.m
  }

  /** The length of the window in minutes; one that ends before it starts runs past midnight. */
  function Duration(s: Clock, e: Clock): int {
    (MinuteOfDay(e) - MinuteOfDay(s) + DAY_MIN) % DAY_MIN
  }

  predicate InWindow(z: Zone, s: Clock, e: Clock, day: int, now: int) {
    z.at(day, s) <= now < z.at(day, s) + Duration(s, e) * MINUTE
  }

  predicate DayAllowed(q: QuietHours, day: int) {
    q.days == [] || Weekday(day) in q.days
  }

  /** The code looks at two windows: the one that starts today and the one that started yesterday. */
  predicate QuietBetween(z: Zone, q: QuietHours, s: Clock, e: Clock, now: int) {
    if MinuteOfDay(s) == MinuteOfDay(e) then false
    else
      var today := z.dayOf(now);
      || (InWindow(z, s, e, today, now) && DayAllowed(q, today))
      || (InWindow(z, s, e, today - 1, now) && DayAllowed(q, today - 1))
  }

  predicate InQuietHours(z: Zone, config: Option<QuietHours>, now: int) {
    if config == None || config.value.enabled == Some(false) then false
    else
      var q := config.value;
      var s, e := ParseHHMM(q.start), ParseHHMM(q.end);
      s.Some? && e.Some? && QuietBetween(z, q, s.value, e.value, now)
  }

  predicate Suppresses(z: Zone, config: Option<QuietHours>, event: string, now: int) {
    InQuietHours(z, config, now) && !(config.value.allowUrgent && event == "error")
  }

  predicate Configured(config: Option<QuietHours>) {
    && config.Some? && config.value.enabled != Some(false)
    && ParseHHMM(config.value.start).Some? && ParseHHMM(config.value.end).Some?
    && ParseHHMM(config.value.start) != ParseHHMM(config.value.end)
  }

  /** Some day's window contains the instant, and its weekday is allowed. */
  ghost predicate SomeWindow(z: Zone, q: QuietHours, s: Clock, e: Clock, now: int) {
    exists day: int :: InWindow(z, s, e, day, now) && DayAllowed(q, day)
  }

  /** No window reaches into the second day after it starts. */
  ghost predicate EndsByNextDay(z: Zone, s: Clock, e: Clock) {
    forall d :: z.dayOf(z.at(d, s) + Duration(s, e) * MINUTE - 1) <= d + 1
  }

  /** Of windows that overlap, the one that started yesterday holds whatever an older one does. */
  lemma OlderWindow(z: Zone, s: Clock, e: Clock, day: int, now: int)
    requires Calendar(z) && IsTime(s) && InWindow(z, s, e, day, now)
    ensures day <= z.dayOf(now)
    ensures day < z.dayOf(now) - 1 ==> InWindow(z, s, e, z.dayOf(now) - 1, now)
    ensures EndsByNextDay(z, s, e) ==> z.dayOf(now) <= day + 1
  {
    var yesterday := z.dayOf(now) - 1;
    assert z.dayOf(z.at(day, s)) == day && z.dayOf(z.at(yesterday, s)) == yesterday;
    if day < yesterday { TimesGrow(z, s, day, yesterday); }
    assert now <= z.at(day, s) + Duration(s, e) * MINUTE - 1;
  }

  /** Two windows are enough: it is quiet exactly when any day's window, of all days there are, contains the instant
      and started on an allowed weekday - provided every weekday is allowed or no window outlasts the next day. */
  lemma QuietIffSomeWindow(z: Zone, q: QuietHours, s: Clock, e: Clock, now: int)
    requires Calendar(z) && IsTime(s) && IsTime(e) && s != e
    requires q.days == [] || EndsByNextDay(z, s, e)
    ensures QuietBetween(z, q, s, e, now) <==> SomeWindow(z, q, s, e, now)
  {
    if day: int :| InWindow(z, s, e, day, now) && DayAllowed(q, day) {
      OlderWindow(z, s, e, day, now);
    }
  }

  /** ... and when one does outlast it, there is a weekday to allow and an instant in its window that is not quiet. */
  lemma QuietIsExactIff(z: Zone, s: Clock, e: Clock)
    requires Calendar(z) && IsTime(s) && IsTime(e) && s != e
    ensures EndsByNextDay(z, s, e) <==>
            forall q, now :: QuietBetween(z, q, s, e, now) <==> SomeWindow(z, q, s, e, now)
  {
    if EndsByNextDay(z, s, e) {
      forall q, now
        ensures QuietBetween(z, q, s, e, now) <==> SomeWindow(z, q, s, e, now)
      {
        QuietIffSomeWindow(z, q, s, e, now);
      }
    } else {
      var d :| z.dayOf(z.at(d, s) + Duration(s, e) * MINUTE - 1) > d + 1;
      LongWindow(z, s, e, d);
    }
  }

  lemma WeekdaysDiffer(d: int)
    ensures Weekday(d) != Weekday(d + 1) && Weekday(d) != Weekday(d + 2)
  {
  }

  lemma LongWindow(z: Zone, s: Clock, e: Clock, d: int)
    requires Calendar(z) && IsTime(s) && IsTime(e) && s != e
    requires z.dayOf(z.at(d, s) + Duration(s, e) * MINUTE - 1) > d + 1
    ensures exists q, now :: !QuietBetween(z, q, s, e, now) && SomeWindow(z, q, s, e, now)
  {
    var q, now := QuietHours(None, "", "", [Weekday(d)], false), z.at(d, s) + Duration(s, e) * MINUTE - 1;
    assert 0 < Duration(s, e) < DAY_MIN;
    assert z.dayOf(z.at(d, s)) == d && z.dayOf(now) <= d + 2;
    assert InWindow(z, s, e, d, now) && DayAllowed(q, d);
    WeekdaysDiffer(d);
    assert !DayAllowed(q, d + 2) && !DayAllowed(q, d + 1);
    assert !QuietBetween(z, q, s, e, now);
  }

  /** Quiet from 23:59 to 23:58, on the weekday of day -1 only. */
  const ALMOST_A_DAY := QuietHours(None, "23:59", "23:58", [Weekday(-1)], false)

  lemma WindowGoingForward()
    ensures var z, s, e := GOING_FORWARD, Clock(23, 59), Clock(23, 58);
            && z.at(1, Clock(0, 30)) == DAY - 30 * MINUTE && z.dayOf(DAY - 30 * MINUTE) == 1
            && SomeWindow(z, ALMOST_A_DAY, s, e, DAY - 30 * MINUTE)
            && !EndsByNextDay(z, s, e)
  {
    var z, s, e := GOING_FORWARD, Clock(23, 59), Clock(23, 58);
    assert Offset(Clock(23, 59)) == 1439 * MINUTE && Offset(Clock(0, 30)) == 30 * MINUTE;
    assert z.at(-1, s) == -MINUTE && Duration(s, e) == DAY_MIN - 1;
    assert z.dayOf(DAY - 2 * MINUTE - 1) == 1;
    assert InWindow(z, s, e, -1, DAY - 30 * MINUTE) && DayAllowed(ALMOST_A_DAY, -1);
    assert z.dayOf(z.at(-1, s) + Duration(s, e) * MINUTE - 1) == 1;
  }

  /** When the clocks go forward: the window that starts at 23:59 the night before outlasts the short day. On the second
      day, at half past midnight, it is not quiet, although that is within the window and its weekday is allowed. */
  lemma GoingForwardCutsAWindow()
    ensures var z, s, e := GOING_FORWARD, Clock(23, 59), Clock(23, 58);
            var now := z.at(1, Clock(0, 30));
            && Calendar(z) && !EndsByNextDay(z, s, e)
            && ParseHHMM(ALMOST_A_DAY.start) == Some(s) && ParseHHMM(ALMOST_A_DAY.end) == Some(e)
            && SomeWindow(z, ALMOST_A_DAY, s, e, now) && !InQuietHours(z, Some(ALMOST_A_DAY), now)
  {
    var z, s, e := GOING_FORWARD, Clock(23, 59), Clock(23, 58);
    GoingForwardIsACalendar();
    WindowGoingForward();
    AlmostADayParses();
    NotQuietNextDay(z, s, e, DAY - 30 * MINUTE);
  }

  lemma AlmostADayParses()
    ensures ParseHHMM(ALMOST_A_DAY.start) == Some(Clock(23, 59)) && ParseHHMM(ALMOST_A_DAY.end) == Some(Clock(23, 58))
  {
    ParsesInFull("23:59");
    ParsesInFull("23:58");
  }

  lemma NotQuietNextDay(z: Zone, s: Clock, e: Clock, now: int)
    requires z.dayOf(now) == 1
    ensures !QuietBetween(z, ALMOST_A_DAY, s, e, now)
  {
    WeekdaysDiffer(-1);
  }

  lemma FixedEndsByNextDay(zero: int, s: Clock, e: Clock)
    requires IsTime(s)
    ensures EndsByNextDay(Fixed(zero), s, e)
  {
    var z := Fixed(zero);
    forall d
      ensures z.dayOf(z.at(d, s) + Duration(s, e) * MINUTE - 1) <= d + 1
    {
      assert 0 <= Offset(s) < DAY && 0 <= Duration(s, e) * MINUTE < DAY;
      assert z.at(d, s) + Duration(s, e) * MINUTE - 1 - zero < (d + 2) * DAY;
    }
  }

  /** On a clock that is never set a notification is suppressed if and only if some window of any day contains the
      instant, started on an allowed weekday, and the notification is no urgent error that may pass. */
  lemma SuppressesOnAFixedClock(zero: int, config: Option<QuietHours>, event: string, now: int)
    ensures Suppresses(Fixed(zero), config, event, now) <==>
            && Configured(config)
            && SomeWindow(Fixed(zero), config.value, ParseHHMM(config.value.start).value,
                          ParseHHMM(config.value.end).value, now)
            && !(config.value.allowUrgent && event == "error")
  {
    FixedIsACalendar(zero);
    if Configured(config) {
      FixedEndsByNextDay(zero, ParseHHMM(config.value.start).value, ParseHHMM(config.value.end).value);
    }
    SuppressesIff(Fixed(zero), config, event, now);
  }

  /** The clocks were not set yesterday and are not set today, as far as the two times can show. */
  ghost predicate PlainDays(z: Zone, now: int, s: Clock, e: Clock) {
    var today := z.dayOf(now);
    var midnight := z.at(today, Clock(0, 0));
    && midnight <= now < midnight + DAY
    && forall c :: c in {s, e} ==>
         z.at(today, c) == midnight + Offset(c) && z.at(today - 1, c) == midnight - DAY + Offset(c)
  }

  /** On the minutes since today's midnight: the window that starts today or the one that started yesterday. */
  lemma InEitherWindow(z: Zone, s: Clock, e: Clock, now: int)
    requires IsTime(s) && IsTime(e) && PlainDays(z, now, s, e)
    ensures var t := now - z.at(z.dayOf(now), Clock(0, 0));
            var from, until := MinuteOfDay(s) * MINUTE, MinuteOfDay(e) * MINUTE;
            InWindow(z, s, e, z.dayOf(now), now) || InWindow(z, s, e, z.dayOf(now) - 1, now)
            <==> if from <= until then from <= t < until else t < until || from <= t
  {
    assert Duration(s, e) == if MinuteOfDay(s) <= MinuteOfDay(e) then MinuteOfDay(e) - MinuteOfDay(s)
                             else MinuteOfDay(e) - MinuteOfDay(s) + DAY_MIN;
    assert Offset(s) == MinuteOfDay(s) * MINUTE && s in {s, e};
  }

  /** From `start` to `end` and from `end` to `start` are complementary: every instant is in exactly one of the two. */
  lemma SwappedWindowIsTheRest(z: Zone, start: string, end: string, now: int)
    requires ParseHHMM(start).Some? && ParseHHMM(end).Some? && ParseHHMM(start) != ParseHHMM(end)
    requires PlainDays(z, now, ParseHHMM(start).value, ParseHHMM(end).value)
    ensures InQuietHours(z, Some(QuietHours(None, start, end, [], false)), now)
            <==> !InQuietHours(z, Some(QuietHours(None, end, start, [], false)), now)
  {
    SwappedClocks(z, QuietHours(None, start, end, [], false), QuietHours(None, end, start, [], false),
                  ParseHHMM(start).value, ParseHHMM(end).value, now);
  }

  lemma SwappedClocks(z: Zone, q: QuietHours, r: QuietHours, s: Clock, e: Clock, now: int)
    requires IsTime(s) && IsTime(e) && s != e && PlainDays(z, now, s, e)
    requires q.days == [] && r.days == []
    ensures QuietBetween(z, q, s, e, now) <==> !QuietBetween(z, r, e, s, now)
  {
    InEitherWindow(z, s, e, now);
    assert PlainDays(z, now, e, s);
    InEitherWindow(z, e, s, now);
  }

  /** Quiet hours stay open for urgent errors only when asked to, and never mute a misconfigured or absent window. */
  lemma SuppressesIff(z: Zone, config: Option<QuietHours>, event: string, now: int)
    requires Calendar(z)
    requires Configured(config) ==>
               var q := config.value;
               q.days == [] || EndsByNextDay(z, ParseHHMM(q.start).value, ParseHHMM(q.end).value)
    ensures Suppresses(z, config, event, now) <==>
            Configured(config)
            && SomeWindow(z, config.value, ParseHHMM(config.value.start).value, ParseHHMM(config.value.end).value, now)
            && !(config.value.allowUrgent && event == "error")
  {
    if Configured(config) {
      var q := config.value;
      QuietIffSomeWindow(z, q, ParseHHMM(q.start).value, ParseHHMM(q.end).value, now);
    }
  }
}
