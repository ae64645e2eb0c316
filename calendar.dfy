/** The module-level prototype of the work calendar in xoutil/calendar.py:
    the same rules with the fiscal year fixed to start in June, used
    holidays counted without compensatory days, and `reserve_holidays`.
    The module globals `contract_begin_date`, `used_holidays` and
    `extra_days` become a `Globals` value passed to every function. */
module PrototypeCalendar {
  import opened Dates
  import opened WorkCalendars

  /** The module globals the functions read. */
  datatype Globals = Globals(contractBegin: Date, usedHolidays: seq<Date>, extraDays: seq<Date>)

  predicate WellFormed(g: Globals)
  {
    Valid(g.contractBegin) && AllValid(g.usedHolidays) && AllValid(g.extraDays)
  }

  /** The same data seen as a calendar of the class, with fiscal years from June. */
  function AsWorkCalendar(g: Globals): (wc: WorkCalendar)
    requires WellFormed(g)
    ensures wc.WellFormed()
  {
    WorkCalendar(g.contractBegin, 6, Autrement, g.usedHolidays, g.extraDays)
  }

  /** `get_period_begin_date(day)`: June 1st of the fiscal year, or the contract start if later. */
  function PeriodBegin(g: Globals, day: Date): (r: Date)
    requires WellFormed(g) && Valid(day)
    ensures Valid(r)
  {
    Later(Date(if day.month >= 6 then day.year else day.year - 1, 6, 1), g.contractBegin)
  }

  /** `get_prev_period_begin_date(day)`. */
  function PrevPeriodBegin(g: Globals, day: Date): (r: Option<Date>)
    requires WellFormed(g) && Valid(day)
    ensures r.Some? ==> Valid(r.value)
  {
    var first := PeriodBegin(g, day);
    if first == g.contractBegin then None else Some(PeriodBegin(g, PrevDay(first)))
  }

  /** `get_worked_months_in_period(day)`. */
  function MonthsInPeriod(g: Globals, day: Date): int
    requires WellFormed(g) && Valid(day)
  {
    WorkedMonths(PeriodBegin(g, day), day)
  }

  /** `get_worked_months_in_prev_period(day)`. */
  function MonthsInPrevPeriod(g: Globals, day: Date): int
    requires WellFormed(g) && Valid(day)
  {
    match PrevPeriodBegin(g, day)
    case None => 0
    case Some(p) => WorkedMonths(p, PrevDay(PeriodBegin(g, day)))
  }

  /** `get_accum_holidays(day)`. */
  function AccumHolidays(g: Globals, day: Date): real
    requires WellFormed(g) && Valid(day)
  {
    Earned(MonthsInPrevPeriod(g, day))
  }

  /** The festivities of year `y`, in the order the source appends them:
      the common days first, then the Cuban ones (the French branch sits
      under `if False` and is never taken). */
  function Festivities(y: int): seq<Date>
  {
    [Date(y, 1, 1), Date(y, 5, 1), Date(y, 12, 25),
     Date(y, 2, 1), Date(y, 7, 25), Date(y, 7, 26), Date(y, 7, 27), Date(y, 10, 10), Date(y, 12, 31)]
  }

  /** `is_festivity_day(day)`. */
  predicate IsFestivity(day: Date)
  {
    day in Festivities(day.year)
  }

  /** `is_free_day(day)`. */
  predicate IsFreeDay(day: Date)
    requires Valid(day)
  {
    IsWeekend(day) || IsFestivity(day)
  }

  /** `is_penalty_day(day)`. */
  predicate IsPenaltyDay(day: Date)
    requires Valid(day)
  {
    Weekday(day) == 4 || IsFestivity(NextDay(day))
  }

  /** What the holidays in `hs` add to the count of `get_used_holidays`
      for the period `[pb, day]`. */
  function CountUsed(hs: seq<Date>, pb: Date, day: Date): (r: nat)
    requires AllValid(hs)
    ensures r <= 2 * |hs|
  {
    if hs == [] then 0
    else
      var h := hs[|hs| - 1];
      assert h in hs;
      var add := if NotAfter(pb, h) && NotAfter(h, day) && !IsFreeDay(h) then
                   (if IsPenaltyDay(h) then 2 else 1)
                 else 0;
      CountUsed(hs[..|hs| - 1], pb, day) + add
  }

  /** `get_used_holidays(day)`. */
  function UsedHolidays(g: Globals, day: Date): (r: nat)
    requires WellFormed(g) && Valid(day)
    ensures r <= 2 * |g.usedHolidays|
  {
    CountUsed(g.usedHolidays, PeriodBegin(g, day), day)
  }

  /** `get_used_holidays(day)` as the source's counter loop. */
  method GetUsedHolidays(g: Globals, day: Date) returns (count: int)
    requires WellFormed(g) && Valid(day)
    ensures count == UsedHolidays(g, day)
  {
    var pb := PeriodBegin(g, day);
    count := 0;
    var k := 0;
    while k < |g.usedHolidays|
      invariant 0 <= k <= |g.usedHolidays|
      invariant count == CountUsed(g.usedHolidays[..k], pb, day)
    {
      var h := g.usedHolidays[k];
      assert h in g.usedHolidays;
      assert g.usedHolidays[..k + 1][..k] == g.usedHolidays[..k];
      if NotAfter(pb, h) && NotAfter(h, day) && !IsFreeDay(h) {
        count := count + 1;
        if IsPenaltyDay(h) {
          count := count + 1;
        }
      }
      k := k + 1;
    }
    assert g.usedHolidays[..k] == g.usedHolidays;
  }

  /** `get_prev_used_holidays(day)`. */
  function PrevUsedHolidays(g: Globals, day: Date): real
    requires WellFormed(g) && Valid(day)
    decreases DayNumber(PeriodBegin(g, day)) - DayNumber(g.contractBegin)
  {
    var first := PeriodBegin(g, day);
    if first == g.contractBegin then
      UsedHolidays(g, day) as real
    else
      SamePeriodBegin(g, day);
      SamePeriodBegin(g, PrevDay(first));
      AsWorkCalendar(g).PeriodBeginDescends(day);
      var carried := PrevUsedHolidays(g, PrevDay(first)) + (UsedHolidays(g, day) as real) - AccumHolidays(g, day);
      if carried > 0.0 then carried else 0.0
  }

  /** `get_remnant_holidays(day)`: reserved and requested holidays are always 0. */
  function RemnantHolidays(g: Globals, day: Date): real
    requires WellFormed(g) && Valid(day)
  {
    var remnant := AccumHolidays(g, day) - (UsedHolidays(g, day) as real) - 0.0 - 0.0
                   - PrevUsedHolidays(g, PrevDay(PeriodBegin(g, day)));
    if remnant < 30.0 then remnant else 30.0
  }

  /** `reserve_holidays(day, duration)`: an error message, or nothing. */
  function ReserveHolidays(day: Date, duration: int): (r: Option<string>)
    ensures r.Some? <==> duration > 30
    ensures r.Some? ==> r.value == "Error: debe reservar menos de 30 dias"
  {
    if duration > 30 then Some("Error: debe reservar menos de 30 dias") else None
  }

  /** The extra days among `es` whose compensation `day` may take. */
  function CountCompensatory(es: seq<Date>, day: Date): (r: nat)
    requires AllValid(es) && Valid(day)
    ensures r <= |es|
  {
    if es == [] then 0
    else
      var e := es[|es| - 1];
      assert e in es;
      var inScope := (IsFestivity(e) && 0 < DaysBetween(e, day) < 31)
                     || (IsWeekend(e) && 0 < DaysBetween(e, day) < 7);
      CountCompensatory(es[..|es| - 1], day) + (if inScope then 1 else 0)
  }

  /** `get_accum_compensatory_days(day)` as the source's counter loop. */
  method GetAccumCompensatoryDays(g: Globals, day: Date) returns (count: int)
    requires WellFormed(g) && Valid(day)
    ensures count == CountCompensatory(g.extraDays, day)
  {
    count := 0;
    var j := 0;
    while j < |g.extraDays|
      invariant 0 <= j <= |g.extraDays|
      invariant count == CountCompensatory(g.extraDays[..j], day)
    {
      var e := g.extraDays[j];
      assert e in g.extraDays;
      assert g.extraDays[..j + 1][..j] == g.extraDays[..j];
      if IsFestivity(e) && 0 < DaysBetween(e, day) < 31 {
        count := count + 1;
      } else if IsWeekend(e) && 0 < DaysBetween(e, day) < 7 {
        count := count + 1;
      }
      j := j + 1;
    }
    assert g.extraDays[..j] == g.extraDays;
  }

  // ---------------------------------------------------------------------
  // The prototype against the class
  // ---------------------------------------------------------------------

  /** The prototype's periods are those of the class with a June fiscal start. */
  lemma SamePeriodBegin(g: Globals, day: Date)
    requires WellFormed(g) && Valid(day)
    ensures PeriodBegin(g, day) == AsWorkCalendar(g).PeriodBegin(day)
    ensures PrevPeriodBegin(g, day) == AsWorkCalendar(g).PrevPeriodBegin(day)
    ensures AccumHolidays(g, day) == AsWorkCalendar(g).AccumHolidays(day)
  {
    var first := PeriodBegin(g, day);
    if first != g.contractBegin {
      assert PeriodBegin(g, PrevDay(first)) == AsWorkCalendar(g).PeriodBegin(PrevDay(first));
    }
  }

  /** The prototype's festivities are the class's 'Autrement' festivities:
      the same nine days, listed in another order. */
  lemma SameFestivities(g: Globals, day: Date)
    requires WellFormed(g)
    ensures IsFestivity(day) <==> AsWorkCalendar(g).IsFestivity(day)
    ensures IsFestivity(day) <==>
              (day.month, day.day) in {(1, 1), (2, 1), (5, 1), (7, 25), (7, 26), (7, 27), (10, 10), (12, 25), (12, 31)}
  {
    AsWorkCalendar(g).FestivityDates(day);
  }

  /** The prototype's worked months, in the current and the previous
      period, are the class's; so they are whole calendar months. */
  lemma SameMonths(g: Globals, day: Date)
    requires WellFormed(g) && Valid(day)
    ensures MonthsInPeriod(g, day) == AsWorkCalendar(g).MonthsInPeriod(day)
    ensures MonthsInPrevPeriod(g, day) == AsWorkCalendar(g).MonthsInPrevPeriod(day)
    ensures NotAfter(g.contractBegin, day) ==> MonthsInPeriod(g, day) == FullMonths(PeriodBegin(g, day), day)
  {
    SamePeriodBegin(g, day);
    if NotAfter(g.contractBegin, day) {
      AsWorkCalendar(g).MonthsInPeriodAreFullMonths(day);
    }
  }

  /** The prototype's penalty days are the class's: a Friday or the eve of a
      festivity. */
  lemma SamePenaltyDay(g: Globals, day: Date)
    requires WellFormed(g) && Valid(day)
    ensures IsPenaltyDay(day) <==> AsWorkCalendar(g).IsPenaltyDay(day)
    ensures IsPenaltyDay(day) <==>
              Weekday(day) == 4 ||
              (day.month, day.day) in {(12, 31), (1, 31), (4, 30), (7, 24), (7, 25), (7, 26), (10, 9), (12, 24), (12, 30)}
  {
    SameFestivities(g, NextDay(day));
    AsWorkCalendar(g).PenaltyDays(day);
  }

  /** The count of a list of holidays is the sum of the counts of its parts. */
  lemma {:induction false} CountUsedAppend(a: seq<Date>, b: seq<Date>, pb: Date, day: Date)
    requires AllValid(a) && AllValid(b)
    ensures AllValid(a + b)
    ensures CountUsed(a + b, pb, day) == CountUsed(a, pb, day) + CountUsed(b, pb, day)
    decreases |b|
  {
    if b == [] {
      assert a + b == a;
    } else {
      var b0 := b[..|b| - 1];
      assert (a + b)[..|a + b| - 1] == a + b0 && (a + b)[|a + b| - 1] == b[|b| - 1];
      assert b[|b| - 1] in b;
      CountUsedAppend(a, b0, pb, day);
    }
  }

  /** Holidays outside the period `[pb, day]` count nothing. */
  lemma {:induction false} CountUsedOutside(hs: seq<Date>, pb: Date, day: Date)
    requires AllValid(hs)
    requires forall h | h in hs :: Before(h, pb) || Before(day, h)
    ensures CountUsed(hs, pb, day) == 0
    decreases |hs|
  {
    if hs != [] {
      assert hs[|hs| - 1] in hs;
      CountUsedOutside(hs[..|hs| - 1], pb, day);
    }
  }

  /** Used holidays are the class's charge before compensation: every
      in-period non-free holiday once, a penalty day twice. */
  lemma {:induction false} CountUsedIsCharge(g: Globals, k: nat, pb: Date, day: Date)
    requires WellFormed(g) && k <= |g.usedHolidays|
    ensures CountUsed(g.usedHolidays[k..], pb, day) == AsWorkCalendar(g).Charges(k, pb, day)
    decreases |g.usedHolidays| - k
  {
    var wc := AsWorkCalendar(g);
    var hs := g.usedHolidays;
    if k < |hs| {
      CountUsedIsCharge(g, k + 1, pb, day);
      CountUsedSplit(hs[k..], pb, day);
      assert hs[k..][1..] == hs[k + 1..];
      var h := hs[k];
      SameFestivities(g, h);
      SameFestivities(g, NextDay(h));
    } else {
      assert hs[k..] == [];
    }
  }

  /** Counting from the front: the first holiday's share, then the rest. */
  lemma {:induction false} CountUsedSplit(hs: seq<Date>, pb: Date, day: Date)
    requires AllValid(hs) && hs != []
    ensures CountUsed(hs, pb, day) ==
              (if NotAfter(pb, hs[0]) && NotAfter(hs[0], day) && !IsFreeDay(hs[0]) then
                 (if IsPenaltyDay(hs[0]) then 2 else 1)
               else 0) + CountUsed(hs[1..], pb, day)
    decreases |hs|
  {
    assert hs[0] in hs;
    if |hs| > 1 {
      var init := hs[..|hs| - 1];
      CountUsedSplit(init, pb, day);
      assert init[1..] == hs[1..][..|hs[1..]| - 1];
      assert init[0] == hs[0];
    } else {
      assert hs[1..] == [];
      assert hs[..0] == [];
    }
  }

  /** The prototype's used holidays equal the class's whenever no extra work
      day lies in the class's window: only the class consumes compensatory days. */
  lemma UsedHolidaysWithoutExtraDays(g: Globals, day: Date, plusExtra: bool)
    requires WellFormed(g) && Valid(day)
    requires AsWorkCalendar(g).ExtraWorkDays(day) == []
    ensures UsedHolidays(g, day) == AsWorkCalendar(g).UsedHolidays(day, plusExtra)
  {
    SamePeriodBegin(g, day);
    CountUsedIsCharge(g, 0, PeriodBegin(g, day), day);
    assert g.usedHolidays[0..] == g.usedHolidays;
    AsWorkCalendar(g).UsedHolidaysBounds(day, plusExtra);
  }

  /** When every extra work day comes after `day` (in particular when there
      are none) the prototype carries over exactly what the class carries
      over, period by period back to the contract start. */
  lemma {:induction false} SamePrevUsed(g: Globals, day: Date)
    requires WellFormed(g) && Valid(day)
    requires forall e | e in g.extraDays :: Before(day, e)
    ensures PrevUsedHolidays(g, day) == AsWorkCalendar(g).PrevUsedHolidays(day)
    decreases DayNumber(PeriodBegin(g, day)) - DayNumber(g.contractBegin)
  {
    var wc := AsWorkCalendar(g);
    SamePeriodBegin(g, day);
    NoExtraDaysYet(g, day);
    UsedHolidaysWithoutExtraDays(g, day, false);
    var first := PeriodBegin(g, day);
    if first != g.contractBegin {
      SamePeriodBegin(g, PrevDay(first));
      wc.PeriodBeginDescends(day);
      SamePrevUsed(g, PrevDay(first));
    }
  }

  /** Extra work days after `day` are outside the window of `day`. */
  lemma NoExtraDaysYet(g: Globals, day: Date)
    requires WellFormed(g) && Valid(day)
    requires forall e | e in g.extraDays :: Before(day, e)
    ensures AsWorkCalendar(g).ExtraWorkDays(day) == []
  {
    AsWorkCalendar(g).ExtraWorkDaysAfter(g.extraDays, day);
  }

  /** Without extra work days the prototype's remnant is the class's. */
  lemma SameRemnant(g: Globals, day: Date)
    requires WellFormed(g) && Valid(day) && g.extraDays == []
    ensures RemnantHolidays(g, day) == AsWorkCalendar(g).RemnantHolidays(day)
  {
    SamePeriodBegin(g, day);
    UsedHolidaysWithoutExtraDays(g, day, true);
    SamePrevUsed(g, PrevDay(PeriodBegin(g, day)));
  }

  /** The prototype counts the class's compensatory windows. */
  lemma {:induction false} SameCompensatory(g: Globals, es: seq<Date>, day: Date)
    requires WellFormed(g) && AllValid(es) && Valid(day)
    ensures CountCompensatory(es, day) == AsWorkCalendar(g).CountInScope(es, day)
    decreases |es|
  {
    if es != [] {
      var e := es[|es| - 1];
      assert e in es;
      SameCompensatory(g, es[..|es| - 1], day);
      SameFestivities(g, e);
    }
  }

  /** In any period but the first, the carried-over advance is never negative. */
  lemma PrevUsedNonNegative(g: Globals, day: Date)
    requires WellFormed(g) && Valid(day) && PeriodBegin(g, day) != g.contractBegin
    ensures PrevUsedHolidays(g, day) >= 0.0
  {
  }

  /** In the contract's first period the carried-over advance is what was used. */
  lemma PrevUsedInFirstPeriod(g: Globals, day: Date)
    requires WellFormed(g) && Valid(day) && PeriodBegin(g, day) == g.contractBegin
    ensures PrevUsedHolidays(g, day) >= 0.0
    ensures PrevUsedHolidays(g, day) <= 2.0 * (|g.usedHolidays| as real)
  {
  }

  /** The remnant never exceeds 30 days. */
  lemma RemnantAtMostThirty(g: Globals, day: Date)
    requires WellFormed(g) && Valid(day)
    ensures RemnantHolidays(g, day) <= 30.0
  {
  }

  /** The festivities always include the first of January, the first of May
      and Christmas, whatever the year. */
  lemma CommonFestivities(y: int)
    ensures IsFestivity(Date(y, 1, 1)) && IsFestivity(Date(y, 5, 1)) && IsFestivity(Date(y, 12, 25))
  {
    assert Festivities(y)[0] == Date(y, 1, 1);
    assert Festivities(y)[1] == Date(y, 5, 1);
    assert Festivities(y)[2] == Date(y, 12, 25);
  }
}
