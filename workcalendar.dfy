/** The `workcalendar` class of xoutil/workcalendar.py: fiscal periods that
    start on the first day of a fixed month (but never before the contract
    starts), complete worked months, holidays earned at 2.5 days a month,
    holidays used (free days skipped, Fridays and days before a festivity
    charged twice, compensatory days consumed) and the carry-over of
    holidays taken in advance.

    A calendar never changes its own fields, so it is a datatype; the two
    counter loops of the source are methods proved against the functions
    that specify them. */
module WorkCalendars {
  import opened Dates

  datatype Option<T> = None | Some(value: T)

  /** The labour law that decides the festivities: 'Autrement' (the Cuban
      festivities, the default) or any other name but 'Francesa', which
      has none. */
  datatype Law = Autrement | OtherLaw

  /** The Cuban festivities of year `y`, in the order the source lists them. */
  function CubanFestivities(y: int): seq<Date>
  {
    [Date(y, 1, 1), Date(y, 2, 1), Date(y, 5, 1), Date(y, 7, 25), Date(y, 7, 26),
     Date(y, 7, 27), Date(y, 10, 10), Date(y, 12, 25), Date(y, 12, 31)]
  }

  /** `(b - a).days` for two dates. */
  function DaysBetween(a: Date, b: Date): int
    requires Valid(a) && Valid(b)
  {
    DayNumber(b) - DayNumber(a)
  }

  /** The number of the month `d` falls in, counted from January of year 0. */
  function MonthIndex(d: Date): int
  {
    d.year * 12 + (d.month - 1)
  }

  function FirstDayOf(k: int): Date
  {
    Date(k / 12, k % 12 + 1, 1)
  }

  function LastDayOf(k: int): Date
  {
    Date(k / 12, k % 12 + 1, DaysInMonth(k / 12, k % 12 + 1))
  }

  /** Month number `k` lies wholly inside `[d1, d2]`. */
  predicate WhollyWithin(k: int, d1: Date, d2: Date)
  {
    NotAfter(d1, FirstDayOf(k)) && NotAfter(LastDayOf(k), d2)
  }

  /** The months from number `k` to the month of `d2` that lie wholly inside `[d1, d2]`. */
  function FullMonthsFrom(k: int, d1: Date, d2: Date): nat
    decreases MonthIndex(d2) - k + 1
  {
    if k > MonthIndex(d2) then 0
    else (if WhollyWithin(k, d1, d2) then 1 else 0) + FullMonthsFrom(k + 1, d1, d2)
  }

  /** The calendar months lying wholly inside `[d1, d2]`: the reference
      against which `get_worked_months` is checked. */
  function FullMonths(d1: Date, d2: Date): nat
  {
    FullMonthsFrom(MonthIndex(d1), d1, d2)
  }

  /** `get_worked_months(date1, date2)`: it looks only at month numbers,
      wrapping across a year end, and counts a first and a last month only
      when they are worked from their first and to their last day. */
  function WorkedMonths(d1: Date, d2: Date): (r: int)
    requires 1 <= d1.month <= 12 && Valid(d2)
    ensures 0 <= r <= 12
  {
    var diff := d2.month - d1.month;
    var months := (if diff < 0 then (12 - d1.month) + d2.month else diff) - 1
                  + (if d1.day == 1 then 1 else 0)
                  + (if d2.day == DaysInMonth(d2.year, d2.month) then 1 else 0);
    if months > 0 then months else 0
  }

  /** `is_weekend(day)`: a Saturday or a Sunday. */
  predicate IsWeekend(day: Date)
    requires Valid(day)
  {
    Weekday(day) > 4
  }

  /** The holidays a period's worked months earn: 2.5 days a month. */
  function Earned(months: int): real
  {
    5.0 * (months as real) / 2.0
  }

  /** The position of the first element of `xs` equal to `x`. */
  function FirstIndex(xs: seq<Date>, x: Date): (i: nat)
    requires x in xs
    ensures i < |xs| && xs[i] == x && x !in xs[..i]
  {
    if xs[0] == x then 0 else FirstIndex(xs[1..], x) + 1
  }

  /** `list.remove(x)`: the list without its first element equal to `x`,
      the others kept in their order. */
  function RemoveFirst(xs: seq<Date>, x: Date): (r: seq<Date>)
    requires x in xs
    ensures |r| == |xs| - 1
    ensures multiset(r) == multiset(xs) - multiset{x}
    ensures exists i | 0 <= i < |xs| :: xs[i] == x && x !in xs[..i] && r == xs[..i] + xs[i + 1..]
  {
    var i := FirstIndex(xs, x);
    assert xs == xs[..i] + [x] + xs[i + 1..];
    xs[..i] + xs[i + 1..]
  }

  predicate AllValid(ds: seq<Date>)
  {
    forall d | d in ds :: Valid(d)
  }

  lemma RemoveFirstValid(xs: seq<Date>, x: Date)
    requires x in xs && AllValid(xs)
    ensures AllValid(RemoveFirst(xs, x))
  {
    forall d | d in RemoveFirst(xs, x)
      ensures Valid(d)
    {
      assert d in multiset(RemoveFirst(xs, x));
      assert d in multiset(xs);
    }
  }

  datatype WorkCalendar = WorkCalendar(
    contractBegin: Date,
    fiscalMonth: int,
    law: Law,
    usedHolidays: seq<Date>,
    extraWorkDays: seq<Date>)
  {
    /** The dates are real dates and the fiscal month is a month. */
    predicate WellFormed()
    {
      Valid(contractBegin) && 1 <= fiscalMonth <= 12 && AllValid(usedHolidays) && AllValid(extraWorkDays)
    }

    /** The first day of the fiscal year that contains `day`, ignoring the contract. */
    function FiscalStart(day: Date): (r: Date)
      requires WellFormed() && Valid(day)
      ensures Valid(r)
    {
      Date(if day.month >= fiscalMonth then day.year else day.year - 1, fiscalMonth, 1)
    }

    /** `get_period_begin_date(day)`. */
    function PeriodBegin(day: Date): (r: Date)
      requires WellFormed() && Valid(day)
      ensures Valid(r)
      ensures NotAfter(contractBegin, r)
    {
      Later(FiscalStart(day), contractBegin)
    }

    /** `get_prev_period_begin_date(day)`. */
    function PrevPeriodBegin(day: Date): (r: Option<Date>)
      requires WellFormed() && Valid(day)
      ensures r.Some? ==> Valid(r.value)
    {
      var first := PeriodBegin(day);
      if first == contractBegin then None else Some(PeriodBegin(PrevDay(first)))
    }

    /** `get_worked_months_in_period(day)`. */
    function MonthsInPeriod(day: Date): int
      requires WellFormed() && Valid(day)
    {
      WorkedMonths(PeriodBegin(day), day)
    }

    /** `get_worked_months_in_prev_period(day)`. */
    function MonthsInPrevPeriod(day: Date): int
      requires WellFormed() && Valid(day)
    {
      match PrevPeriodBegin(day)
      case None => 0
      case Some(p) => WorkedMonths(p, PrevDay(PeriodBegin(day)))
    }

    /** `get_accum_holidays(day)`: holidays earned in the previous period. */
    function AccumHolidays(day: Date): (r: real)
      requires WellFormed() && Valid(day)
      ensures 0.0 <= r <= 30.0
    {
      Earned(MonthsInPrevPeriod(day))
    }

    /** `is_festivity_day(day)`. */
    predicate IsFestivity(day: Date)
    {
      law.Autrement? && day in CubanFestivities(day.year)
    }

    /** `is_free_day(day)`. */
    predicate IsFreeDay(day: Date)
      requires Valid(day)
    {
      IsWeekend(day) || IsFestivity(day)
    }

    /** `is_penalty_day(day)`: a Friday, or the day before a festivity. */
    predicate IsPenaltyDay(day: Date)
      requires Valid(day)
    {
      Weekday(day) == 4 || IsFestivity(NextDay(day))
    }

    /** `compensatory_day_in_scope(extra, holiday)`. */
    predicate InScope(extra: Date, holiday: Date)
      requires Valid(extra) && Valid(holiday)
    {
      (IsFestivity(extra) && 0 < DaysBetween(extra, holiday) < 31)
      || (IsWeekend(extra) && 0 < DaysBetween(extra, holiday) < 7)
    }

    /** How many of `ews` have `day` in their scope. */
    function CountInScope(ews: seq<Date>, day: Date): (r: nat)
      requires AllValid(ews) && Valid(day)
      ensures r <= |ews|
    {
      if ews == [] then 0
      else CountInScope(ews[..|ews| - 1], day) + (if InScope(ews[|ews| - 1], day) then 1 else 0)
    }

    /** The window `get_extra_work_days` keeps: from 31 days before the
        period begins up to `day`. */
    predicate InWindow(e: Date, day: Date)
      requires WellFormed() && Valid(e) && Valid(day)
    {
      DayNumber(PeriodBegin(day)) - 31 <= DayNumber(e) && NotAfter(e, day)
    }

    /** `get_extra_work_days(day)`: the extra work days in the window.
        `ExtraWorkDaysAppend` and `ExtraWorkDaysSingle` add that each is kept
        as often as the list holds it and in the list's order. */
    function ExtraWorkDaysFrom(ews: seq<Date>, day: Date): (r: seq<Date>)
      requires WellFormed() && Valid(day) && AllValid(ews)
      ensures AllValid(r) && |r| <= |ews|
      ensures forall e | e in r :: e in ews && InWindow(e, day)
      ensures forall e | e in ews :: InWindow(e, day) ==> e in r
    {
      if ews == [] then []
      else
        var e := ews[|ews| - 1];
        assert ews == ews[..|ews| - 1] + [e];
        assert e in ews;
        ExtraWorkDaysFrom(ews[..|ews| - 1], day) + (if InWindow(e, day) then [e] else [])
    }

    /** One unfolding of `ExtraWorkDaysFrom` at the list's last day. */
    lemma ExtraWorkDaysLast(xs: seq<Date>, day: Date)
      requires WellFormed() && Valid(day) && AllValid(xs) && xs != []
      ensures Valid(xs[|xs| - 1]) && AllValid(xs[..|xs| - 1])
      ensures ExtraWorkDaysFrom(xs, day)
              == ExtraWorkDaysFrom(xs[..|xs| - 1], day) + (if InWindow(xs[|xs| - 1], day) then [xs[|xs| - 1]] else [])
    {
      assert xs[|xs| - 1] in xs;
    }

    /** Filtering two lists one after the other is filtering their
        concatenation: the kept days stay in the list's order. */
    lemma {:induction false} ExtraWorkDaysAppend(a: seq<Date>, b: seq<Date>, day: Date)
      requires WellFormed() && Valid(day) && AllValid(a) && AllValid(b)
      ensures AllValid(a + b)
      ensures ExtraWorkDaysFrom(a + b, day) == ExtraWorkDaysFrom(a, day) + ExtraWorkDaysFrom(b, day)
      decreases |b|
    {
      if b == [] {
        assert a + b == a;
        assert ExtraWorkDaysFrom(a, day) + [] == ExtraWorkDaysFrom(a, day);
      } else {
        var b0, e := b[..|b| - 1], b[|b| - 1];
        var tail := if InWindow(e, day) then [e] else [];
        assert (a + b)[..|a + b| - 1] == a + b0 && (a + b)[|a + b| - 1] == e;
        ExtraWorkDaysLast(b, day);
        ExtraWorkDaysLast(a + b, day);
        ExtraWorkDaysAppend(a, b0, day);
        var fa, fb0 := ExtraWorkDaysFrom(a, day), ExtraWorkDaysFrom(b0, day);
        assert (fa + fb0) + tail == fa + (fb0 + tail);
      }
    }

    /** Extra work days all after `day` leave nothing in its window. */
    lemma {:induction false} ExtraWorkDaysAfter(ews: seq<Date>, day: Date)
      requires WellFormed() && Valid(day) && AllValid(ews)
      requires forall e | e in ews :: Before(day, e)
      ensures ExtraWorkDaysFrom(ews, day) == []
      decreases |ews|
    {
      if ews != [] {
        ExtraWorkDaysLast(ews, day);
        assert ews[|ews| - 1] in ews;
        ExtraWorkDaysAfter(ews[..|ews| - 1], day);
      }
    }

    /** A single extra day is kept exactly when it lies in the window. */
    lemma ExtraWorkDaysSingle(e: Date, day: Date)
      requires WellFormed() && Valid(day) && Valid(e)
      ensures ExtraWorkDaysFrom([e], day) == if InWindow(e, day) then [e] else []
    {
      assert [e][..0] == [];
    }

    function ExtraWorkDays(day: Date): (r: seq<Date>)
      requires WellFormed() && Valid(day)
      ensures AllValid(r)
    {
      ExtraWorkDaysFrom(extraWorkDays, day)
    }

    /** What the inner loop of `get_used_holidays` does for holiday `h`: it
        walks `ews` by position from `i`; an extra day in scope cancels one
        unit and is removed from the list, and the walk goes on at the next
        position (so the day after a removed one is skipped).  Returns the
        list left and the number of cancellations. */
    function Cancel(ews: seq<Date>, i: nat, h: Date): (r: (seq<Date>, nat))
      requires AllValid(ews) && Valid(h)
      ensures AllValid(r.0) && |r.0| + r.1 == |ews|
      decreases |ews| - i
    {
      if i >= |ews| then (ews, 0)
      else if InScope(ews[i], h) then
        RemoveFirstValid(ews, ews[i]);
        var (rest, n) := Cancel(RemoveFirst(ews, ews[i]), i + 1, h);
        (rest, n + 1)
      else
        Cancel(ews, i + 1, h)
    }

    /** A holiday is charged when it lies in `[pb, day]` and is not a free day. */
    predicate Charged(h: Date, pb: Date, day: Date)
      requires Valid(h)
    {
      NotAfter(pb, h) && NotAfter(h, day) && !IsFreeDay(h)
    }

    /** What a charged holiday costs before compensation. */
    function Charge(h: Date): nat
      requires Valid(h)
    {
      if IsPenaltyDay(h) then 2 else 1
    }

    /** The holidays from position `k` on, charged without compensation. */
    function Charges(k: nat, pb: Date, day: Date): (r: nat)
      requires WellFormed() && k <= |usedHolidays|
      ensures r <= 2 * (|usedHolidays| - k)
      decreases |usedHolidays| - k
    {
      if k == |usedHolidays| then 0
      else
        var h := usedHolidays[k];
        assert h in usedHolidays;
        (if Charged(h, pb, day) then Charge(h) else 0) + Charges(k + 1, pb, day)
    }

    /** The outer loop of `get_used_holidays` from holiday `k` on, with the
        extra days `ews` still available: the count it adds, and the extra
        days left at its end. */
    function CountFrom(k: nat, ews: seq<Date>, pb: Date, day: Date): (r: (int, seq<Date>))
      requires WellFormed() && AllValid(ews)
      ensures AllValid(r.1)
      decreases |usedHolidays| - k
    {
      if k >= |usedHolidays| then (0, ews)
      else
        var h := usedHolidays[k];
        assert h in usedHolidays;
        if Charged(h, pb, day) then
          var (left, cancelled) := Cancel(ews, 0, h);
          var (c, rest) := CountFrom(k + 1, left, pb, day);
          (Charge(h) - cancelled + c, rest)
        else
          CountFrom(k + 1, ews, pb, day)
    }

    /** `get_used_holidays(day, plus_extra_days)`. */
    function UsedHolidays(day: Date, plusExtra: bool): int
      requires WellFormed() && Valid(day)
    {
      var (c, left) := CountFrom(0, ExtraWorkDays(day), PeriodBegin(day), day);
      if plusExtra then c - CountInScope(left, day) else c
    }

    /** `get_used_holidays`, as the source computes it: a loop over the used
        holidays with an inner loop over a local copy of the extra work
        days that removes each one it consumes. */
    method GetUsedHolidays(day: Date, plusExtra: bool) returns (count: int)
      requires WellFormed() && Valid(day)
      ensures count == UsedHolidays(day, plusExtra)
    {
      var pb := PeriodBegin(day);
      count := 0;
      var ews := ExtraWorkDays(day);
      ghost var goal := CountFrom(0, ews, pb, day);
      var k := 0;
      while k < |usedHolidays|
        invariant 0 <= k <= |usedHolidays| && AllValid(ews)
        invariant count + CountFrom(k, ews, pb, day).0 == goal.0
        invariant CountFrom(k, ews, pb, day).1 == goal.1
      {
        var h := usedHolidays[k];
        assert h in usedHolidays;
        if NotAfter(pb, h) && NotAfter(h, day) && !IsFreeDay(h) {
          count := count + 1;
          if IsPenaltyDay(h) {
            count := count + 1;
          }
          var cancelled;
          ews, cancelled := ConsumeExtraDays(ews, h);
          count := count - cancelled;
        }
        k := k + 1;
      }
      if plusExtra {
        var inScope := CountCompensatory(ews, day);
        count := count - inScope;
      }
    }

    /** The inner loop of `get_used_holidays` for holiday `h`: it walks the
        list by position and removes each extra day in scope, which cancels
        one unit of the holiday. */
    method ConsumeExtraDays(ews0: seq<Date>, h: Date) returns (ews: seq<Date>, cancelled: nat)
      requires AllValid(ews0) && Valid(h)
      ensures (ews, cancelled) == Cancel(ews0, 0, h)
    {
      ews, cancelled := ews0, 0;
      var i := 0;
      while i < |ews|
        invariant AllValid(ews)
        invariant Cancel(ews, i, h).0 == Cancel(ews0, 0, h).0
        invariant cancelled + Cancel(ews, i, h).1 == Cancel(ews0, 0, h).1
        decreases |ews| - i
      {
        if InScope(ews[i], h) {
          cancelled := cancelled + 1;
          RemoveFirstValid(ews, ews[i]);
          ews := RemoveFirst(ews, ews[i]);
        }
        i := i + 1;
      }
    }

    /** The counter loop over extra work days shared by
        `get_accum_compensatory_days` and the `plus_extra_days` branch of
        `get_used_holidays`: one for each day in whose scope `day` lies. */
    method CountCompensatory(ews: seq<Date>, day: Date) returns (count: int)
      requires AllValid(ews) && Valid(day)
      ensures count == CountInScope(ews, day)
    {
      count := 0;
      var j := 0;
      while j < |ews|
        invariant 0 <= j <= |ews|
        invariant count == CountInScope(ews[..j], day)
      {
        var e := ews[j];
        assert e in ews;
        assert ews[..j + 1][..j] == ews[..j];
        if IsFestivity(e) && 0 < DaysBetween(e, day) < 31 {
          count := count + 1;
        } else if IsWeekend(e) && 0 < DaysBetween(e, day) < 7 {
          count := count + 1;
        }
        j := j + 1;
      }
      assert ews[..|ews|] == ews;
    }

    /** `get_accum_compensatory_days(day)`. */
    method GetAccumCompensatoryDays(day: Date) returns (count: int)
      requires WellFormed() && Valid(day)
      ensures count == CountInScope(extraWorkDays, day)
    {
      count := CountCompensatory(extraWorkDays, day);
    }

    /** `get_prev_used_holidays(day)`: the holidays taken in advance, carried
        over period by period from the contract's first period. */
    function PrevUsedHolidays(day: Date): real
      requires WellFormed() && Valid(day)
      decreases DayNumber(PeriodBegin(day)) - DayNumber(contractBegin)
    {
      var first := PeriodBegin(day);
      if first == contractBegin then
        UsedHolidays(day, false) as real
      else
        var prevLast := PrevDay(first);
        PeriodBeginDescends(day);
        var carried := PrevUsedHolidays(prevLast) + (UsedHolidays(day, false) as real) - AccumHolidays(day);
        if carried > 0.0 then carried else 0.0
    }

    /** `get_remnant_holidays(day)`: earned, minus used (with compensatory
        days), minus requested and confirmed (always 0 in the source), minus
        what was taken in advance before, capped at 30. */
    function RemnantHolidays(day: Date): real
      requires WellFormed() && Valid(day)
    {
      var remnant := AccumHolidays(day) - (UsedHolidays(day, true) as real) - 0.0 - 0.0
                     - PrevUsedHolidays(PrevDay(PeriodBegin(day)));
      if 30.0 < remnant then 30.0 else remnant
    }

    // -------------------------------------------------------------------
    // Lemmas
    // -------------------------------------------------------------------

    /** The fiscal start of a day is the latest first-of-the-fiscal-month
        on or before it: the next one is after the day. */
    lemma FiscalStartIsLatest(day: Date)
      requires WellFormed() && Valid(day)
      ensures NotAfter(FiscalStart(day), day)
      ensures Before(day, Date(FiscalStart(day).year + 1, fiscalMonth, 1))
    {
    }

    /** The period begin is the later of the fiscal start and the contract
        start, and it is on or before any day inside the contract. */
    lemma PeriodBeginBounds(day: Date)
      requires WellFormed() && Valid(day) && NotAfter(contractBegin, day)
      ensures NotAfter(FiscalStart(day), PeriodBegin(day))
      ensures NotAfter(PeriodBegin(day), day)
      ensures PeriodBegin(day) == contractBegin || PeriodBegin(day) == FiscalStart(day)
    {
      FiscalStartIsLatest(day);
    }

    /** Going back from a period begin that is not the contract start lands
        in an earlier period that still begins inside the contract. */
    lemma PeriodBeginDescends(day: Date)
      requires WellFormed() && Valid(day) && PeriodBegin(day) != contractBegin
      ensures DayNumber(PeriodBegin(PrevDay(PeriodBegin(day)))) < DayNumber(PeriodBegin(day))
      ensures DayNumber(contractBegin) <= DayNumber(PeriodBegin(PrevDay(PeriodBegin(day))))
    {
      var first := PeriodBegin(day);
      var prevLast := PrevDay(first);
      BeforeIsDayNumberOrder(contractBegin, first);
      assert Before(contractBegin, first);
      assert NotAfter(contractBegin, prevLast) by {
        BeforeIsDayNumberOrder(prevLast, contractBegin);
      }
      PeriodBeginBounds(prevLast);
      BeforeIsDayNumberOrder(prevLast, PeriodBegin(prevLast));
      BeforeIsDayNumberOrder(PeriodBegin(prevLast), contractBegin);
    }

    /** There is no previous period exactly in the contract's first period;
        otherwise the previous period begins strictly earlier. */
    lemma PrevPeriodBeginSpec(day: Date)
      requires WellFormed() && Valid(day)
      ensures PrevPeriodBegin(day).None? <==> PeriodBegin(day) == contractBegin
      ensures PrevPeriodBegin(day).Some? ==>
                Before(PrevPeriodBegin(day).value, PeriodBegin(day))
                && NotAfter(contractBegin, PrevPeriodBegin(day).value)
    {
      if PeriodBegin(day) != contractBegin {
        PeriodBeginDescends(day);
        BeforeIsDayNumberOrder(PrevPeriodBegin(day).value, PeriodBegin(day));
      }
    }

    /** In any period but the first, the carried-over advance is never negative. */
    lemma PrevUsedNonNegative(day: Date)
      requires WellFormed() && Valid(day) && PeriodBegin(day) != contractBegin
      ensures PrevUsedHolidays(day) >= 0.0
    {
    }

    /** The remnant never exceeds 30 days. */
    lemma RemnantAtMostThirty(day: Date)
      requires WellFormed() && Valid(day)
      ensures RemnantHolidays(day) <= 30.0
    {
    }

    /** A compensatory day covers the 30 days after a festivity and the 6
        days after a weekend day, and never the day itself. */
    lemma InScopeWindows(extra: Date, holiday: Date)
      requires Valid(extra) && Valid(holiday)
      ensures InScope(extra, holiday) ==> 1 <= DaysBetween(extra, holiday) <= 30
      ensures InScope(extra, holiday) && !IsFestivity(extra) ==> DaysBetween(extra, holiday) <= 6
      ensures IsFestivity(extra) && 1 <= DaysBetween(extra, holiday) <= 30 ==> InScope(extra, holiday)
      ensures IsWeekend(extra) && 1 <= DaysBetween(extra, holiday) <= 6 ==> InScope(extra, holiday)
      ensures !IsFreeDay(extra) ==> !InScope(extra, holiday)
    {
    }

    /** The festivities of the 'Autrement' law are nine fixed days of the year. */
    lemma FestivityDates(day: Date)
      ensures IsFestivity(day) <==>
                law.Autrement? &&
                (day.month, day.day) in {(1, 1), (2, 1), (5, 1), (7, 25), (7, 26), (7, 27), (10, 10), (12, 25), (12, 31)}
    {
    }

    /** A free day is a Saturday, a Sunday or, under 'Autrement', one of
        the nine festivities. */
    lemma FreeDays(day: Date)
      requires Valid(day)
      ensures IsFreeDay(day) <==>
                Weekday(day) >= 5 ||
                (law.Autrement? &&
                 (day.month, day.day) in {(1, 1), (2, 1), (5, 1), (7, 25), (7, 26), (7, 27), (10, 10), (12, 25), (12, 31)})
    {
      FestivityDates(day);
    }

    /** Under the 'Autrement' law a penalty day is a Friday or the eve of
        one of the nine festivities, the last day of the year included. */
    lemma PenaltyDays(day: Date)
      requires Valid(day) && law.Autrement?
      ensures IsPenaltyDay(day) <==>
                Weekday(day) == 4 ||
                (day.month, day.day) in {(12, 31), (1, 31), (4, 30), (7, 24), (7, 25), (7, 26), (10, 9), (12, 24), (12, 30)}
    {
      var next := NextDay(day);
      FestivityDates(next);
      if day.day == DaysInMonth(day.year, day.month) {
        assert day.month == 1 || day.month == 4 ==> day.month + 1 in {2, 5};
      }
    }

    /** The months worked in the current period are the calendar months lying
        wholly between its first day and `day`. */
    lemma MonthsInPeriodAreFullMonths(day: Date)
      requires WellFormed() && Valid(day) && NotAfter(contractBegin, day)
      ensures MonthsInPeriod(day) == FullMonths(PeriodBegin(day), day)
    {
      PeriodBeginBounds(day);
      var first := PeriodBegin(day);
      assert MonthIndex(FiscalStart(day)) <= MonthIndex(first);
      WorkedMonthsAreFullMonths(first, day);
    }

    /** The months worked in the previous period are the calendar months
        lying wholly inside it, and none in the contract's first period. */
    lemma MonthsInPrevPeriodAreFullMonths(day: Date)
      requires WellFormed() && Valid(day)
      ensures PrevPeriodBegin(day).None? ==> MonthsInPrevPeriod(day) == 0
      ensures PrevPeriodBegin(day).Some? ==>
                MonthsInPrevPeriod(day) == FullMonths(PrevPeriodBegin(day).value, PrevDay(PeriodBegin(day)))
      ensures AccumHolidays(day) == 5.0 * (MonthsInPrevPeriod(day) as real) / 2.0
    {
      var first := PeriodBegin(day);
      if first != contractBegin {
        var prevLast := PrevDay(first);
        BeforeIsDayNumberOrder(contractBegin, first);
        BeforeIsDayNumberOrder(prevLast, contractBegin);
        MonthsInPeriodAreFullMonths(prevLast);
      }
    }

    /** Every cancellation removes one extra day, and because the walk skips
        the day after each removed one, at most every other day is consumed. */
    lemma {:induction false} CancelBound(ews: seq<Date>, i: nat, h: Date)
      requires AllValid(ews) && Valid(h) && i <= |ews| + 1
      ensures 2 * Cancel(ews, i, h).1 <= |ews| - i + 1
      decreases |ews| - i
    {
      if i < |ews| {
        if InScope(ews[i], h) {
          RemoveFirstValid(ews, ews[i]);
          CancelBound(RemoveFirst(ews, ews[i]), i + 1, h);
        } else {
          CancelBound(ews, i + 1, h);
        }
      }
    }

    /** The count the outer loop adds is the charge of the holidays minus one
        per extra day it consumed. */
    lemma {:induction false} CountFromConsumes(k: nat, ews: seq<Date>, pb: Date, day: Date)
      requires WellFormed() && AllValid(ews) && k <= |usedHolidays|
      ensures |CountFrom(k, ews, pb, day).1| <= |ews|
      ensures CountFrom(k, ews, pb, day).0 == Charges(k, pb, day) - (|ews| - |CountFrom(k, ews, pb, day).1|)
      decreases |usedHolidays| - k
    {
      if k < |usedHolidays| {
        var h := usedHolidays[k];
        assert h in usedHolidays;
        if Charged(h, pb, day) {
          var (left, cancelled) := Cancel(ews, 0, h);
          CountFromConsumes(k + 1, left, pb, day);
        } else {
          CountFromConsumes(k + 1, ews, pb, day);
        }
      }
    }

    /** When no holiday from position `k` on is charged, the outer loop adds
        nothing and consumes no extra work day. */
    lemma {:induction false} NothingChargedKeepsExtraDays(k: nat, ews: seq<Date>, pb: Date, day: Date)
      requires WellFormed() && AllValid(ews) && k <= |usedHolidays|
      requires Charges(k, pb, day) == 0
      ensures CountFrom(k, ews, pb, day) == (0, ews)
      decreases |usedHolidays| - k
    {
      if k < |usedHolidays| {
        var h := usedHolidays[k];
        assert h in usedHolidays;
        NothingChargedKeepsExtraDays(k + 1, ews, pb, day);
      }
    }

    /** Used holidays lie between the uncompensated charge minus the
        available extra days and the uncompensated charge; with no extra
        days in the window they are exactly the charge. */
    lemma UsedHolidaysBounds(day: Date, plusExtra: bool)
      requires WellFormed() && Valid(day)
      ensures var base := Charges(0, PeriodBegin(day), day);
              base - |ExtraWorkDays(day)| <= UsedHolidays(day, plusExtra) <= base
      ensures ExtraWorkDays(day) == [] ==> UsedHolidays(day, plusExtra) == Charges(0, PeriodBegin(day), day)
    {
      var ews := ExtraWorkDays(day);
      CountFromConsumes(0, ews, PeriodBegin(day), day);
      if ews == [] {
        var left := CountFrom(0, ews, PeriodBegin(day), day).1;
        assert left == [];
      }
    }
  }

  // ---------------------------------------------------------------------
  // Month arithmetic behind WorkedMonthsAreFullMonths
  // ---------------------------------------------------------------------

  lemma MonthIndexRoundTrip(d: Date)
    requires 1 <= d.month <= 12
    ensures MonthIndex(d) / 12 == d.year && MonthIndex(d) % 12 + 1 == d.month
  {
  }

  /** A month number greater than that of `d` starts after `d`; a smaller one ends before it. */
  lemma MonthOrder(k: int, d: Date)
    requires Valid(d)
    ensures k > MonthIndex(d) ==> Before(d, FirstDayOf(k))
    ensures k < MonthIndex(d) ==> Before(LastDayOf(k), d)
  {
    MonthIndexRoundTrip(d);
    var y, m := k / 12, k % 12 + 1;
    assert k == y * 12 + (m - 1);
  }

  /** The months strictly after that of `d1`, up to that of `d2`. */
  lemma {:induction false} LaterMonths(k: int, d1: Date, d2: Date)
    requires Valid(d1) && Valid(d2) && MonthIndex(d1) < k <= MonthIndex(d2)
    ensures FullMonthsFrom(k, d1, d2)
            == (MonthIndex(d2) - k) + (if d2.day == DaysInMonth(d2.year, d2.month) then 1 else 0)
    decreases MonthIndex(d2) - k
  {
    MonthOrder(k, d1);
    MonthOrder(k, d2);
    MonthIndexRoundTrip(d2);
    if k < MonthIndex(d2) {
      LaterMonths(k + 1, d1, d2);
    } else {
      assert FullMonthsFrom(k + 1, d1, d2) == 0;
    }
  }

  /** `get_worked_months` counts exactly the calendar months lying wholly
      inside `[d1, d2]` when the two dates are at most eleven months apart
      (as inside one fiscal year). */
  lemma WorkedMonthsAreFullMonths(d1: Date, d2: Date)
    requires Valid(d1) && Valid(d2) && NotAfter(d1, d2)
    requires MonthIndex(d2) - MonthIndex(d1) <= 11
    ensures WorkedMonths(d1, d2) == FullMonths(d1, d2)
  {
    var a, b := MonthIndex(d1), MonthIndex(d2);
    MonthIndexRoundTrip(d1);
    MonthIndexRoundTrip(d2);
    assert 0 <= b - a;
    // the month numbers alone give the distance, wrapping at a year end
    if d2.year == d1.year {
      assert b - a == d2.month - d1.month;
    } else {
      assert d2.year == d1.year + 1;
      assert b - a == 12 + d2.month - d1.month;
    }
    if a < b {
      MonthOrder(a, d2);
      LaterMonths(a + 1, d1, d2);
    } else {
      assert FullMonthsFrom(a + 1, d1, d2) == 0;
    }
  }
}
