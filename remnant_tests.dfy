/** The examples in the documentation of `get_remnant_holidays` in
    xoutil/workcalendar.py, as lemmas about the model: a contract begun on
    2011-02-01 with fiscal years from June, holidays added in three steps
    and, at the end, one Sunday worked. */
module RemnantExamples {
  import opened Dates
  import opened WorkCalendars
  import P = PrototypeCalendar

  const Contract := Date(2011, 2, 1)

  /** The calendar of the examples. */
  function Calendar(used: seq<Date>, extra: seq<Date>): WorkCalendar
  {
    WorkCalendar(Contract, 6, Autrement, used, extra)
  }

  /** The same data for the prototype, whose counts are sums over lists. */
  function Proto(used: seq<Date>, extra: seq<Date>): P.Globals
  {
    P.Globals(Contract, used, extra)
  }

  /** `create_date_list("2011-05-29", 6)`. */
  const SixDays: seq<Date> := [Date(2011, 5, 29), Date(2011, 5, 30), Date(2011, 5, 31),
                               Date(2011, 6, 1), Date(2011, 6, 2), Date(2011, 6, 3)]

  /** `create_date_list("2011-11-5", 10)`. */
  const TenDays: seq<Date> := [Date(2011, 11, 5), Date(2011, 11, 6), Date(2011, 11, 7), Date(2011, 11, 8),
                               Date(2011, 11, 9), Date(2011, 11, 10), Date(2011, 11, 11), Date(2011, 11, 12),
                               Date(2011, 11, 13), Date(2011, 11, 14)]

  /** `create_date_list("2012-04-30", 1)`. */
  const OneDay: seq<Date> := [Date(2012, 4, 30)]

  /** Every holiday of the examples. */
  const AllUsed: seq<Date> := SixDays + TenDays + OneDay

  /** `create_date("2012-06-03")`, a Sunday worked as an extra day. */
  const Sunday := Date(2012, 6, 3)

  // ---------------------------------------------------------------------
  // Counting a list holiday by holiday
  // ---------------------------------------------------------------------

  /** What one holiday adds to the count. */
  lemma Single(h: Date, pb: Date, day: Date)
    requires Valid(h)
    ensures P.CountUsed([h], pb, day)
            == if NotAfter(pb, h) && NotAfter(h, day) && !P.IsFreeDay(h) then (if P.IsPenaltyDay(h) then 2 else 1) else 0
  {
    assert [h][..0] == [];
  }

  /** One holiday inside the period costs `c`: nothing on a free day, two
      on a penalty day, one otherwise. */
  lemma Costs(h: Date, pb: Date, day: Date, c: nat)
    requires Valid(h) && NotAfter(pb, h) && NotAfter(h, day)
    requires c == if P.IsFreeDay(h) then 0 else if P.IsPenaltyDay(h) then 2 else 1
    ensures P.CountUsed([h], pb, day) == c
  {
    Single(h, pb, day);
  }

  /** A list of three or two holidays counts what each adds. */
  lemma Three(a: Date, b: Date, c: Date, pb: Date, day: Date)
    requires Valid(a) && Valid(b) && Valid(c)
    ensures AllValid([a, b, c])
    ensures P.CountUsed([a, b, c], pb, day)
            == P.CountUsed([a], pb, day) + P.CountUsed([b], pb, day) + P.CountUsed([c], pb, day)
  {
    P.CountUsedAppend([a], [b], pb, day);
    P.CountUsedAppend([a, b], [c], pb, day);
    assert [a] + [b] == [a, b] && [a, b] + [c] == [a, b, c];
  }

  lemma Two(a: Date, b: Date, pb: Date, day: Date)
    requires Valid(a) && Valid(b)
    ensures AllValid([a, b])
    ensures P.CountUsed([a, b], pb, day) == P.CountUsed([a], pb, day) + P.CountUsed([b], pb, day)
  {
    P.CountUsedAppend([a], [b], pb, day);
    assert [a] + [b] == [a, b];
  }

  /** The kind of each listed day of 2011, one day at a time: its day
      number and weekday, and the day after it. */
  lemma May29()
    ensures P.IsFreeDay(Date(2011, 5, 29))
  {
    assert DayNumber(Date(2011, 5, 29)) == 734286 && Weekday(Date(2011, 5, 29)) == 6;
    assert NextDay(Date(2011, 5, 29)) == Date(2011, 5, 30);
  }

  lemma May30()
    ensures !P.IsFreeDay(Date(2011, 5, 30)) && !P.IsPenaltyDay(Date(2011, 5, 30))
  {
    assert DayNumber(Date(2011, 5, 30)) == 734287 && Weekday(Date(2011, 5, 30)) == 0;
    assert NextDay(Date(2011, 5, 30)) == Date(2011, 5, 31);
  }

  lemma May31()
    ensures !P.IsFreeDay(Date(2011, 5, 31)) && !P.IsPenaltyDay(Date(2011, 5, 31))
  {
    assert DayNumber(Date(2011, 5, 31)) == 734288 && Weekday(Date(2011, 5, 31)) == 1;
    assert NextDay(Date(2011, 5, 31)) == Date(2011, 6, 1);
  }

  lemma June1()
    ensures !P.IsFreeDay(Date(2011, 6, 1)) && !P.IsPenaltyDay(Date(2011, 6, 1))
  {
    assert DayNumber(Date(2011, 6, 1)) == 734289 && Weekday(Date(2011, 6, 1)) == 2;
    assert NextDay(Date(2011, 6, 1)) == Date(2011, 6, 2);
  }

  lemma June2()
    ensures !P.IsFreeDay(Date(2011, 6, 2)) && !P.IsPenaltyDay(Date(2011, 6, 2))
  {
    assert DayNumber(Date(2011, 6, 2)) == 734290 && Weekday(Date(2011, 6, 2)) == 3;
    assert NextDay(Date(2011, 6, 2)) == Date(2011, 6, 3);
  }

  lemma June3()
    ensures !P.IsFreeDay(Date(2011, 6, 3)) && P.IsPenaltyDay(Date(2011, 6, 3))
  {
    assert DayNumber(Date(2011, 6, 3)) == 734291 && Weekday(Date(2011, 6, 3)) == 4;
    assert NextDay(Date(2011, 6, 3)) == Date(2011, 6, 4);
  }

  lemma November5()
    ensures P.IsFreeDay(Date(2011, 11, 5))
  {
    assert DayNumber(Date(2011, 11, 5)) == 734446 && Weekday(Date(2011, 11, 5)) == 5;
    assert NextDay(Date(2011, 11, 5)) == Date(2011, 11, 6);
  }

  lemma November6()
    ensures P.IsFreeDay(Date(2011, 11, 6))
  {
    assert DayNumber(Date(2011, 11, 6)) == 734447 && Weekday(Date(2011, 11, 6)) == 6;
    assert NextDay(Date(2011, 11, 6)) == Date(2011, 11, 7);
  }

  lemma November7()
    ensures !P.IsFreeDay(Date(2011, 11, 7)) && !P.IsPenaltyDay(Date(2011, 11, 7))
  {
    assert DayNumber(Date(2011, 11, 7)) == 734448 && Weekday(Date(2011, 11, 7)) == 0;
    assert NextDay(Date(2011, 11, 7)) == Date(2011, 11, 8);
  }

  lemma November8()
    ensures !P.IsFreeDay(Date(2011, 11, 8)) && !P.IsPenaltyDay(Date(2011, 11, 8))
  {
    assert DayNumber(Date(2011, 11, 8)) == 734449 && Weekday(Date(2011, 11, 8)) == 1;
    assert NextDay(Date(2011, 11, 8)) == Date(2011, 11, 9);
  }

  lemma November9()
    ensures !P.IsFreeDay(Date(2011, 11, 9)) && !P.IsPenaltyDay(Date(2011, 11, 9))
  {
    assert DayNumber(Date(2011, 11, 9)) == 734450 && Weekday(Date(2011, 11, 9)) == 2;
    assert NextDay(Date(2011, 11, 9)) == Date(2011, 11, 10);
  }

  lemma November10()
    ensures !P.IsFreeDay(Date(2011, 11, 10)) && !P.IsPenaltyDay(Date(2011, 11, 10))
  {
    assert DayNumber(Date(2011, 11, 10)) == 734451 && Weekday(Date(2011, 11, 10)) == 3;
    assert NextDay(Date(2011, 11, 10)) == Date(2011, 11, 11);
  }

  lemma November11()
    ensures !P.IsFreeDay(Date(2011, 11, 11)) && P.IsPenaltyDay(Date(2011, 11, 11))
  {
    assert DayNumber(Date(2011, 11, 11)) == 734452 && Weekday(Date(2011, 11, 11)) == 4;
    assert NextDay(Date(2011, 11, 11)) == Date(2011, 11, 12);
  }

  lemma November12()
    ensures P.IsFreeDay(Date(2011, 11, 12))
  {
    assert DayNumber(Date(2011, 11, 12)) == 734453 && Weekday(Date(2011, 11, 12)) == 5;
    assert NextDay(Date(2011, 11, 12)) == Date(2011, 11, 13);
  }

  lemma November13()
    ensures P.IsFreeDay(Date(2011, 11, 13))
  {
    assert DayNumber(Date(2011, 11, 13)) == 734454 && Weekday(Date(2011, 11, 13)) == 6;
    assert NextDay(Date(2011, 11, 13)) == Date(2011, 11, 14);
  }

  lemma November14()
    ensures !P.IsFreeDay(Date(2011, 11, 14)) && !P.IsPenaltyDay(Date(2011, 11, 14))
  {
    assert DayNumber(Date(2011, 11, 14)) == 734455 && Weekday(Date(2011, 11, 14)) == 0;
    assert NextDay(Date(2011, 11, 14)) == Date(2011, 11, 15);
  }

  /** Which of the listed days are free and which are penalty days, week
      by week. */
  lemma MayKinds()
    ensures P.IsFreeDay(Date(2011, 5, 29))
    ensures !P.IsFreeDay(Date(2011, 5, 30)) && !P.IsPenaltyDay(Date(2011, 5, 30))
    ensures !P.IsFreeDay(Date(2011, 5, 31)) && !P.IsPenaltyDay(Date(2011, 5, 31))
  {
    May29();
    May30();
    May31();
  }

  lemma JuneKinds()
    ensures !P.IsFreeDay(Date(2011, 6, 1)) && !P.IsPenaltyDay(Date(2011, 6, 1))
    ensures !P.IsFreeDay(Date(2011, 6, 2)) && !P.IsPenaltyDay(Date(2011, 6, 2))
    ensures !P.IsFreeDay(Date(2011, 6, 3)) && P.IsPenaltyDay(Date(2011, 6, 3))
  {
    June1();
    June2();
    June3();
  }

  lemma NovemberEarlyKinds()
    ensures P.IsFreeDay(Date(2011, 11, 5)) && P.IsFreeDay(Date(2011, 11, 6))
    ensures !P.IsFreeDay(Date(2011, 11, 7)) && !P.IsPenaltyDay(Date(2011, 11, 7))
  {
    November5();
    November6();
    November7();
  }

  lemma NovemberMidKinds()
    ensures !P.IsFreeDay(Date(2011, 11, 8)) && !P.IsPenaltyDay(Date(2011, 11, 8))
    ensures !P.IsFreeDay(Date(2011, 11, 9)) && !P.IsPenaltyDay(Date(2011, 11, 9))
    ensures !P.IsFreeDay(Date(2011, 11, 10)) && !P.IsPenaltyDay(Date(2011, 11, 10))
  {
    November8();
    November9();
    November10();
  }

  lemma NovemberLateKinds()
    ensures !P.IsFreeDay(Date(2011, 11, 11)) && P.IsPenaltyDay(Date(2011, 11, 11))
    ensures P.IsFreeDay(Date(2011, 11, 12)) && P.IsFreeDay(Date(2011, 11, 13))
    ensures !P.IsFreeDay(Date(2011, 11, 14)) && !P.IsPenaltyDay(Date(2011, 11, 14))
  {
    November11();
    November12();
    November13();
    November14();
  }

  lemma OneDayKind()
    ensures !P.IsFreeDay(Date(2012, 4, 30)) && P.IsPenaltyDay(Date(2012, 4, 30))
  {
    assert NextDay(Date(2012, 4, 30)) == Date(2012, 5, 1);
    P.CommonFestivities(2012);
  }

  // ---------------------------------------------------------------------
  // The three lists in the periods the examples look at
  // ---------------------------------------------------------------------

  /** In the contract's first period (to 2011-05-31) the Sunday 29 May is
      free and the Monday and Tuesday after it cost one day each. */
  lemma SixDaysFirstPeriod()
    ensures AllValid(SixDays) && P.CountUsed(SixDays, Contract, Date(2011, 5, 31)) == 2
  {
    var pb, day := Contract, Date(2011, 5, 31);
    var a, b := [Date(2011, 5, 29), Date(2011, 5, 30), Date(2011, 5, 31)], [Date(2011, 6, 1), Date(2011, 6, 2), Date(2011, 6, 3)];
    assert SixDays == a + b;
    P.CountUsedAppend(a, b, pb, day);
    P.CountUsedOutside(b, pb, day);
    MayKinds();
    Three(Date(2011, 5, 29), Date(2011, 5, 30), Date(2011, 5, 31), pb, day);
    Costs(Date(2011, 5, 29), pb, day, 0);
    Costs(Date(2011, 5, 30), pb, day, 1);
    Costs(Date(2011, 5, 31), pb, day, 1);
  }

  /** In the period from 2011-06-01 the Wednesday and Thursday cost one day
      each and the Friday two. */
  lemma SixDaysSecondPeriod(day: Date)
    requires Valid(day) && NotAfter(Date(2011, 6, 3), day)
    ensures AllValid(SixDays) && P.CountUsed(SixDays, Date(2011, 6, 1), day) == 4
  {
    var pb := Date(2011, 6, 1);
    var a, b := [Date(2011, 5, 29), Date(2011, 5, 30), Date(2011, 5, 31)], [Date(2011, 6, 1), Date(2011, 6, 2), Date(2011, 6, 3)];
    assert SixDays == a + b;
    P.CountUsedAppend(a, b, pb, day);
    P.CountUsedOutside(a, pb, day);
    JuneKinds();
    Three(Date(2011, 6, 1), Date(2011, 6, 2), Date(2011, 6, 3), pb, day);
    Costs(Date(2011, 6, 1), pb, day, 1);
    Costs(Date(2011, 6, 2), pb, day, 1);
    Costs(Date(2011, 6, 3), pb, day, 2);
  }

  /** From Saturday 5 to Monday 14 November 2011: the weekends are free,
      the Friday costs two days and the other five days one each. */
  lemma TenDaysSecondPeriod(day: Date)
    requires Valid(day) && NotAfter(Date(2011, 11, 14), day)
    ensures AllValid(TenDays) && P.CountUsed(TenDays, Date(2011, 6, 1), day) == 7
  {
    var pb := Date(2011, 6, 1);
    var a := [Date(2011, 11, 5), Date(2011, 11, 6), Date(2011, 11, 7)];
    var b := [Date(2011, 11, 8), Date(2011, 11, 9), Date(2011, 11, 10)];
    var c := [Date(2011, 11, 11), Date(2011, 11, 12)];
    var d := [Date(2011, 11, 13), Date(2011, 11, 14)];
    assert TenDays == (a + b) + (c + d);
    TenDaysFirstHalf(a, b, pb, day);
    TenDaysSecondHalf(c, d, pb, day);
    P.CountUsedAppend(a + b, c + d, pb, day);
  }

  lemma TenDaysFirstHalf(a: seq<Date>, b: seq<Date>, pb: Date, day: Date)
    requires a == [Date(2011, 11, 5), Date(2011, 11, 6), Date(2011, 11, 7)]
    requires b == [Date(2011, 11, 8), Date(2011, 11, 9), Date(2011, 11, 10)]
    requires pb == Date(2011, 6, 1) && Valid(day) && NotAfter(Date(2011, 11, 14), day)
    ensures AllValid(a + b) && P.CountUsed(a + b, pb, day) == 4
  {
    NovemberEarlyKinds();
    NovemberMidKinds();
    P.CountUsedAppend(a, b, pb, day);
    Three(Date(2011, 11, 5), Date(2011, 11, 6), Date(2011, 11, 7), pb, day);
    Three(Date(2011, 11, 8), Date(2011, 11, 9), Date(2011, 11, 10), pb, day);
    Costs(Date(2011, 11, 5), pb, day, 0);
    Costs(Date(2011, 11, 6), pb, day, 0);
    Costs(Date(2011, 11, 7), pb, day, 1);
    Costs(Date(2011, 11, 8), pb, day, 1);
    Costs(Date(2011, 11, 9), pb, day, 1);
    Costs(Date(2011, 11, 10), pb, day, 1);
  }

  lemma TenDaysSecondHalf(c: seq<Date>, d: seq<Date>, pb: Date, day: Date)
    requires c == [Date(2011, 11, 11), Date(2011, 11, 12)]
    requires d == [Date(2011, 11, 13), Date(2011, 11, 14)]
    requires pb == Date(2011, 6, 1) && Valid(day) && NotAfter(Date(2011, 11, 14), day)
    ensures AllValid(c + d) && P.CountUsed(c + d, pb, day) == 3
  {
    NovemberLateKinds();
    P.CountUsedAppend(c, d, pb, day);
    Two(Date(2011, 11, 11), Date(2011, 11, 12), pb, day);
    Two(Date(2011, 11, 13), Date(2011, 11, 14), pb, day);
    Costs(Date(2011, 11, 11), pb, day, 2);
    Costs(Date(2011, 11, 12), pb, day, 0);
    Costs(Date(2011, 11, 13), pb, day, 0);
    Costs(Date(2011, 11, 14), pb, day, 1);
  }

  /** Monday 30 April 2012 is the eve of the festivity of 1 May: two days. */
  lemma OneDaySecondPeriod(day: Date)
    requires Valid(day) && NotAfter(Date(2012, 4, 30), day)
    ensures AllValid(OneDay) && P.CountUsed(OneDay, Date(2011, 6, 1), day) == 2
  {
    OneDayKind();
    Costs(Date(2012, 4, 30), Date(2011, 6, 1), day, 2);
  }

  // ---------------------------------------------------------------------
  // The pieces of `get_remnant_holidays` on the prototype
  // ---------------------------------------------------------------------

  /** Up to 2011-05-31 the contract's first period is running: what was
      taken in advance is just what was used in it. */
  lemma PrevUsedFirstPeriod(used: seq<Date>, extra: seq<Date>)
    requires AllValid(used) && AllValid(extra)
    ensures P.WellFormed(Proto(used, extra))
    ensures P.PrevUsedHolidays(Proto(used, extra), Date(2011, 5, 31)) == P.CountUsed(used, Contract, Date(2011, 5, 31)) as real
  {
    assert P.PeriodBegin(Proto(used, extra), Date(2011, 5, 31)) == Contract;
  }

  /** In the fiscal year from 2011-06-01 the four months of the first period
      have earned ten days, and the first period's use is carried. */
  lemma RemnantSecondPeriod(used: seq<Date>, day: Date)
    requires AllValid(used) && Valid(day) && NotAfter(Date(2011, 6, 1), day) && Before(day, Date(2012, 6, 1))
    ensures P.WellFormed(Proto(used, []))
    ensures P.RemnantHolidays(Proto(used, []), day)
            == 10.0 - (P.CountUsed(used, Date(2011, 6, 1), day) as real) - (P.CountUsed(used, Contract, Date(2011, 5, 31)) as real)
  {
    var g := Proto(used, []);
    assert P.PeriodBegin(g, day) == Date(2011, 6, 1);
    assert PrevDay(Date(2011, 6, 1)) == Date(2011, 5, 31);
    assert P.PeriodBegin(g, Date(2011, 5, 31)) == Contract;
    assert P.MonthsInPrevPeriod(g, day) == 4;
    PrevUsedFirstPeriod(used, []);
  }

  /** On 2012-05-31, the last day of the second period, what was taken in
      advance is what the two periods used beyond the ten days earned. */
  lemma PrevUsedSecondPeriod(used: seq<Date>, extra: seq<Date>)
    requires AllValid(used) && AllValid(extra)
    ensures P.WellFormed(Proto(used, extra))
    ensures var carried := (P.CountUsed(used, Contract, Date(2011, 5, 31)) as real)
                           + (P.CountUsed(used, Date(2011, 6, 1), Date(2012, 5, 31)) as real) - 10.0;
            P.PrevUsedHolidays(Proto(used, extra), Date(2012, 5, 31)) == if carried > 0.0 then carried else 0.0
  {
    var g := Proto(used, extra);
    assert P.PeriodBegin(g, Date(2012, 5, 31)) == Date(2011, 6, 1);
    assert PrevDay(Date(2011, 6, 1)) == Date(2011, 5, 31);
    assert P.PeriodBegin(g, Date(2011, 5, 31)) == Contract;
    assert P.MonthsInPrevPeriod(g, Date(2012, 5, 31)) == 4;
    PrevUsedFirstPeriod(used, extra);
  }

  /** Every holiday of the examples comes before the period begun on
      2012-06-01. */
  lemma AllBeforeJune2012()
    ensures forall h | h in SixDays + TenDays :: Before(h, Date(2012, 6, 1))
    ensures forall h | h in AllUsed :: Before(h, Date(2012, 6, 1))
  {
    assert forall h | h in SixDays :: h.year == 2011;
    assert forall h | h in TenDays :: h.year == 2011;
  }

  /** From 2012-06-01 the whole second period has earned thirty days; with
      no holiday used since, only what was taken in advance is subtracted. */
  lemma RemnantThirdPeriod(used: seq<Date>, extra: seq<Date>)
    requires AllValid(used) && AllValid(extra) && forall h | h in used :: Before(h, Date(2012, 6, 1))
    ensures P.WellFormed(Proto(used, extra))
    ensures P.MonthsInPrevPeriod(Proto(used, extra), Date(2012, 6, 5)) == 12
    ensures P.RemnantHolidays(Proto(used, extra), Date(2012, 6, 5))
            == 30.0 - P.PrevUsedHolidays(Proto(used, extra), Date(2012, 5, 31))
  {
    var g := Proto(used, extra);
    assert P.PeriodBegin(g, Date(2012, 6, 5)) == Date(2012, 6, 1);
    assert PrevDay(Date(2012, 6, 1)) == Date(2012, 5, 31);
    assert P.PeriodBegin(g, Date(2012, 5, 31)) == Date(2011, 6, 1);
    P.CountUsedOutside(used, Date(2012, 6, 1), Date(2012, 6, 5));
  }

  // ---------------------------------------------------------------------
  // The examples
  // ---------------------------------------------------------------------

  /** Six days from 2011-05-29: on 2011-11-03 ten days were earned, four
      used in this period and two taken in advance before it. */
  lemma RemnantAfterSixDays()
    ensures Calendar(SixDays, []).WellFormed()
    ensures Calendar(SixDays, []).RemnantHolidays(Date(2011, 11, 3)) == 4.0
  {
    var d := Date(2011, 11, 3);
    SixDaysFirstPeriod();
    SixDaysSecondPeriod(d);
    RemnantSecondPeriod(SixDays, d);
    P.SameRemnant(Proto(SixDays, []), d);
  }

  /** Ten more days from 2011-11-05: on 2011-12-03 eleven days were used in
      the period, more than was earned. */
  lemma RemnantAfterTenDays()
    ensures Calendar(SixDays + TenDays, []).WellFormed()
    ensures Calendar(SixDays + TenDays, []).RemnantHolidays(Date(2011, 12, 3)) == -3.0
  {
    var d := Date(2011, 12, 3);
    SixAndTenDaysFirstPeriod();
    SixAndTenDaysToDecember();
    RemnantSecondPeriod(SixDays + TenDays, d);
    P.SameRemnant(Proto(SixDays + TenDays, []), d);
  }

  /** The holidays of 2011 from June up to 2011-12-03. */
  lemma SixAndTenDaysToDecember()
    ensures AllValid(SixDays + TenDays)
    ensures P.CountUsed(SixDays + TenDays, Date(2011, 6, 1), Date(2011, 12, 3)) == 11
  {
    var d := Date(2011, 12, 3);
    SixDaysSecondPeriod(d);
    TenDaysSecondPeriod(d);
    P.CountUsedAppend(SixDays, TenDays, Date(2011, 6, 1), d);
  }

  /** The holidays of both periods, counted up to 2012-05-31. */
  lemma SixAndTenDaysCounts()
    ensures AllValid(SixDays + TenDays)
    ensures P.CountUsed(SixDays + TenDays, Contract, Date(2011, 5, 31)) == 2
    ensures P.CountUsed(SixDays + TenDays, Date(2011, 6, 1), Date(2012, 5, 31)) == 11
  {
    SixAndTenDaysFirstPeriod();
    SixAndTenDaysSecondPeriod();
  }

  lemma SixAndTenDaysFirstPeriod()
    ensures AllValid(SixDays + TenDays)
    ensures P.CountUsed(SixDays + TenDays, Contract, Date(2011, 5, 31)) == 2
  {
    SixDaysFirstPeriod();
    P.CountUsedAppend(SixDays, TenDays, Contract, Date(2011, 5, 31));
    P.CountUsedOutside(TenDays, Contract, Date(2011, 5, 31));
  }

  lemma SixAndTenDaysSecondPeriod()
    ensures AllValid(SixDays + TenDays)
    ensures P.CountUsed(SixDays + TenDays, Date(2011, 6, 1), Date(2012, 5, 31)) == 11
  {
    var d := Date(2012, 5, 31);
    SixDaysSecondPeriod(d);
    TenDaysSecondPeriod(d);
    P.CountUsedAppend(SixDays, TenDays, Date(2011, 6, 1), d);
  }

  /** On 2012-06-05 thirty days were earned, and the second period took
      three in advance (two carried plus eleven used, less ten earned). */
  lemma RemnantNextPeriod()
    ensures Calendar(SixDays + TenDays, []).WellFormed()
    ensures Calendar(SixDays + TenDays, []).RemnantHolidays(Date(2012, 6, 5)) == 27.0
  {
    ProtoRemnantNextPeriod();
    P.SameRemnant(Proto(SixDays + TenDays, []), Date(2012, 6, 5));
  }

  lemma ProtoRemnantNextPeriod()
    ensures P.WellFormed(Proto(SixDays + TenDays, []))
    ensures P.RemnantHolidays(Proto(SixDays + TenDays, []), Date(2012, 6, 5)) == 27.0
  {
    var used := SixDays + TenDays;
    SixAndTenDaysCounts();
    AllBeforeJune2012();
    PrevUsedSecondPeriod(used, []);
    RemnantThirdPeriod(used, []);
  }

  /** Every holiday of the examples, counted in the first two periods. */
  lemma AllUsedCounts()
    ensures AllValid(AllUsed)
    ensures P.CountUsed(AllUsed, Contract, Date(2011, 5, 31)) == 2
    ensures P.CountUsed(AllUsed, Date(2011, 6, 1), Date(2012, 5, 31)) == 13
  {
    SixAndTenDaysCounts();
    OneDaySecondPeriod(Date(2012, 5, 31));
    P.CountUsedAppend(SixDays + TenDays, OneDay, Date(2011, 6, 1), Date(2012, 5, 31));
    P.CountUsedAppend(SixDays + TenDays, OneDay, Contract, Date(2011, 5, 31));
    P.CountUsedOutside(OneDay, Contract, Date(2011, 5, 31));
  }

  /** One more day on 2012-04-30, the eve of a festivity, counts two: five
      days were taken in advance. */
  lemma RemnantWithEve()
    ensures Calendar(AllUsed, []).WellFormed()
    ensures Calendar(AllUsed, []).RemnantHolidays(Date(2012, 6, 5)) == 25.0
  {
    ProtoRemnantWithEve();
    P.SameRemnant(Proto(AllUsed, []), Date(2012, 6, 5));
  }

  lemma ProtoRemnantWithEve()
    ensures P.WellFormed(Proto(AllUsed, []))
    ensures P.RemnantHolidays(Proto(AllUsed, []), Date(2012, 6, 5)) == 25.0
  {
    AllUsedCounts();
    AllBeforeJune2012();
    PrevUsedSecondPeriod(AllUsed, []);
    RemnantThirdPeriod(AllUsed, []);
  }

  /** What was taken in advance and what was earned on 2012-06-05 are as
      without the extra day, which comes after the second period. */
  lemma SundayCarried()
    ensures Calendar(AllUsed, [Sunday]).WellFormed()
    ensures Calendar(AllUsed, [Sunday]).PeriodBegin(Date(2012, 6, 5)) == Date(2012, 6, 1)
    ensures Calendar(AllUsed, [Sunday]).AccumHolidays(Date(2012, 6, 5)) == 30.0
    ensures Calendar(AllUsed, [Sunday]).PrevUsedHolidays(Date(2012, 5, 31)) == 5.0
  {
    var g := Proto(AllUsed, [Sunday]);
    var d := Date(2012, 6, 5);
    AllUsedCounts();
    AllBeforeJune2012();
    PrevUsedSecondPeriod(AllUsed, [Sunday]);
    RemnantThirdPeriod(AllUsed, [Sunday]);
    P.SamePeriodBegin(g, d);
    P.SameMonths(g, d);
    P.SamePrevUsed(g, Date(2012, 5, 31));
  }

  /** On 2012-06-05 the Sunday is in the window of `get_extra_work_days`. */
  lemma SundayInWindow()
    ensures Calendar(AllUsed, [Sunday]).WellFormed()
    ensures Calendar(AllUsed, [Sunday]).ExtraWorkDays(Date(2012, 6, 5)) == [Sunday]
  {
    var wc := Calendar(AllUsed, [Sunday]);
    SundayCarried();
    wc.ExtraWorkDaysSingle(Sunday, Date(2012, 6, 5));
  }

  /** No holiday falls in the period begun on 2012-06-01, so none is charged. */
  lemma NothingChargedInJune()
    ensures Calendar(AllUsed, [Sunday]).WellFormed()
    ensures Calendar(AllUsed, [Sunday]).Charges(0, Date(2012, 6, 1), Date(2012, 6, 5)) == 0
  {
    var g := Proto(AllUsed, [Sunday]);
    P.CountUsedIsCharge(g, 0, Date(2012, 6, 1), Date(2012, 6, 5));
    assert AllUsed[0..] == AllUsed;
    AllBeforeJune2012();
    P.CountUsedOutside(AllUsed, Date(2012, 6, 1), Date(2012, 6, 5));
  }

  /** Nothing consumes the Sunday; two days later it is in scope and gives
      one day back. */
  lemma SundayUsed()
    ensures Calendar(AllUsed, [Sunday]).WellFormed()
    ensures Calendar(AllUsed, [Sunday]).UsedHolidays(Date(2012, 6, 5), true) == -1
  {
    var wc := Calendar(AllUsed, [Sunday]);
    var d, pb := Date(2012, 6, 5), Date(2012, 6, 1);
    SundayCarried();
    SundayInWindow();
    NothingChargedInJune();
    wc.NothingChargedKeepsExtraDays(0, [Sunday], pb, d);
    assert [Sunday][..0] == [];
    assert wc.InScope(Sunday, d);
  }

  /** The Sunday worked gives back the day: twenty-six left. */
  lemma RemnantWithSunday()
    ensures Calendar(AllUsed, [Sunday]).WellFormed()
    ensures Calendar(AllUsed, [Sunday]).RemnantHolidays(Date(2012, 6, 5)) == 26.0
  {
    SundayCarried();
    SundayUsed();
    assert PrevDay(Date(2012, 6, 1)) == Date(2012, 5, 31);
  }
}
