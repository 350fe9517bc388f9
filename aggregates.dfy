/** The Averages screen: the mean of each metric over the days of the last
    week and of the last month on which anything was logged. The date of
    the day `offset` days before today is injected as `dateOf(offset)`;
    the screen itself formats it as `YYYY-MM-DD`, which is not the format
    the Today screen writes its keys in (see `TodaySaveMissedByWindow`). */
module Aggregates {
  import opened Store
  import Today

  const Week := 7
  const Month := 30

  /** The running accumulators of `getTotals`. */
  datatype Sums = Sums(calories: real, protein: real, miles: real, days: nat)

  datatype Averages = Averages(calories: real, protein: real, miles: real)

  const NoSums := Sums(0.0, 0.0, 0.0, 0)
  const NoAverages := Averages(0.0, 0.0, 0.0)

  /** A day counts only when its three metrics add up to more than zero. */
  predicate Qualifies(r: Record) {
    r.calories + r.protein + r.miles > 0.0
  }

  /** The key looked up for the day `offset` days before today. */
  function DayKey(dateOf: nat -> string, offset: nat): string {
    StatsKey(dateOf(offset))
  }

  predicate QualifiesAt(store: Store, dateOf: nat -> string, offset: nat) {
    var read := Get(store, DayKey(dateOf, offset));
    read.Found? && Qualifies(read.rec)
  }

  /** One iteration of the loop: a missing day is skipped, a day that does
      not parse ends the computation, a qualifying day is added in. */
  function Step(s: Sums, read: Read): Option<Sums> {
    match read
    case Corrupt => None
    case Absent => Some(s)
    case Found(r) =>
      if Qualifies(r)
      then Some(Sums(s.calories + r.calories, s.protein + r.protein, s.miles + r.miles, s.days + 1))
      else Some(s)
  }

  /** The accumulators after the days at offsets 0 to n - 1, or `None`
      when one of them held a string that does not parse. */
  function Scan(store: Store, dateOf: nat -> string, n: nat): Option<Sums> {
    if n == 0 then Some(NoSums)
    else match Scan(store, dateOf, n - 1)
      case None => None
      case Some(s) => Step(s, Get(store, DayKey(dateOf, n - 1)))
  }

  /** The averages over the counted days; zero, without a division, when
      no day counted. */
  function Average(s: Sums): (a: Averages)
    ensures s.days == 0 ==> a == NoAverages
    ensures s.days > 0 ==>
              a.calories * s.days as real == s.calories &&
              a.protein * s.days as real == s.protein &&
              a.miles * s.days as real == s.miles
  {
    if s.days == 0 then NoAverages
    else
      var n := s.days as real;
      Averages(s.calories / n, s.protein / n, s.miles / n)
  }

  /** The number of iterations of `for (let i = 0; i < days; i++)`. */
  function Window(days: int): nat {
    if days > 0 then days else 0
  }

  /** What `getTotals(days)` resolves to; `None` when it rejects. */
  function Totals(store: Store, dateOf: nat -> string, days: int): Option<Averages> {
    match Scan(store, dateOf, Window(days))
    case None => None
    case Some(s) => Some(Average(s))
  }

  // ------------------------------------------------------------------
  // Properties of the scan
  // ------------------------------------------------------------------

  /** Once a day fails to parse, a longer window fails too. */
  lemma {:induction false} ScanStaysNone(store: Store, dateOf: nat -> string, m: nat, n: nat)
    requires m <= n && Scan(store, dateOf, m).None?
    ensures Scan(store, dateOf, n).None?
    decreases n
  {
    if m < n {
      ScanStaysNone(store, dateOf, m, n - 1);
    }
  }

  /** The scan fails exactly when some day in the window does not parse. */
  lemma {:induction false} ScanNoneIff(store: Store, dateOf: nat -> string, n: nat)
    ensures Scan(store, dateOf, n).None? <==>
              exists i :: 0 <= i < n && Get(store, DayKey(dateOf, i)).Corrupt?
  {
    if n > 0 {
      ScanNoneIff(store, dateOf, n - 1);
    }
  }

  /** `daysWithData` never exceeds the window. */
  lemma {:induction false} ScanDaysBound(store: Store, dateOf: nat -> string, n: nat)
    requires Scan(store, dateOf, n).Some?
    ensures Scan(store, dateOf, n).value.days <= n
  {
    if n > 0 {
      ScanDaysBound(store, dateOf, n - 1);
    }
  }

  /** No day is counted exactly when no day in the window qualifies. */
  lemma {:induction false} ScanNoDaysIff(store: Store, dateOf: nat -> string, n: nat)
    requires Scan(store, dateOf, n).Some?
    ensures Scan(store, dateOf, n).value.days == 0 <==>
              forall i :: 0 <= i < n ==> !QualifiesAt(store, dateOf, i)
  {
    if n > 0 {
      ScanNoDaysIff(store, dateOf, n - 1);
      var prev := Scan(store, dateOf, n - 1).value;
      var s := Scan(store, dateOf, n).value;
      assert s.days == prev.days + (if QualifiesAt(store, dateOf, n - 1) then 1 else 0);
    }
  }

  /** A wider window counts at least the days of a narrower one. */
  lemma {:induction false} ScanMonotone(store: Store, dateOf: nat -> string, m: nat, n: nat)
    requires m <= n && Scan(store, dateOf, n).Some?
    ensures Scan(store, dateOf, m).Some?
    ensures Scan(store, dateOf, m).value.days <= Scan(store, dateOf, n).value.days
    decreases n
  {
    if m < n {
      ScanMonotone(store, dateOf, m, n - 1);
    }
  }

  /** The scan reads only the keys of the window: two stores that agree on
      them give the same result. */
  lemma {:induction false} ScanLocal(s1: Store, s2: Store, dateOf: nat -> string, n: nat)
    requires forall i :: 0 <= i < n ==> Get(s1, DayKey(dateOf, i)) == Get(s2, DayKey(dateOf, i))
    ensures Scan(s1, dateOf, n) == Scan(s2, dateOf, n)
  {
    if n > 0 {
      ScanLocal(s1, s2, dateOf, n - 1);
    }
  }

  /** With non-negative records every running sum is non-negative. */
  lemma {:induction false} ScanNonNegative(store: Store, dateOf: nat -> string, n: nat)
    requires StatsNonNegative(store) && Scan(store, dateOf, n).Some?
    ensures var s := Scan(store, dateOf, n).value;
            s.calories >= 0.0 && s.protein >= 0.0 && s.miles >= 0.0
  {
    if n > 0 {
      ScanNonNegative(store, dateOf, n - 1);
      var read := Get(store, DayKey(dateOf, n - 1));
      if read.Found? {
        assert NonNegative(read.rec);
      }
    }
  }

  /** With non-negative records every average is non-negative. */
  lemma {:induction false} TotalsNonNegative(store: Store, dateOf: nat -> string, days: int)
    requires StatsNonNegative(store) && Totals(store, dateOf, days).Some?
    ensures var a := Totals(store, dateOf, days).value;
            a.calories >= 0.0 && a.protein >= 0.0 && a.miles >= 0.0
  {
    ScanNonNegative(store, dateOf, Window(days));
  }

  /** When no day of the window qualifies, the result is exactly all zeros. */
  lemma {:induction false} TotalsZeroWhenNoActivity(store: Store, dateOf: nat -> string, days: int)
    requires Totals(store, dateOf, days).Some?
    requires forall i :: 0 <= i < Window(days) ==> !QualifiesAt(store, dateOf, i)
    ensures Totals(store, dateOf, days) == Some(NoAverages)
  {
    ScanNoDaysIff(store, dateOf, Window(days));
  }

  /** A week that fails to parse makes the month fail too, and the month
      counts at least the days of the week. */
  lemma {:induction false} WeekWithinMonth(store: Store, dateOf: nat -> string)
    ensures Totals(store, dateOf, Week).None? ==> Totals(store, dateOf, Month).None?
    ensures Scan(store, dateOf, Month).Some? ==>
              Scan(store, dateOf, Week).Some? &&
              Scan(store, dateOf, Week).value.days <= Scan(store, dateOf, Month).value.days
  {
    if Totals(store, dateOf, Week).None? {
      ScanStaysNone(store, dateOf, Week, Month);
    }
    if Scan(store, dateOf, Month).Some? {
      ScanMonotone(store, dateOf, Week, Month);
    }
  }

  /** Three active days with 100, 200 and 300 calories among seven, the
      others missing or all zero, average to 200 calories. */
  lemma ThreeActiveDaysExample(store: Store, dateOf: nat -> string)
    requires Get(store, DayKey(dateOf, 0)) == Found(Record(100.0, 0.0, 0.0))
    requires Get(store, DayKey(dateOf, 1)).Absent?
    requires Get(store, DayKey(dateOf, 2)) == Found(Record(200.0, 0.0, 0.0))
    requires Get(store, DayKey(dateOf, 3)) == Found(Zero)
    requires Get(store, DayKey(dateOf, 4)).Absent?
    requires Get(store, DayKey(dateOf, 5)) == Found(Record(300.0, 0.0, 0.0))
    requires Get(store, DayKey(dateOf, 6)) == Found(Zero)
    ensures Totals(store, dateOf, Week) == Some(Averages(200.0, 0.0, 0.0))
  {
    assert Scan(store, dateOf, 1) == Some(Sums(100.0, 0.0, 0.0, 1));
    assert Scan(store, dateOf, 2) == Some(Sums(100.0, 0.0, 0.0, 1));
    assert Scan(store, dateOf, 3) == Some(Sums(300.0, 0.0, 0.0, 2));
    assert Scan(store, dateOf, 4) == Some(Sums(300.0, 0.0, 0.0, 2));
    assert Scan(store, dateOf, 5) == Some(Sums(300.0, 0.0, 0.0, 2));
    assert Scan(store, dateOf, 6) == Some(Sums(600.0, 0.0, 0.0, 3));
    assert Scan(store, dateOf, 7) == Some(Sums(600.0, 0.0, 0.0, 3));
  }

  // ------------------------------------------------------------------
  // Key formats of the two screens
  // ------------------------------------------------------------------

  /** As written, the Today screen saves under its long-form date and this
      screen reads ISO dates. When no date of the window is spelled like
      the Today screen's date, what it saves never reaches the averages. */
  lemma {:induction false} TodaySaveMissedByWindow(store: Store, today: string, r: Record,
                                                   dateOf: nat -> string, days: int)
    requires forall i :: 0 <= i < Window(days) ==> dateOf(i) != today
    ensures Totals(Today.SaveStore(store, today, r), dateOf, days) == Totals(store, dateOf, days)
  {
    var saved := Today.SaveStore(store, today, r);
    forall i | 0 <= i < Window(days)
      ensures Get(saved, DayKey(dateOf, i)) == Get(store, DayKey(dateOf, i))
    {
      if DayKey(dateOf, i) == StatsKey(today) {
        StatsKeyInjective(dateOf(i), today);
      }
      Today.SaveThenGet(store, today, r, DayKey(dateOf, i));
    }
    ScanLocal(saved, store, dateOf, Window(days));
  }

  /** Read with the Today screen's own date for offset 0, a day saved with
      activity counts in the averages. */
  lemma {:induction false} TodaySaveCountedBySharedWindow(store: Store, today: string, r: Record,
                                                         dateOf: nat -> string, days: int)
    requires days >= 1 && dateOf(0) == today && Qualifies(r)
    ensures var s := Scan(Today.SaveStore(store, today, r), dateOf, Window(days));
            s.Some? ==> s.value.days >= 1
  {
    var saved := Today.SaveStore(store, today, r);
    Today.SaveThenGet(store, today, r, today);
    assert Scan(saved, dateOf, 1) == Some(Sums(r.calories, r.protein, r.miles, 1));
    if Scan(saved, dateOf, Window(days)).Some? {
      ScanMonotone(saved, dateOf, 1, Window(days));
    }
  }

  // ------------------------------------------------------------------
  // The loop
  // ------------------------------------------------------------------

  /** `getTotals(days)`: look up the keys for offsets 0 to days - 1 in
      order, add up the qualifying days, and average them. */
  method GetTotals(store: Store, dateOf: nat -> string, days: int) returns (r: Option<Averages>)
    ensures r == Totals(store, dateOf, days)
  {
    var calories, protein, miles := 0.0, 0.0, 0.0;
    var daysWithData: nat := 0;
    var i: nat := 0;
    while i < days
      invariant i <= Window(days)
      invariant Scan(store, dateOf, i) == Some(Sums(calories, protein, miles, daysWithData))
    {
      var dateKey := StatsKey(dateOf(i));
      match Get(store, dateKey) {
        case Corrupt =>
          // JSON.parse throws and getTotals rejects
          ScanStaysNone(store, dateOf, i + 1, Window(days));
          return None;
        case Absent =>
        case Found(rec) =>
          if rec.calories + rec.protein + rec.miles > 0.0 {
            calories := calories + rec.calories;
            protein := protein + rec.protein;
            miles := miles + rec.miles;
            daysWithData := daysWithData + 1;
          }
      }
      i := i + 1;
    }
    if daysWithData == 0 {
      return Some(NoAverages);
    }
    var n := daysWithData as real;
    r := Some(Averages(calories / n, protein / n, miles / n));
  }

  /** `loadStats`: the weekly and the monthly averages; when either
      computation rejects, the screen keeps the averages it showed. */
  method LoadStats(store: Store, dateOf: nat -> string, weekly: Averages, monthly: Averages)
    returns (weekly': Averages, monthly': Averages)
    ensures var w := Totals(store, dateOf, Week);
            var m := Totals(store, dateOf, Month);
            if w.Some? && m.Some? then weekly' == w.value && monthly' == m.value
            else weekly' == weekly && monthly' == monthly
  {
    weekly', monthly' := weekly, monthly;
    var w := GetTotals(store, dateOf, Week);
    if w.None? {
      return;
    }
    var m := GetTotals(store, dateOf, Month);
    if m.None? {
      return;
    }
    weekly', monthly' := w.value, m.value;
  }
}
