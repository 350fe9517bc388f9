/** The Today screen: three in-memory counters for the current day, the
    text fields the user types amounts into, and the store the screen
    reads at start-up and writes on every change. "Today" is injected as
    the long-form date string the screen displays ("June 5th, 2024"). */
module Today {
  import opened Store

  // ------------------------------------------------------------------
  // Day-of-month suffix
  // ------------------------------------------------------------------

  /** JavaScript's `a % b`: the remainder takes the sign of the dividend. */
  function JsRem(a: int, b: int): (r: int)
    requires b > 0
    ensures a >= 0 ==> r == a % b
    ensures a < 0 ==> -b < r <= 0
  {
    if a >= 0 then a % b else -((-a) % b)
  }

  /** `formatDaySuffix(d)`: "th" for 11 to 13, otherwise chosen by the
      remainder of `d` modulo 10. */
  function DaySuffix(d: int): (s: string)
    ensures s in {"st", "nd", "rd", "th"}
    ensures s == "st" <==> d > 0 && d % 10 == 1 && d != 11
    ensures s == "nd" <==> d > 0 && d % 10 == 2 && d != 12
    ensures s == "rd" <==> d > 0 && d % 10 == 3 && d != 13
  {
    if 11 <= d <= 13 then "th"
    else
      var r := JsRem(d, 10);
      if r == 1 then "st"
      else if r == 2 then "nd"
      else if r == 3 then "rd"
      else "th"
  }

  /** The English ordinal suffix, which looks at the last two digits. */
  function OrdinalSuffix(n: nat): string {
    if 11 <= n % 100 <= 13 then "th"
    else if n % 10 == 1 then "st"
    else if n % 10 == 2 then "nd"
    else if n % 10 == 3 then "rd"
    else "th"
  }

  /** On every day of a month the suffix agrees with the English rule. */
  lemma DaySuffixIsOrdinal(d: int)
    requires 1 <= d <= 31
    ensures DaySuffix(d) == OrdinalSuffix(d)
  {
  }

  // ------------------------------------------------------------------
  // Counter adjustment
  // ------------------------------------------------------------------

  datatype Metric = Calories | Protein | Miles

  /** `Math.max(0, x)` */
  function Clamp(x: real): (r: real)
    ensures r >= 0.0 && r >= x
    ensures r == x || r == 0.0
  {
    if x > 0.0 then x else 0.0
  }

  /** The counter after `handleChange` with the field's parsed amount:
      `None` stands for `NaN`, which is also what an empty field parses to. */
  function Added(prev: real, input: Option<real>): (r: real)
    ensures input.None? ==> r == prev
    ensures input.Some? ==> r >= 0.0 && r >= prev + input.value
    ensures input.Some? && prev + input.value >= 0.0 ==> r == prev + input.value
    ensures input.Some? && prev + input.value < 0.0 ==> r == 0.0
  {
    match input
    case None => prev
    case Some(n) => Clamp(prev + n)
  }

  /** The counter after `handleSubtract`. */
  function Subtracted(prev: real, input: Option<real>): (r: real)
    ensures input.None? ==> r == prev
    ensures input.Some? ==> r >= 0.0 && r >= prev - input.value
    ensures input.Some? && prev - input.value >= 0.0 ==> r == prev - input.value
    ensures input.Some? && prev - input.value < 0.0 ==> r == 0.0
  {
    match input
    case None => prev
    case Some(n) => Clamp(prev - n)
  }

  /** Adding a negative amount is subtracting its magnitude. */
  lemma AddNegativeIsSubtract(prev: real, n: real)
    ensures Added(prev, Some(-n)) == Subtracted(prev, Some(n))
  {
  }

  /** Subtracting what was just added restores a non-negative counter. */
  lemma SubtractUndoesAdd(prev: real, n: real)
    requires prev >= 0.0 && n >= 0.0
    ensures Subtracted(Added(prev, Some(n)), Some(n)) == prev
  {
  }

  /** Subtracting at least the whole counter empties it. */
  lemma SubtractClampsAtZero(prev: real, n: real)
    requires prev >= 0.0
    ensures Subtracted(prev, Some(n)) == 0.0 <==> n >= prev
  {
  }

  function Of(r: Record, m: Metric): real {
    match m
    case Calories => r.calories
    case Protein => r.protein
    case Miles => r.miles
  }

  function With(r: Record, m: Metric, x: real): (r': Record)
    ensures Of(r', m) == x
    ensures forall o :: o != m ==> Of(r', o) == Of(r, o)
  {
    match m
    case Calories => r.(calories := x)
    case Protein => r.(protein := x)
    case Miles => r.(miles := x)
  }

  // ------------------------------------------------------------------
  // Start-up, save and reset, as functions of the store
  // ------------------------------------------------------------------

  /** Whether start-up takes the rollover branch: the `last-date` marker is
      a non-empty string other than today. A serialized object under the
      marker counts as such a string (it begins with '{', which no
      long-form date does). */
  predicate RollsOver(store: Store, today: string) {
    LastDateKey in store &&
    match store[LastDateKey]
    case Text(s) => s != "" && s != today
    case Json(_) => true
  }

  /** The store after the rollover branch, which removes today's record. */
  function RolledStore(store: Store, today: string): Store {
    if RollsOver(store, today) then store - {StatsKey(today)} else store
  }

  /** Start-up stops in its `catch` when today's stored string does not
      parse; the marker is then not written. */
  predicate InitAborts(store: Store, today: string) {
    Get(RolledStore(store, today), StatsKey(today)).Corrupt?
  }

  function InitStore(store: Store, today: string): Store {
    var s := RolledStore(store, today);
    if InitAborts(store, today) then s else s[LastDateKey := Text(today)]
  }

  /** The counters after start-up, from counters `c` before it. */
  function InitCounters(store: Store, today: string, c: Record): Record {
    var c' := if RollsOver(store, today) then Zero else c;
    match Get(RolledStore(store, today), StatsKey(today))
    case Found(r) => r
    case _ => c'
  }

  function SaveStore(store: Store, today: string, r: Record): Store {
    store[StatsKey(today) := Encode(r)]
  }

  function ResetStore(store: Store, today: string): Store {
    store - {StatsKey(today)}
  }

  /** Only a store whose marker already names today, and whose record for
      today is corrupt, makes start-up abort. */
  lemma InitAbortsOnlyOnCorruptToday(store: Store, today: string)
    ensures InitAborts(store, today) <==>
              !RollsOver(store, today) && Get(store, StatsKey(today)).Corrupt?
  {
  }

  /** After a start-up that does not abort, the marker names today. */
  lemma InitMarksToday(store: Store, today: string)
    ensures !InitAborts(store, today) ==>
              LastDateKey in InitStore(store, today) && InitStore(store, today)[LastDateKey] == Text(today)
    ensures InitAborts(store, today) ==> InitStore(store, today) == store
  {
  }

  /** Rollover: today's record is gone, the counters are zero, and the
      marker names today. */
  lemma InitRollover(store: Store, today: string, c: Record)
    requires RollsOver(store, today)
    ensures StatsKey(today) !in InitStore(store, today)
    ensures InitStore(store, today)[LastDateKey] == Text(today)
    ensures InitCounters(store, today, c) == Zero
  {
  }

  /** Start-up touches no key but today's record and the marker; in
      particular the previous day's record keeps its contents. */
  lemma InitKeepsOtherKeys(store: Store, today: string, k: string)
    requires k != StatsKey(today) && k != LastDateKey
    ensures k in InitStore(store, today) <==> k in store
    ensures k in store ==> InitStore(store, today)[k] == store[k]
  {
  }

  /** When the marker already names today, start-up changes nothing in the
      store (its one write puts back the same marker) and hydrates the
      counters from today's record, missing fields read as 0. */
  lemma InitSameDay(store: Store, today: string, c: Record)
    requires LastDateKey in store && store[LastDateKey] == Text(today)
    ensures InitStore(store, today) == store
    ensures InitCounters(store, today, c) ==
              match Get(store, StatsKey(today)) case Found(r) => r case _ => c
  {
  }

  /** Running start-up a second time is a no-op on the store and on the
      counters. */
  lemma InitIdempotent(store: Store, today: string, c: Record)
    ensures InitStore(InitStore(store, today), today) == InitStore(store, today)
    ensures InitCounters(InitStore(store, today), today, InitCounters(store, today, c))
            == InitCounters(store, today, c)
  {
  }

  /** Start-up keeps the counters and the stored records non-negative. */
  lemma {:induction false} InitNonNegative(store: Store, today: string, c: Record)
    requires StatsNonNegative(store) && NonNegative(c)
    ensures StatsNonNegative(InitStore(store, today))
    ensures NonNegative(InitCounters(store, today, c))
  {
    var s := InitStore(store, today);
    forall k | Get(s, k).Found?
      ensures NonNegative(Get(s, k).rec)
    {
      assert k in store && s[k] == store[k];
      assert Get(s, k) == Get(store, k);
    }
    var r := RolledStore(store, today);
    if Get(r, StatsKey(today)).Found? {
      assert Get(r, StatsKey(today)) == Get(store, StatsKey(today));
    }
  }

  /** A saved record reads back unchanged; no other key changes. */
  lemma SaveThenGet(store: Store, today: string, r: Record, k: string)
    ensures Get(SaveStore(store, today, r), StatsKey(today)) == Found(r)
    ensures k != StatsKey(today) ==> Get(SaveStore(store, today, r), k) == Get(store, k)
  {
  }

  /** Save followed by a same-day start-up restores the saved counters. */
  lemma SaveThenInitRestores(store: Store, today: string, r: Record, c: Record)
    requires LastDateKey in store && store[LastDateKey] == Text(today)
    ensures InitStore(SaveStore(store, today, r), today) == SaveStore(store, today, r)
    ensures InitCounters(SaveStore(store, today, r), today, c) == r
  {
  }

  /** Saving non-negative counters keeps the stored records non-negative. */
  lemma {:induction false} SaveNonNegative(store: Store, today: string, r: Record)
    requires StatsNonNegative(store) && NonNegative(r)
    ensures StatsNonNegative(SaveStore(store, today, r))
  {
    var s := SaveStore(store, today, r);
    forall k | Get(s, k).Found?
      ensures NonNegative(Get(s, k).rec)
    {
      SaveThenGet(store, today, r, k);
    }
  }

  /** After a reset today's key resolves to nothing, and a same-day
      start-up from zeroed counters keeps them zero. */
  lemma ResetThenInit(store: Store, today: string)
    requires LastDateKey in store && store[LastDateKey] == Text(today)
    ensures Get(ResetStore(store, today), StatsKey(today)).Absent?
    ensures InitStore(ResetStore(store, today), today) == ResetStore(store, today)
    ensures InitCounters(ResetStore(store, today), today, Zero) == Zero
  {
  }

  /** The rollover from June 4th to June 5th: yesterday's record survives
      and the counters start from zero. */
  lemma RolloverExample(yesterday: Record, c: Record)
    ensures
      var store := map[LastDateKey := Text("June 4th, 2024"),
                       StatsKey("June 4th, 2024") := Encode(yesterday)];
      var s := InitStore(store, "June 5th, 2024");
      s[StatsKey("June 4th, 2024")] == Encode(yesterday) &&
      s[LastDateKey] == Text("June 5th, 2024") &&
      InitCounters(store, "June 5th, 2024", c) == Zero
  {
  }

  /** A screen left open past midnight: start-up ran on `day1`, so the
      marker names `day1`, and the next save belongs to a render of `day2`.
      The counters of `day1` are saved under `day2`'s key, nothing is
      zeroed, and `day1`'s own record keeps whatever it held. The next
      start-up on `day2` sees the stale marker, takes the rollover branch
      and deletes the carried-over record. */
  lemma SaveAfterMidnight(store: Store, day1: string, day2: string, c: Record, c': Record)
    requires day1 != "" && day1 != day2
    requires LastDateKey in store && store[LastDateKey] == Text(day1)
    ensures Get(SaveStore(store, day2, c), StatsKey(day2)) == Found(c)
    ensures Get(SaveStore(store, day2, c), StatsKey(day1)) == Get(store, StatsKey(day1))
    ensures StatsKey(day2) !in InitStore(SaveStore(store, day2, c), day2)
    ensures InitCounters(SaveStore(store, day2, c), day2, c') == Zero
  {
  }

  // ------------------------------------------------------------------
  // The screen
  // ------------------------------------------------------------------

  class TodayController {
    /** The long-form date of the render that mounted the screen. Start-up
        runs once, on mount, and uses this date; save and reset use the date
        of the render they belong to, which is passed to them. */
    const today: string

    var calories: real
    var protein: real
    var miles: real

    /** The three input fields, each as `parseFloat` reads its text:
        `None` is `NaN`, which includes the cleared field. */
    var calorieInput: Option<real>
    var proteinInput: Option<real>
    var milesInput: Option<real>

    var store: Store

    function Counters(): Record
      reads this
    {
      Record(calories, protein, miles)
    }

    function Input(m: Metric): Option<real>
      reads this
    {
      match m
      case Calories => calorieInput
      case Protein => proteinInput
      case Miles => milesInput
    }

    /** Mounting the screen: counters zero, fields empty. */
    constructor (today: string, store: Store)
      ensures this.today == today && this.store == store
      ensures Counters() == Zero
      ensures forall m :: Input(m).None?
    {
      this.today := today;
      this.store := store;
      calories, protein, miles := 0.0, 0.0, 0.0;
      calorieInput, proteinInput, milesInput := None, None, None;
    }

    /** The field's `onChangeText`. */
    method SetInput(m: Metric, v: Option<real>)
      modifies this
      ensures Input(m) == v
      ensures forall o :: o != m ==> Input(o) == old(Input(o))
      ensures Counters() == old(Counters()) && store == old(store)
    {
      match m
      case Calories => calorieInput := v;
      case Protein => proteinInput := v;
      case Miles => milesInput := v;
    }

    /** `handleChange`: add the field's amount to its counter, clamped at
        zero, and clear the field whether or not the amount was a number. */
    method Add(m: Metric)
      modifies this
      ensures Counters() == With(old(Counters()), m, Added(Of(old(Counters()), m), old(Input(m))))
      ensures Input(m).None?
      ensures forall o :: o != m ==> Input(o) == old(Input(o))
      ensures store == old(store)
      ensures NonNegative(old(Counters())) ==> NonNegative(Counters())
    {
      match m
      case Calories =>
        calories := Added(calories, calorieInput);
        calorieInput := None;
      case Protein =>
        protein := Added(protein, proteinInput);
        proteinInput := None;
      case Miles =>
        miles := Added(miles, milesInput);
        milesInput := None;
    }

    /** `handleSubtract`: subtract the field's amount, never going below
        zero, and clear the field. */
    method Subtract(m: Metric)
      modifies this
      ensures Counters() == With(old(Counters()), m, Subtracted(Of(old(Counters()), m), old(Input(m))))
      ensures Input(m).None?
      ensures forall o :: o != m ==> Input(o) == old(Input(o))
      ensures store == old(store)
      ensures NonNegative(old(Counters())) ==> NonNegative(Counters())
    {
      match m
      case Calories =>
        calories := Subtracted(calories, calorieInput);
        calorieInput := None;
      case Protein =>
        protein := Subtracted(protein, proteinInput);
        proteinInput := None;
      case Miles =>
        miles := Subtracted(miles, milesInput);
        milesInput := None;
    }

    /** `initData`: detect a rollover, hydrate the counters from today's
        record, and record today in the marker. */
    method Init()
      modifies this
      ensures store == InitStore(old(store), today)
      ensures Counters() == InitCounters(old(store), today, old(Counters()))
      ensures forall m :: Input(m) == old(Input(m))
      ensures StatsNonNegative(old(store)) && NonNegative(old(Counters())) ==>
                StatsNonNegative(store) && NonNegative(Counters())
    {
      if StatsNonNegative(store) && NonNegative(Counters()) {
        InitNonNegative(store, today, Counters());
      }
      var todayKey := StatsKey(today);
      if LastDateKey in store && RollsOver(store, today) {
        var lastDate := store[LastDateKey];
        if lastDate.Text? {
          // the previous day's record is written back as it is
          var yesterdayKey := StatsKey(lastDate.text);
          if yesterdayKey in store && Truthy(store[yesterdayKey]) {
            store := store[yesterdayKey := store[yesterdayKey]];
          }
        }
        store := store - {todayKey};
        calories, protein, miles := 0.0, 0.0, 0.0;
      }
      match Get(store, todayKey) {
        case Corrupt =>
          // JSON.parse throws; the catch only logs
          return;
        case Found(r) =>
          calories, protein, miles := r.calories, r.protein, r.miles;
        case Absent =>
      }
      store := store[LastDateKey := Text(today)];
    }

    /** The body of the debounced save: the whole record under the key of
        `date`, the date of the render whose counters are saved. */
    method Save(date: string)
      modifies this
      ensures store == SaveStore(old(store), date, Counters())
      ensures Counters() == old(Counters())
      ensures forall m :: Input(m) == old(Input(m))
      ensures StatsNonNegative(old(store)) && NonNegative(Counters()) ==> StatsNonNegative(store)
    {
      if StatsNonNegative(store) && NonNegative(Counters()) {
        SaveNonNegative(store, date, Counters());
      }
      store := store[StatsKey(date) := Encode(Counters())];
    }

    /** The confirmed branch of `handleReset`: zero the counters and remove
        the record of `date`, the date of the render the handler belongs
        to, and only that key. */
    method Reset(date: string)
      modifies this
      ensures Counters() == Zero
      ensures store == ResetStore(old(store), date)
      ensures forall m :: Input(m) == old(Input(m))
    {
      calories, protein, miles := 0.0, 0.0, 0.0;
      store := store - {StatsKey(date)};
    }
  }
}
