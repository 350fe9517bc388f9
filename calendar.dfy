/** The History screen: every stored day, newest first. The keys are those
    `getAllKeys` lists, in the order it lists them; the date order is
    injected as `time`, the timestamp `new Date(date).getTime()` gives. */
module Calendar {
  import opened Store
  import Today

  datatype Entry = Entry(date: string, calories: real, protein: real, miles: real)

  predicate NoDuplicates(s: seq<string>) {
    forall i, j :: 0 <= i < j < |s| ==> s[i] != s[j]
  }

  /** `keys.filter((key) => key.startsWith('stats-'))` */
  function StatKeys(keys: seq<string>): (r: seq<string>)
    ensures forall k :: k in r <==> k in keys && StartsWith(k, StatsPrefix)
    ensures |r| <= |keys|
    ensures NoDuplicates(keys) ==> NoDuplicates(r)
  {
    if keys == [] then []
    else
      var rest := StatKeys(keys[1..]);
      assert NoDuplicates(keys) ==> keys[0] !in keys[1..] && NoDuplicates(keys[1..]) by {
        if NoDuplicates(keys) {
          forall i | 0 <= i < |keys[1..]| ensures keys[1..][i] != keys[0] {
            assert keys[1..][i] == keys[i + 1];
          }
        }
      }
      if StartsWith(keys[0], StatsPrefix) then [keys[0]] + rest else rest
  }

  /** `s.replace(pat, '')`: the first occurrence of `pat` removed. */
  function ReplaceFirst(s: string, pat: string): string
    decreases |s|
  {
    if StartsWith(s, pat) then s[|pat|..]
    else if s == [] then s
    else [s[0]] + ReplaceFirst(s[1..], pat)
  }

  /** The date an entry shows for a stats key: the key without its prefix. */
  function KeyDate(key: string): (d: string)
    ensures StartsWith(key, StatsPrefix) ==> StatsKey(d) == key
  {
    var d := ReplaceFirst(key, StatsPrefix);
    assert StartsWith(key, StatsPrefix) ==> key == StatsPrefix + key[|StatsPrefix|..];
    d
  }

  /** The entry pushed for a key whose record parsed to `r`, each missing
      or falsy field already read as 0. */
  function EntryOf(key: string, r: Record): Entry {
    Entry(KeyDate(key), r.calories, r.protein, r.miles)
  }

  /** The `data` array after the loop has visited `ks`, or `None` once a
      stored string fails to parse. */
  function Collect(store: Store, ks: seq<string>): Option<seq<Entry>> {
    if ks == [] then Some([])
    else match Collect(store, ks[..|ks| - 1])
      case None => None
      case Some(data) =>
        match Get(store, ks[|ks| - 1])
        case Corrupt => None
        case Absent => Some(data)
        case Found(r) => Some(data + [EntryOf(ks[|ks| - 1], r)])
  }

  // ------------------------------------------------------------------
  // Properties of the collected entries
  // ------------------------------------------------------------------

  lemma {:induction false} CollectStaysNone(store: Store, ks: seq<string>, n: nat)
    requires n <= |ks| && Collect(store, ks[..n]).None?
    ensures Collect(store, ks).None?
    decreases |ks| - n
  {
    if n < |ks| {
      assert ks[..n + 1][..n] == ks[..n];
      CollectStaysNone(store, ks, n + 1);
    } else {
      assert ks[..n] == ks;
    }
  }

  /** The listing fails exactly when some listed key holds a string that
      does not parse. */
  lemma {:induction false} CollectNoneIff(store: Store, ks: seq<string>)
    ensures Collect(store, ks).None? <==> exists k :: k in ks && Get(store, k).Corrupt?
  {
    if ks != [] {
      var init := ks[..|ks| - 1];
      CollectNoneIff(store, init);
      assert ks == init + [ks[|ks| - 1]];
      assert forall k :: k in ks <==> k in init || k == ks[|ks| - 1];
    }
  }

  /** At most one entry per key. */
  lemma {:induction false} CollectLength(store: Store, ks: seq<string>)
    requires Collect(store, ks).Some?
    ensures |Collect(store, ks).value| <= |ks|
  {
    if ks != [] {
      CollectLength(store, ks[..|ks| - 1]);
    }
  }

  /** Every entry stands for one listed key whose record it shows. */
  lemma {:induction false} CollectSound(store: Store, ks: seq<string>)
    requires Collect(store, ks).Some?
    requires forall k :: k in ks ==> StartsWith(k, StatsPrefix)
    ensures forall e :: e in Collect(store, ks).value ==>
              StatsKey(e.date) in ks &&
              Get(store, StatsKey(e.date)) == Found(Record(e.calories, e.protein, e.miles))
  {
    if ks != [] {
      var init := ks[..|ks| - 1];
      var last := ks[|ks| - 1];
      assert forall k :: k in init ==> k in ks;
      CollectSound(store, init);
    }
  }

  /** Every listed key whose record parses has its entry. */
  lemma {:induction false} CollectComplete(store: Store, ks: seq<string>)
    requires Collect(store, ks).Some?
    ensures forall k :: k in ks && Get(store, k).Found? ==>
              EntryOf(k, Get(store, k).rec) in Collect(store, ks).value
  {
    if ks != [] {
      var init := ks[..|ks| - 1];
      CollectComplete(store, init);
      assert ks == init + [ks[|ks| - 1]];
      assert forall k :: k in ks ==> k in init || k == ks[|ks| - 1];
    }
  }

  /** Entries of distinct stats keys have distinct dates. */
  lemma {:induction false} CollectDistinctDates(store: Store, ks: seq<string>)
    requires Collect(store, ks).Some?
    requires NoDuplicates(ks) && forall k :: k in ks ==> StartsWith(k, StatsPrefix)
    ensures DistinctDates(Collect(store, ks).value)
  {
    if ks != [] {
      var init := ks[..|ks| - 1];
      var last := ks[|ks| - 1];
      assert forall k :: k in init ==> k in ks;
      assert NoDuplicates(init);
      CollectDistinctDates(store, init);
      CollectSound(store, init);
      var data := Collect(store, init).value;
      var d := Collect(store, ks).value;
      if Get(store, last).Found? {
        assert d == data + [EntryOf(last, Get(store, last).rec)];
        forall i | 0 <= i < |data|
          ensures data[i].date != KeyDate(last)
        {
          assert data[i] in data;
          var k :| 0 <= k < |init| && init[k] == StatsKey(data[i].date);
          assert init[k] == ks[k];
        }
      }
    }
  }

  // ------------------------------------------------------------------
  // The sort
  // ------------------------------------------------------------------

  /** The order `(a, b) => time(b.date) - time(a.date)` asks for: newest first. */
  predicate SortedDesc(s: seq<Entry>, time: string -> int) {
    forall i, j :: 0 <= i < j < |s| ==> time(s[i].date) >= time(s[j].date)
  }

  lemma SortedTail(s: seq<Entry>, time: string -> int)
    requires s != [] && SortedDesc(s, time)
    ensures SortedDesc(s[1..], time)
    ensures forall x :: x in s[1..] ==> time(x.date) <= time(s[0].date)
  {
  }

  lemma SortedCons(x: Entry, t: seq<Entry>, time: string -> int)
    requires SortedDesc(t, time)
    requires forall y :: y in t ==> time(y.date) <= time(x.date)
    ensures SortedDesc([x] + t, time)
  {
  }

  /** Insert `e` before the first entry that is not newer than it. */
  function Insert(e: Entry, s: seq<Entry>, time: string -> int): (r: seq<Entry>)
    requires SortedDesc(s, time)
    ensures SortedDesc(r, time)
    ensures multiset(r) == multiset(s) + multiset{e}
  {
    if s == [] then [e]
    else if time(e.date) >= time(s[0].date) then
      SortedTail(s, time);
      assert s == [s[0]] + s[1..];
      SortedCons(e, s, time);
      [e] + s
    else
      SortedTail(s, time);
      var rest := Insert(e, s[1..], time);
      assert s == [s[0]] + s[1..];
      assert forall x :: x in rest ==> x in multiset(rest);
      SortedCons(s[0], rest, time);
      [s[0]] + rest
  }

  /** `data.sort(...)`: the engine's sort, stood for by an insertion sort;
      what is stated of it is that it orders newest first and permutes. */
  function SortDesc(s: seq<Entry>, time: string -> int): (r: seq<Entry>)
    ensures SortedDesc(r, time)
    ensures multiset(r) == multiset(s)
  {
    if s == [] then []
    else
      assert s == [s[0]] + s[1..];
      Insert(s[0], SortDesc(s[1..], time), time)
  }

  // ------------------------------------------------------------------
  // The loop
  // ------------------------------------------------------------------

  /** `loadEntries`: collect an entry for every stats key whose stored
      string is truthy, sort them newest first, and show them. When a
      stored string does not parse, the screen keeps what it showed. */
  method LoadEntries(store: Store, keys: seq<string>, time: string -> int, shown: seq<Entry>)
    returns (entries: seq<Entry>)
    requires forall k :: k in keys <==> k in store
    requires NoDuplicates(keys)
    ensures entries == match Collect(store, StatKeys(keys))
                       case None => shown
                       case Some(data) => SortDesc(data, time)
    ensures (exists k :: k in keys && StartsWith(k, StatsPrefix) && Get(store, k).Corrupt?) ==>
              entries == shown
    ensures !(exists k :: k in keys && StartsWith(k, StatsPrefix) && Get(store, k).Corrupt?) ==>
              SortedDesc(entries, time) &&
              |entries| <= |StatKeys(keys)| &&
              DistinctDates(entries) &&
              (forall e :: e in entries ==>
                 StatsKey(e.date) in store &&
                 Get(store, StatsKey(e.date)) == Found(Record(e.calories, e.protein, e.miles))) &&
              (forall k :: k in store && StartsWith(k, StatsPrefix) && Get(store, k).Found? ==>
                 EntryOf(k, Get(store, k).rec) in entries)
  {
    var statKeys := StatKeys(keys);
    var data: seq<Entry> := [];
    for n := 0 to |statKeys|
      invariant Collect(store, statKeys[..n]) == Some(data)
    {
      var key := statKeys[n];
      assert statKeys[..n + 1][..n] == statKeys[..n];
      match Get(store, key) {
        case Corrupt =>
          // JSON.parse throws; the catch only logs
          CollectStaysNone(store, statKeys, n + 1);
          CollectNoneIff(store, statKeys);
          return shown;
        case Absent =>
        case Found(r) =>
          data := data + [Entry(KeyDate(key), r.calories, r.protein, r.miles)];
      }
    }
    assert statKeys[..|statKeys|] == statKeys;
    entries := SortDesc(data, time);
    CollectNoneIff(store, statKeys);
    CollectLength(store, statKeys);
    CollectSound(store, statKeys);
    CollectComplete(store, statKeys);
    CollectDistinctDates(store, statKeys);
    SortDescDistinct(data, time);
    assert forall e :: e in entries <==> e in multiset(data);
    assert |entries| == |multiset(entries)| == |multiset(data)| == |data|;
  }

  predicate DistinctDates(s: seq<Entry>) {
    forall i, j :: 0 <= i < j < |s| ==> s[i].date != s[j].date
  }

  lemma {:induction false} InsertDistinct(e: Entry, s: seq<Entry>, time: string -> int)
    requires SortedDesc(s, time) && DistinctDates(s)
    requires forall x :: x in s ==> x.date != e.date
    ensures DistinctDates(Insert(e, s, time))
  {
    if s != [] && time(e.date) < time(s[0].date) {
      var rest := Insert(e, s[1..], time);
      InsertDistinct(e, s[1..], time);
      forall x | x in rest
        ensures x.date != s[0].date
      {
        assert x in multiset(rest);
        if x != e {
          assert x in s[1..];
          var k :| 0 <= k < |s[1..]| && s[1..][k] == x;
          assert s[k + 1] == x;
        }
      }
      var r := [s[0]] + rest;
      assert r == Insert(e, s, time);
      forall i, j | 0 <= i < j < |r|
        ensures r[i].date != r[j].date
      {
        if i == 0 {
          assert r[j] == rest[j - 1];
          assert rest[j - 1] in rest;
        } else {
          assert r[i] == rest[i - 1] && r[j] == rest[j - 1];
        }
      }
    }
  }

  /** Sorting keeps the dates pairwise distinct. */
  lemma {:induction false} SortDescDistinct(s: seq<Entry>, time: string -> int)
    requires DistinctDates(s)
    ensures DistinctDates(SortDesc(s, time))
  {
    if s != [] {
      var rest := SortDesc(s[1..], time);
      SortDescDistinct(s[1..], time);
      forall x | x in rest
        ensures x.date != s[0].date
      {
        assert x in multiset(rest);
        assert x in s[1..];
        var k :| 0 <= k < |s[1..]| && s[1..][k] == x;
        assert s[k + 1] == x;
      }
      InsertDistinct(s[0], rest, time);
    }
  }

  /** A day saved by the Today screen shows up in the history with the
      Today screen's date and the saved numbers. */
  lemma {:induction false} SavedDayListed(store: Store, today: string, r: Record,
                                          keys: seq<string>, time: string -> int)
    requires forall k :: k in keys <==> k in Today.SaveStore(store, today, r)
    ensures var c := Collect(Today.SaveStore(store, today, r), StatKeys(keys));
            c.Some? ==> Entry(today, r.calories, r.protein, r.miles) in SortDesc(c.value, time)
  {
    var saved := Today.SaveStore(store, today, r);
    var key := StatsKey(today);
    Today.SaveThenGet(store, today, r, key);
    assert StartsWith(key, StatsPrefix) by {
      assert key[..|StatsPrefix|] == StatsPrefix;
    }
    var c := Collect(saved, StatKeys(keys));
    if c.Some? {
      CollectComplete(saved, StatKeys(keys));
      assert KeyDate(key) == today by {
        StatsKeyInjective(KeyDate(key), today);
      }
      var sorted := SortDesc(c.value, time);
      assert EntryOf(key, r) in multiset(sorted);
    }
  }
}
