/** The string-keyed key-value store the three screens share, and the
    daily stats record kept in it under `stats-<date>` keys. The storage
    engine is a `map`; each asynchronous get/set/remove is one step on it. */
module Store {

  datatype Option<T> = None | Some(value: T)

  /** One metric field of a parsed stats object: `Some(x)` for a number `x`,
      `None` for a field that is missing, `null` or `NaN`. */
  type Field = Option<real>

  /** What `JSON.parse` makes of a stored stats object. */
  datatype Doc = Doc(calories: Field, protein: Field, miles: Field)

  /** A stored string. `Json(d)` is the serialization of a stats object;
      `Text(s)` is any other string, taken to be one that `JSON.parse`
      rejects (the `last-date` marker, or a corrupt record). */
  datatype Value = Json(doc: Doc) | Text(text: string)

  type Store = map<string, Value>

  /** The three metrics of one day, as the screens hold them in memory. */
  datatype Record = Record(calories: real, protein: real, miles: real)

  const Zero := Record(0.0, 0.0, 0.0)

  const StatsPrefix := "stats-"
  const LastDateKey := "last-date"

  /** The key under which the record of `date` is stored. */
  function StatsKey(date: string): (k: string)
    ensures StartsWith(k, StatsPrefix)
    ensures |k| == |StatsPrefix| + |date| && k[|StatsPrefix|..] == date
    ensures k != LastDateKey
  {
    var k := StatsPrefix + date;
    assert k[..|StatsPrefix|] == StatsPrefix;
    assert k[0] != LastDateKey[0];
    k
  }

  /** `s.startsWith(p)` */
  predicate StartsWith(s: string, p: string) {
    |p| <= |s| && s[..|p|] == p
  }

  lemma StatsKeyInjective(a: string, b: string)
    requires StatsKey(a) == StatsKey(b)
    ensures a == b
  {
  }

  /** JavaScript truthiness of the string `getItem` resolves to. A
      serialized object is never the empty string. */
  predicate Truthy(v: Value) {
    v.Json? || v.text != ""
  }

  /** `field || 0` */
  function OrZero(f: Field): real {
    match f
    case Some(x) => x
    case None => 0.0
  }

  /** The record a parsed stats object stands for, each missing or falsy
      field read as 0. */
  function ReadDoc(d: Doc): Record {
    Record(OrZero(d.calories), OrZero(d.protein), OrZero(d.miles))
  }

  /** `JSON.stringify({ calories, protein, miles })` */
  function Encode(r: Record): (v: Value)
    ensures v.Json? && Truthy(v) && ReadDoc(v.doc) == r
  {
    Json(Doc(Some(r.calories), Some(r.protein), Some(r.miles)))
  }

  /** The outcome of `getItem(key)` followed, when the string is truthy,
      by `JSON.parse` and the `|| 0` defaults. */
  datatype Read = Absent | Corrupt | Found(rec: Record)

  function Get(store: Store, key: string): (r: Read)
    ensures r.Absent? <==> key !in store || !Truthy(store[key])
    ensures r.Corrupt? <==> key in store && store[key].Text? && store[key].text != ""
    ensures r.Found? <==> key in store && store[key].Json?
    ensures r.Found? ==> r.rec == ReadDoc(store[key].doc)
  {
    if key !in store || !Truthy(store[key]) then Absent
    else match store[key]
      case Json(d) => Found(ReadDoc(d))
      case Text(_) => Corrupt
  }

  predicate NonNegative(r: Record) {
    r.calories >= 0.0 && r.protein >= 0.0 && r.miles >= 0.0
  }

  /** Every stats record in the store that parses has non-negative metrics,
      as every record the Today screen saves does. */
  ghost predicate StatsNonNegative(store: Store) {
    forall k :: Get(store, k).Found? ==> NonNegative(Get(store, k).rec)
  }
}
