/**
 * The reminder index: a nested map year -> month (0-11) -> day -> time
 * ("HH:MM") -> reminder, the lazy creation of a day's map, and the
 * prefix lookup built on it.
 */
module ReminderUtils {
  import opened Wrappers
  import opened LocationPicker

  type Time = string

  /** What a slot holds: the message and the chosen location. */
  datatype Reminder = Reminder(text: string, location: Location)

  /** time -> reminder */
  type DayMap = map<Time, Reminder>
  /** day -> day map */
  type MonthMap = map<int, DayMap>
  /** month -> month map */
  type YearMap = map<int, MonthMap>
  /** year -> year map: the whole index */
  type Index = map<int, YearMap>

  /** `map.get(k)` */
  function Get<K, V>(m: map<K, V>, k: K): (r: Option<V>)
    ensures r.Some? <==> k in m
    ensures r.Some? ==> r.value == m[k]
  {
    if k in m then Some(m[k]) else None
  }

  /** The maps along a key path, an absent level read as empty. */
  function YearOf(m: Index, y: int): YearMap {
    if y in m then m[y] else map[]
  }

  function MonthOf(m: Index, y: int, mo: int): MonthMap {
    var ym := YearOf(m, y);
    if mo in ym then ym[mo] else map[]
  }

  function DayOf(m: Index, y: int, mo: int, d: int): DayMap {
    var mm := MonthOf(m, y, mo);
    if d in mm then mm[d] else map[]
  }

  /** The reminder stored under a full key, if any: the index's flat view. */
  function Slot(m: Index, y: int, mo: int, d: int, t: Time): Option<Reminder> {
    Get(DayOf(m, y, mo, d), t)
  }

  /** All three levels of the path to a day's map exist. */
  predicate HasDay(m: Index, y: int, mo: int, d: int) {
    y in m && mo in m[y] && d in m[y][mo]
  }

  /** Every entry of `m`, at every level, is still in `r` and a day map unchanged. */
  predicate Extends(m: Index, r: Index) {
    forall y :: y in m ==> (y in r &&
      forall mo :: mo in m[y] ==> (mo in r[y] &&
        forall d :: d in m[y][mo] ==> d in r[y][mo] && r[y][mo][d] == m[y][mo][d]))
  }

  /**
   * The effect of `getOrCreateDayMap` on the index: each missing level on
   * the path is created as an empty map, and every map off the path is
   * left as it was.
   */
  function Materialise(m: Index, y: int, mo: int, d: int): (r: Index)
    ensures HasDay(r, y, mo, d)
    ensures r[y][mo][d] == DayOf(m, y, mo, d)
    ensures Extends(m, r)
    ensures r.Keys == m.Keys + {y}
    ensures r[y].Keys == YearOf(m, y).Keys + {mo}
    ensures r[y][mo].Keys == MonthOf(m, y, mo).Keys + {d}
    ensures forall y' :: y' in m && y' != y ==> r[y'] == m[y']
    ensures forall mo' :: mo' in YearOf(m, y) && mo' != mo ==> r[y][mo'] == m[y][mo']
  {
    var m1 := if y in m then m else m[y := map[]];
    var yearMap := m1[y];
    var yearMap1 := if mo in yearMap then yearMap else yearMap[mo := map[]];
    var monthMap := yearMap1[mo];
    var monthMap1 := if d in monthMap then monthMap else monthMap[d := map[]];
    m1[y := yearMap1[mo := monthMap1]]
  }

  /** Materialising never changes what any full key holds. */
  lemma MaterialiseKeepsSlots(m: Index, y: int, mo: int, d: int)
    ensures forall y', mo', d', t :: Slot(Materialise(m, y, mo, d), y', mo', d', t) == Slot(m, y', mo', d', t)
  {
    var r := Materialise(m, y, mo, d);
    forall y', mo', d', t ensures Slot(r, y', mo', d', t) == Slot(m, y', mo', d', t) {
      if HasDay(m, y', mo', d') {
        assert DayOf(r, y', mo', d') == DayOf(m, y', mo', d');
      } else if (y', mo', d') == (y, mo, d) {
        assert DayOf(r, y', mo', d') == map[];
      } else {
        assert DayOf(r, y', mo', d') == map[];
      }
    }
  }

  /** On a path that already exists, materialising changes nothing. */
  lemma MaterialisePresent(m: Index, y: int, mo: int, d: int)
    requires HasDay(m, y, mo, d)
    ensures Materialise(m, y, mo, d) == m
  {
    assert m[y][mo][d := m[y][mo][d]] == m[y][mo];
    assert m[y][mo := m[y][mo]] == m[y];
    assert m[y := m[y]] == m;
  }

  /** A second `getOrCreateDayMap` with the same key changes nothing. */
  lemma MaterialiseIdempotent(m: Index, y: int, mo: int, d: int)
    ensures Materialise(Materialise(m, y, mo, d), y, mo, d) == Materialise(m, y, mo, d)
  {
    MaterialisePresent(Materialise(m, y, mo, d), y, mo, d);
  }

  /** `dayMap.set(t, r)` on the live day map of an existing path. */
  function PutTime(m: Index, y: int, mo: int, d: int, t: Time, rem: Reminder): (r: Index)
    requires HasDay(m, y, mo, d)
    ensures forall y', mo', d' :: HasDay(r, y', mo', d') <==> HasDay(m, y', mo', d')
    ensures forall y', mo', d', t' ::
      Slot(r, y', mo', d', t') == if (y', mo', d', t') == (y, mo, d, t) then Some(rem) else Slot(m, y', mo', d', t')
  {
    m[y := m[y][mo := m[y][mo][d := m[y][mo][d][t := rem]]]]
  }

  /** `dayMap.delete(t)` on the live day map of an existing path; absent keys are ignored. */
  function RemoveTime(m: Index, y: int, mo: int, d: int, t: Time): (r: Index)
    requires HasDay(m, y, mo, d)
    ensures forall y', mo', d' :: HasDay(r, y', mo', d') <==> HasDay(m, y', mo', d')
    ensures forall y', mo', d', t' ::
      Slot(r, y', mo', d', t') == if (y', mo', d', t') == (y, mo, d, t) then None else Slot(m, y', mo', d', t')
  {
    m[y := m[y][mo := m[y][mo][d := m[y][mo][d] - {t}]]]
  }

  /** The value a call of the fetch function returns. */
  datatype FetchResult =
    | Found(reminder: Reminder)   // full key, reminder present
    | NotFound                    // full key, nothing there: `undefined`
    | Times(dayMap: DayMap)       // year, month and day given
    | Days(monthMap: MonthMap)    // year and month given
    | Months(yearMap: YearMap)    // year given
    | Years(index: Index)         // nothing given

  /**
   * `makeReminderFetchFn(m)(year, month, day, time)`: each argument is
   * supplied when it is not `undefined` (so month 0 counts), and the
   * optional-chained `get`s fall back to an empty map, or to `undefined`
   * for the full key.
   */
  function Fetch(m: Index, year: Option<int>, month: Option<int>, day: Option<int>, time: Option<Time>): FetchResult {
    var hasYear, hasMonth, hasDay, hasTime := year.Some?, month.Some?, day.Some?, time.Some?;
    if hasYear && hasMonth && hasDay && hasTime then
      var yearMap := Get(m, year.value);
      var monthMap := if yearMap.Some? then Get(yearMap.value, month.value) else None;
      var dayMap := if monthMap.Some? then Get(monthMap.value, day.value) else None;
      var reminder := if dayMap.Some? then Get(dayMap.value, time.value) else None;
      if reminder.Some? then Found(reminder.value) else NotFound
    else if hasYear && hasMonth && hasDay then
      var yearMap := Get(m, year.value);
      var monthMap := if yearMap.Some? then Get(yearMap.value, month.value) else None;
      var dayMap := if monthMap.Some? then Get(monthMap.value, day.value) else None;
      Times(dayMap.GetOr(map[]))
    else if hasYear && hasMonth then
      var yearMap := Get(m, year.value);
      var monthMap := if yearMap.Some? then Get(yearMap.value, month.value) else None;
      Days(monthMap.GetOr(map[]))
    else if hasYear then
      Months(Get(m, year.value).GetOr(map[]))
    else
      Years(m)
  }

  /** The full-key fetch is the index's flat view: the stored reminder, or `undefined`. */
  lemma FetchFullKey(m: Index, y: int, mo: int, d: int, t: Time)
    ensures Fetch(m, Some(y), Some(mo), Some(d), Some(t)) ==
      if Slot(m, y, mo, d, t).Some? then Found(Slot(m, y, mo, d, t).value) else NotFound
  {
  }

  /**
   * Shorter prefixes return the day, month or year map with absent levels
   * read as empty, and no argument returns the whole index; only the full
   * key can give `undefined`.
   */
  lemma FetchPrefixes(m: Index, y: int, mo: int, d: int, t: Option<Time>)
    ensures t.None? ==> Fetch(m, Some(y), Some(mo), Some(d), t) == Times(DayOf(m, y, mo, d))
    ensures Fetch(m, Some(y), Some(mo), None, t) == Days(MonthOf(m, y, mo))
    ensures Fetch(m, Some(y), None, Some(d), t) == Months(YearOf(m, y))
    ensures Fetch(m, Some(y), None, None, t) == Months(YearOf(m, y))
    ensures Fetch(m, None, None, None, None) == Years(m)
    ensures Fetch(m, None, Some(mo), Some(d), t) == Years(m)
  {
  }

  /** `undefined` comes back only when all four arguments are supplied. */
  lemma FetchUndefinedOnlyForFullKey(m: Index, year: Option<int>, month: Option<int>, day: Option<int>, time: Option<Time>)
    ensures Fetch(m, year, month, day, time).NotFound? ==>
      year.Some? && month.Some? && day.Some? && time.Some? &&
      Slot(m, year.value, month.value, day.value, time.value).None?
  {
  }

  /** On an empty index every lookup finds nothing: `undefined` or an empty map. */
  lemma FetchEmptyIndex(year: Option<int>, month: Option<int>, day: Option<int>, time: Option<Time>)
    ensures var r := Fetch(map[], year, month, day, time);
      r == NotFound || r == Times(map[]) || r == Days(map[]) || r == Months(map[]) || r == Years(map[])
  {
  }

  /**
   * The root `Map` of the index. Its field is the index's current value;
   * the methods are the source's in-place operations on it.
   */
  class RemindersMap {
    var years: Index

    constructor ()
      ensures years == map[]
    {
      years := map[];
    }

    /**
     * `getOrCreateDayMap`: creates the missing levels of the path and
     * returns the day map found there, the existing one or a new empty one.
     */
    method GetOrCreateDayMap(y: int, mo: int, d: int) returns (dayMap: DayMap)
      modifies this
      ensures years == Materialise(old(years), y, mo, d)
      ensures HasDay(years, y, mo, d) && dayMap == years[y][mo][d]
      ensures dayMap == DayOf(old(years), y, mo, d)
    {
      if y !in years {
        years := years[y := map[]];
      }
      var yearMap := years[y];
      if mo !in yearMap {
        yearMap := yearMap[mo := map[]];
        years := years[y := yearMap];
      }
      var monthMap := yearMap[mo];
      if d !in monthMap {
        monthMap := monthMap[d := map[]];
        yearMap := yearMap[mo := monthMap];
        years := years[y := yearMap];
      }
      dayMap := monthMap[d];
      assert years == Materialise(old(years), y, mo, d) by {
        if HasDay(old(years), y, mo, d) {
          MaterialisePresent(old(years), y, mo, d);
        }
      }
    }

    /** `dayMap.set(t, rem)` through the day map returned for an existing path. */
    method SetInDay(y: int, mo: int, d: int, t: Time, rem: Reminder)
      requires HasDay(years, y, mo, d)
      modifies this
      ensures years == PutTime(old(years), y, mo, d, t, rem)
    {
      var dayMap := years[y][mo][d];
      years := years[y := years[y][mo := years[y][mo][d := dayMap[t := rem]]]];
    }

    /** `dayMap.delete(t)` through the day map returned for an existing path. */
    method DeleteInDay(y: int, mo: int, d: int, t: Time)
      requires HasDay(years, y, mo, d)
      modifies this
      ensures years == RemoveTime(old(years), y, mo, d, t)
    {
      var dayMap := years[y][mo][d];
      years := years[y := years[y][mo := years[y][mo][d := dayMap - {t}]]];
    }
  }
}
