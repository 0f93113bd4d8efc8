/** The data callback of the dashboard (app.py, `update_filtered_data`): the
    filter the controls apply to the sales table, and the read-through cache
    in front of it. */
module App {
  import opened Calendar
  import opened Sales

  // ---------------------------------------------------------------- filter

  /** The values of the four controls once pandas has read the dates: two
      instants, and a category and a region that may be "all". */
  datatype FilterSpec = FilterSpec(startDate: int, endDate: int, category: string, region: string)

  /** The option value that disables the category or region filter. */
  const All: string := "all"

  /** The greedy reading of "r is s with some elements dropped, order kept". */
  predicate SubsequenceOf(r: seq<Record>, s: seq<Record>)
    decreases |s|
  {
    if r == [] then true
    else if s == [] then false
    else if r[0] == s[0] then SubsequenceOf(r[1..], s[1..])
    else SubsequenceOf(r, s[1..])
  }

  /** `df[mask]`: the rows for which keep holds, in their original order. */
  function Where(s: seq<Record>, keep: Record -> bool): (r: seq<Record>)
    ensures |r| <= |s|
    ensures forall i :: 0 <= i < |r| ==> keep(r[i])
    ensures forall x :: multiset(r)[x] == if keep(x) then multiset(s)[x] else 0
    ensures SubsequenceOf(r, s)
  {
    if s == [] then []
    else
      var rest := Where(s[1..], keep);
      assert s == [s[0]] + s[1..];
      if keep(s[0]) then
        assert ([s[0]] + rest)[1..] == rest;
        [s[0]] + rest
      else
        assert rest == [] || rest[0] != s[0] by {
          if rest != [] {
            assert keep(rest[0]);
          }
        }
        rest
  }

  lemma WhereCons(s: seq<Record>, keep: Record -> bool)
    requires s != []
    ensures Where(s, keep) == if keep(s[0]) then [s[0]] + Where(s[1..], keep) else Where(s[1..], keep)
  {
  }

  lemma {:induction false} WhereSame(s: seq<Record>, p: Record -> bool, q: Record -> bool)
    requires forall x :: p(x) == q(x)
    ensures Where(s, p) == Where(s, q)
  {
    if s != [] {
      WhereSame(s[1..], p, q);
    }
  }

  /** Two masks applied one after the other select what their conjunction selects. */
  lemma {:induction false} WhereWhere(s: seq<Record>, p: Record -> bool, q: Record -> bool, pq: Record -> bool)
    requires forall x :: pq(x) == (p(x) && q(x))
    ensures Where(Where(s, p), q) == Where(s, pq)
  {
    if s != [] {
      WhereWhere(s[1..], p, q, pq);
      WhereCons(s, p);
      WhereCons(s, pq);
      if p(s[0]) {
        var once := Where(s, p);
        assert once[0] == s[0] && once[1..] == Where(s[1..], p);
        WhereCons(once, q);
      }
    }
  }

  predicate InDateRange(r: Record, spec: FilterSpec) {
    spec.startDate <= r.data <= spec.endDate
  }

  predicate CategoryMatches(r: Record, spec: FilterSpec) {
    spec.category == All || r.categoria == spec.category
  }

  predicate RegionMatches(r: Record, spec: FilterSpec) {
    spec.region == All || r.regiao == spec.region
  }

  /** What the three filters together ask of a row. */
  predicate Matches(r: Record, spec: FilterSpec) {
    InDateRange(r, spec) && CategoryMatches(r, spec) && RegionMatches(r, spec)
  }

  /** The masks of the cascade, each as a function of the row. */
  function DateMask(spec: FilterSpec): Record -> bool {
    (r: Record) => InDateRange(r, spec)
  }

  function CategoryMask(spec: FilterSpec): Record -> bool {
    (r: Record) => r.categoria == spec.category
  }

  function RegionMask(spec: FilterSpec): Record -> bool {
    (r: Record) => r.regiao == spec.region
  }

  function MatchMask(spec: FilterSpec): Record -> bool {
    (r: Record) => Matches(r, spec)
  }

  /** The cascade of `update_filtered_data`: the date window first, then the category and the region
      unless they are "all". */
  function FilteredView(df: seq<Record>, spec: FilterSpec): (view: seq<Record>)
    ensures forall i :: 0 <= i < |view| ==> Matches(view[i], spec)
    ensures forall x :: multiset(view)[x] == if Matches(x, spec) then multiset(df)[x] else 0
  {
    var byDate := Where(df, DateMask(spec));
    var byCategory := if spec.category != All then Where(byDate, CategoryMask(spec)) else byDate;
    if spec.region != All then Where(byCategory, RegionMask(spec)) else byCategory
  }

  /** The cascade is a single pass of the combined mask. */
  lemma FilteredViewOnePass(df: seq<Record>, spec: FilterSpec)
    ensures FilteredView(df, spec) == Where(df, MatchMask(spec))
  {
    var upToCategory := (r: Record) => InDateRange(r, spec) && CategoryMatches(r, spec);
    var byDate := Where(df, DateMask(spec));
    var byCategory := if spec.category != All then Where(byDate, CategoryMask(spec)) else byDate;
    if spec.category != All {
      WhereWhere(df, DateMask(spec), CategoryMask(spec), upToCategory);
    } else {
      WhereSame(df, DateMask(spec), upToCategory);
    }
    if spec.region != All {
      WhereWhere(df, upToCategory, RegionMask(spec), MatchMask(spec));
    } else {
      WhereSame(df, upToCategory, MatchMask(spec));
    }
  }

  /** The filtered table keeps the table's order: it is the table with the other rows dropped. */
  lemma FilteredViewKeepsOrder(df: seq<Record>, spec: FilterSpec)
    ensures SubsequenceOf(FilteredView(df, spec), df)
  {
    FilteredViewOnePass(df, spec);
  }

  /** With every control at its widest (the whole date range, "all", "all"), nothing is dropped. */
  lemma FilteredViewEverything(df: seq<Record>, spec: FilterSpec)
    requires spec.category == All && spec.region == All
    requires forall i :: 0 <= i < |df| ==> spec.startDate <= df[i].data <= spec.endDate
    ensures FilteredView(df, spec) == df
  {
    FilteredViewOnePass(df, spec);
    WhereKeepsAll(df, MatchMask(spec));
  }

  lemma {:induction false} WhereKeepsAll(s: seq<Record>, keep: Record -> bool)
    requires forall i :: 0 <= i < |s| ==> keep(s[i])
    ensures Where(s, keep) == s
  {
    if s != [] {
      WhereKeepsAll(s[1..], keep);
    }
  }

  // -------------------------------------------------- the date pickers

  /** The DatePickerRange sends two calendar days; `pd.to_datetime` turns each into its midnight. */
  function PickerFilter(startDay: Date, endDay: Date, category: string, region: string): (spec: FilterSpec)
    requires ValidDate(startDay) && ValidDate(endDay)
    ensures DateOf(spec.startDate) == startDay && spec.startDate % SecondsPerDay == 0
    ensures DateOf(spec.endDate) == endDay && spec.endDate % SecondsPerDay == 0
    ensures spec.category == category && spec.region == region
  {
    DateOfIff(Midnight(startDay), startDay);
    DateOfIff(Midnight(endDay), endDay);
    FilterSpec(Midnight(startDay), Midnight(endDay), category, region)
  }

  /** Which sale instants the picked days let through: every instant from the start day up to the end
      of the day before the end day, plus the end day's midnight itself; sales later on the end day fall
      outside. */
  lemma PickerDateWindow(startDay: Date, endDay: Date, category: string, region: string, r: Record)
    requires ValidDate(startDay) && ValidDate(endDay)
    ensures InDateRange(r, PickerFilter(startDay, endDay, category, region)) <==>
      || DaysFromCivil(startDay) <= DaysFromCivil(DateOf(r.data)) < DaysFromCivil(endDay)
      || (r.data == Midnight(endDay) && DaysFromCivil(startDay) <= DaysFromCivil(endDay))
  {
    var n := r.data / SecondsPerDay;
    DaysToCivilToDays(n);
    assert DaysFromCivil(DateOf(r.data)) == n;
    assert n * SecondsPerDay <= r.data < n * SecondsPerDay + SecondsPerDay;
  }

  // ----------------------------------------------------------- the cache

  /** The dashboard's loaded table and its cache of filtered tables. `cacheEnabled` is false when no
      Redis server could be reached: lookups then always miss and stores do nothing. */
  class Dashboard {
    const df: seq<Record>
    const cacheEnabled: bool
    var cache: map<FilterSpec, seq<Record>>

    /** Every cached table is the filtered table its key asks for, and nothing is cached without a server.
        This holds because the store is taken to start empty and to be written only by this dashboard. */
    ghost predicate Valid()
      reads this
    {
      && (forall spec :: spec in cache ==> cache[spec] == FilteredView(df, spec))
      && (!cacheEnabled ==> cache == map[])
    }

    constructor(df: seq<Record>, cacheEnabled: bool)
      ensures Valid()
      ensures this.df == df && this.cacheEnabled == cacheEnabled && cache == map[]
    {
      this.df := df;
      this.cacheEnabled := cacheEnabled;
      cache := map[];
    }

    /** `update_filtered_data`: a hit returns the stored table untouched; a miss computes the
        filtered table and, when the server is there, stores it under the filters. */
    method UpdateFilteredData(spec: FilterSpec) returns (view: seq<Record>)
      requires Valid()
      modifies this
      ensures Valid()
      ensures view == FilteredView(df, spec)
      ensures old(spec in cache) ==> cache == old(cache)
      ensures !old(spec in cache) && cacheEnabled ==> cache == old(cache)[spec := view]
      ensures !cacheEnabled ==> cache == old(cache)
    {
      if spec in cache {
        view := cache[spec];
        return;
      }
      view := FilteredView(df, spec);
      if cacheEnabled {
        cache := cache[spec := view];
      }
    }

    /** An entry's time to live running out (3600 s in `set_to_cache`): the server forgets it. */
    method Expire(spec: FilterSpec)
      requires Valid()
      modifies this
      ensures Valid()
      ensures cache == old(cache) - {spec}
    {
      cache := cache - {spec};
    }
  }

  /** Asking twice for the same filters gives the same table, and with a server the second answer
      comes from the cache. */
  method AskTwice(d: Dashboard, spec: FilterSpec) returns (first: seq<Record>, second: seq<Record>)
    requires d.Valid()
    modifies d
    ensures d.Valid()
    ensures first == second == FilteredView(d.df, spec)
    ensures d.cacheEnabled ==> d.cache == old(d.cache)[spec := first]
    ensures !d.cacheEnabled ==> d.cache == old(d.cache)
  {
    first := d.UpdateFilteredData(spec);
    ghost var afterFirst := d.cache;
    second := d.UpdateFilteredData(spec);
    assert d.cacheEnabled ==> d.cache == afterFirst;
  }
}
