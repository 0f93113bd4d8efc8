/** The aggregation engine of the dashboard (utils/analytics.py): every
    function takes the filtered table and computes one derived view. */
module Analytics {
  import opened Wrappers
  import Calendar
  import opened Periods
  import opened Sales
  import opened Orders
  import opened GroupBy
  import opened Ranking

  /** How many products the top-products view keeps. */
  const TopN: nat := 10
  /** How many days after the last observed day the forecast covers. */
  const Horizon: nat := 30

  // ---------------------------------------------------------------- KPIs

  datatype Kpis = Kpis(receitaTotal: real, totalVendas: nat, ticketMedio: real)

  /** `calculate_kpis`: total revenue, units sold, and revenue per unit (0 when nothing was sold). */
  function CalculateKpis(dff: seq<Record>): (k: Kpis)
    ensures k.receitaTotal == TotalReceita(dff)
    ensures k.totalVendas == TotalQuantidade(dff)
    ensures k.totalVendas > 0 ==> k.ticketMedio * (k.totalVendas as real) == k.receitaTotal
    ensures k.totalVendas == 0 ==> k.ticketMedio == 0.0
  {
    var receita := TotalReceita(dff);
    var vendas := TotalQuantidade(dff);
    Kpis(receita, vendas, if vendas > 0 then receita / (vendas as real) else 0.0)
  }

  lemma KpisOfEmpty()
    ensures CalculateKpis([]) == Kpis(0.0, 0, 0.0)
  {
  }

  /** With every sale of at least one unit, a non-empty table has a defined average ticket. */
  lemma KpisTicketDefined(dff: seq<Record>)
    requires dff != []
    requires forall i :: 0 <= i < |dff| ==> dff[i].quantidade >= 1
    ensures CalculateKpis(dff).totalVendas > 0
    ensures CalculateKpis(dff).ticketMedio == TotalReceita(dff) / (TotalQuantidade(dff) as real)
  {
    PositiveQuantities(dff);
  }

  // ---------------------------------------------------- grouping keys

  function MonthKey(r: Record): string {
    PeriodLabel(r.data)
  }

  function CategoryOf(r: Record): string {
    r.categoria
  }

  function RegionOf(r: Record): string {
    r.regiao
  }

  function ProductOf(r: Record): string {
    r.produto
  }

  function RegionAndCategory(r: Record): (string, string) {
    (r.regiao, r.categoria)
  }

  /** A grouped table of string keys as groupby returns it. */
  ghost predicate GroupedBy(rows: seq<Row<string>>, dff: seq<Record>, key: Record -> string) {
    && StrictlyAscending(rows, StrLess)
    && KeysOf(rows) == KeySet(dff, key)
    && |rows| == |KeySet(dff, key)|
    && (forall i :: 0 <= i < |rows| ==> rows[i].1 == SumWhere(dff, key, rows[i].0))
    && RowsTotal(rows) == TotalReceita(dff)
  }

  function GroupByString(dff: seq<Record>, key: Record -> string): (rows: seq<Row<string>>)
    ensures GroupedBy(rows, dff, key)
  {
    StrLessIsStrictTotalOrder();
    GroupSumRows(dff, key, StrLess);
    GroupSum(dff, key, StrLess)
  }

  // ------------------------------------------------ group-and-sum views

  /** `get_sales_evolution`: revenue per "YYYY-MM" month of the sale instant, months in ascending text order. */
  function GetSalesEvolution(dff: seq<Record>): (rows: seq<Row<string>>)
    ensures GroupedBy(rows, dff, MonthKey)
  {
    GroupByString(dff, MonthKey)
  }

  /** Within four-digit years, the evolution rows run in chronological order of their months. */
  lemma EvolutionChronological(dff: seq<Record>, i: nat, j: nat)
    requires forall t :: 0 <= t < |dff| ==> 0 <= YearOf(dff[t].data) <= 9999
    requires i < j < |GetSalesEvolution(dff)|
    ensures var a := ParseMonthLabel(GetSalesEvolution(dff)[i].0);
      var b := ParseMonthLabel(GetSalesEvolution(dff)[j].0);
      a.Some? && b.Some? && (a.value.0 < b.value.0 || (a.value.0 == b.value.0 && a.value.1 < b.value.1))
  {
    var rows := GetSalesEvolution(dff);
    KeysOfMember(rows, i);
    KeysOfMember(rows, j);
    var p := KeySetHasIndex(dff, MonthKey, rows[i].0);
    var q := KeySetHasIndex(dff, MonthKey, rows[j].0);
    assert StrLess(rows[i].0, rows[j].0);
    PeriodLabelOrder(dff[p].data, dff[q].data);
  }

  /** `get_sales_by_category`: revenue per category, categories in ascending order. */
  function GetSalesByCategory(dff: seq<Record>): (rows: seq<Row<string>>)
    ensures GroupedBy(rows, dff, CategoryOf)
    ensures dff == [] ==> rows == []
  {
    GroupByString(dff, CategoryOf)
  }

  // ------------------------------------------------------ top products

  /** `get_top_products`: the TopN products of largest summed revenue, smallest first. */
  function GetTopProducts(dff: seq<Record>): (top: seq<Row<string>>)
    ensures |top| == Min(TopN, |KeySet(dff, ProductOf)|)
    ensures SortedBy(top, false)
    ensures forall i :: 0 <= i < |top| ==>
      top[i].0 in KeySet(dff, ProductOf) && top[i].1 == SumWhere(dff, ProductOf, top[i].0)
    ensures |KeySet(dff, ProductOf)| <= TopN ==> KeysOf(top) == KeySet(dff, ProductOf)
    ensures DistinctKeys(top)
  {
    var byProduct := GroupByString(dff, ProductOf);
    var top := LargestAscending(byProduct, TopN);
    TopRowsAreProducts(dff, byProduct, top);
    top
  }

  lemma TopRowsAreProducts(dff: seq<Record>, byProduct: seq<Row<string>>, top: seq<Row<string>>)
    requires GroupedBy(byProduct, dff, ProductOf)
    requires multiset(top) <= multiset(byProduct)
    requires |byProduct| <= TopN ==> multiset(top) == multiset(byProduct)
    ensures forall i :: 0 <= i < |top| ==>
      top[i].0 in KeySet(dff, ProductOf) && top[i].1 == SumWhere(dff, ProductOf, top[i].0)
    ensures |byProduct| <= TopN ==> KeysOf(top) == KeySet(dff, ProductOf)
    ensures DistinctKeys(top)
  {
    StrLessIsStrictTotalOrder();
    assert DistinctKeys(byProduct);
    SubRowsDistinct(top, byProduct);
    forall i | 0 <= i < |top|
      ensures top[i].0 in KeySet(dff, ProductOf) && top[i].1 == SumWhere(dff, ProductOf, top[i].0)
    {
      assert top[i] in multiset(byProduct);
      var j :| 0 <= j < |byProduct| && byProduct[j] == top[i];
      KeysOfMember(byProduct, j);
    }
    if |byProduct| <= TopN {
      KeysOfSameRows(top, byProduct);
      KeysOfSameRows(byProduct, top);
    }
  }

  /** A product that is not in the top table earned no more than any product that is. */
  lemma TopProductsAreLargest(dff: seq<Record>, i: nat, p: string)
    requires i < |GetTopProducts(dff)|
    requires p in KeySet(dff, ProductOf) && p !in KeysOf(GetTopProducts(dff))
    ensures SumWhere(dff, ProductOf, p) <= GetTopProducts(dff)[i].1
  {
    var byProduct := GroupByString(dff, ProductOf);
    var top := GetTopProducts(dff);
    assert top == LargestAscending(byProduct, TopN);
    var j := KeysOfHasIndex(byProduct, p);
    KeyNotShown(top, byProduct[j]);
    LargestAscendingSelects(byProduct, TopN, i, j);
  }

  lemma KeyNotShown<K>(rows: seq<Row<K>>, row: Row<K>)
    requires row.0 !in KeysOf(rows)
    ensures row !in multiset(rows)
  {
    forall t | 0 <= t < |rows| ensures rows[t] != row {
      KeysOfMember(rows, t);
    }
  }

  // ---------------------------------------------------- region heatmap

  /** `pivot_table(index='regiao', columns='categoria', values='receita', aggfunc='sum').fillna(0)`. */
  datatype Heatmap = Heatmap(regions: seq<string>, categories: seq<string>, cells: seq<seq<real>>)

  predicate Ascending(xs: seq<string>) {
    forall i, j :: 0 <= i < j < |xs| ==> StrLess(xs[i], xs[j])
  }

  function KeyColumn<K>(rows: seq<Row<K>>): (ks: seq<K>)
    ensures |ks| == |rows| && forall i :: 0 <= i < |rows| ==> ks[i] == rows[i].0
  {
    seq(|rows|, i requires 0 <= i < |rows| => rows[i].0)
  }

  /** The distinct values of a column in ascending order. */
  function SortedDistinct(dff: seq<Record>, key: Record -> string): (ks: seq<string>)
    ensures Ascending(ks)
    ensures forall x :: x in ks <==> x in KeySet(dff, key)
  {
    var rows := GroupByString(dff, key);
    forall x ensures x in KeyColumn(rows) <==> x in KeySet(dff, key) {
      KeysOfRows(rows, x);
    }
    KeyColumn(rows)
  }

  /** `pivot_table(..., aggfunc='sum')` before the fill: the revenue of each (region, category) pair
      that occurs in the table, ordered by region and then by category. */
  function PairSums(dff: seq<Record>): (sums: seq<Row<(string, string)>>)
    ensures StrictlyAscending(sums, PairLess)
    ensures KeysOf(sums) == KeySet(dff, RegionAndCategory)
    ensures forall k :: Lookup(sums, k) == SumWhere(dff, RegionAndCategory, k)
  {
    PairLessIsStrictTotalOrder();
    GroupSum(dff, RegionAndCategory, PairLess)
  }

  /** One row of the filled pivot: a region's sum in each category, 0 where the pair never occurs
      (`fillna(0)`; `Lookup` answers 0 for an absent key). */
  function PivotRow(sums: seq<Row<(string, string)>>, region: string, categories: seq<string>): (row: seq<real>)
    ensures |row| == |categories|
  {
    seq(|categories|, j requires 0 <= j < |categories| => Lookup(sums, (region, categories[j])))
  }

  /** The filled pivot: one row per region, one column per category. */
  function PivotCells(sums: seq<Row<(string, string)>>, regions: seq<string>, categories: seq<string>): (cells: seq<seq<real>>)
    ensures |cells| == |regions|
    ensures forall i :: 0 <= i < |regions| ==> |cells[i]| == |categories|
  {
    seq(|regions|, i requires 0 <= i < |regions| => PivotRow(sums, regions[i], categories))
  }

  /** The reference for a heatmap row: what a region earned in each category, summed straight from
      the records. */
  function RegionRevenues(dff: seq<Record>, region: string, categories: seq<string>): (row: seq<real>)
    ensures |row| == |categories|
  {
    seq(|categories|, j requires 0 <= j < |categories| => SumWhere(dff, RegionAndCategory, (region, categories[j])))
  }

  /** The filled pivot of the pair sums holds, row by row, the revenue of each region in each category. */
  lemma PivotCellsAreRevenues(dff: seq<Record>, regions: seq<string>, categories: seq<string>)
    ensures forall i :: 0 <= i < |regions| ==>
      PivotCells(PairSums(dff), regions, categories)[i] == RegionRevenues(dff, regions[i], categories)
  {
    var sums := PairSums(dff);
    forall i | 0 <= i < |regions|
      ensures PivotCells(sums, regions, categories)[i] == RegionRevenues(dff, regions[i], categories)
    {
      var row := PivotCells(sums, regions, categories)[i];
      assert row == PivotRow(sums, regions[i], categories);
      forall j | 0 <= j < |categories| ensures row[j] == RegionRevenues(dff, regions[i], categories)[j] {
        assert row[j] == Lookup(sums, (regions[i], categories[j]));
      }
    }
  }

  function GetRegionHeatmapData(dff: seq<Record>): (h: Heatmap)
    ensures Ascending(h.regions) && forall x :: x in h.regions <==> x in KeySet(dff, RegionOf)
    ensures Ascending(h.categories) && forall x :: x in h.categories <==> x in KeySet(dff, CategoryOf)
    ensures |h.cells| == |h.regions|
    ensures forall i :: 0 <= i < |h.regions| ==> h.cells[i] == RegionRevenues(dff, h.regions[i], h.categories)
  {
    var regions := SortedDistinct(dff, RegionOf);
    var categories := SortedDistinct(dff, CategoryOf);
    PivotCellsAreRevenues(dff, regions, categories);
    Heatmap(regions, categories, PivotCells(PairSums(dff), regions, categories))
  }

  /** A region and category that never sold together show 0, not a missing cell. */
  lemma HeatmapZeroFill(dff: seq<Record>, i: nat, j: nat)
    requires i < |GetRegionHeatmapData(dff).regions| && j < |GetRegionHeatmapData(dff).categories|
    requires forall t :: 0 <= t < |dff| ==>
      dff[t].regiao != GetRegionHeatmapData(dff).regions[i] || dff[t].categoria != GetRegionHeatmapData(dff).categories[j]
    ensures GetRegionHeatmapData(dff).cells[i][j] == 0.0
  {
    var h := GetRegionHeatmapData(dff);
    var pair := (h.regions[i], h.categories[j]);
    assert h.cells[i][j] == RegionRevenues(dff, h.regions[i], h.categories)[j];
    KeySetIndex(dff, RegionAndCategory, pair);
    SumWhereAbsent(dff, RegionAndCategory, pair);
  }

  function SumSeq(xs: seq<real>): real {
    if xs == [] then 0.0 else xs[0] + SumSeq(xs[1..])
  }

  lemma {:induction false} SumSeqZeros(xs: seq<real>)
    requires forall j :: 0 <= j < |xs| ==> xs[j] == 0.0
    ensures SumSeq(xs) == 0.0
  {
    if xs != [] {
      SumSeqZeros(xs[1..]);
    }
  }

  lemma {:induction false} SumSeqOneNonZero(xs: seq<real>, k: nat)
    requires k < |xs|
    requires forall j :: 0 <= j < |xs| && j != k ==> xs[j] == 0.0
    ensures SumSeq(xs) == xs[k]
  {
    if k == 0 {
      SumSeqZeros(xs[1..]);
    } else {
      SumSeqOneNonZero(xs[1..], k - 1);
    }
  }

  lemma {:induction false} SumSeqAdd(a: seq<real>, b: seq<real>, c: seq<real>)
    requires |a| == |b| == |c|
    requires forall j :: 0 <= j < |c| ==> c[j] == a[j] + b[j]
    ensures SumSeq(c) == SumSeq(a) + SumSeq(b)
  {
    if c != [] {
      SumSeqAdd(a[1..], b[1..], c[1..]);
    }
  }

  predicate Distinct(xs: seq<string>) {
    forall a, b :: 0 <= a < b < |xs| ==> xs[a] != xs[b]
  }

  /** Summing a region's row over categories that list every category once gives the region's revenue. */
  lemma {:induction false} PivotRowTotal(dff: seq<Record>, region: string, categories: seq<string>)
    requires Distinct(categories)
    requires forall t :: 0 <= t < |dff| ==> dff[t].categoria in categories
    ensures SumSeq(RegionRevenues(dff, region, categories)) == SumWhere(dff, RegionOf, region)
  {
    var row := RegionRevenues(dff, region, categories);
    if dff == [] {
      SumSeqZeros(row);
    } else {
      var r := dff[0];
      var rest := dff[1..];
      assert forall t :: 0 <= t < |rest| ==> rest[t] == dff[t + 1];
      PivotRowTotal(rest, region, categories);
      var own := seq(|categories|, j requires 0 <= j < |categories| =>
        if RegionAndCategory(r) == (region, categories[j]) then r.receita else 0.0);
      SumSeqAdd(own, RegionRevenues(rest, region, categories), row);
      var k :| 0 <= k < |categories| && categories[k] == r.categoria;
      if r.regiao == region {
        SumSeqOneNonZero(own, k);
      } else {
        SumSeqZeros(own);
      }
    }
  }

  /** Each heatmap row adds up to the revenue of its region. */
  lemma HeatmapRowTotal(dff: seq<Record>, i: nat)
    requires i < |GetRegionHeatmapData(dff).regions|
    ensures SumSeq(GetRegionHeatmapData(dff).cells[i]) == SumWhere(dff, RegionOf, GetRegionHeatmapData(dff).regions[i])
  {
    var h := GetRegionHeatmapData(dff);
    StrLessIsStrictTotalOrder();
    forall t | 0 <= t < |dff| ensures dff[t].categoria in h.categories {
      KeySetMember(dff, CategoryOf, t);
    }
    PivotRowTotal(dff, h.regions[i], h.categories);
  }

  /** A non-empty table gives non-empty group views and a heatmap with at least one cell. */
  lemma ViewsOfNonEmptyTable(dff: seq<Record>)
    requires dff != []
    ensures GetSalesEvolution(dff) != []
    ensures GetSalesByCategory(dff) != []
    ensures GetTopProducts(dff) != []
    ensures GetRegionHeatmapData(dff).regions != [] && GetRegionHeatmapData(dff).categories != []
  {
    KeySetMember(dff, MonthKey, 0);
    KeySetMember(dff, CategoryOf, 0);
    KeySetMember(dff, ProductOf, 0);
    KeySetMember(dff, RegionOf, 0);
  }

  // ------------------------------------------------- trend and forecast

  /** A fitted regression line: the revenue it predicts for a day offset. */
  type Predictor = int -> real

  /** The least-squares fit of revenues on day offsets (sklearn's LinearRegression), left uninterpreted. */
  type Fit = (seq<int>, seq<real>) -> Predictor

  /** The earliest sale instant: `dff['data'].min()`. */
  function MinDate(dff: seq<Record>): (m: int)
    requires dff != []
    ensures forall i :: 0 <= i < |dff| ==> m <= dff[i].data
    ensures exists i :: 0 <= i < |dff| && dff[i].data == m
  {
    if |dff| == 1 then dff[0].data
    else
      var rest := MinDate(dff[1..]);
      assert forall i :: 1 <= i < |dff| ==> dff[i] == dff[1..][i - 1];
      if dff[0].data <= rest then dff[0].data else rest
  }

  /** `(data - start).dt.days`: whole days elapsed since start, rounded down. */
  function DayOffsetFrom(start: int): Record -> int {
    (r: Record) => (r.data - start) / Calendar.SecondsPerDay
  }

  /** The distinct day offsets of the table, counted from its earliest sale. */
  function DistinctOffsets(dff: seq<Record>): set<int> {
    if dff == [] then {} else KeySet(dff, DayOffsetFrom(MinDate(dff)))
  }

  /** `groupby('dias_desde_inicio')['receita'].sum().reset_index()`. */
  function DailySales(dff: seq<Record>): (daily: seq<Row<int>>)
    ensures StrictlyAscending(daily, IntLess)
    ensures KeysOf(daily) == DistinctOffsets(dff) && |daily| == |DistinctOffsets(dff)|
    ensures RowsTotal(daily) == TotalReceita(dff)
    ensures dff == [] ==> daily == []
    ensures dff != [] ==> daily != [] && daily[0].0 == 0
    ensures dff != [] ==> forall i :: 0 <= i < |daily| ==>
      daily[i].0 >= 0 && daily[i].1 == SumWhere(dff, DayOffsetFrom(MinDate(dff)), daily[i].0)
  {
    if dff == [] then []
    else
      var key := DayOffsetFrom(MinDate(dff));
      IntLessIsStrictTotalOrder();
      GroupSumRows(dff, key, IntLess);
      var daily := GroupSum(dff, key, IntLess);
      DailyOffsets(dff, daily);
      daily
  }

  lemma DailyOffsets(dff: seq<Record>, daily: seq<Row<int>>)
    requires dff != []
    requires StrictlyAscending(daily, IntLess)
    requires KeysOf(daily) == KeySet(dff, DayOffsetFrom(MinDate(dff)))
    ensures daily != [] && daily[0].0 == 0
    ensures forall i :: 0 <= i < |daily| ==> daily[i].0 >= 0
  {
    var key := DayOffsetFrom(MinDate(dff));
    forall i | 0 <= i < |daily| ensures daily[i].0 >= 0 {
      KeysOfMember(daily, i);
      var t := KeySetHasIndex(dff, key, daily[i].0);
    }
    var first :| 0 <= first < |dff| && dff[first].data == MinDate(dff);
    KeySetMember(dff, key, first);
    var t := KeysOfHasIndex(daily, 0);
    FirstIsLeast(daily, t);
  }

  lemma FirstIsLeast(rows: seq<Row<int>>, t: nat)
    requires StrictlyAscending(rows, IntLess) && t < |rows|
    ensures rows[0].0 <= rows[t].0
  {
    if t > 0 {
      assert IntLess(rows[0].0, rows[t].0);
    }
  }

  function OffsetsOf(daily: seq<Row<int>>): seq<int> {
    KeyColumn(daily)
  }

  function RevenuesOf(daily: seq<Row<int>>): (ys: seq<real>)
    ensures |ys| == |daily|
  {
    seq(|daily|, i requires 0 <= i < |daily| => daily[i].1)
  }

  /** `model.predict(X)`: the fitted line evaluated at each x. */
  function Predict(p: Predictor, xs: seq<int>): (ys: seq<real>)
    ensures |ys| == |xs|
    ensures forall i :: 0 <= i < |xs| ==> ys[i] == p(xs[i])
  {
    seq(|xs|, i requires 0 <= i < |xs| => p(xs[i]))
  }

  datatype TrendAnalysis = TrendAnalysis(dailySales: seq<Row<int>>, trendLine: Option<seq<real>>)

  /** `get_trend_analysis`: daily revenue by day offset, and the fitted line at each observed offset
      when there are at least two distinct offsets. */
  function GetTrendAnalysis(dff: seq<Record>, fit: Fit): (t: TrendAnalysis)
    ensures t.dailySales == DailySales(dff)
    ensures t.trendLine.Some? <==> |DistinctOffsets(dff)| >= 2
    ensures t.trendLine.Some? ==>
      var line := fit(OffsetsOf(t.dailySales), RevenuesOf(t.dailySales));
      |t.trendLine.value| == |t.dailySales| &&
      forall i :: 0 <= i < |t.dailySales| ==> t.trendLine.value[i] == line(t.dailySales[i].0)
  {
    var daily := DailySales(dff);
    if |daily| > 1 then
      var line := fit(OffsetsOf(daily), RevenuesOf(daily));
      TrendAnalysis(daily, Some(Predict(line, OffsetsOf(daily))))
    else
      TrendAnalysis(daily, None)
  }

  datatype SalesForecast = SalesForecast(
    dailySales: seq<Row<int>>,
    trendLine: Option<seq<real>>,
    futureDays: Option<seq<int>>,
    futureSales: Option<seq<real>>)

  /** `np.arange(max + 1, max + 31)`. */
  function FutureDays(last: int): (days: seq<int>)
    ensures |days| == Horizon
    ensures forall i :: 0 <= i < Horizon ==> days[i] == last + 1 + i
  {
    seq(Horizon, i requires 0 <= i < Horizon => last + 1 + i)
  }

  /** `get_sales_forecast`: the trend analysis plus the fitted line over the Horizon days after the last
      observed offset; with fewer than two distinct offsets only the daily table is returned. */
  function GetSalesForecast(dff: seq<Record>, fit: Fit): (f: SalesForecast)
    ensures f.dailySales == DailySales(dff)
    ensures f.trendLine.Some? <==> |DistinctOffsets(dff)| >= 2
    ensures f.futureDays.Some? <==> f.trendLine.Some?
    ensures f.futureSales.Some? <==> f.trendLine.Some?
    ensures f.trendLine.Some? ==>
      && f.futureDays.Some? && f.futureSales.Some?
      && ForecastFollowsLine(dff, f.dailySales, fit(OffsetsOf(f.dailySales), RevenuesOf(f.dailySales)),
        f.trendLine.value, f.futureDays.value, f.futureSales.value)
  {
    var daily := DailySales(dff);
    if |daily| > 1 then
      var line := fit(OffsetsOf(daily), RevenuesOf(daily));
      var days := FutureDays(daily[|daily| - 1].0);
      FutureDaysFollow(dff, daily, days);
      SalesForecast(daily, Some(Predict(line, OffsetsOf(daily))), Some(days), Some(Predict(line, days)))
    else
      SalesForecast(daily, None, None, None)
  }

  /** The three forecast columns agree with the fitted line: the trend is the line at each observed
      offset, and the future sales are the line at Horizon consecutive days after every observed
      offset, the first of them right after the last observed one. */
  predicate ForecastFollowsLine(dff: seq<Record>, daily: seq<Row<int>>, line: Predictor,
                                trend: seq<real>, days: seq<int>, sales: seq<real>)
  {
    && |trend| == |daily|
    && (forall i :: 0 <= i < |daily| ==> trend[i] == line(daily[i].0))
    && |days| == Horizon && |sales| == Horizon
    && (forall i :: 0 <= i < Horizon ==> sales[i] == line(days[i]))
    && (days[0] - 1) in DistinctOffsets(dff)
    && (forall i :: 0 <= i < Horizon ==> days[i] == days[0] + i)
    && (forall d :: d in DistinctOffsets(dff) ==> d < days[0])
  }

  /** The forecast days start right after the last observed offset, which is the largest. */
  lemma FutureDaysFollow(dff: seq<Record>, daily: seq<Row<int>>, days: seq<int>)
    requires daily == DailySales(dff) && daily != []
    requires days == FutureDays(daily[|daily| - 1].0)
    ensures (days[0] - 1) in DistinctOffsets(dff)
    ensures forall d :: d in DistinctOffsets(dff) ==> d < days[0]
  {
    LastIsLargest(daily);
  }

  /** The last row of an ascending day table carries the largest offset. */
  lemma LastIsLargest(daily: seq<Row<int>>)
    requires daily != [] && StrictlyAscending(daily, IntLess)
    ensures daily[|daily| - 1].0 in KeysOf(daily)
    ensures forall d :: d in KeysOf(daily) ==> d <= daily[|daily| - 1].0
  {
    KeysOfMember(daily, |daily| - 1);
    forall d | d in KeysOf(daily) ensures d <= daily[|daily| - 1].0 {
      var t := KeysOfHasIndex(daily, d);
    }
  }

  // ---------------------------------------------------------- a worked example

  /** Three sales: 2024-01-01 (A, N, P1), 2024-01-02 (B, S, P2) and 2024-02-01 (A, N, P1), each worth 20. */
  function ExampleTable(): seq<Record> {
    [ Record(1704067200, 10.0, 2, "A", "N", "P1", 20.0, "2024-01", 2024),
      Record(1704153600, 20.0, 1, "B", "S", "P2", 20.0, "2024-01", 2024),
      Record(1706745600, 5.0, 4, "A", "N", "P1", 20.0, "2024-02", 2024) ]
  }

  lemma ExampleKpis()
    ensures CalculateKpis(ExampleTable()) == Kpis(60.0, 7, 60.0 / 7.0)
  {
  }

  lemma ExampleTopProducts()
    ensures GetTopProducts(ExampleTable()) == [("P2", 20.0), ("P1", 40.0)]
  {
    ExampleProducts();
    ExampleLargest();
  }

  lemma ExampleLargest()
    ensures LargestAscending([("P1", 40.0), ("P2", 20.0)], TopN) == [("P2", 20.0), ("P1", 40.0)]
  {
    var byProduct: seq<Row<string>> := [("P1", 40.0), ("P2", 20.0)];
    assert |byProduct[1..]| == 1;
    var desc := SortRows(byProduct, true);
    assert SortRows(byProduct[1..], true) == [("P2", 20.0)];
    assert desc == byProduct;
    assert desc[..Min(TopN, 2)] == desc;
    assert SortRows(desc[1..], false) == [("P2", 20.0)];
    assert SortRows(desc, false) == [("P2", 20.0), ("P1", 40.0)];
  }

  lemma ExampleProducts()
    ensures StrictTotalOrder(StrLess)
    ensures GroupByString(ExampleTable(), ProductOf) == [("P1", 40.0), ("P2", 20.0)]
  {
    var t := ExampleTable();
    StrLessIsStrictTotalOrder();
    assert !StrLess("P2", "P1") && StrLess("P1", "P2");
    assert |t[2..]| == 1;
    var last := GroupSum(t[2..], ProductOf, StrLess);
    assert last == [("P1", 20.0)];
    assert t[1..][1..] == t[2..];
    var middle := GroupSum(t[1..], ProductOf, StrLess);
    assert middle == Accumulate(last, "P2", 20.0, StrLess);
    assert middle == [("P1", 20.0), ("P2", 20.0)];
    assert GroupSum(t, ProductOf, StrLess) == Accumulate(middle, "P1", 20.0, StrLess);
  }

  lemma ExampleDailySales()
    ensures DailySales(ExampleTable()) == [(0, 20.0), (1, 20.0), (31, 20.0)]
  {
    var t := ExampleTable();
    ExampleFirstDay();
    ExampleDays();
    assert DailySales(t) == GroupSum(t, DayOffsetFrom(1704067200), IntLess);
  }

  lemma ExampleFirstDay()
    ensures MinDate(ExampleTable()) == 1704067200
  {
    var t := ExampleTable();
    assert t[1..][1..] == t[2..] && |t[2..]| == 1;
    assert MinDate(t[2..]) == 1706745600;
    assert MinDate(t[1..]) == 1704153600;
  }

  lemma ExampleDays()
    ensures StrictTotalOrder(IntLess) && GroupSum(ExampleTable(), DayOffsetFrom(1704067200), IntLess) == [(0, 20.0), (1, 20.0), (31, 20.0)]
  {
    var t := ExampleTable();
    IntLessIsStrictTotalOrder();
    var key := DayOffsetFrom(1704067200);
    assert key(t[0]) == 0 && key(t[1]) == 1 && key(t[2]) == 31;
    assert t[1..][1..] == t[2..] && |t[2..]| == 1;
    var last := GroupSum(t[2..], key, IntLess);
    assert last == [(31, 20.0)];
    var middle := GroupSum(t[1..], key, IntLess);
    assert middle == Accumulate(last, 1, 20.0, IntLess);
    assert middle == [(1, 20.0), (31, 20.0)];
    assert GroupSum(t, key, IntLess) == Accumulate(middle, 0, 20.0, IntLess);
  }

  lemma ExampleCategories()
    ensures GetSalesByCategory(ExampleTable()) == [("A", 40.0), ("B", 20.0)]
  {
    var t := ExampleTable();
    StrLessIsStrictTotalOrder();
    assert !StrLess("B", "A") && StrLess("A", "B");
    assert |t[2..]| == 1;
    var last := GroupSum(t[2..], CategoryOf, StrLess);
    assert last == [("A", 20.0)];
    assert t[1..][1..] == t[2..];
    var middle := GroupSum(t[1..], CategoryOf, StrLess);
    assert middle == Accumulate(last, "B", 20.0, StrLess);
    assert middle == [("A", 20.0), ("B", 20.0)];
    assert GroupSum(t, CategoryOf, StrLess) == Accumulate(middle, "A", 20.0, StrLess);
  }
}
