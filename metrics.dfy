/** `FinanceAnalyzer.extract_financial_metrics`: the ten-key metric record
    filled from the text of an annual report. Amounts are in units of
    100 million yuan, ratios in percent. */
module Metrics {
  import opened Wrappers
  import opened Text
  import opened Regex
  import opened Numbers

  /** The metric record `extract_financial_metrics` returns: the dictionary
      with its ten fixed keys, one field per key. */
  datatype MetricSet = MetricSet(
    revenue: Option<real>,
    netProfit: Option<real>,
    totalAssets: Option<real>,
    totalLiabilities: Option<real>,
    operatingCashFlow: Option<real>,
    netAssets: Option<real>,
    roe: Option<real>,
    grossMargin: Option<real>,
    debtRatio: Option<real>,
    profitMargin: Option<real>)
  {
    /** The record as the returned dictionary: exactly the ten keys, each
        holding the field of its name. */
    function AsDict(): (d: map<string, Option<real>>)
      ensures d.Keys == MetricKeys
    {
      map[
        "revenue" := revenue, "net_profit" := netProfit, "total_assets" := totalAssets,
        "total_liabilities" := totalLiabilities, "operating_cash_flow" := operatingCashFlow,
        "net_assets" := netAssets, "roe" := roe, "gross_margin" := grossMargin,
        "debt_ratio" := debtRatio, "profit_margin" := profitMargin]
    }
  }

  /** The keys of the dictionary `extract_financial_metrics` returns. */
  const MetricKeys: set<string> := {
    "revenue", "net_profit", "total_assets", "total_liabilities", "operating_cash_flow",
    "net_assets", "roe", "gross_margin", "debt_ratio", "profit_margin"}

  /** analyzer.py:53-64: the record the extraction starts from, every entry None. */
  const EmptyMetrics := MetricSet(None, None, None, None, None, None, None, None, None, None)

  /** The ten key names are distinct. */
  lemma TenKeys()
    ensures |MetricKeys| == 10
  {
  }

  /** Every entry of the dictionary starts as None. */
  lemma StartsAllNone()
    ensures forall k | k in EmptyMetrics.AsDict() :: EmptyMetrics.AsDict()[k] == None
  {
    assert EmptyMetrics.AsDict().Values == {None};
  }

  /** Thousand yuan to hundred million yuan. */
  const ThousandToHundredMillion: real := 0.0001
  /** A fallback value above this is taken to be in thousand yuan. */
  const LargeValueThreshold: real := 10000.0
  /** How far after a table label the number is looked for. */
  const TableWindow: nat := 200

  // The table labels: the label, then "千元" further on the same line.
  const RevenueTable := UnitOnLine("营业收入", "千元")
  const NetProfitTable := UnitOnLine("归属于上市公司股东的净利润", "千元")
  const CashFlowTable := UnitOnLine("经营活动产生的现金流量净额", "千元")

  // The fallback chains, tried in order. The first two patterns of the
  // revenue and profit chains have a literal space before the colon.
  const RevenuePatterns: seq<Pattern> := [
    ColonAmount("营业总收入 ", "亿"),
    ColonAmount("营业收入 ", "亿"),
    SpacedNumber("营业收入")
  ]
  const ProfitPatterns: seq<Pattern> := [
    ColonAmount("净利润 ", "亿"),
    ColonAmount("归母净利润 ", "亿"),
    SpacedNumber("净利润")
  ]
  const CashFlowPatterns: seq<Pattern> := [LazyNumber("经营活动现金流")]

  // The value on the line after the label.
  const AssetsPattern := UnitNextLine("资产总额", "千元")
  const LiabilitiesPattern := UnitNextLine("负债合计", "千元")
  const EquityPattern := NextLine("归属于上市公司股东的净资产")

  // The first percentage 50 to 500 characters after the label.
  const MarginPattern := GapPercent("毛利率", 50, 500)

  /** `float(match.group(1).replace(',', ''))` for the first match of `p`
      in `t`: None when `p` does not match, Err when `float` raises. */
  function GroupValue(p: Pattern, t: string): (r: Result<Option<real>>)
    ensures r == Ok(None) <==> Search(p, t).None?
    ensures r.Err? <==> Search(p, t).Some? && ParseFloat(RemoveCommas(Group(t, Search(p, t).value))).None?
    ensures r.Ok? && r.value.Some? ==> r.value.value >= 0.0
  {
    match Search(p, t)
    case None => Ok(None)
    case Some(m) =>
      match ParseFloat(RemoveCommas(Group(t, m)))
      case None => Err(ValueError)
      case Some(v) => Ok(Some(v))
  }

  /** A found value multiplied by `factor`; absence and failure pass through. */
  function Scaled(r: Result<Option<real>>, factor: real): Result<Option<real>> {
    match r
    case Ok(Some(v)) => Ok(Some(v * factor))
    case _ => r
  }

  /** `re.search(r'([\d,]+\.?\d*)', w)` finds the first digit or comma of `w`. */
  lemma DecimalFindsFirstDigitOrComma(w: string)
    ensures Search(Decimal, w).None? <==> forall k | 0 <= k < |w| :: !InClass(w[k], DigitComma)
    ensures Search(Decimal, w).Some? ==>
      var m := Search(Decimal, w).value;
      m.start < |w| && InClass(w[m.start], DigitComma) && forall k | 0 <= k < m.start :: !InClass(w[k], DigitComma)
  {
    var r := Search(Decimal, w);
    SearchLeftmost(Decimal, w);
    if r.None? {
      forall k | 0 <= k < |w| ensures !InClass(w[k], DigitComma) {
        assert MatchAt(Decimal, w, k).None?;
      }
    } else {
      forall k | 0 <= k < r.value.start ensures !InClass(w[k], DigitComma) {
        assert MatchAt(Decimal, w, k).None?;
      }
    }
  }

  /** The number `extract_table_value` reads, before the multiplier: after
      the first match of `key`, the first number in the next `TableWindow`
      characters, commas removed. */
  function TableToken(key: Pattern, t: string): (r: Result<Option<real>>)
    ensures Search(key, t).None? ==> r == Ok(None)
    ensures r.Ok? && r.value.Some? ==> r.value.value >= 0.0
  {
    match Search(key, t)
    case None => Ok(None)
    case Some(m) => GroupValue(Decimal, Window(t, m.end, TableWindow))
  }

  /** `extract_table_value(key, text, mult)`: the number read, times `mult`. */
  function TableValue(key: Pattern, t: string, mult: real): (r: Result<Option<real>>)
    ensures Search(key, t).None? ==> r == Ok(None)
  {
    Scaled(TableToken(key, t), mult)
  }

  /** Once the key is found, the table value is absent exactly when the
      window after it holds no digit and no comma. */
  lemma TableValueAbsentIffNoDigit(key: Pattern, t: string, mult: real)
    requires Search(key, t).Some?
    ensures var w := Window(t, Search(key, t).value.end, TableWindow);
      TableValue(key, t, mult) == Ok(None) <==> forall k | 0 <= k < |w| :: !InClass(w[k], DigitComma)
  {
    DecimalFindsFirstDigitOrComma(Window(t, Search(key, t).value.end, TableWindow));
  }

  /** The fallback rescaling: a value above the threshold is taken to be in
      thousand yuan. */
  function Rescale(v: real): real {
    if v > LargeValueThreshold then v * ThousandToHundredMillion else v
  }

  /** The rescaling divides by 10000 exactly when the value exceeds 10000. */
  lemma RescaleExactlyAboveThreshold(v: real)
    ensures v > 10000.0 ==> Rescale(v) == v / 10000.0 && Rescale(v) != v
    ensures v <= 10000.0 ==> Rescale(v) == v
  {
  }

  /** One fallback chain: the patterns tried in order, the first that
      matches committing the chain to its (rescaled) number. */
  function FallbackChain(ps: seq<Pattern>, t: string): (r: Result<Option<real>>) {
    if ps == [] then Ok(None)
    else
      match GroupValue(ps[0], t)
      case Err(e) => Err(e)
      case Ok(Some(v)) => Ok(Some(Rescale(v)))
      case Ok(None) => FallbackChain(ps[1..], t)
  }

  /** The chain finds nothing exactly when none of its patterns matches. */
  lemma {:induction false} FallbackChainAbsent(ps: seq<Pattern>, t: string)
    ensures FallbackChain(ps, t) == Ok(None) <==> forall i | 0 <= i < |ps| :: Search(ps[i], t).None?
  {
    if ps != [] {
      FallbackChainAbsent(ps[1..], t);
      assert forall i | 1 <= i < |ps| :: ps[i] == ps[1..][i - 1];
    }
  }

  /** The chain's outcome is that of its first matching pattern. */
  lemma FallbackFirstMatchWins(ps: seq<Pattern>, t: string, i: nat)
    requires i < |ps| && Search(ps[i], t).Some?
    requires forall j | 0 <= j < i :: Search(ps[j], t).None?
    ensures FallbackChain(ps, t) ==
      match GroupValue(ps[i], t)
      case Ok(Some(v)) => Ok(Some(Rescale(v)))
      case r => r
  {
    FallbackSkipsMisses(ps, t, i);
    assert ps[i..][0] == ps[i];
    FallbackHit(ps[i..], t);
  }

  /** Patterns that do not match are passed over. */
  lemma {:induction false} FallbackSkipsMisses(ps: seq<Pattern>, t: string, k: nat)
    requires k <= |ps|
    requires forall j | 0 <= j < k :: Search(ps[j], t).None?
    ensures FallbackChain(ps, t) == FallbackChain(ps[k..], t)
    decreases k
  {
    if k == 0 {
      assert ps[0..] == ps;
    } else {
      FallbackSkipsMisses(ps, t, k - 1);
      assert ps[k - 1..][0] == ps[k - 1] && ps[k - 1..][1..] == ps[k..];
      FallbackMiss(ps[k - 1..], t);
    }
  }

  /** A first pattern that matches decides the chain. */
  lemma FallbackHit(ps: seq<Pattern>, t: string)
    requires ps != [] && Search(ps[0], t).Some?
    ensures FallbackChain(ps, t) ==
      match GroupValue(ps[0], t)
      case Ok(Some(v)) => Ok(Some(Rescale(v)))
      case r => r
  {
  }

  /** A first pattern that does not match passes the text to the rest. */
  lemma FallbackMiss(ps: seq<Pattern>, t: string)
    requires ps != [] && Search(ps[0], t).None?
    ensures FallbackChain(ps, t) == FallbackChain(ps[1..], t)
  {
    assert GroupValue(ps[0], t) == Ok(None);
  }

  /** One step of the chain: the pattern at `i` decides, or the chain goes on. */
  lemma FallbackChainStep(ps: seq<Pattern>, t: string, i: nat)
    requires i < |ps|
    ensures FallbackChain(ps[i..], t) ==
      match GroupValue(ps[i], t)
      case Err(e) => Err(e)
      case Ok(Some(v)) => Ok(Some(Rescale(v)))
      case Ok(None) => FallbackChain(ps[i + 1..], t)
  {
    assert ps[i..][0] == ps[i] && ps[i..][1..] == ps[i + 1..];
  }

  /** The `for pattern in patterns: ... break` loops at analyzer.py:93-101,
      109-116 and 122-129. */
  method FirstFallback(ps: seq<Pattern>, t: string) returns (r: Result<Option<real>>)
    ensures r == FallbackChain(ps, t)
  {
    var i := 0;
    while i < |ps|
      invariant 0 <= i <= |ps|
      invariant FallbackChain(ps[i..], t) == FallbackChain(ps, t)
    {
      FallbackChainStep(ps, t, i);
      var found := GroupValue(ps[i], t);
      if found.Err? {
        return Err(found.error);
      }
      if found.value.Some? {
        var val := found.value.value;
        if val > LargeValueThreshold {
          val := val * ThousandToHundredMillion;
        }
        assert val == Rescale(found.value.value);
        return Ok(Some(val));
      }
      i := i + 1;
    }
    return Ok(None);
  }

  /** analyzer.py:82-84: the three table values, stored whatever they are. */
  function TablePhase(t: string): Result<MetricSet> {
    var revenue :- TableValue(RevenueTable, t, ThousandToHundredMillion);
    var netProfit :- TableValue(NetProfitTable, t, ThousandToHundredMillion);
    var cashFlow :- TableValue(CashFlowTable, t, ThousandToHundredMillion);
    Ok(EmptyMetrics.(revenue := revenue, netProfit := netProfit, operatingCashFlow := cashFlow))
  }

  /** One `if not metrics[key]:` block on the stored value `current`: the
      chain runs only when `current` is absent or zero, and its number, when
      it finds one, replaces `current`. */
  function OrFallback(current: Option<real>, ps: seq<Pattern>, t: string): Result<Option<real>> {
    if Truthy(current) then Ok(current)
    else
      var found :- FallbackChain(ps, t);
      Ok(if found.Some? then found else current)
  }

  /** analyzer.py:87-129: the three fallback blocks in order. */
  function FallbackPhase(m: MetricSet, t: string): Result<MetricSet> {
    var revenue :- OrFallback(m.revenue, RevenuePatterns, t);
    var netProfit :- OrFallback(m.netProfit, ProfitPatterns, t);
    var cashFlow :- OrFallback(m.operatingCashFlow, CashFlowPatterns, t);
    Ok(m.(revenue := revenue, netProfit := netProfit, operatingCashFlow := cashFlow))
  }

  /** `if match: metrics[key] = value`: the stored value stays when nothing is found. */
  function IfFound(current: Option<real>, found: Result<Option<real>>): Result<Option<real>> {
    var v :- found;
    Ok(if v.Some? then v else current)
  }

  /** analyzer.py:135-153: the next-line amounts and the gross margin. */
  function LinePhase(m: MetricSet, t: string): Result<MetricSet> {
    var assets :- IfFound(m.totalAssets, Scaled(GroupValue(AssetsPattern, t), ThousandToHundredMillion));
    var liabilities :- IfFound(m.totalLiabilities, Scaled(GroupValue(LiabilitiesPattern, t), ThousandToHundredMillion));
    var equity :- IfFound(m.netAssets, Scaled(GroupValue(EquityPattern, t), ThousandToHundredMillion));
    var margin :- IfFound(m.grossMargin, GroupValue(MarginPattern, t));
    Ok(m.(totalAssets := assets, totalLiabilities := liabilities, netAssets := equity, grossMargin := margin))
  }

  /** The metrics taken from the text, before any is derived from others. */
  function PrimaryMetrics(t: string): Result<MetricSet> {
    var tables :- TablePhase(t);
    var filled :- FallbackPhase(tables, t);
    LinePhase(filled, t)
  }

  /** analyzer.py:156-157: liabilities as assets minus net assets, only when
      none was extracted. */
  function DeriveLiabilities(m: MetricSet): MetricSet {
    if Truthy(m.totalAssets) && Truthy(m.netAssets) && !Truthy(m.totalLiabilities)
    then m.(totalLiabilities := Some(Round2(m.totalAssets.value - m.netAssets.value)))
    else m
  }

  /** `round(a / b * 100, 2)`. */
  function Percent(a: real, b: real): real
    requires b != 0.0
  {
    Round2(a / b * 100.0)
  }

  /** analyzer.py:160-163 (and again 166-169): the debt ratio in percent. */
  function DebtRatioStep(m: MetricSet): MetricSet {
    if Truthy(m.totalAssets) && Truthy(m.totalLiabilities)
    then m.(debtRatio := Some(Percent(m.totalLiabilities.value, m.totalAssets.value)))
    else m
  }

  /** analyzer.py:172-175: return on equity in percent. */
  function RoeStep(m: MetricSet): MetricSet {
    if Truthy(m.netAssets) && Truthy(m.netProfit)
    then m.(roe := Some(Percent(m.netProfit.value, m.netAssets.value)))
    else m
  }

  /** analyzer.py:178-181: the net profit margin in percent. */
  function ProfitMarginStep(m: MetricSet): MetricSet {
    if Truthy(m.revenue) && Truthy(m.netProfit)
    then m.(profitMargin := Some(Percent(m.netProfit.value, m.revenue.value)))
    else m
  }

  /** The derivations in source order, the debt-ratio block twice as written. */
  function Derive(m: MetricSet): MetricSet {
    ProfitMarginStep(RoeStep(DebtRatioStep(DebtRatioStep(DeriveLiabilities(m)))))
  }

  /** The result of `extract_financial_metrics`, or the `ValueError` it raises. */
  function FinancialMetrics(t: string): Result<MetricSet> {
    var m :- PrimaryMetrics(t);
    Ok(Derive(m))
  }

  /** analyzer.py:53-64 and 82-84 as written: the record created, then the table values stored. */
  method FillTables(text: string) returns (r: Result<MetricSet>)
    ensures r == TablePhase(text)
  {
    var metrics := EmptyMetrics;
    var revenue := TableValue(RevenueTable, text, ThousandToHundredMillion);
    if revenue.Err? { return Err(revenue.error); }
    metrics := metrics.(revenue := revenue.value);
    var netProfit := TableValue(NetProfitTable, text, ThousandToHundredMillion);
    if netProfit.Err? { return Err(netProfit.error); }
    metrics := metrics.(netProfit := netProfit.value);
    var cashFlow := TableValue(CashFlowTable, text, ThousandToHundredMillion);
    if cashFlow.Err? { return Err(cashFlow.error); }
    metrics := metrics.(operatingCashFlow := cashFlow.value);
    return Ok(metrics);
  }

  /** analyzer.py:87-129 as written: the three `if not metrics[key]:` blocks. */
  method FillFallbacks(m: MetricSet, text: string) returns (r: Result<MetricSet>)
    ensures r == FallbackPhase(m, text)
  {
    var metrics := m;
    if !Truthy(metrics.revenue) {
      var found := FirstFallback(RevenuePatterns, text);
      if found.Err? { return Err(found.error); }
      if found.value.Some? { metrics := metrics.(revenue := found.value); }
    }
    if !Truthy(metrics.netProfit) {
      var found := FirstFallback(ProfitPatterns, text);
      if found.Err? { return Err(found.error); }
      if found.value.Some? { metrics := metrics.(netProfit := found.value); }
    }
    if !Truthy(metrics.operatingCashFlow) {
      var found := FirstFallback(CashFlowPatterns, text);
      if found.Err? { return Err(found.error); }
      if found.value.Some? { metrics := metrics.(operatingCashFlow := found.value); }
    }
    return Ok(metrics);
  }

  /** analyzer.py:135-153 as written: each entry set only when its pattern matches. */
  method FillLineValues(m: MetricSet, text: string) returns (r: Result<MetricSet>)
    ensures r == LinePhase(m, text)
  {
    var metrics := m;
    var assets := Scaled(GroupValue(AssetsPattern, text), ThousandToHundredMillion);
    if assets.Err? { return Err(assets.error); }
    if assets.value.Some? { metrics := metrics.(totalAssets := assets.value); }
    var liabilities := Scaled(GroupValue(LiabilitiesPattern, text), ThousandToHundredMillion);
    if liabilities.Err? { return Err(liabilities.error); }
    if liabilities.value.Some? { metrics := metrics.(totalLiabilities := liabilities.value); }
    var equity := Scaled(GroupValue(EquityPattern, text), ThousandToHundredMillion);
    if equity.Err? { return Err(equity.error); }
    if equity.value.Some? { metrics := metrics.(netAssets := equity.value); }
    var margin := GroupValue(MarginPattern, text);
    if margin.Err? { return Err(margin.error); }
    if margin.value.Some? { metrics := metrics.(grossMargin := margin.value); }
    return Ok(metrics);
  }

  /** analyzer.py:156-181 as written: the derived entries overwritten in place. */
  method DeriveRatios(m: MetricSet) returns (metrics: MetricSet)
    ensures metrics == Derive(m)
  {
    metrics := m;
    if Truthy(metrics.totalAssets) && Truthy(metrics.netAssets) && !Truthy(metrics.totalLiabilities) {
      metrics := metrics.(totalLiabilities := Some(Round2(metrics.totalAssets.value - metrics.netAssets.value)));
    }
    if Truthy(metrics.totalAssets) && Truthy(metrics.totalLiabilities) {
      metrics := metrics.(debtRatio := Some(Percent(metrics.totalLiabilities.value, metrics.totalAssets.value)));
    }
    if Truthy(metrics.totalAssets) && Truthy(metrics.totalLiabilities) {
      metrics := metrics.(debtRatio := Some(Percent(metrics.totalLiabilities.value, metrics.totalAssets.value)));
    }
    if Truthy(metrics.netAssets) && Truthy(metrics.netProfit) {
      metrics := metrics.(roe := Some(Percent(metrics.netProfit.value, metrics.netAssets.value)));
    }
    if Truthy(metrics.revenue) && Truthy(metrics.netProfit) {
      metrics := metrics.(profitMargin := Some(Percent(metrics.netProfit.value, metrics.revenue.value)));
    }
  }

  /** `extract_financial_metrics`: the record filled phase by phase, the
      first `ValueError` stopping the extraction. */
  method ExtractFinancialMetrics(text: string) returns (r: Result<MetricSet>)
    ensures r == FinancialMetrics(text)
  {
    var tables := FillTables(text);
    if tables.Err? { return Err(tables.error); }
    var filled := FillFallbacks(tables.value, text);
    if filled.Err? { return Err(filled.error); }
    var primary := FillLineValues(filled.value, text);
    if primary.Err? { return Err(primary.error); }
    var metrics := DeriveRatios(primary.value);
    return Ok(metrics);
  }
}
