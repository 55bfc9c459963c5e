/** What the table, fallback and next-line phases of
    `extract_financial_metrics` promise about the record they fill. */
module ExtractionProperties {
  import opened Wrappers
  import opened Text
  import opened Regex
  import opened Numbers
  import opened Metrics

  predicate NonNegative(v: Option<real>) {
    v.Some? ==> v.value >= 0.0
  }

  /** Every number read from the text is non-negative: the patterns never
      capture a sign. */
  predicate ExtractedNonNegative(m: MetricSet) {
    && NonNegative(m.revenue) && NonNegative(m.netProfit) && NonNegative(m.totalAssets)
    && NonNegative(m.totalLiabilities) && NonNegative(m.operatingCashFlow)
    && NonNegative(m.netAssets) && NonNegative(m.grossMargin)
  }

  /** None of the three ratios is set. */
  predicate NoRatios(m: MetricSet) {
    m.roe.None? && m.debtRatio.None? && m.profitMargin.None?
  }

  lemma ProductNonNegative(a: real, b: real)
    requires a >= 0.0 && b >= 0.0
    ensures a * b >= 0.0
  {
  }

  /** Scaling by a non-negative factor keeps a found number non-negative. */
  lemma ScaledNonNegative(r: Result<Option<real>>, factor: real)
    requires factor >= 0.0 && (r.Ok? ==> NonNegative(r.value))
    ensures Scaled(r, factor).Ok? ==> NonNegative(Scaled(r, factor).value)
  {
    if r.Ok? && r.value.Some? {
      ProductNonNegative(r.value.value, factor);
    }
  }

  lemma TableValueNonNegative(key: Pattern, t: string, mult: real)
    requires mult >= 0.0
    ensures TableValue(key, t, mult).Ok? ==> NonNegative(TableValue(key, t, mult).value)
  {
    ScaledNonNegative(TableToken(key, t), mult);
  }

  /** A fallback chain commits to a non-negative number. */
  lemma {:induction false} FallbackChainNonNegative(ps: seq<Pattern>, t: string)
    ensures FallbackChain(ps, t).Ok? ==> NonNegative(FallbackChain(ps, t).value)
  {
    if ps != [] && GroupValue(ps[0], t) == Ok(None) {
      FallbackChainNonNegative(ps[1..], t);
    }
  }

  /** The table phase sets only revenue, net profit and operating cash flow. */
  lemma TablePhaseShape(t: string)
    ensures TablePhase(t).Ok? ==>
      var m := TablePhase(t).value;
      && ExtractedNonNegative(m) && NoRatios(m)
      && m.totalAssets.None? && m.totalLiabilities.None? && m.netAssets.None? && m.grossMargin.None?
  {
    TableValueNonNegative(RevenueTable, t, ThousandToHundredMillion);
    TableValueNonNegative(NetProfitTable, t, ThousandToHundredMillion);
    TableValueNonNegative(CashFlowTable, t, ThousandToHundredMillion);
  }

  /** A stored value that is present and non-zero is kept, and the chain is
      not consulted; otherwise absent or zero stays as it is when no pattern
      of the chain matches, and is replaced by the rescaled number of the
      first pattern that matches when that number parses. */
  lemma OrFallbackPrecedence(current: Option<real>, ps: seq<Pattern>, t: string)
    ensures Truthy(current) ==> OrFallback(current, ps, t) == Ok(current)
    ensures !Truthy(current) && (forall i | 0 <= i < |ps| :: Search(ps[i], t).None?) ==>
      OrFallback(current, ps, t) == Ok(current)
    ensures forall i, v | 0 <= i < |ps| && Search(ps[i], t).Some? && GroupValue(ps[i], t) == Ok(Some(v)) &&
      (forall j | 0 <= j < i :: Search(ps[j], t).None?) ::
        !Truthy(current) ==> OrFallback(current, ps, t) == Ok(Some(Rescale(v)))
  {
    FallbackChainAbsent(ps, t);
    forall i, v | 0 <= i < |ps| && Search(ps[i], t).Some? && GroupValue(ps[i], t) == Ok(Some(v)) &&
      (forall j | 0 <= j < i :: Search(ps[j], t).None?)
      ensures !Truthy(current) ==> OrFallback(current, ps, t) == Ok(Some(Rescale(v)))
    {
      FallbackFirstMatchWins(ps, t, i);
    }
  }

  lemma OrFallbackNonNegative(current: Option<real>, ps: seq<Pattern>, t: string)
    requires NonNegative(current)
    ensures OrFallback(current, ps, t).Ok? ==> NonNegative(OrFallback(current, ps, t).value)
  {
    FallbackChainNonNegative(ps, t);
  }

  /** The fallback phase touches only revenue, net profit and operating
      cash flow, and keeps the extracted numbers non-negative. */
  lemma FallbackPhaseShape(m: MetricSet, t: string)
    ensures FallbackPhase(m, t).Ok? ==>
      var r := FallbackPhase(m, t).value;
      && (ExtractedNonNegative(m) ==> ExtractedNonNegative(r))
      && r.(revenue := m.revenue, netProfit := m.netProfit, operatingCashFlow := m.operatingCashFlow) == m
  {
    if ExtractedNonNegative(m) {
      OrFallbackNonNegative(m.revenue, RevenuePatterns, t);
      OrFallbackNonNegative(m.netProfit, ProfitPatterns, t);
      OrFallbackNonNegative(m.operatingCashFlow, CashFlowPatterns, t);
    }
  }

  lemma IfFoundNonNegative(current: Option<real>, found: Result<Option<real>>)
    ensures NonNegative(current) && (found.Ok? ==> NonNegative(found.value)) && IfFound(current, found).Ok? ==>
      NonNegative(IfFound(current, found).value)
  {
  }

  /** The next-line phase touches only assets, liabilities, net assets and
      the gross margin, and keeps the extracted numbers non-negative. */
  lemma LinePhaseShape(m: MetricSet, t: string)
    ensures LinePhase(m, t).Ok? ==>
      var r := LinePhase(m, t).value;
      && (ExtractedNonNegative(m) ==> ExtractedNonNegative(r))
      && r.(totalAssets := m.totalAssets, totalLiabilities := m.totalLiabilities,
            netAssets := m.netAssets, grossMargin := m.grossMargin) == m
  {
    var k := ThousandToHundredMillion;
    ScaledNonNegative(GroupValue(AssetsPattern, t), k);
    ScaledNonNegative(GroupValue(LiabilitiesPattern, t), k);
    ScaledNonNegative(GroupValue(EquityPattern, t), k);
    IfFoundNonNegative(m.totalAssets, Scaled(GroupValue(AssetsPattern, t), k));
    IfFoundNonNegative(m.totalLiabilities, Scaled(GroupValue(LiabilitiesPattern, t), k));
    IfFoundNonNegative(m.netAssets, Scaled(GroupValue(EquityPattern, t), k));
    IfFoundNonNegative(m.grossMargin, GroupValue(MarginPattern, t));
  }

  /** Before the derivations, no ratio is set and every number read from
      the text is non-negative. */
  lemma PrimaryMetricsShape(t: string)
    ensures PrimaryMetrics(t).Ok? ==> ExtractedNonNegative(PrimaryMetrics(t).value) && NoRatios(PrimaryMetrics(t).value)
  {
    TablePhaseShape(t);
    if TablePhase(t).Ok? {
      FallbackPhaseShape(TablePhase(t).value, t);
      if FallbackPhase(TablePhase(t).value, t).Ok? {
        LinePhaseShape(FallbackPhase(TablePhase(t).value, t).value, t);
      }
    }
  }

  /** The table strategy reads its number in thousand yuan: a found token
      `N` becomes `N / 10000`, absence and failure stay as they are. */
  lemma TableValueInHundredMillion(key: Pattern, t: string)
    ensures TableValue(key, t, ThousandToHundredMillion) ==
      match TableToken(key, t)
      case Ok(Some(n)) => Ok(Some(n / 10000.0))
      case r => r
  {
    ScaledByTenThousandth(TableToken(key, t));
  }

  lemma ScaledByTenThousandth(g: Result<Option<real>>)
    ensures Scaled(g, ThousandToHundredMillion) == match g case Ok(Some(n)) => Ok(Some(n / 10000.0)) case r => r
  {
    if g.Ok? && g.value.Some? {
      var n := g.value.value;
      assert Scaled(g, ThousandToHundredMillion).value.value == n / 10000.0;
    }
  }

  /** End to end for revenue: a present, non-zero table value is the
      result; otherwise the first fallback pattern that matches decides, and
      when none matches the table value (absent or zero) stays. */
  lemma RevenuePrecedence(t: string)
    requires PrimaryMetrics(t).Ok?
    ensures TableValue(RevenueTable, t, ThousandToHundredMillion).Ok?
    ensures var table := TableValue(RevenueTable, t, ThousandToHundredMillion).value;
      && (Truthy(table) ==> PrimaryMetrics(t).value.revenue == table)
      && (!Truthy(table) && (forall i | 0 <= i < |RevenuePatterns| :: Search(RevenuePatterns[i], t).None?) ==>
            PrimaryMetrics(t).value.revenue == table)
      && (forall i, v | 0 <= i < |RevenuePatterns| && Search(RevenuePatterns[i], t).Some? &&
            GroupValue(RevenuePatterns[i], t) == Ok(Some(v)) &&
            (forall j | 0 <= j < i :: Search(RevenuePatterns[j], t).None?) ::
            !Truthy(table) ==> PrimaryMetrics(t).value.revenue == Some(Rescale(v)))
  {
    PrimaryTableThenFallback(t);
    OrFallbackPrecedence(TableValue(RevenueTable, t, ThousandToHundredMillion).value, RevenuePatterns, t);
  }

  /** End to end for net profit: a present, non-zero table value is the
      result; otherwise the first fallback pattern that matches decides, and
      when none matches the table value (absent or zero) stays. */
  lemma NetProfitPrecedence(t: string)
    requires PrimaryMetrics(t).Ok?
    ensures TableValue(NetProfitTable, t, ThousandToHundredMillion).Ok?
    ensures var table := TableValue(NetProfitTable, t, ThousandToHundredMillion).value;
      && (Truthy(table) ==> PrimaryMetrics(t).value.netProfit == table)
      && (!Truthy(table) && (forall i | 0 <= i < |ProfitPatterns| :: Search(ProfitPatterns[i], t).None?) ==>
            PrimaryMetrics(t).value.netProfit == table)
      && (forall i, v | 0 <= i < |ProfitPatterns| && Search(ProfitPatterns[i], t).Some? &&
            GroupValue(ProfitPatterns[i], t) == Ok(Some(v)) &&
            (forall j | 0 <= j < i :: Search(ProfitPatterns[j], t).None?) ::
            !Truthy(table) ==> PrimaryMetrics(t).value.netProfit == Some(Rescale(v)))
  {
    PrimaryTableThenFallback(t);
    OrFallbackPrecedence(TableValue(NetProfitTable, t, ThousandToHundredMillion).value, ProfitPatterns, t);
  }

  /** End to end for operating cash flow, whose chain has one pattern: a
      present, non-zero table value is the result; otherwise the lazy
      pattern's number, rescaled, when it matches, and the table value
      (absent or zero) when it does not. */
  lemma CashFlowPrecedence(t: string)
    requires PrimaryMetrics(t).Ok?
    ensures TableValue(CashFlowTable, t, ThousandToHundredMillion).Ok?
    ensures var table := TableValue(CashFlowTable, t, ThousandToHundredMillion).value;
      && (Truthy(table) ==> PrimaryMetrics(t).value.operatingCashFlow == table)
      && (!Truthy(table) && Search(CashFlowPatterns[0], t).None? ==>
            PrimaryMetrics(t).value.operatingCashFlow == table)
      && (forall v | GroupValue(CashFlowPatterns[0], t) == Ok(Some(v)) ::
            !Truthy(table) ==> PrimaryMetrics(t).value.operatingCashFlow == Some(Rescale(v)))
  {
    PrimaryTableThenFallback(t);
    OrFallbackPrecedence(TableValue(CashFlowTable, t, ThousandToHundredMillion).value, CashFlowPatterns, t);
  }

  /** Revenue, net profit and operating cash flow are each set by their
      table value and their own fallback block only. */
  lemma PrimaryTableThenFallback(t: string)
    requires PrimaryMetrics(t).Ok?
    ensures TablePhase(t).Ok?
    ensures var m := TablePhase(t).value;
      && TableValue(RevenueTable, t, ThousandToHundredMillion) == Ok(m.revenue)
      && TableValue(NetProfitTable, t, ThousandToHundredMillion) == Ok(m.netProfit)
      && TableValue(CashFlowTable, t, ThousandToHundredMillion) == Ok(m.operatingCashFlow)
    ensures var m := TablePhase(t).value;
      && OrFallback(m.revenue, RevenuePatterns, t) == Ok(PrimaryMetrics(t).value.revenue)
      && OrFallback(m.netProfit, ProfitPatterns, t) == Ok(PrimaryMetrics(t).value.netProfit)
      && OrFallback(m.operatingCashFlow, CashFlowPatterns, t) == Ok(PrimaryMetrics(t).value.operatingCashFlow)
  {
    var tables := TablePhase(t);
    assert tables.Ok?;
    TablePhaseValues(t);
    var filled := FallbackPhase(tables.value, t);
    assert filled.Ok?;
    FallbackPhaseValues(tables.value, t);
    LinePhaseShape(filled.value, t);
  }

  /** The table phase stores the three table values as read. */
  lemma TablePhaseValues(t: string)
    ensures TablePhase(t).Ok? ==>
      && TableValue(RevenueTable, t, ThousandToHundredMillion) == Ok(TablePhase(t).value.revenue)
      && TableValue(NetProfitTable, t, ThousandToHundredMillion) == Ok(TablePhase(t).value.netProfit)
      && TableValue(CashFlowTable, t, ThousandToHundredMillion) == Ok(TablePhase(t).value.operatingCashFlow)
  {
  }

  /** Each entry after the fallback phase is the result of its own block. */
  lemma FallbackPhaseValues(m: MetricSet, t: string)
    ensures FallbackPhase(m, t).Ok? ==>
      && OrFallback(m.revenue, RevenuePatterns, t) == Ok(FallbackPhase(m, t).value.revenue)
      && OrFallback(m.netProfit, ProfitPatterns, t) == Ok(FallbackPhase(m, t).value.netProfit)
      && OrFallback(m.operatingCashFlow, CashFlowPatterns, t) == Ok(FallbackPhase(m, t).value.operatingCashFlow)
  {
  }

  /** Each entry after the line phase is the result of its own block,
      and the entries the phase does not look for are left as they were. */
  lemma LinePhaseValues(m: MetricSet, t: string)
    ensures LinePhase(m, t).Ok? ==>
      && IfFound(m.totalAssets, Scaled(GroupValue(AssetsPattern, t), ThousandToHundredMillion)) == Ok(LinePhase(m, t).value.totalAssets)
      && IfFound(m.totalLiabilities, Scaled(GroupValue(LiabilitiesPattern, t), ThousandToHundredMillion)) == Ok(LinePhase(m, t).value.totalLiabilities)
      && IfFound(m.netAssets, Scaled(GroupValue(EquityPattern, t), ThousandToHundredMillion)) == Ok(LinePhase(m, t).value.netAssets)
      && IfFound(m.grossMargin, GroupValue(MarginPattern, t)) == Ok(LinePhase(m, t).value.grossMargin)
      && LinePhase(m, t).value.(totalAssets := m.totalAssets, totalLiabilities := m.totalLiabilities,
                                netAssets := m.netAssets, grossMargin := m.grossMargin) == m
  {
    var a := IfFound(m.totalAssets, Scaled(GroupValue(AssetsPattern, t), ThousandToHundredMillion));
    var l := IfFound(m.totalLiabilities, Scaled(GroupValue(LiabilitiesPattern, t), ThousandToHundredMillion));
    var e := IfFound(m.netAssets, Scaled(GroupValue(EquityPattern, t), ThousandToHundredMillion));
    var g := IfFound(m.grossMargin, GroupValue(MarginPattern, t));
    if a.Ok? && l.Ok? && e.Ok? && g.Ok? {
      assert LinePhase(m, t) == Ok(m.(totalAssets := a.value, totalLiabilities := l.value,
                                      netAssets := e.value, grossMargin := g.value));
    }
  }

  lemma TablePhaseOfEmptyText()
    ensures TablePhase("") == Ok(EmptyMetrics)
  {
    SearchEmptyText(RevenueTable);
    SearchEmptyText(NetProfitTable);
    SearchEmptyText(CashFlowTable);
  }

  lemma FallbackPhaseOfEmptyText()
    ensures FallbackPhase(EmptyMetrics, "") == Ok(EmptyMetrics)
  {
    forall i | 0 <= i < |RevenuePatterns| ensures Search(RevenuePatterns[i], "").None? {
      SearchEmptyText(RevenuePatterns[i]);
    }
    forall i | 0 <= i < |ProfitPatterns| ensures Search(ProfitPatterns[i], "").None? {
      SearchEmptyText(ProfitPatterns[i]);
    }
    SearchEmptyText(CashFlowPatterns[0]);
    FallbackChainAbsent(RevenuePatterns, "");
    FallbackChainAbsent(ProfitPatterns, "");
    FallbackChainAbsent(CashFlowPatterns, "");
  }

  lemma LinePhaseOfEmptyText()
    ensures LinePhase(EmptyMetrics, "") == Ok(EmptyMetrics)
  {
    SearchEmptyText(AssetsPattern);
    SearchEmptyText(LiabilitiesPattern);
    SearchEmptyText(EquityPattern);
    SearchEmptyText(MarginPattern);
  }

  /** From an empty text nothing is extracted or derived: every entry stays None. */
  lemma EmptyReport()
    ensures FinancialMetrics("") == Ok(EmptyMetrics)
  {
    TablePhaseOfEmptyText();
    FallbackPhaseOfEmptyText();
    LinePhaseOfEmptyText();
    assert Derive(EmptyMetrics) == EmptyMetrics;
  }
}
