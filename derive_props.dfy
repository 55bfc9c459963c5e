/** What the derivation blocks of `extract_financial_metrics` compute, field
    by field, and why running the debt-ratio block twice is harmless. */
module DeriveProperties {
  import opened Wrappers
  import opened Numbers
  import opened Metrics

  /** The liabilities the ratios see: the extracted value when it is
      truthy, otherwise assets minus net assets when both are truthy. */
  function LiabilitiesUsed(m: MetricSet): Option<real> {
    DeriveLiabilities(m).totalLiabilities
  }

  /** An extracted liabilities value is never overwritten, and one is
      derived exactly when both operands are present and non-zero and none
      was extracted. */
  lemma LiabilitiesDerivedOnlyWhenMissing(m: MetricSet)
    ensures Truthy(m.totalLiabilities) ==> Derive(m).totalLiabilities == m.totalLiabilities
    ensures Derive(m).totalLiabilities != m.totalLiabilities <==>
      Truthy(m.totalAssets) && Truthy(m.netAssets) && !Truthy(m.totalLiabilities) &&
      m.totalLiabilities != Some(Round2(m.totalAssets.value - m.netAssets.value))
    ensures Truthy(m.totalAssets) && Truthy(m.netAssets) && !Truthy(m.totalLiabilities) ==>
      Derive(m).totalLiabilities == Some(Round2(m.totalAssets.value - m.netAssets.value))
  {
  }

  /** Each ratio is its rounded percentage exactly when both its operands
      are present and non-zero, and otherwise keeps the value it had. */
  lemma RatiosWhenOperandsTruthy(m: MetricSet)
    ensures var l := LiabilitiesUsed(m);
      Derive(m).debtRatio ==
        if Truthy(m.totalAssets) && Truthy(l) then Some(Percent(l.value, m.totalAssets.value)) else m.debtRatio
    ensures Derive(m).roe ==
      if Truthy(m.netAssets) && Truthy(m.netProfit) then Some(Percent(m.netProfit.value, m.netAssets.value)) else m.roe
    ensures Derive(m).profitMargin ==
      if Truthy(m.revenue) && Truthy(m.netProfit) then Some(Percent(m.netProfit.value, m.revenue.value)) else m.profitMargin
  {
  }

  /** The derivations change no extracted amount other than liabilities. */
  lemma DeriveKeepsExtractedValues(m: MetricSet)
    ensures Derive(m).revenue == m.revenue && Derive(m).netProfit == m.netProfit
    ensures Derive(m).totalAssets == m.totalAssets && Derive(m).netAssets == m.netAssets
    ensures Derive(m).operatingCashFlow == m.operatingCashFlow && Derive(m).grossMargin == m.grossMargin
  {
  }

  /** A derived ratio is the exact percentage to within half a hundredth. */
  lemma DerivedRatiosApproximate(m: MetricSet)
    ensures var l := LiabilitiesUsed(m);
      Truthy(m.totalAssets) && Truthy(l) ==>
        -0.005 <= Derive(m).debtRatio.value - l.value / m.totalAssets.value * 100.0 <= 0.005
    ensures Truthy(m.netAssets) && Truthy(m.netProfit) ==>
      -0.005 <= Derive(m).roe.value - m.netProfit.value / m.netAssets.value * 100.0 <= 0.005
    ensures Truthy(m.revenue) && Truthy(m.netProfit) ==>
      -0.005 <= Derive(m).profitMargin.value - m.netProfit.value / m.revenue.value * 100.0 <= 0.005
  {
    RatiosWhenOperandsTruthy(m);
  }

  /** The repeated debt-ratio block recomputes the value it just stored. */
  lemma DebtRatioStepIdempotent(m: MetricSet)
    ensures DebtRatioStep(DebtRatioStep(m)) == DebtRatioStep(m)
  {
  }

  /** Deriving from an already derived record changes nothing. */
  lemma DeriveIdempotent(m: MetricSet)
    ensures Derive(Derive(m)) == Derive(m)
  {
    var d := Derive(m);
    var l := DeriveLiabilities(m);
    assert DeriveLiabilities(d) == d by {
      if Truthy(m.totalAssets) && Truthy(m.netAssets) && !Truthy(m.totalLiabilities) {
        assert d.totalLiabilities == l.totalLiabilities;
      }
    }
  }
}
