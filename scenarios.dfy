/** Worked examples on concrete report fragments. */
module Scenarios {
  import opened Wrappers
  import opened Text
  import opened Regex
  import opened Numbers
  import opened Metrics

  lemma FiveDigits(d: string)
    requires d == "12345"
    ensures AllDigits(d) && DigitsValue(d) == 12345
  {
    assert DigitsValue(d[..1]) == 1;
    assert DigitsValue(d[..2]) == 12 by { assert d[..2][..1] == d[..1]; }
    assert DigitsValue(d[..3]) == 123 by { assert d[..3][..2] == d[..2]; }
    assert DigitsValue(d[..4]) == 1234 by { assert d[..4][..3] == d[..3]; }
    assert d[..5] == d;
  }

  lemma ThousandsSeparatorRemoved(s: string)
    requires s == "12,345"
    ensures RemoveCommas(s) == "12345"
  {
    assert RemoveCommas(s[3..]) == "345" by {
      var u := s[3..];
      assert RemoveCommas(u[2..]) == "5";
      assert RemoveCommas(u[1..]) == "45" by { assert u[1..][1..] == u[2..]; }
    }
    assert RemoveCommas(s[1..]) == "2345" by {
      assert s[1..][1..] == s[2..] && s[2..][1..] == s[3..];
    }
  }

  /** `float("12,345".replace(',', ''))`. */
  lemma ThousandsSeparatedValue(s: string)
    requires s == "12,345"
    ensures ParseFloat(RemoveCommas(s)) == Some(12345.0)
  {
    ThousandsSeparatorRemoved(s);
    FiveDigits(RemoveCommas(s));
    ParseDigits(RemoveCommas(s));
  }

  /** The table label matches up to the end of "千元". */
  lemma RevenueLabelMatch(t: string)
    requires t == "营业收入（千元）\n12,345"
    ensures Search(RevenueTable, t) == Some(Match(0, 7, 7, 7))
  {
    assert LitAt(t, 0, "营业收入");
    assert LineEnd(t, 8) == 8;
    assert LineEnd(t, 7) == 8;
    assert LineEnd(t, 6) == 8;
    assert LineEnd(t, 5) == 8;
    assert LineEnd(t, 4) == 8;
    assert LitAt(t, 5, "千元");
    assert LastLitBetween(t, 4, 8, "千元") == Some(5);
    assert MatchAt(RevenueTable, t, 0) == Some(Match(0, 7, 7, 7));
    assert Attempts(RevenueTable, t)[0] == Some(Match(0, 7, 7, 7));
  }

  lemma WindowAfterLabel(t: string)
    requires t == "营业收入（千元）\n12,345"
    ensures Window(t, 7, TableWindow) == "）\n12,345"
  {
  }

  /** The first number after the label, skipping the bracket and the newline. */
  lemma FirstNumberInWindow(w: string)
    requires w == "）\n12,345"
    ensures Search(Decimal, w) == Some(Match(2, 8, 2, 8))
    ensures Group(w, Match(2, 8, 2, 8)) == "12,345"
  {
    assert RunEnd(w, 2, DigitComma) == 8;
    var ms := Attempts(Decimal, w);
    assert ms[0].None? && ms[1].None? && ms[2] == Some(Match(2, 8, 2, 8));
    assert FirstFound(ms, 2) == Some(2);
    assert FirstFound(ms, 1) == Some(2);
  }

  /** A revenue table row in thousand yuan: "12,345" on the next line
      becomes 1.2345 hundred million yuan. */
  lemma RevenueTableRow()
    ensures TableValue(RevenueTable, "营业收入（千元）\n12,345", ThousandToHundredMillion) == Ok(Some(1.2345))
  {
    var t := "营业收入（千元）\n12,345";
    RevenueLabelMatch(t);
    WindowAfterLabel(t);
    FirstNumberInWindow(Window(t, 7, TableWindow));
    ThousandsSeparatedValue("12,345");
  }

  /** A token with two dots is captured by `[\d,\.]+`, and `float` raises
      on it: the extraction stops with `ValueError` instead of skipping it. */
  lemma TwoDotsRaise(t: string)
    requires t == "营业收入 1.2.3"
    ensures GroupValue(RevenuePatterns[2], t) == Err(ValueError)
  {
    assert LitAt(t, 0, "营业收入");
    assert RunEnd(t, 5, Space) == 5;
    assert RunEnd(t, 4, Space) == 5;
    assert RunEnd(t, 10, DigitCommaDot) == 10;
    assert RunEnd(t, 9, DigitCommaDot) == 10;
    assert RunEnd(t, 8, DigitCommaDot) == 10;
    assert RunEnd(t, 7, DigitCommaDot) == 10;
    assert RunEnd(t, 6, DigitCommaDot) == 10;
    assert RunEnd(t, 5, DigitCommaDot) == 10;
    assert MatchAt(RevenuePatterns[2], t, 0) == Some(Match(0, 10, 5, 10));
    assert Attempts(RevenuePatterns[2], t)[0] == Some(Match(0, 10, 5, 10));
    var g := Group(t, Match(0, 10, 5, 10));
    assert g == "1.2.3";
    RemoveCommasKeepsTheRest(g);
    assert DotIndex(g) == 1 by { assert DotIndex(g[1..]) == 0; }
    assert FractionPart(g) == "2.3";
    assert !AllDigits("2.3") by { assert "2.3"[1] == '.'; }
  }

  /** `float("12.50")`: the whole part plus fifty hundredths. */
  lemma TwelveFifty(s: string)
    requires s == "12.50"
    ensures ParseFloat(s) == Some(12.5)
  {
    var w, f := "12", "50";
    assert s == w + "." + f;
    TwoDigits(w, 12);
    TwoDigits(f, 50);
    ParseDecimal(w, f, 12, 50, 100);
  }

  lemma TwoDigits(s: string, n: nat)
    requires (s == "12" && n == 12) || (s == "50" && n == 50)
    ensures AllDigits(s) && DigitsValue(s) == n && Pow10(|s|) == 100
  {
    assert DigitsValue(s[..1]) == s[0] as int - '0' as int;
  }

  /** Revenue written with a decimal point after the label and a space. */
  lemma FractionalRevenue(t: string)
    requires t == "营业收入 12.50"
    ensures GroupValue(RevenuePatterns[2], t) == Ok(Some(12.5))
  {
    assert LitAt(t, 0, "营业收入");
    assert RunEnd(t, 5, Space) == 5;
    assert RunEnd(t, 4, Space) == 5;
    assert RunEnd(t, 10, DigitCommaDot) == 10;
    assert RunEnd(t, 9, DigitCommaDot) == 10;
    assert RunEnd(t, 8, DigitCommaDot) == 10;
    assert RunEnd(t, 7, DigitCommaDot) == 10;
    assert RunEnd(t, 6, DigitCommaDot) == 10;
    assert RunEnd(t, 5, DigitCommaDot) == 10;
    assert MatchAt(RevenuePatterns[2], t, 0) == Some(Match(0, 10, 5, 10));
    assert Attempts(RevenuePatterns[2], t)[0] == Some(Match(0, 10, 5, 10));
    var g := Group(t, Match(0, 10, 5, 10));
    assert g == "12.50";
    RemoveCommasKeepsTheRest(g);
    TwelveFifty(g);
  }

  /** A loss written on the line after the net-assets label: `\s*([\d,]+)`
      cannot step over the minus sign, so the pattern matches nothing and
      the entry is left unset rather than read as a positive amount. */
  lemma SignStopsNetAssets(t: string)
    requires t == "归属于上市公司股东的净资产\n-1"
    ensures Search(EquityPattern, t).None?
  {
    forall i | 0 <= i <= |t| ensures MatchAt(EquityPattern, t, i).None? {
      if i == 0 {
        SignAfterLabel(t);
      } else {
        NoLabelAfterStart(t, i);
      }
    }
    SearchLeftmost(EquityPattern, t);
  }

  /** The label occurs only at the start of the text. */
  lemma NoLabelAfterStart(t: string, i: nat)
    requires t == "归属于上市公司股东的净资产\n-1"
    requires 1 <= i <= |t|
    ensures !LitAt(t, i, EquityPattern.anchor)
  {
    if i <= 3 {
      assert t[i] != EquityPattern.anchor[0];
    }
  }

  /** At the label itself: the next line opens with '-', not a digit or a comma. */
  lemma SignAfterLabel(t: string)
    requires t == "归属于上市公司股东的净资产\n-1"
    ensures MatchAt(EquityPattern, t, 0).None?
  {
    assert LineEnd(t, 13) == 13;
    assert RunEnd(t, 14, Space) == 14;
    assert !RunAfterSpace(t, 14, DigitComma);
  }
}
