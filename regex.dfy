/** The regular expressions of the analyzer, each modelled as an explicit
    scanner with the semantics of Python's `re` module: `re.search` tries
    every start position, leftmost first, and at one start position the
    first successful path in backtracking order wins. `.` matches every
    character except '\n'; `[\s\S]` matches every character; greedy
    quantifiers try the longest repetition first, lazy ones the shortest. */
module Regex {
  import opened Text
  import opened Wrappers

  /** The character classes the patterns use. */
  datatype CharClass =
    | Digit          // \d
    | DigitComma     // [\d,]
    | DigitCommaDot  // [\d,\.]
    | DigitDot       // [\d\.]
    | Space          // \s

  predicate InClass(c: char, k: CharClass) {
    match k
    case Digit => IsDigit(c)
    case DigitComma => IsDigit(c) || c == ','
    case DigitCommaDot => IsDigit(c) || c == ',' || c == '.'
    case DigitDot => IsDigit(c) || c == '.'
    case Space => IsSpace(c)
  }

  /** `lit` occurs in `t` at position `i`. */
  predicate LitAt(t: string, i: nat, lit: string) {
    i + |lit| <= |t| && t[i..i + |lit|] == lit
  }

  /** No character of `t[i..j]` is a newline, so `.`* can consume it. */
  predicate NoNewline(t: string, i: nat, j: nat)
    requires i <= j <= |t|
  {
    forall m | i <= m < j :: t[m] != '\n'
  }

  /** Greedy `[k]*` starting at `i`: the end of the longest run of class `k`. */
  function RunEnd(t: string, i: nat, k: CharClass): (j: nat)
    requires i <= |t|
    ensures i <= j <= |t|
    ensures j == |t| || !InClass(t[j], k)
    decreases |t| - i
  {
    if i < |t| && InClass(t[i], k) then RunEnd(t, i + 1, k) else i
  }

  /** `t[i..j]` is what a greedy `[k]*` consumes from `i`: every character
      of it is in class `k`, and the character after it, if any, is not. */
  predicate IsRun(t: string, i: nat, j: nat, k: CharClass) {
    && i <= j <= |t|
    && (forall m | i <= m < j :: InClass(t[m], k))
    && (j == |t| || !InClass(t[j], k))
  }

  /** The greedy run is the one run of class `k` from `i`: `RunEnd` ends it,
      and no other end position does. */
  lemma {:induction false} RunEndInClass(t: string, i: nat, k: CharClass)
    requires i <= |t|
    ensures IsRun(t, i, RunEnd(t, i, k), k)
    ensures forall j | IsRun(t, i, j, k) :: j == RunEnd(t, i, k)
    decreases |t| - i
  {
    if i < |t| && InClass(t[i], k) {
      RunEndInClass(t, i + 1, k);
      forall j | IsRun(t, i, j, k) ensures j == RunEnd(t, i, k) {
        assert IsRun(t, i + 1, j, k);
      }
    }
  }

  /** `\s*([k]+)` from `b` captured `t[g..e]`: only whitespace lies between
      `b` and `g`, and the group is a non-empty, longest run of class `k`. */
  predicate SpacedGroup(t: string, b: nat, g: nat, e: nat, k: CharClass) {
    IsRun(t, b, g, Space) && g < e && IsRun(t, g, e, k)
  }

  /** Every character of `t[i..j]` is a digit, a comma or a dot. */
  predicate Numeric(t: string, i: nat, j: nat)
    requires i <= j <= |t|
  {
    forall m | i <= m < j :: InClass(t[m], DigitCommaDot)
  }

  /** Greedy `.*` starting at `i`: the position of the next newline, or the end. */
  function LineEnd(t: string, i: nat): (j: nat)
    requires i <= |t|
    ensures i <= j <= |t|
    ensures j == |t| || t[j] == '\n'
    decreases |t| - i
  {
    if i < |t| && t[i] != '\n' then LineEnd(t, i + 1) else i
  }

  /** `.*` stops at the first newline: none lies before the line end, and
      no position after it is reachable without crossing one. */
  lemma {:induction false} LineEndIsFirstNewline(t: string, i: nat)
    requires i <= |t|
    ensures NoNewline(t, i, LineEnd(t, i))
    ensures forall m | LineEnd(t, i) < m <= |t| :: !NoNewline(t, i, m)
    decreases |t| - i
  {
    if i < |t| && t[i] != '\n' {
      LineEndIsFirstNewline(t, i + 1);
    }
    var e := LineEnd(t, i);
    forall m | e < m <= |t| ensures !NoNewline(t, i, m) {
      assert t[e] == '\n';
    }
  }

  /** Lazy `.*?lit` starting at `i`: the position of the first occurrence of
      `lit` reached without crossing a newline. */
  function FirstLitOnLine(t: string, i: nat, lit: string): (r: Option<nat>)
    requires i <= |t|
    ensures r.Some? ==> i <= r.value <= |t| && LitAt(t, r.value, lit)
    decreases |t| - i
  {
    if LitAt(t, i, lit) then Some(i)
    else if i < |t| && t[i] != '\n' then FirstLitOnLine(t, i + 1, lit)
    else None
  }

  /** The lazy `.*?lit` finds the first occurrence of `lit` on the line and
      fails only when the line holds none. */
  lemma {:induction false} FirstLitOnLineIsFirst(t: string, i: nat, lit: string)
    requires i <= |t|
    ensures FirstLitOnLine(t, i, lit).Some? ==>
      var j := FirstLitOnLine(t, i, lit).value;
      NoNewline(t, i, j) && forall m | i <= m < j :: !LitAt(t, m, lit)
    ensures FirstLitOnLine(t, i, lit).None? ==>
      forall m | i <= m <= |t| && NoNewline(t, i, m) :: !LitAt(t, m, lit)
    decreases |t| - i
  {
    if !LitAt(t, i, lit) && i < |t| && t[i] != '\n' {
      FirstLitOnLineIsFirst(t, i + 1, lit);
      assert forall m | i < m <= |t| && NoNewline(t, i, m) :: NoNewline(t, i + 1, m);
    }
  }

  /** Backtracking of a greedy `.*` that stopped at `j`: the last position
      in `[i, j]` where `lit` occurs. */
  function LastLitBetween(t: string, i: nat, j: nat, lit: string): (r: Option<nat>)
    requires i <= j <= |t|
    ensures r.Some? ==> i <= r.value <= j && LitAt(t, r.value, lit)
    decreases j - i
  {
    if LitAt(t, j, lit) then Some(j)
    else if j == i then None
    else LastLitBetween(t, i, j - 1, lit)
  }

  lemma {:induction false} LastLitBetweenIsLast(t: string, i: nat, j: nat, lit: string)
    requires i <= j <= |t|
    ensures LastLitBetween(t, i, j, lit).Some? ==>
      forall m | LastLitBetween(t, i, j, lit).value < m <= j :: !LitAt(t, m, lit)
    ensures LastLitBetween(t, i, j, lit).None? ==> forall m | i <= m <= j :: !LitAt(t, m, lit)
    decreases j - i
  {
    if !LitAt(t, j, lit) && j > i {
      LastLitBetweenIsLast(t, i, j - 1, lit);
    }
  }

  /** Greedy `.*lit` starting at `i`: `.*` runs to the end of the line, then
      gives characters back until `lit` follows. */
  function LastLitOnLine(t: string, i: nat, lit: string): (r: Option<nat>)
    requires i <= |t|
    ensures r.Some? ==> i <= r.value <= |t| && LitAt(t, r.value, lit)
  {
    LastLitBetween(t, i, LineEnd(t, i), lit)
  }

  /** The greedy `.*lit` finds the last occurrence of `lit` on the line and
      fails only when the line holds none. */
  lemma LastLitOnLineIsLast(t: string, i: nat, lit: string)
    requires i <= |t|
    ensures LastLitOnLine(t, i, lit).Some? ==>
      var j := LastLitOnLine(t, i, lit).value;
      NoNewline(t, i, j) && forall m | j < m <= |t| && NoNewline(t, i, m) :: !LitAt(t, m, lit)
    ensures LastLitOnLine(t, i, lit).None? ==>
      forall m | i <= m <= |t| && NoNewline(t, i, m) :: !LitAt(t, m, lit)
  {
    LineEndIsFirstNewline(t, i);
    LastLitBetweenIsLast(t, i, LineEnd(t, i), lit);
  }

  /** A successful match: where it starts and ends, and the span of its
      first group (for a pattern without a group, the empty span at `end`). */
  datatype Match = Match(start: nat, end: nat, groupStart: nat, groupEnd: nat)

  /** The shapes of the analyzer's regular expressions. Each label is a
      literal; where the source pattern has a literal space after the label,
      that space is part of the label. */
  datatype Pattern =
    | UnitOnLine(anchor: string, unit: string)          // label.*unit
    | ColonAmount(anchor: string, unit: string)         // label[：:]\s*([\d,\.]+)\s*(?:unit|unit元)
    | SpacedNumber(anchor: string)                      // label\s*([\d,\.]+)
    | LazyNumber(anchor: string)                        // label.*?\s*([\d,\.]+)
    | UnitNextLine(anchor: string, unit: string)        // label.*?unit.*?\n\s*([\d,]+)
    | NextLine(anchor: string)                          // label.*?\n\s*([\d,]+)
    | GapPercent(anchor: string, least: nat, most: nat) // label[\s\S]{least,most}?([\d\.]+)\s*%
    | OptionalColon(anchor: string)                     // label[:：]?
    | Decimal                                          // ([\d,]+\.?\d*)
  {
    /** The literal the pattern starts with. */
    function Prefix(): string {
      if Decimal? then "" else anchor
    }

    /** The patterns whose first group holds a number. */
    predicate Captures() {
      !UnitOnLine? && !OptionalColon?
    }
  }

  /** Greedy `([k]+)` at `b`: the longest non-empty run of class `k` there.
      No backtracking into the run can help the patterns that use it: what
      follows the run in each of them starts with a character outside `k`. */
  function RunAt(t: string, s: nat, b: nat, k: CharClass): (r: Option<Match>)
    requires b <= |t|
    ensures r.Some? <==> b < |t| && InClass(t[b], k)
    ensures r.Some? ==> r.value == Match(s, RunEnd(t, b, k), b, RunEnd(t, b, k))
    ensures r.Some? ==> IsRun(t, b, r.value.groupEnd, k)
  {
    if b < |t| && InClass(t[b], k) then
      var q := RunEnd(t, b, k);
      RunEndInClass(t, b, k);
      Some(Match(s, q, b, q))
    else None
  }

  /** After `\s*` from `d`, a character of class `k` follows. */
  predicate RunAfterSpace(t: string, d: nat, k: CharClass)
    requires d <= |t|
  {
    var b := RunEnd(t, d, Space);
    b < |t| && InClass(t[b], k)
  }

  /** Where the lazy `.*?` of `.*?\s*([\d,\.]+)` stops when it starts at `c`:
      it takes one more character at a time, never a newline, until the
      rest of the pattern matches. */
  function LazyStop(t: string, c: nat): (r: Option<nat>)
    requires c <= |t|
    ensures r.Some? ==> c <= r.value <= |t| && RunAfterSpace(t, r.value, DigitCommaDot)
    decreases |t| - c
  {
    if RunAfterSpace(t, c, DigitCommaDot) then Some(c)
    else if c < |t| && t[c] != '\n' then LazyStop(t, c + 1)
    else None
  }

  /** The lazy `.*?` stops at the first position on the line from which a
      number follows after whitespace, and fails only when there is none. */
  lemma {:induction false} LazyStopIsFirst(t: string, c: nat)
    requires c <= |t|
    ensures LazyStop(t, c).Some? ==>
      var d := LazyStop(t, c).value;
      NoNewline(t, c, d) && forall e | c <= e < d :: !RunAfterSpace(t, e, DigitCommaDot)
    ensures LazyStop(t, c).None? ==>
      forall e | c <= e <= |t| && NoNewline(t, c, e) :: !RunAfterSpace(t, e, DigitCommaDot)
    decreases |t| - c
  {
    if !RunAfterSpace(t, c, DigitCommaDot) && c < |t| && t[c] != '\n' {
      LazyStopIsFirst(t, c + 1);
      assert forall e | c < e <= |t| && NoNewline(t, c, e) :: NoNewline(t, c + 1, e);
    }
  }

  /** What every match found at `s` after the literal prefix ending at `a`
      satisfies: it starts at `s`, and its group lies between `a` and its end. */
  predicate InBounds(t: string, s: nat, a: nat, m: Match) {
    && m.start == s
    && a <= m.groupStart <= m.groupEnd <= m.end <= |t|
  }

  /** `([\d\.]+)\s*%` at `c`: the group is the longest run of digits and
      dots there, and only whitespace lies between it and the `%` that ends
      the match. Giving back part of the run cannot help, since a digit or
      a dot is neither whitespace nor `%`. */
  function PercentAt(t: string, s: nat, c: nat): (r: Option<Match>)
    requires c <= |t|
    ensures r.Some? ==> InBounds(t, s, c, r.value) && r.value.groupStart == c
    ensures r.Some? ==> c < r.value.groupEnd && IsRun(t, c, r.value.groupEnd, DigitDot)
    ensures r.Some? ==> IsRun(t, r.value.groupEnd, r.value.end - 1, Space) && t[r.value.end - 1] == '%'
    ensures r.None? ==> forall g: nat, e: nat | c < g && IsRun(t, c, g, DigitDot) && IsRun(t, g, e, Space) :: e == |t| || t[e] != '%'
  {
    RunEndInClass(t, c, DigitDot);
    match RunAt(t, s, c, DigitDot)
    case None => None
    case Some(m) =>
      var e := RunEnd(t, m.groupEnd, Space);
      RunEndInClass(t, m.groupEnd, Space);
      if e < |t| && t[e] == '%' then Some(Match(s, e + 1, c, m.groupEnd)) else None
  }

  /** `[\s\S]{least,most}?([\d\.]+)\s*%` once `least` characters are
      consumed: the lazy repetition takes one more character at a time,
      up to position `last`. */
  function PercentFrom(t: string, s: nat, c: nat, last: nat): (r: Option<Match>)
    requires c <= |t| && c <= last
    ensures r.Some? ==> c <= r.value.groupStart <= last && r.value.groupStart <= |t|
    ensures r.Some? ==> PercentAt(t, s, r.value.groupStart) == r
    decreases |t| - c
  {
    var here := PercentAt(t, s, c);
    if here.Some? then here
    else if c < last && c < |t| then PercentFrom(t, s, c + 1, last)
    else None
  }

  /** Every position the lazy repetition steps over has no percentage. */
  lemma {:induction false} PercentFromSkipsMisses(t: string, s: nat, c: nat, last: nat)
    requires c <= |t| && c <= last
    ensures PercentFrom(t, s, c, last).Some? ==>
      forall d | c <= d < PercentFrom(t, s, c, last).value.groupStart :: PercentAt(t, s, d).None?
    decreases |t| - c
  {
    var r := PercentFrom(t, s, c, last);
    if PercentAt(t, s, c).None? && c < last && c < |t| {
      assert r == PercentFrom(t, s, c + 1, last);
      PercentFromSkipsMisses(t, s, c + 1, last);
    }
  }

  /** The lazy repetition fails only when no position in its bounds has a
      percentage. */
  lemma {:induction false} PercentFromFailsOnlyWithout(t: string, s: nat, c: nat, last: nat)
    requires c <= |t| && c <= last
    ensures PercentFrom(t, s, c, last).None? ==>
      forall d | c <= d <= last && d <= |t| :: PercentAt(t, s, d).None?
    decreases |t| - c
  {
    var r := PercentFrom(t, s, c, last);
    if PercentAt(t, s, c).None? && c < last && c < |t| {
      assert r == PercentFrom(t, s, c + 1, last);
      PercentFromFailsOnlyWithout(t, s, c + 1, last);
    }
  }

  /** The lazy repetition, whose result is `r`, stops at the first
      position within its bounds where a percentage follows, and fails
      only when there is none. */
  lemma PercentFromIsFirst(t: string, s: nat, c: nat, last: nat, r: Option<Match>)
    requires c <= |t| && c <= last && r == PercentFrom(t, s, c, last)
    ensures r.Some? ==> forall d | c <= d < r.value.groupStart :: PercentAt(t, s, d).None?
    ensures r.None? ==> forall d | c <= d <= last && d <= |t| :: PercentAt(t, s, d).None?
  {
    PercentFromSkipsMisses(t, s, c, last);
    PercentFromFailsOnlyWithout(t, s, c, last);
  }

  /** `label.*unit` after the label, which ends at `a`: the match ends just
      after the last `unit` on the label's line. */
  function MatchUnitOnLine(t: string, s: nat, a: nat, unit: string): (r: Option<Match>)
    requires a <= |t|
    ensures r.Some? ==> InBounds(t, s, a, r.value) && r.value.groupStart == r.value.end
    ensures r.Some? ==>
      var j := r.value.end - |unit|;
      && a <= j && LitAt(t, j, unit) && NoNewline(t, a, j)
      && forall m | j < m <= |t| && NoNewline(t, a, m) :: !LitAt(t, m, unit)
    ensures r.None? ==> forall m | a <= m <= |t| && NoNewline(t, a, m) :: !LitAt(t, m, unit)
  {
    LastLitOnLineIsLast(t, a, unit);
    match LastLitOnLine(t, a, unit)
    case None => None
    case Some(j) => Some(Match(s, j + |unit|, j + |unit|, j + |unit|))
  }

  /** `[：:]\s*([\d,\.]+)` at `a` captured `t[g..e]`. */
  predicate ColonGroup(t: string, a: nat, g: nat, e: nat) {
    a < |t| && (t[a] == '：' || t[a] == ':') && SpacedGroup(t, a + 1, g, e, DigitCommaDot)
  }

  /** `label[：:]\s*([\d,\.]+)\s*(?:unit|unit元)` after the label, which ends
      at `a`. The alternation tries `unit` first, and its second branch
      cannot match where the first does not. */
  function MatchColonAmount(t: string, s: nat, a: nat, unit: string): (r: Option<Match>)
    requires a <= |t|
    ensures r.Some? ==> InBounds(t, s, a, r.value) && a < |t| && (t[a] == '：' || t[a] == ':')
    ensures r.Some? ==> SpacedGroup(t, a + 1, r.value.groupStart, r.value.groupEnd, DigitCommaDot)
    ensures r.Some? ==>
      var u := r.value.end - |unit|;
      r.value.groupEnd <= u && IsRun(t, r.value.groupEnd, u, Space) && LitAt(t, u, unit)
    ensures r.None? ==>
      forall g: nat, e: nat | ColonGroup(t, a, g, e) :: forall u: nat | IsRun(t, e, u, Space) :: !LitAt(t, u, unit)
  {
    if a < |t| && (t[a] == '：' || t[a] == ':') then
      RunEndInClass(t, a + 1, Space);
      var b := RunEnd(t, a + 1, Space);
      RunEndInClass(t, b, DigitCommaDot);
      ColonGroupsAreGreedy(t, a);
      match RunAt(t, s, b, DigitCommaDot)
      case None => None
      case Some(m) =>
        var e := RunEnd(t, m.groupEnd, Space);
        RunEndInClass(t, m.groupEnd, Space);
        if LitAt(t, e, unit) then Some(Match(s, e + |unit|, m.groupStart, m.groupEnd)) else None
    else None
  }

  /** The only group after a colon is the greedy one. */
  lemma ColonGroupsAreGreedy(t: string, a: nat)
    requires a < |t|
    ensures forall g: nat, e: nat | ColonGroup(t, a, g, e) ::
      g == RunEnd(t, a + 1, Space) && e == RunEnd(t, g, DigitCommaDot)
  {
    RunEndInClass(t, a + 1, Space);
    forall g: nat, e: nat | ColonGroup(t, a, g, e)
      ensures g == RunEnd(t, a + 1, Space) && e == RunEnd(t, g, DigitCommaDot)
    {
      RunEndInClass(t, g, DigitCommaDot);
    }
  }

  /** What `.*?\n\s*([\d,]+)` from `c` gives: a match exactly when the line
      ends in a newline and, after whitespace, a digit or a comma opens the
      next line; its group then starts after that first newline and is the
      run of digits and commas there. */
  predicate NextLineGroup(t: string, c: nat, r: Option<Match>)
    requires c <= |t|
  {
    var n := LineEnd(t, c);
    && (r.Some? <==> n < |t| && RunAfterSpace(t, n + 1, DigitComma))
    && (r.Some? ==>
          && n < |t| && t[n] == '\n' && NoNewline(t, c, n)
          && SpacedGroup(t, n + 1, r.value.groupStart, r.value.groupEnd, DigitComma)
          && r.value.groupEnd == r.value.end)
  }

  /** `.*?\n\s*([\d,]+)` from `c`. The lazy `.*?` cannot cross a newline,
      so the only newline it can reach is the one ending the line. */
  function AfterNewline(t: string, s: nat, c: nat): (r: Option<Match>)
    requires c <= |t|
    ensures r.Some? ==> r.value.start == s && c < r.value.groupStart <= r.value.groupEnd == r.value.end <= |t|
    ensures NextLineGroup(t, c, r)
  {
    var n := LineEnd(t, c);
    LineEndIsFirstNewline(t, c);
    if n < |t| then
      RunEndInClass(t, n + 1, Space);
      RunAt(t, s, RunEnd(t, n + 1, Space), DigitComma)
    else None
  }

  /** `label.*?unit.*?\n\s*([\d,]+)` after the label, which ends at `a`.
      Every occurrence of `unit` on the label's line leads to the same
      newline, so backtracking to a later occurrence cannot change the
      outcome. */
  function MatchUnitNextLine(t: string, s: nat, a: nat, unit: string): (r: Option<Match>)
    requires a <= |t|
    ensures r.Some? ==> InBounds(t, s, a, r.value)
    ensures FirstLitOnLine(t, a, unit).None? ==> r.None?
    ensures FirstLitOnLine(t, a, unit).Some? ==>
      NextLineGroup(t, FirstLitOnLine(t, a, unit).value + |unit|, r)
  {
    match FirstLitOnLine(t, a, unit)
    case None => None
    case Some(j) => AfterNewline(t, s, j + |unit|)
  }

  /** `label.*?\n\s*([\d,]+)` after the label, which ends at `a`. */
  function MatchNextLine(t: string, s: nat, a: nat): (r: Option<Match>)
    requires a <= |t|
    ensures r.Some? ==> InBounds(t, s, a, r.value)
    ensures NextLineGroup(t, a, r)
  {
    AfterNewline(t, s, a)
  }

  /** `label[\s\S]{least,most}?([\d\.]+)\s*%` after the label, which ends at
      `a`. Python refuses to compile a repetition whose minimum exceeds its
      maximum; such a pattern matches nothing here. */
  function MatchGapPercent(t: string, s: nat, a: nat, least: nat, most: nat): (r: Option<Match>)
    requires a <= |t|
    ensures r.Some? ==> InBounds(t, s, a, r.value) && a + least <= r.value.groupStart <= a + most
    ensures r.Some? ==> PercentAt(t, s, r.value.groupStart) == r
    ensures r.Some? ==> r.value.groupStart < r.value.groupEnd && IsRun(t, r.value.groupStart, r.value.groupEnd, DigitDot)
  {
    if a + least <= |t| && least <= most then PercentFrom(t, s, a + least, a + most) else None
  }

  /** The lazy `[\s\S]{least,most}?` takes the first percentage at or after
      `least` characters past the label; the pattern fails only when no
      position from `least` to `most` characters past it starts one. */
  lemma GapPercentIsFirst(t: string, s: nat, a: nat, least: nat, most: nat)
    requires a <= |t|
    ensures MatchGapPercent(t, s, a, least, most).Some? ==>
      forall d | a + least <= d < MatchGapPercent(t, s, a, least, most).value.groupStart :: PercentAt(t, s, d).None?
    ensures MatchGapPercent(t, s, a, least, most).None? && least <= most ==>
      forall d | a + least <= d <= a + most && d <= |t| :: PercentAt(t, s, d).None?
  {
    if a + least <= |t| && least <= most {
      PercentFromIsFirst(t, s, a + least, a + most, MatchGapPercent(t, s, a, least, most));
    }
  }

  /** `label[:：]?` after the label, which ends at `a`: one colon, half- or
      full-width, is consumed when present. */
  function MatchOptionalColon(t: string, s: nat, a: nat): (r: Option<Match>)
    requires a <= |t|
    ensures r.Some? && InBounds(t, s, a, r.value) && r.value.groupStart == r.value.end
    ensures r.value.end == if a < |t| && (t[a] == ':' || t[a] == '：') then a + 1 else a
  {
    if a < |t| && (t[a] == ':' || t[a] == '：') then Some(Match(s, a + 1, a + 1, a + 1))
    else Some(Match(s, a, a, a))
  }

  /** `([\d,]+\.?\d*)` at `s`: the optional parts always succeed, so the
      greedy run of digits and commas is never given back. The group is
      that run, then, when a dot follows it, the dot and the digits after. */
  function MatchDecimal(t: string, s: nat): (r: Option<Match>)
    requires s <= |t|
    ensures r.Some? <==> s < |t| && InClass(t[s], DigitComma)
    ensures r.Some? ==> InBounds(t, s, s, r.value) && r.value.groupStart == s < r.value.groupEnd == r.value.end
    ensures r.Some? ==>
      var q := RunEnd(t, s, DigitComma);
      && IsRun(t, s, q, DigitComma)
      && (if q < |t| && t[q] == '.' then IsRun(t, q + 1, r.value.end, Digit) else r.value.end == q)
    ensures r.Some? ==> Numeric(t, r.value.groupStart, r.value.groupEnd)
  {
    RunEndInClass(t, s, DigitComma);
    match RunAt(t, s, s, DigitComma)
    case None => None
    case Some(m) =>
      if m.groupEnd < |t| && t[m.groupEnd] == '.' then
        var e := RunEnd(t, m.groupEnd + 1, Digit);
        RunEndInClass(t, m.groupEnd + 1, Digit);
        Some(Match(s, e, s, e))
      else Some(Match(s, m.groupEnd, s, m.groupEnd))
  }

  /** The match of `p` starting exactly at position `s`, if any. */
  function MatchAt(p: Pattern, t: string, s: nat): (r: Option<Match>)
    requires s <= |t|
    ensures r.Some? ==> LitAt(t, s, p.Prefix()) && InBounds(t, s, s + |p.Prefix()|, r.value)
    ensures r.Some? && p.Captures() ==> r.value.groupStart < r.value.groupEnd
    ensures r.Some? && p.Captures() ==> Numeric(t, r.value.groupStart, r.value.groupEnd)
  {
    if !LitAt(t, s, p.Prefix()) then None
    else
      var a := s + |p.Prefix()|;
      match p
      case UnitOnLine(_, unit) => MatchUnitOnLine(t, s, a, unit)
      case ColonAmount(_, unit) => MatchColonAmount(t, s, a, unit)
      case SpacedNumber(_) => RunAt(t, s, RunEnd(t, a, Space), DigitCommaDot)
      case LazyNumber(_) =>
        (match LazyStop(t, a)
         case None => None
         case Some(d) => RunAt(t, s, RunEnd(t, d, Space), DigitCommaDot))
      case UnitNextLine(_, unit) => MatchUnitNextLine(t, s, a, unit)
      case NextLine(_) => MatchNextLine(t, s, a)
      case GapPercent(_, least, most) => MatchGapPercent(t, s, a, least, most)
      case OptionalColon(_) => MatchOptionalColon(t, s, a)
      case Decimal => MatchDecimal(t, s)
  }

  /** The index of the first `Some` in `ms` from index `s` on. */
  function FirstFound<T>(ms: seq<Option<T>>, s: nat): (r: Option<nat>)
    requires s <= |ms|
    ensures r.Some? ==> s <= r.value < |ms| && ms[r.value].Some?
    decreases |ms| - s
  {
    if s == |ms| then None
    else if ms[s].Some? then Some(s)
    else FirstFound(ms, s + 1)
  }

  lemma {:induction false} FirstFoundIsFirst<T>(ms: seq<Option<T>>, s: nat)
    requires s <= |ms|
    ensures FirstFound(ms, s).Some? ==> forall i | s <= i < FirstFound(ms, s).value :: ms[i].None?
    ensures FirstFound(ms, s).None? ==> forall i | s <= i < |ms| :: ms[i].None?
    decreases |ms| - s
  {
    if s < |ms| && ms[s].None? {
      FirstFoundIsFirst(ms, s + 1);
    }
  }

  /** What `p` matches at each start position `0 .. |t|`. */
  function Attempts(p: Pattern, t: string): (ms: seq<Option<Match>>)
    ensures |ms| == |t| + 1
    ensures forall i | 0 <= i <= |t| :: ms[i] == MatchAt(p, t, i)
  {
    seq(|t| + 1, i requires 0 <= i <= |t| => MatchAt(p, t, i))
  }

  /** `re.search(p, t)`: the attempts are made at the start positions in
      increasing order, and the first one that succeeds is the result. */
  function Search(p: Pattern, t: string): (r: Option<Match>)
    ensures r.Some? ==> r.value.start <= r.value.groupStart <= r.value.groupEnd <= r.value.end <= |t|
    ensures r.Some? && p.Captures() ==> Numeric(t, r.value.groupStart, r.value.groupEnd)
  {
    var ms := Attempts(p, t);
    match FirstFound(ms, 0)
    case None => None
    case Some(i) => assert ms[i] == MatchAt(p, t, i); ms[i]
  }

  /** `re.search` returns the match at the leftmost position where the
      pattern matches, and nothing only when it matches nowhere. */
  lemma SearchLeftmost(p: Pattern, t: string)
    ensures Search(p, t).Some? ==> MatchAt(p, t, Search(p, t).value.start) == Search(p, t)
    ensures Search(p, t).Some? ==> forall i | 0 <= i < Search(p, t).value.start :: MatchAt(p, t, i).None?
    ensures Search(p, t).None? ==> forall i | 0 <= i <= |t| :: MatchAt(p, t, i).None?
  {
    var ms := Attempts(p, t);
    FirstFoundIsFirst(ms, 0);
    assert forall i | 0 <= i <= |t| :: ms[i] == MatchAt(p, t, i);
  }

  /** A pattern that starts with a non-empty literal matches nothing in the
      empty text. */
  lemma SearchEmptyText(p: Pattern)
    requires p.Prefix() != ""
    ensures Search(p, "").None?
  {
    assert Attempts(p, "") == [MatchAt(p, "", 0)];
  }

  /** The text of the first group of a match. */
  function Group(t: string, m: Match): (g: string)
    requires m.groupStart <= m.groupEnd <= |t|
  {
    t[m.groupStart..m.groupEnd]
  }
}
