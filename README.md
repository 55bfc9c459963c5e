# Annual-report metric extraction and upload filter, in Dafny

This project models the text-scanning core of a financial-report analyzer. The analyzer is a Flask web application that takes an uploaded annual report (PDF) and turns its text into metrics and a management-discussion excerpt. The model covers three pieces:

- **`FinanceAnalyzer.extract_financial_metrics`** (`metrics.dfy`). It fills a record of ten optional numbers from the report text, in three phases.
  - **Table values.** Revenue, net profit and operating cash flow are read through the nested `extract_table_value`. It finds a label with "千元" later on the same line, then takes the first number in the next 200 characters and multiplies it by 0.0001.
  - **Fallback chains.** These run only when the table value is absent or zero. Their patterns are tried in order, and the first one that matches commits. A value above 10000 is multiplied by 0.0001.
  - **Next-line values.** Assets, liabilities and net assets are each read as the first `[\d,]` run after the label line's newline and any whitespace. The gross margin is the first percentage found 50 to 500 characters after its label.
  - **Derivations.** Liabilities are derived as assets minus net assets when none was extracted. Then come the debt ratio (that block is written twice in the source), the return on equity and the profit margin.
  - **Form of the model.** The function as written is modelled by the method `ExtractFinancialMetrics`. Its phase methods update the record step by step. The fallback loops are one method, `FirstFallback`, with a `while` loop. Each method is proved equal to a specification function: `TablePhase`, `FallbackPhase`, `LinePhase`, `Derive` and `FinancialMetrics`. The properties are proved about those functions.
- **`FinanceAnalyzer.extract_mda_section`** (`mda.dfy`). It looks for five headings in priority order, each optionally followed by a colon. After the first heading found it returns the stripped 5000 characters that follow. Without a heading it returns the first 10000 characters, unstripped. The loop with its early return is modelled by the method `ExtractMdaSection`, proved equal to `MdaSection`.
- **`allowed_file`** (`upload.dfy`). The text after the last dot, lower-cased, must be in `{'pdf'}`.

The supporting modules:
- `regex.dfy` gives every regular expression of the core as an explicit scanner with Python `re` semantics:
  - `re.search` tries every start position, leftmost first;
  - `.` does not cross a newline, while `[\s\S]` does;
  - greedy quantifiers take the longest run and give characters back, and lazy ones take the shortest;
  - at each position the first path in backtracking order wins.
- `text.dfy` models `str.strip`, `str.lower`, Python slice clamping and the whitespace set.
- `numbers.dfy` models comma removal, `float` on the captured tokens, `round(x, 2)` and the truthiness of an optional number.
- `wrappers.dfy` has the `Option` and `Result` types.
- The property lemmas are in `primary_props.dfy` and `derive_props.dfy`.
- Worked examples are in `scenarios.dfy`.

The pattern constants, in `metrics.dfy`, are definitions and not table rows. Each is written with the pattern builders of `regex.dfy`:
- `RevenueTable`, `NetProfitTable` and `CashFlowTable` come from analyzer.py:82-84, with the multiplier `ThousandToHundredMillion` given there.
- `TableWindow` (200 characters) comes from analyzer.py:73, and `LargeValueThreshold` (10000) from analyzer.py:98.
- `RevenuePatterns` comes from analyzer.py:89-91, `ProfitPatterns` from 104-106, and `CashFlowPatterns` from 119-121.
- `AssetsPattern`, `LiabilitiesPattern` and `EquityPattern` come from analyzer.py:135-145.
- `MarginPattern` comes from analyzer.py:151.
- `Mda.MdaKeywords`, `SectionLength` and `FallbackLength` come from analyzer.py:195-214.
- `Upload.AllowedExtensions` comes from app.py:20.

Numbers are exact reals. `round(x, 2)` rounds half to even, to the nearest hundredth. "Truthy" means present and non-zero, because the source tests `if not metrics[...]` and `if a and b`, so 0.0 counts as absent.

Two behaviours of the code that a reader might not expect:
- **Malformed numbers raise.** The code calls `float()` unguarded, so a captured token such as "1.2.3" (from `[\d,\.]+`) or "," (from `[\d,]+`) raises `ValueError` out of `extract_financial_metrics`. The model returns `Err(ValueError)` and stops there. `Scenarios.TwoDotsRaise` shows one such input.
- **No pattern captures a sign.** What a minus sign does depends on what may precede the number:
  - The 200-character window after a table label and the lazy gaps of the cash-flow and gross-margin patterns can step over it. There a loss written "-1,234" is read as 1234, and `ExtractionProperties.PrimaryMetricsShape` proves that every extracted number is non-negative.
  - The colon and `\s*` fallbacks and the three next-line patterns allow only whitespace before the number. There the sign stops the match at that occurrence of the label. `Scenarios.SignStopsNetAssets` shows that "归属于上市公司股东的净资产" followed by "-1" on the next line yields no net-assets value.

## Model

| member | source | states |
|---|---|---|
| Text.IsSpace | analyzer.py:120 | what `\s` matches and `strip()` removes: the characters for which `str.isspace` holds (a definition, the basis of the rows below) |
| Text.LeadingSpace | analyzer.py:211 | the count of leading whitespace: all of it whitespace, the next character not |
| Text.TrailingSpaceStart | analyzer.py:211 | where the trailing whitespace begins: all of it whitespace, the character before it not |
| Text.Strip | analyzer.py:211 | `str.strip()` removes only whitespace, from both ends; the result starts and ends with no whitespace; it is empty only for all-whitespace input |
| Text.StripIdempotent | analyzer.py:211 | stripping twice is stripping once |
| Text.Lower | app.py:32 | `lower()` keeps the length and lower-cases every character |
| Text.Window | analyzer.py:73 | `t[i:i+n]` clamps its end: length `min(n, len(t)-i)`, and it is the slice of `t` at `i` |
| Regex.RunEnd | analyzer.py:75 | a greedy class run ends at the end of the text or at the first character outside the class |
| Regex.RunEndInClass | analyzer.py:75 | the greedy run is a run: every character it consumes is in its class, the next one is not, and no other end position has both properties |
| Regex.LineEnd | analyzer.py:82-84 | greedy `.*` stops at the end of the text or at a newline |
| Regex.LineEndIsFirstNewline | analyzer.py:82-84 | `.*` consumes no newline, and no later position is reachable without crossing one |
| Regex.FirstLitOnLine | analyzer.py:135-140 | lazy `.*?lit` stops at an occurrence of `lit`, at or after the start |
| Regex.FirstLitOnLineIsFirst | analyzer.py:135-140 | it is the first occurrence on the line, and it fails only when the line has none |
| Regex.LastLitBetween | analyzer.py:82-84 | backtracking from the line end finds an occurrence within the bounds |
| Regex.LastLitBetweenIsLast | analyzer.py:82-84 | it is the last occurrence within the bounds, and it fails only when there is none |
| Regex.LastLitOnLine | analyzer.py:82-84 | greedy `.*unit` ends on an occurrence of `unit` after the label |
| Regex.LastLitOnLineIsLast | analyzer.py:82-84 | greedy `.*unit` picks the last `unit` on the label's line, and fails only when the line has none |
| Regex.RunAt | analyzer.py:89-91 | `([k]+)` matches exactly when a class character is there, and its group is the longest run |
| Regex.LazyStop | analyzer.py:120 | lazy `.*?` stops where whitespace and then a number follow |
| Regex.LazyStopIsFirst | analyzer.py:120 | it is the first such position on the line, and it fails only when there is none |
| Regex.PercentAt | analyzer.py:151 | `([\d\.]+)\s*%`: the group is the longest non-empty run of digits and dots, only whitespace lies between it and the `%` that ends the match, and no split of the text into such a run and whitespace is followed by `%` when it fails |
| Regex.PercentFrom | analyzer.py:151 | the lazy gap stops inside its bounds, at a position where a percentage matches |
| Regex.PercentFromSkipsMisses | analyzer.py:151 | no position the lazy gap steps over starts a percentage |
| Regex.PercentFromFailsOnlyWithout | analyzer.py:151 | the lazy gap fails only when no position within its bounds starts a percentage |
| Regex.PercentFromIsFirst | analyzer.py:151 | both directions together: the gap is the shortest that works, and it fails only when no allowed gap works |
| Regex.MatchUnitOnLine | analyzer.py:82-84 | `label.*千元` ends right after the last unit on the label's line, where the 200-character window starts; it fails only when the line has no unit |
| Regex.ColonGroupsAreGreedy | analyzer.py:89-90 | after the colon, the whitespace and the `[\d,\.]` group can end only where the greedy runs end |
| Regex.MatchColonAmount | analyzer.py:89-90 | a colon follows the label, then whitespace, then the group as the longest run of digits, commas and dots, then whitespace and the unit, where the match ends; it fails only when that shape is absent, that is, no colon-and-group is followed by whitespace and the unit |
| Regex.AfterNewline | analyzer.py:135-145 | `.*?\n\s*([\d,]+)` matches exactly when the line ends in a newline and a digit or comma opens the next line after whitespace; the group starts after that first newline and is the run of digits and commas |
| Regex.MatchUnitNextLine | analyzer.py:135-142 | no match without the unit on the label's line; otherwise the group is the `[\d,]` run opening the line after the first unit, in both directions |
| Regex.MatchNextLine | analyzer.py:145 | the group is the `[\d,]` run opening the line after the label's line, after whitespace, and there is a match exactly when such a run is there |
| Regex.MatchGapPercent | analyzer.py:151 | the group starts 50 to 500 characters after the label, is a longest run of digits and dots, and a percentage matches there |
| Regex.GapPercentIsFirst | analyzer.py:151 | the lazy gap takes the first position, from 50 to 500 characters after the label, where a percentage starts; the pattern fails only when no such position has one |
| Regex.MatchOptionalColon | analyzer.py:205 | `keyword[:：]?` always matches once the keyword is there, consuming one colon that is present |
| Regex.MatchDecimal | analyzer.py:75 | `([\d,]+\.?\d*)` matches exactly at a digit or comma; the group is the whole match: the longest run of digits and commas, then, when a dot follows it, the dot and the digit run after it |
| Regex.MatchAt | analyzer.py:69-206 | a match at `s` begins with the pattern's literal label; its group lies after the label; a capturing pattern's group is non-empty and made of digits, commas and dots |
| Regex.FirstFound | analyzer.py:69 | the index found holds a result |
| Regex.FirstFoundIsFirst | analyzer.py:69 | no earlier index holds one, and none at all when nothing is found |
| Regex.Attempts | analyzer.py:69 | entry `i` is the match attempted at position `i`, for every position from 0 to the length of the text |
| Regex.Search | analyzer.py:69 | a match's start, group and end are ordered and within the text, and a capturing pattern's group is made of digits, commas and dots |
| Regex.SearchLeftmost | analyzer.py:69 | `re.search` returns the match at the leftmost position where the pattern matches, and nothing only when it matches nowhere |
| Regex.Group | analyzer.py:77 | `match.group(1)`: the captured slice of the text (a definition; `Regex.Search` says what it holds for each capturing pattern) |
| Regex.SearchEmptyText | analyzer.py:82-151 | a pattern with a non-empty label matches nothing in the empty text |
| Numbers.RemoveCommas | analyzer.py:77 | `replace(',', '')` never lengthens the string |
| Numbers.RemoveCommasKeepsTheRest | analyzer.py:77 | exactly the non-comma characters remain; a comma-free string is unchanged |
| Numbers.RemoveCommasAppend | analyzer.py:77 | comma removal distributes over concatenation |
| Numbers.DigitValue | analyzer.py:78 | a digit character is worth less than 10 |
| Numbers.DigitsValue | analyzer.py:78 | the value of `n` digits is below `10^n` |
| Numbers.DigitsValueFront | analyzer.py:78 | the leading digit is worth its value times `10^(n-1)`, plus the value of the rest |
| Numbers.FractionValue | analyzer.py:78 | the digits after the point are worth between 0 and 1 |
| Numbers.FractionValueExact | analyzer.py:78 | the digits after the point are worth their integer value divided by `10^len` |
| Numbers.DotIndex | analyzer.py:78 | the first dot, or the length when there is none |
| Numbers.DecimalLiteralSplit | analyzer.py:78 | splitting at the first dot recognises exactly the strings with digits, at most one dot and at least one digit |
| Numbers.ParseFloat | analyzer.py:78 | a parsed token is non-negative (its exact value is given by `ParseDigits` and `ParseDecimal`) |
| Numbers.ParseFloatAcceptsDecimalLiterals | analyzer.py:78 | `float()` succeeds on such a token exactly when it is a decimal literal |
| Numbers.ParseDigits | analyzer.py:78 | a string of digits parses to its integer value |
| Numbers.ParseDecimal | analyzer.py:78 | `float(w + "." + f)` is exactly `w` plus `f` divided by `10^len(f)`, for digit strings not both empty |
| Numbers.Truthy | analyzer.py:87-181 | `if metrics[k]` and `if a and b`: present and non-zero (a definition; `ExtractionProperties.OrFallbackPrecedence` and `DeriveProperties.RatiosWhenOperandsTruthy` use it) |
| Numbers.RoundHalfEven | analyzer.py:157 | the nearest integer, with ties going to the even one |
| Numbers.Round2 | analyzer.py:157 | `round(x, 2)` is a whole number of hundredths, within 0.005 of `x` |
| Numbers.Round2Idempotent | analyzer.py:157-163 | rounding a rounded value changes nothing |
| Metrics.MetricSet.AsDict | analyzer.py:53-64 | the returned dictionary has exactly the ten metric keys |
| Metrics.TenKeys | analyzer.py:53-64 | the ten key names are distinct |
| Metrics.StartsAllNone | analyzer.py:53-64 | every entry of the initial dictionary is None |
| Metrics.GroupValue | analyzer.py:94-96 | nothing found exactly when the pattern does not match; `ValueError` exactly when it matches and `float` rejects the token; otherwise non-negative |
| Metrics.DecimalFindsFirstDigitOrComma | analyzer.py:75 | the number search fails exactly when the window has no digit and no comma, and otherwise starts at the first one |
| Metrics.TableToken | analyzer.py:67-78 | no key match gives None; a value read is non-negative |
| Metrics.TableValue | analyzer.py:67-79 | `extract_table_value` returns None when the key does not match |
| Metrics.Scaled | analyzer.py:78 | `value * unit_multiplier` on a found number; absence and `ValueError` pass through (a definition; `ExtractionProperties.ScaledNonNegative` and `ScaledByTenThousandth` give its properties) |
| Metrics.TableValueAbsentIffNoDigit | analyzer.py:70-79 | once the key matches, None exactly when the 200-character window holds no digit and no comma |
| Metrics.RescaleExactlyAboveThreshold | analyzer.py:98-99 | a fallback value is divided by 10000 exactly when it exceeds 10000 |
| Metrics.Rescale | analyzer.py:98-99 | the `val > 10000` rescaling (a definition; `RescaleExactlyAboveThreshold` gives its meaning) |
| Metrics.FallbackChain | analyzer.py:93-101 | the patterns tried in order, the first match committing the chain (a definition; the three rows below give its meaning) |
| Metrics.FallbackChainAbsent | analyzer.py:93-101 | a chain finds nothing exactly when none of its patterns matches |
| Metrics.FallbackFirstMatchWins | analyzer.py:93-101 | the first matching pattern in list order decides the chain's outcome, rescaled |
| Metrics.FallbackSkipsMisses | analyzer.py:93-101 | patterns that do not match are passed over: the chain is the chain of the patterns after them |
| Metrics.FallbackHit | analyzer.py:93-101 | a pattern that matches ends the loop with its own number |
| Metrics.FallbackMiss | analyzer.py:93-101 | a pattern that does not match hands over to the next |
| Metrics.FallbackChainStep | analyzer.py:93-101 | one loop iteration: the current pattern decides, or the chain moves on to the next |
| Metrics.FirstFallback | analyzer.py:93-101 | the `for ... break` loop (also at 109-116 and 122-129) computes the chain |
| Metrics.TablePhase | analyzer.py:82-84 | the three table values stored into the empty record, the first `ValueError` ending it (specifies `FillTables`; `ExtractionProperties.TablePhaseShape` and `TablePhaseValues` give its properties) |
| Metrics.OrFallback | analyzer.py:87-101 | one `if not metrics[key]:` block (a definition; `ExtractionProperties.OrFallbackPrecedence` gives its meaning) |
| Metrics.FallbackPhase | analyzer.py:87-129 | the three fallback blocks in order (specifies `FillFallbacks`; `ExtractionProperties.FallbackPhaseShape` and `FallbackPhaseValues` give its properties) |
| Metrics.IfFound | analyzer.py:136-153 | `if match: metrics[key] = value` (a definition; `ExtractionProperties.IfFoundNonNegative` gives its property) |
| Metrics.LinePhase | analyzer.py:135-153 | the four next-line and percentage blocks in order (specifies `FillLineValues`; `ExtractionProperties.LinePhaseShape` gives its properties) |
| Metrics.PrimaryMetrics | analyzer.py:53-153 | the three extraction phases in order (a definition; `ExtractionProperties.PrimaryMetricsShape` and the precedence lemmas give its properties) |
| Metrics.DeriveLiabilities | analyzer.py:156-157 | liabilities derived as rounded assets minus net assets (a definition; `DeriveProperties.LiabilitiesDerivedOnlyWhenMissing` gives its meaning) |
| Metrics.Percent | analyzer.py:161-162 | `round(a / b * 100, 2)` (a definition; `DeriveProperties.DerivedRatiosApproximate` bounds its error) |
| Metrics.DebtRatioStep | analyzer.py:160-163 | the debt-ratio block (a definition; `DeriveProperties.RatiosWhenOperandsTruthy` and `DebtRatioStepIdempotent` give its meaning) |
| Metrics.RoeStep | analyzer.py:172-175 | the return-on-equity block (a definition; `DeriveProperties.RatiosWhenOperandsTruthy` gives its meaning) |
| Metrics.ProfitMarginStep | analyzer.py:178-181 | the profit-margin block (a definition; `DeriveProperties.RatiosWhenOperandsTruthy` gives its meaning) |
| Metrics.Derive | analyzer.py:156-181 | the derivation blocks in source order, the debt ratio twice (specifies `DeriveRatios`; the `DeriveProperties` rows give its properties) |
| Metrics.FinancialMetrics | analyzer.py:44-183 | the extraction's result or its `ValueError` (specifies `ExtractFinancialMetrics`; `ExtractionProperties.EmptyReport` and the precedence lemmas give its properties) |
| Metrics.FillTables | analyzer.py:82-84 | the three table assignments store the table values, or stop at the first `ValueError` |
| Metrics.FillFallbacks | analyzer.py:87-129 | the three `if not metrics[...]` blocks compute the fallback phase |
| Metrics.FillLineValues | analyzer.py:135-153 | the four `if match:` blocks compute the next-line phase |
| Metrics.DeriveRatios | analyzer.py:156-181 | the five derivation blocks, in place, compute `Derive` |
| Metrics.ExtractFinancialMetrics | analyzer.py:44-183 | the whole extraction equals `FinancialMetrics`: the phases in order, the first `ValueError` ending it |
| ExtractionProperties.ScaledNonNegative | analyzer.py:137 | scaling by a non-negative factor keeps a found number non-negative |
| ExtractionProperties.TableValueNonNegative | analyzer.py:75-78 | a table value is non-negative |
| ExtractionProperties.FallbackChainNonNegative | analyzer.py:93-101 | a chain commits to a non-negative number |
| ExtractionProperties.TablePhaseShape | analyzer.py:82-84 | the table phase sets only revenue, net profit and cash flow, all non-negative, and no ratio |
| ExtractionProperties.OrFallbackPrecedence | analyzer.py:87-101 | a truthy stored value is kept without consulting the chain; otherwise it stays when no pattern matches, or becomes the rescaled number of the first pattern that matches |
| ExtractionProperties.OrFallbackNonNegative | analyzer.py:87-129 | a fallback block keeps a non-negative value non-negative |
| ExtractionProperties.FallbackPhaseShape | analyzer.py:87-129 | the fallback phase changes only revenue, net profit and cash flow, and keeps them non-negative |
| ExtractionProperties.IfFoundNonNegative | analyzer.py:136-153 | `if match: metrics[k] = v` keeps entries non-negative |
| ExtractionProperties.LinePhaseShape | analyzer.py:135-153 | the next-line phase changes only assets, liabilities, net assets and gross margin, and keeps them non-negative |
| ExtractionProperties.PrimaryMetricsShape | analyzer.py:53-153 | before the derivations no ratio is set, and every extracted number is non-negative |
| ExtractionProperties.ScaledByTenThousandth | analyzer.py:82-84 | multiplying by 0.0001 divides a found number by 10000 |
| ExtractionProperties.TableValueInHundredMillion | analyzer.py:82-84 | a table token `N` becomes `N / 10000`; absence and failure are unchanged |
| ExtractionProperties.RevenuePrecedence | analyzer.py:82-101 | end to end: a truthy table revenue is the result; otherwise the first matching fallback pattern, rescaled; otherwise the table value stays |
| ExtractionProperties.NetProfitPrecedence | analyzer.py:83-116 | end to end: a truthy table net profit is the result; otherwise the first matching fallback pattern, rescaled; otherwise the table value stays |
| ExtractionProperties.CashFlowPrecedence | analyzer.py:84-129 | end to end: a truthy table cash flow is the result; otherwise the lazy pattern's number, rescaled, when it matches; otherwise the table value stays |
| ExtractionProperties.PrimaryTableThenFallback | analyzer.py:82-153 | revenue, net profit and cash flow are each set only by their table value and their own fallback block |
| ExtractionProperties.TablePhaseValues | analyzer.py:82-84 | the three stored entries are the table values |
| ExtractionProperties.LinePhaseValues | analyzer.py:135-153 | each of the four entries after the next-line phase is its own `if match:` block's result, and the other six are unchanged |
| ExtractionProperties.FallbackPhaseValues | analyzer.py:87-129 | each entry after the fallback phase is its own block's result |
| ExtractionProperties.TablePhaseOfEmptyText | analyzer.py:82-84 | the empty text gives no table values |
| ExtractionProperties.FallbackPhaseOfEmptyText | analyzer.py:87-129 | the empty text gives no fallback values |
| ExtractionProperties.LinePhaseOfEmptyText | analyzer.py:135-153 | the empty text gives no next-line values |
| ExtractionProperties.EmptyReport | analyzer.py:44-183 | the empty text yields the record with all ten entries None, and no error |
| DeriveProperties.LiabilitiesDerivedOnlyWhenMissing | analyzer.py:156-157 | an extracted truthy liabilities value is never overwritten; a value is derived, as the rounded difference, exactly when both operands are truthy and none was extracted |
| DeriveProperties.RatiosWhenOperandsTruthy | analyzer.py:160-181 | each ratio is `round(a / b * 100, 2)` exactly when both its operands are truthy, and is otherwise left as it was |
| DeriveProperties.DeriveKeepsExtractedValues | analyzer.py:156-181 | the derivations change no extracted amount except liabilities |
| DeriveProperties.DerivedRatiosApproximate | analyzer.py:160-181 | each derived ratio is within 0.005 of the exact percentage |
| DeriveProperties.DebtRatioStepIdempotent | analyzer.py:160-169 | the repeated debt-ratio block recomputes the same value |
| DeriveProperties.DeriveIdempotent | analyzer.py:156-181 | deriving again from a derived record changes nothing |
| Mda.KeywordMatchAt | analyzer.py:205-206 | `keyword[:：]?` matches at a position exactly when the keyword is there, and ends after one colon that follows it |
| Mda.KeywordSearch | analyzer.py:205-208 | the search fails exactly when the keyword does not occur; otherwise it matches the first occurrence and ends after the keyword and its colon |
| Mda.HeadingEnd | analyzer.py:204-208 | the section start lies within the text |
| Mda.HeadingEndNone | analyzer.py:204-214 | no heading exactly when no keyword matches |
| Mda.HeadingEndFirst | analyzer.py:204-211 | the first keyword in list order that matches decides the section start |
| Mda.MdaSection | analyzer.py:204-214 | the result is never longer than the text or than 10000 characters (specifies `ExtractMdaSection`; the rows around it give its meaning) |
| Mda.MdaSectionShape | analyzer.py:208-214 | after a heading the result is stripped and at most 5000 long; without one it is exactly `text[:10000]`, of length `min(len(text), 10000)` |
| Mda.MdaSectionWithoutHeading | analyzer.py:213-214 | a text with none of the keywords yields its first 10000 characters |
| Mda.EmptyTextSection | analyzer.py:204-214 | the empty text yields the empty section |
| Mda.ExtractMdaSection | analyzer.py:185-214 | the loop with its early return computes `MdaSection` |
| Upload.LastIndexOf | app.py:32 | the index found holds the character, and none follows it; None exactly when it does not occur |
| Upload.RSplitOnce | app.py:32 | `rsplit(sep, 1)` gives two parts exactly when `sep` occurs, otherwise one |
| Upload.RSplitOnceJoin | app.py:32 | joining the parts with `sep` gives the string back, and the last part has no `sep` |
| Upload.AllowedFile | app.py:29-32 | `allowed_file`: an accepted name has a dot and a three-character extension after its last dot (`AllowedFileExactly` gives the exact condition) |
| Upload.NoDotRefused | app.py:31 | a name without a dot is refused |
| Upload.AllowedFileExactly | app.py:20-32 | accepted exactly when there is a last dot and the text after it lower-cases to "pdf" |
| Upload.LastExtensionDecides | app.py:32 | "a.pdf.exe" is refused and "x.tar.pdf" is accepted |
| Upload.CaseAndEmptyStem | app.py:32 | "Report.PDF" and ".pdf" are accepted |
| Scenarios.ThousandsSeparatorRemoved | analyzer.py:77 | "12,345" without commas is "12345" |
| Scenarios.ThousandsSeparatedValue | analyzer.py:77-78 | `float("12,345".replace(',', ''))` is 12345 |
| Scenarios.FiveDigits | analyzer.py:78 | "12345" is all digits, worth 12345 |
| Scenarios.TwelveFifty | analyzer.py:78 | `float("12.50")` is 12.5 |
| Scenarios.FractionalRevenue | analyzer.py:91-96 | "营业收入 12.50" gives 12.5 through the third revenue pattern |
| Scenarios.RevenueLabelMatch | analyzer.py:82 | `营业收入.*千元` matches up to the end of "千元" |
| Scenarios.WindowAfterLabel | analyzer.py:73 | the window after that match is the rest of the text |
| Scenarios.FirstNumberInWindow | analyzer.py:75 | the number search skips the bracket and the newline and captures "12,345" |
| Scenarios.RevenueTableRow | analyzer.py:67-82 | the table row "营业收入（千元）" with "12,345" on the next line gives revenue 1.2345 |
| Scenarios.SignStopsNetAssets | analyzer.py:145 | "-1" on the line after the net-assets label: `\s*([\d,]+)` cannot step over the sign, so nothing matches |
| Scenarios.TwoDotsRaise | analyzer.py:91-96 | "营业收入 1.2.3" is captured whole by the third revenue pattern, and `float` raises on it |

## Left out

- `extract_text_from_pdf` (analyzer.py:28-42) is not part of this model. It reads the PDF through PyMuPDF, which is file I/O in a foreign library; the model starts from the extracted text.
- `analyze_with_llm` and `analyze_pdf` (analyzer.py:216-320), including the error dictionary returned when no API key is configured. They call a remote language-model service and build prompts; nothing of them is in the model.
- The constructor's assignment of the global `dashscope.api_key` (analyzer.py:24-26): environment and global state.
- The Flask routes, upload saving, JSON responses and `app.run` (app.py:35-141): HTTP glue around the modelled functions.
- IEEE-754 double arithmetic. `float`, the multiplications by 0.0001, the division and `round(x, 2)` are exact on reals, so a result can differ from CPython's in the last binary digits. Where CPython rounds a binary value that lies just below or above a half, the model rounds the exact real, half to even.
- `\d` and `float()` in Python also accept non-ASCII decimal digits; the model takes only '0'..'9'.
- `float()` is modelled only on the tokens the patterns can capture, which are strings of digits, commas and dots (`Regex.Search` proves this of every capturing pattern) with the commas already removed. Signs, exponents, underscores, whitespace, "inf" and "nan" cannot occur in them and are not modelled.
- Text.Lower: it lower-cases only the ASCII letters, where `str.lower()` maps all of Unicode. For the test `lower() in {'pdf'}` the two agree: no character outside ASCII lower-cases to 'p', 'd' or 'f'.
- The message text of the `ValueError`, and the dictionary's key order: the model keeps only that the error happened and which value each key holds.
