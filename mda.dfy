/** `FinanceAnalyzer.extract_mda_section`: the part of an annual report
    that follows the management-discussion heading. */
module Mda {
  import opened Wrappers
  import opened Text
  import opened Regex

  /** The headings looked for, in priority order. */
  const MdaKeywords: seq<string> := ["管理层讨论与分析", "董事会报告", "经营情况讨论", "公司业务概要", "MD&A"]
  /** How much text after a heading is kept. */
  const SectionLength: nat := 5000
  /** How much text is returned when no heading occurs. */
  const FallbackLength: nat := 10000

  /** `keyword[:：]?` matches at `i` exactly when the keyword occurs there,
      and then ends after one colon right behind it, when there is one. */
  lemma KeywordMatchAt(k: string, t: string, i: nat)
    requires i <= |t|
    ensures MatchAt(OptionalColon(k), t, i).Some? <==> LitAt(t, i, k)
    ensures LitAt(t, i, k) ==>
      var a := i + |k|;
      MatchAt(OptionalColon(k), t, i).value.end == if a < |t| && (t[a] == ':' || t[a] == '：') then a + 1 else a
  {
    assert OptionalColon(k).Prefix() == k;
  }

  /** `re.search(keyword + '[:：]?', t)` matches exactly when the keyword
      occurs in `t`. It matches at the first occurrence and ends after the
      keyword and after one colon right behind it, when there is one. */
  lemma KeywordSearch(k: string, t: string)
    ensures Search(OptionalColon(k), t).None? <==> forall i | 0 <= i <= |t| :: !LitAt(t, i, k)
    ensures Search(OptionalColon(k), t).Some? ==>
      var m := Search(OptionalColon(k), t).value;
      var a := m.start + |k|;
      && LitAt(t, m.start, k)
      && (forall i | 0 <= i < m.start :: !LitAt(t, i, k))
      && m.end == if a < |t| && (t[a] == ':' || t[a] == '：') then a + 1 else a
  {
    var p := OptionalColon(k);
    var r := Search(p, t);
    SearchLeftmost(p, t);
    if r.Some? {
      KeywordMatchAt(k, t, r.value.start);
      forall i | 0 <= i < r.value.start ensures !LitAt(t, i, k) {
        KeywordMatchAt(k, t, i);
      }
    } else {
      forall i | 0 <= i <= |t| ensures !LitAt(t, i, k) {
        KeywordMatchAt(k, t, i);
      }
    }
  }

  /** Where the match of the first keyword of `ks` that occurs in `t`
      ends, or None when none occurs. */
  function HeadingEnd(ks: seq<string>, t: string): (r: Option<nat>)
    ensures r.Some? ==> r.value <= |t|
  {
    if ks == [] then None
    else
      match Search(OptionalColon(ks[0]), t)
      case Some(m) => Some(m.end)
      case None => HeadingEnd(ks[1..], t)
  }

  /** No heading is found exactly when no keyword matches. */
  lemma {:induction false} HeadingEndNone(ks: seq<string>, t: string)
    ensures HeadingEnd(ks, t).None? <==> forall i | 0 <= i < |ks| :: Search(OptionalColon(ks[i]), t).None?
  {
    if ks != [] {
      HeadingEndNone(ks[1..], t);
      assert forall i | 1 <= i < |ks| :: ks[i] == ks[1..][i - 1];
    }
  }

  /** The first keyword in list order that matches decides the heading. */
  lemma {:induction false} HeadingEndFirst(ks: seq<string>, t: string, i: nat)
    requires i < |ks| && Search(OptionalColon(ks[i]), t).Some?
    requires forall j | 0 <= j < i :: Search(OptionalColon(ks[j]), t).None?
    ensures HeadingEnd(ks, t) == Some(Search(OptionalColon(ks[i]), t).value.end)
  {
    if i > 0 {
      assert forall j | 0 <= j < i - 1 :: ks[1..][j] == ks[j + 1];
      HeadingEndFirst(ks[1..], t, i - 1);
    }
  }

  /** The result of `extract_mda_section`. */
  function MdaSection(t: string): (s: string)
    ensures |s| <= |t| && |s| <= FallbackLength
  {
    match HeadingEnd(MdaKeywords, t)
    case Some(e) => Strip(Window(t, e, SectionLength))
    case None => Window(t, 0, FallbackLength)
  }

  /** The section after a heading is stripped and at most 5000 characters
      long; without a heading the result is exactly the first
      `min(len(t), 10000)` characters, unstripped. */
  lemma MdaSectionShape(t: string)
    ensures HeadingEnd(MdaKeywords, t).Some? ==> |MdaSection(t)| <= SectionLength
    ensures HeadingEnd(MdaKeywords, t).Some? ==> Strip(MdaSection(t)) == MdaSection(t)
    ensures HeadingEnd(MdaKeywords, t).None? ==>
      MdaSection(t) == t[..|MdaSection(t)|] && |MdaSection(t)| == if |t| <= FallbackLength then |t| else FallbackLength
  {
    if HeadingEnd(MdaKeywords, t).Some? {
      StripIdempotent(Window(t, HeadingEnd(MdaKeywords, t).value, SectionLength));
    }
  }

  /** Without any keyword in the text, the result is its first 10000 characters. */
  lemma MdaSectionWithoutHeading(t: string)
    requires forall i | 0 <= i < |MdaKeywords| :: forall j | 0 <= j <= |t| :: !LitAt(t, j, MdaKeywords[i])
    ensures MdaSection(t) == Window(t, 0, FallbackLength)
  {
    forall i | 0 <= i < |MdaKeywords| ensures Search(OptionalColon(MdaKeywords[i]), t).None? {
      KeywordSearch(MdaKeywords[i], t);
    }
    HeadingEndNone(MdaKeywords, t);
  }

  /** The empty text has no heading, and its section is empty. */
  lemma EmptyTextSection()
    ensures MdaSection("") == ""
  {
    forall i | 0 <= i < |MdaKeywords| ensures Search(OptionalColon(MdaKeywords[i]), "").None? {
      SearchEmptyText(OptionalColon(MdaKeywords[i]));
    }
    HeadingEndNone(MdaKeywords, "");
  }

  /** `extract_mda_section` as written: the keywords tried in order, the
      first match returning the stripped window after it. */
  method ExtractMdaSection(text: string) returns (r: string)
    ensures r == MdaSection(text)
  {
    var i := 0;
    while i < |MdaKeywords|
      invariant 0 <= i <= |MdaKeywords|
      invariant HeadingEnd(MdaKeywords[i..], text) == HeadingEnd(MdaKeywords, text)
    {
      assert MdaKeywords[i..][0] == MdaKeywords[i] && MdaKeywords[i..][1..] == MdaKeywords[i + 1..];
      var keyword := MdaKeywords[i];
      var found := Search(OptionalColon(keyword), text);
      if found.Some? {
        var start := found.value.end;
        return Strip(Window(text, start, SectionLength));
      }
      i := i + 1;
    }
    return Window(text, 0, FallbackLength);
  }
}
