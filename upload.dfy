/** `allowed_file` in app.py: the upload filter on file names. */
module Upload {
  import opened Wrappers
  import opened Text

  /** `app.config['ALLOWED_EXTENSIONS']`. */
  const AllowedExtensions: set<string> := {"pdf"}

  /** The index of the last occurrence of `c` in `s`. */
  function LastIndexOf(s: string, c: char): (r: Option<nat>)
    ensures r.Some? ==> r.value < |s| && s[r.value] == c
    ensures r.Some? ==> forall k | r.value < k < |s| :: s[k] != c
    ensures r.None? ==> c !in s
  {
    if s == [] then None
    else if s[|s| - 1] == c then Some(|s| - 1)
    else LastIndexOf(s[..|s| - 1], c)
  }

  /** `s.rsplit(sep, 1)`: the whole string when `sep` does not occur,
      otherwise the parts before and after its last occurrence. */
  function RSplitOnce(s: string, sep: char): (parts: seq<string>)
    ensures 1 <= |parts| <= 2
    ensures |parts| == 2 <==> sep in s
  {
    match LastIndexOf(s, sep)
    case None => [s]
    case Some(i) => [s[..i], s[i + 1..]]
  }

  /** Splitting and joining with the separator gives the string back, and
      the last part holds no separator. */
  lemma RSplitOnceJoin(s: string, sep: char)
    ensures var parts := RSplitOnce(s, sep);
      (|parts| == 1 ==> parts[0] == s) &&
      (|parts| == 2 ==> parts[0] + [sep] + parts[1] == s && sep !in parts[1])
  {
    var parts := RSplitOnce(s, sep);
    if |parts| == 2 {
      var i := LastIndexOf(s, sep).value;
      assert s == s[..i] + [sep] + s[i + 1..];
    }
  }

  /** `allowed_file(filename)`: a dot, and the text after the last dot,
      lower-cased, is an allowed extension. */
  predicate AllowedFile(filename: string): (ok: bool)
    ensures ok ==> '.' in filename && |RSplitOnce(filename, '.')[1]| == 3
  {
    '.' in filename && Lower(RSplitOnce(filename, '.')[1]) in AllowedExtensions
  }

  /** A name without a dot is refused. */
  lemma NoDotRefused(filename: string)
    requires '.' !in filename
    ensures !AllowedFile(filename)
  {
  }

  /** A name is accepted exactly when it has a dot and the text after its
      last dot lower-cases to "pdf"; nothing before that dot matters. */
  lemma {:induction false} AllowedFileExactly(filename: string)
    ensures AllowedFile(filename) <==>
      exists i | 0 <= i < |filename| ::
        && filename[i] == '.'
        && '.' !in filename[i + 1..]
        && Lower(filename[i + 1..]) == "pdf"
  {
    if '.' in filename {
      var i := LastIndexOf(filename, '.').value;
      RSplitOnceJoin(filename, '.');
      assert forall j | 0 <= j < |filename| && filename[j] == '.' && '.' !in filename[j + 1..] :: j == i;
    }
  }

  /** Only the last extension counts. */
  lemma LastExtensionDecides()
    ensures !AllowedFile("a.pdf.exe")
    ensures AllowedFile("x.tar.pdf")
  {
    var a, x := "a.pdf.exe", "x.tar.pdf";
    assert a[5] == '.' && x[5] == '.';
    assert LastIndexOf(a, '.') == Some(5);
    assert LastIndexOf(x, '.') == Some(5);
    assert a[6..] == "exe";
    assert x[6..] == "pdf";
    assert Lower("pdf") == "pdf";
    assert RSplitOnce(x, '.')[1] == "pdf";
  }

  /** The extension is compared case-insensitively, and an empty stem is accepted. */
  lemma CaseAndEmptyStem()
    ensures AllowedFile("Report.PDF")
    ensures AllowedFile(".pdf")
  {
    var r, d := "Report.PDF", ".pdf";
    assert r[6] == '.' && d[0] == '.';
    assert LastIndexOf(r, '.') == Some(6);
    assert LastIndexOf(d, '.') == Some(0);
    assert r[7..] == "PDF";
    assert Lower("PDF") == "pdf";
    assert d[1..] == "pdf";
    assert Lower("pdf") == "pdf";
  }
}
