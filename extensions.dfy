/** The backend's extension whitelist test (`allowed_file`) and the last-dot
    split it shares with the upload and generation routes. */
module ExtensionCheck {
  import opened Wrappers
  import opened Text

  /** `filename.rsplit(".", 1)[1]`: the text after the last dot, or None when the
      name has no dot (where Python's index 1 would not exist). */
  function AfterLastDot(filename: string): (r: Option<string>)
    ensures r.None? <==> '.' !in filename
    ensures r.Some? ==> '.' !in r.value
    ensures r.Some? ==> exists k :: 0 <= k < |filename| && filename[k] == '.' &&
                                    r.value == filename[k + 1..] && filename == filename[..k] + "." + r.value
  {
    match LastIndexOf(filename, '.')
    case None => None
    case Some(k) =>
      assert filename == filename[..k] + "." + filename[k + 1..];
      Some(filename[k + 1..])
  }

  /** `filename.rsplit(".", 1)[1].lower()`: the extension as the routes compare it. */
  function Extension(filename: string): (r: Option<string>)
    ensures r.None? <==> '.' !in filename
    ensures r.Some? ==> |r.value| < |filename|
  {
    match AfterLastDot(filename)
    case None => None
    case Some(e) => Some(Lower(e))
  }

  /** The extension is the lower-cased text after the last dot: after some
      dot that no later dot follows. */
  lemma ExtensionIsLastSegment(filename: string)
    requires '.' in filename
    ensures exists k :: 0 <= k < |filename| && filename[k] == '.' &&
                        '.' !in filename[k + 1..] && Extension(filename).value == Lower(filename[k + 1..])
  {
    var k := LastIndexOf(filename, '.').value;
    assert filename[k + 1..] == AfterLastDot(filename).value;
  }

  /** `allowed_file`: the name has a dot and its lower-cased last segment is in the set. */
  function AllowedFile(filename: string, allowedExtensions: set<string>): (r: bool)
    ensures r <==> Extension(filename).Some? && Extension(filename).value in allowedExtensions
  {
    '.' in filename && Lower(AfterLastDot(filename).value) in allowedExtensions
  }

  /** A name with no dot is never allowed, whatever the set holds. */
  lemma NoDotNeverAllowed(filename: string, allowedExtensions: set<string>)
    requires '.' !in filename
    ensures !AllowedFile(filename, allowedExtensions)
  {
  }

  /** The extension is whatever follows the last dot: appending "." + e to any
      name gives the extension e, earlier dots notwithstanding. */
  lemma {:induction false} LastSegmentWins(stem: string, e: string)
    requires '.' !in e
    ensures AfterLastDot(stem + "." + e) == Some(e)
  {
    var s := stem + "." + e;
    assert s[|stem|] == '.';
    assert s[|stem| + 1..] == e;
  }

  /** "a.tar.pdf" is compared as "pdf". */
  lemma InnerDotsIgnored()
    ensures Extension("a.tar.pdf") == Some("pdf")
  {
    LastSegmentWins("a.tar", "pdf");
    assert "a.tar" + "." + "pdf" == "a.tar.pdf";
    assert Lower("pdf") == "pdf" by {
      assert Lower("f") == "f";
      assert Lower("df") == "df";
    }
  }

  /** "X.PDF" is allowed whenever "pdf" is. */
  lemma UpperCaseAllowed(allowedExtensions: set<string>)
    requires "pdf" in allowedExtensions
    ensures AllowedFile("X.PDF", allowedExtensions)
  {
    LastSegmentWins("X", "PDF");
    assert "X" + "." + "PDF" == "X.PDF";
    assert Lower("PDF") == "pdf" by {
      assert Lower("F") == "f";
      assert Lower("DF") == "df";
    }
  }

  /** "report." has the empty extension, allowed only if "" is in the set. */
  lemma TrailingDot(allowedExtensions: set<string>)
    ensures AllowedFile("report.", allowedExtensions) <==> "" in allowedExtensions
  {
    LastSegmentWins("report", "");
    assert "report" + "." + "" == "report.";
  }

  /** The answer depends only on the lower-cased last segment. */
  lemma OnlyLastSegmentMatters(a: string, b: string, allowedExtensions: set<string>)
    requires AfterLastDot(a).Some? && AfterLastDot(b).Some?
    requires Lower(AfterLastDot(a).value) == Lower(AfterLastDot(b).value)
    ensures AllowedFile(a, allowedExtensions) == AllowedFile(b, allowedExtensions)
  {
  }
}
