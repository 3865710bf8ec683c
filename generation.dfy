/** The filename handling the two generation routes share (each route spells
    it out separately): the validity check, `os.path.splitext` for the uid,
    and the dispatch on the extension to a text source. */
module Generation {
  import opened Wrappers
  import opened Text
  import opened ExtensionCheck

  /** `not filename or "." not in filename` negated: exactly the names whose
      extension `rsplit(".", 1)[1]` exists. */
  predicate NameIsValid(filename: string): (r: bool)
    ensures r <==> AfterLastDot(filename).Some?
  {
    filename != "" && '.' in filename
  }

  predicate AllDots(s: string) {
    forall i :: 0 <= i < |s| ==> s[i] == '.'
  }

  /** `os.path.splitext(p)[0]` on POSIX: the last dot after the last "/" ends
      the root, unless only dots precede it in the last component, in which
      case there is no extension and the root is the whole path. */
  function SplitextRoot(p: string): (r: string)
    ensures |r| <= |p| && r == p[..|r|]
    ensures r != p ==> p[|r|] == '.' && '.' !in p[|r| + 1..]
  {
    match LastIndexOf(p, '.')
    case None => p
    case Some(dot) =>
      var sepEnd := match LastIndexOf(p, '/') case None => 0 case Some(sep) => sep + 1;
      if dot < sepEnd || AllDots(p[sepEnd..dot]) then p else p[..dot]
  }

  /** A file a route writes: the folder, the file name in it, and what is written. */
  datatype OutputFile<T> = OutputFile(folder: string, name: string, contents: T)

  /** Where the routes get the document's text from. */
  datatype Reader = ReadUtf8 | PdfExtractor | DocxExtractor

  /** The dispatch on the lower-cased extension; anything else is unsupported. */
  function ReaderFor(ext: string): (r: Option<Reader>)
    ensures r.Some? <==> ext == "txt" || ext == "pdf" || ext == "docx"
    ensures r == Some(ReadUtf8) <==> ext == "txt"
  {
    if ext == "txt" then Some(ReadUtf8)
    else if ext == "pdf" then Some(PdfExtractor)
    else if ext == "docx" then Some(DocxExtractor)
    else None
  }

  /** The uid of a stored name `<uid>.<ext>` is the uid again, as long as the
      uid itself has no dot and is not empty (a uuid4 string qualifies). */
  lemma {:induction false} SplitextOfStoredName(uid: string, ext: string)
    requires uid != [] && '.' !in uid && '/' !in uid && '.' !in ext && '/' !in ext
    ensures SplitextRoot(uid + "." + ext) == uid
  {
    var p := uid + "." + ext;
    assert p[|uid|] == '.';
    assert p[|uid| + 1..] == ext;
    var dot := LastIndexOf(p, '.').value;
    assert dot == |uid|;
    assert '/' !in p by {
      forall i | 0 <= i < |p| ensures p[i] != '/' {
        if i < |uid| { assert p[i] == uid[i]; } else if i > |uid| { assert p[i] == ext[i - |uid| - 1]; }
      }
    }
    assert LastIndexOf(p, '/') == None;
    assert p[0..dot] == uid;
    assert !AllDots(p[0..dot]) by { assert uid[0] != '.'; }
  }

  /** The pages' legacy Word type passes upload but no route can read it. */
  lemma DocIsUnsupported()
    ensures ReaderFor("doc").None?
  {
  }
}
