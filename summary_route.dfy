/** GET /generate_summary/<filename>. The existence test, the reader or
    extractor, the summarizer and the file write are outside: `fileExists`,
    `content` (None when the reader raised), `summary` (None when the
    summarizer raised) and `writeOk` stand for their outcomes. Every reply is
    a JSON body with status 200. */
module SummaryRoute {
  import opened Wrappers
  import opened Text
  import opened Json
  import opened ExtensionCheck
  import opened Generation
  import UploadRoute

  /** The reply, the reader that was run if any, and the summary file written if any. */
  datatype SummaryRun = SummaryRun(reply: Json, reader: Option<Reader>, written: Option<OutputFile<string>>)

  function GenerateSummary(filename: string, summaryFolder: string, fileExists: bool,
                           content: Option<string>, summary: Option<string>, writeOk: bool): (r: SummaryRun)
    ensures !NameIsValid(filename) ==>
              r == SummaryRun(ErrorBody("Invalid filename"), None, None)
    ensures NameIsValid(filename) && !fileExists ==>
              r == SummaryRun(ErrorBody("File not found"), None, None)
    ensures NameIsValid(filename) && fileExists && ReaderFor(Extension(filename).value).None? ==>
              r == SummaryRun(ErrorBody("Unsupported file format"), None, None)
    ensures r.reader.Some? <==>
              NameIsValid(filename) && fileExists && ReaderFor(Extension(filename).value).Some?
    ensures r.reader.Some? ==> r.reader == ReaderFor(Extension(filename).value)
    ensures r.written.Some? <==> r.reader.Some? && content.Some? && summary.Some? && writeOk
    ensures r.written.Some? ==>
              r.reply == Single("summary", JStr(summary.value)) &&
              r.written.value == OutputFile(summaryFolder, SplitextRoot(filename) + "_summary.txt", summary.value)
    ensures r.reader.Some? && r.written.None? ==> r.reply == ErrorBody("Error generating summary")
    ensures r.reply.JObj? && (r.written.None? ==> "summary" !in r.reply.fields)
  {
    var uid := SplitextRoot(filename);
    if !NameIsValid(filename) then SummaryRun(ErrorBody("Invalid filename"), None, None)
    else if !fileExists then SummaryRun(ErrorBody("File not found"), None, None)
    else
      match ReaderFor(Extension(filename).value)
      case None => SummaryRun(ErrorBody("Unsupported file format"), None, None)
      case Some(reader) =>
        if content.None? || summary.None? || !writeOk then
          SummaryRun(ErrorBody("Error generating summary"), Some(reader), None)
        else
          SummaryRun(Single("summary", JStr(summary.value)), Some(reader),
                     Some(OutputFile(summaryFolder, uid + "_summary.txt", summary.value)))
  }

  /** A valid name of an existing file with no reader gets the unsupported-format reply, whatever follows. */
  lemma UnsupportedNameIsRefused(filename: string, summaryFolder: string,
                                 content: Option<string>, summary: Option<string>, writeOk: bool)
    requires NameIsValid(filename) && ReaderFor(Extension(filename).value).None?
    ensures GenerateSummary(filename, summaryFolder, true, content, summary, writeOk).reply
            == ErrorBody("Unsupported file format")
  {
  }

  /** A valid name of an existing file with a reader, read and summarized
      without a failure, is saved as `<root>_summary.txt`. */
  lemma SupportedNameIsSaved(filename: string, summaryFolder: string, content: string, summary: string)
    requires NameIsValid(filename) && ReaderFor(Extension(filename).value).Some?
    ensures GenerateSummary(filename, summaryFolder, true, Some(content), Some(summary), true)
            == SummaryRun(Single("summary", JStr(summary)), ReaderFor(Extension(filename).value),
                          Some(OutputFile(summaryFolder, SplitextRoot(filename) + "_summary.txt", summary)))
  {
  }

  /** A name the upload route stored passes the name check here, is read by
      the reader for its original extension, and its summary is saved under
      the upload's uid. */
  lemma StoredUploadIsSummarized(uid: string, original: string, summaryFolder: string,
                                 content: string, summary: string)
    requires uid != [] && '.' !in uid && '/' !in uid
    requires AllowedFile(original, UploadRoute.AllowedExtensions)
    ensures NameIsValid(UploadRoute.StoredName(uid, original))
    ensures GenerateSummary(UploadRoute.StoredName(uid, original), summaryFolder, true,
                            Some(content), Some(summary), true).reader
            == ReaderFor(Extension(original).value)
    ensures ReaderFor(Extension(original).value).Some? ==>
              GenerateSummary(UploadRoute.StoredName(uid, original), summaryFolder, true,
                              Some(content), Some(summary), true).written
              == Some(OutputFile(summaryFolder, uid + "_summary.txt", summary))
  {
    var savedAs := UploadRoute.StoredName(uid, original);
    UploadRoute.StoredNameKeepsExtension(uid, original);
    var e := Extension(original).value;
    UploadRoute.AllowedExtensionIsPlain(original);
    assert savedAs[|uid|] == '.';
    SplitextOfStoredName(uid, e);
    if ReaderFor(e).Some? {
      SupportedNameIsSaved(savedAs, summaryFolder, content, summary);
    }
  }

  /** The stored name of a `.doc` upload passes the name check and reads back as `doc`. */
  lemma StoredDocName(uid: string, stem: string)
    ensures NameIsValid(UploadRoute.StoredName(uid, stem + ".doc"))
    ensures Extension(UploadRoute.StoredName(uid, stem + ".doc")) == Some("doc")
  {
    UploadRoute.DocIsAccepted(stem);
    var savedAs := UploadRoute.StoredName(uid, stem + ".doc");
    assert savedAs[|uid|] == '.';
    UploadRoute.StoredNameKeepsExtension(uid, stem + ".doc");
  }

  /** A `.doc` file is accepted by the upload route and then refused here. */
  lemma DocUploadIsNeverSummarized(uid: string, stem: string, summaryFolder: string,
                                   content: Option<string>, summary: Option<string>, writeOk: bool)
    ensures AllowedFile(stem + ".doc", UploadRoute.AllowedExtensions)
    ensures GenerateSummary(UploadRoute.StoredName(uid, stem + ".doc"), summaryFolder, true, content, summary, writeOk).reply
            == ErrorBody("Unsupported file format")
  {
    UploadRoute.DocIsAccepted(stem);
    StoredDocName(uid, stem);
    DocIsUnsupported();
    UnsupportedNameIsRefused(UploadRoute.StoredName(uid, stem + ".doc"), summaryFolder, content, summary, writeOk);
  }
}
