/** How the pages read the generation routes' replies. Both routes answer
    every refusal and failure with status 200 and an `{"error": ...}` body, so
    the pages' GET does not throw: they read `summary` or `flashcards` off a
    body that has neither. */
module EndToEnd {
  import opened Wrappers
  import opened Json
  import opened SummaryRoute
  import opened SummaryPage
  import opened Intake
  import opened Web
  import opened Text
  import opened ExtensionCheck
  import opened FileValidation
  import FlashcardsRoute
  import UploadRoute

  /** A page reading `data.<key>` off a reply body, as `summaryResponse.data.summary`
      and `res.data.saved_as` do: the body's string field, None (undefined)
      when there is none. */
  function StringField(body: Json, key: string): (r: Option<string>)
    ensures r.Some? <==> body.JObj? && key in body.fields && body.fields[key].JStr?
    ensures r.Some? ==> body.fields[key] == JStr(r.value)
  {
    if body.JObj? && key in body.fields && body.fields[key].JStr? then
      Some(body.fields[key].s)
    else None
  }

  /** Every 200 reply of the upload route carries `saved_as` exactly when the
      file was stored, and then it names the stored file. */
  lemma SavedAsPresentIffStored(part: Option<UploadRoute.FilePart>, uid: string,
                                allowedExtensions: set<string>, saveOk: bool)
    requires UploadRoute.Upload(part, uid, allowedExtensions, saveOk).reply.Ok200?
    ensures StringField(UploadRoute.Upload(part, uid, allowedExtensions, saveOk).reply.body, "saved_as")
            == UploadRoute.Upload(part, uid, allowedExtensions, saveOk).stored
  {
    var run := UploadRoute.Upload(part, uid, allowedExtensions, saveOk);
    if run.stored.Some? {
      var body := UploadRoute.SuccessBody(uid, part.value.filename, run.stored.value);
      assert run.reply.body == body;
      assert body.fields["saved_as"] == JStr(run.stored.value);
    } else {
      assert exists m :: run.reply.body == ErrorBody(m);
      assert "saved_as" !in run.reply.body.fields;
    }
  }

  /** The pages check the reported media type and the route checks the
      extension, so a file can pass the first and fail the second: a small
      plain-text file named "notes.md" is listed by either page and refused by
      the upload route with a 200 reply. */
  lemma TypeCheckedFileCanBeRefused(uid: string, saveOk: bool)
    ensures Passes(FileInfo("notes.md", 1, "text/plain"))
    ensures UploadRoute.Upload(Some(UploadRoute.FilePart("notes.md")), uid, UploadRoute.AllowedExtensions, saveOk)
            == UploadRoute.UploadRun(UploadRoute.Ok200(ErrorBody("Invalid file format")), None)
  {
    LastSegmentWins("notes", "md");
    assert "notes" + "." + "md" == "notes.md";
    assert Lower("md") == "md" by { assert Lower("d") == "d"; }
    assert "md" !in UploadRoute.AllowedExtensions;
  }

  /** The summary page takes a refused upload for an answered one: it asks for
      the summary of "undefined", which has no dot and is refused as an
      invalid filename, so the file counts as a success, the refusal body is
      listed among the responses and the summary shown becomes undefined. */
  lemma RefusedUploadCountsAsSuccess(e: FileEntry, message: string, prior: Option<string>,
                                     summaryFolder: string, fileExists: bool,
                                     content: Option<string>, summary: Option<string>, writeOk: bool)
    ensures var run := GenerateSummary(SummaryTarget(UploadRefusal(message)), summaryFolder, fileExists,
                                       content, summary, writeOk);
            var os := [OutcomeOf(UploadRefusal(message), run.reply)];
            && run.reply == ErrorBody("Invalid filename")
            && SubmitRequests([e], os) == [PostUpload(e.file.name), GetSummary("undefined")]
            && SubmitErrors([e], os) == map[]
            && SubmitResponses(os) == [UploadRefusal(message)]
            && LastSummary(os, prior) == None
  {
    var target := SummaryTarget(UploadRefusal(message));
    assert '.' !in target;
    var run := GenerateSummary(target, summaryFolder, fileExists, content, summary, writeOk);
    RouteErrorCountsAsSuccess(e, UploadRefusal(message), prior, target, summaryFolder, fileExists,
                              content, summary, writeOk);
    var os := [OutcomeOf(UploadRefusal(message), run.reply)];
    assert [e][..0] == [] && os[..0] == [];
  }

  /** What the page records for a file whose upload answered and whose summary
      GET got the route's reply. */
  function OutcomeOf(upload: UploadResponse, reply: Json): (r: FileOutcome)
    ensures r.Summarized? && r.upload == upload
    ensures r.summary.Some? <==> reply.JObj? && "summary" in reply.fields && reply.fields["summary"].JStr?
  {
    Summarized(upload, StringField(reply, "summary"))
  }

  /** The page shows the route's summary exactly when the route wrote one. */
  lemma SummaryShownIffWritten(filename: string, summaryFolder: string, fileExists: bool,
                               content: Option<string>, summary: Option<string>, writeOk: bool)
    ensures var run := GenerateSummary(filename, summaryFolder, fileExists, content, summary, writeOk);
            && (run.written.Some? ==> StringField(run.reply, "summary") == summary)
            && (run.written.None? ==> StringField(run.reply, "summary") == None)
  {
    var run := GenerateSummary(filename, summaryFolder, fileExists, content, summary, writeOk);
  }

  /** A one-file submit whose summary the route refused or failed still counts
      as a success on the page: no error is recorded, the upload response is
      listed, and the summary shown becomes undefined. */
  lemma RouteErrorCountsAsSuccess(e: FileEntry, upload: UploadResponse, prior: Option<string>,
                                  filename: string, summaryFolder: string, fileExists: bool,
                                  content: Option<string>, summary: Option<string>, writeOk: bool)
    requires GenerateSummary(filename, summaryFolder, fileExists, content, summary, writeOk).written.None?
    ensures var os := [OutcomeOf(upload, GenerateSummary(filename, summaryFolder, fileExists, content, summary, writeOk).reply)];
            && SubmitErrors([e], os) == map[]
            && SubmitResponses(os) == [upload]
            && LastSummary(os, prior) == None
  {
    var run := GenerateSummary(filename, summaryFolder, fileExists, content, summary, writeOk);
    SummaryShownIffWritten(filename, summaryFolder, fileExists, content, summary, writeOk);
    var os := [OutcomeOf(upload, run.reply)];
    assert os[..0] == [] && [e][..0] == [];
  }

  /** The flashcards page reads `flashcards ?? []`: an error reply of the
      flashcards route has no such field, so the page shows an empty deck;
      a saved deck is the field's value. */
  lemma FlashcardsFieldPresentIffSaved(filename: string, configuredFolder: Option<string>, fileExists: bool,
                                       content: Option<string>, generated: Option<Json>,
                                       reparsed: Option<Json>, writeOk: bool)
    ensures var run := FlashcardsRoute.GenerateFlashcardsRoute(filename, configuredFolder, fileExists,
                                                               content, generated, reparsed, writeOk);
            && run.reply.JObj?
            && ("flashcards" in run.reply.fields <==> run.written.Some?)
            && (run.written.Some? ==> run.reply.fields["flashcards"] == run.written.value.contents)
  {
    var run := FlashcardsRoute.GenerateFlashcardsRoute(filename, configuredFolder, fileExists,
                                                       content, generated, reparsed, writeOk);
  }
}
