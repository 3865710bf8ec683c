/** POST /upload: the decision chain and the stored name. The uid generator and
    the file save are outside; the uid arrives as a parameter and `saveOk`
    says whether `makedirs` and `file.save` succeeded. */
module UploadRoute {
  import opened Wrappers
  import opened Json
  import opened Text
  import opened ExtensionCheck

  /** The application's configured whitelist. */
  const AllowedExtensions: set<string> := {"pdf", "docx", "doc", "txt"}

  /** What Flask sends back: a JSON body with status 200 (no route sets another
      status), or the 500 page of an uncaught exception. */
  datatype Reply = Ok200(body: Json) | InternalError500

  /** The multipart part named `file`; only its filename is decided on. */
  datatype FilePart = FilePart(filename: string)

  /** The reply and the name the upload was stored under in the upload folder. */
  datatype UploadRun = UploadRun(reply: Reply, stored: Option<string>)

  /** `f"{uid}.{ext}"` with the lower-cased last extension. */
  function StoredName(uid: string, filename: string): (r: string)
    requires '.' in filename
    ensures |uid| < |r| && r[..|uid|] == uid && r[|uid|] == '.'
  {
    var ext := Extension(filename).value;
    var r := uid + "." + ext;
    assert r[..|uid|] == uid && r[|uid|] == '.';
    r
  }

  function SuccessBody(uid: string, filename: string, savedAs: string): Json {
    JObj(map["success" := JStr("File Uploaded"), "file_id" := JStr(uid),
             "filename" := JStr(filename), "saved_as" := JStr(savedAs)])
  }

  /** The checks in order: a missing part, an empty name, a refused extension;
      then the file is stored as `<uid>.<ext>` and described in the reply. */
  function Upload(part: Option<FilePart>, uid: string, allowedExtensions: set<string>, saveOk: bool): (r: UploadRun)
    ensures part.None? ==> r == UploadRun(Ok200(ErrorBody("No file part")), None)
    ensures part.Some? && part.value.filename == "" ==> r == UploadRun(Ok200(ErrorBody("No selected file")), None)
    ensures part.Some? && part.value.filename != "" && !AllowedFile(part.value.filename, allowedExtensions) ==>
              r == UploadRun(Ok200(ErrorBody("Invalid file format")), None)
    ensures r.stored.Some? <==>
              part.Some? && AllowedFile(part.value.filename, allowedExtensions) && saveOk
    ensures r.stored.Some? ==>
              r.reply == Ok200(SuccessBody(uid, part.value.filename, r.stored.value)) &&
              r.stored.value == uid + "." + Extension(part.value.filename).value
  {
    if part.None? then UploadRun(Ok200(ErrorBody("No file part")), None)
    else
      var filename := part.value.filename;
      if filename == "" then UploadRun(Ok200(ErrorBody("No selected file")), None)
      // `file` is truthy here: a FileStorage is truthy exactly when its filename is non-empty
      else if AllowedFile(filename, allowedExtensions) then
        var savedAs := StoredName(uid, filename);
        if saveOk then UploadRun(Ok200(SuccessBody(uid, filename, savedAs)), Some(savedAs))
        else UploadRun(InternalError500, None)
      else UploadRun(Ok200(ErrorBody("Invalid file format")), None)
  }

  /** Every refusal is a 200 reply carrying an error; only a failed save is a 500. */
  lemma RefusalsAreStatus200(part: Option<FilePart>, uid: string, allowedExtensions: set<string>, saveOk: bool)
    requires Upload(part, uid, allowedExtensions, saveOk).stored.None?
    ensures Upload(part, uid, allowedExtensions, saveOk).reply.InternalError500? <==>
            part.Some? && AllowedFile(part.value.filename, allowedExtensions) && !saveOk
    ensures Upload(part, uid, allowedExtensions, saveOk).reply.Ok200? ==>
            "error" in Upload(part, uid, allowedExtensions, saveOk).reply.body.fields
  {
  }

  /** The stored name is the uid, a dot, and the original's extension: the
      generation routes will read the same extension back from it. */
  lemma StoredNameKeepsExtension(uid: string, filename: string)
    requires '.' in filename
    ensures AfterLastDot(StoredName(uid, filename)) == Extension(filename)
    ensures Extension(StoredName(uid, filename)) == Extension(filename)
  {
    var e := AfterLastDot(filename).value;
    assert '.' !in Lower(e) by {
      forall i | 0 <= i < |e| ensures Lower(e)[i] != '.' {
        assert e[i] != '.';
      }
    }
    LastSegmentWins(uid, Lower(e));
    LowerIdempotent(e);
  }

  /** A whitelisted extension is one of four plain words, so it holds neither
      a dot nor a slash, whatever the client sent as the file name. */
  lemma AllowedExtensionIsPlain(filename: string)
    requires AllowedFile(filename, AllowedExtensions)
    ensures '.' !in Extension(filename).value && '/' !in Extension(filename).value
  {
    PlainWords(Extension(filename).value);
  }

  lemma PlainWords(e: string)
    requires e in AllowedExtensions
    ensures '.' !in e && '/' !in e
  {
    if e == "pdf" {
      assert e == ['p', 'd', 'f'];
    } else if e == "docx" {
      assert e == ['d', 'o', 'c', 'x'];
    } else if e == "doc" {
      assert e == ['d', 'o', 'c'];
    } else {
      assert e == ['t', 'x', 't'];
    }
  }

  /** The whitelist accepts the legacy Word extension "doc". */
  lemma DocIsAccepted(stem: string)
    ensures Extension(stem + ".doc") == Some("doc")
    ensures AllowedFile(stem + ".doc", AllowedExtensions)
  {
    DocExtension(stem);
    assert "doc" in AllowedExtensions;
  }

  lemma DocExtension(stem: string)
    ensures Extension(stem + ".doc") == Some("doc")
  {
    DocIsLastSegment(stem);
    DocIsLowerCase();
  }

  lemma DocIsLastSegment(stem: string)
    ensures AfterLastDot(stem + ".doc") == Some("doc")
  {
    assert '.' !in "doc" by { assert "doc" == ['d', 'o', 'c']; }
    LastSegmentWins(stem, "doc");
    assert stem + "." + "doc" == stem + ".doc";
  }

  lemma DocIsLowerCase()
    ensures Lower("doc") == "doc"
  {
    var l := Lower("doc");
    assert l[0] == LowerChar('d') && l[1] == LowerChar('o') && l[2] == LowerChar('c');
    assert l == ['d', 'o', 'c'];
  }
}
