/** The summary page: an intake list of at most one file, a submit loop that
    uploads each file and asks for its summary, and removal that releases
    previews. Network results are supplied per file by the caller. */
module SummaryPage {
  import opened Wrappers
  import opened Text
  import opened Web
  import opened FileValidation
  import opened Intake

  /** The body POST /upload answered with: the success body, or the route's
      `{"error": ...}` refusal, which has no `saved_as`. The page handles both
      the same way, since neither throws. */
  datatype UploadResponse =
    | UploadResponse(fileId: string, filename: string, savedAs: string, success: string)
    | UploadRefusal(error: string)

  /** `response.data.saved_as` as interpolated into the summary URL: a refusal
      has no such field, and JavaScript prints the missing value as "undefined". */
  function SummaryTarget(u: UploadResponse): string {
    if u.UploadResponse? then u.savedAs else "undefined"
  }

  /** What the network did for one file of a submit. */
  datatype FileOutcome =
    | UploadFailed                                          // the POST threw
    | SummaryFailed(upload: UploadResponse)                 // the POST answered, the GET threw
    | Summarized(upload: UploadResponse, summary: Option<string>)
      // both answered; `summary` is the reply's `summary` field, None (undefined) when it has none

  const MaxFiles: nat := 1
  const FailureMessage: string := "Upload or summary generation failed"
  const EmptySelectionNotice: string := "Please select at least one file"

  function TooManyFilesNotice(): string {
    "You can only upload up to " + NatToString(MaxFiles) + " files"
  }

  predicate IsImage(f: FileInfo) {
    StartsWith(f.mediaType, "image/")
  }

  /** The entries one intake pass appends: each passing candidate at input
      index i gets id `now + i`, and a preview handle `base + i` only if its
      type is an image type. */
  function Accepted(fs: seq<FileInfo>, now: int, base: nat): seq<FileEntry>
  {
    if fs == [] then []
    else
      var i := |fs| - 1;
      var f := fs[i];
      Accepted(fs[..i], now, base) +
      (if Passes(f) then [FileEntry(f, now + i, if IsImage(f) then Some(base + i) else None)] else [])
  }

  /** Every appended entry is a passing candidate sitting at input index
      `id - now`, has no preview, and ids rise strictly with input order. */
  lemma {:induction false} AcceptedShape(fs: seq<FileInfo>, now: int, base: nat)
    ensures |Accepted(fs, now, base)| <= |fs|
    ensures forall e :: e in Accepted(fs, now, base) ==>
              Passes(e.file) && e.preview == None &&
              0 <= e.id - now < |fs| && fs[e.id - now] == e.file
    ensures forall i, j :: 0 <= i < j < |Accepted(fs, now, base)| ==>
              Accepted(fs, now, base)[i].id < Accepted(fs, now, base)[j].id
  {
    if fs != [] {
      var i := |fs| - 1;
      AcceptedShape(fs[..i], now, base);
      if Passes(fs[i]) { PassingFileIsNoImage(fs[i], MaxFileSizeMiB); }
      forall e | e in Accepted(fs[..i], now, base)
        ensures 0 <= e.id - now < |fs| && fs[e.id - now] == e.file
      {
        assert fs[..i][e.id - now] == fs[e.id - now];
      }
    }
  }

  /** Every passing candidate is accepted, so accepted = passing, in input order. */
  lemma {:induction false} AcceptedKeepsPassing(fs: seq<FileInfo>, now: int, base: nat, k: nat)
    requires k < |fs| && Passes(fs[k])
    ensures FileEntry(fs[k], now + k, None) in Accepted(fs, now, base)
  {
    var i := |fs| - 1;
    PassingFileIsNoImage(fs[k], MaxFileSizeMiB);
    if k < i {
      AcceptedKeepsPassing(fs[..i], now, base, k);
    }
  }

  /** The errors of one submit: a failure at either step records the fixed
      message under the file's name. */
  function SubmitErrors(es: seq<FileEntry>, os: seq<FileOutcome>): (r: map<string, string>)
    requires |es| == |os|
    ensures forall k :: k in r ==> r[k] == FailureMessage
  {
    if es == [] then map[]
    else
      var n := |es| - 1;
      var m := SubmitErrors(es[..n], os[..n]);
      if os[n].Summarized? then m else m[es[n].file.name := FailureMessage]
  }

  /** The upload responses of the files whose upload and summary both succeeded. */
  function SubmitResponses(os: seq<FileOutcome>): (r: seq<UploadResponse>)
    ensures |r| <= |os|
  {
    if os == [] then []
    else
      var n := |os| - 1;
      SubmitResponses(os[..n]) + (if os[n].Summarized? then [os[n].upload] else [])
  }

  /** The summary shown after a submit: that of the last file that got one. */
  function LastSummary(os: seq<FileOutcome>, prior: Option<string>): (r: Option<string>)
    ensures r == prior || exists j :: 0 <= j < |os| && os[j].Summarized? && os[j].summary == r
  {
    if os == [] then prior
    else if os[|os| - 1].Summarized? then os[|os| - 1].summary
    else
      var r := LastSummary(os[..|os| - 1], prior);
      assert forall j :: 0 <= j < |os| - 1 ==> os[..|os| - 1][j] == os[j];
      r
  }

  /** The requests one file causes: its upload, then its summary if the upload answered. */
  function FileRequests(e: FileEntry, o: FileOutcome): seq<Request> {
    [PostUpload(e.file.name)] + (if o.UploadFailed? then [] else [GetSummary(SummaryTarget(o.upload))])
  }

  function SubmitRequests(es: seq<FileEntry>, os: seq<FileOutcome>): (r: seq<Request>)
    requires |es| == |os|
    ensures |es| <= |r| <= 2 * |es|
  {
    if es == [] then []
    else
      var n := |es| - 1;
      SubmitRequests(es[..n], os[..n]) + FileRequests(es[n], os[n])
  }

  /** The file names of the uploads in a request log, in order. */
  function UploadedNames(rs: seq<Request>): seq<string> {
    if rs == [] then []
    else UploadedNames(rs[..|rs| - 1]) +
         (if rs[|rs| - 1].PostUpload? then [rs[|rs| - 1].fileName] else [])
  }

  function Names(es: seq<FileEntry>): (r: seq<string>)
    ensures |r| == |es| && forall i :: 0 <= i < |es| ==> r[i] == es[i].file.name
  {
    if es == [] then [] else Names(es[..|es| - 1]) + [es[|es| - 1].file.name]
  }

  lemma {:induction false} UploadedNamesAppend(a: seq<Request>, b: seq<Request>)
    ensures UploadedNames(a + b) == UploadedNames(a) + UploadedNames(b)
  {
    if b != [] {
      var n := |b| - 1;
      assert (a + b)[..|a + b| - 1] == a + b[..n];
      UploadedNamesAppend(a, b[..n]);
    } else {
      assert a + b == a;
    }
  }

  /** Every file is uploaded, in list order, whatever happens to the others:
      a failure does not stop the loop. */
  lemma {:induction false} EveryFileUploadedInOrder(es: seq<FileEntry>, os: seq<FileOutcome>)
    requires |es| == |os|
    ensures UploadedNames(SubmitRequests(es, os)) == Names(es)
  {
    if es != [] {
      var n := |es| - 1;
      EveryFileUploadedInOrder(es[..n], os[..n]);
      UploadedNamesAppend(SubmitRequests(es[..n], os[..n]), FileRequests(es[n], os[n]));
      var fr := FileRequests(es[n], os[n]);
      assert UploadedNames([PostUpload(es[n].file.name)]) == [es[n].file.name];
      if !os[n].UploadFailed? {
        UploadedNamesAppend([PostUpload(es[n].file.name)], [GetSummary(SummaryTarget(os[n].upload))]);
        assert UploadedNames([GetSummary(SummaryTarget(os[n].upload))]) == [];
      }
    }
  }

  /** A name is a key of the submit errors exactly when a file of that name
      failed at either step, and the message is always the fixed one. */
  lemma {:induction false} SubmitErrorsKeys(es: seq<FileEntry>, os: seq<FileOutcome>, name: string)
    requires |es| == |os|
    ensures name in SubmitErrors(es, os) <==>
            exists i :: 0 <= i < |es| && es[i].file.name == name && !os[i].Summarized?
    ensures name in SubmitErrors(es, os) ==> SubmitErrors(es, os)[name] == FailureMessage
  {
    if es != [] {
      var n := |es| - 1;
      SubmitErrorsKeys(es[..n], os[..n], name);
      if name in SubmitErrors(es[..n], os[..n]) {
        var i :| 0 <= i < n && es[..n][i].file.name == name && !os[..n][i].Summarized?;
        assert es[i] == es[..n][i] && os[i] == os[..n][i];
      }
      if exists i :: 0 <= i < |es| && es[i].file.name == name && !os[i].Summarized? {
        var i :| 0 <= i < |es| && es[i].file.name == name && !os[i].Summarized?;
        if i < n { assert es[..n][i] == es[i] && os[..n][i] == os[i]; }
      }
    }
  }

  /** The responses are exactly the uploads of the fully successful files, and
      there are as many as files only when every file succeeded. */
  lemma {:induction false} SubmitResponsesAreSuccesses(os: seq<FileOutcome>)
    ensures forall r :: r in SubmitResponses(os) <==>
              exists j :: 0 <= j < |os| && os[j].Summarized? && os[j].upload == r
    ensures |SubmitResponses(os)| <= |os|
    ensures |SubmitResponses(os)| == |os| <==> forall j :: 0 <= j < |os| ==> os[j].Summarized?
  {
    if os != [] {
      var n := |os| - 1;
      SubmitResponsesAreSuccesses(os[..n]);
      forall r ensures r in SubmitResponses(os) <==>
                       exists j :: 0 <= j < |os| && os[j].Summarized? && os[j].upload == r
      {
        if r in SubmitResponses(os[..n]) {
          var j :| 0 <= j < n && os[..n][j].Summarized? && os[..n][j].upload == r;
          assert os[j] == os[..n][j];
        }
        if exists j :: 0 <= j < |os| && os[j].Summarized? && os[j].upload == r {
          var j :| 0 <= j < |os| && os[j].Summarized? && os[j].upload == r;
          if j < n { assert os[..n][j] == os[j]; }
        }
      }
      if forall j :: 0 <= j < |os| ==> os[j].Summarized? {
        forall j | 0 <= j < n ensures os[..n][j].Summarized? { assert os[..n][j] == os[j]; }
      }
      if |SubmitResponses(os)| == |os| {
        forall j | 0 <= j < |os| ensures os[j].Summarized? {
          if j < n { assert os[j] == os[..n][j]; }
        }
      }
    }
  }

  /** The summary shown is that of the last file that got one, or the earlier
      summary when none did. */
  lemma {:induction false} LastSummaryIsLastSuccess(os: seq<FileOutcome>, prior: Option<string>, j: nat)
    requires j < |os| && os[j].Summarized?
    requires forall k :: j < k < |os| ==> !os[k].Summarized?
    ensures LastSummary(os, prior) == os[j].summary
  {
    var n := |os| - 1;
    if j < n {
      assert forall k :: j < k < n ==> os[..n][k] == os[k];
      LastSummaryIsLastSuccess(os[..n], prior, j);
    }
  }

  lemma {:induction false} LastSummaryNoSuccess(os: seq<FileOutcome>, prior: Option<string>)
    requires forall k :: 0 <= k < |os| ==> !os[k].Summarized?
    ensures LastSummary(os, prior) == prior
  {
    if os != [] {
      var n := |os| - 1;
      assert forall k :: 0 <= k < n ==> os[..n][k] == os[k];
      LastSummaryNoSuccess(os[..n], prior);
    }
  }

  /** A batch of three where the second fails at upload: two responses, the
      second file's name as the only error key, the third file's summary shown. */
  lemma ThreeFilesMiddleFails(es: seq<FileEntry>, r1: UploadResponse, s1: Option<string>,
                              r3: UploadResponse, s3: Option<string>, prior: Option<string>)
    requires |es| == 3
    ensures var os := [Summarized(r1, s1), UploadFailed, Summarized(r3, s3)];
            && SubmitErrors(es, os) == map[es[1].file.name := FailureMessage]
            && SubmitResponses(os) == [r1, r3]
            && LastSummary(os, prior) == s3
  {
    var os := [Summarized(r1, s1), UploadFailed, Summarized(r3, s3)];
    assert os[..2] == [Summarized(r1, s1), UploadFailed];
    assert os[..2][..1] == [Summarized(r1, s1)];
    assert os[..2][..1][..0] == [];
    assert es[..2][..1] == es[..1];
    assert SubmitErrors(es[..1], os[..1]) == map[];
    assert SubmitErrors(es[..2], os[..2]) == map[es[1].file.name := FailureMessage];
    assert SubmitResponses(os[..1]) == [r1];
    assert SubmitResponses(os[..2]) == [r1];
  }

  /** The first entry with the id, as `find` returns it. */
  function FindById(es: seq<FileEntry>, id: int): (r: Option<FileEntry>)
    ensures r.None? <==> forall e :: e in es ==> e.id != id
    ensures r.Some? ==> exists k :: 0 <= k < |es| && es[k] == r.value && r.value.id == id &&
                                    forall j :: 0 <= j < k ==> es[j].id != id
  {
    if es == [] then None
    else if es[0].id == id then Some(es[0])
    else
      var r := FindById(es[1..], id);
      if r.Some? then
        var k :| 0 <= k < |es[1..]| && es[1..][k] == r.value && r.value.id == id &&
                 forall j :: 0 <= j < k ==> es[1..][j].id != id;
        assert es[k + 1] == r.value;
        assert forall j :: 0 < j < k + 1 ==> es[j] == es[1..][j - 1];
        r
      else
        assert forall e :: e in es ==> e == es[0] || e in es[1..];
        r
  }

  /** `filter(f => f.id !== id)`. */
  function WithoutId(es: seq<FileEntry>, id: int): (r: seq<FileEntry>)
    ensures forall e :: e in r <==> e in es && e.id != id
    ensures |r| <= |es|
    ensures (forall e :: e in es ==> e.id != id) ==> r == es
  {
    if es == [] then []
    else (if es[0].id == id then [] else [es[0]]) + WithoutId(es[1..], id)
  }

  /** The handle `removeFile` releases: the preview of the first entry with the id. */
  function ReleasedBy(es: seq<FileEntry>, id: int): set<Handle> {
    match FindById(es, id)
    case Some(e) => if e.preview.Some? then {e.preview.value} else {}
    case None => {}
  }

  /** On a list of at most one entry, removing by id drops exactly the released preview. */
  lemma RemoveReleasesPreview(es: seq<FileEntry>, id: int)
    requires |es| <= 1
    ensures Previews(WithoutId(es, id)) == Previews(es) - ReleasedBy(es, id)
    ensures WithoutId(es, id) == [] || WithoutId(es, id) == es
  {
    if es != [] {
      assert es == [es[0]];
      assert WithoutId(es, id) == (if es[0].id == id then [] else [es[0]]) + WithoutId([], id);
      assert FindById(es, id) == (if es[0].id == id then Some(es[0]) else None);
    }
  }

  /** The validation loop of the summary page's `processFiles`: the errors of
      this pass, the entries it appends, and the preview handles it creates
      (`URL.createObjectURL`), numbered from `base`. */
  method ValidationPass(newFiles: seq<FileInfo>, now: int, base: nat)
    returns (validationErrors: map<string, string>, validFiles: seq<FileEntry>, created: set<Handle>)
    ensures validationErrors == ValidationErrors(newFiles)
    ensures validFiles == Accepted(newFiles, now, base)
    ensures created == Previews(validFiles)
  {
    validationErrors, validFiles, created := map[], [], {};
    var index := 0;
    while index < |newFiles|
      invariant 0 <= index <= |newFiles|
      invariant validationErrors == ValidationErrors(newFiles[..index])
      invariant validFiles == Accepted(newFiles[..index], now, base)
      invariant created == Previews(validFiles)
    {
      var file := newFiles[index];
      assert newFiles[..index + 1][..index] == newFiles[..index];
      var error := ValidateFile(file, MaxFileSizeMiB, AllowedTypes);
      if error.Some? {
        validationErrors := validationErrors[file.name := error.value];
      } else {
        var preview: Option<Handle> := None;
        if StartsWith(file.mediaType, "image/") {
          preview := Some(base + index);
          created := created + {base + index};
        }
        PreviewsAppend(validFiles, FileEntry(file, now + index, preview));
        validFiles := validFiles + [FileEntry(file, now + index, preview)];
      }
      index := index + 1;
    }
    assert newFiles[..index] == newFiles;
  }

  class Page {
    var files: seq<FileEntry>
    var errors: map<string, string>
    var responses: Option<seq<UploadResponse>>  // `multipleResponseMessage.files`, or null
    var summary: Option<string>  // None once the page has stored `undefined`
    var uploading: bool
    var live: set<Handle>      // object URLs currently held by the page
    var nextHandle: nat        // handles at or above this have never been issued
    var requests: seq<Request> // every request the page has sent, in order

    /** The store holds at most MaxFiles passing files with distinct ids, and
        the live handles are exactly their previews. */
    ghost predicate Valid()
      reads this
    {
      && |files| <= MaxFiles
      && (forall e :: e in files ==> Passes(e.file))
      && IdsDistinct(files)
      && live == Previews(files)
      && (forall h :: h in live ==> h < nextHandle)
    }

    constructor ()
      ensures Valid()
      ensures files == [] && errors == map[] && responses == None && summary == Some("")
      ensures !uploading && live == {} && requests == []
    {
      files, errors, responses, summary := [], map[], None, Some("");
      uploading, live, nextHandle, requests := false, {}, 0, [];
    }

    /** `processFiles`: the count gate on the raw candidates, then one
        validation pass that replaces the errors and appends the passing files. */
    method ProcessFiles(newFiles: seq<FileInfo>, now: int) returns (notice: Option<string>)
      requires Valid()
      modifies this
      ensures Valid()
      ensures old(|files|) + |newFiles| > MaxFiles ==>
                notice == Some(TooManyFilesNotice()) && files == old(files) && errors == old(errors) &&
                live == old(live) && nextHandle == old(nextHandle)
      ensures old(|files|) + |newFiles| <= MaxFiles ==>
                notice == None && errors == ValidationErrors(newFiles) &&
                files == old(files) + Accepted(newFiles, now, old(nextHandle)) &&
                live == old(live) && nextHandle == old(nextHandle) + |newFiles|
      ensures responses == old(responses) && summary == old(summary)
      ensures uploading == old(uploading) && requests == old(requests)
    {
      if |files| + |newFiles| > MaxFiles {
        return Some(TooManyFilesNotice());
      }
      var validationErrors, validFiles, created := ValidationPass(newFiles, now, nextHandle);
      AcceptedShape(newFiles, now, nextHandle);
      PreviewsNone(validFiles);
      PreviewsConcat(files, validFiles);
      assert |files + validFiles| <= MaxFiles;
      live := live + created;
      errors := validationErrors;
      files := files + validFiles;
      nextHandle := nextHandle + |newFiles|;
      notice := None;
    }

    /** `handleSubmit`: each file in list order is uploaded and summarized; a
        failure at either step records an error and the loop goes on. */
    method HandleSubmit(outcomes: seq<FileOutcome>) returns (notice: Option<string>)
      requires Valid() && |outcomes| == |files|
      modifies this
      ensures Valid()
      ensures files == old(files) && live == old(live) && nextHandle == old(nextHandle)
      ensures old(files) == [] ==>
                notice == Some(EmptySelectionNotice) && errors == old(errors) &&
                responses == old(responses) && summary == old(summary) &&
                uploading == old(uploading) && requests == old(requests)
      ensures old(files) != [] ==>
                && notice == None
                && errors == SubmitErrors(files, outcomes)
                && responses == (if SubmitResponses(outcomes) == [] then None else Some(SubmitResponses(outcomes)))
                && summary == LastSummary(outcomes, old(summary))
                && !uploading
                && requests == old(requests) + SubmitRequests(files, outcomes)
    {
      if |files| == 0 {
        return Some(EmptySelectionNotice);
      }
      responses := None;
      uploading := true;
      errors := map[];
      var collected: seq<UploadResponse> := [];
      var i := 0;
      while i < |files|
        invariant 0 <= i <= |files|

        invariant files == old(files) && live == old(live) && nextHandle == old(nextHandle)
        invariant uploading
        invariant errors == SubmitErrors(files[..i], outcomes[..i])
        invariant collected == SubmitResponses(outcomes[..i])
        invariant responses == (if collected == [] then None else Some(collected))
        invariant summary == LastSummary(outcomes[..i], old(summary))
        invariant requests == old(requests) + SubmitRequests(files[..i], outcomes[..i])
      {
        var fileObj := files[i];
        assert files[..i + 1][..i] == files[..i];
        assert outcomes[..i + 1][..i] == outcomes[..i];
        requests := requests + [PostUpload(fileObj.file.name)];
        match outcomes[i] {
          case UploadFailed =>
            errors := errors[fileObj.file.name := FailureMessage];
          case SummaryFailed(response) =>
            requests := requests + [GetSummary(SummaryTarget(response))];
            errors := errors[fileObj.file.name := FailureMessage];
          case Summarized(response, text) =>
            requests := requests + [GetSummary(SummaryTarget(response))];
            summary := text;
            collected := collected + [response];
            responses := Some(collected);
        }
        assert SubmitResponses(outcomes[..i + 1]) ==
               SubmitResponses(outcomes[..i]) + (if outcomes[i].Summarized? then [outcomes[i].upload] else []);
        i := i + 1;
      }
      assert files[..i] == files && outcomes[..i] == outcomes;
      uploading := false;
      notice := None;
    }

    /** `removeFile`: drops every entry with the id and releases the preview of
        the first one found. */
    method RemoveFile(id: int)
      requires Valid()
      modifies this
      ensures Valid()
      ensures files == WithoutId(old(files), id)
      ensures live == old(live) - ReleasedBy(old(files), id)
      ensures errors == old(errors) && responses == old(responses) && summary == old(summary)
      ensures uploading == old(uploading) && requests == old(requests) && nextHandle == old(nextHandle)
    {
      var fileToRemove := FindById(files, id);
      if fileToRemove.Some? && fileToRemove.value.preview.Some? {
        live := live - {fileToRemove.value.preview.value};
      }
      RemoveReleasesPreview(files, id);
      files := WithoutId(files, id);
    }

    /** `clearAll`: releases every preview, then empties the files and the errors. */
    method ClearAll()
      requires Valid()
      modifies this
      ensures Valid()
      ensures files == [] && errors == map[] && live == {}
      ensures live == old(live) - Previews(old(files))
      ensures responses == old(responses) && summary == old(summary)
      ensures uploading == old(uploading) && requests == old(requests) && nextHandle == old(nextHandle)
    {
      var remaining := live;
      var k := 0;
      while k < |files|
        invariant 0 <= k <= |files|
        invariant unchanged(this)
        invariant remaining == old(live) - Previews(files[..k])
      {
        if files[k].preview.Some? {
          remaining := remaining - {files[k].preview.value};  // URL.revokeObjectURL
        }
        assert files[..k + 1] == files[..k] + [files[k]];
        PreviewsAppend(files[..k], files[k]);
        k := k + 1;
      }
      assert files[..k] == files;
      live := remaining;
      files := [];
      errors := map[];
    }
  }
}
