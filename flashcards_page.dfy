/** The flashcards page: an intake that replaces its list, a submit that
    uploads only the first file, the fetch effect keyed on the uploaded id,
    and clamped navigation through the deck. */
module FlashcardsPage {
  import opened Wrappers
  import opened Web
  import opened FileValidation
  import opened Intake

  datatype Card = Card(question: string, answer: string)

  /** What the POST /upload did: answered with a body whose `saved_as` field is
      absent (None, undefined) when the route refused the file, or threw. */
  datatype UploadResult = Answered(savedAs: Option<string>) | UploadThrew

  /** What the GET /generate_flashcards did: answered with a possibly absent
      `flashcards` field, or threw. */
  datatype FetchResult = Fetched(flashcards: Option<seq<Card>>) | FetchThrew

  const EmptySelectionNotice: string := "Please select a file"
  const UploadFailedMessage: string := "Upload failed"
  const FetchFailedMessage: string := "Could not generate flashcards"

  /** The list one intake pass produces: each passing candidate at input index
      i gets id `now + i` and no preview. */
  function Selection(fs: seq<FileInfo>, now: int): (r: seq<FileEntry>)
    ensures |r| <= |fs|
  {
    if fs == [] then []
    else
      var i := |fs| - 1;
      Selection(fs[..i], now) + (if Passes(fs[i]) then [FileEntry(fs[i], now + i, None)] else [])
  }

  /** Every listed entry passed, has no preview, and carries its input index in its id. */
  lemma {:induction false} SelectionEntries(fs: seq<FileInfo>, now: int)
    ensures forall e :: e in Selection(fs, now) ==>
              Passes(e.file) && e.preview == None && 0 <= e.id - now < |fs| && fs[e.id - now] == e.file
  {
    if fs != [] {
      var i := |fs| - 1;
      SelectionEntries(fs[..i], now);
      forall e | e in Selection(fs[..i], now)
        ensures 0 <= e.id - now < |fs| && fs[e.id - now] == e.file
      {
        assert fs[..i][e.id - now] == fs[e.id - now];
      }
    }
  }

  /** Every passing candidate is listed. */
  lemma {:induction false} SelectionComplete(fs: seq<FileInfo>, now: int)
    ensures forall k :: 0 <= k < |fs| && Passes(fs[k]) ==> FileEntry(fs[k], now + k, None) in Selection(fs, now)
  {
    if fs != [] {
      var i := |fs| - 1;
      SelectionComplete(fs[..i], now);
      forall k | 0 <= k < i && Passes(fs[k])
        ensures FileEntry(fs[k], now + k, None) in Selection(fs, now)
      {
        assert fs[..i][k] == fs[k];
      }
    }
  }

  /** The list keeps input order: ids increase along it. */
  lemma {:induction false} SelectionOrdered(fs: seq<FileInfo>, now: int)
    ensures forall i, j :: 0 <= i < j < |Selection(fs, now)| ==> Selection(fs, now)[i].id < Selection(fs, now)[j].id
  {
    if fs != [] {
      var n := |fs| - 1;
      SelectionOrdered(fs[..n], now);
      SelectionEntries(fs[..n], now);
      var prefix := Selection(fs[..n], now);
      forall k | 0 <= k < |prefix| ensures prefix[k].id < now + n {
        assert prefix[k] in prefix;
      }
    }
  }

  /** The list holds exactly the passing candidates, in input order, each with
      id `now + its input index` and no preview. */
  lemma SelectionShape(fs: seq<FileInfo>, now: int)
    ensures forall e :: e in Selection(fs, now) ==>
              Passes(e.file) && e.preview == None && 0 <= e.id - now < |fs| && fs[e.id - now] == e.file
    ensures forall k :: 0 <= k < |fs| && Passes(fs[k]) ==> FileEntry(fs[k], now + k, None) in Selection(fs, now)
    ensures forall i, j :: 0 <= i < j < |Selection(fs, now)| ==> Selection(fs, now)[i].id < Selection(fs, now)[j].id
  {
    SelectionEntries(fs, now);
    SelectionComplete(fs, now);
    SelectionOrdered(fs, now);
  }

  /** `Math.min(i + 1, len - 1)`. */
  function NextIndex(i: int, len: int): (r: int)
    ensures r <= i + 1 && r <= len - 1
    ensures r == i + 1 || r == len - 1
  {
    if i + 1 < len - 1 then i + 1 else len - 1
  }

  /** `Math.max(i - 1, 0)`. */
  function PrevIndex(i: int): (r: int)
    ensures r >= i - 1 && r >= 0
    ensures r == i - 1 || r == 0
  {
    if i - 1 > 0 then i - 1 else 0
  }

  datatype Move = Next | Prev

  /** The index after a sequence of button presses on a deck of `len` cards. */
  function Navigate(i: int, len: int, moves: seq<Move>): (r: int)
    ensures 0 <= i < len ==> 0 <= r < len && i - |moves| <= r <= i + |moves|
  {
    if moves == [] then i
    else
      var j := Navigate(i, len, moves[..|moves| - 1]);
      match moves[|moves| - 1]
      case Next => NextIndex(j, len)
      case Prev => PrevIndex(j)
  }

  /** On a non-empty deck an index in range stays in range, whatever is pressed. */
  lemma {:induction false} NavigateStaysInRange(i: int, len: int, moves: seq<Move>)
    requires 0 <= i < len
    ensures 0 <= Navigate(i, len, moves) < len
  {
    if moves != [] {
      NavigateStaysInRange(i, len, moves[..|moves| - 1]);
    }
  }

  /** Next then Prev returns to the card one started from, except on the last
      card, where Next does not move; Prev then Next likewise except on the first. */
  lemma NextPrevInverse(i: int, len: int)
    requires 0 <= i < len
    ensures i < len - 1 ==> PrevIndex(NextIndex(i, len)) == i
    ensures i == len - 1 ==> NextIndex(i, len) == i
    ensures 0 < i ==> NextIndex(PrevIndex(i), len) == i
    ensures i == 0 ==> PrevIndex(i) == 0
  {
  }

  class Page {
    var files: seq<FileEntry>
    var uploading: bool
    var errors: map<string, string>
    var uploadedFileId: Option<string>
    var flashcards: seq<Card>
    var loading: bool
    var error: Option<string>
    var currentIndex: int
    var showAnswer: bool
    var requests: seq<Request>  // every request the page has sent, in order

    /** Every listed file passed validation and has no preview. */
    ghost predicate Valid()
      reads this
    {
      forall e :: e in files ==> Passes(e.file) && e.preview == None
    }

    predicate IndexInRange()
      reads this
    {
      0 <= currentIndex < |flashcards|
    }

    constructor ()
      ensures Valid()
      ensures files == [] && !uploading && errors == map[] && uploadedFileId == None
      ensures flashcards == [] && !loading && error == None && currentIndex == 0 && !showAnswer
      ensures requests == []
    {
      files, uploading, errors, uploadedFileId := [], false, map[], None;
      flashcards, loading, error, currentIndex, showAnswer := [], false, None, 0, false;
      requests := [];
    }

    /** `processFiles`: replaces both the list and the errors with this pass's
        results; there is no count check and nothing is appended. */
    method ProcessFiles(newFiles: seq<FileInfo>, now: int)
      requires Valid()
      modifies this
      ensures Valid()
      ensures files == Selection(newFiles, now) && errors == ValidationErrors(newFiles)
      ensures uploading == old(uploading) && uploadedFileId == old(uploadedFileId)
      ensures flashcards == old(flashcards) && loading == old(loading) && error == old(error)
      ensures currentIndex == old(currentIndex) && showAnswer == old(showAnswer) && requests == old(requests)
    {
      var valid: seq<FileEntry> := [];
      var errs: map<string, string> := map[];
      var i := 0;
      while i < |newFiles|
        invariant 0 <= i <= |newFiles|
        invariant valid == Selection(newFiles[..i], now)
        invariant errs == ValidationErrors(newFiles[..i])
      {
        var file := newFiles[i];
        assert newFiles[..i + 1][..i] == newFiles[..i];
        var err := ValidateFile(file, MaxFileSizeMiB, AllowedTypes);
        if err.Some? {
          errs := errs[file.name := err.value];
        } else {
          valid := valid + [FileEntry(file, now + i, None)];
        }
        i := i + 1;
      }
      assert newFiles[..i] == newFiles;
      SelectionShape(newFiles, now);
      errors := errs;
      files := valid;
    }

    /** `handleSubmit` up to the upload request. The submit button is
        disabled while the deck is loading, so nothing happens then; with no
        file the page alerts; otherwise `files[0]` alone is sent. */
    method StartSubmit() returns (notice: Option<string>, sent: bool)
      requires Valid()
      modifies this
      ensures Valid() && files == old(files) && errors == old(errors)
      ensures uploadedFileId == old(uploadedFileId) && flashcards == old(flashcards) && loading == old(loading)
      ensures error == old(error) && currentIndex == old(currentIndex) && showAnswer == old(showAnswer)
      ensures sent <==> !old(loading) && old(files) != []
      ensures notice.Some? <==> !old(loading) && old(files) == []
      ensures notice.Some? ==> notice.value == EmptySelectionNotice
      ensures !sent ==> uploading == old(uploading) && requests == old(requests)
      ensures sent ==> uploading && requests == old(requests) + [PostUpload(old(files)[0].file.name)]
    {
      if loading {
        return None, false;
      }
      if |files| == 0 {
        return Some(EmptySelectionNotice), false;
      }
      uploading := true;
      requests := requests + [PostUpload(files[0].file.name)];
      notice, sent := None, true;
    }

    /** `handleSubmit` after the upload settled: the saved name becomes the
        uploaded id, or the error is set; uploading ends either way. Returns
        whether the id changed to a truthy value, which is when the fetch
        effect runs. */
    method FinishSubmit(result: UploadResult) returns (fetchDue: bool)
      requires Valid()
      modifies this
      ensures Valid() && files == old(files) && errors == old(errors) && !uploading
      ensures flashcards == old(flashcards) && loading == old(loading)
      ensures currentIndex == old(currentIndex) && showAnswer == old(showAnswer) && requests == old(requests)
      ensures result.Answered? ==> uploadedFileId == result.savedAs && error == old(error)
      ensures result.UploadThrew? ==> uploadedFileId == old(uploadedFileId) && error == Some(UploadFailedMessage)
      ensures fetchDue <==> uploadedFileId != old(uploadedFileId) && Truthy(uploadedFileId)
    {
      var previous := uploadedFileId;
      match result {
        case Answered(savedAs) => uploadedFileId := savedAs;
        case UploadThrew => error := Some(UploadFailedMessage);
      }
      uploading := false;
      fetchDue := uploadedFileId != previous && Truthy(uploadedFileId);
    }

    /** The fetch effect's synchronous part: nothing happens for a falsy id;
        otherwise loading is set, the error cleared and the request sent. */
    method BeginFetch() returns (started: bool)
      modifies this
      ensures started == Truthy(old(uploadedFileId))
      ensures files == old(files) && errors == old(errors) && uploading == old(uploading)
      ensures uploadedFileId == old(uploadedFileId) && flashcards == old(flashcards)
      ensures currentIndex == old(currentIndex) && showAnswer == old(showAnswer)
      ensures !started ==> loading == old(loading) && error == old(error) && requests == old(requests)
      ensures started ==> loading && error == None &&
                          requests == old(requests) + [GetFlashcards(old(uploadedFileId).value)]
    {
      if !Truthy(uploadedFileId) {
        return false;
      }
      loading := true;
      error := None;
      requests := requests + [GetFlashcards(uploadedFileId.value)];
      started := true;
    }

    /** The fetch effect's `then`/`catch`/`finally`: a response replaces the deck
        (an absent field gives the empty deck) and resets the index; a failure
        records the message; loading ends either way. No check is made that the
        response belongs to the current id. */
    method SettleFetch(result: FetchResult)
      modifies this
      ensures !loading
      ensures files == old(files) && errors == old(errors) && uploading == old(uploading)
      ensures uploadedFileId == old(uploadedFileId) && showAnswer == old(showAnswer) && requests == old(requests)
      ensures result.Fetched? ==>
                flashcards == result.flashcards.GetOr([]) && currentIndex == 0 && error == old(error)
      ensures result.Fetched? && flashcards != [] ==> IndexInRange()
      ensures result.FetchThrew? ==>
                flashcards == old(flashcards) && currentIndex == old(currentIndex) &&
                error == Some(FetchFailedMessage)
    {
      match result {
        case Fetched(cards) =>
          flashcards := cards.GetOr([]);
          currentIndex := 0;
        case FetchThrew =>
          error := Some(FetchFailedMessage);
      }
      loading := false;
    }

    /** The deck and its controls are rendered only when nothing is loading,
        no error is set and there is at least one card. */
    predicate DeckShown()
      reads this
    {
      !loading && error.None? && flashcards != []
    }

    /** `next`: hides the answer and moves right, never past the last card.
        The button is disabled on the last card, where nothing happens. */
    method Next()
      requires DeckShown()
      modifies this
      ensures old(currentIndex) == |flashcards| - 1 ==>
                showAnswer == old(showAnswer) && currentIndex == old(currentIndex)
      ensures old(currentIndex) != |flashcards| - 1 ==>
                !showAnswer && currentIndex == NextIndex(old(currentIndex), |flashcards|)
      ensures old(IndexInRange()) ==> IndexInRange()
      ensures files == old(files) && errors == old(errors) && uploading == old(uploading)
      ensures uploadedFileId == old(uploadedFileId) && flashcards == old(flashcards)
      ensures loading == old(loading) && error == old(error) && requests == old(requests)
    {
      if currentIndex == |flashcards| - 1 {
        return;
      }
      showAnswer := false;
      currentIndex := NextIndex(currentIndex, |flashcards|);
    }

    /** `prev`: hides the answer and moves left, never before the first card.
        The button is disabled on the first card, where nothing happens. */
    method Prev()
      requires DeckShown()
      modifies this
      ensures old(currentIndex) == 0 ==> showAnswer == old(showAnswer) && currentIndex == 0
      ensures old(currentIndex) != 0 ==> !showAnswer && currentIndex == PrevIndex(old(currentIndex))
      ensures old(IndexInRange()) ==> IndexInRange()
      ensures files == old(files) && errors == old(errors) && uploading == old(uploading)
      ensures uploadedFileId == old(uploadedFileId) && flashcards == old(flashcards)
      ensures loading == old(loading) && error == old(error) && requests == old(requests)
    {
      if currentIndex == 0 {
        return;
      }
      showAnswer := false;
      currentIndex := PrevIndex(currentIndex);
    }

    /** A click on the card toggles between question and answer. */
    method FlipCard()
      requires DeckShown()
      modifies this
      ensures showAnswer == !old(showAnswer)
      ensures files == old(files) && errors == old(errors) && uploading == old(uploading)
      ensures uploadedFileId == old(uploadedFileId) && flashcards == old(flashcards)
      ensures currentIndex == old(currentIndex) && loading == old(loading)
      ensures error == old(error) && requests == old(requests)
    {
      showAnswer := !showAnswer;
    }

    /** The list's remove handler: empties the list whatever the id. Its
        button is disabled while uploading, when nothing happens. */
    method RemoveFile(id: int)
      requires Valid()
      modifies this
      ensures Valid() && files == (if old(uploading) then old(files) else [])
      ensures errors == old(errors) && uploading == old(uploading) && uploadedFileId == old(uploadedFileId)
      ensures flashcards == old(flashcards) && loading == old(loading) && error == old(error)
      ensures currentIndex == old(currentIndex) && showAnswer == old(showAnswer) && requests == old(requests)
    {
      if !uploading {
        files := [];
      }
    }

    /** The list's clear handler: the same as remove; errors and the uploaded id stay. */
    method ClearAll()
      requires Valid()
      modifies this
      ensures Valid() && files == (if old(uploading) then old(files) else [])
      ensures errors == old(errors) && uploading == old(uploading) && uploadedFileId == old(uploadedFileId)
      ensures flashcards == old(flashcards) && loading == old(loading) && error == old(error)
      ensures currentIndex == old(currentIndex) && showAnswer == old(showAnswer) && requests == old(requests)
    {
      if !uploading {
        files := [];
      }
    }
  }

  /** With no stale-response check, a response for an older id that arrives
      after the newer one decides the deck. The submit button is disabled only
      while a deck loads, so a second submit can start while the first upload
      is in flight: both uploads answer (A, then B), each starts a fetch, B's
      fetch answers first and A's last; the deck is A's while the id is B. */
  method LateResponseWins(deckA: seq<Card>, deckB: seq<Card>, now: int) returns (deck: seq<Card>, shownId: Option<string>)
    ensures deck == deckA && shownId == Some("B.txt")
  {
    var page := new Page();
    page.ProcessFiles([FileInfo("notes.txt", 1, "text/plain")], now);
    assert [FileInfo("notes.txt", 1, "text/plain")][..0] == [];
    assert page.files != [];
    var _, sentA := page.StartSubmit();
    var _, sentB := page.StartSubmit();
    var dueA := page.FinishSubmit(Answered(Some("A.txt")));
    var startedA := page.BeginFetch();
    var dueB := page.FinishSubmit(Answered(Some("B.txt")));
    var startedB := page.BeginFetch();
    assert sentA && sentB && dueA && startedA && dueB && startedB;
    page.SettleFetch(Fetched(Some(deckB)));
    page.SettleFetch(Fetched(Some(deckA)));
    deck, shownId := page.flashcards, page.uploadedFileId;
  }

  /** An upload the route refused answers without `saved_as`: the id becomes
      undefined, the effect returns early, and neither a deck nor an error is
      shown. The page gives no sign that the upload was refused. */
  method RefusedUploadShowsNothing(now: int) returns (fetched: bool, shown: Option<string>, deck: seq<Card>)
    ensures !fetched && shown == None && deck == []
  {
    var page := new Page();
    page.ProcessFiles([FileInfo("notes.md", 1, "text/plain")], now);
    assert [FileInfo("notes.md", 1, "text/plain")][..0] == [];
    assert page.files != [];
    var _, sent := page.StartSubmit();
    assert sent;
    var due := page.FinishSubmit(Answered(None));
    assert !due;
    fetched := page.BeginFetch();
    shown, deck := page.error, page.flashcards;
  }
}
