/** GET /generate_flashcards/<filename>. As in the summary route, the
    existence test, the reader, the generator, `json.loads` and the file write
    are outside: `fileExists`, `content` (None when the reader raised),
    `generated` (None when the generator raised), `reparsed` (what
    `json.loads` makes of a string result, None on a decode error) and
    `writeOk` stand for their outcomes. Every reply is a JSON body with
    status 200. */
module FlashcardsRoute {
  import opened Wrappers
  import opened Json
  import opened ExtensionCheck
  import opened Generation
  import FlashcardGen

  const DefaultFolder: string := "flashcards"

  /** The reply, the reader that was run if any, and the deck file written if any. */
  datatype FlashcardsRun = FlashcardsRun(reply: Json, reader: Option<Reader>, written: Option<OutputFile<Json>>)

  /** `current_app.config.get("FLASHCARDS_FOLDER", "flashcards")`. */
  function FlashcardsFolder(configured: Option<string>): (r: string)
    ensures configured.Some? ==> r == configured.value
    ensures configured.None? ==> r == DefaultFolder
  {
    configured.GetOr(DefaultFolder)
  }

  /** What is saved and sent: a string result is decoded once more, anything else as it is. */
  function Deck(g: Json, reparsed: Option<Json>): (r: Option<Json>)
    ensures r.None? ==> g.JStr? && reparsed.None?
    ensures !g.JStr? ==> r == Some(g)
  {
    if g.JStr? then reparsed else Some(g)
  }

  function GenerateFlashcardsRoute(filename: string, configuredFolder: Option<string>, fileExists: bool,
                                   content: Option<string>, generated: Option<Json>,
                                   reparsed: Option<Json>, writeOk: bool): (r: FlashcardsRun)
    ensures !NameIsValid(filename) ==>
              r == FlashcardsRun(ErrorBody("Invalid filename"), None, None)
    ensures NameIsValid(filename) && !fileExists ==>
              r == FlashcardsRun(ErrorBody("File not found"), None, None)
    ensures NameIsValid(filename) && fileExists && ReaderFor(Extension(filename).value).None? ==>
              r == FlashcardsRun(ErrorBody("Unsupported file format"), None, None)
    ensures r.reader.Some? <==>
              NameIsValid(filename) && fileExists && ReaderFor(Extension(filename).value).Some?
    ensures r.reader.Some? ==> r.reader == ReaderFor(Extension(filename).value)
    ensures r.reader.Some? && (content.None? || generated.None?) ==>
              r.reply == ErrorBody("Error generating flashcards") && r.written.None?
    ensures r.reader.Some? && content.Some? && generated.Some? && generated.value.JStr? && reparsed.None? ==>
              r.reply == ErrorBody("Invalid flashcard JSON output") && r.written.None?
    ensures r.written.Some? <==>
              r.reader.Some? && content.Some? && generated.Some? &&
              Deck(generated.value, reparsed).Some? && writeOk
    ensures r.written.Some? ==>
              var deck := Deck(generated.value, reparsed).value;
              r.reply == Single("flashcards", deck) &&
              r.written.value == OutputFile(FlashcardsFolder(configuredFolder),
                                            SplitextRoot(filename) + "_flashcards.json", deck)
    ensures r.reader.Some? && content.Some? && generated.Some? &&
            Deck(generated.value, reparsed).Some? && !writeOk ==>
              r.reply == ErrorBody("Error generating flashcards")
    ensures r.reply.JObj? && (r.written.None? ==> "flashcards" !in r.reply.fields)
  {
    var uid := SplitextRoot(filename);
    var folder := FlashcardsFolder(configuredFolder);
    if !NameIsValid(filename) then FlashcardsRun(ErrorBody("Invalid filename"), None, None)
    else if !fileExists then FlashcardsRun(ErrorBody("File not found"), None, None)
    else
      match ReaderFor(Extension(filename).value)
      case None => FlashcardsRun(ErrorBody("Unsupported file format"), None, None)
      case Some(reader) =>
        if content.None? || generated.None? then
          FlashcardsRun(ErrorBody("Error generating flashcards"), Some(reader), None)
        else
          match Deck(generated.value, reparsed)
          case None => FlashcardsRun(ErrorBody("Invalid flashcard JSON output"), Some(reader), None)
          case Some(deck) =>
            if !writeOk then FlashcardsRun(ErrorBody("Error generating flashcards"), Some(reader), None)
            else FlashcardsRun(Single("flashcards", deck), Some(reader),
                               Some(OutputFile(folder, uid + "_flashcards.json", deck)))
  }

  /** With the generator in place, a model answer that is not JSON reaches the
      client as a successful reply whose deck is the generator's error object,
      and is saved as such. */
  lemma ModelErrorIsSentAsDeck(filename: string, configuredFolder: Option<string>, content: string,
                               reparsed: Option<Json>)
    requires NameIsValid(filename) && ReaderFor(Extension(filename).value).Some?
    ensures var run := GenerateFlashcardsRoute(filename, configuredFolder, true, Some(content),
                                               Some(FlashcardGen.GenerateFlashcards(None)), reparsed, true);
            run.reply == Single("flashcards", ErrorBody(FlashcardGen.InvalidJsonMessage)) &&
            run.written.Some? && run.written.value.contents == ErrorBody(FlashcardGen.InvalidJsonMessage)
  {
  }

  /** Any result that is not a string is sent and saved exactly as the generator returned it. */
  lemma NonStringResultIsSaved(filename: string, configuredFolder: Option<string>, content: string,
                               g: Json, reparsed: Option<Json>)
    requires NameIsValid(filename) && ReaderFor(Extension(filename).value).Some? && !g.JStr?
    ensures GenerateFlashcardsRoute(filename, configuredFolder, true, Some(content), Some(g), reparsed, true)
            == FlashcardsRun(Single("flashcards", g), ReaderFor(Extension(filename).value),
                             Some(OutputFile(FlashcardsFolder(configuredFolder),
                                             SplitextRoot(filename) + "_flashcards.json", g)))
  {
  }

  /** With the generator in place, a list of card objects is sent and saved
      with its long answers trimmed. */
  lemma CardListIsTrimmedAndSaved(filename: string, configuredFolder: Option<string>, content: string,
                                  cards: seq<Json>, reparsed: Option<Json>)
    requires NameIsValid(filename) && ReaderFor(Extension(filename).value).Some?
    requires forall i :: 0 <= i < |cards| ==> cards[i].JObj?
    ensures FlashcardGen.TrimAll(cards).Some?
    ensures GenerateFlashcardsRoute(filename, configuredFolder, true, Some(content),
                                    Some(FlashcardGen.GenerateFlashcards(Some(JArr(cards)))), reparsed, true).reply
            == Single("flashcards", JArr(FlashcardGen.TrimAll(cards).value))
  {
    FlashcardGen.CardListResult(cards);
    NonStringResultIsSaved(filename, configuredFolder, content, JArr(FlashcardGen.TrimAll(cards).value), reparsed);
  }

  /** With the generator in place, the string branch only ever sees the empty
      string, which `json.loads` refuses: the `None` passed for `reparsed`
      stands for `json.loads("")` raising, so a string result always ends in
      the decode-error reply. */
  lemma StringBranchEndsInDecodeError(filename: string, configuredFolder: Option<string>, content: string,
                                      parsed: Option<Json>)
    requires NameIsValid(filename) && ReaderFor(Extension(filename).value).Some?
    requires FlashcardGen.GenerateFlashcards(parsed).JStr?
    ensures FlashcardGen.GenerateFlashcards(parsed) == JStr("")
    ensures GenerateFlashcardsRoute(filename, configuredFolder, true, Some(content),
                                    Some(FlashcardGen.GenerateFlashcards(parsed)), None, true).reply
            == ErrorBody("Invalid flashcard JSON output")
  {
    FlashcardGen.StringResultIsEmpty(parsed);
  }
}
