# AI-Notes core, modelled in Dafny

AI-Notes is a small study tool. A React front end lets a user pick documents
(PDF, Word, plain text), uploads them to a Flask back end, and asks for an
AI-written summary or a deck of question/answer flashcards. The summary page
holds at most one file at a time. The flashcards page keeps every valid file it
is given but uploads only the first. Two account
pages sign the user up and in.

This project models the logic of that core and proves properties of it:

- the browser-side file validator (`validateFile`) and the backend's extension
  whitelist (`allowed_file`);
- the summary page, a class whose methods follow `processFiles`,
  `handleSubmit`, `removeFile` and `clearAll` and update the page's state;
- the flashcards page: intake, upload, the fetch effect, card navigation and
  the list handlers;
- the upload route's decision chain and its `<uid>.<ext>` naming;
- the summary and flashcards routes: the name check, the extension dispatch,
  the output file naming and the mapping of errors to replies;
- the flashcard generator's answer-trimming loop and its error results;
- the sign-in and sign-up pages' submit handlers.

Things outside the program become parameters of the model:

- network replies;
- whether a file exists;
- the text the readers and extractors return;
- the summarizer's and the language model's output;
- `json.loads` on the model's reply;
- whether a save or a write succeeds;
- `Date.now()`;
- the values typed into the forms.

The browser pages are classes (`SummaryPage.Page`, `FlashcardsPage.Page`,
`LoginPage.Page`, `SignupPage.Page`). Each holds the component's state as
fields and has one method per handler. A `requests` field logs every HTTP
request a page sends, so properties such as "no request is sent" can be
stated. Preview URLs are abstract handles in a `live` set. The back-end routes
are pure functions that return the reply, plus the file each route writes.

Behaviours of the code worth knowing:

- The flashcards page has no stale-response check. If two fetches overlap,
  the response that arrives last replaces the deck, even when it belongs to an
  older upload (`FlashcardsPage.LateResponseWins`).
- The flashcards page's remove and clear handlers only empty the file list.
  They keep the uploaded id and the errors.
- The summary page's `MAX_FILES` gate counts the raw candidates before
  validation, so an invalid file also uses up the single slot.
- The upload whitelist accepts `doc`, but both generation routes refuse it
  as an unsupported format (`SummaryRoute.DocUploadIsNeverSummarized`).
- Both generation routes answer every refusal with status 200. The summary
  page's GET therefore does not throw: the file is counted as a success and
  the page stores `undefined` as its summary
  (`EndToEnd.RouteErrorCountsAsSuccess`).
- The upload route also refuses with status 200 and an `error` body that has
  no `saved_as`. The pages check the reported media type, and the route
  checks the extension, so a plain-text file named `notes.md` passes the page
  and is refused by the route (`EndToEnd.TypeCheckedFileCanBeRefused`). The
  summary page then asks for the summary of `undefined`, which has no dot and
  is refused as an invalid filename. The file still counts as a success, and
  the refusal body is listed as a response (`EndToEnd.RefusedUploadCountsAsSuccess`).
  The flashcards page stores `undefined` as the uploaded id, so no fetch runs
  and no error is shown (`FlashcardsPage.RefusedUploadShowsNothing`).
- A sign-in response without a token still sends the browser to `/summary`.

## Model

| member | source | states |
|---|---|---|
| FileValidation.ValidateFile | frontend/src/components/helpers.ts:9-21 | null exactly when the size is within the limit and the type is listed; an oversized file gets `"<name>: File must be under <limit> MB"`; otherwise a file of an unlisted type gets `"<name>: Invalid file type"` |
| FileValidation.SizeAtLimitPasses | frontend/src/components/helpers.ts:14 | a size exactly at the limit is no size error, and with a listed type the file passes |
| FileValidation.SizeCheckFirst | frontend/src/components/helpers.ts:14-19 | an oversized file of an unlisted type gets the size message, not the type message |
| FileValidation.MessageNamesFile | frontend/src/components/helpers.ts:15-18 | every message begins with the file's name followed by `": "` |
| FileValidation.SizeMessageShowsLimit | frontend/src/components/helpers.ts:15 | with the pages' 10 MiB limit the size message reads `"<name>: File must be under 10 MB"` |
| FileValidation.NoPrefixMatch | frontend/src/components/helpers.ts:17 | the type test is exact membership: `text/plain; charset=utf-8` is refused while `text/plain` passes |
| FileValidation.PassingFileIsNoImage | frontend/src/components/Summary/Summary.tsx:42-47 | no file that passes with the pages' type list has an `image/` type, so no preview is ever created |
| Text.Lower | backend/app/utils/helpers.py:18 | same length as the input, each character lower-cased |
| Text.LowerIdempotent | backend/app/utils/helpers.py:18 | lower-casing twice is lower-casing once |
| Text.LastIndexOf | backend/app/utils/helpers.py:18 | None exactly when the character is absent; otherwise the index holds it and nothing after it does |
| Text.NatToString | frontend/src/components/helpers.ts:15 | a non-empty string of decimal digits |
| Text.NatToStringRoundTrip | frontend/src/components/helpers.ts:15 | reading the digits back gives the number |
| Text.RStrip | backend/app/ai/flashcards.py:77 | a prefix of the input that does not end in whitespace, and only whitespace was dropped |
| ExtensionCheck.AfterLastDot | backend/app/utils/helpers.py:18 | None exactly when there is no dot; otherwise the dot-free text that follows a dot of the name and ends it |
| ExtensionCheck.Extension | backend/app/routes/upload_routes.py:25 | defined exactly when the name has a dot, and shorter than the name; which text it is is stated by `ExtensionCheck.ExtensionIsLastSegment` |
| ExtensionCheck.ExtensionIsLastSegment | backend/app/utils/helpers.py:18 | for a name with a dot, the extension is the lower-cased text after a dot that no later dot follows, i.e. after the last dot |
| ExtensionCheck.AllowedFile | backend/app/utils/helpers.py:17-18 | true exactly when the name has a dot and its lower-cased last segment is in the set |
| ExtensionCheck.NoDotNeverAllowed | backend/app/utils/helpers.py:18 | a name without a dot is never allowed |
| ExtensionCheck.LastSegmentWins | backend/app/utils/helpers.py:18 | the segment after the last dot is the one compared, whatever the stem holds |
| ExtensionCheck.InnerDotsIgnored | backend/app/utils/helpers.py:18 | `a.tar.pdf` is compared as `pdf` |
| ExtensionCheck.UpperCaseAllowed | backend/app/utils/helpers.py:18 | `X.PDF` is allowed whenever `pdf` is in the set |
| ExtensionCheck.TrailingDot | backend/app/utils/helpers.py:18 | `report.` is allowed exactly when the empty extension is in the set |
| ExtensionCheck.OnlyLastSegmentMatters | backend/app/utils/helpers.py:18 | two dotted names with equal lower-cased last segments get the same answer |
| Intake.ValidationErrorsKeys | frontend/src/components/Summary/Summary.tsx:60-63 | a name is an error key exactly when some refused candidate carries it, and its value is that candidate's validator message |
| Intake.ValidationErrors | frontend/src/components/Summary/Summary.tsx:60-63 | the error map of one pass; it has no contract of its own: its keys are stated by `Intake.ValidationErrorsKeys`, and which message a repeated name keeps by `Intake.ValidationErrorsLastWins` |
| Intake.ValidationErrorsLastWins | frontend/src/components/Flashcards/Flashcards.tsx:55-64 | when several refused files share a name, the message kept under it is that of the last of them, as the later assignment `errs[file.name] = error` overwrites the earlier |
| SummaryPage.AcceptedShape | frontend/src/components/Summary/Summary.tsx:60-73 | the appended entries are passing candidates; entry ids are `now` plus the input index and rise in input order; no entry has a preview |
| SummaryPage.Accepted | frontend/src/components/Summary/Summary.tsx:60-73 | the entries one pass appends; it has no contract of its own, and its shape is stated by `SummaryPage.AcceptedShape` and `SummaryPage.AcceptedKeepsPassing` |
| SummaryPage.AcceptedKeepsPassing | frontend/src/components/Summary/Summary.tsx:60-73 | every passing candidate is appended with id `now + index` and no preview |
| SummaryPage.ValidationPass | frontend/src/components/Summary/Summary.tsx:52-73 | the `forEach` loop computes exactly the errors, the accepted entries and the preview handles of the pass |
| SummaryPage.Page.constructor | frontend/src/components/Summary/Summary.tsx:32-39 | empty list, no errors, no responses, empty summary, nothing uploading |
| SummaryPage.Page.ProcessFiles | frontend/src/components/Summary/Summary.tsx:50-77 | over `MAX_FILES` raw candidates: the alert, and files and errors unchanged; otherwise errors replaced by this pass's and accepted files appended in input order; the store invariant is kept |
| SummaryPage.Page.HandleSubmit | frontend/src/components/Summary/Summary.tsx:85-129 | an empty list alerts and changes nothing; otherwise errors hold exactly the failed files, the responses the fully successful ones in order, the summary the last success's, every file is uploaded in list order, and uploading ends false |
| SummaryPage.EveryFileUploadedInOrder | frontend/src/components/Summary/Summary.tsx:96-108 | the uploads a submit sends name exactly the listed files, in list order |
| SummaryPage.SubmitRequests | frontend/src/components/Summary/Summary.tsx:96-113 | every file sends one or two requests: its upload, and its summary request when the upload answered |
| SummaryPage.SubmitErrors | frontend/src/components/Summary/Summary.tsx:119-124 | every recorded error carries the fixed failure message |
| SummaryPage.SubmitResponses | frontend/src/components/Summary/Summary.tsx:116-118 | at most one response per file |
| SummaryPage.LastSummary | frontend/src/components/Summary/Summary.tsx:114 | the earlier summary, or the summary field of some fully successful file |
| SummaryPage.SubmitErrorsKeys | frontend/src/components/Summary/Summary.tsx:119-124 | a name is an error key exactly when that file failed at upload or summary, and its value is the fixed failure message |
| SummaryPage.SubmitResponsesAreSuccesses | frontend/src/components/Summary/Summary.tsx:116-118 | the response list holds exactly the uploads of fully successful files; it is as long as the batch only when every file succeeded |
| SummaryPage.LastSummaryIsLastSuccess | frontend/src/components/Summary/Summary.tsx:114 | the summary shown is that of the last fully successful file |
| SummaryPage.LastSummaryNoSuccess | frontend/src/components/Summary/Summary.tsx:114 | with no success the earlier summary stays |
| SummaryPage.ThreeFilesMiddleFails | frontend/src/components/Summary/Summary.tsx:96-126 | three files with the middle upload failing: two responses, the middle name as the only error key, the third summary shown |
| SummaryPage.FindById | frontend/src/components/Summary/Summary.tsx:133 | None exactly when no entry has the id; otherwise the first entry with it |
| SummaryPage.WithoutId | frontend/src/components/Summary/Summary.tsx:135 | keeps exactly the entries with other ids, and everything when none matches |
| SummaryPage.RemoveReleasesPreview | frontend/src/components/Summary/Summary.tsx:131-137 | on the page's at most one entry, removal drops exactly the released preview |
| SummaryPage.Page.RemoveFile | frontend/src/components/Summary/Summary.tsx:131-137 | the entries with the id are gone, the first one's preview is released, and nothing else changes |
| SummaryPage.Page.ClearAll | frontend/src/components/Summary/Summary.tsx:139-144 | every preview is released, files and errors are emptied, and the summary and responses stay |
| FlashcardsPage.SelectionEntries | frontend/src/components/Flashcards/Flashcards.tsx:55-63 | every listed entry passed, has no preview, and has id `now` plus its input index |
| FlashcardsPage.SelectionComplete | frontend/src/components/Flashcards/Flashcards.tsx:55-63 | every passing candidate is listed |
| FlashcardsPage.SelectionOrdered | frontend/src/components/Flashcards/Flashcards.tsx:55-63 | ids rise along the list, so input order is kept |
| FlashcardsPage.SelectionShape | frontend/src/components/Flashcards/Flashcards.tsx:50-68 | the three facts together |
| FlashcardsPage.Selection | frontend/src/components/Flashcards/Flashcards.tsx:50-68 | at most one entry per candidate; which entries, their ids and their order are stated by the three Selection lemmas |
| FlashcardsPage.NextIndex | frontend/src/components/Flashcards/Flashcards.tsx:115 | `min(i + 1, len - 1)` |
| FlashcardsPage.PrevIndex | frontend/src/components/Flashcards/Flashcards.tsx:119 | `max(i - 1, 0)` |
| FlashcardsPage.Navigate | frontend/src/components/Flashcards/Flashcards.tsx:113-120 | from an index in range on a non-empty deck, the index stays in range and moves at most one card per press |
| FlashcardsPage.NavigateStaysInRange | frontend/src/components/Flashcards/Flashcards.tsx:113-120 | on a non-empty deck an index in range stays in range under any sequence of presses |
| FlashcardsPage.NextPrevInverse | frontend/src/components/Flashcards/Flashcards.tsx:113-120 | next then prev returns to the card away from the last card, and prev then next away from the first |
| FlashcardsPage.Page.constructor | frontend/src/components/Flashcards/Flashcards.tsx:35-45 | the initial state |
| FlashcardsPage.Page.ProcessFiles | frontend/src/components/Flashcards/Flashcards.tsx:50-68 | the list and the errors are both replaced by this pass's results; there is no count check |
| FlashcardsPage.Page.StartSubmit | frontend/src/components/Flashcards/Flashcards.tsx:75-87 | nothing while a deck loads (the button is disabled); an empty list alerts and sends nothing; otherwise only `files[0]` is uploaded |
| FlashcardsPage.Page.FinishSubmit | frontend/src/components/Flashcards/Flashcards.tsx:88-92 | an answer sets the uploaded id to the body's `saved_as`, undefined when the route refused the file; a throw sets "Upload failed"; uploading ends; the fetch is due exactly when the id changed to a truthy value |
| FlashcardsPage.Page.BeginFetch | frontend/src/components/Flashcards/Flashcards.tsx:96-102 | nothing for a falsy id; otherwise loading, the error cleared, and the GET for that id sent |
| FlashcardsPage.Page.SettleFetch | frontend/src/components/Flashcards/Flashcards.tsx:103-108 | a reply replaces the deck by `flashcards ?? []` and resets the index; a failure sets "Could not generate flashcards"; loading ends |
| FlashcardsPage.Page.Next | frontend/src/components/Flashcards/Flashcards.tsx:113-116 | hides the answer and moves right by the clamp; nothing on the last card, where the button is disabled |
| FlashcardsPage.Page.Prev | frontend/src/components/Flashcards/Flashcards.tsx:117-120 | hides the answer and moves left by the clamp; nothing on the first card |
| FlashcardsPage.Page.FlipCard | frontend/src/components/Flashcards/Flashcards.tsx:190 | toggles between question and answer |
| FlashcardsPage.Page.RemoveFile | frontend/src/components/Flashcards/Flashcards.tsx:161 | empties the list whatever the id (unless uploading, when the button is disabled); errors and the uploaded id stay |
| FlashcardsPage.Page.ClearAll | frontend/src/components/Flashcards/Flashcards.tsx:162 | the same as remove |
| FlashcardsPage.LateResponseWins | frontend/src/components/Flashcards/Flashcards.tsx:96-109 | two overlapping submits whose fetches answer out of order leave deck A on screen while the id is B |
| FlashcardsPage.RefusedUploadShowsNothing | frontend/src/components/Flashcards/Flashcards.tsx:88-98 | an upload answered without `saved_as` leaves the id undefined, so no fetch starts, and neither an error nor a deck is shown |
| FlashcardGen.TrimAnswer | backend/app/ai/flashcards.py:76-77 | answers of at most 60 characters are kept; a longer one becomes its first 57 characters, right-stripped, plus "..."; the result never exceeds 60 |
| FlashcardGen.TrimAnswerIdempotent | backend/app/ai/flashcards.py:76-77 | trimming twice changes nothing more |
| FlashcardGen.TrimCard | backend/app/ai/flashcards.py:75-77 | only card objects are handled; the keys and every field but `answer` are unchanged; a string `answer` is trimmed |
| FlashcardGen.TrimAll | backend/app/ai/flashcards.py:75-77 | defined exactly when every card is an object; count and order are kept, and each card is trimmed |
| FlashcardGen.TrimCardIdempotent | backend/app/ai/flashcards.py:75-77 | a trimmed card trims to itself |
| FlashcardGen.TrimAllIdempotent | backend/app/ai/flashcards.py:75-77 | a trimmed deck trims to itself |
| FlashcardGen.TrimmedAnswersBounded | backend/app/ai/flashcards.py:76-77 | every string answer of a trimmed deck has at most 60 characters |
| FlashcardGen.GenerateFlashcards | backend/app/ai/flashcards.py:61-86 | the result is a list, an object or the empty string, and a non-empty object result is always an `{"error": ...}` object |
| FlashcardGen.GenerateResults | backend/app/ai/flashcards.py:72-86 | the result is the trimmed list, an empty object or string passed through, or one of the two error objects; the invalid-JSON object comes exactly from a reply that does not parse |
| FlashcardGen.CardListResult | backend/app/ai/flashcards.py:73-79 | a list of card objects comes back trimmed |
| FlashcardGen.ObjectReplyIsUnexpected | backend/app/ai/flashcards.py:75-86 | a non-empty object, such as the prompt's own `{"error": ...}` answer, becomes the unexpected-error object |
| FlashcardGen.StringResultIsEmpty | backend/app/ai/flashcards.py:73-79 | the only string the generator can return is the empty one |
| FlashcardGen.TrimInPlace | backend/app/ai/flashcards.py:75-77 | the in-place loop trims every card when all are objects; otherwise it stops at the first non-object with the earlier cards trimmed and the rest untouched |
| FlashcardGen.Generate | backend/app/ai/flashcards.py:72-86 | the generator, running the in-place loop, returns what the specification function gives |
| UploadRoute.Upload | backend/app/routes/upload_routes.py:8-44 | checks in order: "No file part", "No selected file", "Invalid file format"; a file is stored exactly when its name passes the whitelist and the save succeeds; it is stored as `<uid>.<lower ext>` and the reply echoes the uid, the original name and the stored name |
| UploadRoute.RefusalsAreStatus200 | backend/app/routes/upload_routes.py:12-44 | every refusal is a 200 reply with an `error` field; a 500 comes only from a failed save |
| UploadRoute.StoredNameKeepsExtension | backend/app/routes/upload_routes.py:24-26 | the stored name's extension is the original's lower-cased extension |
| UploadRoute.StoredName | backend/app/routes/upload_routes.py:24-26 | the uid, then a dot, then the rest of the name |
| UploadRoute.DocIsAccepted | backend/app/__init__.py:41 | a `.doc` file passes the configured whitelist, and its extension reads as `doc` |
| UploadRoute.AllowedExtensionIsPlain | backend/app/__init__.py:41 | a name that passes the configured whitelist has an extension with neither a dot nor a slash, whatever name the client sent |
| Generation.SplitextRoot | backend/app/routes/summary_routes.py:12 | a prefix of the name; when shorter, it is followed by a dot and no dot comes later |
| Generation.NameIsValid | backend/app/routes/summary_routes.py:16 | a name passes exactly when it has an extension to split off, so the later `rsplit(".", 1)[1]` never fails |
| Generation.ReaderFor | backend/app/routes/summary_routes.py:26-37 | a reader exists exactly for `txt`, `pdf` and `docx`, and `txt` is read as UTF-8 text |
| Generation.SplitextOfStoredName | backend/app/routes/summary_routes.py:12 | the uid derived from a stored name `<uid>.<ext>` is the upload's uid |
| Generation.DocIsUnsupported | backend/app/routes/summary_routes.py:26-37 | `doc` has no reader |
| SummaryRoute.GenerateSummary | backend/app/routes/summary_routes.py:10-50 | checks in order: "Invalid filename", "File not found", "Unsupported file format"; any failure after that is "Error generating summary"; on success the reply is `{"summary": s}` and `s` is written to `<uid>_summary.txt` |
| SummaryRoute.UnsupportedNameIsRefused | backend/app/routes/summary_routes.py:35-37 | an existing file without a reader is refused whatever would follow |
| SummaryRoute.SupportedNameIsSaved | backend/app/routes/summary_routes.py:38-47 | a readable file whose summary succeeds is answered and saved as `<root>_summary.txt` |
| SummaryRoute.StoredUploadIsSummarized | backend/app/routes/summary_routes.py:12-47 | a name the upload route stored passes the name check, is read by the reader for its original extension, and is saved under the upload's uid |
| SummaryRoute.DocUploadIsNeverSummarized | backend/app/routes/summary_routes.py:26-37 | a `.doc` upload is accepted but its summary request is refused as unsupported |
| FlashcardsRoute.FlashcardsFolder | backend/app/routes/flashcards_routes.py:15 | the configured folder, or "flashcards" |
| FlashcardsRoute.Deck | backend/app/routes/flashcards_routes.py:42-47 | only a string result can fail to give a deck, and only when it does not decode; any other result is the deck itself |
| FlashcardsRoute.GenerateFlashcardsRoute | backend/app/routes/flashcards_routes.py:11-60 | the same checks in the same order; a string result that does not decode is "Invalid flashcard JSON output"; any other failure is "Error generating flashcards"; otherwise the deck is written to `<uid>_flashcards.json` and returned under `flashcards` |
| FlashcardsRoute.ModelErrorIsSentAsDeck | backend/app/routes/flashcards_routes.py:39-56 | with the generator in place, a model reply that is not JSON is saved and sent as the deck `{"error": "Invalid JSON output from model"}` |
| FlashcardsRoute.NonStringResultIsSaved | backend/app/routes/flashcards_routes.py:39-56 | any non-string result is saved and returned as it is |
| FlashcardsRoute.CardListIsTrimmedAndSaved | backend/app/routes/flashcards_routes.py:39-56 | with the generator in place, a list of cards is returned trimmed |
| FlashcardsRoute.StringBranchEndsInDecodeError | backend/app/routes/flashcards_routes.py:42-47 | with the generator in place, the string branch only ever sees `""`; `json.loads("")` raises (the `None` passed for the re-decode), so it always ends in the decode-error reply |
| EndToEnd.StringField | frontend/src/components/Summary/Summary.tsx:114 | `data.<key>` (read as `data.summary` here and as `res.data.saved_as` at Flashcards.tsx:88) is present exactly when the body has a string field under that key, and then it is that string |
| EndToEnd.OutcomeOf | frontend/src/components/Summary/Summary.tsx:102-118 | a file whose upload and summary request both answered is a success with that upload body, success or refusal alike, carrying a summary exactly when the reply has a string `summary` field |
| EndToEnd.SummaryShownIffWritten | backend/app/routes/summary_routes.py:38-50 | the page reads a summary from the reply exactly when the route wrote one |
| EndToEnd.RouteErrorCountsAsSuccess | frontend/src/components/Summary/Summary.tsx:111-118 | a summary refused by the route still counts as a success on the page: no error, the response listed, the summary undefined |
| EndToEnd.FlashcardsFieldPresentIffSaved | frontend/src/components/Flashcards/Flashcards.tsx:104 | the reply has a `flashcards` field exactly when the route saved a deck, so an error reply shows an empty deck |
| EndToEnd.SavedAsPresentIffStored | backend/app/routes/upload_routes.py:12-44 | every 200 reply of the upload route carries `saved_as` exactly when the file was stored, and then it names the stored file |
| EndToEnd.TypeCheckedFileCanBeRefused | frontend/src/components/Summary/Summary.tsx:42-47 | a small `text/plain` file named `notes.md` passes the pages' validator and is refused by the upload route with a 200 "Invalid file format" reply |
| EndToEnd.RefusedUploadCountsAsSuccess | frontend/src/components/Summary/Summary.tsx:102-118 | after a refused upload the page requests `/generate_summary/undefined`, gets "Invalid filename", records no error, lists the refusal body as a response and shows an undefined summary |
| Web.OrElse | frontend/src/components/Auth/SignUp.tsx:35 | `s \|\| fallback`: the value when truthy, else the fallback; never empty when the fallback is not |
| LoginPage.LoginErrorMessage | frontend/src/components/Auth/Login.tsx:39-49 | first match wins: timeout code, 401, a truthy server `error`, a "Network Error" message, else the generic text; never empty |
| LoginPage.ServerTextOnlyWhenNotRejected | frontend/src/components/Auth/Login.tsx:43-44 | text that is none of the page's messages is the server's, shown only for a non-401 response without a timeout code |
| LoginPage.RejectionHidesServerText | frontend/src/components/Auth/Login.tsx:41-42 | a 401 never shows the server's own text |
| LoginPage.NoResponseMessages | frontend/src/components/Auth/Login.tsx:45-48 | without a response the message is the network text exactly when axios's message contains "Network Error", else the generic text |
| LoginPage.Page.constructor | frontend/src/components/Auth/Login.tsx:9-12 | empty inputs, no banner, not loading |
| LoginPage.Page.TypeUsername | frontend/src/components/Auth/Login.tsx:71 | sets the username only |
| LoginPage.Page.TypePassword | frontend/src/components/Auth/Login.tsx:79 | sets the password only |
| LoginPage.Page.StartLogin | frontend/src/components/Auth/Login.tsx:14-29 | submits only with both fields filled and no login pending; then the banner is cleared, loading is set and the credentials are posted |
| LoginPage.Page.FinishLogin | frontend/src/components/Auth/Login.tsx:31-52 | the token is stored exactly when the reply has a truthy one, else "Invalid response from server"; any reply goes to `/summary`; a throw shows the chosen message; loading ends |
| LoginPage.Page.HandleLogin | frontend/src/components/Auth/Login.tsx:14-53 | after a submit, loading is off and the banner is empty exactly when a token was stored |
| SignupPage.OutcomeBanner | frontend/src/components/Auth/SignUp.tsx:35-40 | a success shows the server message or "Account created successfully"; a failure shows the server error or "Signup failed"; never empty |
| SignupPage.Page.constructor | frontend/src/components/Auth/SignUp.tsx:9-14 | empty inputs, no banners, not loading |
| SignupPage.Page.TypeUsername | frontend/src/components/Auth/SignUp.tsx:67 | sets the username only |
| SignupPage.Page.TypePassword | frontend/src/components/Auth/SignUp.tsx:75 | sets the password only |
| SignupPage.Page.TypeConfirmPassword | frontend/src/components/Auth/SignUp.tsx:83 | sets the confirmation only |
| SignupPage.Page.StartSignup | frontend/src/components/Auth/SignUp.tsx:16-33 | both banners cleared; a mismatch shows "Passwords do not match", sends nothing and never sets loading; otherwise loading is set and the credentials are posted |
| SignupPage.Page.FinishSignup | frontend/src/components/Auth/SignUp.tsx:34-43 | a success shows its banner and clears all three inputs; a failure shows its banner and keeps them; loading ends |
| SignupPage.Page.HandleSignup | frontend/src/components/Auth/SignUp.tsx:16-44 | a submitted form ends with exactly one banner and loading off |

## Left out

- `formatFileSize` (frontend/src/components/helpers.ts:1-7): it is floating-point arithmetic (`Math.log`, `Math.pow`, rounding).
- FileValidation.ValidateFile: the limit is a whole number of MiB, so the size message prints an integer. A limit that is not a whole number of MiB, and the float text JavaScript would print for it, is not modelled. Both pages use exactly 10 MiB.
- Text.Lower: lower-cases ASCII letters only. Python's full Unicode `str.lower` is not modelled.
- The language-model calls, the summarizer (backend/app/ai/summarizer.py) and its thread pool are not part of this model. Their outputs are parameters.
- The regular expression that strips code fences (backend/app/ai/flashcards.py:68-70): its output is the parameter here.
- `json.loads` and `json.dump`: parsing is the `parsed`/`reparsed` inputs, and writing a value is assumed to always serialize. JSON numbers are integers. Object key order is not kept, because objects are maps.
- Reading files and the PDF and Word extractors (backend/app/utils/file_ops.py) are not part of this model. Their text is the `content` input. A partly written output file is not modelled.
- auth.py, sign_up.py, the database modules and `checkAuth` are not part of this model. Only the pages' view of their replies is modelled.
- Presentation components, routing, dragging state and the hidden file input's reset are left out as presentation.
- FlashcardsPage.SelectionEntries: `Date.now()` is called once per accepted file (Flashcards.tsx:63, Summary.tsx:67). The model uses one reading `now` for the whole pass. The ids `now + i` are exact only while the clock does not advance during the pass; the same holds for SummaryPage.AcceptedShape and FlashcardsPage.SelectionShape.
- `Date.now`, `URL.createObjectURL`/`revokeObjectURL`, `alert`, `localStorage` and `window.location` are modelled as follows: ids are built from a supplied `now`; previews are abstract handles in a `live` set; an alert is a returned notice; the token is stored in a field; navigation records a target path.
- The summary page's submit loop is one method, so its intermediate states, such as `uploading` being true while a request is pending, are not observable. The flashcards, sign-in and sign-up pages split their handlers at the request, so their pending states are modelled.
- FlashcardsPage.Page.SettleFetch: only an array deck or an absent field is modelled. A non-array `flashcards` value, such as the generator's error object, would be stored as-is by the page and is not modelled.
- The summary page's per-file network results are passed in as one sequence. Timing between files is not modelled.
- The hidden file input is disabled while uploading (frontend/src/components/FileUpload/FileDropZone.tsx:67). A drop still reaches `processFiles` during an upload (FileDropZone.tsx:40-47). The model therefore lets `ProcessFiles` run in any state, and the input's guard is not modelled.
- SummaryPage.Page.HandleSubmit: the submit is one atomic step, so no other handler runs while `uploading` is true. Nothing is lost this way. While the summary page submits, its list holds exactly one file. Its remove and clear buttons are disabled (FileItem.tsx:41, FileList.tsx:34). A drop always meets the `MAX_FILES` gate and changes nothing.
- `os.path.join`, `os.makedirs` and the folders' configuration lookups: the folder is a parameter, and a failure of `os.makedirs` is folded into the write outcome.
