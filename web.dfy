/** What the browser side sends to the backend, and the JavaScript truthiness
    rules the page handlers apply to strings they receive. */
module Web {
  import opened Wrappers

  /** One HTTP request issued by a page, in the order it was sent. */
  datatype Request =
    | PostUpload(fileName: string)      // POST /upload, multipart field `file`
    | GetSummary(savedAs: string)       // GET /generate_summary/<saved_as>
    | GetFlashcards(savedAs: string)    // GET /generate_flashcards/<saved_as>
    | PostLogin(username: string, password: string)
    | PostSignup(username: string, password: string)

  /** A possibly missing string is truthy in JavaScript when present and non-empty. */
  predicate Truthy(s: Option<string>) {
    s.Some? && s.value != ""
  }

  /** JavaScript's `s || fallback` on a possibly missing string. */
  function OrElse(s: Option<string>, fallback: string): (r: string)
    ensures Truthy(s) ==> r == s.value
    ensures !Truthy(s) ==> r == fallback
    ensures fallback != "" ==> r != ""
  {
    if Truthy(s) then s.value else fallback
  }
}
