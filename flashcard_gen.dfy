/** What the backend's flashcard generator does with the model's reply once it
    has been parsed: the answer-trimming loop and the error results around it.
    The model call, the code-fence stripping and `json.loads` itself are
    outside; their outcome arrives as `parsed` (None for a JSONDecodeError). */
module FlashcardGen {
  import opened Wrappers
  import opened Text
  import opened Json

  const AnswerLimit: nat := 60
  const KeptChars: nat := 57
  const InvalidJsonMessage: string := "Invalid JSON output from model"
  const UnexpectedMessage: string := "Unexpected error occurred"

  /** An answer over the limit becomes its first 57 characters, trailing
      whitespace dropped, followed by "..."; shorter ones are kept. */
  function TrimAnswer(s: string): (r: string)
    ensures |s| <= AnswerLimit ==> r == s
    ensures |r| <= AnswerLimit
    ensures |s| > AnswerLimit ==>
              && 3 <= |r| && r[|r| - 3..] == "..."
              && var kept := r[..|r| - 3];
                 && |kept| <= KeptChars && kept == s[..|kept|]
                 && (kept == [] || !IsPySpace(kept[|kept| - 1]))
                 && (forall i :: |kept| <= i < KeptChars ==> IsPySpace(s[i]))
  {
    if |s| > AnswerLimit then
      var kept := RStrip(s[..KeptChars]);
      var r := kept + "...";
      assert r[..|r| - 3] == kept;
      r
    else s
  }

  /** Trimming twice is trimming once. */
  lemma TrimAnswerIdempotent(s: string)
    ensures TrimAnswer(TrimAnswer(s)) == TrimAnswer(s)
  {
  }

  /** The new value of `card["answer"]`: a string is trimmed, anything else kept. */
  function TrimmedAnswer(v: Json): Json {
    match v
    case JStr(a) => JStr(TrimAnswer(a))
    case _ => v
  }

  /** One pass of the loop body. None when the card is not an object, where
      `card.get` raises. Only the answer changes; the question and every other
      key keep their values. */
  function TrimCard(card: Json): (r: Option<Json>)
    ensures r.Some? <==> card.JObj?
    ensures r.Some? ==> r.value.JObj? && r.value.fields.Keys == card.fields.Keys
    ensures r.Some? ==> forall k :: k in card.fields && k != "answer" ==> r.value.fields[k] == card.fields[k]
    ensures r.Some? && "answer" in card.fields ==> r.value.fields["answer"] == TrimmedAnswer(card.fields["answer"])
  {
    match card
    case JObj(m) =>
      if "answer" in m && m["answer"].JStr? && |m["answer"].s| > AnswerLimit then
        Some(JObj(m["answer" := JStr(TrimAnswer(m["answer"].s))]))
      else Some(card)
    case _ => None
  }

  /** The whole loop over a list: every card trimmed, or None if some card is not an object. */
  function TrimAll(cards: seq<Json>): (r: Option<seq<Json>>)
    ensures r.Some? <==> forall i :: 0 <= i < |cards| ==> cards[i].JObj?
    ensures r.Some? ==> |r.value| == |cards| &&
                        forall i :: 0 <= i < |cards| ==> r.value[i] == TrimCard(cards[i]).value
  {
    if cards == [] then Some([])
    else
      match TrimCard(cards[0])
      case None => None
      case Some(c) =>
        match TrimAll(cards[1..])
        case None => None
        case Some(rest) => Some([c] + rest)
  }

  /** A trimmed card is left alone by a second trimming. */
  lemma TrimCardIdempotent(card: Json)
    requires card.JObj?
    ensures TrimCard(TrimCard(card).value) == TrimCard(card)
  {
    var c := TrimCard(card).value;
    if "answer" in card.fields && card.fields["answer"].JStr? {
      TrimAnswerIdempotent(card.fields["answer"].s);
    }
    assert c.fields == TrimCard(c).value.fields;
  }

  /** Trimming a trimmed deck changes nothing. */
  lemma {:induction false} TrimAllIdempotent(cards: seq<Json>)
    requires TrimAll(cards).Some?
    ensures TrimAll(TrimAll(cards).value) == TrimAll(cards)
  {
    var t := TrimAll(cards).value;
    forall i | 0 <= i < |t| ensures t[i].JObj? && TrimCard(t[i]).value == t[i] {
      TrimCardIdempotent(cards[i]);
    }
    assert TrimAll(t).value == t;
  }

  /** After trimming every answer that is a string has at most 60 characters. */
  lemma TrimmedAnswersBounded(cards: seq<Json>, i: nat)
    requires TrimAll(cards).Some? && i < |cards|
    requires "answer" in cards[i].fields && TrimAll(cards).value[i].fields["answer"].JStr?
    ensures |TrimAll(cards).value[i].fields["answer"].s| <= AnswerLimit
  {
  }

  /** `generate_flashcards` from the parse outcome on. Iterating a list visits
      its cards; iterating an object visits its keys and iterating a string its
      characters, and neither has `.get`; numbers, booleans and null are not
      iterable. Each raise becomes the unexpected-error object. */
  function GenerateFlashcards(parsed: Option<Json>): (r: Json)
    ensures r.JArr? || r.JObj? || r == JStr("")
    ensures r.JObj? && r.fields != map[] ==> "error" in r.fields
  {
    match parsed
    case None => ErrorBody(InvalidJsonMessage)
    case Some(v) =>
      match v
      case JArr(items) =>
        (match TrimAll(items)
         case Some(t) => JArr(t)
         case None => ErrorBody(UnexpectedMessage))
      case JObj(m) => if m == map[] then v else ErrorBody(UnexpectedMessage)
      case JStr(s) => if s == "" then v else ErrorBody(UnexpectedMessage)
      case _ => ErrorBody(UnexpectedMessage)
  }

  /** The generator returns one of: the trimmed list, an empty object or
      string passed through, or one of its two error objects. */
  lemma GenerateResults(parsed: Option<Json>)
    ensures var r := GenerateFlashcards(parsed);
            || (parsed.Some? && parsed.value.JArr? && TrimAll(parsed.value.items).Some? &&
                r == JArr(TrimAll(parsed.value.items).value))
            || (parsed == Some(JObj(map[])) && r == parsed.value)
            || (parsed == Some(JStr("")) && r == parsed.value)
            || (parsed.None? && r == ErrorBody(InvalidJsonMessage))
            || (parsed.Some? && r == ErrorBody(UnexpectedMessage))
    ensures parsed.None? <==> GenerateFlashcards(parsed) == ErrorBody(InvalidJsonMessage)
  {
    if parsed.Some? {
      var r := GenerateFlashcards(parsed);
      assert "error" in ErrorBody(InvalidJsonMessage).fields;
      assert ErrorBody(InvalidJsonMessage).fields["error"] != ErrorBody(UnexpectedMessage).fields["error"] by {
        assert InvalidJsonMessage[0] != UnexpectedMessage[0];
      }
    }
  }

  /** A list of card objects comes back as the trimmed list. */
  lemma CardListResult(cards: seq<Json>)
    requires forall i :: 0 <= i < |cards| ==> cards[i].JObj?
    ensures TrimAll(cards).Some?
    ensures GenerateFlashcards(Some(JArr(cards))) == JArr(TrimAll(cards).value)
  {
  }

  /** The prompt's own `{"error": ...}` answer, like any non-empty object, is
      not passed on: it becomes the unexpected-error object. */
  lemma ObjectReplyIsUnexpected(m: map<string, Json>)
    requires m != map[]
    ensures GenerateFlashcards(Some(JObj(m))) == ErrorBody(UnexpectedMessage)
    ensures GenerateFlashcards(Some(ErrorBody("I don't understand the text"))) == ErrorBody(UnexpectedMessage)
  {
    assert "error" in ErrorBody("I don't understand the text").fields;
  }

  /** The only string the generator can return is the empty one. */
  lemma StringResultIsEmpty(parsed: Option<Json>)
    requires GenerateFlashcards(parsed).JStr?
    ensures GenerateFlashcards(parsed) == JStr("")
  {
  }

  /** The loop as the generator runs it: each card object's answer is replaced
      in place, in list order; at a card that is not an object the loop stops
      with the earlier cards already changed. */
  method TrimInPlace(cards: array<Json>) returns (ok: bool)
    modifies cards
    ensures ok <==> forall i :: 0 <= i < cards.Length ==> old(cards[i]).JObj?
    ensures ok ==> TrimAll(old(cards[..])) == Some(cards[..])
    ensures !ok ==> exists k :: 0 <= k < cards.Length && !old(cards[k]).JObj? &&
                                (forall i :: 0 <= i < k ==> old(cards[i]).JObj? && cards[i] == TrimCard(old(cards[i])).value) &&
                                (forall i :: k <= i < cards.Length ==> cards[i] == old(cards[i]))
  {
    var i := 0;
    while i < cards.Length
      invariant 0 <= i <= cards.Length
      invariant forall j :: 0 <= j < i ==> old(cards[j]).JObj? && cards[j] == TrimCard(old(cards[j])).value
      invariant forall j :: i <= j < cards.Length ==> cards[j] == old(cards[j])
    {
      var card := cards[i];
      if !card.JObj? {
        return false;
      }
      var answer := if "answer" in card.fields then Some(card.fields["answer"]) else None;  // card.get("answer")
      if answer.Some? && answer.value.JStr? && |answer.value.s| > AnswerLimit {
        cards[i] := JObj(card.fields["answer" := JStr(RStrip(answer.value.s[..KeptChars]) + "...")]);
      }
      i := i + 1;
    }
    ok := true;
    ghost var before := old(cards[..]);
    assert forall j :: 0 <= j < cards.Length ==> before[j] == old(cards[j]);
    assert forall j :: 0 <= j < cards.Length ==> before[j].JObj?;
    assert TrimAll(before).Some?;
    assert forall j :: 0 <= j < cards.Length ==> cards[..][j] == TrimAll(before).value[j];
    assert cards[..] == TrimAll(before).value;
  }

  /** `generate_flashcards` with the loop run on a fresh array of the parsed cards. */
  method Generate(parsed: Option<Json>) returns (r: Json)
    ensures r == GenerateFlashcards(parsed)
  {
    if parsed.None? {
      return ErrorBody(InvalidJsonMessage);
    }
    var v := parsed.value;
    if v.JArr? {
      var cards := new Json[|v.items|](i requires 0 <= i < |v.items| => v.items[i]);
      assert cards[..] == v.items;
      var ok := TrimInPlace(cards);
      r := if ok then JArr(cards[..]) else ErrorBody(UnexpectedMessage);
    } else if v.JObj? {
      r := if v.fields == map[] then v else ErrorBody(UnexpectedMessage);
    } else if v.JStr? {
      r := if v.s == "" then v else ErrorBody(UnexpectedMessage);
    } else {
      r := ErrorBody(UnexpectedMessage);
    }
  }
}
