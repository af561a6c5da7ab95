/**
 * The hybrid response generator: learned answers, the intent classifier,
 * keyword escalation, the Hugging Face fallback and the canned replies, tried
 * in that order. The similarity metric, the classifier, the HTTP call and the
 * random draws are collaborators and enter as values.
 */
module ChatbotModel {
  import opened Wrappers
  import opened SessionManager
  import opened TextPreprocessor

  // ---------------------------------------------------------------------
  // Collaborators
  // ---------------------------------------------------------------------

  /** A similarity ratio, as `difflib.SequenceMatcher.ratio` returns. */
  type Ratio = r: real | 0.0 <= r <= 1.0

  /** A row of the `chats` table with `learned = 1`. */
  datatype LearnedChat = LearnedChat(userMessage: string, botResponse: string)

  /** A decoded JSON value; numbers, booleans and null are one case. */
  datatype Json = JObject(fields: map<string, Json>) | JArray(items: seq<Json>) | JString(text: string) | JScalar

  /** The body of an HTTP response: `response.json()` either raises or decodes. */
  datatype Body = Malformed | Decoded(data: Json)

  /** What `requests.post` did: it raised (network error, timeout) or a response came back. */
  datatype HttpOutcome = Raised | Answered(status: int, body: Body)

  /** The exception `generate_response` lets escape: `random.choice` on an empty list. */
  datatype ChatError = EmptyResponseChoice(tag: string)

  /** Everything one call of the response generator consults outside its own code. */
  datatype World = World(
    learned: seq<LearnedChat>,        // learned rows, in database read order
    ratio: (string, string) -> Ratio, // the similarity metric
    intents: seq<Intent>,             // the intents file
    predictedTag: string,             // the classifier's arg-max label for the input
    intentDraw: nat,                  // random.choice among the intent's responses
    huggingFace: HttpOutcome,         // the Hugging Face request
    fallbackDraw: nat)                // random.choice among the canned replies

  /** Python truthiness of an optional string: present and non-empty. */
  predicate IsTruthy(o: Option<string>) { o.Some? && o.value != "" }

  /** `random.choice`, with the random draw given: element `draw mod |xs|`. */
  function Pick(xs: seq<string>, draw: nat): (r: string)
    requires |xs| > 0
    ensures r in xs
  {
    xs[draw % |xs|]
  }

  /** Every element of the list is the outcome of some draw. */
  lemma PickReachesEveryElement(xs: seq<string>, k: nat)
    requires k < |xs|
    ensures Pick(xs, k) == xs[k]
  {
  }

  // ---------------------------------------------------------------------
  // fetch_learned_response
  // ---------------------------------------------------------------------

  const DefaultThreshold: real := 0.6

  /** The best score so far and the row that reached it (-1 while none has beaten 0). */
  datatype Best = Best(score: real, index: int)

  /** `ratio` applied to the lower-cased input and the lower-cased learned question. */
  function Score(userInput: string, row: LearnedChat, ratio: (string, string) -> Ratio): (x: real)
    ensures 0.0 <= x <= 1.0
  {
    var x: Ratio := ratio(Lower(userInput), Lower(row.userMessage));
    x
  }

  /** The similarity of the (lower-cased) input to each learned row's (lower-cased) question. */
  function Scores(userInput: string, rows: seq<LearnedChat>, ratio: (string, string) -> Ratio): (s: seq<real>)
    ensures |s| == |rows|
    ensures forall i :: 0 <= i < |s| ==> 0.0 <= s[i] <= 1.0
  {
    seq(|rows|, i requires 0 <= i < |rows| => Score(userInput, rows[i], ratio))
  }

  /** Row `k` has a positive score, no row scores higher, and every earlier row scores lower. */
  predicate IsFirstBest(scores: seq<real>, k: int)
  {
    && 0 <= k < |scores|
    && 0.0 < scores[k]
    && (forall i :: 0 <= i < |scores| ==> scores[i] <= scores[k])
    && (forall i :: 0 <= i < k ==> scores[i] < scores[k])
  }

  /**
   * The scan of `fetch_learned_response` over the scores: starting from 0, a
   * row replaces the best only with a strictly greater score, so the first
   * row to reach the maximum wins.
   */
  function ScanBest(scores: seq<real>): (b: Best)
    ensures -1 <= b.index < |scores|
    ensures b.index == -1 <==> forall i :: 0 <= i < |scores| ==> scores[i] <= 0.0
    ensures b.index == -1 ==> b.score == 0.0
    ensures b.index >= 0 ==> IsFirstBest(scores, b.index) && b.score == scores[b.index]
  {
    if scores == [] then Best(0.0, -1)
    else
      var b := ScanBest(scores[..|scores| - 1]);
      var x := scores[|scores| - 1];
      if x > b.score then Best(x, |scores| - 1) else b
  }

  /**
   * What fetch_learned_response returns: the response of the first best-scoring
   * row, provided the best score reaches the threshold; None otherwise.
   */
  function LearnedResponse(userInput: string, rows: seq<LearnedChat>, ratio: (string, string) -> Ratio, threshold: real): (r: Option<string>)
    ensures var s := Scores(userInput, rows, ratio);
      r.Some? <==> exists i :: 0 <= i < |s| && 0.0 < s[i] && threshold <= s[i]
    ensures var s := Scores(userInput, rows, ratio);
      r.Some? ==> exists k :: IsFirstBest(s, k) && threshold <= s[k] && r.value == rows[k].botResponse
    ensures rows == [] ==> r == None
  {
    var s := Scores(userInput, rows, ratio);
    var b := ScanBest(s);
    if b.score >= threshold && b.index >= 0 then Some(rows[b.index].botResponse) else None
  }

  /** fetch_learned_response, with the database rows given: the best-score loop. */
  method FetchLearnedResponse(userInput: string, rows: seq<LearnedChat>, ratio: (string, string) -> Ratio, threshold: real)
    returns (r: Option<string>)
    ensures r == LearnedResponse(userInput, rows, ratio, threshold)
  {
    var bestScore: real := 0.0;
    var bestResponse: Option<string> := None;
    ghost var bestIndex: int := -1;
    ghost var s := Scores(userInput, rows, ratio);
    for i := 0 to |rows|
      invariant Best(bestScore, bestIndex) == ScanBest(s[..i])
      invariant bestResponse == if bestIndex >= 0 then Some(rows[bestIndex].botResponse) else None
    {
      var score := Score(userInput, rows[i], ratio);
      assert s[..i + 1][..i] == s[..i];
      if score > bestScore {
        bestScore := score;
        bestResponse := Some(rows[i].botResponse);
        bestIndex := i;
      }
    }
    assert s[..|rows|] == s;
    if bestScore >= threshold {
      return bestResponse;
    }
    return None;
  }

  // ---------------------------------------------------------------------
  // predict_intent
  // ---------------------------------------------------------------------

  /** Intent `k` is the first one whose tag is `tag`. */
  predicate IsFirstWithTag(intents: seq<Intent>, tag: string, k: int)
  {
    0 <= k < |intents| && intents[k].tag == tag && forall j :: 0 <= j < k ==> intents[j].tag != tag
  }

  /** The linear scan for the first intent at or after `from` whose tag is `tag`. */
  function FindIntent(intents: seq<Intent>, tag: string, from: nat): (r: Option<nat>)
    requires from <= |intents|
    ensures r.Some? ==> from <= r.value < |intents| && intents[r.value].tag == tag
    ensures r.Some? ==> forall j :: from <= j < r.value ==> intents[j].tag != tag
    ensures r.None? <==> forall j :: from <= j < |intents| ==> intents[j].tag != tag
    decreases |intents| - from
  {
    if from == |intents| then None
    else if intents[from].tag == tag then Some(from)
    else FindIntent(intents, tag, from + 1)
  }

  /** The three ways predict_intent can end. */
  datatype IntentOutcome =
    | Chosen(reply: string)   // a response of the matching intent
    | NoIntent                // no intent has the predicted tag: None
    | EmptyResponses          // the matching intent has no responses: random.choice raises

  /**
   * predict_intent after the classifier: the first intent whose tag is the
   * predicted tag supplies the reply, drawn from its responses.
   */
  function PredictIntent(intents: seq<Intent>, predictedTag: string, draw: nat): (r: IntentOutcome)
    ensures r.Chosen? ==> exists k :: IsFirstWithTag(intents, predictedTag, k) && r.reply in intents[k].responses
    ensures r.NoIntent? <==> forall k :: 0 <= k < |intents| ==> intents[k].tag != predictedTag
    ensures r.EmptyResponses? <==> exists k :: IsFirstWithTag(intents, predictedTag, k) && intents[k].responses == []
  {
    match FindIntent(intents, predictedTag, 0)
    case None => NoIntent
    case Some(k) =>
      assert IsFirstWithTag(intents, predictedTag, k);
      if intents[k].responses == [] then EmptyResponses
      else Chosen(Pick(intents[k].responses, draw))
  }

  // ---------------------------------------------------------------------
  // query_huggingface
  // ---------------------------------------------------------------------

  const GeneratedTextKey := "generated_text"

  /** A JSON object carrying the `generated_text` key. */
  predicate HasGeneratedText(j: Json) { j.JObject? && GeneratedTextKey in j.fields }

  /**
   * query_huggingface after the request: only a 200 whose body decodes to an
   * object with `generated_text`, or to a list whose first element is such an
   * object, yields a value. Every other case is None, the raised cases
   * (request failure, undecodable body, empty list) included.
   */
  function QueryHuggingFace(outcome: HttpOutcome): (r: Option<Json>)
    ensures r.Some? ==> outcome.Answered? && outcome.status == 200 && outcome.body.Decoded?
    ensures outcome.Answered? && outcome.status == 200 && outcome.body.Decoded? ==>
      var d := outcome.body.data;
      && (d.JObject? ==> r == if GeneratedTextKey in d.fields then Some(d.fields[GeneratedTextKey]) else None)
      && (d.JArray? && d.items == [] ==> r == None)
      && (d.JArray? && d.items != [] ==> r == if HasGeneratedText(d.items[0]) then Some(d.items[0].fields[GeneratedTextKey]) else None)
      && (d.JString? || d.JScalar? ==> r == None)
  {
    match outcome
    case Raised => None
    case Answered(status, body) =>
      if status != 200 then None
      else
        match body
        case Malformed => None
        case Decoded(data) =>
          match data
          case JArray(items) =>
            if items == [] then None
            else if HasGeneratedText(items[0]) then Some(items[0].fields[GeneratedTextKey])
            else None
          case JObject(fields) =>
            if GeneratedTextKey in fields then Some(fields[GeneratedTextKey]) else None
          case JString(_) => None
          case JScalar => None
  }

  /** The text of a generated value; a value that is not a JSON string gives none. */
  function GeneratedText(v: Option<Json>): (r: Option<string>)
    ensures r.Some? <==> v.Some? && v.value.JString?
  {
    if v.Some? && v.value.JString? then Some(v.value.text) else None
  }

  // ---------------------------------------------------------------------
  // Escalation
  // ---------------------------------------------------------------------

  const EscalationReply := "I understand you need human assistance. My manager will help you shortly."

  const EscalationKeywords: seq<string> := ["manager", "supervisor", "human support"]

  /** `w` occurs in `s` starting at position `i`. */
  predicate OccursAt(s: string, w: string, i: int)
  {
    0 <= i && i + |w| <= |s| && s[i..i + |w|] == w
  }

  /** Python's `w in s` for strings. */
  function Contains(s: string, w: string): (r: bool)
    ensures r <==> exists i :: OccursAt(s, w, i)
  {
    if |w| > |s| then false
    else if s[..|w|] == w then (assert OccursAt(s, w, 0); true)
    else
      var r := Contains(s[1..], w);
      assert forall i :: OccursAt(s[1..], w, i) <==> OccursAt(s, w, i + 1);
      assert forall i :: OccursAt(s, w, i) && i > 0 ==> OccursAt(s[1..], w, i - 1);
      r
  }

  /** The escalation test: some keyword is a substring of the lower-cased input. */
  function Escalates(userInput: string): (r: bool)
    ensures r <==> exists w, i :: w in EscalationKeywords && OccursAt(Lower(userInput), w, i)
  {
    var text := Lower(userInput);
    Contains(text, "manager") || Contains(text, "supervisor") || Contains(text, "human support")
  }

  /**
   * A keyword written in any mix of cases escalates: if `w` occurs in the raw
   * input and lower-cases to one of the keywords, the test fires.
   */
  lemma AnyCaseKeywordEscalates(userInput: string, w: string, i: int)
    requires OccursAt(userInput, w, i)
    requires Lower(w) in EscalationKeywords
    ensures Escalates(userInput)
  {
    LowerSlice(userInput, i, i + |w|);
    assert OccursAt(Lower(userInput), Lower(w), i);
  }

  /** "I need a human support" escalates. */
  lemma HumanSupportEscalates()
    ensures Escalates("I need a human support")
  {
    var text := Lower("I need a human support");
    assert text[9..22] == "human support";
    assert OccursAt(text, "human support", 9);
  }

  // ---------------------------------------------------------------------
  // generate_response
  // ---------------------------------------------------------------------

  const FallbackResponses: seq<string> := [
    "Hmm, I’m thinking… can you give me more details?",
    "I hear you. Can you elaborate?",
    "Interesting… tell me more!",
    "I’m following you. What happened next?",
    "Could you clarify that for me?",
    "I’m listening, please continue."
  ]

  /**
   * The reply generate_response produces: the first truthy result of the
   * learned answers, the classifier, escalation and Hugging Face, else a
   * canned reply; or the IndexError of an empty intent response list.
   */
  function Respond(userInput: string, w: World): (r: Result<string, ChatError>)
    ensures r.Success? ==> r.value != ""
    ensures r.Failure? <==>
      && !IsTruthy(LearnedResponse(userInput, w.learned, w.ratio, DefaultThreshold))
      && PredictIntent(w.intents, w.predictedTag, w.intentDraw).EmptyResponses?
  {
    var learned := LearnedResponse(userInput, w.learned, w.ratio, DefaultThreshold);
    if IsTruthy(learned) then Success(learned.value)
    else
      var model := PredictIntent(w.intents, w.predictedTag, w.intentDraw);
      if model.EmptyResponses? then Failure(EmptyResponseChoice(w.predictedTag))
      else if model.Chosen? && model.reply != "" then Success(model.reply)
      else if Escalates(userInput) then Success(EscalationReply)
      else
        var generated := GeneratedText(QueryHuggingFace(w.huggingFace));
        if IsTruthy(generated) then Success(generated.value)
        else Success(Pick(FallbackResponses, w.fallbackDraw))
  }

  /** A learned answer wins outright; nothing later is consulted. */
  lemma LearnedStageFirst(userInput: string, w: World)
    requires IsTruthy(LearnedResponse(userInput, w.learned, w.ratio, DefaultThreshold))
    ensures Respond(userInput, w) == Success(LearnedResponse(userInput, w.learned, w.ratio, DefaultThreshold).value)
  {
  }

  /** Without a learned answer, a non-empty classifier reply wins. */
  lemma ModelStageSecond(userInput: string, w: World)
    requires !IsTruthy(LearnedResponse(userInput, w.learned, w.ratio, DefaultThreshold))
    requires PredictIntent(w.intents, w.predictedTag, w.intentDraw).Chosen?
    requires PredictIntent(w.intents, w.predictedTag, w.intentDraw).reply != ""
    ensures Respond(userInput, w) == Success(PredictIntent(w.intents, w.predictedTag, w.intentDraw).reply)
  {
  }

  /** With neither, any of the three keywords in the input gives the fixed escalation reply. */
  lemma EscalationStageThird(userInput: string, w: World)
    requires !IsTruthy(LearnedResponse(userInput, w.learned, w.ratio, DefaultThreshold))
    requires var m := PredictIntent(w.intents, w.predictedTag, w.intentDraw); m.NoIntent? || (m.Chosen? && m.reply == "")
    requires exists kw, i :: kw in EscalationKeywords && OccursAt(Lower(userInput), kw, i)
    ensures Respond(userInput, w) == Success(EscalationReply)
  {
  }

  /** Then a non-empty generated text from Hugging Face. */
  lemma HuggingFaceStageFourth(userInput: string, w: World)
    requires !IsTruthy(LearnedResponse(userInput, w.learned, w.ratio, DefaultThreshold))
    requires var m := PredictIntent(w.intents, w.predictedTag, w.intentDraw); m.NoIntent? || (m.Chosen? && m.reply == "")
    requires !Escalates(userInput)
    requires IsTruthy(GeneratedText(QueryHuggingFace(w.huggingFace)))
    ensures Respond(userInput, w) == Success(GeneratedText(QueryHuggingFace(w.huggingFace)).value)
  {
  }

  /** When every earlier stage fails, the reply is one of the six canned strings. */
  lemma CannedStageLast(userInput: string, w: World)
    requires !IsTruthy(LearnedResponse(userInput, w.learned, w.ratio, DefaultThreshold))
    requires var m := PredictIntent(w.intents, w.predictedTag, w.intentDraw); m.NoIntent? || (m.Chosen? && m.reply == "")
    requires !Escalates(userInput)
    requires !IsTruthy(GeneratedText(QueryHuggingFace(w.huggingFace)))
    ensures Respond(userInput, w).Success? && Respond(userInput, w).value in FallbackResponses
  {
  }

  /** A failed or non-200 Hugging Face request is the same to the generator as no result at all. */
  lemma HuggingFaceFailureIsNoResult(userInput: string, w: World, status: int, body: Body)
    requires status != 200
    ensures Respond(userInput, w.(huggingFace := Answered(status, body))) == Respond(userInput, w.(huggingFace := Raised))
  {
  }

  /**
   * generate_response: runs the stages in order and, on whichever path returns,
   * records (input, reply) in the session store exactly once when the session
   * id is truthy; with a falsy id, or when an exception escapes, the store is
   * left as it was.
   */
  method GenerateResponse(store: SessionStore, userInput: string, sessionId: Option<string>, w: World)
    returns (r: Result<string, ChatError>)
    requires store.Valid()
    modifies store
    ensures store.Valid()
    ensures r == Respond(userInput, w)
    ensures r.Success? && IsTruthy(sessionId) ==>
      store.sessions == old(store.sessions)[sessionId.value := AppendTurn(old(store.HistoryOf(sessionId.value)), Turn(userInput, r.value))]
    ensures r.Failure? || !IsTruthy(sessionId) ==> store.sessions == old(store.sessions)
  {
    if IsTruthy(sessionId) {
      var chatHistory := store.Get(sessionId.value);
    }

    var learned := FetchLearnedResponse(userInput, w.learned, w.ratio, DefaultThreshold);
    if IsTruthy(learned) {
      if IsTruthy(sessionId) {
        store.Update(sessionId.value, userInput, learned.value);
      }
      return Success(learned.value);
    }

    var model := PredictIntent(w.intents, w.predictedTag, w.intentDraw);
    if model.EmptyResponses? {
      return Failure(EmptyResponseChoice(w.predictedTag));
    }
    if model.Chosen? && model.reply != "" {
      if IsTruthy(sessionId) {
        store.Update(sessionId.value, userInput, model.reply);
      }
      return Success(model.reply);
    }

    if Escalates(userInput) {
      if IsTruthy(sessionId) {
        store.Update(sessionId.value, userInput, EscalationReply);
      }
      return Success(EscalationReply);
    }

    var generated := GeneratedText(QueryHuggingFace(w.huggingFace));
    if IsTruthy(generated) {
      if IsTruthy(sessionId) {
        store.Update(sessionId.value, userInput, generated.value);
      }
      return Success(generated.value);
    }

    var response := Pick(FallbackResponses, w.fallbackDraw);
    if IsTruthy(sessionId) {
      store.Update(sessionId.value, userInput, response);
    }
    return Success(response);
  }
}
