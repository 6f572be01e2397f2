/**
  `LLMService` of the storage service (backend/db-service/controllers/analysisController.js):
  the prompt, the reading of the model's reply, and the demonstration analysis that
  replaces any failed generation. The HTTP call to the completion API is a function
  parameter from the prompt to an outcome; `JSON.parse` is a function parameter too.
*/
module Llm {
  import opened Common
  import opened Text
  import opened JsonValues
  import Errors

  // ----- buildPrompt -----

  /** At most this many characters of the document text go into the prompt. */
  const PromptTextLimit: nat := 8000

  const TruncationMarker := "[...texte tronqué...]"

  /** The template up to the embedded text. */
  function PromptHead(name: string): string
  {
    "\nAnalyse le document suivant et génère une analyse structurée :\n\nDOCUMENT: \""
    + name + "\"\n\nCONTENU:\n"
  }

  /** The template after the embedded text and the optional marker. */
  const PromptTail: string :=
    "\n\nINSTRUCTIONS:\n"
    + "1. Produis un résumé concis (200-300 mots maximum)\n"
    + "2. Identifie 4-6 points clés sous forme de liste\n"
    + "3. Suggère 1-3 actions concrètes avec titre, description, priorité (high/medium/low) et catégorie\n"
    + "4. Donne un score de confiance (0-100)\n\n"
    + "RÉPONDRE AU FORMAT JSON SUIVANT:\n{\n"
    + "  \"summary\": \"Résumé du document...\",\n"
    + "  \"keyPoints\": [\n    \"Premier point clé\",\n    \"Deuxième point clé\"\n  ],\n"
    + "  \"actionItems\": [\n    {\n"
    + "      \"title\": \"Titre de l'action\",\n"
    + "      \"description\": \"Description détaillée de l'action\",\n"
    + "      \"priority\": \"high\",\n"
    + "      \"category\": \"Stratégie\"\n    }\n  ],\n"
    + "  \"confidence\": 85\n}\n\n"
    + "Assure-toi que la réponse soit en français et uniquement au format JSON valide.\n    "

  /** `buildPrompt(documentText, documentName)`. */
  function BuildPrompt(text: string, name: string): string
  {
    Assemble(PromptHead(name), text, PromptTail)
  }

  /** The template filled in: head, the text cut at the limit, a space, the marker if cut, and the tail. */
  function Assemble(head: string, text: string, tail: string): string
  {
    head + Take(text, PromptTextLimit) + " " + (if |text| > PromptTextLimit then TruncationMarker else "") + tail
  }

  /**
    The prompt holds exactly the first `min(8000, |text|)` characters of the text, right
    after the head; what follows is a space, the truncation marker exactly when the
    text is longer than 8000 characters, and the fixed instructions.
  */
  lemma PromptEmbedsPrefix(text: string, name: string)
    ensures var p := BuildPrompt(text, name);
      var start := |PromptHead(name)|;
      var n := Min(PromptTextLimit, |text|);
      && start + n <= |p|
      && p[..start] == PromptHead(name)
      && p[start..start + n] == text[..n]
      && p[start + n..] == " " + (if |text| > PromptTextLimit then TruncationMarker else "") + PromptTail
  {
    AssembleEmbedsPrefix(PromptHead(name), text, PromptTail);
  }

  /** `PromptEmbedsPrefix` for any head and tail. */
  lemma AssembleEmbedsPrefix(head: string, text: string, tail: string)
    ensures var p := Assemble(head, text, tail);
      var n := Min(PromptTextLimit, |text|);
      && |head| + n <= |p|
      && p[..|head|] == head
      && p[|head|..|head| + n] == text[..n]
      && p[|head| + n..] == " " + (if |text| > PromptTextLimit then TruncationMarker else "") + tail
  {
    var rest := " " + (if |text| > PromptTextLimit then TruncationMarker else "") + tail;
    var body := Take(text, PromptTextLimit);
    assert Assemble(head, text, tail) == head + body + rest;
    ThreeParts(head, body, rest);
  }

  /** The length of the prompt: it grows with the text only up to 8000 characters. */
  lemma PromptLength(text: string, name: string)
    ensures |BuildPrompt(text, name)| ==
      |PromptHead(name)| + Min(PromptTextLimit, |text|) + 1
      + (if |text| > PromptTextLimit then |TruncationMarker| else 0) + |PromptTail|
  {
  }

  /** Two texts longer than the limit that share their first 8000 characters give the same prompt. */
  lemma PromptIgnoresTextBeyondLimit(a: string, b: string, name: string)
    requires |a| > PromptTextLimit && |b| > PromptTextLimit
    requires a[..PromptTextLimit] == b[..PromptTextLimit]
    ensures BuildPrompt(a, name) == BuildPrompt(b, name)
  {
  }

  /** Where the parts of `a + b + c` sit. */
  lemma ThreeParts(a: string, b: string, c: string)
    ensures var p := a + b + c;
      && p[..|a|] == a && p[|a|..|a| + |b|] == b && p[|a| + |b|..] == c
      && OccursAt(p, b, |a|)
  {
  }

  // ----- parseResponse -----

  /** Index of the first `c` in `s`. */
  function FirstIndexOf(s: string, c: char): (r: Option<nat>)
    ensures r.Some? ==> r.value < |s| && s[r.value] == c && forall k :: 0 <= k < r.value ==> s[k] != c
    ensures r.None? ==> forall k :: 0 <= k < |s| ==> s[k] != c
  {
    if s == [] then None
    else if s[0] == c then Some(0)
    else match FirstIndexOf(s[1..], c)
      case None => None
      case Some(i) => Some(i + 1)
  }

  /** Index of the last `c` in `s`. */
  function LastIndexOf(s: string, c: char): (r: Option<nat>)
    ensures r.Some? ==> r.value < |s| && s[r.value] == c && forall k :: r.value < k < |s| ==> s[k] != c
    ensures r.None? ==> forall k :: 0 <= k < |s| ==> s[k] != c
  {
    if s == [] then None
    else if s[|s| - 1] == c then Some(|s| - 1)
    else LastIndexOf(s[..|s| - 1], c)
  }

  /** `content[i..j + 1]` runs from the first `{` to the last `}`, in that order. */
  predicate GreedySpan(content: string, i: int, j: int)
  {
    && 0 <= i < j < |content| && content[i] == '{' && content[j] == '}'
    && (forall k :: 0 <= k < i ==> content[k] != '{')
    && (forall k :: j < k < |content| ==> content[k] != '}')
  }

  /**
    `content.match(/\{[\s\S]*\}/)`: the regular expression is greedy, so the match runs
    from the first `{` to the last `}` after it, whether or not the braces balance.
  */
  function JsonSpan(content: string): (r: Option<string>)
    ensures r.Some? <==> exists i, j :: 0 <= i < j < |content| && content[i] == '{' && content[j] == '}'
    ensures r.Some? ==> exists i, j :: GreedySpan(content, i, j) && r.value == content[i..j + 1]
  {
    match (FirstIndexOf(content, '{'), LastIndexOf(content, '}'))
    case (Some(i), Some(j)) =>
      if i < j then assert GreedySpan(content, i, j); Some(content[i..j + 1]) else None
    case _ => None
  }

  /** The reply of the completion API, as far as it is read. */
  datatype ApiReply = ApiReply(
    content: Option<string>,   // `choices[0].message.content`; `None` when that path or a string is missing
    totalTokens: Option<Json>) // `usage?.total_tokens`

  /** The outcome of the HTTP call: a reply, or any failure (network, status, timeout). */
  datatype LlmOutcome = Reply(reply: ApiReply) | CallFailed

  /** One action item as both `parseResponse` and the demonstration analysis build it. */
  datatype ActionDraft = ActionDraft(id: string, title: Json, description: Json, priority: Json, category: Json)

  /** What `parseResponse` returns. */
  datatype Draft = Draft(summary: Json, keyPoints: seq<Json>, actionItems: seq<ActionDraft>, confidence: Json)

  /** What `generateAnalysis` returns. */
  datatype Generated = Generated(
    summary: Json,
    keyPoints: seq<Json>,
    actionItems: seq<ActionDraft>,
    confidence: Json,
    processingTime: real,
    tokensUsed: Json)

  const ParseFailureMessage := "Erreur lors du traitement de la réponse IA"

  /** The error every failure inside `parseResponse` is turned into. */
  function ParseFailure(): (e: Errors.ThrownError)
    ensures e.statusCode == Some(500) && e.message == ParseFailureMessage
  {
    Errors.NewAppError(ParseFailureMessage, 500)
  }

  /** Property lookup on an item of `actionItems`: only objects have properties. */
  function ItemField(item: Json, key: string): Option<Json>
  {
    if item.JObj? then Get(item.fields, key) else None
  }

  /** The callback of `parsed.actionItems?.map`: `null` throws on property access, any other value gets defaults. */
  function NormaliseItem(item: Json, id: string): Option<ActionDraft>
  {
    if item == JNull then None
    else Some(ActionDraft(
      id,
      JsOr(ItemField(item, "title"), JStr("")),
      JsOr(ItemField(item, "description"), JStr("")),
      JsOr(ItemField(item, "priority"), JStr("medium")),
      JsOr(ItemField(item, "category"), JStr("General"))))
  }

  /** `items.map(...)`: item `k` gets the fresh id `ids(from + k)`. */
  function NormaliseItems(items: seq<Json>, ids: nat -> string, from: nat): (r: Option<seq<ActionDraft>>)
    ensures r.Some? <==> forall k :: 0 <= k < |items| ==> items[k] != JNull
    ensures r.Some? ==> |r.value| == |items|
    ensures r.Some? ==> forall k :: 0 <= k < |items| ==> Some(r.value[k]) == NormaliseItem(items[k], ids(from + k))
  {
    if items == [] then Some([])
    else match (NormaliseItem(items[0], ids(from)), NormaliseItems(items[1..], ids, from + 1))
      case (Some(d), Some(ds)) =>
        assert forall k :: 1 <= k < |items| ==> items[k] == items[1..][k - 1];
        Some([d] + ds)
      case _ => None
  }

  /**
    `parsed.actionItems?.map(...) || []`: missing or `null` gives no items, an array is
    mapped, and anything else has no `map` method and throws.
  */
  function ActionItemsOf(parsed: map<string, Json>, ids: nat -> string): Option<seq<ActionDraft>>
  {
    match Get(parsed, "actionItems")
    case None => Some([])
    case Some(JNull) => Some([])
    case Some(JArr(items)) => NormaliseItems(items, ids, 0)
    case Some(_) => None
  }

  /**
    `parseResponse(apiResponse)`. `parse` stands for `JSON.parse` on a text that starts
    with `{`: it yields an object or fails.
  */
  function ParseResponse(reply: ApiReply, parse: string -> Option<map<string, Json>>, ids: nat -> string)
    : (r: Result<Draft, Errors.ThrownError>)
    ensures r.Err? ==> r.error == ParseFailure()
    ensures r.Ok? <==>
      && reply.content.Some?
      && JsonSpan(reply.content.value).Some?
      && parse(JsonSpan(reply.content.value).value).Some?
      && ActionItemsOf(parse(JsonSpan(reply.content.value).value).value, ids).Some?
  {
    if reply.content.None? then Err(ParseFailure())
    else match JsonSpan(reply.content.value)
      case None => Err(ParseFailure())
      case Some(span) =>
        match parse(span)
        case None => Err(ParseFailure())
        case Some(parsed) =>
          match ActionItemsOf(parsed, ids)
          case None => Err(ParseFailure())
          case Some(actions) =>
            Ok(Draft(
              JsOr(Get(parsed, "summary"), JStr("")),
              match Get(parsed, "keyPoints") case Some(JArr(points)) => points case _ => [],
              actions,
              JsOr(Get(parsed, "confidence"), JNum(80.0))))
  }

  /**
    The defaults of `parseResponse`, for a reply whose JSON span parses to `parsed`: a
    falsy summary becomes `''`, a non-array `keyPoints` becomes `[]`, a falsy confidence
    (0 included) becomes 80, and the action items keep their number and order, each
    with the defaults title `''`, description `''`, priority `'medium'` and category
    `'General'`. A truthy priority is kept whatever it is.
  */
  lemma ParseResponseDefaults(reply: ApiReply, parse: string -> Option<map<string, Json>>, ids: nat -> string)
    requires ParseResponse(reply, parse, ids).Ok?
    ensures var d := ParseResponse(reply, parse, ids).value;
      var parsed := parse(JsonSpan(reply.content.value).value).value;
      && (JsTruthy(Get(parsed, "summary")) ==> d.summary == parsed["summary"])
      && (!JsTruthy(Get(parsed, "summary")) ==> d.summary == JStr(""))
      && (PyIsList(Get(parsed, "keyPoints")) ==> d.keyPoints == parsed["keyPoints"].items)
      && (!PyIsList(Get(parsed, "keyPoints")) ==> d.keyPoints == [])
      && (JsTruthy(Get(parsed, "confidence")) ==> d.confidence == parsed["confidence"])
      && (!JsTruthy(Get(parsed, "confidence")) ==> d.confidence == JNum(80.0))
      && (Get(parsed, "actionItems") in {None, Some(JNull)} ==> d.actionItems == [])
      && (PyIsList(Get(parsed, "actionItems")) ==>
            var items := parsed["actionItems"].items;
            && |d.actionItems| == |items|
            && forall k :: 0 <= k < |items| ==>
                 var a := d.actionItems[k];
                 && a.id == ids(k)
                 && (JsTruthy(ItemField(items[k], "title")) ==> a.title == ItemField(items[k], "title").value)
                 && (!JsTruthy(ItemField(items[k], "title")) ==> a.title == JStr(""))
                 && (JsTruthy(ItemField(items[k], "description")) ==>
                       a.description == ItemField(items[k], "description").value)
                 && (!JsTruthy(ItemField(items[k], "description")) ==> a.description == JStr(""))
                 && (JsTruthy(ItemField(items[k], "priority")) ==> a.priority == ItemField(items[k], "priority").value)
                 && (!JsTruthy(ItemField(items[k], "priority")) ==> a.priority == JStr("medium"))
                 && (JsTruthy(ItemField(items[k], "category")) ==> a.category == ItemField(items[k], "category").value)
                 && (!JsTruthy(ItemField(items[k], "category")) ==> a.category == JStr("General")))
  {
    var parsed := parse(JsonSpan(reply.content.value).value).value;
    var v := Get(parsed, "actionItems");
    if PyIsList(v) {
      var items := parsed["actionItems"].items;
      var r := NormaliseItems(items, ids, 0);
      assert r.Some?;
      forall k | 0 <= k < |items|
        ensures Some(r.value[k]) == NormaliseItem(items[k], ids(k))
      {
        assert ids(0 + k) == ids(k);
      }
    }
  }

  /** A reply with no `{ ... }` span, or a span that does not parse, is a 500 error. */
  lemma ParseResponseFailures(reply: ApiReply, parse: string -> Option<map<string, Json>>, ids: nat -> string)
    requires reply.content.Some?
    requires JsonSpan(reply.content.value).None? || parse(JsonSpan(reply.content.value).value).None?
    ensures ParseResponse(reply, parse, ids) == Err(ParseFailure())
  {
  }

  // ----- generateDemoAnalysis and generateAnalysis -----

  const DemoSummaryHead := "Analyse automatique du document "
  const DemoSummaryTail :=
    ". Ce document contient des informations importantes qui nécessitent une attention particulière. Les points clés ont été identifiés et des actions sont suggérées pour optimiser le traitement de ces informations."

  const DemoKeyPoints: seq<Json> := [
    JStr("Document analysé avec succès"),
    JStr("Contenu structuré et organisé"),
    JStr("Informations pertinentes identifiées"),
    JStr("Recommandations formulées")]

  /**
    `generateDemoAnalysis(documentName, processingTime)`: a fixed analysis naming the
    document, with `elapsedMs / 1000` seconds of processing time.
  */
  function DemoAnalysis(name: string, elapsedMs: real, id: string): (g: Generated)
    ensures g.confidence == JNum(75.0) && g.tokensUsed == JNum(150.0)
    ensures |g.keyPoints| == 4 && g.keyPoints == DemoKeyPoints
    ensures |g.actionItems| == 1
    ensures g.actionItems[0].priority == JStr("medium") && g.actionItems[0].category == JStr("Analyse")
    ensures g.summary.JStr? && OccursAt(g.summary.s, "\"" + name + "\"", |DemoSummaryHead|)
    ensures g.processingTime * 1000.0 == elapsedMs
  {
    var quoted := "\"" + name + "\"";
    var summary := DemoSummaryHead + quoted + DemoSummaryTail;
    ThreeParts(DemoSummaryHead, quoted, DemoSummaryTail);
    Generated(
      JStr(summary),
      DemoKeyPoints,
      [ActionDraft(
        id,
        JStr("Révision du contenu"),
        JStr("Examiner en détail le contenu du document pour validation"),
        JStr("medium"),
        JStr("Analyse"))],
      JNum(75.0),
      elapsedMs / 1000.0,
      JNum(150.0))
  }

  /**
    `generateAnalysis(documentText, documentName)`. The completion API is asked with the
    prompt; `elapsedMs` is the time since the call started, read from the clock. The
    failed call and every error of `parseResponse` (which runs inside the same `try`)
    both give the demonstration analysis, so the generation itself never fails.
  */
  function GenerateAnalysis(
    text: string, name: string,
    llm: string -> LlmOutcome, parse: string -> Option<map<string, Json>>, ids: nat -> string,
    elapsedMs: real): (g: Generated)
    ensures var outcome := llm(BuildPrompt(text, name));
      outcome.CallFailed? || ParseResponse(outcome.reply, parse, ids).Err? ==>
        g == DemoAnalysis(name, elapsedMs, ids(0))
    ensures var outcome := llm(BuildPrompt(text, name));
      outcome.Reply? && ParseResponse(outcome.reply, parse, ids).Ok? ==>
        var d := ParseResponse(outcome.reply, parse, ids).value;
        && g.summary == d.summary && g.keyPoints == d.keyPoints
        && g.actionItems == d.actionItems && g.confidence == d.confidence
        && g.processingTime * 1000.0 == elapsedMs
        && g.tokensUsed == JsOr(outcome.reply.totalTokens, JNum(0.0))
  {
    match llm(BuildPrompt(text, name))
    case CallFailed => DemoAnalysis(name, elapsedMs, ids(0))
    case Reply(reply) =>
      match ParseResponse(reply, parse, ids)
      case Err(_) => DemoAnalysis(name, elapsedMs, ids(0))
      case Ok(d) =>
        Generated(d.summary, d.keyPoints, d.actionItems, d.confidence, elapsedMs / 1000.0,
          JsOr(reply.totalTokens, JNum(0.0)))
  }

  /**
    Whatever the API and the parser do, the generated analysis has a truthy confidence
    (the demo's 75, a truthy parsed value, or the default 80).
  */
  lemma GeneratedConfidenceIsTruthy(
    text: string, name: string,
    llm: string -> LlmOutcome, parse: string -> Option<map<string, Json>>, ids: nat -> string,
    elapsedMs: real)
    ensures JsTruthy(Some(GenerateAnalysis(text, name, llm, parse, ids, elapsedMs).confidence))
  {
    var outcome := llm(BuildPrompt(text, name));
    if outcome.Reply? && ParseResponse(outcome.reply, parse, ids).Ok? {
      ParseResponseDefaults(outcome.reply, parse, ids);
    }
  }

  /**
    The analysis depends on the document text only through its first 8000 characters:
    two longer texts that share them are analysed alike.
  */
  lemma GenerationIgnoresTextBeyondLimit(
    a: string, b: string, name: string,
    llm: string -> LlmOutcome, parse: string -> Option<map<string, Json>>, ids: nat -> string,
    elapsedMs: real)
    requires |a| > PromptTextLimit && |b| > PromptTextLimit
    requires a[..PromptTextLimit] == b[..PromptTextLimit]
    ensures GenerateAnalysis(a, name, llm, parse, ids, elapsedMs) == GenerateAnalysis(b, name, llm, parse, ids, elapsedMs)
  {
    PromptIgnoresTextBeyondLimit(a, b, name);
  }
}
