/**
  The Python analysis service (backend/ia-service/app.py): the Gemini prompt, the
  clean-up of Gemini's reply (code fences, default and valid action items, numeric
  confidence, a summary that is never empty), the error response that replaces every
  failure, and the request checks of `POST /api/analyze`.
  The Gemini call, `json.loads` and PyPDF2 enter as function parameters; the elapsed
  time arrives already rounded.
*/
module IaService {
  import opened Common
  import opened JsonValues
  import opened Text

  // ----- The prompt -----

  const PromptLimit: nat := 15000

  const PromptHead: string :=
    "\n        Analysez ce document et fournissez une réponse au format JSON strict avec ces champs exacts :\n"
    + "        {\n"
    + "            \"summary\": \"résumé détaillé du document\",\n"
    + "            \"keyPoints\": [\"point 1\", \"point 2\", \"point 3\"],\n"
    + "            \"actionItems\": [\n"
    + "                {\n"
    + "                    \"id\": \"action-1\",\n"
    + "                    \"title\": \"titre de l'action\",\n"
    + "                    \"description\": \"description détaillée\",\n"
    + "                    \"priority\": \"high|medium|low\",\n"
    + "                    \"category\": \"catégorie\"\n"
    + "                }\n"
    + "            ],\n"
    + "            \"confidence\": 85\n"
    + "        }\n"
    + "\n"
    + "        Document à analyser :\n"
    + "        "

  const PromptTail: string :=
    "\n\n        Répondez UNIQUEMENT avec le JSON, sans texte supplémentaire.\n        "

  /** The f-string prompt around `text[:15000]`. */
  function GeminiPrompt(text: string): string
  {
    PromptHead + Take(text, PromptLimit) + PromptTail
  }

  /** The prompt carries exactly the first `min(15000, |text|)` characters, right after the instructions. */
  lemma GeminiPromptEmbedsPrefix(text: string)
    ensures OccursAt(GeminiPrompt(text), text[..Min(PromptLimit, |text|)], |PromptHead|)
    ensures |GeminiPrompt(text)| == |PromptHead| + Min(PromptLimit, |text|) + |PromptTail|
  {
    var p := GeminiPrompt(text);
    var n := Min(PromptLimit, |text|);
    assert p[|PromptHead|..|PromptHead| + n] == text[..n];
  }

  /** Characters beyond the 15000th never reach Gemini. */
  lemma GeminiPromptIgnoresTail(a: string, b: string)
    requires |a| >= PromptLimit && |b| >= PromptLimit && a[..PromptLimit] == b[..PromptLimit]
    ensures GeminiPrompt(a) == GeminiPrompt(b)
  {
  }

  // ----- Code fences -----

  /**
    Lines 61-70 as one expression: strip, drop a leading "```json", then a leading
    "```", then a trailing "```", and strip again.
  */
  function StripFences(reply: string): string
  {
    Trim(Python, Unfence(Trim(Python, reply)))
  }

  /** The three fence removals, in their order. */
  function Unfence(t0: string): string
  {
    var t1 := if StartsWith(t0, "```json") then t0[7..] else t0;
    var t2 := if StartsWith(t1, "```") then t1[3..] else t1;
    if EndsWith(t2, "```") then t2[..|t2| - 3] else t2
  }

  lemma StripFencesIsTrimmed(reply: string)
    ensures Trimmed(Python, StripFences(reply))
  {
    TrimIsTrimmed(Python, Unfence(Trim(Python, reply)));
  }

  lemma TrimOfTrimmed(s: string)
    requires Trimmed(Python, s)
    ensures Trim(Python, s) == s
  {
    TrimSurrounded(Python, [], s, []);
    assert [] + s + [] == s;
  }

  lemma UnfenceJson(body: string)
    ensures Unfence("```json\n" + body + "\n```") == "\n" + body + "\n"
  {
    var s := "```json\n" + body + "\n```";
    assert StartsWith(s, "```json");
    var t1 := s[7..];
    assert t1 == "\n" + body + "\n```";
    assert t1[0] == '\n';
    assert !StartsWith(t1, "```");
    assert EndsWith(t1, "```");
    assert t1[..|t1| - 3] == "\n" + body + "\n";
  }

  lemma UnfenceBare(body: string)
    ensures Unfence("```\n" + body + "\n```") == "\n" + body + "\n"
  {
    var s := "```\n" + body + "\n```";
    assert !StartsWith(s, "```json") by {
      assert s[3] == '\n';
    }
    var t2 := s[3..];
    assert t2 == "\n" + body + "\n```";
    assert EndsWith(t2, "```");
    assert t2[..|t2| - 3] == "\n" + body + "\n";
  }

  lemma FencedIsTrimmed(open: string, body: string)
    requires open == "```json\n" || open == "```\n"
    ensures Trimmed(Python, open + body + "\n```")
  {
    var s := open + body + "\n```";
    assert s[0] == '`' && s[|s| - 1] == '`';
  }

  lemma NewlineIsSpace()
    ensures AllSpace(Python, "\n")
  {
    var nl := "\n";
    assert nl[0] == '\n';
    assert PySpace('\n');
  }

  lemma StripFencesOfTrimmed(s: string)
    requires Trimmed(Python, s)
    ensures StripFences(s) == Trim(Python, Unfence(s))
  {
    TrimOfTrimmed(s);
  }

  /** A trimmed text on a line of its own trims back to itself. */
  lemma TrimLines(body: string)
    requires Trimmed(Python, body)
    ensures Trim(Python, "\n" + body + "\n") == body
  {
    NewlineIsSpace();
    TrimSurrounded(Python, "\n", body, "\n");
  }

  /** A JSON text fenced as "```json" … "```", on lines of its own, comes back as it was. */
  lemma JsonFenceRoundTrip(body: string)
    requires Trimmed(Python, body)
    ensures StripFences("```json\n" + body + "\n```") == body
  {
    FencedIsTrimmed("```json\n", body);
    StripFencesOfTrimmed("```json\n" + body + "\n```");
    UnfenceJson(body);
    TrimLines(body);
  }

  /** The same for a bare "```" fence. */
  lemma BareFenceRoundTrip(body: string)
    requires Trimmed(Python, body)
    ensures StripFences("```\n" + body + "\n```") == body
  {
    FencedIsTrimmed("```\n", body);
    StripFencesOfTrimmed("```\n" + body + "\n```");
    UnfenceBare(body);
    TrimLines(body);
  }

  /** A reply without fences is only stripped. */
  lemma UnfencedReplyIsStripped(reply: string)
    requires !StartsWith(Trim(Python, reply), "```") && !EndsWith(Trim(Python, reply), "```")
    ensures StripFences(reply) == Trim(Python, reply)
  {
    TrimIsTrimmed(Python, reply);
    TrimOfTrimmed(Trim(Python, reply));
  }

  // ----- Cleaning the parsed reply -----

  const Priorities: seq<Json> := [JStr("high"), JStr("medium"), JStr("low")]
  const ActionKeys: set<string> := {"id", "title", "description", "priority", "category"}

  function GetOr(fields: map<string, Json>, key: string, default: Json): Json
  {
    if key in fields then fields[key] else default
  }

  /** The cleaned version of the action dict at position `i` of the original list. */
  function CleanAction(action: map<string, Json>, i: nat): (c: map<string, Json>)
    ensures c.Keys == ActionKeys
    ensures c["priority"] in Priorities
    ensures forall k :: k in ActionKeys && k != "priority" && k in action ==> c[k] == action[k]
    ensures "id" !in action ==> c["id"] == JStr("action-" + NatToString(i + 1))
  {
    var priority := GetOr(action, "priority", JStr("medium"));
    map[
      "id" := GetOr(action, "id", JStr("action-" + NatToString(i + 1))),
      "title" := GetOr(action, "title", JStr("Action sans titre")),
      "description" := GetOr(action, "description", JStr("Aucune description")),
      "priority" := (if priority in Priorities then priority else JStr("medium")),
      "category" := GetOr(action, "category", JStr("General"))]
  }

  /** The dict entries of `items`, cleaned, in their order; other entries are dropped. */
  function CleanActions(items: seq<Json>): seq<Json>
  {
    if items == [] then []
    else
      var last := items[|items| - 1];
      CleanActions(items[..|items| - 1])
      + (if last.JObj? then [JObj(CleanAction(last.fields, |items| - 1))] else [])
  }

  predicate IsCleanAction(v: Json)
  {
    v.JObj? && v.fields.Keys == ActionKeys && v.fields["priority"] in Priorities
  }

  function DictCount(items: seq<Json>): nat
  {
    if items == [] then 0 else DictCount(items[..|items| - 1]) + (if items[|items| - 1].JObj? then 1 else 0)
  }

  /** One cleaned action per dict entry, each with the five keys and a valid priority. */
  lemma {:induction false} CleanActionsShape(items: seq<Json>)
    ensures |CleanActions(items)| == DictCount(items) <= |items|
    ensures forall j :: 0 <= j < |CleanActions(items)| ==> IsCleanAction(CleanActions(items)[j])
    decreases |items|
  {
    if items != [] {
      CleanActionsShape(items[..|items| - 1]);
    }
  }

  /**
    When every entry is a dict, the cleaning is position by position: entry `i` keeps
    its keys and gets the id `action-{i+1}` when it had none.
  */
  lemma {:induction false} CleanActionsOfDicts(items: seq<Json>)
    requires forall j :: 0 <= j < |items| ==> items[j].JObj?
    ensures |CleanActions(items)| == |items|
    ensures forall j :: 0 <= j < |items| ==> CleanActions(items)[j] == JObj(CleanAction(items[j].fields, j))
    decreases |items|
  {
    if items != [] {
      var n := |items| - 1;
      var prefix := items[..n];
      CleanActionsOfDicts(prefix);
      assert CleanActions(items) == CleanActions(prefix) + [JObj(CleanAction(items[n].fields, n))];
      forall j | 0 <= j < n
        ensures CleanActions(items)[j] == JObj(CleanAction(items[j].fields, j))
      {
        assert prefix[j] == items[j];
      }
    }
  }

  /** Cleaning a cleaned action, wherever it now stands, changes nothing. */
  lemma CleanActionIdempotent(action: map<string, Json>, i: nat, j: nat)
    ensures CleanAction(CleanAction(action, i), j) == CleanAction(action, i)
  {
    var c := CleanAction(action, i);
    var cc := CleanAction(c, j);
    assert cc.Keys == c.Keys;
    forall k | k in c.Keys
      ensures cc[k] == c[k]
    {
    }
  }

  lemma {:induction false} CleanActionsIdempotent(items: seq<Json>)
    ensures CleanActions(CleanActions(items)) == CleanActions(items)
    decreases |items|
  {
    var out := CleanActions(items);
    CleanActionsShape(items);
    assert forall j :: 0 <= j < |out| ==> out[j].JObj?;
    CleanActionsOfDicts(out);
    var again := CleanActions(out);
    forall j | 0 <= j < |out|
      ensures again[j] == out[j]
    {
      assert IsCleanAction(out[j]);
      var f := out[j].fields;
      var c := CleanAction(f, j);
      assert c.Keys == f.Keys;
      forall k | k in f.Keys
        ensures c[k] == f[k]
      {
      }
    }
  }

  /** `not isinstance(result.get("confidence"), (int, float))`: replaced by 0. */
  function WithNumericConfidence(r: map<string, Json>): map<string, Json>
  {
    if PyIsNumber(Get(r, "confidence")) then r else r["confidence" := JNum(0.0)]
  }

  const NoSummary := "Résumé non disponible"

  /**
    What lines 74-104 do to the decoded dict: keyPoints and actionItems made lists, the
    actions cleaned, a numeric confidence, a summary, and the processing time. Every
    other key is kept.
  */
  function Normalise(result: map<string, Json>, elapsed: real): map<string, Json>
  {
    var r1 := if PyIsList(Get(result, "keyPoints")) then result else result["keyPoints" := JArr([])];
    var r2 := if PyIsList(Get(r1, "actionItems")) then r1 else r1["actionItems" := JArr([])];
    var r3 := r2["actionItems" := JArr(CleanActions(r2["actionItems"].items))];
    var r4 := WithNumericConfidence(r3);
    var r5 := if PyTruthy(Get(r4, "summary")) then r4 else r4["summary" := JStr(NoSummary)];
    r5["processingTime" := JNum(elapsed)]
  }

  /** The shape every answer of `analyze_with_gemini` has. */
  predicate WellFormed(r: map<string, Json>)
  {
    && "keyPoints" in r && r["keyPoints"].JArr?
    && "actionItems" in r && r["actionItems"].JArr?
    && (forall j :: 0 <= j < |r["actionItems"].items| ==> IsCleanAction(r["actionItems"].items[j]))
    && PyIsNumber(Get(r, "confidence"))
    && PyTruthy(Get(r, "summary"))
    && "processingTime" in r
  }

  lemma NormaliseIsWellFormed(result: map<string, Json>, elapsed: real)
    ensures WellFormed(Normalise(result, elapsed))
  {
    var r1 := if PyIsList(Get(result, "keyPoints")) then result else result["keyPoints" := JArr([])];
    var r2 := if PyIsList(Get(r1, "actionItems")) then r1 else r1["actionItems" := JArr([])];
    CleanActionsShape(r2["actionItems"].items);
  }

  /** The given fields other than the five rewritten ones pass through untouched. */
  lemma NormaliseKeepsOtherKeys(result: map<string, Json>, elapsed: real, k: string)
    requires k in result && k !in {"keyPoints", "actionItems", "confidence", "summary", "processingTime"}
    ensures k in Normalise(result, elapsed) && Normalise(result, elapsed)[k] == result[k]
  {
  }

  /** Normalising an already normalised answer again gives the same answer. */
  lemma NormaliseIdempotent(result: map<string, Json>, elapsed: real)
    ensures Normalise(Normalise(result, elapsed), elapsed) == Normalise(result, elapsed)
  {
    var n := Normalise(result, elapsed);
    NormaliseIsWellFormed(result, elapsed);
    var items := n["actionItems"].items;
    var r1 := if PyIsList(Get(result, "keyPoints")) then result else result["keyPoints" := JArr([])];
    var r2 := if PyIsList(Get(r1, "actionItems")) then r1 else r1["actionItems" := JArr([])];
    assert items == CleanActions(r2["actionItems"].items);
    CleanActionsIdempotent(r2["actionItems"].items);
    assert CleanActions(items) == items;
    var m := Normalise(n, elapsed);
    assert m.Keys == n.Keys;
    forall k | k in n.Keys
      ensures m[k] == n[k]
    {
    }
  }

  // ----- create_error_response and analyze_with_gemini -----

  const ErrorKeyPoint := "Erreur lors du traitement du document"

  /** `create_error_response`: a well-formed answer that reports the failure in its summary. */
  function ErrorResponse(message: string, elapsed: real): (r: map<string, Json>)
    ensures WellFormed(r)
    ensures r["summary"] == JStr("Échec de l'analyse du document: " + message)
    ensures r["actionItems"] == JArr([]) && r["keyPoints"] == JArr([JStr(ErrorKeyPoint)])
    ensures r["confidence"] == JNum(0.0) && r["processingTime"] == JNum(elapsed)
    ensures r.Keys == {"summary", "keyPoints", "actionItems", "confidence", "processingTime"}
  {
    map[
      "summary" := JStr("Échec de l'analyse du document: " + message),
      "keyPoints" := JArr([JStr(ErrorKeyPoint)]),
      "actionItems" := JArr([]),
      "confidence" := JNum(0.0),
      "processingTime" := JNum(elapsed)]
  }

  /** `response.text` of the Gemini call, or the message of the exception it raised. */
  datatype GeminiReply = Reply(text: string) | Failure(message: string)

  const EmptyReplyMessage := "Réponse vide de Gemini"

  /** The message Python gives for `result.get(...)` on a decoded value that is not a dict. */
  function NoGetMessage(v: Json): string
  {
    "'" + PyTypeName(v) + "' object has no attribute 'get'"
  }

  /**
    `analyze_with_gemini(text)` as a value: a Gemini failure or an empty reply become
    an analysis error, a decoding failure (`parse` gives its message) a JSON error, a
    decoded value that is not a dict the `AttributeError` of `result.get`, and a dict
    is normalised.
  */
  function Analysis(text: string, generate: string -> GeminiReply, parse: string -> Result<Json, string>, elapsed: real): map<string, Json>
  {
    match generate(GeminiPrompt(text))
    case Failure(m) => ErrorResponse("Erreur d'analyse: " + m, elapsed)
    case Reply(t) =>
      if t == "" then ErrorResponse("Erreur d'analyse: " + EmptyReplyMessage, elapsed)
      else AnalysisOfReply(t, parse, elapsed)
  }

  /** What a non-empty reply text becomes. */
  function AnalysisOfReply(reply: string, parse: string -> Result<Json, string>, elapsed: real): map<string, Json>
  {
    AnalysisOfDecoded(parse(StripFences(reply)), elapsed)
  }

  /** What the outcome of decoding becomes. */
  function AnalysisOfDecoded(decoded: Result<Json, string>, elapsed: real): map<string, Json>
  {
    match decoded
    case Err(m) => ErrorResponse("Erreur de format JSON: " + m, elapsed)
    case Ok(v) => AnalysisOfValue(v, elapsed)
  }

  /** What the decoded value becomes. */
  function AnalysisOfValue(v: Json, elapsed: real): map<string, Json>
  {
    if v.JObj? then Normalise(v.fields, elapsed)
    else ErrorResponse("Erreur d'analyse: " + NoGetMessage(v), elapsed)
  }

  /** Whatever Gemini and the decoder do, the answer is well formed: nothing is raised. */
  lemma AnalysisIsWellFormed(text: string, generate: string -> GeminiReply, parse: string -> Result<Json, string>, elapsed: real)
    ensures WellFormed(Analysis(text, generate, parse, elapsed))
  {
    var reply := generate(GeminiPrompt(text));
    if reply.Reply? && reply.text != "" {
      var decoded := parse(StripFences(reply.text));
      if decoded.Ok? && decoded.value.JObj? {
        NormaliseIsWellFormed(decoded.value.fields, elapsed);
      }
    }
  }

  /** A non-empty reply is what gets decoded. */
  lemma AnalysisOfNonEmptyReply(text: string, reply: string, generate: string -> GeminiReply, parse: string -> Result<Json, string>, elapsed: real)
    requires generate(GeminiPrompt(text)) == Reply(reply) && reply != ""
    ensures Analysis(text, generate, parse, elapsed) == AnalysisOfReply(reply, parse, elapsed)
  { }

  /** A reply that strips to a dict is normalised. */
  lemma AnalysisOfStrippedDict(reply: string, body: string, parse: string -> Result<Json, string>, elapsed: real)
    requires StripFences(reply) == body
    requires parse(body).Ok? && parse(body).value.JObj?
    ensures AnalysisOfReply(reply, parse, elapsed) == Normalise(parse(body).value.fields, elapsed)
  { }

  /** A fenced JSON object reply is decoded from the text inside the fence. */
  lemma AnalysisOfFencedReply(text: string, body: string, generate: string -> GeminiReply, parse: string -> Result<Json, string>, elapsed: real)
    requires Trimmed(Python, body)
    requires generate(GeminiPrompt(text)) == Reply("```json\n" + body + "\n```")
    requires parse(body).Ok? && parse(body).value.JObj?
    ensures Analysis(text, generate, parse, elapsed) == Normalise(parse(body).value.fields, elapsed)
  {
    var reply := "```json\n" + body + "\n```";
    assert |reply| == |body| + 12;
    AnalysisOfNonEmptyReply(text, reply, generate, parse, elapsed);
    JsonFenceRoundTrip(body);
    AnalysisOfStrippedDict(reply, body, parse, elapsed);
  }

  /**
    `analyze_with_gemini`: the reply text is reassigned step by step, the decoded dict
    is updated in place and the action list is built by a loop.
  */
  method AnalyzeWithGemini(text: string, generate: string -> GeminiReply, parse: string -> Result<Json, string>, elapsed: real)
    returns (result: map<string, Json>)
    ensures result == Analysis(text, generate, parse, elapsed)
    ensures WellFormed(result)
  {
    var response := generate(GeminiPrompt(text));
    if response.Failure? {
      result := ErrorResponse("Erreur d'analyse: " + response.message, elapsed);
    } else if response.text == "" {
      result := ErrorResponse("Erreur d'analyse: " + EmptyReplyMessage, elapsed);
    } else {
      result := AnalyzeReply(response.text, parse, elapsed);
    }
    AnalysisIsWellFormed(text, generate, parse, elapsed);
  }

  /** Lines 61-75: the fences are stripped and the reply decoded. */
  method AnalyzeReply(reply: string, parse: string -> Result<Json, string>, elapsed: real)
    returns (result: map<string, Json>)
    ensures result == AnalysisOfReply(reply, parse, elapsed)
  {
    var responseText := StripReply(reply);
    result := AnalyzeDecoded(parse(responseText), elapsed);
  }

  /** Line 75 and its `except json.JSONDecodeError`. */
  method AnalyzeDecoded(decoded: Result<Json, string>, elapsed: real) returns (result: map<string, Json>)
    ensures result == AnalysisOfDecoded(decoded, elapsed)
  {
    if decoded.Err? {
      result := ErrorResponse("Erreur de format JSON: " + decoded.error, elapsed);
    } else {
      result := AnalyzeValue(decoded.value, elapsed);
    }
  }

  /** Lines 74-104: a dict is normalised; anything else fails at `result.get`. */
  method AnalyzeValue(v: Json, elapsed: real) returns (result: map<string, Json>)
    ensures result == AnalysisOfValue(v, elapsed)
  {
    if v.JObj? {
      result := NormaliseInPlace(v.fields, elapsed);
    } else {
      result := ErrorResponse("Erreur d'analyse: " + NoGetMessage(v), elapsed);
    }
  }

  /** Lines 61-70: the reply text, reassigned at each step. */
  method StripReply(reply: string) returns (responseText: string)
    ensures responseText == StripFences(reply)
  {
    responseText := Trim(Python, reply);
    responseText := DropFences(responseText);
    responseText := Trim(Python, responseText);
  }

  /** The three `if`s of lines 63-68. */
  method DropFences(t0: string) returns (responseText: string)
    ensures responseText == Unfence(t0)
  {
    responseText := t0;
    if StartsWith(responseText, "```json") {
      responseText := responseText[7..];
    }
    if StartsWith(responseText, "```") {
      responseText := responseText[3..];
    }
    if EndsWith(responseText, "```") {
      responseText := responseText[..|responseText| - 3];
    }
  }

  /** Lines 74-104: the decoded dict, updated key by key. */
  method NormaliseInPlace(decoded: map<string, Json>, elapsed: real) returns (result: map<string, Json>)
    ensures result == Normalise(decoded, elapsed)
  {
    result := decoded;
    if !PyIsList(Get(result, "keyPoints")) {
      result := result["keyPoints" := JArr([])];
    }
    if !PyIsList(Get(result, "actionItems")) {
      result := result["actionItems" := JArr([])];
    }
    var cleaned := CleanActionList(result["actionItems"].items);
    result := result["actionItems" := JArr(cleaned)];
    if !PyIsNumber(Get(result, "confidence")) {
      result := result["confidence" := JNum(0.0)];
    }
    if !PyTruthy(Get(result, "summary")) {
      result := result["summary" := JStr(NoSummary)];
    }
    result := result["processingTime" := JNum(elapsed)];
  }

  /** Lines 80-94: the `for` loop that appends each cleaned dict entry. */
  method CleanActionList(actions: seq<Json>) returns (cleaned: seq<Json>)
    ensures cleaned == CleanActions(actions)
  {
    cleaned := [];
    var i := 0;
    while i < |actions|
      invariant 0 <= i <= |actions|
      invariant cleaned == CleanActions(actions[..i])
    {
      assert actions[..i + 1][..i] == actions[..i];
      if actions[i].JObj? {
        var cleanedAction := CleanOne(actions[i].fields, i);
        cleaned := cleaned + [JObj(cleanedAction)];
      }
      i := i + 1;
    }
    assert actions[..|actions|] == actions;
  }

  /** The body of the loop for one dict: the defaults, then the priority check. */
  method CleanOne(action: map<string, Json>, i: nat) returns (cleanedAction: map<string, Json>)
    ensures cleanedAction == CleanAction(action, i)
  {
    cleanedAction := map[
      "id" := GetOr(action, "id", JStr("action-" + NatToString(i + 1))),
      "title" := GetOr(action, "title", JStr("Action sans titre")),
      "description" := GetOr(action, "description", JStr("Aucune description")),
      "priority" := GetOr(action, "priority", JStr("medium")),
      "category" := GetOr(action, "category", JStr("General"))];
    if cleanedAction["priority"] !in Priorities {
      cleanedAction := cleanedAction["priority" := JStr("medium")];
    }
  }

  // ----- POST /api/analyze -----

  /** An entry of `request.files`: the client's file name and the bytes. */
  datatype FilePart = FilePart(filename: string, data: seq<bv8>)

  const NoFileMessage := "Aucun fichier fourni"
  const NoFileSelectedMessage := "Aucun fichier sélectionné"
  const PdfOnlyMessage := "Seuls les fichiers PDF sont supportés"
  const NoTextMessage := "Aucun texte extrait du PDF"

  /**
    `analyze_document`: the four checks in order, each a 400 with an error response
    (whose processing time rounds to 0), then extraction, whose failure is a 500 with
    the exception text, then the analysis with 200. `extract` stands for PyPDF2.
  */
  method AnalyzeDocument(files: map<string, FilePart>, extract: seq<bv8> -> Result<string, string>,
                         generate: string -> GeminiReply, parse: string -> Result<Json, string>, elapsed: real)
    returns (status: int, body: map<string, Json>)
    ensures "file" !in files ==> status == 400 && body == ErrorResponse(NoFileMessage, 0.0)
    ensures "file" in files && files["file"].filename == "" ==>
      status == 400 && body == ErrorResponse(NoFileSelectedMessage, 0.0)
    ensures "file" in files && files["file"].filename != "" && !EndsWith(files["file"].filename, ".pdf") ==>
      status == 400 && body == ErrorResponse(PdfOnlyMessage, 0.0)
    ensures "file" in files && EndsWith(files["file"].filename, ".pdf") ==>
      match extract(files["file"].data)
      case Err(m) => status == 500 && body == ErrorResponse(m, 0.0)
      case Ok(t) =>
        if Trim(Python, t) == [] then status == 400 && body == ErrorResponse(NoTextMessage, 0.0)
        else status == 200 && body == Analysis(t, generate, parse, elapsed)
    ensures WellFormed(body)
  {
    if "file" !in files {
      return 400, ErrorResponse(NoFileMessage, 0.0);
    }
    var file := files["file"];
    if file.filename == "" {
      return 400, ErrorResponse(NoFileSelectedMessage, 0.0);
    }
    if !EndsWith(file.filename, ".pdf") {
      return 400, ErrorResponse(PdfOnlyMessage, 0.0);
    }
    var extracted := extract(file.data);
    if extracted.Err? {
      return 500, ErrorResponse(extracted.error, 0.0);
    }
    var text := extracted.value;
    if Trim(Python, text) == [] {
      return 400, ErrorResponse(NoTextMessage, 0.0);
    }
    body := AnalyzeWithGemini(text, generate, parse, elapsed);
    status := 200;
  }
}
