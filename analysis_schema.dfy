/**
  The body schema of the analysis routes (backend/db-service/routes/analyses.js,
  `analysisSchema`) as a hand-written check built from the `Joi` rules, and the two
  routes that validate with it: `POST /api/analyses` and `PUT /api/analyses/:id`.
*/
module AnalysisSchema {
  import opened Common
  import opened JsonValues
  import opened Joi
  import Validation

  const DocumentNameMessages: Messages := map[
    "string.min" := "Le nom du document doit faire au moins 3 caractères",
    "any.required" := "Le nom du document est requis"]
  const SummaryMessages: Messages := map[
    "string.min" := "Le résumé doit faire au moins 10 caractères",
    "any.required" := "Le résumé est requis"]
  const KeyPointsMessages: Messages := map[
    "array.min" := "Au moins 1 point clé requis",
    "any.required" := "Les points clés sont requis"]
  const ConfidenceMessages: Messages := map[
    "number.min" := "La confiance doit être entre 0 et 100",
    "any.required" := "Le score de confiance est requis"]

  const Priorities: seq<string> := ["low", "medium", "high"]

  // ----- One action item -----

  function ItemIdDetails(path: seq<Segment>): Json -> seq<Detail>
  {
    (v: Json) => StringDetails(path + [Key("id")], v, [], map[])
  }

  function ItemTitleDetails(path: seq<Segment>): Json -> seq<Detail>
  {
    (v: Json) => StringDetails(path + [Key("title")], v, [MinLength(3), MaxLength(200)], map[])
  }

  function ItemDescriptionDetails(path: seq<Segment>): Json -> seq<Detail>
  {
    (v: Json) => StringDetails(path + [Key("description")], v, [MinLength(10), MaxLength(1000)], map[])
  }

  function ItemPriorityDetails(path: seq<Segment>): Json -> seq<Detail>
  {
    (v: Json) => OnlyDetails(path + [Key("priority")], v, Priorities, map[])
  }

  function ItemCategoryDetails(path: seq<Segment>): Json -> seq<Detail>
  {
    (v: Json) => StringDetails(path + [Key("category")], v, [MinLength(2), MaxLength(100)], map[])
  }

  /** The object schema of an element of `actionItems`, at `path`. */
  function ActionItemDetails(path: seq<Segment>, item: Json): seq<Detail>
  {
    if !item.JObj? then [ObjectBase(path)]
    else
      var f := item.fields;
      KeyDetails(f, path, "id", Optional, false, map[], ItemIdDetails(path))
      + KeyDetails(f, path, "title", Required, false, map[], ItemTitleDetails(path))
      + KeyDetails(f, path, "description", Required, false, map[], ItemDescriptionDetails(path))
      + KeyDetails(f, path, "priority", Optional, false, map[], ItemPriorityDetails(path))
      + KeyDetails(f, path, "category", Required, false, map[], ItemCategoryDetails(path))
  }

  predicate NonEmptyString(v: Json)
  {
    v.JStr? && v.s != ""
  }

  /** A non-empty string of `lo` to `hi` characters. */
  predicate StringBetween(v: Json, lo: nat, hi: nat)
  {
    v.JStr? && v.s != "" && lo <= |v.s| <= hi
  }

  predicate ActionItemOk(item: Json)
  {
    && item.JObj?
    && ("id" in item.fields ==> NonEmptyString(item.fields["id"]))
    && "title" in item.fields && StringBetween(item.fields["title"], 3, 200)
    && "description" in item.fields && StringBetween(item.fields["description"], 10, 1000)
    && ("priority" in item.fields ==> item.fields["priority"].JStr? && item.fields["priority"].s in Priorities)
    && "category" in item.fields && StringBetween(item.fields["category"], 2, 100)
  }

  lemma StringRulesOfTwo(rules: seq<StringRule>, s: string)
    requires |rules| == 2
    ensures (forall i :: 0 <= i < |rules| ==> StringRuleHolds(rules[i], s)) <==>
      StringRuleHolds(rules[0], s) && StringRuleHolds(rules[1], s)
  {
  }

  /** An action item passes exactly when it is an object meeting every rule of its keys. */
  lemma ActionItemAcceptsIff(path: seq<Segment>, item: Json)
    ensures ActionItemDetails(path, item) == [] <==> ActionItemOk(item)
  {
    if item.JObj? {
      var f := item.fields;
      if "title" in f && f["title"].JStr? { StringRulesOfTwo([MinLength(3), MaxLength(200)], f["title"].s); }
      if "description" in f && f["description"].JStr? { StringRulesOfTwo([MinLength(10), MaxLength(1000)], f["description"].s); }
      if "category" in f && f["category"].JStr? { StringRulesOfTwo([MinLength(2), MaxLength(100)], f["category"].s); }
    }
  }

  /** The validated item: known keys only, `priority` `'medium'` unless given. */
  function ActionItemValue(item: Json): (v: Json)
    ensures item.JObj? ==>
      v.JObj? && "priority" in v.fields && v.fields.Keys <= {"id", "title", "description", "priority", "category"}
  {
    if !item.JObj? then item
    else
      var f := item.fields;
      JObj(
        (map k | k in f && k in {"id", "title", "description", "category"} :: f[k])
        + map["priority" := WithDefault(f, "priority", JStr("medium"))])
  }

  // ----- The body -----

  function KeyPointDetails(path: seq<Segment>, v: Json): seq<Detail>
  {
    StringDetails(path, v, [MinLength(3), MaxLength(500)], map[])
  }

  function TagDetails(path: seq<Segment>, v: Json): seq<Detail>
  {
    StringDetails(path, v, [MaxLength(50)], map[])
  }

  function DocumentNameDetails(v: Json): seq<Detail>
  {
    StringDetails([Key("documentName")], v, [MinLength(3), MaxLength(255)], DocumentNameMessages)
  }

  function DocumentIdDetails(v: Json): seq<Detail> { StringDetails([Key("documentId")], v, [], map[]) }

  function SummaryDetails(v: Json): seq<Detail>
  {
    StringDetails([Key("summary")], v, [MinLength(10), MaxLength(5000)], SummaryMessages)
  }

  function KeyPointsDetails(v: Json): seq<Detail>
  {
    ArrayDetails([Key("keyPoints")], v, KeyPointDetails, [MinItems(1), MaxItems(20)], KeyPointsMessages)
  }

  function ActionItemsDetails(v: Json): seq<Detail>
  {
    ArrayDetails([Key("actionItems")], v, ActionItemDetails, [MaxItems(10)], map[])
  }

  function ConfidenceDetails(v: Json): seq<Detail>
  {
    NumberDetails([Key("confidence")], v, [Integer, MinValue(0), MaxValue(100)], ConfidenceMessages)
  }

  function ProcessingTimeDetails(v: Json): seq<Detail>
  {
    NumberDetails([Key("processingTime")], v, [Positive, MaxValue(300)], map[])
  }

  function ModelUsedDetails(v: Json): seq<Detail> { StringDetails([Key("modelUsed")], v, [MaxLength(100)], map[]) }

  function TokensUsedDetails(v: Json): seq<Detail>
  {
    NumberDetails([Key("tokensUsed")], v, [Integer, MinValue(0)], map[])
  }

  function CategoryDetails(v: Json): seq<Detail> { StringDetails([Key("category")], v, [MaxLength(100)], map[]) }

  function TagsDetails(v: Json): seq<Detail>
  {
    ArrayDetails([Key("tags")], v, TagDetails, [MaxItems(10)], map[])
  }

  /** The failures of `analysisSchema` on a body object, key by key in schema order. */
  function BodyDetails(b: map<string, Json>): seq<Detail>
  {
    ContentDetails(b) + ActionDetails(b) + MetadataDetails(b)
  }

  /** `documentName`, `documentId`, `summary` and `keyPoints`. */
  function ContentDetails(b: map<string, Json>): seq<Detail>
  {
    KeyDetails(b, [], "documentName", Required, false, DocumentNameMessages, DocumentNameDetails)
    + KeyDetails(b, [], "documentId", Optional, true, map[], DocumentIdDetails)
    + KeyDetails(b, [], "summary", Required, false, SummaryMessages, SummaryDetails)
    + KeyDetails(b, [], "keyPoints", Required, false, KeyPointsMessages, KeyPointsDetails)
  }

  /** `actionItems` and `confidence`. */
  function ActionDetails(b: map<string, Json>): seq<Detail>
  {
    KeyDetails(b, [], "actionItems", Optional, false, map[], ActionItemsDetails)
    + KeyDetails(b, [], "confidence", Required, false, ConfidenceMessages, ConfidenceDetails)
  }

  /** `processingTime`, `modelUsed`, `tokensUsed`, `category` and `tags`. */
  function MetadataDetails(b: map<string, Json>): seq<Detail>
  {
    KeyDetails(b, [], "processingTime", Optional, false, map[], ProcessingTimeDetails)
    + KeyDetails(b, [], "modelUsed", Optional, false, map[], ModelUsedDetails)
    + KeyDetails(b, [], "tokensUsed", Optional, false, map[], TokensUsedDetails)
    + KeyDetails(b, [], "category", Optional, true, map[], CategoryDetails)
    + KeyDetails(b, [], "tags", Optional, false, map[], TagsDetails)
  }

  /** The keys given and kept as they are, when present. */
  const PassedKeys: set<string> := {"documentName", "documentId", "summary", "keyPoints", "category"}

  /** The validated body: converted numbers, cleaned action items, the defaults, no unknown key. */
  function BodyValue(b: map<string, Json>): map<string, Json>
  {
    PassedValues(b) + DefaultedValues(b) + ConfidenceValue(b)
  }

  /** The keys kept as given. */
  function PassedValues(b: map<string, Json>): map<string, Json>
  {
    map k | k in b && k in PassedKeys :: b[k]
  }

  /** The keys with a default. */
  function DefaultedValues(b: map<string, Json>): map<string, Json>
  {
    map[
      "actionItems" := ActionItemsValue(WithDefault(b, "actionItems", JArr([]))),
      "processingTime" := ToNumber(WithDefault(b, "processingTime", JNum(0.0))),
      "modelUsed" := WithDefault(b, "modelUsed", JStr("unknown")),
      "tokensUsed" := ToNumber(WithDefault(b, "tokensUsed", JNum(0.0))),
      "tags" := WithDefault(b, "tags", JArr([]))]
  }

  function ConfidenceValue(b: map<string, Json>): map<string, Json>
  {
    if "confidence" in b then map["confidence" := ToNumber(b["confidence"])] else map[]
  }

  /** Each action item of an array, cleaned. */
  function ActionItemsValue(items: Json): (v: Json)
    ensures items.JArr? ==>
      v.JArr? && |v.items| == |items.items|
      && forall i :: 0 <= i < |items.items| ==> v.items[i] == ActionItemValue(items.items[i])
    ensures !items.JArr? ==> v == items
  {
    if items.JArr? then JArr(seq(|items.items|, i requires 0 <= i < |items.items| => ActionItemValue(items.items[i]))) else items
  }

  /** `analysisSchema.validate(body, { abortEarly: false, stripUnknown: true })`. */
  function AnalysisBody(body: Json): Validation.Checked
  {
    if body.JObj? then Validation.Checked(BodyDetails(body.fields), BodyValue(body.fields))
    else Validation.Checked([ObjectBase([])], map[])
  }

  // ----- What the schema accepts -----

  predicate WholeIn(v: Json, lo: nat, hi: Option<nat>)
  {
    var w := ToNumber(v);
    w.JNum? && SafeNumber(w.n) && IsWhole(w.n) && w.n >= lo as real && (hi.Some? ==> w.n <= hi.value as real)
  }

  predicate KeyPointsOk(v: Json)
  {
    v.JArr? && 1 <= |v.items| <= 20 && forall i :: 0 <= i < |v.items| ==> StringBetween(v.items[i], 3, 500)
  }

  predicate ActionItemsOk(v: Json)
  {
    v.JArr? && |v.items| <= 10 && forall i :: 0 <= i < |v.items| ==> ActionItemOk(v.items[i])
  }

  predicate TagsOk(v: Json)
  {
    v.JArr? && |v.items| <= 10 && forall i :: 0 <= i < |v.items| ==> StringBetween(v.items[i], 1, 50)
  }

  predicate ContentOk(b: map<string, Json>)
  {
    && "documentName" in b && StringBetween(b["documentName"], 3, 255)
    && ("documentId" in b && b["documentId"] != JNull ==> NonEmptyString(b["documentId"]))
    && "summary" in b && StringBetween(b["summary"], 10, 5000)
    && "keyPoints" in b && KeyPointsOk(b["keyPoints"])
  }

  predicate ActionOk(b: map<string, Json>)
  {
    && ("actionItems" in b ==> ActionItemsOk(b["actionItems"]))
    && "confidence" in b && WholeIn(b["confidence"], 0, Some(100))
  }

  predicate MetadataOk(b: map<string, Json>)
  {
    ProcessingTimeOk(b) && ModelUsedOk(b) && TokensUsedOk(b) && CategoryOk(b) && TagsKeyOk(b)
  }

  predicate ProcessingTimeOk(b: map<string, Json>)
  {
    "processingTime" in b ==>
      var w := ToNumber(b["processingTime"]); w.JNum? && SafeNumber(w.n) && 0.0 < w.n <= 300.0
  }

  predicate ModelUsedOk(b: map<string, Json>)
  {
    "modelUsed" in b ==> StringBetween(b["modelUsed"], 1, 100)
  }

  predicate TokensUsedOk(b: map<string, Json>)
  {
    "tokensUsed" in b ==> WholeIn(b["tokensUsed"], 0, None)
  }

  predicate CategoryOk(b: map<string, Json>)
  {
    "category" in b && b["category"] != JNull ==> StringBetween(b["category"], 1, 100)
  }

  predicate TagsKeyOk(b: map<string, Json>)
  {
    "tags" in b ==> TagsOk(b["tags"])
  }

  /** Every rule of `analysisSchema`, key by key. */
  predicate BodyOk(b: map<string, Json>)
  {
    ContentOk(b) && ActionOk(b) && MetadataOk(b)
  }

  lemma NumberRulesOfTwo(rules: seq<NumberRule>, x: real)
    requires |rules| == 2
    ensures (forall i :: 0 <= i < |rules| ==> NumberRuleHolds(rules[i], x)) <==>
      NumberRuleHolds(rules[0], x) && NumberRuleHolds(rules[1], x)
  {
  }

  lemma NumberRulesOfThree(rules: seq<NumberRule>, x: real)
    requires |rules| == 3
    ensures (forall i :: 0 <= i < |rules| ==> NumberRuleHolds(rules[i], x)) <==>
      NumberRuleHolds(rules[0], x) && NumberRuleHolds(rules[1], x) && NumberRuleHolds(rules[2], x)
  {
  }

  lemma KeyPointsAcceptsIff(v: Json)
    ensures KeyPointsDetails(v) == [] <==> KeyPointsOk(v)
  {
    if v.JArr? {
      forall i | 0 <= i < |v.items| && v.items[i].JStr?
        ensures KeyPointDetails([Key("keyPoints")] + [Index(i)], v.items[i]) == [] <==> StringBetween(v.items[i], 3, 500)
      {
        StringRulesOfTwo([MinLength(3), MaxLength(500)], v.items[i].s);
      }
      var rules := [MinItems(1), MaxItems(20)];
      assert (forall i :: 0 <= i < |rules| ==> ArrayRuleHolds(rules[i], |v.items|)) <==> 1 <= |v.items| <= 20 by {
        assert rules[0] == MinItems(1) && rules[1] == MaxItems(20);
      }
    }
  }

  lemma ActionItemsAcceptsIff(v: Json)
    ensures ActionItemsDetails(v) == [] <==> ActionItemsOk(v)
  {
    if v.JArr? {
      forall i | 0 <= i < |v.items|
        ensures ActionItemDetails([Key("actionItems")] + [Index(i)], v.items[i]) == [] <==> ActionItemOk(v.items[i])
      {
        ActionItemAcceptsIff([Key("actionItems")] + [Index(i)], v.items[i]);
      }
      var rules := [MaxItems(10)];
      assert (forall i :: 0 <= i < |rules| ==> ArrayRuleHolds(rules[i], |v.items|)) <==> |v.items| <= 10 by {
        assert rules[0] == MaxItems(10);
      }
    }
  }

  lemma TagsAcceptsIff(v: Json)
    ensures TagsDetails(v) == [] <==> TagsOk(v)
  {
    if v.JArr? {
      var rules := [MaxItems(10)];
      assert (forall i :: 0 <= i < |rules| ==> ArrayRuleHolds(rules[i], |v.items|)) <==> |v.items| <= 10 by {
        assert rules[0] == MaxItems(10);
      }
    }
  }

  /**
    A body passes `analysisSchema` exactly when every key meets its rules: the three
    required strings and `keyPoints` with their lengths and sizes, `confidence` an
    integer from 0 to 100 (both ends accepted), and each optional key, when given
    (`documentId` and `category` may also be `null`), of its type and bounds.
  */
  lemma BodyAcceptsIff(b: map<string, Json>)
    ensures BodyDetails(b) == [] <==> BodyOk(b)
  {
    ContentAcceptsIff(b);
    ActionAcceptsIff(b);
    MetadataAcceptsIff(b);
  }

  lemma ContentAcceptsIff(b: map<string, Json>)
    ensures ContentDetails(b) == [] <==> ContentOk(b)
  {
    if "documentName" in b && b["documentName"].JStr? {
      StringRulesOfTwo([MinLength(3), MaxLength(255)], b["documentName"].s);
    }
    if "summary" in b && b["summary"].JStr? {
      StringRulesOfTwo([MinLength(10), MaxLength(5000)], b["summary"].s);
    }
    if "keyPoints" in b {
      KeyPointsAcceptsIff(b["keyPoints"]);
    }
  }

  lemma ActionAcceptsIff(b: map<string, Json>)
    ensures ActionDetails(b) == [] <==> ActionOk(b)
  {
    if "actionItems" in b {
      ActionItemsAcceptsIff(b["actionItems"]);
    }
    if "confidence" in b && ToNumber(b["confidence"]).JNum? {
      NumberRulesOfThree([Integer, MinValue(0), MaxValue(100)], ToNumber(b["confidence"]).n);
    }
  }

  lemma MetadataAcceptsIff(b: map<string, Json>)
    ensures MetadataDetails(b) == [] <==> MetadataOk(b)
  {
    ProcessingTimeAcceptsIff(b);
    ModelUsedAcceptsIff(b);
    TokensUsedAcceptsIff(b);
    CategoryAcceptsIff(b);
    TagsKeyAcceptsIff(b);
  }

  lemma ProcessingTimeAcceptsIff(b: map<string, Json>)
    ensures KeyDetails(b, [], "processingTime", Optional, false, map[], ProcessingTimeDetails) == [] <==> ProcessingTimeOk(b)
  {
    if "processingTime" in b && ToNumber(b["processingTime"]).JNum? {
      NumberRulesOfTwo([Positive, MaxValue(300)], ToNumber(b["processingTime"]).n);
    }
  }

  lemma ModelUsedAcceptsIff(b: map<string, Json>)
    ensures KeyDetails(b, [], "modelUsed", Optional, false, map[], ModelUsedDetails) == [] <==> ModelUsedOk(b)
  {
  }

  lemma TokensUsedAcceptsIff(b: map<string, Json>)
    ensures KeyDetails(b, [], "tokensUsed", Optional, false, map[], TokensUsedDetails) == [] <==> TokensUsedOk(b)
  {
    if "tokensUsed" in b && ToNumber(b["tokensUsed"]).JNum? {
      NumberRulesOfTwo([Integer, MinValue(0)], ToNumber(b["tokensUsed"]).n);
    }
  }

  lemma CategoryAcceptsIff(b: map<string, Json>)
    ensures KeyDetails(b, [], "category", Optional, true, map[], CategoryDetails) == [] <==> CategoryOk(b)
  {
  }

  lemma TagsKeyAcceptsIff(b: map<string, Json>)
    ensures KeyDetails(b, [], "tags", Optional, false, map[], TagsDetails) == [] <==> TagsKeyOk(b)
  {
    if "tags" in b {
      TagsAcceptsIff(b["tags"]);
    }
  }

  /**
    The defaults of an accepted body: `actionItems` `[]`, `processingTime` 0,
    `modelUsed` `'unknown'`, `tokensUsed` 0 and `tags` `[]` when absent; the validated
    body holds only keys of the schema.
  */
  lemma BodyDefaults(b: map<string, Json>)
    ensures var v := BodyValue(b);
      && ("actionItems" !in b ==> v["actionItems"] == JArr([]))
      && ("processingTime" !in b ==> v["processingTime"] == JNum(0.0))
      && ("modelUsed" !in b ==> v["modelUsed"] == JStr("unknown"))
      && ("tokensUsed" !in b ==> v["tokensUsed"] == JNum(0.0))
      && ("tags" !in b ==> v["tags"] == JArr([]))
  {
  }

  /** Unknown keys are stripped; the keys passed through keep their values. */
  lemma BodyKeys(b: map<string, Json>)
    ensures var v := BodyValue(b);
      && v.Keys <= PassedKeys + DefaultedValues(b).Keys + {"confidence"}
      && (forall k :: k in b && k in PassedKeys ==> k in v && v[k] == b[k])
  {
    var v := BodyValue(b);
    assert v.Keys == PassedValues(b).Keys + DefaultedValues(b).Keys + ConfidenceValue(b).Keys;
    assert PassedValues(b).Keys <= PassedKeys;
    forall k | k in b && k in PassedKeys
      ensures k in v && v[k] == b[k]
    {
      assert k in PassedValues(b);
      assert k !in DefaultedValues(b).Keys;
      assert k !in ConfidenceValue(b).Keys;
    }
  }

  /** Every validated action item has a priority, `'medium'` unless one of the three was given. */
  lemma AcceptedItemsHavePriority(b: map<string, Json>)
    requires BodyDetails(b) == []
    ensures var items := BodyValue(b)["actionItems"];
      items.JArr? && forall i :: 0 <= i < |items.items| ==>
        items.items[i].JObj? && "priority" in items.items[i].fields
        && OneOfPriorities(items.items[i].fields["priority"])
  {
    assert ActionDetails(b) == [];
    ActionAcceptsIff(b);
    BodyActionItems(b);
    CleanedItemsHavePriority(WithDefault(b, "actionItems", JArr([])));
  }

  lemma BodyActionItems(b: map<string, Json>)
    ensures BodyValue(b)["actionItems"] == ActionItemsValue(WithDefault(b, "actionItems", JArr([])))
  {
    assert "actionItems" !in ConfidenceValue(b).Keys;
  }

  lemma CleanedItemsHavePriority(given: Json)
    requires ActionItemsOk(given)
    ensures var items := ActionItemsValue(given);
      items.JArr? && forall i :: 0 <= i < |items.items| ==>
        items.items[i].JObj? && "priority" in items.items[i].fields
        && OneOfPriorities(items.items[i].fields["priority"])
  {
    var items := ActionItemsValue(given);
    forall i | 0 <= i < |items.items|
      ensures items.items[i].JObj? && "priority" in items.items[i].fields && OneOfPriorities(items.items[i].fields["priority"])
    {
      assert ActionItemOk(given.items[i]);
    }
  }

  predicate OneOfPriorities(v: Json)
  {
    v.JStr? && v.s in Priorities
  }

  // ----- The routes -----

  datatype Route = PostAnalysis | PutAnalysis

  /** The body schema each route validates with: both use the full `analysisSchema`. */
  function BodySchema(route: Route): (schema: Json -> Validation.Checked)
    ensures forall body :: schema(body) == AnalysisBody(body)
  {
    AnalysisBody
  }

  /**
    An update is checked like a creation: a `PUT` body that leaves out a required key
    (a partial update) is refused.
  */
  lemma PartialUpdateIsRefused(b: map<string, Json>)
    requires "documentName" !in b || "summary" !in b || "keyPoints" !in b || "confidence" !in b
    ensures BodySchema(PutAnalysis)(JObj(b)).details != []
    ensures BodySchema(PutAnalysis)(JObj(b)) == BodySchema(PostAnalysis)(JObj(b))
  {
    ContentAcceptsIff(b);
    ActionAcceptsIff(b);
  }
}
