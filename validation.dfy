/**
  The validation middleware of the storage service
  (backend/db-service/middleware/validation.js): the pagination query schema, the
  generic `validate(schema, source)` that answers 400 with every failing field or
  replaces the validated part of the request, and `validateParams` for URL parameters.
*/
module Validation {
  import opened Common
  import opened JsonValues
  import opened Joi
  import Errors

  /** The outcome of `schema.validate(data)`: the details, and the converted, defaulted value. */
  datatype Checked = Checked(details: seq<Detail>, value: map<string, Json>)

  // ----- schemas.pagination -----

  const PageRules: seq<NumberRule> := [Integer, MinValue(1)]
  const LimitRules: seq<NumberRule> := [Integer, MinValue(1), MaxValue(100)]
  const SortByValues: seq<string> := ["createdAt", "updatedAt", "status"]
  const SortOrderValues: seq<string> := ["ASC", "DESC"]
  const StatusValues: seq<string> := ["processing", "completed", "error"]

  function PageDetails(v: Json): seq<Detail> { NumberDetails([Key("page")], v, PageRules, map[]) }
  function LimitDetails(v: Json): seq<Detail> { NumberDetails([Key("limit")], v, LimitRules, map[]) }
  function SortByDetails(v: Json): seq<Detail> { OnlyDetails([Key("sortBy")], v, SortByValues, map[]) }
  function SortOrderDetails(v: Json): seq<Detail> { OnlyDetails([Key("sortOrder")], v, SortOrderValues, map[]) }
  function StatusDetails(v: Json): seq<Detail> { OnlyDetails([Key("status")], v, StatusValues, map[]) }

  /** The failures of `schemas.pagination` on a query object, key by key in schema order. */
  function PaginationDetails(q: map<string, Json>): seq<Detail>
  {
    KeyDetails(q, [], "page", Optional, false, map[], PageDetails)
    + KeyDetails(q, [], "limit", Optional, false, map[], LimitDetails)
    + KeyDetails(q, [], "sortBy", Optional, false, map[], SortByDetails)
    + KeyDetails(q, [], "sortOrder", Optional, false, map[], SortOrderDetails)
    + KeyDetails(q, [], "status", Optional, false, map[], StatusDetails)
  }

  /** The validated query: numbers converted, defaults filled in, unknown keys stripped. */
  function PaginationValue(q: map<string, Json>): map<string, Json>
  {
    map[
      "page" := ToNumber(WithDefault(q, "page", JNum(1.0))),
      "limit" := ToNumber(WithDefault(q, "limit", JNum(10.0))),
      "sortBy" := WithDefault(q, "sortBy", JStr("createdAt")),
      "sortOrder" := WithDefault(q, "sortOrder", JStr("DESC"))]
    + (if "status" in q then map["status" := q["status"]] else map[])
  }

  function Pagination(query: Json): Checked
  {
    if query.JObj? then Checked(PaginationDetails(query.fields), PaginationValue(query.fields))
    else Checked([ObjectBase([])], map[])
  }

  /** A whole number within the safe range and between `lo` and `hi`, after conversion. */
  predicate WholeBetween(v: Json, lo: nat, hi: Option<nat>)
  {
    var w := ToNumber(v);
    w.JNum? && SafeNumber(w.n) && IsWhole(w.n) && w.n >= lo as real && (hi.Some? ==> w.n <= hi.value as real)
  }

  predicate OneOf(v: Json, valids: seq<string>)
  {
    v.JStr? && v.s in valids
  }

  /**
    The query passes exactly when `page` is absent or an integer of at least 1, `limit`
    absent or an integer from 1 to 100, `sortBy`, `sortOrder` and `status` absent or
    one of their listed values.
  */
  lemma PaginationAcceptsIff(q: map<string, Json>)
    ensures PaginationDetails(q) == [] <==>
      && ("page" in q ==> WholeBetween(q["page"], 1, None))
      && ("limit" in q ==> WholeBetween(q["limit"], 1, Some(100)))
      && ("sortBy" in q ==> OneOf(q["sortBy"], SortByValues))
      && ("sortOrder" in q ==> OneOf(q["sortOrder"], SortOrderValues))
      && ("status" in q ==> OneOf(q["status"], StatusValues))
  {
    if "page" in q {
      var w := ToNumber(q["page"]);
      if w.JNum? {
        RulesOfTwo(PageRules, w.n);
      }
    }
    if "limit" in q {
      var w := ToNumber(q["limit"]);
      if w.JNum? {
        RulesOfThree(LimitRules, w.n);
      }
    }
  }

  lemma RulesOfTwo(rules: seq<NumberRule>, x: real)
    requires |rules| == 2
    ensures (forall i :: 0 <= i < |rules| ==> NumberRuleHolds(rules[i], x)) <==>
      NumberRuleHolds(rules[0], x) && NumberRuleHolds(rules[1], x)
  {
  }

  lemma RulesOfThree(rules: seq<NumberRule>, x: real)
    requires |rules| == 3
    ensures (forall i :: 0 <= i < |rules| ==> NumberRuleHolds(rules[i], x)) <==>
      NumberRuleHolds(rules[0], x) && NumberRuleHolds(rules[1], x) && NumberRuleHolds(rules[2], x)
  {
  }

  /**
    What an accepted query becomes: `page` 1 and `limit` 10 unless given, `sortBy`
    `createdAt` and `sortOrder` `DESC` unless given, `status` only when given, and no
    other key.
  */
  lemma PaginationDefaults(q: map<string, Json>)
    ensures var v := PaginationValue(q);
      && v.Keys == {"page", "limit", "sortBy", "sortOrder"} + (if "status" in q then {"status"} else {})
      && v["page"] == (if "page" in q then ToNumber(q["page"]) else JNum(1.0))
      && v["limit"] == (if "limit" in q then ToNumber(q["limit"]) else JNum(10.0))
      && v["sortBy"] == (if "sortBy" in q then q["sortBy"] else JStr("createdAt"))
      && v["sortOrder"] == (if "sortOrder" in q then q["sortOrder"] else JStr("DESC"))
      && ("status" in q ==> v["status"] == q["status"])
  {
  }

  /**
    An accepted query gives the listing a whole page of at least 1 and a whole limit
    from 1 to 100, and a status that is one of the three document states.
  */
  lemma AcceptedPaginationIsUsable(q: map<string, Json>)
    requires PaginationDetails(q) == []
    ensures var v := PaginationValue(q);
      && v["page"].JNum? && IsWhole(v["page"].n) && v["page"].n >= 1.0
      && v["limit"].JNum? && IsWhole(v["limit"].n) && 1.0 <= v["limit"].n <= 100.0
      && ("status" in v ==> OneOf(v["status"], StatusValues))
  {
    PaginationAcceptsIff(q);
    PaginationDefaults(q);
  }

  // ----- validate and validateParams -----

  /** The parts of a request the middleware reads and replaces. */
  class Request {
    var query: map<string, Json>
    var body: Json
    var params: map<string, Json>

    constructor (query: map<string, Json>, body: Json, params: map<string, Json>)
      ensures this.query == query && this.body == body && this.params == params
    {
      this.query := query;
      this.body := body;
      this.params := params;
    }
  }

  /** `source`: `'query'` or anything else, which means the body. */
  datatype Source = Query | Body

  /** A 400 answer: `{ success: false, message, errors }`. */
  datatype Rejection = Rejection(status: int, message: string, errors: seq<Errors.FieldError>)

  datatype ParamsRejection = ParamsRejection(status: int, message: string, errors: seq<string>)

  const InvalidDataMessage := "Données invalides"
  const InvalidParamsMessage := "Paramètres invalides"

  /** `error.details.map(detail => ({ field: detail.path.join('.'), message: detail.message }))`. */
  function FieldErrorsOf(details: seq<Detail>): (r: seq<Errors.FieldError>)
    ensures |r| == |details|
    ensures forall i :: 0 <= i < |details| ==> r[i] == Errors.FieldError(Some(PathText(details[i].path)), details[i].message)
  {
    seq(|details|, i requires 0 <= i < |details| => Errors.FieldError(Some(PathText(details[i].path)), details[i].message))
  }

  /**
    `validate(schema, source)`: on failure, 400 with one entry per failing detail and
    the request left alone (`next` is not called); on success, `None` (`next()`) and
    the chosen part replaced by the validated value, the other parts untouched.
  */
  method Validate(req: Request, schema: Json -> Checked, source: Source) returns (rejection: Option<Rejection>)
    modifies req
    ensures req.params == old(req.params)
    ensures var c := schema(if source == Query then JObj(old(req.query)) else old(req.body));
      && (c.details != [] ==>
            && rejection == Some(Rejection(400, InvalidDataMessage, FieldErrorsOf(c.details)))
            && req.query == old(req.query) && req.body == old(req.body))
      && (c.details == [] ==>
            && rejection == None
            && (source == Query ==> req.query == c.value && req.body == old(req.body))
            && (source == Body ==> req.body == JObj(c.value) && req.query == old(req.query)))
  {
    var data := if source == Query then JObj(req.query) else req.body;
    var checked := schema(data);
    if checked.details != [] {
      return Some(Rejection(400, InvalidDataMessage, FieldErrorsOf(checked.details)));
    }
    if source == Query {
      req.query := checked.value;
    } else {
      req.body := JObj(checked.value);
    }
    rejection := None;
  }

  /**
    The `{ id: Joi.string().required() }` schema of the analysis routes, with Joi's
    default options: only the first failure is reported and nothing is stripped.
  */
  function IdParams(params: map<string, Json>): (c: Checked)
    ensures c.details == [] <==> "id" in params && params["id"].JStr? && params["id"].s != ""
    ensures |c.details| <= 1 && c.value == params
  {
    var details := KeyDetails(params, [], "id", Required, false, map[],
      (v: Json) => StringDetails([Key("id")], v, [], map[]));
    Checked(if details == [] then [] else [details[0]], params)
  }

  /**
    `validateParams(schema)`: on failure, 400 with the messages of the details; on
    success `req.params` is replaced by the validated value and `next()` is called.
  */
  method ValidateParams(req: Request, schema: map<string, Json> -> Checked) returns (rejection: Option<ParamsRejection>)
    modifies req
    ensures req.query == old(req.query) && req.body == old(req.body)
    ensures var c := schema(old(req.params));
      && (c.details != [] ==>
            rejection == Some(ParamsRejection(400, InvalidParamsMessage, seq(|c.details|, i requires 0 <= i < |c.details| => c.details[i].message)))
            && req.params == old(req.params))
      && (c.details == [] ==> rejection == None && req.params == c.value)
  {
    var checked := schema(req.params);
    if checked.details != [] {
      return Some(ParamsRejection(400, InvalidParamsMessage,
        seq(|checked.details|, i requires 0 <= i < |checked.details| => checked.details[i].message)));
    }
    req.params := checked.value;
    rejection := None;
  }
}
