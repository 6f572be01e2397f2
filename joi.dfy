/**
  The part of Joi (version 17) that the request schemas of the storage service use:
  presence, `null` permission, the base type check of strings, numbers, arrays and
  objects, the `valid(...)` lists and the length, size and range rules, each failure
  reported as one detail with its path and its message. A key's checks run in Joi's
  order: its `valid(...)` list first, then its base type, then its rules. Every check
  is made and all failures are kept (`abortEarly: false`), except that a failed base
  type check stops the rules of that key. Custom messages given with `.messages()`
  replace the default text of their error code.
*/
module Joi {
  import opened Common
  import opened JsonValues
  import opened Text

  /** One step of the path of a detail: an object key or an array index. */
  datatype Segment = Key(name: string) | Index(i: nat)

  /** One entry of `error.details`. */
  datatype Detail = Detail(path: seq<Segment>, code: string, message: string)

  function SegmentText(s: Segment): string
  {
    match s
    case Key(k) => k
    case Index(i) => NatToString(i)
  }

  /** `detail.path.join('.')`. */
  function PathText(p: seq<Segment>): string
  {
    if p == [] then ""
    else if |p| == 1 then SegmentText(p[0])
    else PathText(p[..|p| - 1]) + "." + SegmentText(p[|p| - 1])
  }

  /** The label Joi puts in its default messages: keys joined by `.`, indices as `[i]`. */
  function LabelText(p: seq<Segment>): string
  {
    if p == [] then ""
    else
      var init := LabelText(p[..|p| - 1]);
      match p[|p| - 1]
      case Key(k) => if init == "" then k else init + "." + k
      case Index(i) => init + "[" + NatToString(i) + "]"
  }

  function Label(p: seq<Segment>): string
  {
    "\"" + (if p == [] then "value" else LabelText(p)) + "\""
  }

  /** Custom messages by error code. */
  type Messages = map<string, string>

  /** A failure with error code `code`; `text` is Joi's default message. */
  function Fail(path: seq<Segment>, msgs: Messages, code: string, text: string): (d: Detail)
    ensures d.path == path && d.code == code
    ensures d.message == if code in msgs then msgs[code] else text
  {
    Detail(path, code, if code in msgs then msgs[code] else text)
  }

  function Join(items: seq<string>, sep: string): string
  {
    if items == [] then "" else if |items| == 1 then items[0] else items[0] + sep + Join(items[1..], sep)
  }

  // ----- Strings -----

  datatype StringRule = MinLength(min: nat) | MaxLength(max: nat)

  predicate StringRuleHolds(r: StringRule, s: string)
  {
    match r
    case MinLength(n) => |s| >= n
    case MaxLength(n) => |s| <= n
  }

  function StringRuleDetail(path: seq<Segment>, msgs: Messages, r: StringRule): Detail
  {
    match r
    case MinLength(n) =>
      Fail(path, msgs, "string.min", Label(path) + " length must be at least " + NatToString(n) + " characters long")
    case MaxLength(n) =>
      Fail(path, msgs, "string.max", Label(path) + " length must be less than or equal to " + NatToString(n) + " characters long")
  }

  /** The failures of the rules, in the order the rules are declared. */
  function StringRuleDetails(path: seq<Segment>, s: string, rules: seq<StringRule>, msgs: Messages): (d: seq<Detail>)
    ensures d == [] <==> forall i :: 0 <= i < |rules| ==> StringRuleHolds(rules[i], s)
    ensures |d| <= |rules|
    ensures forall i :: 0 <= i < |d| ==> d[i].path == path
  {
    if rules == [] then []
    else
      (if StringRuleHolds(rules[0], s) then [] else [StringRuleDetail(path, msgs, rules[0])])
      + StringRuleDetails(path, s, rules[1..], msgs)
  }

  /** `Joi.string()` with rules: a string, not empty, meeting every rule. */
  function StringDetails(path: seq<Segment>, v: Json, rules: seq<StringRule>, msgs: Messages): (d: seq<Detail>)
    ensures d == [] <==> v.JStr? && v.s != "" && forall i :: 0 <= i < |rules| ==> StringRuleHolds(rules[i], v.s)
    ensures !v.JStr? ==> d == [Fail(path, msgs, "string.base", Label(path) + " must be a string")]
    ensures v == JStr("") ==> d == [Fail(path, msgs, "string.empty", Label(path) + " is not allowed to be empty")]
    ensures forall i :: 0 <= i < |d| ==> d[i].path == path
  {
    if !v.JStr? then [Fail(path, msgs, "string.base", Label(path) + " must be a string")]
    else if v.s == "" then [Fail(path, msgs, "string.empty", Label(path) + " is not allowed to be empty")]
    else StringRuleDetails(path, v.s, rules, msgs)
  }

  /**
    `Joi.string().valid(...)`: exactly one of the listed strings. The list is checked
    before the base type, so a value outside it fails `any.only` and then, if it is not
    a non-empty string, also the base check of `Joi.string()`.
  */
  function OnlyDetails(path: seq<Segment>, v: Json, valids: seq<string>, msgs: Messages): (d: seq<Detail>)
    ensures d == [] <==> v.JStr? && v.s in valids
    ensures d != [] ==> d[0].code == "any.only"
    ensures d != [] && v.JStr? && v.s != "" ==> |d| == 1
    ensures d != [] && !v.JStr? ==> |d| == 2 && d[1].code == "string.base"
    ensures d != [] && v == JStr("") ==> |d| == 2 && d[1].code == "string.empty"
    ensures forall i :: 0 <= i < |d| ==> d[i].path == path
  {
    if v.JStr? && v.s in valids then []
    else
      var listed := "[" + Join(valids, ", ") + "]";
      [Fail(path, msgs, "any.only",
        Label(path) + " must be " + (if |valids| == 1 then "" else "one of ") + listed)]
      + StringDetails(path, v, [], msgs)
  }

  // ----- Numbers -----

  predicate IsDigits(s: string)
  {
    s != [] && forall i :: 0 <= i < |s| ==> '0' <= s[i] <= '9'
  }

  /** The value of a string of decimal digits. */
  function DigitsValue(s: string): nat
    requires forall i :: 0 <= i < |s| ==> '0' <= s[i] <= '9'
  {
    if s == [] then 0 else DigitsValue(s[..|s| - 1]) * 10 + (s[|s| - 1] as int - '0' as int)
  }

  lemma DigitCharValue(d: nat)
    requires d < 10
    ensures DigitChar(d) as int - '0' as int == d
  {
    assert "0123456789"[d] as int == '0' as int + d by {
      if d == 0 { } else if d == 1 { } else if d == 2 { } else if d == 3 { } else if d == 4 { }
      else if d == 5 { } else if d == 6 { } else if d == 7 { } else if d == 8 { } else { }
    }
  }

  /** Reading back a rendered number gives the number: `Number(String(n)) == n`. */
  lemma {:induction false} DigitsValueOfNatToString(n: nat)
    ensures DigitsValue(NatToString(n)) == n
    decreases n
  {
    DigitCharValue(n % 10);
    if n >= 10 {
      var s := NatToString(n);
      assert s[..|s| - 1] == NatToString(n / 10);
      DigitsValueOfNatToString(n / 10);
    }
  }

  /**
    Joi's conversion of a string to a number (on by default): an optional sign
    followed by decimal digits becomes that number; any other value is left as it is.
  */
  function ToNumber(v: Json): (r: Json)
    ensures v.JNum? ==> r == v
    ensures !v.JStr? ==> r == v
    ensures v.JStr? && IsDigits(v.s) ==> r == JNum(DigitsValue(v.s) as real)
  {
    if v.JStr? && IsDigits(v.s) then JNum(DigitsValue(v.s) as real)
    else if v.JStr? && |v.s| >= 2 && v.s[0] == '-' && IsDigits(v.s[1..]) then JNum(-(DigitsValue(v.s[1..]) as real))
    else if v.JStr? && |v.s| >= 2 && v.s[0] == '+' && IsDigits(v.s[1..]) then JNum(DigitsValue(v.s[1..]) as real)
    else v
  }

  const MaxSafeInteger: real := 9007199254740991.0

  datatype NumberRule = Integer | MinValue(min: nat) | MaxValue(max: nat) | Positive

  predicate NumberRuleHolds(r: NumberRule, x: real)
  {
    match r
    case Integer => IsWhole(x)
    case MinValue(n) => x >= n as real
    case MaxValue(n) => x <= n as real
    case Positive => x > 0.0
  }

  function NumberRuleDetail(path: seq<Segment>, msgs: Messages, r: NumberRule): Detail
  {
    match r
    case Integer => Fail(path, msgs, "number.integer", Label(path) + " must be an integer")
    case MinValue(n) => Fail(path, msgs, "number.min", Label(path) + " must be greater than or equal to " + NatToString(n))
    case MaxValue(n) => Fail(path, msgs, "number.max", Label(path) + " must be less than or equal to " + NatToString(n))
    case Positive => Fail(path, msgs, "number.positive", Label(path) + " must be a positive number")
  }

  function NumberRuleDetails(path: seq<Segment>, x: real, rules: seq<NumberRule>, msgs: Messages): (d: seq<Detail>)
    ensures d == [] <==> forall i :: 0 <= i < |rules| ==> NumberRuleHolds(rules[i], x)
    ensures forall i :: 0 <= i < |d| ==> d[i].path == path
  {
    if rules == [] then []
    else
      (if NumberRuleHolds(rules[0], x) then [] else [NumberRuleDetail(path, msgs, rules[0])])
      + NumberRuleDetails(path, x, rules[1..], msgs)
  }

  predicate SafeNumber(x: real)
  {
    -MaxSafeInteger <= x <= MaxSafeInteger
  }

  /** `Joi.number()` with rules, after the conversion of a numeric string. */
  function NumberDetails(path: seq<Segment>, v: Json, rules: seq<NumberRule>, msgs: Messages): (d: seq<Detail>)
    ensures d == [] <==>
      ToNumber(v).JNum? && SafeNumber(ToNumber(v).n)
      && forall i :: 0 <= i < |rules| ==> NumberRuleHolds(rules[i], ToNumber(v).n)
    ensures !ToNumber(v).JNum? ==> d == [Fail(path, msgs, "number.base", Label(path) + " must be a number")]
    ensures forall i :: 0 <= i < |d| ==> d[i].path == path
  {
    var w := ToNumber(v);
    if !w.JNum? then [Fail(path, msgs, "number.base", Label(path) + " must be a number")]
    else if !SafeNumber(w.n) then [Fail(path, msgs, "number.unsafe", Label(path) + " must be a safe number")]
    else NumberRuleDetails(path, w.n, rules, msgs)
  }

  // ----- Arrays -----

  datatype ArrayRule = MinItems(min: nat) | MaxItems(max: nat)

  predicate ArrayRuleHolds(r: ArrayRule, n: nat)
  {
    match r
    case MinItems(m) => n >= m
    case MaxItems(m) => n <= m
  }

  function ArrayRuleDetails(path: seq<Segment>, n: nat, rules: seq<ArrayRule>, msgs: Messages): (d: seq<Detail>)
    ensures d == [] <==> forall i :: 0 <= i < |rules| ==> ArrayRuleHolds(rules[i], n)
    ensures forall i :: 0 <= i < |d| ==> d[i].path == path
  {
    if rules == [] then []
    else
      var here := match rules[0]
        case MinItems(m) => Fail(path, msgs, "array.min", Label(path) + " must contain at least " + NatToString(m) + " items")
        case MaxItems(m) => Fail(path, msgs, "array.max", Label(path) + " must contain less than or equal to " + NatToString(m) + " items");
      (if ArrayRuleHolds(rules[0], n) then [] else [here]) + ArrayRuleDetails(path, n, rules[1..], msgs)
  }

  /** The `items(...)` rule: each element checked at its own index, in order. */
  function ItemDetails(path: seq<Segment>, items: seq<Json>, from: nat, check: (seq<Segment>, Json) -> seq<Detail>)
    : (d: seq<Detail>)
    ensures d == [] <==> forall i :: 0 <= i < |items| ==> check(path + [Index(from + i)], items[i]) == []
  {
    if items == [] then []
    else
      var rest := ItemDetails(path, items[1..], from + 1, check);
      assert forall i :: 1 <= i < |items| ==> items[i] == items[1..][i - 1] && from + i == (from + 1) + (i - 1);
      check(path + [Index(from)], items[0]) + rest
  }

  /**
    `Joi.array().items(item)...` with size rules: an array whose every element passes
    `check` and whose size meets every rule; the element failures come first.
  */
  function ArrayDetails(path: seq<Segment>, v: Json, check: (seq<Segment>, Json) -> seq<Detail>, rules: seq<ArrayRule>, msgs: Messages)
    : (d: seq<Detail>)
    ensures d == [] <==>
      v.JArr?
      && (forall i :: 0 <= i < |v.items| ==> check(path + [Index(i)], v.items[i]) == [])
      && (forall i :: 0 <= i < |rules| ==> ArrayRuleHolds(rules[i], |v.items|))
    ensures !v.JArr? ==> d == [Fail(path, msgs, "array.base", Label(path) + " must be an array")]
  {
    if !v.JArr? then [Fail(path, msgs, "array.base", Label(path) + " must be an array")]
    else
      var items := ItemDetails(path, v.items, 0, check);
      items + ArrayRuleDetails(path, |v.items|, rules, msgs)
  }

  // ----- Keys of an object -----

  /** `required()` or not; a key that is not required may carry a default. */
  datatype Presence = Required | Optional

  /**
    The checks of one key of an object schema: a missing required key fails with
    `any.required`, a missing optional key passes, an allowed `null` passes without
    further checks, and any other value goes to `check`.
  */
  function KeyDetails(
    fields: map<string, Json>, parent: seq<Segment>, key: string, presence: Presence, allowNull: bool,
    msgs: Messages, check: Json -> seq<Detail>): (d: seq<Detail>)
    ensures key !in fields ==>
      d == (if presence == Required then [Fail(parent + [Key(key)], msgs, "any.required", Label(parent + [Key(key)]) + " is required")] else [])
    ensures key in fields ==> d == if allowNull && fields[key] == JNull then [] else check(fields[key])
  {
    var path := parent + [Key(key)];
    if key !in fields then
      (if presence == Required then [Fail(path, msgs, "any.required", Label(path) + " is required")] else [])
    else if allowNull && fields[key] == JNull then []
    else check(fields[key])
  }

  /** The validated value of a key: the given value, or the default when the key is missing. */
  function WithDefault(fields: map<string, Json>, key: string, default: Json): (v: Json)
    ensures key in fields ==> v == fields[key]
    ensures key !in fields ==> v == default
  {
    if key in fields then fields[key] else default
  }

  /** `Joi.object(...)` on a value that is not an object. */
  function ObjectBase(path: seq<Segment>): Detail
  {
    Fail(path, map[], "object.base", Label(path) + " must be of type object")
  }
}
