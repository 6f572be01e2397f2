/**
  The derived values and column defaults of the `Analysis` model
  (backend/db-service/models/Analysis.js).
*/
module AnalysisModel {
  import opened Common
  import opened Text
  import opened JsonValues
  import Errors

  // ----- getShortSummary -----

  /** The default `maxLength` of `getShortSummary`. */
  const DefaultShortLength: nat := 100

  /** `summary.length > maxLength ? summary.substring(0, maxLength) + '...' : summary`. */
  function ShortSummary(summary: string, maxLength: nat): (r: string)
    ensures |summary| <= maxLength ==> r == summary
    ensures |summary| > maxLength ==>
      |r| == maxLength + 3 && r[..maxLength] == summary[..maxLength] && r[maxLength..] == "..."
  {
    if |summary| > maxLength then summary[..maxLength] + "..." else summary
  }

  /** A short summary is never longer than `maxLength + 3` and always starts with a prefix of the summary. */
  lemma ShortSummaryBounds(summary: string, maxLength: nat)
    ensures |ShortSummary(summary, maxLength)| <= maxLength + 3
    ensures var r := ShortSummary(summary, maxLength);
      exists n :: 0 <= n <= |summary| && n <= |r| && r[..n] == summary[..n] && (n == |r| || r[n..] == "...")
  {
    var r := ShortSummary(summary, maxLength);
    if |summary| > maxLength {
      assert r[..maxLength] == summary[..maxLength] && r[maxLength..] == "...";
    } else {
      assert r[..|summary|] == summary[..|summary|];
    }
  }

  /** Shortening an already short summary changes nothing. */
  lemma ShortSummaryIdempotent(summary: string, maxLength: nat)
    ensures ShortSummary(ShortSummary(summary, maxLength), maxLength) == ShortSummary(summary, maxLength)
  {
    var r := ShortSummary(summary, maxLength);
    if |summary| > maxLength {
      assert r[..maxLength] + "..." == r;
    }
  }

  // ----- getWordCount -----

  /** The length of the longest prefix of `s` without JavaScript whitespace. */
  function WordLen(s: string): (n: nat)
    ensures n <= |s|
    ensures forall i :: 0 <= i < n ==> !JsSpace(s[i])
    ensures n < |s| ==> JsSpace(s[n])
    decreases |s|
  {
    if s == [] || JsSpace(s[0]) then 0 else 1 + WordLen(s[1..])
  }

  /**
    `s.split(/\s+/)`: the pieces between maximal runs of whitespace. A leading or a
    trailing run yields an empty piece at that end; the empty text yields `[""]`.
  */
  function Split(s: string): (pieces: seq<string>)
    ensures |pieces| >= 1
    decreases |s|
  {
    var n := WordLen(s);
    if n == |s| then [s] else [s[..n]] + Split(TrimStart(JavaScript, s[n..]))
  }

  /** `.filter(word => word.length > 0)`. */
  function NonEmpty(pieces: seq<string>): (r: seq<string>)
    ensures forall i :: 0 <= i < |r| ==> r[i] != []
  {
    if pieces == [] then []
    else (if pieces[0] == [] then [] else [pieces[0]]) + NonEmpty(pieces[1..])
  }

  /** `getWordCount()`. */
  function WordCount(summary: string): nat
  {
    |NonEmpty(Split(summary))|
  }

  /**
    Reference definition: the maximal runs of non-whitespace characters of `s`, from
    left to right.
  */
  function Words(s: string): seq<string>
    decreases |s|
  {
    if s == [] then []
    else if JsSpace(s[0]) then Words(s[1..])
    else var n := WordLen(s); [s[..n]] + Words(s[n..])
  }

  /** Whitespace in front of a text does not change its words. */
  lemma {:induction false} WordsSkipSpaces(ws: string, s: string)
    requires AllSpace(JavaScript, ws)
    ensures Words(ws + s) == Words(s)
    decreases |ws|
  {
    if ws != [] {
      assert (ws + s)[1..] == ws[1..] + s;
      assert JsSpace((ws + s)[0]);
      WordsSkipSpaces(ws[1..], s);
    } else {
      assert ws + s == s;
    }
  }

  lemma WordsAfterSpaces(s: string)
    ensures Words(TrimStart(JavaScript, s)) == Words(s)
  {
    var t := TrimStart(JavaScript, s);
    var sp := s[..|s| - |t|];
    assert s == sp + t;
    WordsSkipSpaces(sp, t);
  }

  /** Each word is a non-empty run of non-whitespace characters. */
  lemma {:induction false} WordsAreWords(s: string)
    ensures forall w :: w in Words(s) ==> w != [] && forall i :: 0 <= i < |w| ==> !JsSpace(w[i])
    decreases |s|
  {
    if s != [] {
      if JsSpace(s[0]) {
        WordsAreWords(s[1..]);
      } else {
        WordsAreWords(s[WordLen(s)..]);
      }
    }
  }

  lemma NonEmptyCons(x: string, rest: seq<string>)
    ensures NonEmpty([x] + rest) == (if x == [] then [] else [x]) + NonEmpty(rest)
  {
    assert ([x] + rest)[1..] == rest;
  }

  /** Splitting and dropping the empty pieces yields exactly the words. */
  lemma {:induction false} SplitFilterIsWords(s: string)
    ensures NonEmpty(Split(s)) == Words(s)
    decreases |s|
  {
    var n := WordLen(s);
    if n == |s| {
      assert Split(s) == [s] == [s] + [];
      NonEmptyCons(s, []);
      if s != [] {
        assert s[..n] == s && s[n..] == [];
      }
    } else {
      var rest := TrimStart(JavaScript, s[n..]);
      assert Split(s) == [s[..n]] + Split(rest);
      NonEmptyCons(s[..n], Split(rest));
      SplitFilterIsWords(rest);
      WordsAfterSpaces(s[n..]);
      if n == 0 {
        assert s[n..] == s;
      }
    }
  }

  /** The word count is the number of maximal non-whitespace runs. */
  lemma WordCountCountsWords(summary: string)
    ensures WordCount(summary) == |Words(summary)|
  {
    SplitFilterIsWords(summary);
  }

  lemma {:induction false} NoWordsIffBlank(s: string)
    ensures Words(s) == [] <==> AllSpace(JavaScript, s)
    decreases |s|
  {
    if s != [] && JsSpace(s[0]) {
      NoWordsIffBlank(s[1..]);
      assert AllSpace(JavaScript, s) <==> AllSpace(JavaScript, s[1..]) by {
        if AllSpace(JavaScript, s[1..]) {
          forall i | 0 <= i < |s| ensures JsSpace(s[i]) {
            if i > 0 { assert s[i] == s[1..][i - 1]; }
          }
        }
      }
    }
  }

  /** The count is zero exactly for an empty or whitespace-only summary. */
  lemma WordCountZeroIffBlank(summary: string)
    ensures WordCount(summary) == 0 <==> AllSpace(JavaScript, summary)
  {
    WordCountCountsWords(summary);
    NoWordsIffBlank(summary);
  }

  /** A word that starts right before a whitespace run ends there. */
  lemma {:induction false} WordLenBeforeSpace(t: string, rest: string)
    requires rest != [] && JsSpace(rest[0])
    ensures WordLen(t + rest) == WordLen(t)
    decreases |t|
  {
    if t != [] {
      assert (t + rest)[1..] == t[1..] + rest;
      WordLenBeforeSpace(t[1..], rest);
    } else {
      assert t + rest == rest;
    }
  }

  lemma DropFromConcat(x: string, y: string, n: nat)
    requires n <= |x|
    ensures (x + y)[..n] == x[..n] && (x + y)[n..] == x[n..] + y
  {
  }

  /** Whitespace after a text separates its words from whatever follows. */
  lemma {:induction false} WordsSplitAtSpace(a: string, r: string)
    requires r != [] && JsSpace(r[0])
    ensures Words(a + r) == Words(a) + Words(r)
    decreases |a|
  {
    if a == [] {
      assert a + r == r;
    } else if JsSpace(a[0]) {
      DropFromConcat(a, r, 1);
      WordsSplitAtSpace(a[1..], r);
    } else {
      var n := WordLen(a);
      WordLenBeforeSpace(a, r);
      DropFromConcat(a, r, n);
      WordsSplitAtSpace(a[n..], r);
    }
  }

  /** Leading whitespace does not change the word count. */
  lemma WordCountIgnoresLeadingSpace(ws: string, s: string)
    requires AllSpace(JavaScript, ws)
    ensures WordCount(ws + s) == WordCount(s)
  {
    WordCountCountsWords(ws + s);
    WordCountCountsWords(s);
    WordsSkipSpaces(ws, s);
  }

  /** Trailing whitespace does not change the word count. */
  lemma WordCountIgnoresTrailingSpace(s: string, ws: string)
    requires AllSpace(JavaScript, ws)
    ensures WordCount(s + ws) == WordCount(s)
  {
    WordCountCountsWords(s + ws);
    WordCountCountsWords(s);
    if ws != [] {
      WordsSplitAtSpace(s, ws);
      WordsSkipSpaces(ws, []);
      assert ws + [] == ws;
    } else {
      assert s + ws == s;
    }
  }

  /** Any non-empty whitespace run counts like a single space. */
  lemma WordCountIgnoresRepeatedSpace(a: string, ws: string, b: string)
    requires ws != [] && AllSpace(JavaScript, ws)
    ensures WordCount(a + ws + b) == WordCount(a + " " + b)
  {
    WordCountCountsWords(a + ws + b);
    WordCountCountsWords(a + " " + b);
    assert a + ws + b == a + (ws + b);
    assert a + " " + b == a + (" " + b);
    WordsSplitAtSpace(a, ws + b);
    WordsSplitAtSpace(a, " " + b);
    WordsSkipSpaces(ws, b);
    WordsSkipSpaces(" ", b);
  }

  // ----- Column defaults -----

  /** The attributes that have a `defaultValue`, with that value. */
  const ColumnDefaults: map<string, Json> := map[
    "documentName" := JStr("Document sans nom"),
    "keyPoints" := JArr([]),
    "actionItems" := JArr([]),
    "confidence" := JNum(0.0),
    "processingTime" := JNum(0.0)]

  /** The error Sequelize raises for the `allowNull: false` summary column. */
  const SummaryNullError: Errors.ThrownError := Errors.ThrownError(
    Errors.ValidationErrorName,
    "notNull Violation: Analysis.summary cannot be null",
    None,
    false,
    [Errors.ErrorItem(Some("summary"), "Analysis.summary cannot be null")],
    "SequelizeValidationError: notNull Violation: Analysis.summary cannot be null")

  /**
    The row `Analysis.create(fields)` stores: every attribute given keeps its value (an
    explicit `null` included), every absent attribute with a default gets it, and a
    missing or null `summary` is refused with a validation error.
  */
  function WithColumnDefaults(fields: map<string, Json>): (r: Result<map<string, Json>, Errors.ThrownError>)
    ensures r.Ok? <==> "summary" in fields && fields["summary"] != JNull
    ensures r.Err? ==> r.error == SummaryNullError
    ensures r.Ok? ==> r.value.Keys == fields.Keys + ColumnDefaults.Keys
    ensures r.Ok? ==> forall k :: k in fields ==> r.value[k] == fields[k]
    ensures r.Ok? ==> forall k :: k in ColumnDefaults && k !in fields ==> r.value[k] == ColumnDefaults[k]
  {
    if "summary" !in fields || fields["summary"] == JNull then Err(SummaryNullError)
    else Ok(ColumnDefaults + fields)
  }

  /** Filling in defaults a second time changes nothing. */
  lemma ColumnDefaultsIdempotent(fields: map<string, Json>)
    requires WithColumnDefaults(fields).Ok?
    ensures WithColumnDefaults(WithColumnDefaults(fields).value) == WithColumnDefaults(fields)
  {
    var once := WithColumnDefaults(fields).value;
    assert "summary" in once && once["summary"] == fields["summary"];
    var twice := WithColumnDefaults(once).value;
    assert twice == once;
  }

  /** A stored row always has a non-null summary and every defaulted column. */
  lemma StoredRowIsComplete(fields: map<string, Json>)
    requires WithColumnDefaults(fields).Ok?
    ensures var row := WithColumnDefaults(fields).value;
      "summary" in row && row["summary"] != JNull
      && "documentName" in row && "keyPoints" in row && "actionItems" in row
      && "confidence" in row && "processingTime" in row
  {
  }
}
