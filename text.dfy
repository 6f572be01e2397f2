/**
  String helpers with the exact character classes of the two runtimes: JavaScript's `\s`
  and `String.prototype.trim`, and Python's `str.isspace` and `str.strip`.
  Strings are sequences of Unicode scalar values.
*/
module Text {
  import opened Common

  datatype Runtime = JavaScript | Python

  /** JavaScript `\s` (WhiteSpace and LineTerminator of ECMAScript). */
  predicate JsSpace(c: char)
  {
    || c == ' ' || c == '\t' || c == '\n' || c == '\U{B}' || c == '\U{C}' || c == '\r'
    || c == '\U{A0}' || c == '\U{1680}' || ('\U{2000}' <= c <= '\U{200A}')
    || c == '\U{2028}' || c == '\U{2029}' || c == '\U{202F}' || c == '\U{205F}'
    || c == '\U{3000}' || c == '\U{FEFF}'
  }

  /** Python `str.isspace` for one character. */
  predicate PySpace(c: char)
  {
    || c == ' ' || c == '\t' || c == '\n' || c == '\U{B}' || c == '\U{C}' || c == '\r'
    || ('\U{1C}' <= c <= '\U{1F}') || c == '\U{85}' || c == '\U{A0}' || c == '\U{1680}'
    || ('\U{2000}' <= c <= '\U{200A}') || c == '\U{2028}' || c == '\U{2029}'
    || c == '\U{202F}' || c == '\U{205F}' || c == '\U{3000}'
  }

  predicate IsSpace(k: Runtime, c: char)
  {
    if k == JavaScript then JsSpace(c) else PySpace(c)
  }

  predicate AllSpace(k: Runtime, s: string)
  {
    forall i :: 0 <= i < |s| ==> IsSpace(k, s[i])
  }

  /** Neither starts nor ends with a space of runtime `k`. */
  predicate Trimmed(k: Runtime, s: string)
  {
    s == [] || (!IsSpace(k, s[0]) && !IsSpace(k, s[|s| - 1]))
  }

  function TrimStart(k: Runtime, s: string): (r: string)
    ensures |r| <= |s| && r == s[|s| - |r|..]
    ensures AllSpace(k, s[..|s| - |r|])
    ensures r == [] || !IsSpace(k, r[0])
    decreases |s|
  {
    if s != [] && IsSpace(k, s[0]) then
      var r := TrimStart(k, s[1..]);
      assert s[..|s| - |r|] == [s[0]] + s[1..][..|s| - 1 - |r|];
      r
    else s
  }

  function TrimEnd(k: Runtime, s: string): (r: string)
    ensures |r| <= |s| && r == s[..|r|]
    ensures AllSpace(k, s[|r|..])
    ensures r == [] || !IsSpace(k, r[|r| - 1])
    decreases |s|
  {
    if s != [] && IsSpace(k, s[|s| - 1]) then
      var r := TrimEnd(k, s[..|s| - 1]);
      assert s[|r|..] == s[..|s| - 1][|r|..] + [s[|s| - 1]];
      r
    else s
  }

  /** JavaScript `s.trim()` and Python `s.strip()`. */
  function Trim(k: Runtime, s: string): string
  {
    TrimEnd(k, TrimStart(k, s))
  }

  lemma TrimEndKeepsStart(k: Runtime, s: string)
    requires s == [] || !IsSpace(k, s[0])
    ensures var r := TrimEnd(k, s); r == [] || !IsSpace(k, r[0])
  {
    var r := TrimEnd(k, s);
    if r != [] {
      assert r[0] == s[0];
    }
  }

  lemma TrimIsTrimmed(k: Runtime, s: string)
    ensures Trimmed(k, Trim(k, s))
  {
    TrimEndKeepsStart(k, TrimStart(k, s));
  }

  lemma {:induction false} TrimStartSpaces(k: Runtime, ws: string, b: string)
    requires AllSpace(k, ws)
    requires b == [] || !IsSpace(k, b[0])
    ensures TrimStart(k, ws + b) == b
    decreases |ws|
  {
    if ws != [] {
      assert (ws + b)[1..] == ws[1..] + b;
      TrimStartSpaces(k, ws[1..], b);
    } else {
      assert ws + b == b;
    }
  }

  lemma {:induction false} TrimEndSpaces(k: Runtime, b: string, ws: string)
    requires AllSpace(k, ws)
    requires b == [] || !IsSpace(k, b[|b| - 1])
    ensures TrimEnd(k, b + ws) == b
    decreases |ws|
  {
    if ws != [] {
      assert (b + ws)[..|b + ws| - 1] == b + ws[..|ws| - 1];
      TrimEndSpaces(k, b, ws[..|ws| - 1]);
    } else {
      assert b + ws == b;
    }
  }

  /** Trimming removes exactly the surrounding spaces of an already trimmed text. */
  lemma TrimSurrounded(k: Runtime, ws1: string, b: string, ws2: string)
    requires AllSpace(k, ws1) && AllSpace(k, ws2) && Trimmed(k, b)
    ensures Trim(k, ws1 + b + ws2) == b
  {
    if b == [] {
      assert ws1 + b + ws2 == ws1 + ws2;
      assert AllSpace(k, ws1 + ws2);
      TrimStartAllSpace(k, ws1 + ws2);
    } else {
      assert ws1 + b + ws2 == ws1 + (b + ws2);
      TrimStartSpaces(k, ws1, b + ws2);
      TrimEndSpaces(k, b, ws2);
    }
  }

  lemma {:induction false} TrimStartAllSpace(k: Runtime, s: string)
    requires AllSpace(k, s)
    ensures TrimStart(k, s) == []
    decreases |s|
  {
    if s != [] {
      TrimStartAllSpace(k, s[1..]);
    }
  }

  /** A text trims to nothing exactly when it is made of spaces only. */
  lemma TrimEmptyIffAllSpace(k: Runtime, s: string)
    ensures Trim(k, s) == [] <==> AllSpace(k, s)
  {
    if AllSpace(k, s) {
      TrimStartAllSpace(k, s);
    } else {
      var t := TrimStart(k, s);
      if t != [] {
        TrimEndKeepsStart(k, t);
      }
    }
  }

  /** Lower-casing of ASCII and Latin-1 capitals (`'A'..'Z'`, `'À'..'Þ'` except `'×'`). */
  function LowerChar(c: char): char
  {
    if 'A' <= c <= 'Z' || ('\U{C0}' <= c <= '\U{DE}' && c != '\U{D7}') then
      (c as int + 32) as char
    else
      c
  }

  /** `s.toLowerCase()`. */
  function Lower(s: string): (r: string)
    ensures |r| == |s|
    ensures forall i :: 0 <= i < |s| ==> r[i] == LowerChar(s[i])
  {
    seq(|s|, i requires 0 <= i < |s| => LowerChar(s[i]))
  }

  predicate OccursAt(s: string, t: string, i: int)
  {
    0 <= i <= |s| - |t| && s[i..i + |t|] == t
  }

  /** `s.includes(t)`: `t` occurs in `s` at some position. */
  predicate Contains(s: string, t: string)
  {
    exists i | 0 <= i <= |s| - |t| :: OccursAt(s, t, i)
  }

  predicate StartsWith(s: string, p: string)
  {
    p <= s
  }

  predicate EndsWith(s: string, p: string)
  {
    |p| <= |s| && s[|s| - |p|..] == p
  }

  /** JavaScript `s.substring(0, n)` and Python `s[:n]`. */
  function Take(s: string, n: nat): (r: string)
    ensures |r| == Min(n, |s|) && r <= s
  {
    s[..Min(n, |s|)]
  }

  function DigitChar(d: nat): char
    requires d < 10
  {
    "0123456789"[d]
  }

  /** Decimal rendering of a natural number, as `String(n)` and `str(n)` give it. */
  function NatToString(n: nat): (r: string)
    ensures |r| > 0
    ensures forall i :: 0 <= i < |r| ==> '0' <= r[i] <= '9'
    decreases n
  {
    if n < 10 then [DigitChar(n)] else NatToString(n / 10) + [DigitChar(n % 10)]
  }
}
