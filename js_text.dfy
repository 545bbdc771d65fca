/**
 * The JavaScript string built-ins the components rely on:
 * `String.prototype.trim`, `parseInt(s, 10)` and the decimal rendering of an
 * integer in a template literal (`${n}`).  Strings are sequences of code points.
 */
module JsText {
  import opened Wrappers

  /** JavaScript truthiness of an optional string: neither null/undefined nor the empty string. */
  predicate IsTruthy(s: Option<string>) {
    s.Some? && s.value != ""
  }

  /** ECMAScript WhiteSpace and LineTerminator code points: what `trim` and `parseInt` skip. */
  predicate IsWhiteSpace(c: char) {
    c == '\t' || c == '\n' || c == '\U{000B}' || c == '\U{000C}' || c == '\r' || c == ' '
    || c == '\U{00A0}' || c == '\U{1680}' || ('\U{2000}' <= c <= '\U{200A}')
    || c == '\U{2028}' || c == '\U{2029}' || c == '\U{202F}' || c == '\U{205F}'
    || c == '\U{3000}' || c == '\U{FEFF}'
  }

  predicate IsBlank(s: string) {
    forall k :: 0 <= k < |s| ==> IsWhiteSpace(s[k])
  }

  /** Drops leading white space: the result is a suffix of `s` and everything dropped is white space. */
  function TrimStart(s: string): (r: string)
    ensures |r| <= |s| && r == s[|s| - |r|..]
    ensures forall k :: 0 <= k < |s| - |r| ==> IsWhiteSpace(s[k])
    ensures r != [] ==> !IsWhiteSpace(r[0])
  {
    if s != [] && IsWhiteSpace(s[0]) then TrimStart(s[1..]) else s
  }

  /** Drops trailing white space: the result is a prefix of `s` and everything dropped is white space. */
  function TrimEnd(s: string): (r: string)
    ensures |r| <= |s| && r == s[..|r|]
    ensures forall k :: |r| <= k < |s| ==> IsWhiteSpace(s[k])
    ensures r != [] ==> !IsWhiteSpace(r[|r| - 1])
  {
    if s != [] && IsWhiteSpace(s[|s| - 1]) then TrimEnd(s[..|s| - 1]) else s
  }

  /**
   * `s.trim()`: a slice of `s` with only white space cut off either side; empty exactly
   * when `s` is all white space, otherwise starting and ending with a non-blank.
   */
  function Trim(s: string): (r: string)
    ensures |r| <= |s|
    ensures exists i :: TrimsTo(s, i, r)
    ensures r == [] <==> IsBlank(s)
    ensures r != [] ==> !IsWhiteSpace(r[0]) && !IsWhiteSpace(r[|r| - 1])
  {
    var t := TrimStart(s);
    var r := TrimEnd(t);
    TrimSlices(s, t, r);
    r
  }

  /** `r` is `s` with the blank text `s[..i]` cut off in front and a blank tail cut off behind. */
  predicate TrimsTo(s: string, i: int, r: string) {
    0 <= i && i + |r| <= |s| && r == s[i..i + |r|] && IsBlank(s[..i]) && IsBlank(s[i + |r|..])
  }

  /** Cutting the leading, then the trailing white space gives a slice with non-blank ends. */
  lemma TrimSlices(s: string, t: string, r: string)
    requires |t| <= |s| && t == s[|s| - |t|..]
    requires forall k :: 0 <= k < |s| - |t| ==> IsWhiteSpace(s[k])
    requires t != [] ==> !IsWhiteSpace(t[0])
    requires |r| <= |t| && r == t[..|r|]
    requires forall k :: |r| <= k < |t| ==> IsWhiteSpace(t[k])
    requires r != [] ==> !IsWhiteSpace(r[|r| - 1])
    ensures TrimsTo(s, |s| - |t|, r)
    ensures r == [] <==> IsBlank(s)
    ensures r != [] ==> !IsWhiteSpace(r[0]) && !IsWhiteSpace(r[|r| - 1])
  {
    var i := |s| - |t|;
    assert s[i..i + |r|] == t[..|r|];
    if r != [] {
      assert r[0] == t[0] == s[i];
    }
  }

  lemma {:induction false} TrimStartIdentity(s: string)
    requires s == [] || !IsWhiteSpace(s[0])
    ensures TrimStart(s) == s
  {
  }

  lemma {:induction false} TrimEndIdentity(s: string)
    requires s == [] || !IsWhiteSpace(s[|s| - 1])
    ensures TrimEnd(s) == s
  {
  }

  /** Trimming twice is trimming once. */
  lemma {:induction false} TrimIdempotent(s: string)
    ensures Trim(Trim(s)) == Trim(s)
  {
    var r := Trim(s);
    TrimStartIdentity(r);
    assert TrimStart(r) == r;
    TrimEndIdentity(r);
  }

  /** TrimStart skips any blank prefix in front of a non-blank character. */
  lemma {:induction false} TrimStartSkips(ws: string, t: string)
    requires IsBlank(ws)
    requires t == [] || !IsWhiteSpace(t[0])
    ensures TrimStart(ws + t) == t
  {
    if ws == [] {
      assert ws + t == t;
    } else {
      assert (ws + t)[1..] == ws[1..] + t;
      TrimStartSkips(ws[1..], t);
    }
  }

  predicate IsDigit(c: char) {
    '0' <= c <= '9'
  }

  predicate AllDigits(s: string) {
    forall k :: 0 <= k < |s| ==> IsDigit(s[k])
  }

  function DigitValue(c: char): (d: nat)
    requires IsDigit(c)
    ensures d < 10
  {
    (c as int) - ('0' as int)
  }

  function DigitChar(d: nat): (c: char)
    requires d < 10
    ensures IsDigit(c) && DigitValue(c) == d
  {
    ((('0' as int) + d) as char)
  }

  /** Length of the run of decimal digits at the front of `s`. */
  function DigitRun(s: string): (n: nat)
    ensures n <= |s| && AllDigits(s[..n])
    ensures n < |s| ==> !IsDigit(s[n])
  {
    if s != [] && IsDigit(s[0]) then
      var m := DigitRun(s[1..]);
      assert s[..1 + m] == [s[0]] + s[1..][..m];
      1 + m
    else 0
  }

  /** The number a string of decimal digits denotes (most significant digit first). */
  function DigitsValue(ds: string): nat
    requires AllDigits(ds)
  {
    if ds == [] then 0 else DigitsValue(ds[..|ds| - 1]) * 10 + DigitValue(ds[|ds| - 1])
  }

  /** Result of `parseInt`: `NaN`, or an integer Number. */
  datatype ParsedNumber = NaN | Num(value: int)

  /** The text after an optional leading `+` or `-`. */
  function StripSign(t: string): (u: string)
    ensures |u| <= |t| && u == t[|t| - |u|..]
  {
    if t != [] && (t[0] == '-' || t[0] == '+') then t[1..] else t
  }

  /** The leading digit run of `u` as a Number, negated when a `-` preceded it; NaN when there is none. */
  function DigitsPrefixValue(negative: bool, u: string): (r: ParsedNumber)
    ensures r.NaN? <==> u == [] || !IsDigit(u[0])
  {
    var n := DigitRun(u);
    if n == 0 then NaN
    else
      var magnitude: int := DigitsValue(u[..n]);
      Num(if negative then -magnitude else magnitude)
  }

  /**
   * `parseInt(s, 10)`: skip leading white space, take an optional sign, then the
   * longest run of decimal digits; no digits gives NaN, anything after the run is ignored.
   */
  function ParseInt(s: string): (r: ParsedNumber)
  {
    var t := TrimStart(s);
    DigitsPrefixValue(t != [] && t[0] == '-', StripSign(t))
  }

  /** `parseInt` gives NaN exactly when no digit follows the leading white space and the optional sign. */
  lemma ParseIntNaN(s: string)
    ensures ParseInt(s).NaN? <==> DigitRun(StripSign(TrimStart(s))) == 0
  {
  }

  /** Blanks and an optional sign followed by something that is not a digit parse as NaN. */
  lemma {:induction false} ParseIntNoDigits(ws: string, sign: string, rest: string)
    requires IsBlank(ws)
    requires sign == "" || sign == "+" || sign == "-"
    requires rest == [] || !IsDigit(rest[0])
    requires sign == "" && rest != [] ==> !IsWhiteSpace(rest[0]) && rest[0] != '+' && rest[0] != '-'
    ensures ParseInt(ws + sign + rest) == NaN
  {
    var t := sign + rest;
    assert ws + sign + rest == ws + t;
    SignBeforeNonDigit(sign, rest);
    TrimStartSkips(ws, t);
    ParseIntNaN(ws + t);
  }

  lemma SignBeforeNonDigit(sign: string, rest: string)
    requires sign == "" || sign == "+" || sign == "-"
    requires sign == "" && rest != [] ==> !IsWhiteSpace(rest[0]) && rest[0] != '+' && rest[0] != '-'
    ensures var t := sign + rest; (t == [] || !IsWhiteSpace(t[0])) && StripSign(t) == rest
  {
    var t := sign + rest;
    if sign == "" {
      assert t == rest;
    } else {
      assert t[0] == sign[0] && t[1..] == rest;
    }
  }

  /** Only the leading integer prefix counts: blanks, a sign, digits, then anything not starting with a digit. */
  lemma {:induction false} ParseIntPrefix(ws: string, sign: string, ds: string, rest: string)
    requires IsBlank(ws)
    requires sign == "" || sign == "+" || sign == "-"
    requires ds != [] && AllDigits(ds)
    requires rest == [] || !IsDigit(rest[0])
    ensures ParseInt(ws + sign + ds + rest) == Num(if sign == "-" then 0 - DigitsValue(ds) else DigitsValue(ds))
  {
    var u := ds + rest;
    var t := sign + u;
    assert ws + sign + ds + rest == ws + t;
    StripSignOf(sign, u);
    TrimStartSkips(ws, t);
    DigitsPrefixValueOf(sign == "-", ds, rest);
  }

  lemma DigitsPrefixValueOf(negative: bool, ds: string, rest: string)
    requires ds != [] && AllDigits(ds)
    requires rest == [] || !IsDigit(rest[0])
    ensures DigitsPrefixValue(negative, ds + rest) == Num(if negative then 0 - DigitsValue(ds) else DigitsValue(ds))
  {
    DigitRunOf(ds, rest);
    assert (ds + rest)[..|ds|] == ds;
  }

  lemma StripSignOf(sign: string, u: string)
    requires sign == "" || sign == "+" || sign == "-"
    requires u != [] && u[0] != '-' && u[0] != '+' && !IsWhiteSpace(u[0])
    ensures var t := sign + u; t != [] && !IsWhiteSpace(t[0]) && ((t[0] == '-') <==> sign == "-") && StripSign(t) == u
  {
    var t := sign + u;
    if sign == "" {
      assert t == u;
    } else {
      assert t[0] == sign[0];
      assert t[1..] == u;
    }
  }

  lemma {:induction false} DigitRunOf(ds: string, rest: string)
    requires AllDigits(ds)
    requires rest == [] || !IsDigit(rest[0])
    ensures DigitRun(ds + rest) == |ds|
  {
    if ds != [] {
      assert (ds + rest)[1..] == ds[1..] + rest;
      DigitRunOf(ds[1..], rest);
    } else {
      assert ds + rest == rest;
    }
  }

  /** Decimal rendering of a natural number, without leading zeros. */
  function NatToString(n: nat): (s: string)
    ensures s != [] && AllDigits(s) && DigitsValue(s) == n
    ensures |s| > 1 ==> s[0] != '0'
  {
    if n < 10 then [DigitChar(n)]
    else
      var p := NatToString(n / 10);
      var s := p + [DigitChar(n % 10)];
      assert s[..|s| - 1] == p;
      s
  }

  /** `${i}` in plain decimal, as JavaScript writes integers below 10^21: a minus sign for negatives, then the digits of |i|. */
  function IntToString(i: int): (s: string)
    ensures s != []
    ensures s[0] == '-' <==> i < 0
    ensures i >= 0 ==> AllDigits(s)
    ensures i < 0 ==> AllDigits(s[1..])
  {
    if i < 0 then "-" + NatToString(-i) else NatToString(i)
  }

  /** `parseInt` reads back what `${i}` writes. */
  lemma {:induction false} ParseIntRoundTrip(i: int)
    ensures ParseInt(IntToString(i)) == Num(i)
  {
    ParseIntOfRendered(i, []);
    assert IntToString(i) + [] == IntToString(i);
  }

  /** `parseInt` reads a rendered integer back from the front of a text when no digit follows it. */
  lemma {:induction false} ParseIntOfRendered(i: int, post: string)
    requires post == [] || !IsDigit(post[0])
    ensures ParseInt(IntToString(i) + post) == Num(i)
  {
    var s := IntToString(i) + post;
    var ds := NatToString(if i < 0 then -i else i);
    var sign := if i < 0 then "-" else "";
    assert IntToString(i) == sign + ds;
    SignedDigitsAt(s, sign, ds, post);
  }

  lemma SignedDigitsAt(s: string, sign: string, ds: string, rest: string)
    requires sign == "" || sign == "-"
    requires ds != [] && AllDigits(ds)
    requires rest == [] || !IsDigit(rest[0])
    requires s == sign + ds + rest
    ensures ParseInt(s) == Num(if sign == "-" then 0 - DigitsValue(ds) else DigitsValue(ds))
  {
    assert s == [] + sign + ds + rest;
    ParseIntPrefix([], sign, ds, rest);
  }

  /** Distinct integers render as distinct strings. */
  lemma {:induction false} IntToStringInjective(i: int, j: int)
    requires IntToString(i) == IntToString(j)
    ensures i == j
  {
    ParseIntRoundTrip(i);
    ParseIntRoundTrip(j);
  }
}
