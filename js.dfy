/** The pieces of JavaScript semantics the pages depend on: truthiness of
    numbers and strings, `String.prototype.trim`, `Number(string)` on the
    strings an id picker can hold, and `String(number)` on integers. */
module Js {

  /** A JavaScript number as the pages meet it: an integer or NaN. */
  datatype JsNumber = Num(n: int) | NaN

  /** `0` and `NaN` are falsy, every other number is truthy. */
  predicate Truthy(x: JsNumber) {
    x.Num? && x.n != 0
  }

  /** WhiteSpace and LineTerminator code points of ECMAScript, the ones
      `trim()` strips (the Zs category spelled out). */
  predicate IsWhitespace(c: char) {
    || c == '\t' || c == '\n' || c == '\U{B}' || c == '\U{C}' || c == '\r'
    || c == ' ' || c == '\U{A0}' || c == '\U{1680}'
    || ('\U{2000}' <= c <= '\U{200A}')
    || c == '\U{2028}' || c == '\U{2029}' || c == '\U{202F}' || c == '\U{205F}'
    || c == '\U{3000}' || c == '\U{FEFF}'
  }

  predicate AllWhitespace(s: string) {
    forall i :: 0 <= i < |s| ==> IsWhitespace(s[i])
  }

  /** The first index at or after `i` that does not hold whitespace. */
  function SkipSpace(s: string, i: nat): (k: nat)
    requires i <= |s|
    ensures i <= k <= |s|
    ensures forall j :: i <= j < k ==> IsWhitespace(s[j])
    ensures k == |s| || !IsWhitespace(s[k])
    decreases |s| - i
  {
    if i < |s| && IsWhitespace(s[i]) then SkipSpace(s, i + 1) else i
  }

  /** The end of `s[lo..e]` once trailing whitespace is dropped. */
  function SkipSpaceBack(s: string, lo: nat, e: nat): (k: nat)
    requires lo <= e <= |s|
    ensures lo <= k <= e
    ensures forall j :: k <= j < e ==> IsWhitespace(s[j])
    ensures k == lo || !IsWhitespace(s[k - 1])
    decreases e
  {
    if lo < e && IsWhitespace(s[e - 1]) then SkipSpaceBack(s, lo, e - 1) else e
  }

  /** `s.trim()`: it is never longer than `s`, and empty exactly when `s`
      is all whitespace (its shape is `TrimShape`). */
  function Trim(s: string): (r: string)
    ensures |r| <= |s|
    ensures r == [] <==> AllWhitespace(s)
  {
    var a := SkipSpace(s, 0);
    var b := SkipSpaceBack(s, a, |s|);
    s[a..b]
  }

  /** The trim of `s` is the slice of `s` between a whitespace-only head and
      a whitespace-only tail, and neither starts nor ends with whitespace. */
  lemma TrimShape(s: string)
    ensures var r := Trim(s);
      && (exists a {:trigger s[a..]} ::
           (&& 0 <= a <= |s| - |r|
            && r == s[a..a + |r|]
            && (forall j :: 0 <= j < a ==> IsWhitespace(s[j]))
            && (forall j :: a + |r| <= j < |s| ==> IsWhitespace(s[j]))))
      && (r == [] || (!IsWhitespace(r[0]) && !IsWhitespace(r[|r| - 1])))
  {
    var a := SkipSpace(s, 0);
    var b := SkipSpaceBack(s, a, |s|);
    assert s[a..b] == s[a..][..b - a];
  }

  /** Trimming a trimmed string changes nothing. */
  lemma TrimIdempotent(s: string)
    ensures Trim(Trim(s)) == Trim(s)
  {
    var r := Trim(s);
    TrimShape(s);
    if r != [] {
      TrimUntouched(r);
    }
  }

  /** A string with no surrounding whitespace is its own trim. */
  lemma TrimUntouched(s: string)
    requires s != [] && !IsWhitespace(s[0]) && !IsWhitespace(s[|s| - 1])
    ensures Trim(s) == s
  {
  }

  /** A string is blank (falsy after `trim()`) exactly when it is all whitespace. */
  predicate IsBlank(s: string) {
    Trim(s) == []
  }

  predicate IsDigit(c: char) {
    '0' <= c <= '9'
  }

  predicate AllDigits(s: string) {
    forall i :: 0 <= i < |s| ==> IsDigit(s[i])
  }

  function DigitChar(d: nat): (c: char)
    requires d < 10
    ensures IsDigit(c) && c as int - '0' as int == d
  {
    (d + '0' as int) as char
  }

  /** The value of a run of decimal digits, most significant first. */
  function DecimalValue(s: string): (v: nat)
    requires AllDigits(s)
  {
    if s == [] then 0
    else DecimalValue(s[..|s| - 1]) * 10 + (s[|s| - 1] as int - '0' as int)
  }

  /** The decimal spelling of a natural number, without leading zeros. */
  function NatToDecimal(n: nat): (r: string)
    ensures r != [] && AllDigits(r)
    ensures r[0] == '0' ==> n == 0
    ensures DecimalValue(r) == n
  {
    if n < 10 then [DigitChar(n)]
    else
      var r := NatToDecimal(n / 10) + [DigitChar(n % 10)];
      assert r[..|r| - 1] == NatToDecimal(n / 10);
      r
  }

  /** `String(n)` for an integer number: never empty (`IntToStringDigits`
      says what it spells). */
  function IntToString(n: int): (r: string)
    ensures r != []
  {
    if n < 0 then "-" + NatToDecimal(-n) else NatToDecimal(n)
  }

  /** `String(n)` is the decimal spelling of `n`, after a minus sign when
      `n` is negative. */
  lemma IntToStringDigits(n: int)
    ensures var r := IntToString(n);
      && (n >= 0 ==> AllDigits(r) && DecimalValue(r) == n)
      && (n < 0 ==> r[0] == '-' && AllDigits(r[1..]) && DecimalValue(r[1..]) == -n)
  {
    if n < 0 {
      assert IntToString(n)[1..] == NatToDecimal(-n);
    }
  }

  /** An optionally signed, non-empty run of decimal digits. */
  predicate IsSignedDecimal(t: string) {
    || (t != [] && AllDigits(t))
    || (|t| > 1 && (t[0] == '-' || t[0] == '+') && AllDigits(t[1..]))
  }

  /** `Number(s)`: surrounding whitespace is ignored, the empty string is 0,
      an optionally signed run of decimal digits is its value, and every
      other string is NaN (`NumberOfCases`). */
  function NumberOf(s: string): (r: JsNumber)
    ensures AllWhitespace(s) ==> r == Num(0)
  {
    var t := Trim(s);
    if t == [] then Num(0)
    else if t[0] == '-' && |t| > 1 && AllDigits(t[1..]) then Num(-(DecimalValue(t[1..]) as int))
    else if t[0] == '+' && |t| > 1 && AllDigits(t[1..]) then Num(DecimalValue(t[1..]))
    else if AllDigits(t) then Num(DecimalValue(t))
    else NaN
  }

  /** A blank string is 0, and NaN comes out exactly for the strings that
      are neither blank nor, once trimmed, an optionally signed run of
      digits. */
  lemma NumberOfCases(s: string)
    ensures IsBlank(s) ==> NumberOf(s) == Num(0)
    ensures NumberOf(s) == NaN <==> !IsBlank(s) && !IsSignedDecimal(Trim(s))
  {
  }

  /** `Number` of a run of decimal digits is its decimal value. */
  lemma NumberOfDigits(s: string)
    requires s != [] && AllDigits(s)
    ensures NumberOf(s) == Num(DecimalValue(s))
  {
    TrimUntouched(s);
  }

  /** `Number(String(n)) === n`: an id rendered into a form field and read
      back is the same id. */
  lemma NumberOfIntToString(n: int)
    ensures NumberOf(IntToString(n)) == Num(n)
  {
    IntToStringDigits(n);
    TrimUntouched(IntToString(n));
  }

  /** Different integers have different `String` spellings. */
  lemma IntToStringInjective(a: int, b: int)
    requires IntToString(a) == IntToString(b)
    ensures a == b
  {
    NumberOfIntToString(a);
    NumberOfIntToString(b);
  }

  /** `s.filter(keep)`: the elements that pass, in their original order. */
  function Filter<T>(s: seq<T>, keep: T -> bool): (r: seq<T>)
    ensures |r| <= |s|
    ensures forall k :: 0 <= k < |r| ==> keep(r[k])
  {
    if s == [] then []
    else Filter(s[..|s| - 1], keep) + (if keep(s[|s| - 1]) then [s[|s| - 1]] else [])
  }

  /** The positions of `s` whose element passes `keep`, in increasing order;
      every passing position is among them. */
  function KeptPositions<T>(s: seq<T>, keep: T -> bool): (idx: seq<nat>)
    ensures forall k :: 0 <= k < |idx| ==> idx[k] < |s| && keep(s[idx[k]])
    ensures forall k, l :: 0 <= k < l < |idx| ==> idx[k] < idx[l]
    ensures forall i :: 0 <= i < |s| && keep(s[i]) ==> i in idx
  {
    if s == [] then []
    else
      var idx := KeptPositions(s[..|s| - 1], keep);
      idx + (if keep(s[|s| - 1]) then [|s| - 1] else [])
  }

  /** `filter` is the order-preserving subsequence of passing elements: its
      k-th element is the element at the k-th passing position. */
  lemma {:induction false} FilterAtKeptPositions<T>(s: seq<T>, keep: T -> bool)
    ensures |Filter(s, keep)| == |KeptPositions(s, keep)|
    ensures forall k :: 0 <= k < |Filter(s, keep)| ==> Filter(s, keep)[k] == s[KeptPositions(s, keep)[k]]
  {
    if s != [] {
      FilterAtKeptPositions(s[..|s| - 1], keep);
    }
  }

  /** Two filters with disjoint tests keep at most `|s|` elements together,
      and exactly `|s|` when every element passes one of them. */
  lemma {:induction false} FilterDisjointCounts<T>(s: seq<T>, p: T -> bool, q: T -> bool)
    requires forall i :: 0 <= i < |s| ==> !(p(s[i]) && q(s[i]))
    ensures |Filter(s, p)| + |Filter(s, q)| <= |s|
    ensures (forall i :: 0 <= i < |s| ==> p(s[i]) || q(s[i])) ==> |Filter(s, p)| + |Filter(s, q)| == |s|
  {
    if s != [] {
      FilterDisjointCounts(s[..|s| - 1], p, q);
    }
  }
}
