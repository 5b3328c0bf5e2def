/** The string primitives the server relies on: `String.prototype.toLowerCase`,
    `parseInt(s, 10)`, `Number.prototype.toString` on integers, and the way the
    store decodes a number attribute value sent as a string. */
module Strings {
  import opened Options

  // ---------------------------------------------------------------- case

  /** Lower-cases one character (ASCII letters only). */
  function LowerChar(c: char): char {
    if 'A' <= c <= 'Z' then (c as int + 32) as char else c
  }

  /** `s.toLowerCase()`, character by character: the length is kept, each
      letter becomes its lower-case form, every other character stays, and
      no upper-case letter is left in the result. */
  function Lower(s: string): (r: string)
    ensures |r| == |s|
    ensures forall i :: 0 <= i < |s| ==> r[i] == LowerChar(s[i])
    ensures forall i :: 0 <= i < |r| ==> !('A' <= r[i] <= 'Z')
  {
    if s == [] then [] else [LowerChar(s[0])] + Lower(s[1..])
  }

  /** Lower-casing twice is lower-casing once, so the key computed at load
      time is unaffected if it is lower-cased again at query time. */
  lemma {:induction false} LowerIdempotent(s: string)
    ensures Lower(Lower(s)) == Lower(s)
  {
    if s != [] {
      LowerIdempotent(s[1..]);
      assert Lower(s)[1..] == Lower(s[1..]);
    }
  }

  /** Lower-casing keeps prefixes: a prefix of a title lower-cases to a
      prefix of the lower-cased title. */
  lemma {:induction false} LowerPrefix(p: string, s: string)
    requires p <= s
    ensures Lower(p) <= Lower(s)
  {
    if p != [] {
      LowerPrefix(p[1..], s[1..]);
    }
  }

  // ---------------------------------------------------------------- digits

  predicate IsDigit(c: char) {
    '0' <= c <= '9'
  }

  predicate AllDigits(s: string) {
    forall i :: 0 <= i < |s| ==> IsDigit(s[i])
  }

  function DigitChar(d: nat): char
    requires d < 10
  {
    ('0' as int + d) as char
  }

  /** The value of a string of decimal digits, most significant first. */
  function DigitsValue(s: string): nat
    requires AllDigits(s)
  {
    if s == [] then 0 else DigitsValue(s[..|s| - 1]) * 10 + (s[|s| - 1] as int - '0' as int)
  }

  /** The decimal digits of `n`, without leading zeros. */
  function NatToString(n: nat): (r: string)
    ensures |r| >= 1 && AllDigits(r)
  {
    if n < 10 then [DigitChar(n)] else NatToString(n / 10) + [DigitChar(n % 10)]
  }

  /** `n.toString()` for an integer `n`. */
  function IntToString(n: int): string {
    if n < 0 then "-" + NatToString(-n) else NatToString(n)
  }

  /** The number of decimal digits `s` starts with. */
  function LeadingDigits(s: string): (k: nat)
    ensures k <= |s|
    ensures forall i :: 0 <= i < k ==> IsDigit(s[i])
    ensures k < |s| ==> !IsDigit(s[k])
  {
    if s == [] || !IsDigit(s[0]) then 0 else 1 + LeadingDigits(s[1..])
  }

  /** The part of `s` after an optional leading sign. */
  function Unsigned(s: string): string {
    if |s| > 0 && (s[0] == '-' || s[0] == '+') then s[1..] else s
  }

  /** `parseInt(s, 10)`: an optional sign, then the longest run of decimal
      digits; whatever follows is ignored. `None` is `NaN`, the answer
      exactly when no digit follows the sign; the sign gives the result's. */
  function ParseInt(s: string): (r: Option<int>)
    ensures r.None? <==> (Unsigned(s) == [] || !IsDigit(Unsigned(s)[0]))
    ensures r.Some? && |s| > 0 && s[0] == '-' ==> r.value <= 0
    ensures r.Some? && !(|s| > 0 && s[0] == '-') ==> r.value >= 0
  {
    var body := Unsigned(s);
    var k := LeadingDigits(body);
    var magnitude: int := if k == 0 then 0 else DigitsValue(body[..k]);
    if k == 0 then None
    else if |s| > 0 && s[0] == '-' then Some(-magnitude)
    else Some(magnitude)
  }

  /** A string the store accepts as a number attribute value: an optional
      minus sign and at least one digit, and nothing else. */
  predicate IsNumeral(s: string) {
    var body := if |s| > 0 && s[0] == '-' then s[1..] else s;
    |body| > 0 && AllDigits(body)
  }

  /** How the store decodes a number attribute value; `None` is a rejected
      (non-numeric) value. */
  function StoreNumber(s: string): Option<int> {
    if IsNumeral(s) then ParseInt(s) else None
  }

  lemma {:induction false} DigitsValueOfNatToString(n: nat)
    ensures DigitsValue(NatToString(n)) == n
  {
    if n >= 10 {
      var s := NatToString(n);
      assert s[..|s| - 1] == NatToString(n / 10);
      DigitsValueOfNatToString(n / 10);
    }
  }

  /** A run of digits followed by nothing or by a non-digit has exactly its
      own length of leading digits. */
  lemma {:induction false} LeadingDigitsOfDigits(d: string, t: string)
    requires AllDigits(d)
    requires t == [] || !IsDigit(t[0])
    ensures LeadingDigits(d + t) == |d|
  {
    if d != [] {
      assert (d + t)[1..] == d[1..] + t;
      LeadingDigitsOfDigits(d[1..], t);
    }
  }

  /** The value `parseInt(s, 10)` gives: the leading digits read in base
      10, with the sign that precedes them, leading zeros and trailing text
      ignored (`"08"` is 8, `"+2013"` is 2013, `"-007x"` is -7). */
  lemma ParseIntValue(sign: string, d: string, t: string)
    requires sign == "" || sign == "+" || sign == "-"
    requires d != [] && AllDigits(d)
    requires t == [] || !IsDigit(t[0])
    ensures ParseInt(sign + d + t) == Some(if sign == "-" then -(DigitsValue(d) as int) else DigitsValue(d) as int)
  {
    var body := d + t;
    assert sign + d + t == sign + body;
    UnsignedAfterSign(sign, body);
    LeadingDigitsOfDigits(d, t);
    assert body[..|d|] == d;
    ParseIntUnfold(sign + body, body, |d|);
  }

  /** Stripping a sign (or none) from text that starts with a digit. */
  lemma UnsignedAfterSign(sign: string, body: string)
    requires sign == "" || sign == "+" || sign == "-"
    requires body != [] && IsDigit(body[0])
    ensures Unsigned(sign + body) == body
    ensures ((sign + body)[0] == '-') <==> sign == "-"
  {
    if sign != "" {
      assert (sign + body)[1..] == body;
    }
  }

  /** `ParseInt` once the unsigned part and its run of digits are known. */
  lemma ParseIntUnfold(s: string, body: string, k: nat)
    requires Unsigned(s) == body && LeadingDigits(body) == k && k > 0
    ensures k <= |body| && AllDigits(body[..k])
    ensures ParseInt(s) == Some(if |s| > 0 && s[0] == '-' then -(DigitsValue(body[..k]) as int) else DigitsValue(body[..k]) as int)
  {
  }

  /** `parseInt(n.toString() + t, 10) == n` whenever `t` does not continue the
      digits: the integer is read back and any trailing text is ignored. */
  lemma ParseIntOfIntToString(n: int, t: string)
    requires t == [] || !IsDigit(t[0])
    ensures ParseInt(IntToString(n) + t) == Some(n)
  {
    var magnitude: nat := if n < 0 then -n else n;
    var sign := if n < 0 then "-" else "";
    DigitsValueOfNatToString(magnitude);
    assert IntToString(n) == sign + NatToString(magnitude);
    ParseIntValue(sign, NatToString(magnitude), t);
  }

  /** The integer strings the server sends to the store decode back to the
      integers they were made from. */
  lemma StoreNumberOfIntToString(n: int)
    ensures IsNumeral(IntToString(n))
    ensures StoreNumber(IntToString(n)) == Some(n)
  {
    ParseIntOfIntToString(n, "");
    assert IntToString(n) + "" == IntToString(n);
    if n < 0 {
      assert IntToString(n)[1..] == NatToString(-n);
    }
  }
}
