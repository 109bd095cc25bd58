/** The one optional-value datatype of the project: a query-string or body
    field that may be absent, and a `parseInt` that may yield NaN. */
module Wrappers {

  datatype Option<+T> = None | Some(value: T)
}

/** The JavaScript string behaviour that the server and the dashboard rely
    on: the `\d` character class, hex digits, `toUpperCase` on ASCII, `trim`,
    truthiness of a possibly missing string, and decimal rendering of a
    placeholder number. */
module Text {
  import opened Wrappers

  /** `\d` in a regular expression: the ASCII digits `0`-`9`. */
  predicate IsDigit(c: char) {
    '0' <= c <= '9'
  }

  /** The class `[0-9A-Fa-f]`. */
  predicate IsHexDigit(c: char) {
    IsDigit(c) || 'a' <= c <= 'f' || 'A' <= c <= 'F'
  }

  predicate IsLowerAscii(c: char) {
    'a' <= c <= 'z'
  }

  /** A JavaScript value used as a condition: a missing field (undefined)
      and the empty string are falsy, every other string is truthy. */
  predicate Truthy(s: Option<string>) {
    s.Some? && s.value != ""
  }

  /** `s.replace(/\D/g, '')`: the digit characters of `s`, in their order. */
  function Digits(s: string): (d: string)
    ensures |d| <= |s|
    ensures forall i :: 0 <= i < |d| ==> IsDigit(d[i])
  {
    if s == [] then []
    else if IsDigit(s[0]) then [s[0]] + Digits(s[1..])
    else Digits(s[1..])
  }

  /** A string of digits only is left as it is. */
  lemma {:induction false} DigitsOfDigits(s: string)
    requires forall i :: 0 <= i < |s| ==> IsDigit(s[i])
    ensures Digits(s) == s
  {
    if s != [] {
      DigitsOfDigits(s[1..]);
    }
  }

  /** A string without digits is stripped to nothing. */
  lemma {:induction false} DigitsOfNonDigits(s: string)
    requires forall i :: 0 <= i < |s| ==> !IsDigit(s[i])
    ensures Digits(s) == []
  {
    if s != [] {
      DigitsOfNonDigits(s[1..]);
    }
  }

  /** Stripping distributes over concatenation. */
  lemma {:induction false} DigitsAppend(a: string, b: string)
    ensures Digits(a + b) == Digits(a) + Digits(b)
  {
    if a == [] {
      assert a + b == b;
    } else {
      assert (a + b)[0] == a[0];
      assert (a + b)[1..] == a[1..] + b;
      DigitsAppend(a[1..], b);
    }
  }

  /** The positions of `s` that hold a digit: an independent way of counting
      what `Digits` keeps. */
  ghost function DigitPositions(s: string): set<int> {
    set i | 0 <= i < |s| && IsDigit(s[i])
  }

  /** The length of the stripped string is the number of digit positions. */
  lemma {:induction false} DigitsCountPositions(s: string)
    ensures |Digits(s)| == |DigitPositions(s)|
  {
    if s == [] {
      assert DigitPositions(s) == {};
    } else {
      var p, c := s[..|s| - 1], s[|s| - 1];
      assert s == p + [c];
      DigitsAppend(p, [c]);
      DigitsCountPositions(p);
      assert Digits([c]) == (if IsDigit(c) then [c] else []);
      if IsDigit(c) {
        assert DigitPositions(s) == DigitPositions(p) + {|p|};
        assert |p| !in DigitPositions(p);
      } else {
        assert DigitPositions(s) == DigitPositions(p);
      }
    }
  }

  /** `toUpperCase` on one character, for the ASCII letters. */
  function UpperChar(c: char): (u: char)
    ensures IsLowerAscii(c) ==> u as int == c as int - 32
    ensures !IsLowerAscii(c) ==> u == c
    ensures !IsLowerAscii(u)
    ensures 'A' <= u <= 'Z' <==> IsLowerAscii(c) || 'A' <= c <= 'Z'
    ensures u != c ==> IsLowerAscii(c)
  {
    if IsLowerAscii(c) then (c as int - 32) as char else c
  }

  /** `s.toUpperCase()` for ASCII text: each character mapped on its own. */
  function Upper(s: string): string {
    seq(|s|, i requires 0 <= i < |s| => UpperChar(s[i]))
  }

  /** Upper-casing twice is upper-casing once, and leaves no ASCII
      lower-case letter behind. */
  lemma UpperIdempotent(s: string)
    ensures Upper(Upper(s)) == Upper(s)
    ensures forall i :: 0 <= i < |s| ==> !IsLowerAscii(Upper(s)[i])
  {
  }

  /** Text without lower-case ASCII letters is left as it is. */
  lemma UpperOfNoLower(s: string)
    requires forall i :: 0 <= i < |s| ==> !IsLowerAscii(s[i])
    ensures Upper(s) == s
  {
  }

  /** Upper-casing keeps digits, hex digits and every non-letter in place. */
  lemma UpperKeepsClasses(c: char)
    ensures IsHexDigit(UpperChar(c)) <==> IsHexDigit(c)
    ensures IsDigit(UpperChar(c)) <==> IsDigit(c)
    ensures !IsLowerAscii(c) && !('A' <= c <= 'Z') ==> UpperChar(c) == c
  {
  }

  /** The characters `String.prototype.trim` removes: WhiteSpace and
      LineTerminator of the ECMAScript grammar. */
  predicate IsJsSpace(c: char) {
    || c == '\t' || c == '\n' || c == '\U{000B}' || c == '\U{000C}' || c == '\r'
    || c == ' ' || c == '\U{00A0}' || c == '\U{1680}'
    || ('\U{2000}' <= c <= '\U{200A}')
    || c == '\U{2028}' || c == '\U{2029}' || c == '\U{202F}' || c == '\U{205F}'
    || c == '\U{3000}' || c == '\U{FEFF}'
  }

  /** The number of white-space characters `s` starts with. */
  function LeadingSpace(s: string): (n: nat)
    ensures n <= |s|
    ensures forall i :: 0 <= i < n ==> IsJsSpace(s[i])
    ensures n == |s| || !IsJsSpace(s[n])
  {
    if s == [] || !IsJsSpace(s[0]) then 0 else 1 + LeadingSpace(s[1..])
  }

  /** The end of `s[lo..hi]` once the white space it ends with is dropped. */
  function TrailingSpaceStart(s: string, lo: nat, hi: nat): (e: nat)
    requires lo <= hi <= |s|
    ensures lo <= e <= hi
    ensures forall i :: e <= i < hi ==> IsJsSpace(s[i])
    ensures e == lo || !IsJsSpace(s[e - 1])
    decreases hi
  {
    if hi == lo || !IsJsSpace(s[hi - 1]) then hi else TrailingSpaceStart(s, lo, hi - 1)
  }

  /** `r` is the slice of `s` starting at `lo`, and every character of `s`
      outside that slice is white space. */
  predicate SliceAmidSpace(s: string, r: string, lo: nat) {
    && lo + |r| <= |s|
    && r == s[lo..lo + |r|]
    && (forall i :: 0 <= i < lo ==> IsJsSpace(s[i]))
    && (forall i :: lo + |r| <= i < |s| ==> IsJsSpace(s[i]))
  }

  /** `s.trim()`: the slice of `s` that neither starts nor ends with white
      space, with only white space cut off on either side. */
  function Trim(s: string): (r: string)
    ensures SliceAmidSpace(s, r, LeadingSpace(s))
    ensures r == [] || (!IsJsSpace(r[0]) && !IsJsSpace(r[|r| - 1]))
    ensures r == [] <==> forall i :: 0 <= i < |s| ==> IsJsSpace(s[i])
  {
    var lo := LeadingSpace(s);
    var hi := TrailingSpaceStart(s, lo, |s|);
    s[lo..hi]
  }

  /** Decimal rendering of a placeholder number, as a template literal does. */
  function Decimal(n: nat): (r: string)
    ensures |r| >= 1
    ensures forall i :: 0 <= i < |r| ==> IsDigit(r[i])
    ensures n < 10 ==> |r| == 1 && r[0] as int == '0' as int + n
  {
    var last := ('0' as int + n % 10) as char;
    if n < 10 then [last] else Decimal(n / 10) + [last]
  }

  /** The number a string of decimal digits denotes, most significant digit first. */
  function DecimalValue(s: string): (v: nat)
    requires forall i :: 0 <= i < |s| ==> IsDigit(s[i])
    ensures s == [] ==> v == 0
  {
    if s == [] then 0
    else
      assert IsDigit(s[|s| - 1]);
      DecimalValue(s[..|s| - 1]) * 10 + (s[|s| - 1] as int - '0' as int)
  }

  /** Reading the rendered placeholder number back gives the number. */
  lemma {:induction false} DecimalRoundTrip(n: nat)
    ensures DecimalValue(Decimal(n)) == n
  {
    var r := Decimal(n);
    if n >= 10 {
      DecimalRoundTrip(n / 10);
      assert r[..|r| - 1] == Decimal(n / 10);
    }
  }
}
