/**
 * The JavaScript string operations the question codecs rely on, written out:
 * the `\s` / `trim()` white-space set, `toUpperCase` / `toLowerCase` (ASCII
 * letters only), `includes`, `endsWith`, the decimal text of an integer
 * (template literals) and `Number(text)` (decimal integers only).
 */
module JsString {
  import opened Wrappers
  import opened Seqs

  /** WhiteSpace and LineTerminator of ECMAScript: what `\s` matches and `trim()` strips. */
  predicate IsWhitespace(c: char) {
    || c == '\t' || c == '\n' || c == '\U{B}' || c == '\U{C}' || c == '\r' || c == ' '
    || c == '\U{A0}' || c == '\U{1680}' || ('\U{2000}' <= c <= '\U{200A}')
    || c == '\U{2028}' || c == '\U{2029}' || c == '\U{202F}' || c == '\U{205F}'
    || c == '\U{3000}' || c == '\U{FEFF}'
  }

  predicate NoWhitespace(s: string) {
    forall i :: 0 <= i < |s| ==> !IsWhitespace(s[i])
  }

  /** A character `\s` does not match. */
  predicate IsKept(c: char) {
    !IsWhitespace(c)
  }

  /** `s.replace(/\s/g, '')`: every white-space character removed, the rest kept in order. */
  function RemoveWhitespace(s: string): (r: string)
    ensures NoWhitespace(r)
    ensures |r| <= |s|
    ensures NoWhitespace(s) ==> r == s
  {
    if s == [] then []
    else (if IsWhitespace(s[0]) then [] else [s[0]]) + RemoveWhitespace(s[1..])
  }

  /** The characters `replace(/\s/g, '')` keeps: the others, in their order. */
  lemma {:induction false} RemoveWhitespaceIsFilter(s: string)
    ensures RemoveWhitespace(s) == Filter(s, IsKept)
  {
    if s != [] {
      var c, rest := s[0], s[1..];
      RemoveWhitespaceIsFilter(rest);
      assert s == [c] + rest;
      FilterAppend([c], rest, IsKept);
      FilterSingle(c);
    }
  }

  lemma FilterSingle(c: char)
    ensures Filter([c], IsKept) == if IsWhitespace(c) then [] else [c]
  {
    assert [c][..0] == [];
  }

  /** Removing white space works piecewise. */
  lemma RemoveWhitespaceAppend(s: string, t: string)
    ensures RemoveWhitespace(s + t) == RemoveWhitespace(s) + RemoveWhitespace(t)
  {
    RemoveWhitespaceIsFilter(s + t);
    RemoveWhitespaceIsFilter(s);
    RemoveWhitespaceIsFilter(t);
    FilterAppend(s, t, IsKept);
  }

  lemma RemoveWhitespaceCons(c: char, s: string)
    ensures RemoveWhitespace([c] + s) == (if IsWhitespace(c) then [] else [c]) + RemoveWhitespace(s)
  {
    assert ([c] + s)[1..] == s;
  }

  /** `s.trimStart()`: the white space before the first other character is dropped. */
  function TrimStart(s: string): (r: string)
    ensures r == [] || !IsWhitespace(r[0])
    ensures |r| <= |s| && r == s[|s| - |r|..]
  {
    if s != [] && IsWhitespace(s[0]) then TrimStart(s[1..]) else s
  }

  /** `s.trimEnd()`: the white space after the last other character is dropped. */
  function TrimEnd(s: string): (r: string)
    ensures r == [] || !IsWhitespace(r[|r| - 1])
    ensures |r| <= |s| && r == s[..|r|]
  {
    if s != [] && IsWhitespace(s[|s| - 1]) then TrimEnd(s[..|s| - 1]) else s
  }

  /** A string `trim()` leaves alone: it neither starts nor ends with white space. */
  predicate IsTrimmed(s: string) {
    s == [] || (!IsWhitespace(s[0]) && !IsWhitespace(s[|s| - 1]))
  }

  /** `trimStart()` drops only white space: every character before the kept suffix is white space. */
  lemma {:induction false} TrimStartDropsWhitespace(s: string)
    ensures forall k :: 0 <= k < |s| - |TrimStart(s)| ==> IsWhitespace(s[k])
  {
    if s != [] && IsWhitespace(s[0]) {
      var rest := s[1..];
      TrimStartDropsWhitespace(rest);
      forall k | 1 <= k < |s| - |TrimStart(s)| ensures IsWhitespace(s[k]) {
        assert s[k] == rest[k - 1];
      }
    }
  }

  /** `trimEnd()` drops only white space: every character after the kept prefix is white space. */
  lemma {:induction false} TrimEndDropsWhitespace(s: string)
    ensures forall k :: |TrimEnd(s)| <= k < |s| ==> IsWhitespace(s[k])
  {
    if s != [] && IsWhitespace(s[|s| - 1]) {
      var init := s[..|s| - 1];
      TrimEndDropsWhitespace(init);
      forall k | |TrimEnd(s)| <= k < |s| - 1 ensures IsWhitespace(s[k]) {
        assert s[k] == init[k];
      }
    }
  }

  /** `s.trim()`: the white space at both ends of `s` is dropped. */
  function Trim(s: string): (r: string)
    ensures IsTrimmed(r)
    ensures |r| <= |s|
  {
    var t := TrimStart(s);
    var r := TrimEnd(t);
    assert r == [] || r[0] == t[0];
    r
  }

  /** `r` is a part of `s` from which only white space was cut off, before and after. */
  ghost predicate IsTrimOf(s: string, r: string) {
    exists i, j :: 0 <= i <= j <= |s| && r == s[i..j]
      && (forall k :: 0 <= k < i || j <= k < |s| ==> IsWhitespace(s[k]))
  }

  /** What `trim()` keeps is the part between the leading and the trailing white space. */
  lemma TrimKeepsMiddle(s: string)
    ensures IsTrimOf(s, Trim(s))
  {
    var t := TrimStart(s);
    var r := TrimEnd(t);
    TrimStartDropsWhitespace(s);
    TrimEndDropsWhitespace(t);
    var i := |s| - |t|;
    var j := i + |r|;
    assert r == s[i..j];
    forall k | j <= k < |s| ensures IsWhitespace(s[k]) {
      assert s[k] == t[k - i];
    }
  }

  /** `trim()` gives "" exactly for text that is all white space. */
  lemma TrimEmptyIff(s: string)
    ensures Trim(s) == [] <==> forall k :: 0 <= k < |s| ==> IsWhitespace(s[k])
  {
    TrimStartDropsWhitespace(s);
    TrimEndDropsWhitespace(TrimStart(s));
  }

  lemma TrimOfTrimmed(s: string)
    requires IsTrimmed(s)
    ensures Trim(s) == s
  {
  }

  lemma TrimIdempotent(s: string)
    ensures Trim(Trim(s)) == Trim(s)
  {
    TrimOfTrimmed(Trim(s));
  }

  function UpperChar(c: char): char {
    if 'a' <= c <= 'z' then (c as int - 32) as char else c
  }

  function LowerChar(c: char): char {
    if 'A' <= c <= 'Z' then (c as int + 32) as char else c
  }

  /** `s.toUpperCase()` on ASCII letters. */
  function Upper(s: string): (r: string)
    ensures |r| == |s|
    ensures forall i :: 0 <= i < |s| ==> r[i] == UpperChar(s[i])
  {
    seq(|s|, i requires 0 <= i < |s| => UpperChar(s[i]))
  }

  /** `s.toLowerCase()` on ASCII letters. */
  function Lower(s: string): (r: string)
    ensures |r| == |s|
    ensures forall i :: 0 <= i < |s| ==> r[i] == LowerChar(s[i])
  {
    seq(|s|, i requires 0 <= i < |s| => LowerChar(s[i]))
  }

  /** Case mapping neither creates nor removes white space. */
  lemma CaseKeepsWhitespace(c: char)
    ensures IsWhitespace(UpperChar(c)) <==> IsWhitespace(c)
    ensures IsWhitespace(LowerChar(c)) <==> IsWhitespace(c)
  {
  }

  lemma UpperAppend(a: string, b: string)
    ensures Upper(a + b) == Upper(a) + Upper(b)
  {
  }

  lemma LowerAppend(a: string, b: string)
    ensures Lower(a + b) == Lower(a) + Lower(b)
  {
  }

  lemma {:induction false} RemoveWhitespaceUpper(s: string)
    ensures RemoveWhitespace(Upper(s)) == Upper(RemoveWhitespace(s))
  {
    if s != [] {
      CaseKeepsWhitespace(s[0]);
      RemoveWhitespaceUpper(s[1..]);
      assert Upper(s)[1..] == Upper(s[1..]);
      var head := if IsWhitespace(s[0]) then [] else [s[0]];
      UpperAppend(head, RemoveWhitespace(s[1..]));
    }
  }

  lemma {:induction false} RemoveWhitespaceLower(s: string)
    ensures RemoveWhitespace(Lower(s)) == Lower(RemoveWhitespace(s))
  {
    if s != [] {
      CaseKeepsWhitespace(s[0]);
      RemoveWhitespaceLower(s[1..]);
      assert Lower(s)[1..] == Lower(s[1..]);
      var head := if IsWhitespace(s[0]) then [] else [s[0]];
      LowerAppend(head, RemoveWhitespace(s[1..]));
    }
  }

  /** Lower case after upper case is plain lower case, and lowering twice is lowering once. */
  lemma LowerAbsorbs(s: string)
    ensures Lower(Upper(s)) == Lower(s)
    ensures Lower(Lower(s)) == Lower(s)
  {
  }

  predicate OccursAt(s: string, sub: string, i: int) {
    0 <= i && i + |sub| <= |s| && s[i..i + |sub|] == sub
  }

  /** `s.includes(sub)` */
  predicate Contains(s: string, sub: string) {
    exists i :: 0 <= i <= |s| - |sub| && OccursAt(s, sub, i)
  }

  /** `s.endsWith(suffix)` */
  predicate EndsWith(s: string, suffix: string) {
    |suffix| <= |s| && s[|s| - |suffix|..] == suffix
  }

  predicate IsDigit(c: char) {
    '0' <= c <= '9'
  }

  predicate AllDigits(s: string) {
    forall i :: 0 <= i < |s| ==> IsDigit(s[i])
  }

  function DigitChar(d: nat): (c: char)
    requires d < 10
    ensures IsDigit(c)
  {
    ('0' as int + d) as char
  }

  /** The decimal digits of a natural number, most significant first, without leading zeros. */
  function NatToDecimal(n: nat): (r: string)
    ensures |r| >= 1 && AllDigits(r)
    decreases n
  {
    if n < 10 then [DigitChar(n)] else NatToDecimal(n / 10) + [DigitChar(n % 10)]
  }

  /** The text a template literal `${i}` gives for an integer. */
  function IntToDecimal(i: int): (r: string)
    ensures r != [] && IsTrimmed(r)
  {
    if i < 0 then "-" + NatToDecimal(-i) else NatToDecimal(i)
  }

  /** The value of a string of decimal digits. */
  function DecimalValue(s: string): nat
    requires AllDigits(s)
  {
    if s == [] then 0 else DecimalValue(s[..|s| - 1]) * 10 + (s[|s| - 1] as int - '0' as int)
  }

  lemma {:induction false} DecimalRoundTrip(n: nat)
    ensures DecimalValue(NatToDecimal(n)) == n
  {
    if n >= 10 {
      DecimalRoundTrip(n / 10);
      var s := NatToDecimal(n);
      assert s[..|s| - 1] == NatToDecimal(n / 10);
    }
  }

  /**
   * `Number(s)` where `None` stands for NaN: surrounding white space is ignored,
   * the empty string is 0, and an optional sign followed by decimal digits is
   * that integer. Every other text is taken to be NaN.
   */
  function NumberValue(s: string): Option<int> {
    TrimmedNumberValue(Trim(s))
  }

  function TrimmedNumberValue(t: string): Option<int> {
    if t == [] then Some(0)
    else if t[0] == '-' && |t| > 1 && AllDigits(t[1..]) then Some(-(DecimalValue(t[1..]) as int))
    else if t[0] == '+' && |t| > 1 && AllDigits(t[1..]) then Some(DecimalValue(t[1..]))
    else if AllDigits(t) then Some(DecimalValue(t))
    else None
  }

  lemma NumberOfNatDecimal(n: nat)
    ensures TrimmedNumberValue(NatToDecimal(n)) == Some(n as int)
  {
    var r := NatToDecimal(n);
    DecimalRoundTrip(n);
    assert r[0] != '-' && r[0] != '+';
  }

  lemma NumberOfNegativeDecimal(n: nat)
    requires n > 0
    ensures TrimmedNumberValue("-" + NatToDecimal(n)) == Some(-(n as int))
  {
    var d := NatToDecimal(n);
    assert ("-" + d)[1..] == d;
    DecimalRoundTrip(n);
  }

  lemma {:induction false} DecimalIsTrimmed(i: int)
    ensures Trim(IntToDecimal(i)) == IntToDecimal(i)
  {
    TrimOfTrimmed(IntToDecimal(i));
  }

  lemma {:induction false} TrimmedNumberOfDecimal(i: int)
    ensures TrimmedNumberValue(IntToDecimal(i)) == Some(i)
  {
    if i < 0 {
      NumberOfNegativeDecimal(-i);
    } else {
      NumberOfNatDecimal(i);
    }
  }

  /** `Number` reads back the text a template literal writes for an integer. */
  lemma {:induction false} NumberOfDecimal(i: int)
    ensures NumberValue(IntToDecimal(i)) == Some(i)
  {
    DecimalIsTrimmed(i);
    TrimmedNumberOfDecimal(i);
  }
}
