/**
 * `parseCorrectOrder` of the spreadsheet import: the text of a CORRECT ORDER
 * cell (`ABCD`, `A-B-C-D`, `1234` or `1-2-3-4`, any letter case, white space
 * anywhere) becomes an order over a..d, or nothing.
 */
module OrderCode {
  import opened Wrappers
  import opened JsString
  import opened Question

  /** `[A-Da-d]` */
  predicate IsLetterChar(c: char) {
    'A' <= c <= 'D' || 'a' <= c <= 'd'
  }

  /** `[1-4]` */
  predicate IsDigitChar(c: char) {
    '1' <= c <= '4'
  }

  /** `/^[A-Da-d]{4}$/` */
  predicate LettersForm(s: string) {
    |s| == 4 && IsLetterChar(s[0]) && IsLetterChar(s[1]) && IsLetterChar(s[2]) && IsLetterChar(s[3])
  }

  /** `/^[A-Da-d](-[A-Da-d]){3}$/` */
  predicate DashedLettersForm(s: string) {
    && |s| == 7
    && IsLetterChar(s[0]) && s[1] == '-' && IsLetterChar(s[2]) && s[3] == '-'
    && IsLetterChar(s[4]) && s[5] == '-' && IsLetterChar(s[6])
  }

  /** `/^[1-4]{4}$/` */
  predicate DigitsForm(s: string) {
    |s| == 4 && IsDigitChar(s[0]) && IsDigitChar(s[1]) && IsDigitChar(s[2]) && IsDigitChar(s[3])
  }

  /** `/^[1-4](-[1-4]){3}$/` */
  predicate DashedDigitsForm(s: string) {
    && |s| == 7
    && IsDigitChar(s[0]) && s[1] == '-' && IsDigitChar(s[2]) && s[3] == '-'
    && IsDigitChar(s[4]) && s[5] == '-' && IsDigitChar(s[6])
  }

  predicate AnyForm(s: string) {
    LettersForm(s) || DashedLettersForm(s) || DigitsForm(s) || DashedDigitsForm(s)
  }

  /** `s.split('')` */
  function Characters(s: string): (r: seq<string>)
    ensures |r| == |s|
  {
    seq(|s|, i requires 0 <= i < |s| => [s[i]])
  }

  /** `s.split(sep)` for a one-character separator. */
  function Split(s: string, sep: char): (r: seq<string>)
    ensures |r| >= 1
  {
    if s == [] then [""]
    else
      var rest := Split(s[1..], sep);
      if s[0] == sep then [""] + rest else [[s[0]] + rest[0]] + rest[1..]
  }

  /** The digit switch: '1'..'4' become 'a'..'d', anything else 'a'. */
  function DigitToLetter(num: string): string {
    if num == "1" then "a"
    else if num == "2" then "b"
    else if num == "3" then "c"
    else if num == "4" then "d"
    else "a"
  }

  function MapDigits(parts: seq<string>): (r: seq<string>)
    ensures |r| == |parts|
  {
    seq(|parts|, i requires 0 <= i < |parts| => DigitToLetter(parts[i]))
  }

  /** `orderArray` after the four format tests on the cleaned text. */
  function OrderArray(cleaned: string): seq<string> {
    if LettersForm(cleaned) then Characters(Lower(cleaned))
    else if DashedLettersForm(cleaned) then Split(Lower(cleaned), '-')
    else if DigitsForm(cleaned) then MapDigits(Characters(cleaned))
    else if DashedDigitsForm(cleaned) then MapDigits(Split(cleaned, '-'))
    else []
  }

  /** `parseCorrectOrder(orderString)` */
  function ParseCorrectOrder(orderString: string): (r: Option<Order>)
    ensures r.Some? ==> WellTypedOrder(r.value)
  {
    if orderString == "" then None
    else OrderOfArray(OrderArray(RemoveWhitespace(orderString)))
  }

  /** The length test and the `every` test on `orderArray`, then the record. */
  function OrderOfArray(orderArray: seq<string>): (r: Option<Order>)
    ensures r.Some? ==> WellTypedOrder(r.value)
  {
    if |orderArray| != 4 then None
    else if !(forall i :: 0 <= i < 4 ==> IsLabel(orderArray[i])) then None
    else Some(Order(orderArray[0], orderArray[1], orderArray[2], orderArray[3]))
  }

  /** The slots of an order as an array, first to fourth. */
  function Slots(o: Order): (r: seq<string>)
    ensures |r| == 4
  {
    [o.one, o.two, o.three, o.four]
  }

  // ----- the four textual codes of an order -----------------------------------

  /** The digit that stands for a label. */
  function DigitOf(slot: string): string {
    if slot == "a" then "1" else if slot == "b" then "2" else if slot == "c" then "3" else "4"
  }

  /** "badc" */
  function LetterCode(o: Order): string {
    o.one + o.two + o.three + o.four
  }

  /** "b-a-d-c" */
  function DashedLetterCode(o: Order): string {
    o.one + "-" + o.two + "-" + o.three + "-" + o.four
  }

  /** "2143" */
  function DigitCode(o: Order): string {
    DigitOf(o.one) + DigitOf(o.two) + DigitOf(o.three) + DigitOf(o.four)
  }

  /** "2-1-4-3" */
  function DashedDigitCode(o: Order): string {
    DigitOf(o.one) + "-" + DigitOf(o.two) + "-" + DigitOf(o.three) + "-" + DigitOf(o.four)
  }

  /** `code` is one of the four spellings of `o` (in lower case). */
  predicate IsCodeOf(code: string, o: Order) {
    code == LetterCode(o) || code == DashedLetterCode(o) || code == DigitCode(o) || code == DashedDigitCode(o)
  }

  // ----- lemmas -----------------------------------------------------------------

  lemma SplitSingle(c: char, sep: char)
    requires c != sep
    ensures Split([c], sep) == [[c]]
  {
    assert [c][1..] == [];
    assert Split([], sep) == [""];
    assert [c] + "" == [c];
  }

  lemma SplitChunk(c: char, sep: char, rest: string)
    requires c != sep
    ensures Split([c, sep] + rest, sep) == [[c]] + Split(rest, sep)
  {
    var s := [c, sep] + rest;
    assert s[1..] == [sep] + rest;
    assert ([sep] + rest)[1..] == rest;
    assert Split([sep] + rest, sep) == [""] + Split(rest, sep);
    assert [c] + "" == [c];
  }

  lemma SplitDashed(x: char, y: char, z: char, w: char)
    requires x != '-' && y != '-' && z != '-' && w != '-'
    ensures Split([x, '-', y, '-', z, '-', w], '-') == [[x], [y], [z], [w]]
  {
    SplitSingle(w, '-');
    SplitChunk(z, '-', [w]);
    assert [z, '-'] + [w] == [z, '-', w];
    SplitChunk(y, '-', [z, '-', w]);
    assert [y, '-'] + [z, '-', w] == [y, '-', z, '-', w];
    SplitChunk(x, '-', [y, '-', z, '-', w]);
    assert [x, '-'] + [y, '-', z, '-', w] == [x, '-', y, '-', z, '-', w];
  }

  lemma LowerLetter(c: char)
    requires IsLetterChar(c)
    ensures IsLabel([LowerChar(c)])
    ensures LowerChar(c) == 'a' || LowerChar(c) == 'b' || LowerChar(c) == 'c' || LowerChar(c) == 'd'
  {
  }

  /** The array built from a text of the form `ABCD`. */
  lemma LettersArray(c: string)
    requires LettersForm(c)
    ensures OrderArray(c) == [[LowerChar(c[0])], [LowerChar(c[1])], [LowerChar(c[2])], [LowerChar(c[3])]]
  {
  }

  /** The array built from a text of the form `A-B-C-D`. */
  lemma DashedLettersArray(c: string)
    requires DashedLettersForm(c)
    ensures OrderArray(c) == [[LowerChar(c[0])], [LowerChar(c[2])], [LowerChar(c[4])], [LowerChar(c[6])]]
  {
    var l := Lower(c);
    assert l == [l[0], '-', l[2], '-', l[4], '-', l[6]];
    SplitDashed(l[0], l[2], l[4], l[6]);
  }

  /** The array built from a text of the form `1234`. */
  lemma DigitsArray(c: string)
    requires DigitsForm(c)
    ensures OrderArray(c) == [DigitToLetter([c[0]]), DigitToLetter([c[1]]), DigitToLetter([c[2]]), DigitToLetter([c[3]])]
  {
    assert !LettersForm(c) by { assert !IsLetterChar(c[0]); }
  }

  /** The array built from a text of the form `1-2-3-4`. */
  lemma DashedDigitsArray(c: string)
    requires DashedDigitsForm(c)
    ensures OrderArray(c) == [DigitToLetter([c[0]]), DigitToLetter([c[2]]), DigitToLetter([c[4]]), DigitToLetter([c[6]])]
  {
    assert !DashedLettersForm(c) by { assert !IsLetterChar(c[0]); }
    assert c == [c[0], '-', c[2], '-', c[4], '-', c[6]];
    SplitDashed(c[0], c[2], c[4], c[6]);
  }

  /**
   * Once one of the four format tests has matched, `orderArray` holds four
   * labels, so the length test and the `every` test after it never reject;
   * when none matched it is empty.
   */
  lemma {:induction false} FormGivesFourLabels(c: string)
    ensures AnyForm(c) ==> |OrderArray(c)| == 4 && forall i :: 0 <= i < 4 ==> IsLabel(OrderArray(c)[i])
    ensures !AnyForm(c) ==> OrderArray(c) == []
  {
    if LettersForm(c) {
      LettersArray(c);
      LowerLetter(c[0]); LowerLetter(c[1]); LowerLetter(c[2]); LowerLetter(c[3]);
    } else if DashedLettersForm(c) {
      DashedLettersArray(c);
      LowerLetter(c[0]); LowerLetter(c[2]); LowerLetter(c[4]); LowerLetter(c[6]);
    } else if DigitsForm(c) {
      DigitsArray(c);
      DigitLabels(c[0], c[1], c[2], c[3]);
    } else if DashedDigitsForm(c) {
      DashedDigitsArray(c);
      DigitLabels(c[0], c[2], c[4], c[6]);
    }
  }

  lemma DigitLabels(x: char, y: char, z: char, w: char)
    requires IsDigitChar(x) && IsDigitChar(y) && IsDigitChar(z) && IsDigitChar(w)
    ensures IsLabel(DigitToLetter([x])) && IsLabel(DigitToLetter([y])) && IsLabel(DigitToLetter([z])) && IsLabel(DigitToLetter([w]))
  {
    DigitRoundTrip(x); DigitRoundTrip(y); DigitRoundTrip(z); DigitRoundTrip(w);
  }

  /** `parseCorrectOrder` succeeds exactly when the white-space-free text has one of the four forms. */
  lemma ParseSucceedsIffForm(s: string)
    ensures ParseCorrectOrder(s).Some? <==> AnyForm(RemoveWhitespace(s))
  {
    FormGivesFourLabels(RemoveWhitespace(s));
  }

  // ----- which texts parse to which order ---------------------------------------

  lemma OrderOfArrayIff(arr: seq<string>, o: Order)
    ensures OrderOfArray(arr) == Some(o) <==> WellTypedOrder(o) && arr == Slots(o)
  {
    if WellTypedOrder(o) && arr == Slots(o) {
      assert forall i :: 0 <= i < 4 ==> IsLabel(arr[i]);
    }
  }

  /** An empty or all-white-space text gives nothing; otherwise only the white-space-free text counts. */
  lemma ParseCleaned(s: string)
    ensures ParseCorrectOrder(s) == OrderOfArray(OrderArray(RemoveWhitespace(s)))
  {
  }

  lemma LabelIsOneChar(l: string)
    requires IsLabel(l)
    ensures l == [l[0]] && 'a' <= l[0] <= 'd'
    ensures DigitOf(l) == [DigitOf(l)[0]] && IsDigitChar(DigitOf(l)[0])
    ensures DigitToLetter(DigitOf(l)) == l
  {
  }

  lemma DigitRoundTrip(d: char)
    requires IsDigitChar(d)
    ensures IsLabel(DigitToLetter([d])) && DigitOf(DigitToLetter([d])) == [d]
  {
  }

  /** The four codes of a well-typed order, character by character. */
  lemma CodeChars(o: Order)
    requires WellTypedOrder(o)
    ensures LetterCode(o) == [o.one[0], o.two[0], o.three[0], o.four[0]]
    ensures DashedLetterCode(o) == [o.one[0], '-', o.two[0], '-', o.three[0], '-', o.four[0]]
    ensures DigitCode(o) == [DigitOf(o.one)[0], DigitOf(o.two)[0], DigitOf(o.three)[0], DigitOf(o.four)[0]]
    ensures DashedDigitCode(o) == [DigitOf(o.one)[0], '-', DigitOf(o.two)[0], '-', DigitOf(o.three)[0], '-', DigitOf(o.four)[0]]
  {
    LabelIsOneChar(o.one); LabelIsOneChar(o.two); LabelIsOneChar(o.three); LabelIsOneChar(o.four);
  }

  lemma LetterCodeIff(c: string, o: Order)
    requires WellTypedOrder(o)
    ensures Lower(c) == LetterCode(o) <==> LettersForm(c) && OrderArray(c) == Slots(o)
  {
    CodeChars(o);
    LabelIsOneChar(o.one); LabelIsOneChar(o.two); LabelIsOneChar(o.three); LabelIsOneChar(o.four);
    if Lower(c) == LetterCode(o) {
      assert LowerChar(c[0]) == o.one[0] && LowerChar(c[1]) == o.two[0];
      assert LowerChar(c[2]) == o.three[0] && LowerChar(c[3]) == o.four[0];
      assert LettersForm(c);
      LettersArray(c);
    }
    if LettersForm(c) && OrderArray(c) == Slots(o) {
      LettersArray(c);
      assert Lower(c) == [LowerChar(c[0]), LowerChar(c[1]), LowerChar(c[2]), LowerChar(c[3])];
    }
  }

  lemma DashedLetterCodeIff(c: string, o: Order)
    requires WellTypedOrder(o)
    ensures Lower(c) == DashedLetterCode(o) <==> DashedLettersForm(c) && OrderArray(c) == Slots(o)
  {
    if Lower(c) == DashedLetterCode(o) {
      DashedLetterCodeForm(c, o);
    }
    if DashedLettersForm(c) && OrderArray(c) == Slots(o) {
      CodeChars(o);
      DashedLettersArray(c);
      assert Lower(c) == [LowerChar(c[0]), '-', LowerChar(c[2]), '-', LowerChar(c[4]), '-', LowerChar(c[6])];
    }
  }

  lemma DashedLetterCodeForm(c: string, o: Order)
    requires WellTypedOrder(o) && Lower(c) == DashedLetterCode(o)
    ensures DashedLettersForm(c) && OrderArray(c) == Slots(o)
  {
    CodeChars(o);
    LabelIsOneChar(o.one); LabelIsOneChar(o.two); LabelIsOneChar(o.three); LabelIsOneChar(o.four);
    assert LowerChar(c[0]) == o.one[0] && LowerChar(c[2]) == o.two[0];
    assert LowerChar(c[4]) == o.three[0] && LowerChar(c[6]) == o.four[0];
    assert LowerChar(c[1]) == '-' && LowerChar(c[3]) == '-' && LowerChar(c[5]) == '-';
    assert DashedLettersForm(c);
    DashedLettersArray(c);
  }

  lemma DigitCodeIff(c: string, o: Order)
    requires WellTypedOrder(o)
    ensures Lower(c) == DigitCode(o) <==> DigitsForm(c) && OrderArray(c) == Slots(o)
  {
    CodeChars(o);
    LabelIsOneChar(o.one); LabelIsOneChar(o.two); LabelIsOneChar(o.three); LabelIsOneChar(o.four);
    if Lower(c) == DigitCode(o) {
      assert LowerChar(c[0]) == DigitOf(o.one)[0] && LowerChar(c[1]) == DigitOf(o.two)[0];
      assert LowerChar(c[2]) == DigitOf(o.three)[0] && LowerChar(c[3]) == DigitOf(o.four)[0];
      assert DigitsForm(c);
      DigitsArray(c);
      assert [c[0]] == DigitOf(o.one) && [c[1]] == DigitOf(o.two);
      assert [c[2]] == DigitOf(o.three) && [c[3]] == DigitOf(o.four);
    }
    if DigitsForm(c) && OrderArray(c) == Slots(o) {
      DigitsArray(c);
      DigitRoundTrip(c[0]); DigitRoundTrip(c[1]); DigitRoundTrip(c[2]); DigitRoundTrip(c[3]);
      assert Lower(c) == [c[0], c[1], c[2], c[3]];
    }
  }

  lemma DashedDigitCodeIff(c: string, o: Order)
    requires WellTypedOrder(o)
    ensures Lower(c) == DashedDigitCode(o) <==> DashedDigitsForm(c) && OrderArray(c) == Slots(o)
  {
    CodeChars(o);
    LabelIsOneChar(o.one); LabelIsOneChar(o.two); LabelIsOneChar(o.three); LabelIsOneChar(o.four);
    if Lower(c) == DashedDigitCode(o) {
      assert LowerChar(c[0]) == DigitOf(o.one)[0] && LowerChar(c[2]) == DigitOf(o.two)[0];
      assert LowerChar(c[4]) == DigitOf(o.three)[0] && LowerChar(c[6]) == DigitOf(o.four)[0];
      assert LowerChar(c[1]) == '-' && LowerChar(c[3]) == '-' && LowerChar(c[5]) == '-';
      assert DashedDigitsForm(c);
      DashedDigitsArray(c);
      assert [c[0]] == DigitOf(o.one) && [c[2]] == DigitOf(o.two);
      assert [c[4]] == DigitOf(o.three) && [c[6]] == DigitOf(o.four);
    }
    if DashedDigitsForm(c) && OrderArray(c) == Slots(o) {
      DashedDigitsArray(c);
      DigitRoundTrip(c[0]); DigitRoundTrip(c[2]); DigitRoundTrip(c[4]); DigitRoundTrip(c[6]);
      assert Lower(c) == [c[0], '-', c[2], '-', c[4], '-', c[6]];
    }
  }

  /** On a white-space-free text, the array is the slots of `o` exactly when the text spells `o`. */
  lemma {:induction false} ArrayIffCode(c: string, o: Order)
    requires WellTypedOrder(o)
    ensures OrderArray(c) == Slots(o) <==> IsCodeOf(Lower(c), o)
  {
    LetterCodeIff(c, o);
    DashedLetterCodeIff(c, o);
    DigitCodeIff(c, o);
    DashedDigitCodeIff(c, o);
    FormGivesFourLabels(c);
    if OrderArray(c) == Slots(o) {
      assert AnyForm(c);
    }
  }

  /**
   * The characterization of `parseCorrectOrder`: it yields the order `o`
   * exactly when the text, once white space is removed and letters are put
   * in lower case, is one of the four spellings of `o`.
   */
  lemma {:induction false} ParseIffCode(s: string, o: Order)
    ensures ParseCorrectOrder(s) == Some(o) <==> WellTypedOrder(o) && IsCodeOf(Lower(RemoveWhitespace(s)), o)
  {
    ParseCleaned(s);
    OrderOfArrayIff(OrderArray(RemoveWhitespace(s)), o);
    if WellTypedOrder(o) {
      ArrayIffCode(RemoveWhitespace(s), o);
    }
  }

  /** Two texts that agree once white space is dropped and letters are lowered parse alike. */
  lemma {:induction false} ParseDependsOnLowered(s1: string, s2: string)
    requires Lower(RemoveWhitespace(s1)) == Lower(RemoveWhitespace(s2))
    ensures ParseCorrectOrder(s1) == ParseCorrectOrder(s2)
  {
    if ParseCorrectOrder(s1).Some? {
      ParseIffCode(s1, ParseCorrectOrder(s1).value);
      ParseIffCode(s2, ParseCorrectOrder(s1).value);
    } else if ParseCorrectOrder(s2).Some? {
      ParseIffCode(s1, ParseCorrectOrder(s2).value);
      ParseIffCode(s2, ParseCorrectOrder(s2).value);
    }
  }

  /** `toLowerCase` and `toUpperCase` of the input do not change the result. */
  lemma {:induction false} ParseIgnoresCase(s: string)
    ensures ParseCorrectOrder(Upper(s)) == ParseCorrectOrder(s)
    ensures ParseCorrectOrder(Lower(s)) == ParseCorrectOrder(s)
  {
    RemoveWhitespaceUpper(s);
    RemoveWhitespaceLower(s);
    LowerAbsorbs(RemoveWhitespace(s));
    ParseDependsOnLowered(Upper(s), s);
    ParseDependsOnLowered(Lower(s), s);
  }

  /** White space anywhere in the input does not change the result. */
  lemma {:induction false} ParseIgnoresWhitespace(s1: string, s2: string)
    requires RemoveWhitespace(s1) == RemoveWhitespace(s2)
    ensures ParseCorrectOrder(s1) == ParseCorrectOrder(s2)
  {
    ParseCleaned(s1);
    ParseCleaned(s2);
  }

  /** The letter code of a well-typed order is already lower case and has no white space. */
  lemma LetterCodeIsLower(o: Order)
    requires WellTypedOrder(o)
    ensures Lower(LetterCode(o)) == LetterCode(o) && NoWhitespace(LetterCode(o))
    ensures |LetterCode(o)| == 4 && forall i :: 0 <= i < 4 ==> 'a' <= LetterCode(o)[i] <= 'd'
  {
    var code := LetterCode(o);
    CodeChars(o);
    LabelIsOneChar(o.one); LabelIsOneChar(o.two); LabelIsOneChar(o.three); LabelIsOneChar(o.four);
    assert forall i :: 0 <= i < 4 ==> 'a' <= code[i] <= 'd';
  }

  /** The spelling a spreadsheet export writes (upper-case letters) reads back as the same order. */
  lemma {:induction false} ParseOfUpperLetterCode(o: Order)
    requires WellTypedOrder(o)
    ensures ParseCorrectOrder(Upper(LetterCode(o))) == Some(o)
  {
    var code := LetterCode(o);
    LetterCodeIsLower(o);
    ParseIgnoresCase(code);
    ParseIffCode(code, o);
  }

  /** A letter followed by one white-space character keeps only the letter. */
  lemma SpacedPair(c: char, sp: char, rest: string)
    requires IsWhitespace(sp) && !IsWhitespace(c)
    ensures RemoveWhitespace([c, sp] + rest) == [c] + RemoveWhitespace(rest)
  {
    RemoveWhitespaceCons(sp, rest);
    assert [c, sp] + rest == [c] + ([sp] + rest);
    RemoveWhitespaceCons(c, [sp] + rest);
  }

  /** White space between the four letters is dropped. */
  lemma SpacedCleaned(x: char, y: char, z: char, w: char, sp: char)
    requires IsWhitespace(sp) && !IsWhitespace(x) && !IsWhitespace(y) && !IsWhitespace(z) && !IsWhitespace(w)
    ensures RemoveWhitespace([x, sp, y, sp, z, sp, w]) == [x, y, z, w]
  {
    assert NoWhitespace([w]);
    SpacedPair(z, sp, [w]);
    SpacedPair(y, sp, [z, sp, w]);
    SpacedPair(x, sp, [y, sp, z, sp, w]);
    assert [x, sp, y, sp, z, sp, w] == [x, sp] + [y, sp, z, sp, w];
    assert [y, sp, z, sp, w] == [y, sp] + [z, sp, w];
    assert [z, sp, w] == [z, sp] + [w];
  }

  /** Four labels of one character each make an order. */
  lemma LabelsMakeOrder(a: char, b: char, c: char, d: char)
    requires 'a' <= a <= 'd' && 'a' <= b <= 'd' && 'a' <= c <= 'd' && 'a' <= d <= 'd'
    ensures OrderOfArray([[a], [b], [c], [d]]) == Some(Order([a], [b], [c], [d]))
  {
    assert IsLabel([a]) && IsLabel([b]) && IsLabel([c]) && IsLabel([d]);
  }

  /** A four-letter text gives its letters, lowered, in order. */
  lemma LettersParse(x: char, y: char, z: char, w: char)
    requires IsLetterChar(x) && IsLetterChar(y) && IsLetterChar(z) && IsLetterChar(w)
    ensures ParseCorrectOrder([x, y, z, w]) == Some(Order([LowerChar(x)], [LowerChar(y)], [LowerChar(z)], [LowerChar(w)]))
  {
    var s := [x, y, z, w];
    assert ParseCorrectOrder(s) == OrderOfArray(OrderArray(s)) by { assert NoWhitespace(s); }
    LettersArray(s);
    LowerLetter(x); LowerLetter(y); LowerLetter(z); LowerLetter(w);
    LabelsMakeOrder(LowerChar(x), LowerChar(y), LowerChar(z), LowerChar(w));
  }

  /** A dashed four-letter text gives its letters, lowered, in order. */
  lemma DashedLettersParse(x: char, y: char, z: char, w: char)
    requires IsLetterChar(x) && IsLetterChar(y) && IsLetterChar(z) && IsLetterChar(w)
    ensures ParseCorrectOrder([x, '-', y, '-', z, '-', w]) == Some(Order([LowerChar(x)], [LowerChar(y)], [LowerChar(z)], [LowerChar(w)]))
  {
    var s := [x, '-', y, '-', z, '-', w];
    assert ParseCorrectOrder(s) == OrderOfArray(OrderArray(s)) by { assert NoWhitespace(s); }
    DashedLettersArray(s);
    LowerLetter(x); LowerLetter(y); LowerLetter(z); LowerLetter(w);
    LabelsMakeOrder(LowerChar(x), LowerChar(y), LowerChar(z), LowerChar(w));
  }

  /** Four letters with one white-space character between each two give the same order as the letters alone. */
  lemma SpacedLettersParse(x: char, y: char, z: char, w: char, sp: char)
    requires IsLetterChar(x) && IsLetterChar(y) && IsLetterChar(z) && IsLetterChar(w) && IsWhitespace(sp)
    ensures ParseCorrectOrder([x, sp, y, sp, z, sp, w]) == Some(Order([LowerChar(x)], [LowerChar(y)], [LowerChar(z)], [LowerChar(w)]))
  {
    SpacedCleaned(x, y, z, w, sp);
    assert RemoveWhitespace([x, y, z, w]) == [x, y, z, w] by { assert NoWhitespace([x, y, z, w]); }
    ParseIgnoresWhitespace([x, sp, y, sp, z, sp, w], [x, y, z, w]);
    LettersParse(x, y, z, w);
  }

  /** The letter a digit character names: '1' names 'a', '4' names 'd'. */
  function DigitLetter(d: char): (l: char)
    requires IsDigitChar(d)
    ensures 'a' <= l <= 'd'
    ensures DigitToLetter([d]) == [l]
  {
    (d as int - '1' as int + 'a' as int) as char
  }

  /** A four-digit text gives the letters its digits name, in order. */
  lemma DigitsParse(x: char, y: char, z: char, w: char)
    requires IsDigitChar(x) && IsDigitChar(y) && IsDigitChar(z) && IsDigitChar(w)
    ensures ParseCorrectOrder([x, y, z, w]) == Some(Order([DigitLetter(x)], [DigitLetter(y)], [DigitLetter(z)], [DigitLetter(w)]))
  {
    var s := [x, y, z, w];
    assert ParseCorrectOrder(s) == OrderOfArray(OrderArray(s)) by { assert NoWhitespace(s); }
    DigitsArray(s);
    LabelsMakeOrder(DigitLetter(x), DigitLetter(y), DigitLetter(z), DigitLetter(w));
  }

  /** A dashed four-digit text gives the letters its digits name, in order. */
  lemma DashedDigitsParse(x: char, y: char, z: char, w: char)
    requires IsDigitChar(x) && IsDigitChar(y) && IsDigitChar(z) && IsDigitChar(w)
    ensures ParseCorrectOrder([x, '-', y, '-', z, '-', w]) == Some(Order([DigitLetter(x)], [DigitLetter(y)], [DigitLetter(z)], [DigitLetter(w)]))
  {
    var s := [x, '-', y, '-', z, '-', w];
    assert ParseCorrectOrder(s) == OrderOfArray(OrderArray(s)) by { assert NoWhitespace(s); }
    DashedDigitsArray(s);
    LabelsMakeOrder(DigitLetter(x), DigitLetter(y), DigitLetter(z), DigitLetter(w));
  }

  /** The examples of the four shapes: white space, letter case and dashes do not matter, and digit k names the k-th letter. */
  lemma ParseExampleSpaced()
    ensures ParseCorrectOrder("a b c d") == Some(Order("a", "b", "c", "d"))
  {
    SpacedLettersParse('a', 'b', 'c', 'd', ' ');
  }

  lemma ParseExampleUpper()
    ensures ParseCorrectOrder("ABCD") == Some(Order("a", "b", "c", "d"))
  {
    LettersParse('A', 'B', 'C', 'D');
  }

  lemma ParseExampleDashed()
    ensures ParseCorrectOrder("A-B-C-D") == Some(Order("a", "b", "c", "d"))
  {
    DashedLettersParse('A', 'B', 'C', 'D');
  }

  lemma ParseExampleLetters()
    ensures ParseCorrectOrder("BADC") == Some(Order("b", "a", "d", "c"))
  {
    LettersParse('B', 'A', 'D', 'C');
  }

  lemma ParseExampleDigits()
    ensures ParseCorrectOrder("2143") == Some(Order("b", "a", "d", "c"))
  {
    DigitsParse('2', '1', '4', '3');
  }

  lemma ParseExampleDashedDigits()
    ensures ParseCorrectOrder("2-1-4-3") == Some(Order("b", "a", "d", "c"))
  {
    DashedDigitsParse('2', '1', '4', '3');
  }

  /** Repeated labels are accepted: the result need not be a permutation. */
  lemma ParseAcceptsDuplicates()
    ensures ParseCorrectOrder("AABB") == Some(Order("a", "a", "b", "b"))
    ensures !IsPermutation(ParseCorrectOrder("AABB").value)
  {
    LettersParse('A', 'A', 'B', 'B');
  }

  /** Texts of none of the four forms give nothing. */
  lemma ParseRejectsShort()
    ensures ParseCorrectOrder("ABC") == None
  {
    ParseSucceedsIffForm("ABC");
  }

  lemma ParseRejectsForeignLetter()
    ensures ParseCorrectOrder("ABCE") == None
  {
    ParseSucceedsIffForm("ABCE");
  }

  lemma ParseRejectsForeignDigit()
    ensures ParseCorrectOrder("1235") == None
  {
    ParseSucceedsIffForm("1235");
  }
}
