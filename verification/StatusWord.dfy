/** The status word that the chain stores for a channel: two 48-bit numbers and a fingerprint, in hex digits. */
module StatusWord {

  const LIMIT := 0x1_0000_0000_0000

  datatype PrintResult = Printed(word: string) | ValueOutOfRange

  datatype ParseResult =
    | Parsed(turnNumRecord: nat, finalizesAt: nat, fingerprint: string)
    | NotAHexString
    | IncorrectLength(length: nat)

  // ----- digits -----

  predicate IsHexDigit(c: char) {
    '0' <= c <= '9' || 'a' <= c <= 'f' || 'A' <= c <= 'F'
  }

  predicate IsLower(c: char) {
    '0' <= c <= '9' || 'a' <= c <= 'f'
  }

  predicate AllHex(s: string) {
    forall i :: 0 <= i < |s| ==> IsHexDigit(s[i])
  }

  predicate AllLower(s: string) {
    forall i :: 0 <= i < |s| ==> IsLower(s[i])
  }

  function DigitValue(c: char): (d: nat)
    requires IsHexDigit(c)
    ensures d < 16
  {
    if c <= '9' then c as int - '0' as int
    else if c <= 'F' then c as int - 'A' as int + 10
    else c as int - 'a' as int + 10
  }

  function HexDigit(d: nat): (c: char)
    requires d < 16
    ensures IsLower(c) && DigitValue(c) == d
  {
    "0123456789abcdef"[d]
  }

  /** The number that hex digits stand for. */
  function HexValue(s: string): nat
    requires AllHex(s)
  {
    if s == [] then 0 else 16 * HexValue(s[..|s| - 1]) + DigitValue(s[|s| - 1])
  }

  /** The digits of a number, without leading zeros. */
  function Digits(n: nat): (s: string)
    ensures AllLower(s)
  {
    if n == 0 then [] else Digits(n / 16) + [HexDigit(n % 16)]
  }

  /** Whole bytes, and at least one. */
  function Hexlify(n: nat): (s: string)
    ensures AllLower(s)
  {
    var s := Digits(n);
    if s == [] then "00" else if |s| % 2 == 1 then "0" + s else s
  }

  function ZeroPad(s: string, length: nat): string
    decreases length - |s|
  {
    if |s| < length then ZeroPad("0" + s, length) else s
  }

  function PrintStatus(turnNumRecord: nat, finalizesAt: nat, fingerprint: string): PrintResult {
    if |Hexlify(turnNumRecord)| > 12 || |Hexlify(finalizesAt)| > 12 then ValueOutOfRange
    else Printed("0x" + ZeroPad(Hexlify(turnNumRecord), 12) + ZeroPad(Hexlify(finalizesAt), 12) + fingerprint)
  }

  predicate IsHexString(s: string) {
    |s| >= 2 && s[0] == '0' && s[1] == 'x' && AllHex(s[2..])
  }

  function ParsedStatus(status: string): ParseResult {
    if !IsHexString(status) then NotAHexString
    else if |status| != 66 then IncorrectLength(|status|)
    else
      assert AllHex(status[2..14]) && AllHex(status[14..26]) by {
        HexPart(status, 2, 14);
        HexPart(status, 14, 26);
      }
      Parsed(HexValue(status[2..14]), HexValue(status[14..26]), status[26..])
  }

  lemma HexPart(status: string, i: nat, j: nat)
    requires IsHexString(status) && 2 <= i <= j <= |status|
    ensures AllHex(status[i..j])
  {
    forall k | 0 <= k < j - i ensures IsHexDigit(status[i..j][k]) {
      assert status[i..j][k] == status[2..][i + k - 2];
    }
  }

  ghost predicate OnlyHexDigits(s: string) {
    forall c :: c in s ==> c in "0123456789abcdefABCDEF"
  }

  lemma HexDigits(s: string)
    ensures AllHex(s) <==> OnlyHexDigits(s)
  {
    forall c ensures IsHexDigit(c) <==> c in "0123456789abcdefABCDEF" {
      IsAmongThem(c);
    }
  }

  lemma IsAmongThem(c: char)
    ensures IsHexDigit(c) <==> c in "0123456789abcdefABCDEF"
  {
    hide IsLower;
    var all := "0123456789abcdefABCDEF";
    if '0' <= c <= '9' {
      assert all[c as int - '0' as int] == c;
    } else if 'a' <= c <= 'f' {
      assert all[c as int - 'a' as int + 10] == c;
    } else if 'A' <= c <= 'F' {
      assert all[c as int - 'A' as int + 16] == c;
    }
  }

  method ParseStatus(status: string) returns (result: ParseResult)
    ensures result == ParsedStatus(status)
    ensures result == NotAHexString <==> !(|status| >= 2 && status[..2] == "0x" && OnlyHexDigits(status[2..]))
    ensures result.IncorrectLength?
            <==> |status| >= 2 && status[..2] == "0x" && OnlyHexDigits(status[2..]) && |status| != 66
  {
    if |status| >= 2 {
      HexDigits(status[2..]);
    }
    if !IsHexString(status) {
      return NotAHexString;
    }
    if |status| != 66 {
      return IncorrectLength(|status|);
    }
    var cursor := 2;
    HexPart(status, cursor, cursor + 12);
    var turnNumRecord := HexValue(status[cursor..cursor + 12]);
    cursor := cursor + 12;
    HexPart(status, cursor, cursor + 12);
    var finalizesAt := HexValue(status[cursor..cursor + 12]);
    cursor := cursor + 12;
    result := Parsed(turnNumRecord, finalizesAt, status[cursor..]);
  }

  // ----- numbers of fixed width -----

  function Power(k: nat): (p: nat)
    ensures p > 0
  {
    if k == 0 then 1 else 16 * Power(k - 1)
  }

  /** The last k digits of a number. */
  function Fixed(n: nat, k: nat): (s: string)
    ensures |s| == k && AllLower(s)
  {
    if k == 0 then [] else Fixed(n / 16, k - 1) + [HexDigit(n % 16)]
  }

  lemma LimitIsTwelveDigits()
    ensures Power(12) == LIMIT
  {
    assert Power(4) == 0x1_0000;
    assert Power(8) == 0x1_0000_0000;
  }

  lemma {:induction false} DigitsFit(n: nat, k: nat)
    ensures |Digits(n)| <= k <==> n < Power(k)
  {
    if n > 0 && k > 0 {
      DigitsFit(n / 16, k - 1);
      assert n / 16 < Power(k - 1) <==> n < 16 * Power(k - 1);
    }
  }

  lemma {:induction false} FixedOfZero(k: nat)
    ensures Fixed(0, k + 1) == "0" + Fixed(0, k)
  {
    if k > 0 {
      FixedOfZero(k - 1);
      assert ("0" + Fixed(0, k - 1)) + ['0'] == "0" + (Fixed(0, k - 1) + ['0']);
    }
  }

  /** One more digit of width is one more leading zero. */
  lemma {:induction false} FixedGrows(n: nat, k: nat)
    requires n < Power(k)
    ensures Fixed(n, k + 1) == "0" + Fixed(n, k)
  {
    if k == 0 {
      FixedOfZero(0);
    } else {
      assert n / 16 < Power(k - 1);
      FixedGrows(n / 16, k - 1);
      assert ("0" + Fixed(n / 16, k - 1)) + [HexDigit(n % 16)] == "0" + (Fixed(n / 16, k - 1) + [HexDigit(n % 16)]);
    }
  }

  lemma {:induction false} DigitsAreFixed(n: nat)
    ensures Digits(n) == Fixed(n, |Digits(n)|)
  {
    if n > 0 {
      DigitsAreFixed(n / 16);
    }
  }

  lemma {:induction false} PadFixed(n: nat, k: nat, length: nat)
    requires k <= length && n < Power(k)
    ensures ZeroPad(Fixed(n, k), length) == Fixed(n, length)
    decreases length - k
  {
    if k < length {
      FixedGrows(n, k);
      assert n < Power(k + 1);
      PadFixed(n, k + 1, length);
    }
  }

  lemma ZeroIsFixed()
    ensures Hexlify(0) == Fixed(0, 2)
  {
    FixedOfZero(0);
    FixedOfZero(1);
  }

  lemma ZeroFits()
    ensures 0 < Power(2)
  {
  }

  lemma DigitsOfPositive(n: nat)
    requires n > 0
    ensures Digits(n) != []
  {
  }

  /** A positive number prints in an even number of digits, with a leading zero if need be. */
  lemma HexlifyFixed(n: nat)
    requires n > 0
    ensures var k := |Digits(n)|; |Hexlify(n)| == (if k % 2 == 1 then k + 1 else k)
    ensures Hexlify(n) == Fixed(n, |Hexlify(n)|) && n < Power(|Hexlify(n)|)
  {
    var k := |Digits(n)|;
    DigitsOfPositive(n);
    DigitsFit(n, k);
    DigitsFit(n, |Hexlify(n)|);
    DigitsAreFixed(n);
    hide Digits, Fixed, Power;
    if k % 2 == 1 {
      FixedGrows(n, k);
    }
  }

  /** Whether it prints at all, and what: the number in twelve digits. */
  lemma HexlifyMeans(n: nat)
    ensures |Hexlify(n)| <= 12 <==> n < LIMIT
    ensures n < LIMIT ==> ZeroPad(Hexlify(n), 12) == Fixed(n, 12)
  {
    hide Digits, Fixed, ZeroPad, Power;
    LimitIsTwelveDigits();
    DigitsFit(n, 12);
    if n == 0 {
      ZeroIsFixed();
      ZeroFits();
      PadFixed(n, 2, 12);
    } else {
      DigitsOfPositive(n);
      HexlifyFixed(n);
      if n < LIMIT {
        PadFixed(n, |Hexlify(n)|, 12);
      }
    }
  }

  lemma ValueOfNext(s: string, c: char)
    requires AllHex(s) && IsHexDigit(c)
    ensures AllHex(s + [c]) && HexValue(s + [c]) == 16 * HexValue(s) + DigitValue(c)
  {
    hide DigitValue, IsHexDigit;
    var t := s + [c];
    assert t[..|t| - 1] == s && t[|t| - 1] == c;
  }

  lemma {:induction false} ValueOfFixed(n: nat, k: nat)
    requires n < Power(k)
    ensures HexValue(Fixed(n, k)) == n
  {
    if k > 0 {
      assert n / 16 < Power(k - 1);
      ValueOfFixed(n / 16, k - 1);
      hide HexValue, HexDigit, DigitValue, Power;
      ValueOfNext(Fixed(n / 16, k - 1), HexDigit(n % 16));
    }
  }

  lemma LowerDigit(c: char)
    requires IsHexDigit(c)
    ensures IsLower(c) <==> HexDigit(DigitValue(c)) == c
  {
  }

  /** Printing the value in the same width restores the digits, if they are lower-case. */
  lemma {:induction false} FixedOfValue(s: string)
    requires AllHex(s)
    ensures HexValue(s) < Power(|s|)
    ensures Fixed(HexValue(s), |s|) == s <==> AllLower(s)
  {
    if s != [] {
      var init, last := s[..|s| - 1], s[|s| - 1];
      assert s == init + [last];
      FixedOfValue(init);
      LowerDigit(last);
      hide HexDigit, DigitValue, HexValue;
      ValueOfNext(init, last);
      assert HexValue(s) / 16 == HexValue(init) && HexValue(s) % 16 == DigitValue(last);
      assert Fixed(HexValue(s), |s|) == Fixed(HexValue(init), |init|) + [HexDigit(DigitValue(last))];
      assert AllLower(s) <==> AllLower(init) && IsLower(last);
    }
  }

  // ----- round trips -----

  /** Printing fails exactly for a number of more than 48 bits. */
  lemma PrintFails(turnNumRecord: nat, finalizesAt: nat, fingerprint: string)
    ensures PrintStatus(turnNumRecord, finalizesAt, fingerprint).ValueOutOfRange?
            <==> turnNumRecord >= LIMIT || finalizesAt >= LIMIT
  {
    HexlifyMeans(turnNumRecord);
    HexlifyMeans(finalizesAt);
  }

  /** What is printed: both numbers in twelve digits, in this order, and the fingerprint. */
  lemma PrintMeans(turnNumRecord: nat, finalizesAt: nat, fingerprint: string, word: string)
    requires PrintStatus(turnNumRecord, finalizesAt, fingerprint) == Printed(word)
    ensures |word| == 26 + |fingerprint| && word[..2] == "0x" && word[26..] == fingerprint && AllLower(word[2..26])
    ensures AllHex(word[2..14]) && HexValue(word[2..14]) == turnNumRecord
    ensures AllHex(word[14..26]) && HexValue(word[14..26]) == finalizesAt
  {
    PrintFails(turnNumRecord, finalizesAt, fingerprint);
    PrintedWord(turnNumRecord, finalizesAt, fingerprint);
    LimitIsTwelveDigits();
    ValueOfFixed(turnNumRecord, 12);
    ValueOfFixed(finalizesAt, 12);
    hide *;
    PrintedParts(Fixed(turnNumRecord, 12), Fixed(finalizesAt, 12), fingerprint, word);
  }

  lemma PrintedWord(turnNumRecord: nat, finalizesAt: nat, fingerprint: string)
    requires turnNumRecord < LIMIT && finalizesAt < LIMIT
    ensures PrintStatus(turnNumRecord, finalizesAt, fingerprint)
            == Printed("0x" + Fixed(turnNumRecord, 12) + Fixed(finalizesAt, 12) + fingerprint)
  {
    hide Fixed, Hexlify, ZeroPad;
    HexlifyMeans(turnNumRecord);
    HexlifyMeans(finalizesAt);
  }

  lemma PrintedParts(a: string, b: string, c: string, word: string)
    requires |a| == |b| == 12 && AllLower(a) && AllLower(b) && word == "0x" + a + b + c
    ensures |word| == 26 + |c| && word[..2] == "0x" && word[26..] == c && AllLower(word[2..26])
    ensures word[2..14] == a && word[14..26] == b && AllHex(a) && AllHex(b)
  {
    hide AllLower, AllHex;
    LowerIsHex(a);
    LowerIsHex(b);
    assert word[2..26] == a + b;
    LowerParts(a, b);
  }

  /** The lower-case letter of a digit. */
  function Lowered(c: char): char {
    if 'A' <= c <= 'F' then (c as int - 'A' as int + 'a' as int) as char else c
  }

  /** Letters count alike in either case. */
  lemma {:induction false} CaseDoesNotMatter(s: string, t: string)
    requires AllHex(s) && |t| == |s| && forall i :: 0 <= i < |s| ==> t[i] == Lowered(s[i])
    ensures AllLower(t) && AllHex(t) && HexValue(t) == HexValue(s)
  {
    forall i | 0 <= i < |s| ensures IsLower(t[i]) && DigitValue(t[i]) == DigitValue(s[i]) {
      assert IsHexDigit(s[i]);
    }
    LowerIsHex(t);
    if s != [] {
      CaseDoesNotMatter(s[..|s| - 1], t[..|s| - 1]);
    }
  }

  lemma WordParts(a: string, b: string, c: string, word: string)
    requires |a| == |b| == 12 && |c| == 40 && AllHex(a) && AllHex(b) && AllHex(c)
    requires word == "0x" + a + b + c
    ensures IsHexString(word) && |word| == 66
    ensures word[2..14] == a && word[14..26] == b && word[26..] == c
  {
    assert word[2..] == a + b + c;
  }

  lemma LowerIsHex(s: string)
    requires AllLower(s)
    ensures AllHex(s)
  {
    forall i | 0 <= i < |s| ensures IsHexDigit(s[i]) {
      assert IsLower(s[i]);
    }
  }

  /** Parsing what was printed returns the fields, for numbers of 48 bits and any 20-byte fingerprint. */
  lemma ParseAfterPrint(turnNumRecord: nat, finalizesAt: nat, fingerprint: string)
    requires turnNumRecord < LIMIT && finalizesAt < LIMIT && |fingerprint| == 40 && AllHex(fingerprint)
    ensures var printed := PrintStatus(turnNumRecord, finalizesAt, fingerprint);
            && printed.Printed? && |printed.word| == 66
            && ParsedStatus(printed.word) == Parsed(turnNumRecord, finalizesAt, fingerprint)
  {
    hide Fixed, HexValue, Hexlify, ZeroPad, Digits, AllHex, AllLower;
    PrintedWord(turnNumRecord, finalizesAt, fingerprint);
    LimitIsTwelveDigits();
    var a, b := Fixed(turnNumRecord, 12), Fixed(finalizesAt, 12);
    LowerIsHex(a);
    LowerIsHex(b);
    WordParts(a, b, fingerprint, "0x" + a + b + fingerprint);
    ValueOfFixed(turnNumRecord, 12);
    ValueOfFixed(finalizesAt, 12);
  }

  /** Printing what was parsed restores the word exactly when its two numbers are written in lower case. */
  lemma PrintAfterParse(word: string)
    requires ParsedStatus(word).Parsed?
    ensures var fields := ParsedStatus(word);
            PrintStatus(fields.turnNumRecord, fields.finalizesAt, fields.fingerprint) == Printed(word)
            <==> AllLower(word[2..26])
  {
    hide Fixed, HexValue, Hexlify, ZeroPad, Digits, Power;
    var a, b, c := word[2..14], word[14..26], word[26..];
    HexPart(word, 2, 14);
    HexPart(word, 14, 26);
    FixedOfValue(a);
    FixedOfValue(b);
    LimitIsTwelveDigits();
    HexlifyMeans(HexValue(a));
    HexlifyMeans(HexValue(b));
    assert word == "0x" + a + b + c;
    assert word[2..26] == a + b;
    assert AllLower(a + b) <==> AllLower(a) && AllLower(b) by {
      LowerParts(a, b);
    }
    SameParts(Fixed(HexValue(a), 12), Fixed(HexValue(b), 12), a, b, c);
  }

  lemma LowerParts(a: string, b: string)
    ensures AllLower(a + b) <==> AllLower(a) && AllLower(b)
  {
    if AllLower(a + b) {
      assert forall i :: 0 <= i < |a| ==> a[i] == (a + b)[i];
      assert forall i :: 0 <= i < |b| ==> b[i] == (a + b)[|a| + i];
    }
  }

  lemma SameParts(a': string, b': string, a: string, b: string, c: string)
    requires |a'| == |a| && |b'| == |b|
    ensures "0x" + a' + b' + c == "0x" + a + b + c <==> a' == a && b' == b
  {
    var w', w := "0x" + a' + b' + c, "0x" + a + b + c;
    if w' == w {
      assert w'[2..2 + |a|] == a' && w[2..2 + |a|] == a;
      assert w'[2 + |a|..2 + |a| + |b|] == b' && w[2 + |a|..2 + |a| + |b|] == b;
    }
  }
}
