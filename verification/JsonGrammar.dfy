/** What the reader takes for a number and the writer for a character, against the grammar of
    RFC 8259 (sections 6 and 7). */
module JsonGrammar {
  import opened Wrappers
  import opened Json
  import opened JsonReader
  import opened CanonicalJson

  predicate AllDigits(s: string) {
    forall i :: 0 <= i < |s| ==> '0' <= s[i] <= '9'
  }

  /** A number taken apart: the sign, the integer, and the fraction and exponent if present. */
  datatype Numeral = Numeral(minus: bool, whole: string, fraction: string, mark: string, exponent: string)

  /** Section 6: no leading zero, no empty part, and an exponent behind its mark. */
  predicate Proper(n: Numeral) {
    && AllDigits(n.whole) && n.whole != "" && (|n.whole| > 1 ==> n.whole[0] != '0')
    && AllDigits(n.fraction)
    && (n.mark == "" || n.mark == "e" || n.mark == "E" || n.mark == "e+" || n.mark == "e-" || n.mark == "E+" || n.mark == "E-")
    && AllDigits(n.exponent) && (n.exponent == "" <==> n.mark == "")
  }

  function FractionText(n: Numeral): string {
    if n.fraction == "" then "" else "." + n.fraction
  }

  function Spelling(n: Numeral): string {
    (if n.minus then "-" else "") + (n.whole + (FractionText(n) + (n.mark + n.exponent)))
  }

  /** The digits at the head of a text, as far as they go. */
  lemma {:induction false} DigitsThen(digits: string, rest: string)
    requires AllDigits(digits) && (rest == "" || !IsDigit(rest[0]))
    ensures CountDigits(digits + rest) == |digits|
    decreases |digits|
  {
    if digits == "" {
      assert digits + rest == rest;
    } else {
      DigitsThen(digits[1..], rest);
      assert (digits + rest)[1..] == digits[1..] + rest;
    }
  }

  lemma {:induction false} CountedAreDigits(text: string)
    ensures AllDigits(text[..CountDigits(text)])
    ensures CountDigits(text) < |text| ==> !IsDigit(text[CountDigits(text)])
    decreases |text|
  {
    if text != "" && IsDigit(text[0]) {
      CountedAreDigits(text[1..]);
      assert text[..CountDigits(text)] == [text[0]] + text[1..][..CountDigits(text[1..])];
    }
  }

  lemma ExponentReads(n: Numeral)
    requires Proper(n)
    ensures ExponentLength(n.mark + n.exponent) == Some(|n.mark + n.exponent|)
  {
    var text := n.mark + n.exponent;
    DigitsThen(n.exponent, "");
    assert n.exponent + "" == n.exponent;
    if n.mark != "" {
      assert text[|n.mark|..] == n.exponent;
      assert n.exponent != "" && IsDigit(n.exponent[0]);
    }
  }

  lemma FractionReads(n: Numeral)
    requires Proper(n)
    ensures FractionLength(FractionText(n) + (n.mark + n.exponent)) == Some(|FractionText(n)|)
  {
    var rest := n.mark + n.exponent;
    if n.fraction == "" {
      assert FractionText(n) + rest == rest;
    } else {
      assert (FractionText(n) + rest)[1..] == n.fraction + rest;
      DigitsThen(n.fraction, rest);
    }
  }

  lemma RestStops(n: Numeral)
    requires Proper(n)
    ensures var rest := FractionText(n) + (n.mark + n.exponent); rest == "" || !IsDigit(rest[0])
  {
  }

  lemma WholeReads(minus: bool, whole: string, rest: string)
    requires AllDigits(whole) && whole != "" && (|whole| > 1 ==> whole[0] != '0') && (rest == "" || !IsDigit(rest[0]))
    ensures IntegerLength((if minus then "-" else "") + (whole + rest)) == Some((if minus then 1 else 0) + |whole|)
  {
    var text, sign := (if minus then "-" else "") + (whole + rest), if minus then 1 else 0;
    assert IsDigit(whole[0]);
    assert text[sign..] == whole + rest && text[sign] == whole[0];
    DigitsThen(whole, rest);
  }

  lemma IntegerReads(n: Numeral)
    requires Proper(n)
    ensures IntegerLength(Spelling(n)) == Some((if n.minus then 1 else 0) + |n.whole|)
  {
    RestStops(n);
    WholeReads(n.minus, n.whole, FractionText(n) + (n.mark + n.exponent));
  }

  lemma Cuts(a: string, b: string, c: string)
    ensures (a + (b + c))[|a|..] == b + c && (a + (b + c))[|a| + |b|..] == c
  {
  }

  lemma PartsRead(head: string, fraction: string, rest: string)
    requires IntegerLength(head + (fraction + rest)) == Some(|head|)
    requires FractionLength(fraction + rest) == Some(|fraction|) && ExponentLength(rest) == Some(|rest|)
    ensures IsNumber(head + (fraction + rest))
  {
    Cuts(head, fraction, rest);
    PartsLength(head + (fraction + rest), |head|, |fraction|, |rest|);
  }

  lemma SpellingReads(n: Numeral)
    requires Proper(n)
    ensures IsNumber(Spelling(n))
  {
    IntegerReads(n);
    FractionReads(n);
    ExponentReads(n);
    Associate(if n.minus then "-" else "", n.whole, FractionText(n) + (n.mark + n.exponent));
    PartsRead((if n.minus then "-" else "") + n.whole, FractionText(n), n.mark + n.exponent);
  }

  /** The integer part of an accepted text. */
  lemma IntegerIs(text: string) returns (minus: bool, whole: string)
    requires IntegerLength(text).Some?
    ensures AllDigits(whole) && whole != "" && (|whole| > 1 ==> whole[0] != '0')
    ensures text[..IntegerLength(text).value] == (if minus then "-" else "") + whole
  {
    minus := text[0] == '-';
    var sign := if minus then 1 else 0;
    whole := text[sign..IntegerLength(text).value];
    CountedAreDigits(text[sign..]);
    if text[sign] != '0' {
      assert whole == text[sign..][..CountDigits(text[sign..])];
    }
  }

  lemma FractionIs(text: string) returns (fraction: string)
    requires FractionLength(text).Some?
    ensures AllDigits(fraction)
    ensures text[..FractionLength(text).value] == if fraction == "" then "" else "." + fraction
  {
    if FractionLength(text) == Some(0) {
      fraction := "";
    } else {
      fraction := text[1..][..CountDigits(text[1..])];
      CountedAreDigits(text[1..]);
    }
  }

  lemma ExponentIs(text: string) returns (mark: string, exponent: string)
    requires ExponentLength(text).Some?
    ensures mark == "" || mark == "e" || mark == "E" || mark == "e+" || mark == "e-" || mark == "E+" || mark == "E-"
    ensures AllDigits(exponent) && (exponent == "" <==> mark == "")
    ensures text[..ExponentLength(text).value] == mark + exponent
  {
    if ExponentLength(text) == Some(0) {
      mark, exponent := "", "";
    } else {
      var sign := if |text| > 1 && (text[1] == '+' || text[1] == '-') then 2 else 1;
      mark, exponent := text[..sign], text[sign..][..CountDigits(text[sign..])];
      CountedAreDigits(text[sign..]);
    }
  }

  lemma Rejoins(s: string, i: nat, f: nat, e: nat)
    requires i + f + e == |s|
    ensures s == s[..i] + (s[i..][..f] + s[i + f..][..e])
  {
  }

  lemma NumberSpells(s: string) returns (n: Numeral)
    requires IsNumber(s)
    ensures Proper(n) && Spelling(n) == s
  {
    var i, f, e := NumberParts(s);
    var minus, whole := IntegerIs(s);
    var fraction := FractionIs(s[i..]);
    var mark, exponent := ExponentIs(s[i + f..]);
    n := Numeral(minus, whole, fraction, mark, exponent);
    Rejoins(s, i, f, e);
    Associate(if minus then "-" else "", whole, FractionText(n) + (mark + exponent));
  }

  lemma Associate(a: string, b: string, c: string)
    ensures a + b + c == a + (b + c)
  {
  }

  /** The reader's numbers are exactly the grammar's. */
  lemma NumberGrammar(s: string)
    ensures IsNumber(s) <==> exists n :: Proper(n) && Spelling(n) == s
  {
    if IsNumber(s) {
      var n := NumberSpells(s);
    }
    forall n | Proper(n) && Spelling(n) == s ensures IsNumber(s) {
      SpellingReads(n);
    }
  }

  /** How each character of a text is written: seven by a letter, the other controls and five
      more by four lower-case hexadecimal digits, and everything else as it is. */
  lemma EscapeForms(c: char)
    ensures Escape('"') == ['\\', '"'] && Escape('\\') == ['\\', '\\']
    ensures Escape('\n') == ['\\', 'n'] && Escape('\r') == ['\\', 'r'] && Escape('\t') == ['\\', 't']
    ensures Escape('\U{8}') == ['\\', 'b'] && Escape('\U{c}') == ['\\', 'f']
    ensures Escape(c) == [c] <==> !MustEscape(c) && c !in "<>&\U{2028}\U{2029}"
    ensures Escape(c) != [c] && c !in "\"\\\n\r\t\U{8}\U{c}" ==>
      && |Escape(c)| == 6 && Escape(c)[..2] == ['\\', 'u'] && Hex4(Escape(c)[2..]) == Some(c as nat)
      && forall i :: 2 <= i < 6 ==> !('A' <= Escape(c)[i] <= 'F')
  {
    if Escape(c) != [c] && c !in "\"\\\n\r\t\U{8}\U{c}" {
      var text := Escape(c);
      assert text[2..] == [text[2], text[3], text[4], text[5]];
    }
  }
}
