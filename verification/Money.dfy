/** Exact decimals (internal/money): the one reader for amounts and quantities, and the two
    printers. */
module Money {
  import opened Wrappers
  import opened Decimal
  import Int64

  /** Go's int64: every operation on it must fit. */
  newtype int64 = x: int | Int64.MIN <= x <= Int64.MAX

  /** unicode.IsSpace. */
  predicate IsSpace(c: char) {
    || '\t' <= c <= '\r' || c == ' ' || c == '\U{85}' || c == '\U{a0}' || c == '\U{1680}'
    || '\U{2000}' <= c <= '\U{200a}' || c == '\U{2028}' || c == '\U{2029}' || c == '\U{202f}' || c == '\U{205f}' || c == '\U{3000}'
  }

  function TrimLeft(s: string): string {
    if s != "" && IsSpace(s[0]) then TrimLeft(s[1..]) else s
  }

  function TrimRight(s: string): string {
    if s != "" && IsSpace(s[|s| - 1]) then TrimRight(s[..|s| - 1]) else s
  }

  function Trim(s: string): string {
    TrimRight(TrimLeft(s))
  }

  predicate AllSpace(s: string) {
    forall i :: 0 <= i < |s| ==> IsSpace(s[i])
  }

  /** What is trimmed is space, from both ends, and all of it. */
  lemma TrimMeans(s: string)
    ensures exists a, b :: s == a + Trim(s) + b && AllSpace(a) && AllSpace(b)
    ensures Trim(s) != "" ==> !IsSpace(Trim(s)[0]) && !IsSpace(Trim(s)[|Trim(s)| - 1])
  {
    var l := TrimLeft(s);
    var a := TrimsLeft(s);
    var b := TrimsRight(l);
    assert s == a + Trim(s) + b;
  }

  lemma {:induction false} TrimsLeft(s: string) returns (a: string)
    ensures s == a + TrimLeft(s) && AllSpace(a)
    ensures TrimLeft(s) != "" ==> !IsSpace(TrimLeft(s)[0])
    decreases |s|
  {
    a := "";
    if s != "" && IsSpace(s[0]) {
      a := TrimsLeft(s[1..]);
      a := [s[0]] + a;
    }
  }

  lemma {:induction false} TrimsRight(s: string) returns (b: string)
    ensures s == TrimRight(s) + b && AllSpace(b)
    ensures TrimRight(s) != "" ==> TrimRight(s)[0] == s[0] && !IsSpace(TrimRight(s)[|TrimRight(s)| - 1])
    decreases |s|
  {
    b := "";
    if s != "" && IsSpace(s[|s| - 1]) {
      b := TrimsRight(s[..|s| - 1]);
      b := b + [s[|s| - 1]];
    }
  }

  // ---------------------------------------------------------------------------
  // The shape of a number
  // ---------------------------------------------------------------------------

  /** A decimal text taken apart; `dotted` is whether it has a point. */
  datatype Spelling = Spelling(sign: string, whole: string, dotted: bool, fraction: string)

  /** The grammar: an optional sign, digits, and optionally a point and more digits; the
      whole part may be missing only before a point. */
  predicate Proper(p: Spelling) {
    && (p.sign == "" || p.sign == "+" || p.sign == "-")
    && AllDigits(p.whole) && AllDigits(p.fraction)
    && (if p.dotted then p.fraction != "" else p.fraction == "" && p.whole != "")
  }

  function Spell(p: Spelling): string {
    p.sign + Body(p)
  }

  function Body(p: Spelling): string {
    p.whole + Tail(p)
  }

  function Tail(p: Spelling): string {
    if p.dotted then "." + p.fraction else ""
  }

  predicate AllZeros(s: string) {
    forall i :: 0 <= i < |s| ==> s[i] == '0'
  }

  /** The largest whole part accepted at a scale. */
  function WholeLimit(scale: nat): nat {
    Quotient(0x4000_0000_0000_0000, Pow10(scale))
  }

  function Quotient(n: nat, p: nat): nat
    requires p > 0
  {
    n / p
  }

  /** What the reader accepts at a scale: no digit but zero beyond it, and a whole part
      within the limit. */
  predicate Readable(p: Spelling, scale: nat)
    requires Proper(p)
  {
    && (|p.fraction| > scale ==> AllZeros(p.fraction[scale..]))
    && Value(p.whole) <= WholeLimit(scale)
  }

  /** The number a spelling denotes is this numerator over 10^|fraction|. */
  function Numerator(p: Spelling): int
    requires Proper(p)
  {
    AllDigitsConcat(p.whole, p.fraction);
    var n: int := Value(p.whole + p.fraction);
    if p.sign == "-" then -n else n
  }

  lemma AllDigitsConcat(a: string, b: string)
    requires AllDigits(a) && AllDigits(b)
    ensures AllDigits(a + b)
  {
  }

  // ---------------------------------------------------------------------------
  // The reader
  // ---------------------------------------------------------------------------

  datatype Fault = Empty | NoDigits | Exponent | NotDecimal | Precision | OutOfRange

  datatype Read = Units(value: int) | Faulty(fault: Fault)

  function IndexOf(s: string, c: char): (i: nat)
    ensures i <= |s| && (i < |s| ==> s[i] == c) && forall j :: 0 <= j < i ==> s[j] != c
  {
    if s == "" || s[0] == c then 0 else 1 + IndexOf(s[1..], c)
  }

  /** The fraction, cut to the scale and filled up to it. */
  function Filled(fraction: string, scale: nat): (f: string)
    requires AllDigits(fraction)
    ensures AllDigits(f) && |f| == scale
  {
    if |fraction| > scale then fraction[..scale] else fraction + Zeros(scale - |fraction|)
  }

  /** The reader's answer for text already taken apart. */
  function ReadSpelling(p: Spelling, scale: nat): Read
    requires Proper(p)
  {
    if |p.fraction| > scale && !AllZeros(p.fraction[scale..]) then Faulty(Precision)
    else if Value(p.whole) > WholeLimit(scale) then Faulty(OutOfRange)
    else
      var units: int := Value(p.whole) * Pow10(scale) + Value(Filled(p.fraction, scale));
      Units(if p.sign == "-" then -units else units)
  }

  function SignOf(t: string): string {
    if t != "" && (t[0] == '+' || t[0] == '-') then t[..1] else ""
  }

  /** Text taken apart at its sign and its first point. */
  function Apart(t: string): Spelling {
    ApartBody(SignOf(t), t[|SignOf(t)|..])
  }

  function ApartBody(sign: string, rest: string): Spelling {
    var i := IndexOf(rest, '.');
    Spelling(sign, rest[..i], i < |rest|, if i < |rest| then rest[i + 1..] else "")
  }

  /** What the reader answers for any text. */
  function ReadFixed(s: string, scale: nat): Read {
    var t := Trim(s);
    var rest := t[|SignOf(t)|..];
    if t == "" then Faulty(Empty)
    else if rest == "" then Faulty(NoDigits)
    else if 'e' in rest || 'E' in rest then Faulty(Exponent)
    else if !Proper(Apart(t)) then Faulty(NotDecimal)
    else ReadSpelling(Apart(t), scale)
  }

  lemma BodyApart(sign: string, rest: string)
    ensures Body(ApartBody(sign, rest)) == rest
  {
    var i := IndexOf(rest, '.');
    var p := ApartBody(sign, rest);
    if i < |rest| {
      assert Tail(p) == rest[i..] by { assert rest[i..] == [rest[i]] + rest[i + 1..]; }
    } else {
      assert Tail(p) == rest[i..];
    }
    assert rest[..i] + rest[i..] == rest;
  }

  lemma ApartSpells(t: string)
    ensures Spell(Apart(t)) == t
  {
    BodyApart(SignOf(t), t[|SignOf(t)|..]);
  }

  lemma {:induction false} IndexOfSplit(whole: string, tail: string)
    requires forall i :: 0 <= i < |whole| ==> whole[i] != '.'
    requires tail == "" || tail[0] == '.'
    ensures IndexOf(whole + tail, '.') == |whole|
    decreases |whole|
  {
    if whole == "" {
      assert whole + tail == tail;
    } else {
      assert (whole + tail)[1..] == whole[1..] + tail;
      IndexOfSplit(whole[1..], tail);
    }
  }

  lemma BodyTaken(p: Spelling)
    requires Proper(p)
    ensures ApartBody(p.sign, Body(p)) == p
  {
    forall i | 0 <= i < |p.whole| ensures p.whole[i] != '.' {
      assert IsDigit(p.whole[i]);
    }
    IndexOfSplit(p.whole, Tail(p));
    assert Body(p)[..|p.whole|] == p.whole;
    if p.dotted { assert Body(p)[|p.whole| + 1..] == p.fraction; }
  }

  lemma BodyHead(p: Spelling)
    requires Proper(p)
    ensures Body(p) != "" && (Body(p)[0] == '.' || IsDigit(Body(p)[0]))
  {
    if p.whole != "" { assert Body(p)[0] == p.whole[0] && IsDigit(p.whole[0]); }
  }

  lemma SignTaken(sign: string, body: string)
    requires sign == "" || sign == "+" || sign == "-"
    requires body != "" && (body[0] == '.' || IsDigit(body[0]))
    ensures SignOf(sign + body) == sign && (sign + body)[|sign|..] == body
  {
    if sign == "" {
      assert sign + body == body;
    } else {
      assert (sign + body)[..1] == sign;
    }
  }

  /** A text has one proper spelling. */
  lemma SpellsOnce(p: Spelling)
    requires Proper(p)
    ensures Apart(Spell(p)) == p && Spell(p)[|SignOf(Spell(p))|..] == Body(p)
  {
    BodyHead(p);
    SignTaken(p.sign, Body(p));
    BodyTaken(p);
  }

  lemma ProperHasNoExponent(p: Spelling)
    requires Proper(p)
    ensures 'e' !in Body(p) && 'E' !in Body(p)
  {
    forall c | c in Body(p) ensures IsDigit(c) || c == '.' {
      if c in p.whole {
        var i :| 0 <= i < |p.whole| && p.whole[i] == c;
        assert IsDigit(p.whole[i]);
      } else if c in p.fraction {
        var i :| 0 <= i < |p.fraction| && p.fraction[i] == c;
        assert IsDigit(p.fraction[i]);
      }
    }
  }

  /** On a properly spelled text the reader's answer is the spelling's. */
  lemma ReadSpelled(s: string, p: Spelling, scale: nat)
    requires Proper(p) && Trim(s) == Spell(p)
    ensures ReadFixed(s, scale) == ReadSpelling(p, scale)
  {
    SpellsOnce(p);
    BodyHead(p);
    ProperHasNoExponent(p);
  }

  // ---------------------------------------------------------------------------
  // The reader is exact
  // ---------------------------------------------------------------------------

  lemma {:induction false} PowAdd(a: nat, b: nat)
    ensures Pow10(a + b) == Pow10(a) * Pow10(b)
    decreases a
  {
    if a > 0 {
      PowAdd(a - 1, b);
      MulAssoc(10, Pow10(a - 1), Pow10(b));
    }
  }

  lemma MulAssoc(x: int, y: int, z: int)
    ensures (x * y) * z == x * (y * z)
  {
  }

  lemma {:induction false} ValueOfZeros(s: string)
    requires AllZeros(s)
    ensures AllDigits(s) && Value(s) == 0
    decreases |s|
  {
    if s != "" { ValueOfZeros(s[..|s| - 1]); }
  }

  lemma {:induction false} ZerosAreZeros(k: nat)
    ensures AllZeros(Zeros(k))
  {
    if k > 0 { ZerosAreZeros(k - 1); }
  }

  lemma Scaled(k: int, p: int, q: int, pq: int, v: int)
    requires pq == p * q && v == k * p
    ensures k * pq == v * q
  {
    Rearrange(k, p, q);
  }

  lemma ScaledBack(k: int, p: int, q: int, pq: int, v: int)
    requires pq == p * q && v == k * p
    ensures v * q == k * pq
  {
    Rearrange(k, p, q);
  }

  lemma CutExact(kept: string, cut: string)
    requires AllDigits(kept) && AllZeros(cut)
    ensures AllDigits(kept + cut) && Value(kept) * Pow10(|cut| + |kept|) == Value(kept + cut) * Pow10(|kept|)
  {
    ValueOfZeros(cut);
    ValueConcat(kept, cut);
    PowAdd(|cut|, |kept|);
    Scaled(Value(kept), Pow10(|cut|), Pow10(|kept|), Pow10(|cut| + |kept|), Value(kept + cut));
  }

  lemma FillExact(fraction: string, zeros: string)
    requires AllDigits(fraction) && AllZeros(zeros)
    ensures AllDigits(fraction + zeros)
    ensures Value(fraction + zeros) * Pow10(|fraction|) == Value(fraction) * Pow10(|zeros| + |fraction|)
  {
    ValueOfZeros(zeros);
    ValueConcat(fraction, zeros);
    PowAdd(|zeros|, |fraction|);
    ScaledBack(Value(fraction), Pow10(|zeros|), Pow10(|fraction|), Pow10(|zeros| + |fraction|), Value(fraction + zeros));
  }

  /** Filling or cutting the fraction keeps what it denotes. */
  lemma FilledExact(fraction: string, scale: nat)
    requires AllDigits(fraction) && (|fraction| > scale ==> AllZeros(fraction[scale..]))
    ensures Value(Filled(fraction, scale)) * Pow10(|fraction|) == Value(fraction) * Pow10(scale)
  {
    if |fraction| > scale {
      var kept, cut := fraction[..scale], fraction[scale..];
      assert fraction == kept + cut && |cut| + |kept| == |fraction|;
      CutExact(kept, cut);
    } else {
      var zeros := Zeros(scale - |fraction|);
      ZerosAreZeros(scale - |fraction|);
      FillExact(fraction, zeros);
    }
  }

  lemma Rearrange(v: int, p: int, q: int)
    ensures v * (p * q) == (v * p) * q
  {
  }

  lemma Distribute(w: int, p: int, f: int, q: int)
    ensures (w * p + f) * q == (w * q) * p + f * q
  {
  }

  lemma CrossMultiply(w: int, f: int, g: int, P: int, Q: int)
    requires g * Q == f * P
    ensures (w * P + g) * Q == (w * Q + f) * P
  {
    Distribute(w, P, g, Q);
    Distribute(w, Q, f, P);
    Rearrange(w, P, Q);
    Rearrange(w, Q, P);
  }

  /** The units returned, over the scale, are the number the text denotes. */
  lemma ReadingExact(p: Spelling, scale: nat)
    requires Proper(p) && ReadSpelling(p, scale).Units?
    ensures ReadSpelling(p, scale).value * Pow10(|p.fraction|) == Numerator(p) * Pow10(scale)
  {
    var w, f, g := Value(p.whole), Value(p.fraction), Value(Filled(p.fraction, scale));
    FilledExact(p.fraction, scale);
    ValueConcat(p.whole, p.fraction);
    CrossMultiply(w, f, g, Pow10(scale), Pow10(|p.fraction|));
    Negate(w * Pow10(scale) + g, Pow10(|p.fraction|));
    Negate(w * Pow10(|p.fraction|) + f, Pow10(scale));
  }

  lemma Negate(x: int, y: int)
    ensures (-x) * y == -(x * y)
  {
  }

  lemma Powers()
    ensures Pow10(4) == 10_000 && Pow10(8) == 100_000_000
    ensures WholeLimit(4) == 461_168_601_842_738 && WholeLimit(8) == 46_116_860_184
  {
    PowAdd(4, 4);
    assert Pow10(2) == 100 && Pow10(4) == 10_000;
  }

  /** Within the whole part's limit nothing can overflow. */
  lemma ReadingFits(p: Spelling, scale: nat)
    requires Proper(p) && (scale == 4 || scale == 8) && ReadSpelling(p, scale).Units?
    ensures -Int64.QUANTITY_MAX <= ReadSpelling(p, scale).value <= Int64.QUANTITY_MAX
  {
    Powers();
    ValueBound(Filled(p.fraction, scale));
    if scale == 4 {
      MulBound(Value(p.whole), WholeLimit(4), Pow10(4));
    } else {
      MulBound(Value(p.whole), WholeLimit(8), Pow10(8));
    }
  }

  lemma MulBound(x: nat, limit: nat, p: nat)
    requires x <= limit
    ensures 0 <= x * p <= limit * p
  {
  }

  lemma ReadsSpelling(s: string, p: Spelling, scale: nat)
    requires (scale == 4 || scale == 8) && Proper(p) && Trim(s) == Spell(p) && Readable(p, scale)
    ensures ReadFixed(s, scale).Units? && Int64.Fits(ReadFixed(s, scale).value)
    ensures ReadFixed(s, scale).value * Pow10(|p.fraction|) == Numerator(p) * Pow10(scale)
  {
    ReadSpelled(s, p, scale);
    ReadingExact(p, scale);
    ReadingFits(p, scale);
  }

  lemma AcceptedIsSpelled(s: string, scale: nat)
    requires (scale == 4 || scale == 8) && ReadFixed(s, scale).Units?
    ensures exists p :: Proper(p) && Trim(s) == Spell(p) && Readable(p, scale)
  {
    ApartSpells(Trim(s));
    assert Readable(Apart(Trim(s)), scale);
  }

  /** The reader accepts exactly the decimal texts of the grammar whose digits beyond the
      scale are zeros and whose whole part is within the limit, on any text; and what it
      returns is exactly the number denoted. */
  lemma ReadExactly(s: string, scale: nat)
    requires scale == 4 || scale == 8
    ensures ReadFixed(s, scale).Units? <==> exists p :: Proper(p) && Trim(s) == Spell(p) && Readable(p, scale)
    ensures forall p :: Proper(p) && Trim(s) == Spell(p) && Readable(p, scale) ==>
      && Int64.Fits(ReadFixed(s, scale).value)
      && ReadFixed(s, scale).value * Pow10(|p.fraction|) == Numerator(p) * Pow10(scale)
  {
    if ReadFixed(s, scale).Units? { AcceptedIsSpelled(s, scale); }
    forall p | Proper(p) && Trim(s) == Spell(p) && Readable(p, scale)
      ensures ReadFixed(s, scale).Units? && Int64.Fits(ReadFixed(s, scale).value)
      ensures ReadFixed(s, scale).value * Pow10(|p.fraction|) == Numerator(p) * Pow10(scale)
    {
      ReadsSpelling(s, p, scale);
    }
  }

  /** strconv.ParseInt of a run of digits. */
  method ParseInt(digits: string) returns (n: Option<int64>)
    requires digits != "" && AllDigits(digits)
    ensures n.Some? <==> Value(digits) <= Int64.MAX
    ensures n.Some? ==> n.value as int == Value(digits)
  {
    var total := 0;
    for i := 0 to |digits|
      invariant total == Value(digits[..i])
    {
      assert digits[..i + 1][..i] == digits[..i];
      total := total * 10 + DigitValue(digits[i]);
    }
    assert digits[..|digits|] == digits;
    if total > Int64.MAX { return None; }
    return Some(total as int64);
  }

  method Digital(s: string) returns (ok: bool)
    ensures ok <==> s != "" && AllDigits(s)
  {
    if s == "" { return false; }
    for i := 0 to |s|
      invariant AllDigits(s[..i])
    {
      if s[i] < '0' || s[i] > '9' { return false; }
      assert s[..i + 1] == s[..i] + [s[i]];
    }
    assert s[..|s|] == s;
    return true;
  }

  lemma PowStep(i: nat, scale: nat)
    requires (scale == 4 || scale == 8) && i < scale
    ensures Pow10(i + 1) == 10 * Pow10(i) <= 100_000_000
  {
    PowAdd(scale - i - 1, i + 1);
    Powers();
    MulAtLeast(Pow10(scale - i - 1), Pow10(i + 1));
  }

  lemma MulAtLeast(x: int, y: int)
    requires x >= 1 && y >= 0
    ensures x * y >= y
  {
  }

  /** What the checks on the two halves establish together. */
  lemma ProperExactly(sign: string, rest: string)
    requires rest != "" && (sign == "" || sign == "+" || sign == "-")
    ensures var p := ApartBody(sign, rest);
      Proper(p) <==> AllDigits(p.whole) && (p.dotted ==> p.fraction != "" && AllDigits(p.fraction))
  {
    var p := ApartBody(sign, rest);
    if !p.dotted { assert rest[..|rest|] == rest; }
  }

  /** The accumulation, which stays within int64 for every text. */
  method Assemble(p: Spelling, scale: nat) returns (r: Read)
    requires Proper(p) && (scale == 4 || scale == 8)
    requires |p.fraction| > scale ==> AllZeros(p.fraction[scale..])
    ensures r == ReadSpelling(p, scale)
  {
    Powers();
    var units := ParseInt(if p.whole == "" then "0" else p.whole);
    if units.None? { return Faulty(OutOfRange); }
    assert units.value as int == Value(p.whole) by { assert Value("0") == 0; }
    var multiplier: int64 := 1;
    for i := 0 to scale
      invariant multiplier as int == Pow10(i)
    {
      PowStep(i, scale);
      multiplier := multiplier * 10;
    }
    if units.value > 0x4000_0000_0000_0000 / multiplier { return Faulty(OutOfRange); }
    var fractionUnits := ParseInt(Filled(p.fraction, scale));
    ValueBound(Filled(p.fraction, scale));
    MulBound(units.value as int, WholeLimit(scale), Pow10(scale));
    var total := units.value * multiplier + fractionUnits.value;
    if p.sign == "-" { total := -total; }
    return Units(total as int);
  }

  /** The shared reader, step by step. */
  method ParseFixed(s: string, scale: nat) returns (r: Read)
    requires scale == 4 || scale == 8
    ensures r == ReadFixed(s, scale)
  {
    var t := Trim(s);
    if t == "" { return Faulty(Empty); }
    var sign := SignOf(t);
    var rest := t[|sign|..];
    if rest == "" { return Faulty(NoDigits); }
    if 'e' in rest || 'E' in rest { return Faulty(Exponent); }
    var p := ApartBody(sign, rest);
    ProperExactly(sign, rest);
    var wholeOK := Digital(if p.whole == "" then "0" else p.whole);
    var fractionOK := Digital(p.fraction);
    if !wholeOK || (p.dotted && !fractionOK) { return Faulty(NotDecimal); }
    if |p.fraction| > scale && !AllZeros(p.fraction[scale..]) { return Faulty(Precision); }
    r := Assemble(p, scale);
  }

  // ---------------------------------------------------------------------------
  // The printers
  // ---------------------------------------------------------------------------

  /** `%d` of an int64, whose quotient and remainder may be negative for the one value that
      has no positive counterpart. */
  function Printed(n: int): string {
    if n < 0 then "-" + Digits(-n) else Digits(n)
  }

  /** The magnitude the printers work on: the smallest int64 negates to itself. */
  function Magnitude(a: int): int
    requires Int64.Fits(a)
  {
    if a < 0 then Int64.Wrap(-a) else a
  }

  function SignText(a: int): string {
    if a < 0 then "-" else ""
  }

  /** Amount.String. */
  function AmountText(a: int): string
    requires Int64.Fits(a)
  {
    var m := Magnitude(a);
    if m >= 0 then SignText(a) + (Digits(m / 10_000) + ("." + Padded(m % 10_000, 4)))
    else SignText(a) + (Printed(-(-m / 10_000)) + ("." + Printed(-(-m % 10_000))))
  }

  function TrimZeros(s: string): (r: string)
    requires AllDigits(s)
    ensures AllDigits(r) && |r| <= |s| && r == s[..|r|] && AllZeros(s[|r|..])
  {
    if s != "" && s[|s| - 1] == '0' then TrimZeros(s[..|s| - 1]) else s
  }

  /** Quantity.String: no trailing zeros. */
  function QuantityText(q: int): string
    requires Int64.Fits(q)
  {
    var m := Magnitude(q);
    if m >= 0 then
      if m % 100_000_000 == 0 then SignText(q) + Digits(m / 100_000_000)
      else SignText(q) + (Digits(m / 100_000_000) + ("." + TrimZeros(Padded(m % 100_000_000, 8))))
    else
      SignText(q) + (Printed(-(-m / 100_000_000)) + ("." + Printed(-(-m % 100_000_000))))
  }

  lemma NotSpace(c: char)
    requires IsDigit(c) || c == '-' || c == '+' || c == '.'
    ensures !IsSpace(c)
  {
  }

  lemma {:induction false} TrimKeeps(s: string)
    requires s != "" && !IsSpace(s[0]) && !IsSpace(s[|s| - 1])
    ensures Trim(s) == s
  {
  }

  lemma SpelledTrims(p: Spelling)
    requires Proper(p)
    ensures Trim(Spell(p)) == Spell(p)
  {
    BodyHead(p);
    BodyLast(p);
    var s := Spell(p);
    assert s[|s| - 1] == Body(p)[|Body(p)| - 1];
    assert s[0] == if p.sign == "" then Body(p)[0] else p.sign[0];
    NotSpace(s[0]);
    NotSpace(s[|s| - 1]);
    TrimKeeps(s);
  }

  lemma BodyLast(p: Spelling)
    requires Proper(p)
    ensures Body(p) != "" && IsDigit(Body(p)[|Body(p)| - 1])
  {
    if p.dotted {
      assert Body(p)[|Body(p)| - 1] == p.fraction[|p.fraction| - 1];
    } else {
      assert Body(p) == p.whole;
    }
  }

  lemma AmountSpelled(a: int)
    requires Int64.Fits(a) && a != Int64.MIN
    ensures var m := if a < 0 then -a else a;
      var p := Spelling(SignText(a), Digits(m / 10_000), true, Padded(m % 10_000, 4));
      AmountText(a) == Spell(p) && Proper(p) && |p.fraction| == 4 && Value(p.whole) == m / 10_000 && Value(p.fraction) == m % 10_000
  {
    var m := if a < 0 then -a else a;
    Powers();
    DigitsLength(m % 10_000, 4);
    ValueOfDigits(m / 10_000);
    ValueOfPadded(m % 10_000, 4);
  }

  lemma ReadWithin(s: string, scale: nat)
    requires (scale == 4 || scale == 8) && ReadFixed(s, scale).Units?
    ensures -Int64.QUANTITY_MAX <= ReadFixed(s, scale).value <= Int64.QUANTITY_MAX
  {
    ReadingFits(Apart(Trim(s)), scale);
  }

  lemma MinReads(s: string, scale: nat)
    requires scale == 4 || scale == 8
    ensures ReadFixed(s, scale) != Units(Int64.MIN)
  {
    if ReadFixed(s, scale).Units? { ReadWithin(s, scale); }
  }

  /** What a text printed from a magnitude's two halves reads back as. */
  lemma PrintedReads(s: string, p: Spelling, scale: nat, m: int)
    requires m >= 0 && (scale == 4 || scale == 8) && Proper(p) && s == Spell(p) && |p.fraction| <= scale
    requires Value(p.whole) == m / Pow10(scale) && Value(Filled(p.fraction, scale)) == m % Pow10(scale)
    ensures ReadFixed(s, scale) ==
      if m / Pow10(scale) > WholeLimit(scale) then Faulty(OutOfRange) else Units(if p.sign == "-" then -m else m)
  {
    SpelledTrims(p);
    ReadSpelled(s, p, scale);
    SpellingIs(p, scale, m, Pow10(scale));
  }

  lemma SpellingIs(p: Spelling, scale: nat, m: int, unit: nat)
    requires m >= 0 && unit > 0 && unit == Pow10(scale) && Proper(p) && |p.fraction| <= scale
    requires Value(p.whole) == m / unit && Value(Filled(p.fraction, scale)) == m % unit
    ensures ReadSpelling(p, scale) == if m / unit > WholeLimit(scale) then Faulty(OutOfRange) else Units(if p.sign == "-" then -m else m)
  {
    DivMod(m, unit);
  }

  lemma DivMod(m: nat, p: nat)
    requires p > 0
    ensures m / p * p + m % p == m
  {
  }

  /** Reading a printed amount gives it back exactly when its magnitude is within the
      reader's range, which is about half of int64. */
  lemma AmountRoundTrip(a: int)
    requires Int64.Fits(a)
    ensures ReadFixed(AmountText(a), 4) == Units(a) <==> -Int64.AMOUNT_MAX <= a <= Int64.AMOUNT_MAX
  {
    Powers();
    if a == Int64.MIN {
      MinReads(AmountText(a), 4);
    } else {
      var m := if a < 0 then -a else a;
      var p := Spelling(SignText(a), Digits(m / 10_000), true, Padded(m % 10_000, 4));
      AmountSpelled(a);
      FullFraction(p.fraction, 4);
      PrintedReads(AmountText(a), p, 4, m);
    }
  }

  lemma FullFraction(f: string, scale: nat)
    requires AllDigits(f) && |f| == scale
    ensures Filled(f, scale) == f
  {
    assert f + Zeros(0) == f;
  }

  lemma {:induction false} SameZeros(a: string, b: string)
    requires AllZeros(a) && AllZeros(b) && |a| == |b|
    ensures a == b
  {
  }

  /** Trimming trailing zeros and filling them up again. */
  lemma TrimThenFill(f: string, scale: nat)
    requires AllDigits(f) && |f| == scale
    ensures Filled(TrimZeros(f), scale) == f
  {
    var t := TrimZeros(f);
    assert f == t + f[|t|..];
    ZerosAreZeros(scale - |t|);
    SameZeros(Zeros(scale - |t|), f[|t|..]);
  }

  lemma {:induction false} TrimLeavesDigit(f: string)
    requires AllDigits(f) && Value(f) > 0
    ensures TrimZeros(f) != ""
    decreases |f|
  {
    if f != "" && f[|f| - 1] == '0' { TrimLeavesDigit(f[..|f| - 1]); }
  }

  lemma QuantitySpelled(q: int) returns (p: Spelling)
    requires Int64.Fits(q) && q != Int64.MIN
    ensures var m := if q < 0 then -q else q;
      && QuantityText(q) == Spell(p) && Proper(p) && p.sign == SignText(q) && |p.fraction| <= 8
      && Value(p.whole) == m / 100_000_000 && Value(Filled(p.fraction, 8)) == m % 100_000_000
  {
    var m := if q < 0 then -q else q;
    var f := m % 100_000_000;
    Powers();
    ValueOfDigits(m / 100_000_000);
    if f == 0 {
      p := Spelling(SignText(q), Digits(m / 100_000_000), false, "");
      assert Body(p) == p.whole;
      ZerosAreZeros(8);
      ValueOfZeros(Zeros(8));
      assert "" + Zeros(8) == Zeros(8);
    } else {
      DigitsLength(f, 8);
      ValueOfPadded(f, 8);
      TrimThenFill(Padded(f, 8), 8);
      TrimLeavesDigit(Padded(f, 8));
      p := Spelling(SignText(q), Digits(m / 100_000_000), true, TrimZeros(Padded(f, 8)));
    }
  }

  /** The same for quantities, trailing zeros and all. */
  lemma QuantityRoundTrip(q: int)
    requires Int64.Fits(q)
    ensures ReadFixed(QuantityText(q), 8) == Units(q) <==> -Int64.QUANTITY_MAX <= q <= Int64.QUANTITY_MAX
  {
    Powers();
    if q == Int64.MIN {
      MinReads(QuantityText(q), 8);
    } else {
      var p := QuantitySpelled(q);
      PrintedReads(QuantityText(q), p, 8, if q < 0 then -q else q);
    }
  }

  // ---------------------------------------------------------------------------
  // How they are printed
  // ---------------------------------------------------------------------------

  /** The whole part as people write it, and a sign only when it is needed. */
  predicate Plain(p: Spelling, a: int) {
    && p.sign == (if a < 0 then "-" else "")
    && p.whole != "" && (|p.whole| > 1 ==> p.whole[0] != '0')
  }

  lemma PlainWhole(n: nat)
    ensures Digits(n) != "" && (|Digits(n)| > 1 ==> Digits(n)[0] != '0')
  {
    if n > 0 { NoLeadingZero(n); }
  }

  /** An amount is printed with exactly four decimals; with the value read back, that leaves
      one text for it. */
  lemma AmountPrinted(a: int)
    requires Int64.Fits(a) && a != Int64.MIN
    ensures exists p :: AmountText(a) == Spell(p) && Proper(p) && Plain(p, a) && p.dotted && |p.fraction| == 4
  {
    var m := if a < 0 then -a else a;
    var p := Spelling(SignText(a), Digits(m / 10_000), true, Padded(m % 10_000, 4));
    AmountSpelled(a);
    PlainWhole(m / 10_000);
    assert AmountText(a) == Spell(p) && Plain(p, a);
  }

  /** A quantity with as many decimals as it needs, and no point when it needs none. */
  lemma QuantityPrinted(q: int)
    requires Int64.Fits(q) && q != Int64.MIN
    ensures exists p :: QuantityText(q) == Spell(p) && Proper(p) && Plain(p, q) && |p.fraction| <= 8
                        && (p.dotted ==> p.fraction != "" && p.fraction[|p.fraction| - 1] != '0')
  {
    var m := if q < 0 then -q else q;
    var f := m % 100_000_000;
    PlainWhole(m / 100_000_000);
    if f == 0 {
      var p := Spelling(SignText(q), Digits(m / 100_000_000), false, "");
      assert Body(p) == p.whole;
      assert QuantityText(q) == Spell(p) && Plain(p, q);
    } else {
      Powers();
      DigitsLength(f, 8);
      ValueOfPadded(f, 8);
      TrimLeavesDigit(Padded(f, 8));
      TrimmedLast(Padded(f, 8));
      var p := Spelling(SignText(q), Digits(m / 100_000_000), true, TrimZeros(Padded(f, 8)));
      assert QuantityText(q) == Spell(p) && Plain(p, q);
    }
  }

  lemma {:induction false} TrimmedLast(f: string)
    requires AllDigits(f)
    ensures TrimZeros(f) != "" ==> TrimZeros(f)[|TrimZeros(f)| - 1] != '0'
    decreases |f|
  {
    if f != "" && f[|f| - 1] == '0' { TrimmedLast(f[..|f| - 1]); }
  }
}
