/** Bare words of JSON, sections 3 and 6 of RFC 8259, and which of strconv's are among them. */
module JsonTokens {
  import opened Options
  import opened JsonText

  predicate IsDigit(c: char) { '0' <= c <= '9' }

  predicate AllDigits(t: string) { forall i | 0 <= i < |t| :: IsDigit(t[i]) }

  /** How many digits the text starts with. */
  function Digits(t: string): (n: nat)
    ensures n <= |t|
  {
    if t == [] || !IsDigit(t[0]) then 0 else 1 + Digits(t[1..])
  }

  predicate ExpPart(t: string) {
    t == []
    || ((t[0] == 'e' || t[0] == 'E')
        && var v := if |t| > 1 && (t[1] == '+' || t[1] == '-') then t[2..] else t[1..];
           v != [] && Digits(v) == |v|)
  }

  predicate FracPart(t: string) {
    if t != [] && t[0] == '.' then Digits(t[1..]) > 0 && ExpPart(t[1..][Digits(t[1..])..]) else ExpPart(t)
  }

  predicate Unsigned(t: string) {
    var n := Digits(t);
    n > 0 && (t[0] == '0' ==> n == 1) && FracPart(t[n..])
  }

  predicate JsonNumber(t: string) { Unsigned(if t != [] && t[0] == '-' then t[1..] else t) }

  predicate JsonToken(t: string) { t == "true" || t == "false" || t == "null" || JsonNumber(t) }

  // ---- what strconv writes ----

  /** The values the encoder writes as bare words: integers and durations, finite floats in
      either of the two shapes of format 'g', the floats that are no numbers, and booleans. */
  datatype Number =
    | Int(i: int)
    | Finite(neg: bool, whole: string, frac: string, exp: Option<(bool, string)>)
    | NotANumber
    | Infinite(neg: bool)
    | Bool(b: bool)

  /** Integers are int64 or uint64; the shortest form of a float64 stays well within these
      lengths. */
  predicate WfNumber(n: Number) {
    && (n.Int? ==> -0x8000_0000_0000_0000 <= n.i < 0x1_0000_0000_0000_0000)
    && (n.Finite? ==> |n.whole| + |n.frac| <= 24 && (n.exp.Some? ==> |n.exp.value.1| <= 3) && WfFloat(n))
  }

  predicate WfFloat(n: Number)
    requires n.Finite?
  {
    && n.whole != [] && AllDigits(n.whole) && (n.whole[0] == '0' ==> |n.whole| == 1) && AllDigits(n.frac)
    && (n.exp.Some? ==> n.exp.value.1 != [] && AllDigits(n.exp.value.1))
  }

  function Decimal(n: nat): (t: string)
    ensures t != [] && AllDigits(t) && (t[0] == '0' ==> n == 0 && |t| == 1)
  {
    var last := [('0' as int + n % 10) as char];
    if n < 10 then last else Decimal(n / 10) + last
  }

  function FracText(frac: string): string { if frac == [] then [] else "." + frac }

  function ExpText(exp: Option<(bool, string)>): string {
    match exp case None => [] case Some((neg, digits)) => "e" + (if neg then "-" else "+") + digits
  }

  function FloatText(whole: string, frac: string, exp: Option<(bool, string)>): string {
    whole + (FracText(frac) + ExpText(exp))
  }

  function Word(n: Number): string {
    match n
    case Int(i) => if i < 0 then "-" + Decimal(-i) else Decimal(i)
    case Finite(neg, whole, frac, exp) => (if neg then "-" else "") + FloatText(whole, frac, exp)
    case NotANumber => "NaN"
    case Infinite(neg) => if neg then "-Inf" else "+Inf"
    case Bool(b) => if b then "true" else "false"
  }

  lemma {:induction false} DigitsOf(d: string, rest: string)
    requires AllDigits(d) && (rest == [] || !IsDigit(rest[0]))
    ensures Digits(d + rest) == |d| && (d + rest)[|d|..] == rest
  {
    if d == [] {
      assert d + rest == rest;
    } else {
      assert (d + rest)[1..] == d[1..] + rest;
      DigitsOf(d[1..], rest);
    }
  }

  lemma ExpIsJson(exp: Option<(bool, string)>)
    requires exp.Some? ==> exp.value.1 != [] && AllDigits(exp.value.1)
    ensures ExpPart(ExpText(exp))
  {
    if exp.Some? {
      var d := exp.value.1;
      DigitsOf(d, []);
      assert d + [] == d;
      assert ExpText(exp)[2..] == d;
    }
  }

  lemma FracIsJson(frac: string, exp: Option<(bool, string)>)
    requires AllDigits(frac) && (exp.Some? ==> exp.value.1 != [] && AllDigits(exp.value.1))
    ensures FracPart(FracText(frac) + ExpText(exp))
    ensures var t := FracText(frac) + ExpText(exp); t == [] || !IsDigit(t[0])
  {
    ExpIsJson(exp);
    if frac == [] {
      assert FracText(frac) + ExpText(exp) == ExpText(exp);
    } else {
      PointThen(frac, ExpText(exp));
    }
  }

  lemma PointThen(frac: string, rest: string)
    requires frac != [] && AllDigits(frac) && ExpPart(rest)
    ensures FracPart("." + frac + rest)
  {
    DigitsOf(frac, rest);
    assert ("." + frac + rest)[1..] == frac + rest;
  }

  lemma UnsignedIsJson(whole: string, frac: string, exp: Option<(bool, string)>)
    requires whole != [] && AllDigits(whole) && (whole[0] == '0' ==> |whole| == 1) && AllDigits(frac)
    requires exp.Some? ==> exp.value.1 != [] && AllDigits(exp.value.1)
    ensures Unsigned(whole + (FracText(frac) + ExpText(exp)))
  {
    FracIsJson(frac, exp);
    DigitsOf(whole, FracText(frac) + ExpText(exp));
  }

  lemma SignedIsJson(neg: bool, t: string)
    requires Unsigned(t)
    ensures JsonNumber((if neg then "-" else "") + t)
  {
    assert ("-" + t)[1..] == t && "" + t == t;
  }

  lemma IntIsJson(i: int)
    ensures JsonNumber(Word(Int(i)))
  {
    var digits := Decimal(if i < 0 then -i else i);
    UnsignedIsJson(digits, [], None);
    assert digits + (FracText([]) + ExpText(None)) == digits;
    SignedIsJson(i < 0, digits);
    assert "" + digits == digits;
  }

  lemma FloatIsJson(n: Number)
    requires n.Finite? && WfFloat(n)
    ensures JsonNumber(Word(n))
  {
    UnsignedIsJson(n.whole, n.frac, n.exp);
    SignedIsJson(n.neg, n.whole + (FracText(n.frac) + ExpText(n.exp)));
  }

  lemma NoNumberIsNoJson(n: Number)
    requires n.NotANumber? || n.Infinite?
    ensures !JsonToken(Word(n))
  {
    if n.Infinite? {
      assert Word(n)[0] == (if n.neg then '-' else '+') && Word(n)[1] == 'I';
    } else {
      assert Word(n)[0] == 'N';
    }
  }

  /** Every bare word the encoder writes is JSON but for the floats that are no numbers. */
  lemma WordIsJson(n: Number)
    requires WfNumber(n)
    ensures JsonToken(Word(n)) <==> !n.NotANumber? && !n.Infinite?
  {
    match n
    case Int(i) => IntIsJson(i);
    case Finite(_, _, _, _) => FloatIsJson(n);
    case Bool(_) =>
    case _ => NoNumberIsNoJson(n);
  }

  // ---- words in a text ----

  predicate WordText(t: string) { forall i | 0 <= i < |t| :: TokChar(t[i]) && t[i] < 127 as char }

  function Pow10(k: nat): nat { if k == 0 then 1 else 10 * Pow10(k - 1) }

  lemma {:induction false} DecimalLength(n: nat, k: nat)
    requires k > 0 && n < Pow10(k)
    ensures |Decimal(n)| <= k
  {
    if n >= 10 { DecimalLength(n / 10, k - 1); }
  }

  /** No 64-bit integer has more than twenty digits. */
  lemma SixtyFourBits()
    ensures 0x1_0000_0000_0000_0000 <= Pow10(20)
  {
    assert Pow10(3) == 1_000;
    assert Pow10(6) == 1_000_000;
    assert Pow10(9) == 1_000_000_000;
    assert Pow10(12) == 1_000_000_000_000;
    assert Pow10(15) == 1_000_000_000_000_000;
    assert Pow10(18) == 1_000_000_000_000_000_000;
  }

  lemma IntLength(i: int)
    requires -0x8000_0000_0000_0000 <= i < 0x1_0000_0000_0000_0000
    ensures Word(Int(i)) != [] && |Word(Int(i))| <= 21 && WordText(Word(Int(i)))
  {
    NatLength(if i < 0 then -i else i);
  }

  lemma NatLength(n: nat)
    requires n < 0x1_0000_0000_0000_0000
    ensures |Decimal(n)| <= 20 && WordText(Decimal(n))
  {
    SixtyFourBits();
    DecimalLength(n, 20);
  }

  lemma FloatLength(n: Number)
    requires n.Finite? && WfNumber(n)
    ensures Word(n) != [] && |Word(n)| <= 38 && WordText(Word(n))
  {
    assert WordText(n.whole) && WordText(n.frac);
    if n.exp.Some? { assert WordText(n.exp.value.1); }
    assert WordText(FracText(n.frac)) && WordText(ExpText(n.exp));
    assert WordText(FloatText(n.whole, n.frac, n.exp));
  }

  /** No word runs into what surrounds it, and none is longer than 38 bytes. */
  lemma WordIsToken(n: Number)
    requires WfNumber(n)
    ensures WfNode(NTok(Word(n))) && |Word(n)| <= 38 && WordText(Word(n))
  {
    match n
    case Int(i) => IntLength(i);
    case Finite(_, _, _, _) => FloatLength(n);
    case _ =>
  }

  // ---- reading words ----

  /** What a word means: a sign, digits and a power of ten, or one of the other values. */
  datatype Quantity = Amount(neg: bool, digits: nat, scale: int) | NoNumber | Unbounded(neg: bool) | Truth(b: bool)

  function DigitOf(c: char): nat { if IsDigit(c) then c as int - '0' as int else 0 }

  /** The number that digits write in base ten. */
  function NumberOf(d: string): nat {
    if d == [] then 0 else 10 * NumberOf(d[..|d| - 1]) + DigitOf(d[|d| - 1])
  }

  /** The digits before and after the point, times a power of ten. */
  function Decimals(neg: bool, whole: string, frac: string, exp: int): Quantity {
    Amount(neg, NumberOf(whole + frac), exp - |frac|)
  }

  function ReadExp(t: string): Option<int> {
    if t == [] then Some(0)
    else if t[0] != 'e' && t[0] != 'E' then None
    else
      var signed := |t| > 1 && (t[1] == '+' || t[1] == '-');
      var d := if signed then t[2..] else t[1..];
      if d == [] || Digits(d) < |d| then None
      else Some(if signed && t[1] == '-' then 0 - NumberOf(d) else NumberOf(d))
  }

  function ReadFrac(neg: bool, whole: string, t: string): Option<Quantity> {
    if t != [] && t[0] == '.' then
      var m := Digits(t[1..]);
      if m == 0 then None
      else match ReadExp(t[1..][m..])
        case None => None
        case Some(e) => Some(Decimals(neg, whole, t[1..][..m], e))
    else match ReadExp(t) case None => None case Some(e) => Some(Decimals(neg, whole, [], e))
  }

  function ReadUnsigned(neg: bool, t: string): Option<Quantity> {
    var n := Digits(t);
    if n == 0 then None else ReadFrac(neg, t[..n], t[n..])
  }

  function Name(t: string): Option<Quantity> {
    if |t| == 3 && t[0] == 'N' && t[1] == 'a' && t[2] == 'N' then Some(NoNumber)
    else if |t| < 4 then None
    else if |t| == 4 && t[0] == 't' && t[1] == 'r' && t[2] == 'u' && t[3] == 'e' then Some(Truth(true))
    else if |t| == 5 && t[0] == 'f' && t[1] == 'a' && t[2] == 'l' && t[3] == 's' && t[4] == 'e' then Some(Truth(false))
    else if |t| == 4 && (t[0] == '+' || t[0] == '-') && t[1] == 'I' && t[2] == 'n' && t[3] == 'f'
    then Some(Unbounded(t[0] == '-'))
    else None
  }

  function ReadWord(t: string): Option<Quantity> {
    if Name(t).Some? then Name(t)
    else if t != [] && t[0] == '-' then ReadUnsigned(true, t[1..])
    else ReadUnsigned(false, t)
  }

  // ---- reading undoes writing ----

  /** What a number is, apart from how it is written. */
  function Meaning(n: Number): Quantity {
    match n
    case Int(i) => if i < 0 then Amount(true, -i, 0) else Amount(false, i, 0)
    case Finite(neg, whole, frac, exp) => Decimals(neg, whole, frac, ExpOf(exp))
    case NotANumber => NoNumber
    case Infinite(neg) => Unbounded(neg)
    case Bool(b) => Truth(b)
  }

  function ExpOf(exp: Option<(bool, string)>): int {
    match exp case None => 0 case Some((neg, d)) => if neg then 0 - NumberOf(d) else NumberOf(d)
  }

  /** The digits are the whole part and the fraction in one, shifted by the fraction's length. */
  lemma {:induction false} DecimalsMean(neg: bool, whole: string, frac: string, exp: int)
    ensures var q := Decimals(neg, whole, frac, exp);
      && q.neg == neg && q.scale + |frac| == exp
      && q.digits == NumberOf(whole) * Pow10(|frac|) + NumberOf(frac)
    decreases frac
  {
    if frac == [] {
      assert whole + frac == whole;
    } else {
      var front := frac[..|frac| - 1];
      DecimalsMean(neg, whole, front, exp);
      assert (whole + frac)[..|whole + frac| - 1] == whole + front;
      TenTimes(NumberOf(whole), Pow10(|front|));
    }
  }

  lemma TenTimes(a: nat, b: nat)
    ensures a * (10 * b) == 10 * (a * b)
  {
  }

  lemma {:induction false} DecimalReads(n: nat)
    ensures NumberOf(Decimal(n)) == n
  {
    var t := Decimal(n);
    if n >= 10 {
      DecimalReads(n / 10);
      assert t[..|t| - 1] == Decimal(n / 10);
    } else {
      assert t[..|t| - 1] == [] && NumberOf([]) == 0;
    }
    assert DigitOf(t[|t| - 1]) == n % 10;
  }

  lemma ExpReads(exp: Option<(bool, string)>)
    requires exp.Some? ==> exp.value.1 != [] && AllDigits(exp.value.1)
    ensures ReadExp(ExpText(exp)) == Some(ExpOf(exp))
  {
    if exp.Some? {
      var d := exp.value.1;
      DigitsOf(d, []);
      assert d + [] == d;
      assert ExpText(exp)[2..] == d;
    }
  }

  lemma FracReads(neg: bool, whole: string, frac: string, exp: Option<(bool, string)>)
    requires AllDigits(frac) && (exp.Some? ==> exp.value.1 != [] && AllDigits(exp.value.1))
    ensures ReadFrac(neg, whole, FracText(frac) + ExpText(exp))
         == Some(Decimals(neg, whole, frac, ExpOf(exp)))
  {
    ExpReads(exp);
    if frac == [] {
      NoPointReads(neg, whole, ExpText(exp));
      assert FracText(frac) + ExpText(exp) == ExpText(exp);
    } else {
      PointReads(neg, whole, frac, ExpText(exp));
    }
  }

  lemma NoPointReads(neg: bool, whole: string, rest: string)
    requires ReadExp(rest).Some?
    ensures ReadFrac(neg, whole, rest) == Some(Decimals(neg, whole, [], ReadExp(rest).value))
  {
  }

  lemma PointReads(neg: bool, whole: string, frac: string, rest: string)
    requires frac != [] && AllDigits(frac) && ReadExp(rest).Some?
    ensures ReadFrac(neg, whole, "." + frac + rest)
         == Some(Decimals(neg, whole, frac, ReadExp(rest).value))
  {
    var t := "." + frac + rest;
    DigitsOf(frac, rest);
    assert t[1..] == frac + rest;
    assert (frac + rest)[..|frac|] == frac;
  }

  lemma UnsignedReads(neg: bool, whole: string, frac: string, exp: Option<(bool, string)>)
    requires whole != [] && AllDigits(whole) && AllDigits(frac)
    requires exp.Some? ==> exp.value.1 != [] && AllDigits(exp.value.1)
    ensures ReadUnsigned(neg, whole + (FracText(frac) + ExpText(exp)))
         == Some(Decimals(neg, whole, frac, ExpOf(exp)))
  {
    var rest := FracText(frac) + ExpText(exp);
    FracIsJson(frac, exp);
    DigitsOf(whole, rest);
    assert (whole + rest)[..|whole|] == whole;
    FracReads(neg, whole, frac, exp);
  }

  lemma PositiveReads(t: string, q: Quantity)
    requires t != [] && IsDigit(t[0]) && ReadUnsigned(false, t) == Some(q)
    ensures ReadWord(t) == Some(q)
  {
    NoName(t);
  }

  lemma NegativeReads(t: string, q: Quantity)
    requires t != [] && IsDigit(t[0]) && ReadUnsigned(true, t) == Some(q)
    ensures ReadWord("-" + t) == Some(q)
  {
    var u := "-" + t;
    assert u[1..] == t && u[1] == t[0];
    NoName(u);
  }

  lemma NoName(t: string)
    requires t != [] && (IsDigit(t[0]) || (t[0] == '-' && |t| > 1 && IsDigit(t[1])))
    ensures Name(t) == None
  {
  }

  /** An integer reads back as itself, sign and value. */
  lemma IntReads(i: int)
    ensures ReadWord(Word(Int(i))) == Some(Amount(i < 0, if i < 0 then -i else i, 0))
  {
    if i < 0 {
      DecimalReads(-i);
      WholeReads(true, Decimal(-i));
      NegativeReads(Decimal(-i), Amount(true, -i, 0));
    } else {
      DecimalReads(i);
      WholeReads(false, Decimal(i));
      PositiveReads(Decimal(i), Amount(false, i, 0));
    }
  }

  lemma WholeReads(neg: bool, d: string)
    requires d != [] && AllDigits(d)
    ensures ReadUnsigned(neg, d) == Some(Amount(neg, NumberOf(d), 0))
  {
    UnsignedReads(neg, d, [], None);
    assert d + (FracText([]) + ExpText(None)) == d && d + [] == d;
  }

  lemma FloatReads(n: Number)
    requires n.Finite? && WfFloat(n)
    ensures ReadWord(Word(n)) == Some(Meaning(n))
  {
    FloatTextReads(n.neg, n.whole, n.frac, n.exp);
    SignThen(n.neg, FloatText(n.whole, n.frac, n.exp), Meaning(n), Word(n));
  }

  lemma SignThen(neg: bool, t: string, q: Quantity, w: string)
    requires t != [] && IsDigit(t[0]) && ReadUnsigned(neg, t) == Some(q)
    requires w == (if neg then "-" else "") + t
    ensures ReadWord(w) == Some(q)
  {
    if neg {
      NegativeReads(t, q);
    } else {
      assert "" + t == t;
      PositiveReads(t, q);
    }
  }

  lemma FloatTextReads(neg: bool, whole: string, frac: string, exp: Option<(bool, string)>)
    requires whole != [] && AllDigits(whole) && AllDigits(frac)
    requires exp.Some? ==> exp.value.1 != [] && AllDigits(exp.value.1)
    ensures var t := FloatText(whole, frac, exp);
      && t != [] && IsDigit(t[0])
      && ReadUnsigned(neg, t) == Some(Decimals(neg, whole, frac, ExpOf(exp)))
  {
    UnsignedReads(neg, whole, frac, exp);
    assert FloatText(whole, frac, exp)[0] == whole[0];
  }

  /** Every word reads back as what was written: sign, digits, power of ten, and the values that
      are no numbers. */
  lemma WordReads(n: Number)
    requires WfNumber(n)
    ensures ReadWord(Word(n)) == Some(Meaning(n))
  {
    match n
    case Int(i) => IntReads(i);
    case Finite(_, _, _, _) => FloatReads(n);
    case _ =>
  }
}
