/** What a number of a JSON text stands for: the numerals of RFC 8259 section 6, and `parse_number` of
    `gbcom_common/json/cjson.c` on them. */
module CJsonNumber {
  import opened CText
  import opened CJson
  import opened CJsonRoundTrip

  datatype Sign = Unsigned | Positive | Negative

  /** An exponent with its letter, or none. */
  datatype Exponential = NoExponent | Exponential(letter: Byte, sign: Sign, digits: Text)

  /** A fraction without digits is left out with its dot. */
  datatype Numeral = Numeral(negative: bool, whole: Text, fraction: Text, exponent: Exponential)

  predicate AllDigits(t: Text) {
    forall k :: 0 <= k < |t| ==> 48 <= t[k] <= 57
  }

  /** No leading zeros. */
  predicate IsNumeral(n: Numeral) {
    && n.whole != [] && AllDigits(n.whole) && (n.whole[0] == 48 ==> |n.whole| == 1) && AllDigits(n.fraction)
    && (n.exponent.Exponential? ==>
          n.exponent.letter in [69, 101] && n.exponent.digits != [] && AllDigits(n.exponent.digits))
  }

  function SignText(s: Sign): Text {
    match s
    case Unsigned => []
    case Positive => [43]
    case Negative => [45]
  }

  function ExponentText(e: Exponential): Text {
    match e
    case NoExponent => []
    case Exponential(letter, sign, digits) => [letter] + (SignText(sign) + digits)
  }

  function FractionText(t: Text): Text {
    if t == [] then [] else [46] + t
  }

  function NumeralText(n: Numeral): Text {
    (if n.negative then [45] else []) + (n.whole + (FractionText(n.fraction) + ExponentText(n.exponent)))
  }

  // ---------- what it stands for ----------

  /** A digit has ten times the worth of the one behind it. */
  function Places(t: Text): int {
    if t == [] then 0 else 10 * Places(t[..|t| - 1]) + (t[|t| - 1] as int - 48)
  }

  function TenTo(n: nat): (r: real)
    ensures r > 0.0
  {
    if n == 0 then 1.0 else TenTo(n - 1) * 10.0
  }

  function ExponentOf(e: Exponential): int {
    match e
    case NoExponent => 0
    case Exponential(_, sign, digits) => if sign == Negative then -Places(digits) else Places(digits)
  }

  /** All digits as an integer, with the point moved left for the fraction and then by the exponent. */
  function NumeralValue(n: Numeral): real {
    var m := Places(n.whole + n.fraction) as real;
    var e := ExponentOf(n.exponent) - |n.fraction|;
    var v := if e >= 0 then m * TenTo(e) else m / TenTo(-e);
    if n.negative then -v else v
  }

  // ---------- the parser's arithmetic ----------

  lemma {:induction false} PowerIs(n: nat)
    ensures Pow10(n) == TenTo(n) && Pow10(-(n as int)) == 1.0 / TenTo(n)
  {
    if n > 0 {
      PowerIs(n - 1);
      Tenth(TenTo(n - 1));
    }
  }

  lemma Tenth(x: real)
    requires x > 0.0
    ensures 1.0 / x / 10.0 == 1.0 / (x * 10.0)
  {
    var y := 1.0 / x / 10.0;
    assert y * (x * 10.0) == 1.0;
  }

  lemma ScaledIs(negative: bool, m: int, e: int)
    ensures Scaled(if negative then -1.0 else 1.0, m, e)
      == var v := if e >= 0 then (m as real) * TenTo(e) else (m as real) / TenTo(-e);
         if negative then -v else v
  {
    PowerIs(if e >= 0 then e else -e);
    if e < 0 { Share(m as real, TenTo(-e)); }
  }

  lemma Share(m: real, t: real)
    requires t > 0.0
    ensures m * (1.0 / t) == m / t
  {
  }

  /** Reading digits on top of a number. */
  lemma {:induction false} ValueIsPlaces(t: Text, n: int)
    requires AllDigits(t)
    ensures DigitsValue(t, 0, n) == n * TenInt(|t|) + Places(t) && DigitsEnd(t, 0) == |t|
    decreases |t|
  {
    if t == [] {
      assert DigitsValue(t, 0, n) == n;
    } else {
      var u, c := t[..|t| - 1], t[|t| - 1];
      ValueIsPlaces(u, n);
      assert t == u + [c];
      assert Here(t, 0, u);
      DigitsSkipped(t, 0, u, n);
      assert At(t, |u|) == c && At(t, |t|) == 0;
      var v := DigitsValue(u, 0, n);
      assert DigitsValue(t, |u|, v) == DigitsValue(t, |t|, v * 10 + (c as int - 48)) == v * 10 + (c as int - 48);
      assert DigitsEnd(t, |u|) == DigitsEnd(t, |t|) == |t|;
      TimesTen(n, TenInt(|u|));
    }
  }

  function TenInt(n: nat): int {
    if n == 0 then 1 else TenInt(n - 1) * 10
  }

  lemma TimesTen(n: int, t: int)
    ensures (n * t) * 10 == n * (t * 10)
  {
  }

  lemma {:induction false} PlacesAppend(t: Text, u: Text)
    ensures Places(t + u) == Places(t) * TenInt(|u|) + Places(u)
    decreases |u|
  {
    if u == [] {
      assert t + u == t;
    } else {
      var w := u[..|u| - 1];
      assert (t + u)[..|t + u| - 1] == t + w;
      PlacesAppend(t, w);
      TimesTen(Places(t), TenInt(|w|));
    }
  }

  /** Digits that stand in a text, with none behind them. */
  lemma DigitsHere(s: Text, i: nat, t: Text, n: int)
    requires Here(s, i, t) && AllDigits(t) && !IsDigit(At(s, i + |t|))
    ensures DigitsEnd(s, i) == i + |t| && DigitsValue(s, i, n) == n * TenInt(|t|) + Places(t)
  {
    DigitsSkipped(s, i, t, n);
    ValueIsPlaces(t, n);
  }

  // ---------- the parts of a numeral ----------

  lemma WholeRead(s: Text, i: nat, t: Text)
    requires Here(s, i, t) && t != [] && AllDigits(t) && (t[0] == 48 ==> |t| == 1) && !IsDigit(At(s, i + |t|))
    ensures IntegerPart(s, i) == (Places(t), i + |t|) && StartsNumber(At(s, i)) && At(s, i) != MINUS
  {
    hide Here;
    HereByte(s, i, t, 0);
    DigitsHere(s, i, t, 0);
    if t[0] == 48 {
      assert t == [48];
      assert [48][..0] == [];
      assert Places(t) == 0;
    }
  }

  lemma ExponentRead(s: Text, i: nat, e: Exponential)
    requires Here(s, i, ExponentText(e)) && EndsNumber(At(s, i + |ExponentText(e)|))
    requires e.Exponential? ==> e.letter in [69, 101] && e.digits != [] && AllDigits(e.digits)
    ensures Exponent(s, i) == (ExponentOf(e), i + |ExponentText(e)|)
    ensures !IsDigit(At(s, i)) && At(s, i) != DOT
  {
    hide Here, DigitsValue, DigitsEnd, Places;
    if e.Exponential? {
      var sign, d := SignText(e.sign), e.digits;
      HereParts(s, i, [e.letter], sign + d);
      HereByte(s, i, [e.letter], 0);
      HereParts(s, i + 1, sign, d);
      var j := i + 1 + |sign|;
      HereByte(s, j, d, 0);
      if sign != [] { HereByte(s, i + 1, sign, 0); }
      DigitsHere(s, j, d, 0);
      Nothing(TenInt(|d|));
    }
  }

  lemma Nothing(t: int)
    ensures 0 * t == 0
  {
  }

  /** The steps of `parse_number`, out of what each of them reads. */
  lemma NumberSteps(s: Text, i: nat, negative: bool, a: int, k: nat, m: int, l: nat, e: int, end: nat)
    requires StartsNumber(At(s, i)) && negative == (At(s, i) == MINUS)
    requires IntegerPart(s, if negative then i + 1 else i) == (a, k) && Exponent(s, l) == (e, end) && k <= l
    requires if At(s, k) == DOT then IsDigit(At(s, k + 1)) && DigitsValue(s, k + 1, a) == m && DigitsEnd(s, k + 1) == l
             else m == a && l == k
    ensures NumberAt(s, i)
      == Ok(Number(Scaled(if negative then -1.0 else 1.0, m, if At(s, k) == DOT then e - (l - (k + 1)) else e)), end)
  {
    hide IntegerPart, Exponent, DigitsValue, DigitsEnd, Scaled;
  }

  lemma FractionRead(s: Text, k: nat, t: Text, a: int)
    requires t != [] && AllDigits(t) && Here(s, k, [46] + t) && !IsDigit(At(s, k + 1 + |t|))
    ensures At(s, k) == DOT && IsDigit(At(s, k + 1)) && DigitsEnd(s, k + 1) == k + 1 + |t|
    ensures DigitsValue(s, k + 1, a) == a * TenInt(|t|) + Places(t)
  {
    hide Here, DigitsValue, DigitsEnd, Places;
    HereParts(s, k, [46], t);
    HereByte(s, k, [46], 0);
    HereByte(s, k + 1, t, 0);
    DigitsHere(s, k + 1, t, a);
  }

  lemma SignRead(s: Text, i: nat, negative: bool, rest: Text)
    requires Here(s, i, (if negative then [45] else []) + rest)
    ensures Here(s, if negative then i + 1 else i, rest) && (negative ==> At(s, i) == MINUS)
  {
    hide Here;
    HereParts(s, i, if negative then [45] else [], rest);
    if negative { HereByte(s, i, [45], 0); }
  }

  lemma NumeralScaled(n: Numeral)
    ensures NumeralValue(n)
      == Scaled(if n.negative then -1.0 else 1.0, Places(n.whole + n.fraction), ExponentOf(n.exponent) - |n.fraction|)
  {
    hide Places, ExponentOf, Scaled;
    ScaledIs(n.negative, Places(n.whole + n.fraction), ExponentOf(n.exponent) - |n.fraction|);
  }

  lemma NumeralSize(n: Numeral)
    ensures |NumeralText(n)|
      == (if n.negative then 1 else 0) + |n.whole| + |FractionText(n.fraction)| + |ExponentText(n.exponent)|
    ensures |FractionText(n.fraction)| == if n.fraction == [] then 0 else 1 + |n.fraction|
  {
  }

  /** Behind the sign: the digits in front of the point and behind it, and the exponent. */
  lemma DigitsRead(s: Text, j: nat, n: Numeral)
    requires IsNumeral(n) && Here(s, j, n.whole + (FractionText(n.fraction) + ExponentText(n.exponent)))
    requires EndsNumber(At(s, j + |n.whole| + |FractionText(n.fraction)| + |ExponentText(n.exponent)|))
    ensures StartsNumber(At(s, j)) && At(s, j) != MINUS
    ensures var k, f, e := j + |n.whole|, FractionText(n.fraction), ExponentText(n.exponent);
            var m := Places(n.whole + n.fraction);
            && IntegerPart(s, j) == (Places(n.whole), k)
            && Exponent(s, k + |f|) == (ExponentOf(n.exponent), k + |f| + |e|)
            && if n.fraction == [] then At(s, k) != DOT && m == Places(n.whole) && |f| == 0
               else At(s, k) == DOT && IsDigit(At(s, k + 1)) && DigitsValue(s, k + 1, Places(n.whole)) == m && DigitsEnd(s, k + 1) == k + |f|
  {
    hide Here, IntegerPart, Exponent, DigitsValue, DigitsEnd, ExponentText, Places, ExponentOf, TenInt;
    NumeralSize(n);
    var f, e := FractionText(n.fraction), ExponentText(n.exponent);
    HereParts(s, j, n.whole, f + e);
    var k := j + |n.whole|;
    HereParts(s, k, f, e);
    ExponentRead(s, k + |f|, n.exponent);
    if n.fraction == [] {
      assert n.whole + n.fraction == n.whole;
    } else {
      FractionRead(s, k, n.fraction, Places(n.whole));
      PlacesAppend(n.whole, n.fraction);
    }
    WholeRead(s, j, n.whole);
  }

  /** A numeral of the standard is read as the number it stands for, and nothing behind it is. */
  lemma NumeralRead(s: Text, i: nat, n: Numeral)
    requires IsNumeral(n) && Here(s, i, NumeralText(n)) && EndsNumber(At(s, i + |NumeralText(n)|))
    ensures StartsNumber(At(s, i))
    ensures NumberAt(s, i) == Ok(Number(NumeralValue(n)), i + |NumeralText(n)|)
  {
    hide Here, IntegerPart, Exponent, DigitsValue, DigitsEnd, ExponentText, Places, Scaled, NumberAt, ExponentOf, NumeralValue, TenInt;
    NumeralSize(n);
    NumeralScaled(n);
    var f, e := FractionText(n.fraction), ExponentText(n.exponent);
    SignRead(s, i, n.negative, n.whole + (f + e));
    var j := if n.negative then i + 1 else i;
    DigitsRead(s, j, n);
    var k := j + |n.whole|;
    var m := Places(n.whole + n.fraction);
    NumberSteps(s, i, n.negative, Places(n.whole), k, m, k + |f|, ExponentOf(n.exponent), k + |f| + |e|);
  }
}
