/** The unescaped string is the UTF-8 encoding of the text that a string literal denotes.
    Literals are built as RFC 8259 section 7 builds them; the decoder is that of RFC 3629
    section 3. */
module CJsonUnicode {
  import opened CText
  import opened CJson

  datatype Option<+T> = None | Some(value: T)

  const LOWER_HEX: Text := [48, 49, 50, 51, 52, 53, 54, 55, 56, 57, 97, 98, 99, 100, 101, 102]
  const UPPER_HEX: Text := [48, 49, 50, 51, 52, 53, 54, 55, 56, 57, 65, 66, 67, 68, 69, 70]

  /** The letters of the two-character escapes and the characters they stand for, in the order of
      RFC 8259 section 7. */
  const SHORT_LETTERS: Text := [34, 92, 47, 98, 102, 110, 114, 116]
  const SHORT_CHARACTERS: Text := [34, 92, 47, 8, 12, 10, 13, 9]

  /** Four hexadecimal digits, each in lower or upper case. */
  datatype Digits = Digits(value: nat, upper: (bool, bool, bool, bool))

  /** A piece of a literal. The first four are those of the standard: a character as itself, as a
      two-character escape, as `\uXXXX`, or as two such escapes holding a surrogate pair. The others
      it does not define, and the parser takes them: any other escaped character stands for itself,
      and escapes of zero or of surrogates that make no pair for nothing. */
  datatype Unit =
    | Plain(cp: nat)
    | Short(letter: nat)
    | Basic(d: Digits)
    | Pair(high: Digits, low: Digits)
    | Other(cp: nat)
    | Void(d: Digits)
    | Broken(high: Digits, d: Digits)
    | Alone(high: Digits)

  predicate IsScalar(cp: nat) {
    cp < 0x110000 && !(0xD800 <= cp <= 0xDFFF)
  }

  predicate AllScalar(cps: seq<nat>) {
    forall k :: 0 <= k < |cps| ==> IsScalar(cps[k])
  }

  predicate WellFormed(u: Unit) {
    match u
    case Plain(cp) => IsScalar(cp) && cp != 0 && cp != 34 && cp != 92
    case Short(k) => k < 8
    case Basic(d) => 0 < d.value < 0xD800 || 0xE000 <= d.value < 0x10000
    case Pair(h, l) => 0xD800 <= h.value < 0xDC00 <= l.value < 0xE000
    case Other(cp) => IsScalar(cp) && cp != 0 && cp !in [98, 102, 110, 114, 116, 117]
    case Void(d) => d.value == 0 || 0xDC00 <= d.value < 0xE000
    case Broken(h, d) => 0xD800 <= h.value < 0xDC00 && d.value < 0x10000 && !(0xDC00 <= d.value < 0xE000)
    case Alone(h) => 0xD800 <= h.value < 0xDC00
  }

  /** The code points denoted; for a pair, RFC 2781 section 2.2 read from left to right. */
  function Denotes(u: Unit): (cps: seq<nat>)
    requires WellFormed(u)
    ensures AllScalar(cps)
  {
    match u
    case Plain(cp) => [cp]
    case Short(k) => [SHORT_CHARACTERS[k]]
    case Basic(d) => [d.value]
    case Pair(h, l) => [0x10000 + (h.value - 0xD800) * 0x400 + (l.value - 0xDC00)]
    case Other(cp) => [cp]
    case _ => []
  }

  function HexDigitOf(v: nat, upper: bool): Byte
    requires v < 16
  {
    if upper then UPPER_HEX[v] else LOWER_HEX[v]
  }

  function DigitsText(d: Digits): (t: Text)
    requires d.value < 0x10000
    ensures |t| == 4
  {
    [HexDigitOf(d.value / 0x1000, d.upper.0), HexDigitOf(d.value / 0x100 % 16, d.upper.1),
     HexDigitOf(d.value / 0x10 % 16, d.upper.2), HexDigitOf(d.value % 16, d.upper.3)]
  }

  /** A `\u` escape. */
  function EscapeText(d: Digits): (t: Text)
    requires d.value < 0x10000
    ensures |t| == 6
  {
    [BACKSLASH, LOWER_U] + DigitsText(d)
  }

  function UnitText(u: Unit): Text
    requires WellFormed(u)
  {
    match u
    case Plain(cp) => Utf8(cp)
    case Short(k) => [BACKSLASH, SHORT_LETTERS[k]]
    case Basic(d) => EscapeText(d)
    case Pair(h, l) => EscapeText(h) + EscapeText(l)
    case Other(cp) => [BACKSLASH] + Utf8(cp)
    case Void(d) => EscapeText(d)
    case Broken(h, d) => EscapeText(h) + EscapeText(d)
    case Alone(h) => EscapeText(h)
  }

  predicate OpensEscape(u: Unit) {
    u.Basic? || u.Pair? || u.Void? || u.Broken? || u.Alone?
  }

  /** Behind a high surrogate alone no `\u` escape follows. */
  ghost predicate AllWellFormed(us: seq<Unit>) {
    && (forall k :: 0 <= k < |us| ==> WellFormed(us[k]))
    && (forall k :: 0 <= k < |us| - 1 && us[k].Alone? ==> !OpensEscape(us[k + 1]))
  }

  ghost function Literal(us: seq<Unit>): (t: Text)
    requires AllWellFormed(us)
    ensures t != []
  {
    if us == [] then [QUOTE] else UnitText(us[0]) + Literal(us[1..])
  }

  ghost function CodePoints(us: seq<Unit>): (cps: seq<nat>)
    requires AllWellFormed(us)
    ensures AllScalar(cps)
  {
    if us == [] then [] else Denotes(us[0]) + CodePoints(us[1..])
  }

  function Encode(cps: seq<nat>): Text
    requires AllScalar(cps)
  {
    if cps == [] then [] else assert IsScalar(cps[0]); Utf8(cps[0]) + Encode(cps[1..])
  }

  // ---------- decoding UTF-8 ----------

  predicate IsTail(c: Byte) { 0x80 <= c <= 0xBF }

  /** The code point at `i` and its length, shortest forms of scalar values only. */
  function DecodeOne(t: Text, i: nat): (r: Option<(nat, nat)>)
    ensures r.Some? ==> 1 <= r.value.1 <= 4
  {
    var a, b, c, d := At(t, i), At(t, i + 1), At(t, i + 2), At(t, i + 3);
    if a < 0x80 then Some((a, 1))
    else if 0xC2 <= a <= 0xDF && IsTail(b) then Some(((a - 0xC0) * 64 + (b - 0x80), 2))
    else if 0xE0 <= a <= 0xEF && IsTail(b) && IsTail(c) then
      var cp := ((a - 0xE0) * 64 + (b - 0x80)) * 64 + (c - 0x80);
      if cp < 0x800 || !IsScalar(cp) then None else Some((cp, 3))
    else if 0xF0 <= a <= 0xF4 && IsTail(b) && IsTail(c) && IsTail(d) then
      var cp := (((a - 0xF0) * 64 + (b - 0x80)) * 64 + (c - 0x80)) * 64 + (d - 0x80);
      if cp < 0x10000 || !IsScalar(cp) then None else Some((cp, 4))
    else None
  }

  function Decode(t: Text, i: nat): Option<seq<nat>>
    decreases |t| - i
  {
    if i >= |t| then Some([])
    else
      match DecodeOne(t, i)
      case None => None
      case Some((cp, n)) =>
        (match Decode(t, i + n)
         case None => None
         case Some(rest) => Some([cp] + rest))
  }

  lemma SixBits(u: nat)
    ensures u == u / 64 * 64 + u % 64
  {
  }

  lemma DecodeOneEncoded(t: Text, i: nat, cp: nat)
    requires IsScalar(cp) && Here(t, i, Utf8(cp))
    ensures DecodeOne(t, i) == Some((cp, |Utf8(cp)|))
  {
    var u := Utf8(cp);
    forall k | 0 <= k < |u| ensures At(t, i + k) == u[k] { HereByte(t, i, u, k); }
    assert At(t, i + 0) == u[0];
    hide Here, At;
    if 0x10000 <= cp {
      DecodeLong(t, i, cp);
    } else {
      SixBits(cp);
      SixBits(cp / 64);
    }
  }

  lemma DecodeLong(t: Text, i: nat, cp: nat)
    requires 0x10000 <= cp < 0x110000
    requires [At(t, i), At(t, i + 1), At(t, i + 2), At(t, i + 3)] == Utf8(cp)
    ensures DecodeOne(t, i) == Some((cp, 4))
  {
    var v := cp / 64;
    var w := v / 64;
    SixBits(cp);
    SixBits(v);
    SixBits(w);
    var u := [At(t, i), At(t, i + 1), At(t, i + 2), At(t, i + 3)];
    assert u[0] == 0xF0 + w / 64 && u[1] == 0x80 + w % 64 && u[2] == 0x80 + v % 64 && u[3] == 0x80 + cp % 64;
    hide Utf8, At;
    assert cp == v * 64 + cp % 64 && v == w * 64 + v % 64 && w == w / 64 * 64 + w % 64;
  }

  lemma {:induction false} DecodeEncoded(t: Text, i: nat, cps: seq<nat>)
    requires AllScalar(cps)
    requires i <= |t| && t[i..] == Encode(cps)
    ensures Decode(t, i) == Some(cps)
    decreases |cps|
  {
    hide Utf8, DecodeOne;
    if cps != [] {
      var u := Utf8(cps[0]);
      assert t[i..i + |u|] == t[i..][..|u|];
      DecodeOneEncoded(t, i, cps[0]);
      assert t[i + |u|..] == t[i..][|u|..];
      DecodeEncoded(t, i + |u|, cps[1..]);
      assert [cps[0]] + cps[1..] == cps;
    }
  }

  // ---------- unescaping ----------

  predicate Unescaped(t: Text) {
    forall k :: 0 <= k < |t| ==> t[k] != 0 && t[k] != QUOTE && t[k] != BACKSLASH
  }

  lemma {:induction false} ScansOver(s: Text, i: nat, t: Text)
    requires Here(s, i, t) && Unescaped(t)
    ensures Scans(s, i) == Scans(s, i + |t|)
    decreases |t|
  {
    if t != [] {
      HereByte(s, i, t, 0);
      assert t == t[..1] + t[1..];
      HereParts(s, i, t[..1], t[1..]);
      ScansOver(s, i + 1, t[1..]);
    }
  }

  lemma {:induction false} CopiedOver(s: Text, i: nat, t: Text, acc: Text)
    requires Here(s, i, t) && Unescaped(t)
    ensures Unescape(s, i, acc) == Unescape(s, i + |t|, acc + t)
    decreases |t|
  {
    hide UnicodeEscape, ShortEscape;
    if t == [] {
      assert acc + t == acc;
    } else {
      HereByte(s, i, t, 0);
      assert t == t[..1] + t[1..];
      HereParts(s, i, t[..1], t[1..]);
      CopiedOver(s, i + 1, t[1..], acc + [t[0]]);
      assert acc + [t[0]] + t[1..] == acc + t;
    }
  }

  /** The parser reads the digits of either case. */
  lemma DigitRead(v: nat, upper: bool)
    requires v < 16
    ensures var c := HexDigitOf(v, upper); IsHex(c) && HexValue(c) == v && c != 0 && c != QUOTE && c != BACKSLASH
  {
    assert LOWER_HEX[v] == if v < 10 then 48 + v else 87 + v;
    assert UPPER_HEX[v] == if v < 10 then 48 + v else 55 + v;
  }

  lemma FourDigits(v: nat)
    requires v < 0x10000
    ensures v / 0x1000 < 16
    ensures ((v / 0x1000 * 16 + v / 0x100 % 16) * 16 + v / 0x10 % 16) * 16 + v % 16 == v
  {
    assert v / 0x100 / 16 == v / 0x1000 && v / 0x10 / 16 == v / 0x100;
  }

  lemma HexHere(s: Text, i: nat, d: Digits)
    requires d.value < 0x10000 && Here(s, i, DigitsText(d))
    ensures IsHex4(s, i) && Hex4(s, i) == d.value
    ensures Unescaped(DigitsText(d))
  {
    hide HexValue, IsHex, HexDigitOf, Here;
    var v, t := d.value, DigitsText(d);
    FourDigits(v);
    DigitRead(v / 0x1000, d.upper.0);
    DigitRead(v / 0x100 % 16, d.upper.1);
    DigitRead(v / 0x10 % 16, d.upper.2);
    DigitRead(v % 16, d.upper.3);
    HereByte(s, i, t, 0);
    HereByte(s, i, t, 1);
    HereByte(s, i, t, 2);
    HereByte(s, i, t, 3);
  }

  /** The two bytes that open a `\u` escape, and its digits. */
  lemma EscapeHere(s: Text, i: nat, d: Digits)
    requires d.value < 0x10000 && Here(s, i, EscapeText(d))
    ensures At(s, i) == BACKSLASH && At(s, i + 1) == LOWER_U
    ensures IsHex4(s, i + 2) && Hex4(s, i + 2) == d.value
    ensures Scans(s, i) == Scans(s, i + 6)
  {
    hide Hex4, IsHex4, DigitsText, Here;
    HereParts(s, i, [BACKSLASH, LOWER_U], DigitsText(d));
    HereByte(s, i, [BACKSLASH, LOWER_U], 0);
    HereByte(s, i, [BACKSLASH, LOWER_U], 1);
    HexHere(s, i + 2, d);
    ScansOver(s, i + 2, DigitsText(d));
  }

  lemma CombineIsPair(hi: int, lo: int)
    requires IsHigh(hi) && IsLow(lo)
    ensures Combine(hi, lo) == 0x10000 + (hi - 0xD800) * 0x400 + (lo - 0xDC00)
  {
  }

  /** What a `\u` escape appends, and where it ends. */
  lemma UnicodeAppends(s: Text, i: nat, t: Text, n: nat, acc: Text)
    requires At(s, i) == BACKSLASH && At(s, i + 1) == LOWER_U && UnicodeEscape(s, i + 2) == Ok(t, i + n)
    ensures Unescape(s, i, acc) == Unescape(s, i + n, acc + t)
  {
    hide UnicodeEscape;
  }

  lemma EncodeOne(cp: nat)
    requires IsScalar(cp)
    ensures Encode([cp]) == Utf8(cp)
  {
    hide Utf8;
    assert [cp][1..] == [];
  }

  /** One unit of the literal appends the UTF-8 encoding of what it denotes. */
  lemma UnitUnescaped(s: Text, i: nat, u: Unit, acc: Text)
    requires WellFormed(u) && Here(s, i, UnitText(u))
    requires u.Alone? ==> At(s, i + 6) != BACKSLASH || At(s, i + 7) != LOWER_U
    ensures Unescape(s, i, acc) == Unescape(s, i + |UnitText(u)|, acc + Encode(Denotes(u)))
    ensures Scans(s, i) == Scans(s, i + |UnitText(u)|)
  {
    hide UnicodeEscape, Utf8, Here, EscapeText, ShortEscape, Hex4, IsHex4;
    match u
    case Plain(cp) =>
      PlainIsUnescaped(cp);
      EncodeOne(cp);
      ScansOver(s, i, Utf8(cp));
      CopiedOver(s, i, Utf8(cp), acc);
    case Short(k) => ShortUnescaped(s, i, k, acc);
    case Basic(d) =>
      EscapeHere(s, i, d);
      EncodeOne(d.value);
      BasicEscape(s, i + 2, d.value);
      UnicodeAppends(s, i, Utf8(d.value), 6, acc);
    case Pair(h, l) => PairUnescaped(s, i, h, l, acc);
    case Other(cp) => OtherUnescaped(s, i, cp, acc);
    case Void(d) =>
      EscapeHere(s, i, d);
      VoidEscape(s, i + 2, d.value);
      UnicodeAppends(s, i, [], 6, acc);
    case Broken(h, d) => BrokenUnescaped(s, i, h, d, acc);
    case Alone(h) =>
      EscapeHere(s, i, h);
      AloneEscape(s, i + 2, h.value);
      UnicodeAppends(s, i, [], 6, acc);
  }

  lemma ShortUnescaped(s: Text, i: nat, k: nat, acc: Text)
    requires k < 8 && Here(s, i, UnitText(Short(k)))
    ensures Unescape(s, i, acc) == Unescape(s, i + 2, acc + Encode(Denotes(Short(k))))
    ensures Scans(s, i) == Scans(s, i + 2)
  {
    hide UnicodeEscape, Here, ShortEscape;
    ShortRead(k);
    EncodeOne(SHORT_CHARACTERS[k]);
    HereByte(s, i, UnitText(Short(k)), 0);
    HereByte(s, i, UnitText(Short(k)), 1);
  }

  lemma ShortRead(k: nat)
    requires k < 8
    ensures SHORT_LETTERS[k] != 0 && SHORT_LETTERS[k] != LOWER_U
    ensures ShortEscape(SHORT_LETTERS[k]) == SHORT_CHARACTERS[k] < 0x80
  {
    assert SHORT_LETTERS[k] == if k == 0 then 34 else if k == 1 then 92 else if k == 2 then 47 else if k == 3 then 98
                               else if k == 4 then 102 else if k == 5 then 110 else if k == 6 then 114 else 116;
  }

  /** A backslash in front of any other character is dropped. */
  lemma OtherUnescaped(s: Text, i: nat, cp: nat, acc: Text)
    requires WellFormed(Other(cp)) && Here(s, i, UnitText(Other(cp)))
    ensures Unescape(s, i, acc) == Unescape(s, i + 1 + |Utf8(cp)|, acc + Encode(Denotes(Other(cp))))
    ensures Scans(s, i) == Scans(s, i + 1 + |Utf8(cp)|)
  {
    hide UnicodeEscape, Here, Utf8, ShortEscape;
    var t := Utf8(cp);
    EncodeOne(cp);
    FirstOfOther(cp);
    HereParts(s, i, [BACKSLASH], t);
    HereByte(s, i, [BACKSLASH], 0);
    HereByte(s, i + 1, t, 0);
    assert t == t[..1] + t[1..];
    HereParts(s, i + 1, t[..1], t[1..]);
    ScansOver(s, i + 2, t[1..]);
    CopiedOver(s, i + 2, t[1..], acc + [t[0]]);
    assert acc + [t[0]] + t[1..] == acc + t;
  }

  lemma FirstOfOther(cp: nat)
    requires WellFormed(Other(cp))
    ensures var t := Utf8(cp); t[0] != 0 && t[0] != LOWER_U && ShortEscape(t[0]) == t[0] && Unescaped(t[1..])
  {
  }

  lemma PlainIsUnescaped(cp: nat)
    requires WellFormed(Plain(cp))
    ensures Unescaped(Utf8(cp))
  {
  }

  lemma BasicEscape(s: Text, i: nat, v: nat)
    requires IsHex4(s, i) && Hex4(s, i) == v && (0 < v < 0xD800 || 0xE000 <= v)
    ensures v < 0x10000 && UnicodeEscape(s, i) == Ok(Utf8(v), i + 4)
  {
    hide IsHex4, Hex4, Utf8;
  }

  lemma VoidEscape(s: Text, i: nat, v: nat)
    requires IsHex4(s, i) && Hex4(s, i) == v && (v == 0 || 0xDC00 <= v < 0xE000)
    ensures UnicodeEscape(s, i) == Ok([], i + 4)
  {
    hide IsHex4, Hex4, Utf8;
  }

  lemma AloneEscape(s: Text, i: nat, v: nat)
    requires IsHex4(s, i) && Hex4(s, i) == v && 0xD800 <= v < 0xDC00
    requires At(s, i + 4) != BACKSLASH || At(s, i + 5) != LOWER_U
    ensures UnicodeEscape(s, i) == Ok([], i + 4)
  {
    hide IsHex4, Hex4, Utf8;
  }

  /** A high surrogate's escape followed by a low one's gives one code point, and by any other
      escape nothing. */
  lemma PairEscape(s: Text, i: nat, hi: int, v: int)
    requires IsHex4(s, i) && Hex4(s, i) == hi && 0xD800 <= hi < 0xDC00
    requires At(s, i + 4) == BACKSLASH && At(s, i + 5) == LOWER_U
    requires IsHex4(s, i + 6) && Hex4(s, i + 6) == v
    ensures UnicodeEscape(s, i)
      == if 0xDC00 <= v < 0xE000 then Ok(Utf8(0x10000 + (hi - 0xD800) * 0x400 + (v - 0xDC00)), i + 10) else Ok([], i + 10)
  {
    hide IsHex4, Hex4, Utf8, Combine;
    if IsLow(v) { CombineIsPair(hi, v); }
  }

  lemma PairUnescaped(s: Text, i: nat, h: Digits, l: Digits, acc: Text)
    requires WellFormed(Pair(h, l)) && Here(s, i, UnitText(Pair(h, l)))
    ensures Unescape(s, i, acc) == Unescape(s, i + 12, acc + Encode(Denotes(Pair(h, l))))
    ensures Scans(s, i) == Scans(s, i + 12)
  {
    hide UnicodeEscape, Utf8, Here, Hex4, IsHex4, Scans, EscapeText, Unescape;
    HereParts(s, i, EscapeText(h), EscapeText(l));
    EscapeHere(s, i, h);
    EscapeHere(s, i + 6, l);
    PairEscape(s, i + 2, h.value, l.value);
    var cp := 0x10000 + (h.value - 0xD800) * 0x400 + (l.value - 0xDC00);
    EncodeOne(cp);
    UnicodeAppends(s, i, Utf8(cp), 12, acc);
  }

  lemma BrokenUnescaped(s: Text, i: nat, h: Digits, d: Digits, acc: Text)
    requires WellFormed(Broken(h, d)) && Here(s, i, UnitText(Broken(h, d)))
    ensures Unescape(s, i, acc) == Unescape(s, i + 12, acc + Encode(Denotes(Broken(h, d))))
    ensures Scans(s, i) == Scans(s, i + 12)
  {
    hide UnicodeEscape, Utf8, Here, Hex4, IsHex4, Scans, EscapeText, Unescape;
    HereParts(s, i, EscapeText(h), EscapeText(d));
    EscapeHere(s, i, h);
    EscapeHere(s, i + 6, d);
    PairEscape(s, i + 2, h.value, d.value);
    UnicodeAppends(s, i, [], 12, acc);
  }

  lemma {:induction false} EncodeAppend(a: seq<nat>, b: seq<nat>)
    requires AllScalar(a) && AllScalar(b)
    ensures AllScalar(a + b) && Encode(a + b) == Encode(a) + Encode(b)
  {
    hide Utf8;
    if a == [] {
      assert a + b == b;
    } else {
      assert (a + b)[1..] == a[1..] + b;
      EncodeAppend(a[1..], b);
      Assoc(Utf8(a[0]), Encode(a[1..]), Encode(b));
    }
  }

  /** What follows a high surrogate alone does not open an escape. */
  lemma NoEscapeNext(s: Text, i: nat, us: seq<Unit>)
    requires AllWellFormed(us) && Here(s, i, Literal(us)) && (us != [] ==> !OpensEscape(us[0]))
    ensures At(s, i) != BACKSLASH || At(s, i + 1) != LOWER_U
  {
    hide Here, Utf8;
    HereByte(s, i, Literal(us), 0);
    if us != [] {
      var t := UnitText(us[0]);
      HereParts(s, i, t, Literal(us[1..]));
      match us[0]
      case Plain(cp) => PlainIsUnescaped(cp);
      case Short(k) =>
        HereByte(s, i, t, 1);
        ShortRead(k);
      case Other(cp) =>
        HereByte(s, i, t, 1);
        FirstOfOther(cp);
      case _ =>
    }
  }

  lemma {:induction false} LiteralUnescaped(s: Text, i: nat, us: seq<Unit>, acc: Text)
    requires AllWellFormed(us) && Here(s, i, Literal(us))
    ensures Unescape(s, i, acc) == Ok(acc + Encode(CodePoints(us)), i + |Literal(us)|)
    ensures Scans(s, i)
    decreases |us|
  {
    hide UnicodeEscape, ShortEscape, UnitText, Denotes, Utf8, WellFormed, Here, OpensEscape;
    if us == [] {
      HereByte(s, i, Literal(us), 0);
      assert acc + [] == acc;
    } else {
      var t, rest := UnitText(us[0]), us[1..];
      HereParts(s, i, t, Literal(rest));
      if us[0].Alone? {
        assert rest != [] ==> us[1] == rest[0];
        NoEscapeNext(s, i + |t|, rest);
        AloneSize(us[0]);
      }
      UnitUnescaped(s, i, us[0], acc);
      var e := Encode(Denotes(us[0]));
      LiteralUnescaped(s, i + |t|, rest, acc + e);
      EncodeAppend(Denotes(us[0]), CodePoints(rest));
      Assoc(acc, e, Encode(CodePoints(rest)));
    }
  }

  lemma AloneSize(u: Unit)
    requires WellFormed(u) && u.Alone?
    ensures |UnitText(u)| == 6
  {
  }

  /** For every literal `parse_string` yields the UTF-8 encoding of the text denoted, and decoding it
      gives the code points back. */
  lemma LiteralDenotes(s: Text, i: nat, us: seq<Unit>)
    requires AllWellFormed(us) && Here(s, i, [QUOTE] + Literal(us))
    ensures StringAt(s, i) == Ok(Encode(CodePoints(us)), i + 1 + |Literal(us)|)
    ensures Decode(Encode(CodePoints(us)), 0) == Some(CodePoints(us))
  {
    hide Here, Literal, Unescape, Scans, Utf8, DecodeOne;
    HereParts(s, i, [QUOTE], Literal(us));
    HereByte(s, i, [QUOTE], 0);
    LiteralUnescaped(s, i + 1, us, []);
    var t := Encode(CodePoints(us));
    assert [] + t == t;
    assert t[0..] == t;
    DecodeEncoded(t, 0, CodePoints(us));
  }
}
