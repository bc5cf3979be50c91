/** The JSON trees and texts of `gbcom_common/json/cjson.c`: what the parser reads at an
    offset of a text, and what the printer writes for a tree. The loops that do it are in
    CJsonParser and CJsonPrinter. */
module CJson {
  import opened CText

  const TAB: Byte := 9
  const NEWLINE: Byte := 10
  const SPACE: Byte := 32
  const QUOTE: Byte := 34
  const PLUS: Byte := 43
  const COMMA: Byte := 44
  const MINUS: Byte := 45
  const DOT: Byte := 46
  const ZERO: Byte := 48
  const COLON: Byte := 58
  const UPPER_E: Byte := 69
  const LBRACKET: Byte := 91
  const BACKSLASH: Byte := 92
  const RBRACKET: Byte := 93
  const LOWER_E: Byte := 101
  const LOWER_U: Byte := 117
  const LBRACE: Byte := 123
  const RBRACE: Byte := 125

  const NULL_WORD: Text := [110, 117, 108, 108]
  const FALSE_WORD: Text := [102, 97, 108, 115, 101]
  const TRUE_WORD: Text := [116, 114, 117, 101]

  /** A value with its children in list order. A number is its `valuedouble`, read as an
      exact real. */
  datatype Json =
    | Null
    | False
    | True
    | Number(d: real)
    | String(text: Text)
    | Array(items: seq<Json>)
    | Object(fields: seq<Field>)

  datatype Field = Field(key: Text, value: Json)

  /** Outcome of reading at an offset: a value and where reading stopped; the error
      position `ep`; or a text on which the C code has no defined behaviour (a backslash
      right before the terminator, a `\u` without four hex digits). */
  datatype Parse<+T> = Ok(value: T, next: nat) | Fail(at: nat) | Undefined

  // ---------- reading ----------

  /** First offset at or after `i` holding the terminator or a byte above a blank. */
  function Skip(s: Text, i: nat): (j: nat)
    ensures i <= j && (i <= |s| ==> j <= |s|)
    decreases |s| - i
  {
    if 0 < At(s, i) <= SPACE then Skip(s, i + 1) else i
  }

  function DigitsEnd(s: Text, i: nat): (j: nat)
    ensures i <= j && (i <= |s| ==> j <= |s|)
    decreases |s| - i
  {
    if IsDigit(At(s, i)) then DigitsEnd(s, i + 1) else i
  }

  function DigitsValue(s: Text, i: nat, n: int): int
    decreases |s| - i
  {
    if IsDigit(At(s, i)) then DigitsValue(s, i + 1, n * 10 + (At(s, i) - ZERO)) else n
  }

  function Pow10(e: int): real
    decreases if e < 0 then -e else e
  {
    if e == 0 then 1.0 else if e > 0 then 10.0 * Pow10(e - 1) else Pow10(e + 1) / 10.0
  }

  function Scaled(sign: real, n: int, e: int): real {
    sign * (n as real) * Pow10(e)
  }

  function IntegerPart(s: Text, i: nat): (r: (int, nat))
    ensures i <= r.1 && (i <= |s| ==> r.1 <= |s|)
  {
    var j := if At(s, i) == ZERO then i + 1 else i;
    if ZERO < At(s, j) <= 57 then (DigitsValue(s, j, 0), DigitsEnd(s, j)) else (0, j)
  }

  function Exponent(s: Text, i: nat): (r: (int, nat))
    ensures i <= r.1 && (i <= |s| ==> r.1 <= |s|)
  {
    if At(s, i) == LOWER_E || At(s, i) == UPPER_E then
      var j := if At(s, i + 1) == PLUS || At(s, i + 1) == MINUS then i + 2 else i + 1;
      var e := DigitsValue(s, j, 0);
      (if At(s, i + 1) == MINUS then -e else e, DigitsEnd(s, j))
    else
      (0, i)
  }

  function StartsNumber(c: Byte): bool {
    c == MINUS || IsDigit(c)
  }

  function NumberAt(s: Text, i: nat): (r: Parse<Json>)
    requires StartsNumber(At(s, i))
    ensures r.Ok? && i < r.next <= |s| && r.value.Number?
  {
    var neg := At(s, i) == MINUS;
    var (n, j) := IntegerPart(s, if neg then i + 1 else i);
    var frac := At(s, j) == DOT && IsDigit(At(s, j + 1));
    var m := if frac then DigitsValue(s, j + 1, n) else n;
    var k := if frac then DigitsEnd(s, j + 1) else j;
    var (e, end) := Exponent(s, k);
    var scale := if frac then e - (k - (j + 1)) else e;
    Ok(Number(Scaled(if neg then -1.0 else 1.0, m, scale)), end)
  }

  function IsHex(c: Byte): bool {
    IsDigit(c) || 97 <= c <= 102 || 65 <= c <= 70
  }

  function HexValue(c: Byte): (v: nat)
    requires IsHex(c)
    ensures v < 16
  {
    if IsDigit(c) then c - 48 else if 97 <= c then c - 87 else c - 55
  }

  function IsHex4(s: Text, i: nat): bool {
    IsHex(At(s, i)) && IsHex(At(s, i + 1)) && IsHex(At(s, i + 2)) && IsHex(At(s, i + 3))
  }

  function Hex4(s: Text, i: nat): (v: nat)
    requires IsHex4(s, i)
    ensures v < 0x10000
  {
    ((HexValue(At(s, i)) * 16 + HexValue(At(s, i + 1))) * 16 + HexValue(At(s, i + 2))) * 16
    + HexValue(At(s, i + 3))
  }

  /** The bytes written for code point `uc`: length by the three thresholds, six bits in
      each trailing byte, the first byte marked with the length (RFC 3629 section 3). */
  function Utf8(uc: nat): (t: Text)
    requires uc < 0x110000
    ensures 1 <= |t| <= 4
  {
    if uc < 0x80 then [uc]
    else if uc < 0x800 then [0xC0 + uc / 64, 0x80 + uc % 64]
    else if uc < 0x10000 then [0xE0 + uc / 64 / 64, 0x80 + uc / 64 % 64, 0x80 + uc % 64]
    else [0xF0 + uc / 64 / 64 / 64, 0x80 + uc / 64 / 64 % 64, 0x80 + uc / 64 % 64, 0x80 + uc % 64]
  }

  predicate IsHigh(uc: int) { 0xD800 <= uc <= 0xDBFF }

  predicate IsLow(uc: int) { 0xDC00 <= uc <= 0xDFFF }

  function Combine(hi: int, lo: int): (uc: nat)
    ensures 0x10000 <= uc < 0x110000
  {
    0x10000 + hi % 1024 * 1024 + lo % 1024
  }

  /** The bytes appended for the escape `\e`, e not being `u`. */
  function ShortEscape(e: Byte): Byte {
    match e
    case 98 => 8
    case 102 => 12
    case 110 => 10
    case 114 => 13
    case 116 => 9
    case _ => e
  }

  /** The bytes appended for the `\u` whose digits start at `i`, and the offset behind it. */
  function UnicodeEscape(s: Text, i: nat): (r: Parse<Text>)
    ensures r.Ok? ==> i + 4 <= r.next <= |s|
  {
    if !IsHex4(s, i) then Undefined
    else
      var uc := Hex4(s, i);
      if IsLow(uc) || uc == 0 then Ok([], i + 4)
      else if !IsHigh(uc) then Ok(Utf8(uc), i + 4)
      else if At(s, i + 4) != BACKSLASH || At(s, i + 5) != LOWER_U then Ok([], i + 4)
      else if !IsHex4(s, i + 6) then Undefined
      else
        var uc2 := Hex4(s, i + 6);
        Ok(if IsLow(uc2) then Utf8(Combine(uc, uc2)) else [], i + 10)
  }

  /** The closing quote (or terminator) can be found: no backslash directly before the
      terminator on the way. */
  function Scans(s: Text, i: nat): bool
    decreases |s| - i
  {
    var c := At(s, i);
    if c == QUOTE || c == 0 then true
    else if c != BACKSLASH then Scans(s, i + 1)
    else At(s, i + 1) != 0 && Scans(s, i + 2)
  }

  /** Number of steps of the scan for the closing quote: the buffer size, less one. */
  function Steps(s: Text, i: nat): nat
    decreases |s| - i
  {
    var c := At(s, i);
    if c == QUOTE || c == 0 then 0
    else 1 + Steps(s, if c == BACKSLASH then i + 2 else i + 1)
  }

  /** `acc` and the unescaped bytes from offset `i` up to the closing quote. */
  function Unescape(s: Text, i: nat, acc: Text): (r: Parse<Text>)
    ensures r.Ok? && i <= |s| ==> i <= r.next <= |s|
    decreases |s| - i
  {
    var c := At(s, i);
    if c == QUOTE then Ok(acc, i + 1)
    else if c == 0 then Ok(acc, i)
    else if c != BACKSLASH then Unescape(s, i + 1, acc + [c])
    else
      var e := At(s, i + 1);
      if e == 0 then Undefined
      else if e != LOWER_U then Unescape(s, i + 2, acc + [ShortEscape(e)])
      else
        match UnicodeEscape(s, i + 2)
        case Ok(t, j) => Unescape(s, j, acc + t)
        case other => Undefined
  }

  function StringAt(s: Text, i: nat): (r: Parse<Text>)
    ensures r.Ok? ==> i < r.next <= |s|
  {
    if At(s, i) != QUOTE then Fail(i)
    else if !Scans(s, i + 1) then Undefined
    else Unescape(s, i + 1, [])
  }

  function ValueAt(s: Text, i: nat): (r: Parse<Json>)
    ensures r.Ok? ==> i < r.next <= |s|
    decreases |s| - i, 1
  {
    if Here(s, i, NULL_WORD) then Ok(Null, i + 4)
    else if Here(s, i, FALSE_WORD) then Ok(False, i + 5)
    else if Here(s, i, TRUE_WORD) then Ok(True, i + 4)
    else if At(s, i) == QUOTE then
      match StringAt(s, i)
      case Ok(t, j) => Ok(String(t), j)
      case Fail(at) => Fail(at)
      case Undefined => Undefined
    else if StartsNumber(At(s, i)) then NumberAt(s, i)
    else if At(s, i) == LBRACKET then ArrayAt(s, i)
    else if At(s, i) == LBRACE then ObjectAt(s, i)
    else Fail(i)
  }

  function ArrayAt(s: Text, i: nat): (r: Parse<Json>)
    requires At(s, i) == LBRACKET
    ensures r.Ok? ==> i < r.next <= |s|
    decreases |s| - i, 0
  {
    var j := Skip(s, i + 1);
    if At(s, j) == RBRACKET then Ok(Array([]), j + 1) else Elements(s, j, [])
  }

  /** `acc` and the elements from offset `i` up to the closing bracket. */
  function Elements(s: Text, i: nat, acc: seq<Json>): (r: Parse<Json>)
    requires i <= |s|
    ensures r.Ok? ==> i < r.next <= |s|
    decreases |s| - i, 2
  {
    match ValueAt(s, Skip(s, i))
    case Ok(v, j) =>
      var k := Skip(s, j);
      if At(s, k) == COMMA then Elements(s, k + 1, acc + [v])
      else if At(s, k) == RBRACKET then Ok(Array(acc + [v]), k + 1)
      else Fail(k)
    case Fail(at) => Fail(at)
    case Undefined => Undefined
  }

  function ObjectAt(s: Text, i: nat): (r: Parse<Json>)
    requires At(s, i) == LBRACE
    ensures r.Ok? ==> i < r.next <= |s|
    decreases |s| - i, 0
  {
    var j := Skip(s, i + 1);
    if At(s, j) == RBRACE then Ok(Object([]), j + 1) else Members(s, j, [])
  }

  /** A key, a colon and a value. */
  function MemberAt(s: Text, i: nat): (r: Parse<Field>)
    requires i <= |s|
    ensures r.Ok? ==> i < r.next <= |s|
    decreases |s| - i, 2
  {
    match StringAt(s, Skip(s, i))
    case Ok(key, j) =>
      var k := Skip(s, j);
      if At(s, k) != COLON then Fail(k)
      else
        (match ValueAt(s, Skip(s, k + 1))
         case Ok(v, l) => Ok(Field(key, v), l)
         case Fail(at) => Fail(at)
         case Undefined => Undefined)
    case Fail(at) => Fail(at)
    case Undefined => Undefined
  }

  /** `acc` and the members from offset `i` up to the closing brace. */
  function Members(s: Text, i: nat, acc: seq<Field>): (r: Parse<Json>)
    requires i <= |s|
    ensures r.Ok? ==> i < r.next <= |s|
    decreases |s| - i, 3
  {
    match MemberAt(s, i)
    case Ok(f, j) =>
      var k := Skip(s, j);
      if At(s, k) == COMMA then Members(s, k + 1, acc + [f])
      else if At(s, k) == RBRACE then Ok(Object(acc + [f]), k + 1)
      else Fail(k)
    case Fail(at) => Fail(at)
    case Undefined => Undefined
  }

  /** `cJSON_Parse`. */
  function ParseText(s: Text): Parse<Json> {
    ValueAt(s, Skip(s, 0))
  }

  // ---------- writing ----------

  /** The number is printed by `%d`: an integer of C's `int`. */
  predicate IsCInt(d: real) {
    d == d.Floor as real && -0x8000_0000 <= d.Floor < 0x8000_0000
  }

  /** `%d` of a non-negative number. */
  function Decimal(n: nat): (t: Text)
    ensures |t| > 0 && forall i :: 0 <= i < |t| ==> IsDigit(t[i])
  {
    if n < 10 then [ZERO + n] else Decimal(n / 10) + [ZERO + n % 10]
  }

  function NumberText(n: int): (t: Text)
    ensures |t| > 0 && StartsNumber(t[0])
  {
    if n < 0 then [MINUS] + Decimal(-n) else Decimal(n)
  }

  function HexDigit(v: nat): Byte
    requires v < 16
  {
    if v < 10 then 48 + v else 87 + v
  }

  function EscapeByte(c: Byte): (t: Text)
    requires c != 0
    ensures |t| > 0
  {
    match c
    case 92 => [BACKSLASH, 92]
    case 34 => [BACKSLASH, 34]
    case 8 => [BACKSLASH, 98]
    case 12 => [BACKSLASH, 102]
    case 10 => [BACKSLASH, 110]
    case 13 => [BACKSLASH, 114]
    case 9 => [BACKSLASH, 116]
    case _ =>
      if c > 31 then [c] else [BACKSLASH, LOWER_U, ZERO, ZERO, HexDigit(c / 16), HexDigit(c % 16)]
  }

  function Escape(t: Text): Text
    requires NulFree(t)
  {
    if t == [] then [] else EscapeByte(t[0]) + Escape(t[1..])
  }

  function Quoted(t: Text): Text
    requires NulFree(t)
  {
    [QUOTE] + Escape(t) + [QUOTE]
  }

  /** A tree the printer writes with `%d` numbers only and whose strings are C strings. */
  predicate Printable(x: Json) {
    match x
    case Number(d) => IsCInt(d)
    case String(t) => NulFree(t)
    case Array(items) => forall i :: 0 <= i < |items| ==> Printable(items[i])
    case Object(fields) =>
      forall i :: 0 <= i < |fields| ==> NulFree(fields[i].key) && Printable(fields[i].value)
    case _ => true
  }

  function Tabs(n: int): Text
  {
    if n <= 0 then [] else [TAB] + Tabs(n - 1)
  }

  /** The text of `x` at nesting depth `depth`, formatted or not. */
  function Render(x: Json, depth: nat, fmt: bool): Text
    requires Printable(x)
    decreases x, 1
  {
    match x
    case Null => NULL_WORD
    case False => FALSE_WORD
    case True => TRUE_WORD
    case Number(d) => NumberText(d.Floor)
    case String(t) => Quoted(t)
    case Array(items) => [LBRACKET] + (RenderItems(items, depth + 1, fmt) + [RBRACKET])
    case Object(fields) =>
      [LBRACE] + (Newline(fmt) + (RenderFields(fields, depth + 1, fmt) + ObjectEnd(fields, depth, fmt)))
  }

  function Newline(fmt: bool): Text {
    if fmt then [NEWLINE] else []
  }

  function Indent(n: int, fmt: bool): Text {
    if fmt then Tabs(n) else []
  }

  function KeySeparator(fmt: bool): Text {
    if fmt then [COLON, TAB] else [COLON]
  }

  function ItemSeparator(fmt: bool): Text {
    if fmt then [COMMA, SPACE] else [COMMA]
  }

  /** The brace of an object is indented by one tab less when the object is empty. */
  function ObjectEnd(fields: seq<Field>, depth: nat, fmt: bool): Text {
    Indent(if fields == [] then depth - 1 else depth, fmt) + [RBRACE]
  }

  function RenderItems(xs: seq<Json>, depth: nat, fmt: bool): Text
    requires forall i :: 0 <= i < |xs| ==> Printable(xs[i])
    decreases xs, 0
  {
    if xs == [] then []
    else if |xs| == 1 then Render(xs[0], depth, fmt)
    else Render(xs[0], depth, fmt) + ItemSeparator(fmt) + RenderItems(xs[1..], depth, fmt)
  }

  /** A key, a colon and a value. */
  function MemberText(f: Field, depth: nat, fmt: bool): Text
    requires NulFree(f.key) && Printable(f.value)
    decreases f, 2
  {
    Quoted(f.key) + (KeySeparator(fmt) + Render(f.value, depth, fmt))
  }

  function RenderFields(fs: seq<Field>, depth: nat, fmt: bool): Text
    requires forall i :: 0 <= i < |fs| ==> NulFree(fs[i].key) && Printable(fs[i].value)
    decreases fs, 0
  {
    if fs == [] then []
    else
      Indent(depth, fmt)
      + (MemberText(fs[0], depth, fmt)
         + ((if |fs| > 1 then [COMMA] else []) + (Newline(fmt) + RenderFields(fs[1..], depth, fmt))))
  }
}
