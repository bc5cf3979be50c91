/** The parser of `gbcom_common/json/cjson.c` as it runs: a position moving over the text,
    a buffer filled byte by byte, a child list growing in a loop. */
module CJsonParser {
  import opened CText
  import opened CJson

  /** The C code masks and shifts; CJson writes the same with `%` and `/`. */
  lemma TrailingByteMask(uc: bv32)
    ensures (uc | 0x80) & 0xBF == 0x80 + (uc & 0x3F)
  {
  }

  lemma SurrogateMask(hi: bv32, lo: bv32)
    ensures ((hi & 0x3FF) << 10) | (lo & 0x3FF) == ((hi & 0x3FF) << 10) + (lo & 0x3FF)
  {
  }

  method SkipBlanks(s: Text, i: nat) returns (j: nat)
    ensures j == Skip(s, i)
  {
    j := i;
    while 0 < At(s, j) <= SPACE
      invariant i <= j && Skip(s, j) == Skip(s, i)
      decreases |s| - j
    {
      j := j + 1;
    }
  }

  method ScanDigits(s: Text, i: nat, n: int) returns (m: int, j: nat)
    ensures m == DigitsValue(s, i, n) && j == DigitsEnd(s, i)
  {
    m, j := n, i;
    while IsDigit(At(s, j))
      invariant DigitsValue(s, j, m) == DigitsValue(s, i, n) && DigitsEnd(s, j) == DigitsEnd(s, i)
      decreases |s| - j
    {
      m, j := m * 10 + (At(s, j) - ZERO), j + 1;
    }
  }

  /** `parse_number`. */
  method ParseNumber(s: Text, i: nat) returns (r: Parse<Json>)
    requires StartsNumber(At(s, i))
    ensures r == NumberAt(s, i)
  {
    hide Scaled, DigitsValue, DigitsEnd, Exponent;
    var num: nat, n: int, scale: int, sign: real := i, 0, 0, 1.0;
    if At(s, num) == MINUS { sign, num := -1.0, num + 1; }
    ghost var start := num;
    if At(s, num) == ZERO { num := num + 1; }
    if ZERO < At(s, num) <= 57 { n, num := ScanDigits(s, num, 0); }
    assert (n, num) == IntegerPart(s, start);
    if At(s, num) == DOT && IsDigit(At(s, num + 1)) {
      var point := num + 1;
      n, num := ScanDigits(s, point, n);
      scale := -(num - point);
    }
    var e;
    e, num := ParseExponent(s, num);
    r := Ok(Number(Scaled(sign, n, scale + e)), num);
  }

  method ParseExponent(s: Text, i: nat) returns (e: int, num: nat)
    ensures (e, num) == Exponent(s, i)
  {
    hide DigitsValue, DigitsEnd;
    var subscale: int, signsubscale: int := 0, 1;
    num := i;
    if At(s, num) == LOWER_E || At(s, num) == UPPER_E {
      num := num + 1;
      if At(s, num) == PLUS { num := num + 1; }
      else if At(s, num) == MINUS { signsubscale, num := -1, num + 1; }
      subscale, num := ScanDigits(s, num, 0);
    }
    e := subscale * signsubscale;
  }

  /** Writes the bytes of `uc` from the last to the first, six bits at a time, and returns
      the offset behind them. */
  method PutUtf8(out: array<Byte>, p: nat, code: nat) returns (q: nat)
    requires code < 0x110000 && p + |Utf8(code)| <= out.Length
    modifies out
    ensures q == p + |Utf8(code)| && out[..q] == old(out[..p]) + Utf8(code)
  {
    hide Utf8, FromCase, Leading;
    var len := if code < 0x80 then 1 else if code < 0x800 then 2 else if code < 0x10000 then 3 else 4;
    var mark := if len == 1 then 0x00 else if len == 2 then 0xC0 else if len == 3 then 0xE0 else 0xF0;
    q := p + len;
    CasesAreUtf8(code);
    PutFromCase(len, out, q, code, mark);
    assert out[..q] == out[..p] + out[p..q];
  }

  /** What is left of `uc` for the first byte. */
  function Leading(k: nat, uc: nat): nat {
    if k <= 1 then uc else Leading(k - 1, uc / 64)
  }

  /** The bytes written from `case k` of the switch on, read from the first to the last. */
  ghost function FromCase(k: nat, uc: nat, mark: nat): (t: Text)
    requires 1 <= k && mark + Leading(k, uc) < 256
    ensures |t| == k
  {
    if k == 1 then [mark + uc] else FromCase(k - 1, uc / 64, mark) + [0x80 + uc % 64]
  }

  lemma CasesAreUtf8(u: nat)
    requires u < 0x110000
    ensures var k := if u < 0x80 then 1 else if u < 0x800 then 2 else if u < 0x10000 then 3 else 4;
            var mark := if k == 1 then 0x00 else if k == 2 then 0xC0 else if k == 3 then 0xE0 else 0xF0;
            mark + Leading(k, u) < 256 && FromCase(k, u, mark) == Utf8(u)
  {
    if 0x10000 <= u {
      assert Leading(2, u / 64 / 64) == u / 64 / 64 / 64;
      assert Leading(3, u / 64) == u / 64 / 64 / 64;
      assert FromCase(2, u / 64 / 64, 0xF0) == [0xF0 + u / 64 / 64 / 64, 0x80 + u / 64 / 64 % 64];
      assert FromCase(3, u / 64, 0xF0) == FromCase(2, u / 64 / 64, 0xF0) + [0x80 + u / 64 % 64];
    } else if 0x800 <= u {
      assert Leading(2, u / 64) == u / 64 / 64;
      assert FromCase(2, u / 64, 0xE0) == [0xE0 + u / 64 / 64, 0x80 + u / 64 % 64];
    }
  }

  /** `case k` writes its byte before the current one and falls through to `case k - 1`. */
  method PutFromCase(k: nat, out: array<Byte>, end: nat, uc: nat, mark: nat)
    requires 1 <= k <= end <= out.Length && mark + Leading(k, uc) < 256
    modifies out
    ensures out[end - k..end] == FromCase(k, uc, mark)
    ensures forall i :: 0 <= i < out.Length && !(end - k <= i < end) ==> out[i] == old(out[i])
  {
    if k == 1 {
      out[end - 1] := mark + uc;
    } else {
      out[end - 1] := 0x80 + uc % 64;
      PutFromCase(k - 1, out, end - 1, uc / 64, mark);
    }
  }

  /** A closed scan stays closed behind a `\u` escape, and its steps pay for the bytes. */
  lemma UnicodeSteps(s: Text, i: nat)
    requires At(s, i) == BACKSLASH && At(s, i + 1) == LOWER_U && UnicodeEscape(s, i + 2).Ok?
    ensures var r := UnicodeEscape(s, i + 2);
            Steps(s, i) >= |r.value| + Steps(s, r.next) && Scans(s, i) == Scans(s, r.next)
  {
    hide UnicodeEscape, IsHex4;
    HalfPair(s, i + 2);
    HexSteps(s, i + 2);
    HexSteps(s, i + 8);
  }

  lemma HexSteps(s: Text, i: nat)
    ensures IsHex4(s, i) ==> Steps(s, i) == 4 + Steps(s, i + 4) && Scans(s, i) == Scans(s, i + 4)
  {
    if IsHex4(s, i) {
      assert Steps(s, i) == 1 + Steps(s, i + 1);
      assert Steps(s, i + 1) == 1 + Steps(s, i + 2);
      assert Steps(s, i + 2) == 1 + Steps(s, i + 3);
      assert Scans(s, i) == Scans(s, i + 1) == Scans(s, i + 2) == Scans(s, i + 3);
    }
  }

  /** What a `\u` escape yields: at most three bytes for six characters, four for twelve. */
  lemma HalfPair(s: Text, i: nat)
    requires UnicodeEscape(s, i).Ok?
    ensures var r := UnicodeEscape(s, i);
            && IsHex4(s, i)
            && ((r.next == i + 4 && |r.value| <= 3)
                || (r.next == i + 10 && |r.value| <= 4
                    && At(s, i + 4) == BACKSLASH && At(s, i + 5) == LOWER_U && IsHex4(s, i + 6)))
  {
    hide IsHex4;
  }

  /** The buffer of `Steps` bytes holds every unescaped string, so the terminator fits too. */
  lemma {:induction false} UnescapedFits(s: Text, i: nat, acc: Text)
    requires Unescape(s, i, acc).Ok?
    ensures |Unescape(s, i, acc).value| <= |acc| + Steps(s, i)
    decreases |s| - i
  {
    hide UnicodeEscape, ShortEscape;
    var c := At(s, i);
    if c != QUOTE && c != 0 {
      if c != BACKSLASH {
        UnescapedFits(s, i + 1, acc + [c]);
      } else if At(s, i + 1) != LOWER_U {
        UnescapedFits(s, i + 2, acc + [ShortEscape(At(s, i + 1))]);
      } else {
        UnicodeSteps(s, i);
        var r := UnicodeEscape(s, i + 2);
        UnescapedFits(s, r.next, acc + r.value);
      }
    }
  }

  /** `parse_string`: one pass to size the buffer, one to fill it. */
  method ParseString(s: Text, i: nat) returns (r: Parse<Text>)
    ensures r == StringAt(s, i)
  {
    if At(s, i) != QUOTE { return Fail(i); }
    var ptr, len := i + 1, 0;
    while At(s, ptr) != QUOTE && At(s, ptr) != 0
      invariant i + 1 <= ptr
      invariant len + Steps(s, ptr) == Steps(s, i + 1) && Scans(s, ptr) == Scans(s, i + 1)
      decreases |s| - ptr
    {
      len := len + 1;
      if At(s, ptr) == BACKSLASH {
        if At(s, ptr + 1) == 0 { return Undefined; }
        ptr := ptr + 2;
      } else {
        ptr := ptr + 1;
      }
    }
    var out := new Byte[len + 1];
    var p: nat := 0;
    ptr := i + 1;
    while At(s, ptr) != QUOTE && At(s, ptr) != 0
      invariant i + 1 <= ptr && p + Steps(s, ptr) <= len && Scans(s, ptr)
      invariant Unescape(s, i + 1, []) == Unescape(s, ptr, out[..p])
      decreases |s| - ptr
    {
      if At(s, ptr) != BACKSLASH {
        ghost var before := out[..p];
        out[p] := At(s, ptr);
        assert out[..p + 1] == before + [At(s, ptr)];
        p, ptr := p + 1, ptr + 1;
      } else if At(s, ptr + 1) != LOWER_U {
        ghost var before := out[..p];
        out[p] := ShortEscape(At(s, ptr + 1));
        assert out[..p + 1] == before + [ShortEscape(At(s, ptr + 1))];
        p, ptr := p + 1, ptr + 2;
      } else {
        var ok;
        ok, p, ptr := UnescapeUnicode(s, ptr, out, p, i + 1);
        if !ok { return Undefined; }
      }
    }
    out[p] := 0;
    assert out[..p] == out[..][..p];
    r := Ok(out[..p], if At(s, ptr) == QUOTE then ptr + 1 else ptr);
  }

  /** The `\u` case: decodes one or two four-digit groups and writes their UTF-8. */
  method UnescapeUnicode(s: Text, ptr: nat, out: array<Byte>, p: nat, ghost start: nat)
      returns (ok: bool, q: nat, next: nat)
    requires At(s, ptr) == BACKSLASH && At(s, ptr + 1) == LOWER_U && Scans(s, ptr)
    requires p + Steps(s, ptr) < out.Length
    requires Unescape(s, start, []) == Unescape(s, ptr, out[..p])
    modifies out
    ensures !ok ==> Unescape(s, start, []) == Undefined
    ensures ok ==> && ptr < next <= |s| && q + Steps(s, next) < out.Length && Scans(s, next)
                   && Unescape(s, start, []) == Unescape(s, next, out[..q])
  {
    hide Utf8, Hex4, IsHex4, Combine, Steps, Scans;
    ok, q, next := true, p, ptr + 6;
    ghost var old_out := out[..p];
    if UnicodeEscape(s, ptr + 2).Ok? { UnicodeSteps(s, ptr); }
    if !IsHex4(s, ptr + 2) { return false, p, ptr; }
    var uc := Hex4(s, ptr + 2);
    if IsLow(uc) || uc == 0 { assert old_out + [] == old_out; return; }
    if IsHigh(uc) {
      if At(s, ptr + 6) != BACKSLASH || At(s, ptr + 7) != LOWER_U { assert old_out + [] == old_out; return; }
      if !IsHex4(s, ptr + 8) { return false, p, ptr; }
      var uc2 := Hex4(s, ptr + 8);
      next := ptr + 12;
      if !IsLow(uc2) { assert old_out + [] == old_out; return; }
      uc := Combine(uc, uc2);
    }
    q := PutUtf8(out, p, uc);
  }

  /** `parse_value`. */
  method ParseValue(s: Text, i: nat) returns (r: Parse<Json>)
    ensures r == ValueAt(s, i)
    decreases |s| - i, 1
  {
    if Here(s, i, NULL_WORD) { return Ok(Null, i + 4); }
    if Here(s, i, FALSE_WORD) { return Ok(False, i + 5); }
    if Here(s, i, TRUE_WORD) { return Ok(True, i + 4); }
    if At(s, i) == QUOTE {
      var t := ParseString(s, i);
      match t
      case Ok(u, j) => return Ok(String(u), j);
      case Fail(at) => return Fail(at);
      case Undefined => return Undefined;
    }
    if StartsNumber(At(s, i)) { r := ParseNumber(s, i); }
    else if At(s, i) == LBRACKET { r := ParseArray(s, i); }
    else if At(s, i) == LBRACE { r := ParseObject(s, i); }
    else { r := Fail(i); }
  }

  /** `parse_array`. */
  method ParseArray(s: Text, i: nat) returns (r: Parse<Json>)
    requires At(s, i) == LBRACKET
    ensures r == ArrayAt(s, i)
    decreases |s| - i, 0
  {
    hide ValueAt;
    var value := SkipBlanks(s, i + 1);
    if At(s, value) == RBRACKET { return Ok(Array([]), value + 1); }
    var items: seq<Json> := [];
    ghost var start := value;
    while true
      invariant i < value <= |s|
      invariant Elements(s, start, []) == Elements(s, value, items)
      decreases |s| - value
    {
      var at := SkipBlanks(s, value);
      var v := ParseValue(s, at);
      match v
      case Fail(e) => return Fail(e);
      case Undefined => return Undefined;
      case Ok(x, j) =>
        value := SkipBlanks(s, j);
        if At(s, value) != COMMA {
          return if At(s, value) == RBRACKET then Ok(Array(items + [x]), value + 1) else Fail(value);
        }
        value := value + 1;
        items := items + [x];
    }
  }

  /** One round of `parse_object`'s loop: the key, the colon, the value. */
  method ParseMember(s: Text, i: nat) returns (r: Parse<Field>)
    requires i <= |s|
    ensures r == MemberAt(s, i)
    decreases |s| - i, 2
  {
    hide ValueAt, StringAt;
    var at := SkipBlanks(s, i);
    var key := ParseString(s, at);
    match key
    case Fail(e) => return Fail(e);
    case Undefined => return Undefined;
    case Ok(name, j) =>
      at := SkipBlanks(s, j);
      if At(s, at) != COLON { return Fail(at); }
      at := SkipBlanks(s, at + 1);
      var v := ParseValue(s, at);
      match v
      case Fail(e) => return Fail(e);
      case Undefined => return Undefined;
      case Ok(x, l) => return Ok(Field(name, x), l);
  }

  /** `parse_object`. */
  method ParseObject(s: Text, i: nat) returns (r: Parse<Json>)
    requires At(s, i) == LBRACE
    ensures r == ObjectAt(s, i)
    decreases |s| - i, 0
  {
    hide MemberAt;
    var value := SkipBlanks(s, i + 1);
    if At(s, value) == RBRACE { return Ok(Object([]), value + 1); }
    var fields: seq<Field> := [];
    ghost var start := value;
    while true
      invariant i < value <= |s|
      invariant Members(s, start, []) == Members(s, value, fields)
      decreases |s| - value
    {
      var m := ParseMember(s, value);
      match m
      case Fail(e) => return Fail(e);
      case Undefined => return Undefined;
      case Ok(f, j) =>
        value := SkipBlanks(s, j);
        if At(s, value) != COMMA {
          return if At(s, value) == RBRACE then Ok(Object(fields + [f]), value + 1) else Fail(value);
        }
        value := value + 1;
        fields := fields + [f];
    }
  }

  /** `cJSON_Parse`. */
  method Parse(s: Text) returns (r: Parse<Json>)
    ensures r == ParseText(s)
  {
    var i := SkipBlanks(s, 0);
    r := ParseValue(s, i);
  }
}
