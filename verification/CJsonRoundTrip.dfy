/** What the printer writes, the parser reads back: for every printable tree of any depth,
    formatted or not. */
module CJsonRoundTrip {
  import opened CText
  import opened CJson

  // ---------- numbers ----------

  lemma {:induction false} DigitsSkipped(s: Text, i: nat, t: Text, n: int)
    requires Here(s, i, t) && forall k :: 0 <= k < |t| ==> IsDigit(t[k])
    ensures DigitsEnd(s, i) == DigitsEnd(s, i + |t|)
    ensures DigitsValue(s, i, n) == DigitsValue(s, i + |t|, DigitsValue(t, 0, n))
    decreases |t|
  {
    if t != [] {
      HereByte(s, i, t, 0);
      assert t == t[..1] + t[1..];
      HereParts(s, i, t[..1], t[1..]);
      var n' := n * 10 + (t[0] - ZERO);
      DigitsSkipped(s, i + 1, t[1..], n');
      DigitsShift(t, 1, n');
    }
  }

  lemma {:induction false} DigitsShift(t: Text, k: nat, n: int)
    requires k <= |t|
    ensures DigitsValue(t[k..], 0, n) == DigitsValue(t, k, n)
    decreases |t| - k
  {
    DigitsShiftFrom(t, k, 0, n);
  }

  lemma {:induction false} DigitsShiftFrom(t: Text, k: nat, i: nat, n: int)
    requires k <= |t|
    ensures DigitsValue(t[k..], i, n) == DigitsValue(t, k + i, n)
    decreases |t| - k - i
  {
    assert At(t[k..], i) == At(t, k + i);
    if IsDigit(At(t, k + i)) {
      DigitsShiftFrom(t, k, i + 1, n * 10 + (At(t, k + i) - ZERO));
    }
  }

  /** Reading the digits of n on top of m gives m shifted by their count, plus n. */
  lemma {:induction false} DecimalValue(n: nat)
    ensures DigitsValue(Decimal(n), 0, 0) == n
    ensures DigitsEnd(Decimal(n), 0) == |Decimal(n)|
    ensures n == 0 ==> Decimal(n) == [ZERO]
    ensures n > 0 ==> Decimal(n)[0] > ZERO
  {
    var t := Decimal(n);
    if n < 10 {
      assert DigitsValue(t, 1, n) == n;
    } else {
      var d := Decimal(n / 10);
      DecimalValue(n / 10);
      assert Here(t, 0, d);
      DigitsSkipped(t, 0, d, 0);
      assert t[|d|] == ZERO + n % 10;
      assert DigitsValue(t, |d| + 1, n / 10 * 10 + n % 10) == n;
    }
  }

  /** Nothing behind the number continues it. */
  predicate EndsNumber(c: Byte) {
    !IsDigit(c) && c != DOT && c != LOWER_E && c != UPPER_E
  }

  lemma NumberReadBack(s: Text, i: nat, n: int)
    requires Here(s, i, NumberText(n)) && EndsNumber(At(s, i + |NumberText(n)|))
    ensures StartsNumber(At(s, i))
    ensures NumberAt(s, i) == Ok(Number(n as real), i + |NumberText(n)|)
  {
    var m := if n < 0 then -n else n;
    var t := Decimal(m);
    var j := i + |NumberText(n)| - |t|;
    HereByte(s, i, NumberText(n), 0);
    if n < 0 { HereParts(s, i, [MINUS], t); }
    DecimalValue(m);
    HereByte(s, j, t, 0);
    DigitsSkipped(s, j, t, 0);
    if m == 0 {
      assert IntegerPart(s, j) == (0, j + 1);
    } else {
      assert IntegerPart(s, j) == (m, j + |t|);
    }
    assert Exponent(s, j + |t|) == (0, j + |t|);
    assert Pow10(0) == 1.0;
  }

  // ---------- strings ----------

  lemma {:induction false} EscapeReadBack(s: Text, i: nat, t: Text, acc: Text)
    requires NulFree(t) && Here(s, i, Escape(t) + [QUOTE])
    ensures Scans(s, i)
    ensures Unescape(s, i, acc) == Ok(acc + t, i + |Escape(t)| + 1)
    decreases |t|
  {
    hide UnicodeEscape, EscapeByte, ShortEscape;
    if t == [] {
      HereByte(s, i, [QUOTE], 0);
      assert acc + t == acc;
    } else {
      var e := EscapeByte(t[0]);
      EscapeShape(s, i, t);
      EscapeReadBack(s, i + |e|, t[1..], acc + [t[0]]);
      OneEscape(s, i, t[0], acc);
      assert acc + [t[0]] + t[1..] == acc + t;
    }
  }

  /** Seven bytes have a two-letter escape, the other ones below a blank one of four digits, and no more
      is escaped. */
  lemma EscapedExactly(c: Byte)
    requires c != 0
    ensures |EscapeByte(c)| == (if c in {8, 9, 10, 12, 13, 34, 92} then 2 else if c < 32 then 6 else 1)
    ensures c >= 32 && c != 34 && c != 92 ==> EscapeByte(c) == [c]
    ensures EscapeByte(c)[0] == if |EscapeByte(c)| == 1 then c else 92
  {
  }

  lemma EscapeShape(s: Text, i: nat, t: Text)
    requires t != [] && NulFree(t) && Here(s, i, Escape(t) + [QUOTE])
    ensures Here(s, i, EscapeByte(t[0]))
    ensures Here(s, i + |EscapeByte(t[0])|, Escape(t[1..]) + [QUOTE])
    ensures |Escape(t)| == |EscapeByte(t[0])| + |Escape(t[1..])|
  {
    hide EscapeByte, Here;
    var e := EscapeByte(t[0]);
    Assoc(e, Escape(t[1..]), [QUOTE]);
    HereParts(s, i, e, Escape(t[1..]) + [QUOTE]);
  }

  /** One escaped byte is read back as that byte. */
  lemma OneEscape(s: Text, i: nat, c: Byte, acc: Text)
    requires c != 0 && Here(s, i, EscapeByte(c))
    ensures Unescape(s, i, acc) == Unescape(s, i + |EscapeByte(c)|, acc + [c])
    ensures Scans(s, i) == Scans(s, i + |EscapeByte(c)|)
  {
    hide Here, UnicodeEscape, HexDigit;
    var e := EscapeByte(c);
    HereByte(s, i, e, 0);
    if |e| == 2 {
      HereByte(s, i, e, 1);
    } else if |e| == 6 {
      HexEscape(s, i, c, acc);
    }
  }

  /** The escape the printer writes for a control byte. */
  lemma HexEscape(s: Text, i: nat, c: Byte, acc: Text)
    requires 0 < c < 32 && Here(s, i, [BACKSLASH, LOWER_U, ZERO, ZERO, HexDigit(c / 16), HexDigit(c % 16)])
    ensures Unescape(s, i, acc) == Unescape(s, i + 6, acc + [c])
    ensures Scans(s, i) == Scans(s, i + 6)
  {
    hide Here, UnicodeEscape, HexDigit;
    var e := [BACKSLASH, LOWER_U, ZERO, ZERO, HexDigit(c / 16), HexDigit(c % 16)];
    HereByte(s, i, e, 0);
    HereByte(s, i, e, 1);
    HereByte(s, i, e, 2);
    HereByte(s, i, e, 3);
    HereByte(s, i, e, 4);
    HereByte(s, i, e, 5);
    ControlDigits(s, i + 2, c);
    assert Scans(s, i + 2) == Scans(s, i + 3) == Scans(s, i + 4) == Scans(s, i + 5) == Scans(s, i + 6);
  }

  lemma ControlDigits(s: Text, i: nat, c: Byte)
    requires 0 < c < 32 && At(s, i) == At(s, i + 1) == ZERO
    requires At(s, i + 2) == HexDigit(c / 16) && At(s, i + 3) == HexDigit(c % 16)
    ensures UnicodeEscape(s, i) == Ok([c], i + 4)
    ensures At(s, i + 2) !in [0, QUOTE, BACKSLASH] && At(s, i + 3) !in [0, QUOTE, BACKSLASH]
  {
    assert HexValue(HexDigit(c / 16)) == c / 16 && HexValue(HexDigit(c % 16)) == c % 16;
    assert Hex4(s, i) == c;
  }

  lemma QuotedReadBack(s: Text, i: nat, t: Text)
    requires NulFree(t) && Here(s, i, Quoted(t))
    ensures StringAt(s, i) == Ok(t, i + |Quoted(t)|)
  {
    assert Quoted(t) == [QUOTE] + (Escape(t) + [QUOTE]);
    HereByte(s, i, Quoted(t), 0);
    HereParts(s, i, [QUOTE], Escape(t) + [QUOTE]);
    EscapeReadBack(s, i + 1, t, []);
    assert [] + t == t;
  }

  // ---------- values ----------

  /** The first byte of a value's text, which tells its kind. */
  predicate StartsValue(x: Json, c: Byte) {
    match x
    case Null => c == 110
    case False => c == 102
    case True => c == 116
    case Number(_) => StartsNumber(c)
    case String(_) => c == QUOTE
    case Array(_) => c == LBRACKET
    case Object(_) => c == LBRACE
  }

  lemma RenderStart(x: Json, depth: nat, fmt: bool)
    requires Printable(x)
    ensures |Render(x, depth, fmt)| > 0 && StartsValue(x, Render(x, depth, fmt)[0])
  {
  }

  predicate Blank(t: Text) {
    forall k :: 0 <= k < |t| ==> 0 < t[k] <= SPACE
  }

  /** Blanks are skipped up to a byte that is none. */
  lemma {:induction false} SkipBlanks(s: Text, i: nat, blanks: Text)
    requires Here(s, i, blanks) && Blank(blanks)
    requires At(s, i + |blanks|) > SPACE
    ensures Skip(s, i) == i + |blanks|
    decreases |blanks|
  {
    if blanks != [] {
      HereByte(s, i, blanks, 0);
      assert blanks == blanks[..1] + blanks[1..];
      HereParts(s, i, blanks[..1], blanks[1..]);
      SkipBlanks(s, i + 1, blanks[1..]);
    }
  }

  lemma ByteStays(s: Text, j: nat)
    requires At(s, j) > SPACE
    ensures Skip(s, j) == j
  {
  }

  /** A comma stops blanks and numbers; the others are behind it. */
  lemma CommaBehind(s: Text, j: nat, rest: Text)
    requires Here(s, j, [COMMA] + rest)
    ensures At(s, j) == COMMA && Skip(s, j) == j && Here(s, j + 1, rest)
  {
    HereParts(s, j, [COMMA], rest);
    HereByte(s, j, [COMMA], 0);
  }

  /** Blanks and a closing byte stop a number; skipping leads to that byte. */
  lemma EndBehind(s: Text, j: nat, blanks: Text, close: Byte)
    requires Blank(blanks)
    requires close == RBRACE || close == RBRACKET
    requires Here(s, j, blanks + [close])
    ensures Skip(s, j) == j + |blanks| && At(s, Skip(s, j)) == close && EndsNumber(At(s, j))
  {
    hide Skip;
    HereParts(s, j, blanks, [close]);
    HereByte(s, j + |blanks|, [close], 0);
    SkipBlanks(s, j, blanks);
    if blanks != [] { HereByte(s, j, blanks, 0); }
  }

  lemma IndentIsBlank(n: int, fmt: bool)
    ensures Blank(Indent(n, fmt))
  {
    if fmt && n > 0 {
      IndentIsBlank(n - 1, fmt);
    }
  }

  lemma BlankParts(t: Text, u: Text)
    requires Blank(t) && Blank(u)
    ensures Blank(t + u)
  {
  }

  /** The theorem: the text of x, wherever it stands, is read back as x and nothing more. */
  lemma {:induction false} ValueReadBack(x: Json, s: Text, i: nat, depth: nat, fmt: bool)
    requires Printable(x) && Here(s, i, Render(x, depth, fmt))
    requires EndsNumber(At(s, i + |Render(x, depth, fmt)|))
    ensures ValueAt(s, i) == Ok(x, i + |Render(x, depth, fmt)|)
    ensures At(s, i) > SPACE
    decreases x, 1
  {
    hide ValueAt, NumberAt, StringAt, ArrayAt, ObjectAt, RenderItems, RenderFields, NumberText, Quoted;
    var t := Render(x, depth, fmt);
    Dispatched(s, i);
    RenderStart(x, depth, fmt);
    HereByte(s, i, t, 0);
    match x
    case Null =>
    case False =>
    case True =>
    case Number(d) =>
      NumberReadBack(s, i, d.Floor);
      assert d.Floor as real == d;
    case String(u) => QuotedReadBack(s, i, u);
    case Array(items) => ArrayReadBack(items, s, i, depth, fmt);
    case Object(fields) => ObjectReadBack(fields, s, i, depth, fmt);
  }

  lemma WordStarts(s: Text, i: nat)
    ensures Here(s, i, NULL_WORD) ==> At(s, i) == 110
    ensures Here(s, i, FALSE_WORD) ==> At(s, i) == 102
    ensures Here(s, i, TRUE_WORD) ==> At(s, i) == 116
  {
    if Here(s, i, NULL_WORD) { HereByte(s, i, NULL_WORD, 0); }
    if Here(s, i, FALSE_WORD) { HereByte(s, i, FALSE_WORD, 0); }
    if Here(s, i, TRUE_WORD) { HereByte(s, i, TRUE_WORD, 0); }
  }

  /** No text passes the tests of two kinds of value. */
  lemma Dispatched(s: Text, i: nat)
    ensures Here(s, i, NULL_WORD) ==> ValueAt(s, i) == Ok(Null, i + 4)
    ensures Here(s, i, FALSE_WORD) ==> ValueAt(s, i) == Ok(False, i + 5)
    ensures Here(s, i, TRUE_WORD) ==> ValueAt(s, i) == Ok(True, i + 4)
    ensures At(s, i) == QUOTE && StringAt(s, i).Ok? ==>
      ValueAt(s, i) == Ok(String(StringAt(s, i).value), StringAt(s, i).next)
    ensures StartsNumber(At(s, i)) ==> ValueAt(s, i) == NumberAt(s, i)
    ensures At(s, i) == LBRACKET ==> ValueAt(s, i) == ArrayAt(s, i)
    ensures At(s, i) == LBRACE ==> ValueAt(s, i) == ObjectAt(s, i)
  {
    hide Here, NumberAt, StringAt, ArrayAt, ObjectAt;
    WordStarts(s, i);
  }

  lemma {:induction false} ArrayReadBack(items: seq<Json>, s: Text, i: nat, depth: nat, fmt: bool)
    requires Printable(Array(items)) && Here(s, i, Render(Array(items), depth, fmt))
    requires At(s, i) == LBRACKET
    ensures ArrayAt(s, i) == Ok(Array(items), i + |Render(Array(items), depth, fmt)|)
    decreases items, 3
  {
    hide Here, RenderItems, Elements, NulFree;
    var body := RenderItems(items, depth + 1, fmt) + [RBRACKET];
    HereParts(s, i, [LBRACKET], body);
    HereByte(s, i + 1, body, 0);
    if items == [] {
      EmptyLists(depth + 1, fmt);
    } else {
      ItemsStart(items, depth + 1, fmt);
      assert [] + body == body;
      ElementsReadBack(items, [], s, i + 1, depth + 1, fmt, []);
      assert [] + items == items;
    }
  }

  lemma ItemsStart(xs: seq<Json>, depth: nat, fmt: bool)
    requires Printable(Array(xs)) && xs != []
    ensures RenderItems(xs, depth, fmt) != []
    ensures RenderItems(xs, depth, fmt)[0] == Render(xs[0], depth, fmt)[0]
    ensures RenderItems(xs, depth, fmt)[0] > SPACE && RenderItems(xs, depth, fmt)[0] != RBRACKET
  {
    RenderStart(xs[0], depth, fmt);
  }

  /** What stands behind the first element. */
  ghost function ItemsTail(xs: seq<Json>, depth: nat, fmt: bool): Text
    requires xs != [] && Printable(Array(xs))
  {
    if |xs| == 1 then [RBRACKET]
    else [COMMA] + (ItemSeparator(fmt)[1..] + (RenderItems(xs[1..], depth, fmt) + [RBRACKET]))
  }

  /** The text of a non-empty element list stands at `i`, blanks before it. */
  ghost predicate ItemsStand(xs: seq<Json>, s: Text, i: nat, depth: nat, fmt: bool, blanks: Text) {
    && xs != [] && Printable(Array(xs))
    && (blanks == [] || blanks == [SPACE])
    && Here(s, i, blanks + (RenderItems(xs, depth, fmt) + [RBRACKET]))
  }

  lemma ItemsText(xs: seq<Json>, depth: nat, fmt: bool)
    requires xs != [] && Printable(Array(xs))
    ensures RenderItems(xs, depth, fmt) + [RBRACKET]
         == Render(xs[0], depth, fmt) + ItemsTail(xs, depth, fmt)
  {
    hide Render;
    if |xs| > 1 {
      var t := Render(xs[0], depth, fmt);
      var sep := ItemSeparator(fmt);
      var rest := RenderItems(xs[1..], depth, fmt);
      Assoc(t, sep, rest);
      Assoc(t, sep + rest, [RBRACKET]);
      Assoc(sep, rest, [RBRACKET]);
      assert sep == [COMMA] + sep[1..];
      Assoc([COMMA], sep[1..], rest + [RBRACKET]);
    }
  }

  /** A blank, then the first element. */
  lemma ItemsHead(xs: seq<Json>, s: Text, i: nat, depth: nat, fmt: bool, blanks: Text)
    requires ItemsStand(xs, s, i, depth, fmt, blanks)
    ensures xs != [] && Printable(xs[0]) && Printable(Array(xs))
    ensures Skip(s, i) == i + |blanks|
    ensures Here(s, i + |blanks|, Render(xs[0], depth, fmt))
    ensures Here(s, i + |blanks| + |Render(xs[0], depth, fmt)|, ItemsTail(xs, depth, fmt))
  {
    hide Render, Here, NulFree, RenderItems, Skip, ItemsTail;
    var t := Render(xs[0], depth, fmt);
    ItemsText(xs, depth, fmt);
    HereParts(s, i, blanks, t + ItemsTail(xs, depth, fmt));
    HereParts(s, i + |blanks|, t, ItemsTail(xs, depth, fmt));
    RenderStart(xs[0], depth, fmt);
    HereByte(s, i + |blanks|, t, 0);
    SkipBlanks(s, i, blanks);
  }

  /** Behind the first element: the bracket, or a comma and the other elements. */
  lemma ItemsBehind(xs: seq<Json>, s: Text, j: nat, depth: nat, fmt: bool)
    requires xs != [] && Printable(Array(xs)) && Here(s, j, ItemsTail(xs, depth, fmt))
    ensures EndsNumber(At(s, j)) && Skip(s, j) == j
    ensures if |xs| == 1 then At(s, j) == RBRACKET
            else At(s, j) == COMMA && ItemsStand(xs[1..], s, j + 1, depth, fmt, ItemSeparator(fmt)[1..])
  {
    hide Render, Here, NulFree, RenderItems, Skip;
    if |xs| == 1 {
      assert [] + [RBRACKET] == [RBRACKET];
      EndBehind(s, j, [], RBRACKET);
    } else {
      CommaBehind(s, j, ItemSeparator(fmt)[1..] + (RenderItems(xs[1..], depth, fmt) + [RBRACKET]));
    }
  }

  lemma ItemsLength(xs: seq<Json>, depth: nat, fmt: bool)
    requires xs != [] && Printable(Array(xs))
    ensures |RenderItems(xs, depth, fmt)|
         == |Render(xs[0], depth, fmt)|
            + (if |xs| == 1 then 0 else |ItemSeparator(fmt)| + |RenderItems(xs[1..], depth, fmt)|)
  {
    hide Render;
  }

  lemma {:induction false} ElementsReadBack(
      xs: seq<Json>, acc: seq<Json>, s: Text, i: nat, depth: nat, fmt: bool, blanks: Text)
    requires ItemsStand(xs, s, i, depth, fmt, blanks)
    ensures Elements(s, i, acc)
         == Ok(Array(acc + xs), i + |blanks| + |RenderItems(xs, depth, fmt)| + 1)
    decreases xs, 2
  {
    hide ValueAt, Render, Here, RenderItems, ItemsTail, ItemsStand, Printable, Skip, At, EndsNumber;
    ItemsHead(xs, s, i, depth, fmt, blanks);
    var j := i + |blanks|;
    var k := j + |Render(xs[0], depth, fmt)|;
    ItemsBehind(xs, s, k, depth, fmt);
    ItemsLength(xs, depth, fmt);
    ValueReadBack(xs[0], s, j, depth, fmt);
    if |xs| == 1 {
      assert acc + [xs[0]] == acc + xs;
    } else {
      ElementsReadBack(xs[1..], acc + [xs[0]], s, k + 1, depth, fmt, ItemSeparator(fmt)[1..]);
      assert acc + [xs[0]] + xs[1..] == acc + xs;
    }
  }

  lemma {:induction false} ObjectReadBack(fields: seq<Field>, s: Text, i: nat, depth: nat, fmt: bool)
    requires Printable(Object(fields)) && Here(s, i, Render(Object(fields), depth, fmt))
    requires At(s, i) == LBRACE
    ensures ObjectAt(s, i) == Ok(Object(fields), i + |Render(Object(fields), depth, fmt)|)
    decreases fields, 5
  {
    hide MemberText, Members, Here, RenderFields, Render, NulFree, Skip, Indent, ObjectAt;
    ObjectShape(fields, s, i, depth, fmt);
    if fields == [] {
      EmptyObjectReadBack(s, i, Newline(fmt), Indent(depth - 1, fmt), depth, fmt);
    } else {
      var nl, tabs := Newline(fmt), Indent(depth, fmt);
      IndentIsBlank(depth, fmt);
      MembersHead(fields, s, i + 1, depth + 1, fmt, nl, tabs);
      SkipStays(s, i + 1);
      MembersReadBack(fields, [], s, i + 1, depth + 1, fmt, nl, tabs);
      MembersSkip(s, i + 1, []);
      assert [] + fields == fields;
      ObjectOfMembers(s, i);
    }
  }

  lemma EmptyObjectReadBack(s: Text, i: nat, nl: Text, tabs: Text, depth: nat, fmt: bool)
    requires At(s, i) == LBRACE && nl == Newline(fmt) && tabs == Indent(depth - 1, fmt)
    requires Here(s, i + 1, nl + tabs) && At(s, i + 1 + |nl + tabs|) == RBRACE
    ensures ObjectAt(s, i) == Ok(Object([]), i + 1 + |nl| + |tabs| + 1)
  {
    hide Here, Indent;
    IndentIsBlank(depth - 1, fmt);
    BlankParts(nl, tabs);
    SkipBlanks(s, i + 1, nl + tabs);
  }

  lemma ObjectOfMembers(s: Text, i: nat)
    requires At(s, i) == LBRACE && At(s, Skip(s, i + 1)) != RBRACE
    ensures ObjectAt(s, i) == Members(s, Skip(s, i + 1), [])
  {
    hide Members, Skip;
  }

  lemma ObjectShape(fields: seq<Field>, s: Text, i: nat, depth: nat, fmt: bool)
    requires Printable(Object(fields)) && Here(s, i, Render(Object(fields), depth, fmt))
    ensures var nl := Newline(fmt);
            var tabs := Indent(if fields == [] then depth - 1 else depth, fmt);
            && |Render(Object(fields), depth, fmt)|
               == 1 + |nl| + |RenderFields(fields, depth + 1, fmt)| + |tabs| + 1
            && Here(s, i + 1, nl + (RenderFields(fields, depth + 1, fmt) + (tabs + [RBRACE])))
            && (fields == [] ==> RenderFields(fields, depth + 1, fmt) == []
                                 && Here(s, i + 1, nl + tabs)
                                 && At(s, i + 1 + |nl + tabs|) == RBRACE)
  {
    hide Here, RenderFields, Indent, Newline, NulFree;
    var nl := Newline(fmt);
    var tabs := Indent(if fields == [] then depth - 1 else depth, fmt);
    var body := RenderFields(fields, depth + 1, fmt);
    Assoc(body, tabs, [RBRACE]);
    HereParts(s, i, [LBRACE], nl + (body + (tabs + [RBRACE])));
    if fields == [] {
      EmptyLists(depth + 1, fmt);
      assert body + (tabs + [RBRACE]) == tabs + [RBRACE];
      Assoc(nl, tabs, [RBRACE]);
      HereParts(s, i + 1, nl + tabs, [RBRACE]);
      HereByte(s, i + 1 + |nl + tabs|, [RBRACE], 0);
    }
  }

  lemma EmptyLists(depth: nat, fmt: bool)
    ensures RenderFields([], depth, fmt) == [] && RenderItems([], depth, fmt) == []
  {
  }

  lemma {:induction false} SkipStays(s: Text, i: nat)
    ensures Skip(s, Skip(s, i)) == Skip(s, i)
    decreases |s| - i
  {
    if 0 < At(s, i) <= SPACE { SkipStays(s, i + 1); }
  }

  /** Blanks before the first key do not matter. */
  lemma MembersSkip(s: Text, i: nat, acc: seq<Field>)
    requires i <= |s|
    ensures Members(s, Skip(s, i), acc) == Members(s, i, acc)
  {
    hide ValueAt, StringAt;
    SkipStays(s, i);
    assert MemberAt(s, Skip(s, i)) == MemberAt(s, i);
  }

  /** The text of a non-empty member list stands at `i`, blanks before and tabs behind. */
  ghost predicate MembersStand(
      fs: seq<Field>, s: Text, i: nat, depth: nat, fmt: bool, blanks: Text, tabs: Text)
  {
    && fs != [] && Printable(Object(fs))
    && (blanks == [] || blanks == [NEWLINE])
    && Blank(tabs)
    && Here(s, i, blanks + (RenderFields(fs, depth, fmt) + (tabs + [RBRACE])))
  }

  /** The text of a non-empty member list: blanks, then the first member. */
  lemma MembersHead(fs: seq<Field>, s: Text, i: nat, depth: nat, fmt: bool, blanks: Text, tabs: Text)
    requires MembersStand(fs, s, i, depth, fmt, blanks, tabs)
    ensures fs != [] && Printable(Object(fs)) && Blank(tabs) && i <= |s|
    ensures Skip(s, i) == i + |blanks| + |Indent(depth, fmt)|
    ensures At(s, Skip(s, i)) == QUOTE && Here(s, Skip(s, i), MemberText(fs[0], depth, fmt))
    ensures Here(s, Skip(s, i) + |MemberText(fs[0], depth, fmt)|, MembersTail(fs, depth, fmt, tabs))
  {
    hide Here, NulFree, MemberText, RenderFields, Skip, Indent, MembersTail;
    var ind := Indent(depth, fmt);
    IndentIsBlank(depth, fmt);
    BlankParts(blanks, ind);
    var m := MemberText(fs[0], depth, fmt);
    var tail := MembersTail(fs, depth, fmt, tabs);
    MembersText(fs, depth, fmt, blanks, tabs);
    HereParts(s, i, blanks + ind, m + tail);
    var j := i + |blanks + ind|;
    HereParts(s, j, m, tail);
    MemberStart(fs[0], depth, fmt);
    HereByte(s, j, m, 0);
    SkipBlanks(s, i, blanks + ind);
  }

  /** Behind the first member: blanks and the brace, or a comma and the other members. */
  lemma MembersBehind(fs: seq<Field>, s: Text, j: nat, depth: nat, fmt: bool, tabs: Text)
    requires fs != [] && Printable(Object(fs)) && Blank(tabs)
    requires Here(s, j, MembersTail(fs, depth, fmt, tabs))
    ensures EndsNumber(At(s, j))
    ensures if |fs| == 1 then Skip(s, j) == j + |Newline(fmt)| + |tabs| && At(s, Skip(s, j)) == RBRACE
            else At(s, j) == COMMA && Skip(s, j) == j
                 && MembersStand(fs[1..], s, j + 1, depth, fmt, Newline(fmt), tabs)
  {
    hide Here, NulFree, RenderFields, Skip;
    if |fs| == 1 {
      BlankParts(Newline(fmt), tabs);
      EndBehind(s, j, Newline(fmt) + tabs, RBRACE);
    } else {
      CommaBehind(s, j, Newline(fmt) + (RenderFields(fs[1..], depth, fmt) + (tabs + [RBRACE])));
    }
  }

  lemma FirstPrintable(fs: seq<Field>)
    requires fs != [] && Printable(Object(fs))
    ensures NulFree(fs[0].key) && Printable(fs[0].value) && Printable(Object(fs[1..]))
  {
  }

  lemma MembersLength(fs: seq<Field>, depth: nat, fmt: bool)
    requires fs != [] && Printable(Object(fs))
    ensures |RenderFields(fs, depth, fmt)|
         == |Indent(depth, fmt)| + |MemberText(fs[0], depth, fmt)| + (if |fs| > 1 then 1 else 0)
            + |Newline(fmt)| + |RenderFields(fs[1..], depth, fmt)|
    ensures |fs| == 1 ==> RenderFields(fs[1..], depth, fmt) == []
  {
    hide MemberText, Indent;
  }

  /** What stands behind the first member. */
  ghost function MembersTail(fs: seq<Field>, depth: nat, fmt: bool, tabs: Text): Text
    requires fs != [] && Printable(Object(fs))
  {
    if |fs| == 1 then (Newline(fmt) + tabs) + [RBRACE]
    else [COMMA] + (Newline(fmt) + (RenderFields(fs[1..], depth, fmt) + (tabs + [RBRACE])))
  }

  lemma MembersText(fs: seq<Field>, depth: nat, fmt: bool, blanks: Text, tabs: Text)
    requires fs != [] && Printable(Object(fs))
    ensures blanks + (RenderFields(fs, depth, fmt) + (tabs + [RBRACE]))
         == (blanks + Indent(depth, fmt))
            + (MemberText(fs[0], depth, fmt) + MembersTail(fs, depth, fmt, tabs))
  {
    hide MemberText, Indent, Newline, NulFree;
    var comma := if |fs| > 1 then [COMMA] else [];
    var rest := RenderFields(fs[1..], depth, fmt);
    Regroup(blanks, Indent(depth, fmt), MemberText(fs[0], depth, fmt), comma,
            Newline(fmt), rest, tabs + [RBRACE]);
    if |fs| == 1 {
      assert rest == [];
      assert comma + (Newline(fmt) + (rest + (tabs + [RBRACE]))) == (Newline(fmt) + tabs) + [RBRACE];
    }
  }

  lemma Regroup(a: Text, b: Text, c: Text, d: Text, e: Text, f: Text, g: Text)
    ensures a + ((b + (c + (d + (e + f)))) + g) == (a + b) + (c + (d + (e + (f + g))))
  {
    Assoc(e, f, g);
    Assoc(d, e + f, g);
    Assoc(c, d + (e + f), g);
    Assoc(b, c + (d + (e + f)), g);
    Assoc(a, b, c + (d + (e + (f + g))));
  }

  lemma MemberStart(f: Field, depth: nat, fmt: bool)
    requires NulFree(f.key) && Printable(f.value)
    ensures MemberText(f, depth, fmt) != [] && MemberText(f, depth, fmt)[0] == QUOTE
  {
  }

  lemma {:induction false} MemberReadBack(f: Field, s: Text, i: nat, depth: nat, fmt: bool)
    requires NulFree(f.key) && Printable(f.value) && i <= |s|
    requires Here(s, Skip(s, i), MemberText(f, depth, fmt))
    requires EndsNumber(At(s, Skip(s, i) + |MemberText(f, depth, fmt)|))
    ensures MemberAt(s, i) == Ok(f, Skip(s, i) + |MemberText(f, depth, fmt)|)
    decreases f, 2
  {
    hide Here, Quoted, Render, StringAt, ValueAt, NulFree, Printable, KeySeparator, MemberText, Skip;
    var j := Skip(s, i);
    var v := j + |Quoted(f.key)| + |KeySeparator(fmt)|;
    MemberShape(f, s, j, depth, fmt);
    QuotedReadBack(s, j, f.key);
    ValueReadBack(f.value, s, v, depth, fmt);
    SkipToValue(f, s, j, depth, fmt);
  }

  lemma MemberShape(f: Field, s: Text, j: nat, depth: nat, fmt: bool)
    requires NulFree(f.key) && Printable(f.value)
    requires Here(s, j, MemberText(f, depth, fmt))
    ensures Here(s, j, Quoted(f.key))
    ensures Here(s, j + |Quoted(f.key)|, KeySeparator(fmt))
    ensures Here(s, j + |Quoted(f.key)| + |KeySeparator(fmt)|, Render(f.value, depth, fmt))
    ensures |MemberText(f, depth, fmt)|
         == |Quoted(f.key)| + |KeySeparator(fmt)| + |Render(f.value, depth, fmt)|
  {
    hide Here, Quoted, Render, NulFree, Printable, KeySeparator;
    HereParts(s, j, Quoted(f.key), KeySeparator(fmt) + Render(f.value, depth, fmt));
    HereParts(s, j + |Quoted(f.key)|, KeySeparator(fmt), Render(f.value, depth, fmt));
  }

  lemma SkipToValue(f: Field, s: Text, j: nat, depth: nat, fmt: bool)
    requires NulFree(f.key) && Here(s, j + |Quoted(f.key)|, KeySeparator(fmt))
    requires At(s, j + |Quoted(f.key)| + |KeySeparator(fmt)|) > SPACE
    ensures var k := j + |Quoted(f.key)|;
            At(s, k) == COLON && Skip(s, k) == k && Skip(s, k + 1) == k + |KeySeparator(fmt)|
  {
    hide Here, Quoted, Skip;
    var k := j + |Quoted(f.key)|;
    var blanks := KeySeparator(fmt)[1..];
    assert KeySeparator(fmt) == [COLON] + blanks;
    HereParts(s, k, [COLON], blanks);
    HereByte(s, k, [COLON], 0);
    ByteStays(s, k);
    SkipBlanks(s, k + 1, blanks);
  }

  lemma MembersUnfold(s: Text, i: nat, acc: seq<Field>, f: Field, j: nat)
    requires i <= |s| && MemberAt(s, i) == Ok(f, j)
    ensures j <= |s| && Skip(s, j) <= |s|
    ensures var k := Skip(s, j);
            && (At(s, k) == COMMA ==> k < |s| && Members(s, i, acc) == Members(s, k + 1, acc + [f]))
            && (At(s, k) == RBRACE ==> Members(s, i, acc) == Ok(Object(acc + [f]), k + 1))
  {
    hide MemberAt, Skip;
  }

  lemma {:induction false} MembersReadBack(
      fs: seq<Field>, acc: seq<Field>, s: Text, i: nat, depth: nat, fmt: bool, blanks: Text, tabs: Text)
    requires MembersStand(fs, s, i, depth, fmt, blanks, tabs)
    ensures Members(s, i, acc)
         == Ok(Object(acc + fs), i + |blanks| + |RenderFields(fs, depth, fmt)| + |tabs| + 1)
    decreases fs, 4
  {
    hide *;
    MembersHead(fs, s, i, depth, fmt, blanks, tabs);
    FirstPrintable(fs);
    MembersBehind(fs, s, Skip(s, i) + |MemberText(fs[0], depth, fmt)|, depth, fmt, tabs);
    MembersLength(fs, depth, fmt);
    MemberReadBack(fs[0], s, i, depth, fmt);
    var k := Skip(s, i) + |MemberText(fs[0], depth, fmt)|;
    MembersUnfold(s, i, acc, fs[0], k);
    if |fs| == 1 {
      assert acc + [fs[0]] == acc + fs;
    } else {
      MembersReadBack(fs[1..], acc + [fs[0]], s, k + 1, depth, fmt, Newline(fmt), tabs);
      assert acc + [fs[0]] + fs[1..] == acc + fs;
    }
  }

  /** `cJSON_Parse` of `cJSON_Print` and of `cJSON_PrintUnformatted` gives the tree back and
      consumes the whole text. */
  lemma RoundTrip(x: Json, fmt: bool)
    requires Printable(x)
    ensures ParseText(Render(x, 0, fmt)) == Ok(x, |Render(x, 0, fmt)|)
  {
    var s := Render(x, 0, fmt);
    assert s[0..|s|] == s;
    ValueReadBack(x, s, 0, 0, fmt);
  }

  /** So the text of a tree determines the tree. */
  lemma RenderInjective(x: Json, y: Json, fmt: bool)
    requires Printable(x) && Printable(y) && Render(x, 0, fmt) == Render(y, 0, fmt)
    ensures x == y
  {
    RoundTrip(x, fmt);
    RoundTrip(y, fmt);
  }
}
