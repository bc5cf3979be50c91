/** The printer of `gbcom_common/json/cjson.c` as it runs: each value's text is built in a
    buffer whose size is counted beforehand. Every store below is checked to be inside that
    buffer. */
module CJsonPrinter {
  import opened CText
  import opened CJson

  /** What printing leaves: the text, or a store behind the end of the buffer. */
  datatype Printed = Printed(text: Text) | Overrun

  /** The bytes a printer asks for to hold the text of `x` at `depth` and its terminator. */
  function Allocated(x: Json, depth: nat, fmt: bool): nat
    requires Printable(x)
  {
    match x
    case Null => 5
    case False => 6
    case True => 5
    case Number(_) => 21
    case String(t) => |Escape(t)| + 3
    case Array(items) => if items == [] then 3 else 5 + ItemsRoom(Texts(items, depth + 1, fmt), fmt)
    case Object(fields) =>
      if fields == [] then (if fmt then depth + 3 else 3)
      else 7 + (if fmt then depth + 1 else 0) + FieldsRoom(fields, depth + 1, fmt)
  }

  function Texts(items: seq<Json>, depth: nat, fmt: bool): (ts: seq<Text>)
    requires Printable(Array(items))
    ensures |ts| == |items|
  {
    seq(|items|, i requires 0 <= i < |items| => Render(items[i], depth, fmt))
  }

  function ItemsRoom(entries: seq<Text>, fmt: bool): nat {
    if entries == [] then 0 else |entries[0]| + 2 + (if fmt then 1 else 0) + ItemsRoom(entries[1..], fmt)
  }

  function FieldRoom(f: Field, depth: nat, fmt: bool): nat
    requires NulFree(f.key) && Printable(f.value)
  {
    |Render(f.value, depth, fmt)| + |Quoted(f.key)| + 2 + (if fmt then 2 + depth else 0)
  }

  function FieldsRoom(fs: seq<Field>, depth: nat, fmt: bool): nat
    requires Printable(Object(fs))
  {
    if fs == [] then 0 else FieldRoom(fs[0], depth, fmt) + FieldsRoom(fs[1..], depth, fmt)
  }

  // ---------- the sizes suffice ----------

  lemma {:induction false} TabsLength(n: int)
    ensures |Tabs(n)| == if n <= 0 then 0 else n
    decreases if n < 0 then 0 else n
  {
    if n > 0 { TabsLength(n - 1); }
  }

  lemma {:induction false} DecimalLength(n: nat, k: nat, bound: nat)
    requires k > 0 && n < bound && bound == Pow(k)
    ensures |Decimal(n)| <= k
    decreases k
  {
    if n >= 10 {
      DecimalLength(n / 10, k - 1, Pow(k - 1));
    }
  }

  function Pow(k: nat): nat {
    if k == 0 then 1 else 10 * Pow(k - 1)
  }

  lemma NumberLength(n: int)
    requires -0x8000_0000 <= n < 0x8000_0000
    ensures |NumberText(n)| <= 11
  {
    assert Pow(2) == 100 && Pow(4) == 10000 && Pow(6) == 1000000 && Pow(8) == 100000000;
    assert Pow(10) == 10000000000;
    DecimalLength(if n < 0 then -n else n, 10, Pow(10));
  }

  lemma {:induction false} ItemsFit(items: seq<Json>, depth: nat, fmt: bool)
    requires Printable(Array(items))
    ensures |RenderItems(items, depth, fmt)| <= ItemsRoom(Texts(items, depth, fmt), fmt)
    decreases |items|
  {
    hide Render;
    var ts := Texts(items, depth, fmt);
    if items != [] {
      assert Printable(Array(items[1..]));
      assert ts[1..] == Texts(items[1..], depth, fmt);
      ItemsFit(items[1..], depth, fmt);
    }
  }

  /** For members: what is left of each one's share after the separators. */
  lemma {:induction false} FieldsFit(fs: seq<Field>, depth: nat, fmt: bool)
    requires Printable(Object(fs))
    ensures |RenderFields(fs, depth, fmt)| <= FieldsRoom(fs, depth, fmt)
    decreases |fs|
  {
    if fs != [] {
      assert Printable(Object(fs[1..]));
      hide Render, Quoted, NulFree;
      TabsLength(depth);
      FieldsFit(fs[1..], depth, fmt);
    }
  }

  /** The count made beforehand covers the text and its terminator for every value and depth,
      formatted or not; the one exception is the formatted empty object at the top. */
  lemma AllocatedCovers(x: Json, depth: nat, fmt: bool)
    requires Printable(x)
    ensures |Render(x, depth, fmt)| + 1 <= Allocated(x, depth, fmt)
       <==> !(x == Object([]) && fmt && depth == 0)
    ensures x.String? ==> |Render(x, depth, fmt)| + 1 == Allocated(x, depth, fmt)
  {
    match x
    case Number(d) => NumberLength(d.Floor);
    case Array(items) =>
      hide Texts;
      ItemsFit(items, depth + 1, fmt);
    case Object(fields) =>
      TabsLength(depth - 1);
      TabsLength(depth);
      FieldsFit(fields, depth + 1, fmt);
    case _ =>
  }

  /** Formatted, the top-level `{}` takes four bytes where three are asked for. */
  lemma EmptyObjectOverruns()
    ensures Render(Object([]), 0, true) == [LBRACE, NEWLINE, RBRACE]
    ensures Allocated(Object([]), 0, true) == 3
  {
  }

  // ---------- the stores ----------

  /** `strcpy`: the text and the terminator behind it. */
  method StrCpy(out: array<Byte>, p: nat, t: Text) returns (q: nat)
    requires p + |t| < out.Length
    modifies out
    ensures q == p + |t| && out[..q] == old(out[..p]) + t && out[q] == 0
  {
    q := p;
    for i := 0 to |t|
      invariant q == p + i && out[..q] == old(out[..p]) + t[..i]
    {
      out[q] := t[i];
      q := q + 1;
    }
    out[q] := 0;
    assert out[..q] == old(out[..p]) + t[..|t|];
    assert t[..|t|] == t;
  }

  /** `*ptr++ = c`. */
  method Put(out: array<Byte>, p: nat, c: Byte) returns (q: nat)
    requires p < out.Length
    modifies out
    ensures q == p + 1 && out[..q] == old(out[..p]) + [c]
  {
    out[p] := c;
    q := p + 1;
  }

  method PutTabs(out: array<Byte>, p: nat, n: int) returns (q: nat)
    requires p + |Tabs(n)| <= out.Length
    modifies out
    ensures q == p + |Tabs(n)| && out[..q] == old(out[..p]) + Tabs(n)
  {
    TabsLength(n);
    q := p;
    var j := 0;
    while j < n
      invariant 0 <= j && (n >= 0 ==> j <= n) && (n < 0 ==> j == 0)
      invariant q == p + j && q <= out.Length
      invariant out[..q] + Tabs(n - j) == old(out[..p]) + Tabs(n)
    {
      ghost var was := out[..q];
      q := Put(out, q, TAB);
      assert was + ([TAB] + Tabs(n - j - 1)) == (was + [TAB]) + Tabs(n - j - 1);
      j := j + 1;
    }
    assert out[..q] + [] == out[..q];
  }

  /** The bytes written for `c` by the escaping switch. */
  method PutEscape(out: array<Byte>, p: nat, c: Byte) returns (q: nat)
    requires c != 0 && p + |EscapeByte(c)| < out.Length
    modifies out
    ensures q == p + |EscapeByte(c)| && out[..q] == old(out[..p]) + EscapeByte(c)
  {
    q := p;
    if c > 31 && c != QUOTE && c != BACKSLASH {
      q := Put(out, q, c);
    } else {
      q := Put(out, q, BACKSLASH);
      match c
      case 92 => q := Put(out, q, 92);
      case 34 => q := Put(out, q, 34);
      case 8 => q := Put(out, q, 98);
      case 12 => q := Put(out, q, 102);
      case 10 => q := Put(out, q, 110);
      case 13 => q := Put(out, q, 114);
      case 9 => q := Put(out, q, 116);
      case _ => q := StrCpy(out, q, [LOWER_U, ZERO, ZERO, HexDigit(c / 16), HexDigit(c % 16)]);
    }
  }

  /** `print_string_ptr`: one pass counts the escaped bytes, one writes them. */
  method PrintString(str: Text) returns (t: Text)
    requires NulFree(str)
    ensures t == Quoted(str)
  {
    var ptr, len := 0, 0;
    while ptr < |str|
      invariant 0 <= ptr <= |str| && len + |Escape(str[ptr..])| == |Escape(str)|
    {
      assert str[ptr..][1..] == str[ptr + 1..];
      var token := str[ptr];
      len := len + 1;
      if token in [34, 92, 8, 12, 10, 13, 9] { len := len + 1; }
      else if token < 32 { len := len + 5; }
      ptr := ptr + 1;
    }
    assert str[..] == str && str[ptr..] == [];
    var out := new Byte[len + 3];
    var p := Put(out, 0, QUOTE);
    assert out[..p] == [QUOTE];
    ptr := 0;
    while ptr < |str|
      invariant 0 <= ptr <= |str| && 0 <= p && p + |Escape(str[ptr..])| == len + 1
      invariant out[..p] + Escape(str[ptr..]) == [QUOTE] + Escape(str)
    {
      hide EscapeByte;
      assert str[ptr..][1..] == str[ptr + 1..];
      ghost var was := out[..p];
      p := PutEscape(out, p, str[ptr]);
      Assoc(was, EscapeByte(str[ptr]), Escape(str[ptr + 1..]));
      ptr := ptr + 1;
    }
    assert out[..p] + [] == out[..p];
    p := Put(out, p, QUOTE);
    out[p] := 0;
    t := out[..p];
  }

  lemma ItemsUnfold(items: seq<Json>, i: nat, depth: nat, fmt: bool)
    requires Printable(Array(items)) && i < |items|
    ensures Printable(items[i]) && Printable(Array(items[i..])) && Printable(Array(items[i + 1..]))
    ensures RenderItems(items[i..], depth, fmt)
         == Render(items[i], depth, fmt)
            + ((if i < |items| - 1 then ItemSeparator(fmt) else []) + RenderItems(items[i + 1..], depth, fmt))
    ensures ItemsRoom(Texts(items[i..], depth, fmt), fmt)
         == |Render(items[i], depth, fmt)| + 2 + (if fmt then 1 else 0)
            + ItemsRoom(Texts(items[i + 1..], depth, fmt), fmt)
  {
    hide Render;
    assert items[i..][1..] == items[i + 1..];
    assert Texts(items[i..], depth, fmt)[1..] == Texts(items[i + 1..], depth, fmt);
    var sep, rest := ItemSeparator(fmt), RenderItems(items[i + 1..], depth, fmt);
    if i < |items| - 1 {
      Assoc(Render(items[i], depth, fmt), sep, rest);
    }
  }

  /** `print_array`: the texts of the children first, then the buffer. */
  method PrintArray(items: seq<Json>, depth: nat, fmt: bool) returns (t: Text)
    requires Printable(Array(items))
    ensures t == Render(Array(items), depth, fmt)
    decreases items, 0
  {
    hide Render, RenderItems, ItemsRoom, Texts, ItemSeparator, Printable;
    if items == [] {
      t := PrintEmptyArray(depth, fmt);
      return;
    }
    var entries: seq<Text> := [];
    var len := 5;
    assert items[0..] == items;
    for i := 0 to |items|
      invariant Printable(Array(items[i..])) && |entries| == i
      invariant len + ItemsRoom(Texts(items[i..], depth + 1, fmt), fmt)
             == 5 + ItemsRoom(Texts(items, depth + 1, fmt), fmt)
      invariant forall k :: 0 <= k < i ==> Printable(items[k]) && entries[k] == Render(items[k], depth + 1, fmt)
    {
      ItemsUnfold(items, i, depth + 1, fmt);
      var ret := PrintValue(items[i], depth + 1, fmt);
      entries := entries + [ret.text];
      len := len + |ret.text| + 2 + (if fmt then 1 else 0);
    }
    ItemsEnd(items, depth + 1, fmt);
    t := JoinItems(items, entries, len, depth, fmt);
  }

  method PrintEmptyArray(depth: nat, fmt: bool) returns (t: Text)
    ensures t == Render(Array([]), depth, fmt)
  {
    var out := new Byte[3];
    var q := StrCpy(out, 0, [LBRACKET, RBRACKET]);
    t := out[..q];
  }

  lemma ItemsEnd(items: seq<Json>, depth: nat, fmt: bool)
    ensures items[|items|..] == [] && ItemsRoom(Texts([], depth, fmt), fmt) == 0
    ensures RenderItems([], depth, fmt) == []
  {
  }

  lemma ArrayText(items: seq<Json>, depth: nat, fmt: bool)
    requires Printable(Array(items)) && items != []
    ensures forall i :: 0 <= i < |items| ==> Printable(items[i])
    ensures Render(Array(items), depth, fmt) == [LBRACKET] + (RenderItems(items, depth + 1, fmt) + [RBRACKET])
  {
  }

  /** The second half of `print_array`: the brackets, the texts and the separators. */
  method JoinItems(items: seq<Json>, entries: seq<Text>, len: nat, depth: nat, fmt: bool) returns (t: Text)
    requires Printable(Array(items)) && items != [] && |entries| == |items|
    requires len == 5 + ItemsRoom(Texts(items, depth + 1, fmt), fmt)
    requires forall k :: 0 <= k < |items| ==> entries[k] == Render(items[k], depth + 1, fmt)
    ensures t == Render(Array(items), depth, fmt)
  {
    hide Render, RenderItems, ItemsRoom, Texts, Printable, ItemSeparator;
    ArrayText(items, depth, fmt);
    ghost var all := RenderItems(items, depth + 1, fmt);
    var out := new Byte[len];
    var p := Put(out, 0, LBRACKET);
    assert out[..p] == [LBRACKET];
    out[p] := 0;
    assert items[0..] == items;
    ghost var done := out[..p];
    for i := 0 to |items|
      invariant Printable(Array(items[i..]))
      invariant 0 <= p && p + ItemsRoom(Texts(items[i..], depth + 1, fmt), fmt) + 2 <= out.Length
      invariant done == out[..p] && done + RenderItems(items[i..], depth + 1, fmt) == [LBRACKET] + all
    {
      ItemsUnfold(items, i, depth + 1, fmt);
      ghost var sep := if i < |items| - 1 then ItemSeparator(fmt) else [];
      Assoc(entries[i], sep, RenderItems(items[i + 1..], depth + 1, fmt));
      Assoc(done, entries[i] + sep, RenderItems(items[i + 1..], depth + 1, fmt));
      p := PutItem(out, p, entries[i], i != |items| - 1, fmt);
      done := out[..p];
    }
    ItemsEnd(items, depth + 1, fmt);
    assert done + [] == done;
    p := Put(out, p, RBRACKET);
    out[p] := 0;
    Assoc([LBRACKET], all, [RBRACKET]);
    t := out[..p];
  }

  method PutItem(out: array<Byte>, p: nat, entry: Text, more: bool, fmt: bool) returns (q: nat)
    requires p + |entry| + 2 + (if fmt then 1 else 0) <= out.Length
    modifies out
    ensures q <= p + |entry| + 1 + (if fmt then 1 else 0)
    ensures out[..q] == old(out[..p]) + (entry + (if more then ItemSeparator(fmt) else []))
  {
    q := StrCpy(out, p, entry);
    if more { q := PutComma(out, q, fmt); }
  }

  method PutComma(out: array<Byte>, p: nat, fmt: bool) returns (q: nat)
    requires p + 2 + (if fmt then 1 else 0) <= out.Length
    modifies out
    ensures q == p + |ItemSeparator(fmt)| && out[..q] == old(out[..p]) + ItemSeparator(fmt)
  {
    q := Put(out, p, COMMA);
    if fmt { q := Put(out, q, SPACE); }
    out[q] := 0;
  }

  lemma FieldsUnfold(fs: seq<Field>, i: nat, depth: nat, fmt: bool)
    requires Printable(Object(fs)) && i < |fs|
    ensures NulFree(fs[i].key) && Printable(fs[i].value)
    ensures Printable(Object(fs[i..])) && Printable(Object(fs[i + 1..]))
    ensures RenderFields(fs[i..], depth, fmt)
         == FieldLine(fs, i, depth, fmt) + RenderFields(fs[i + 1..], depth, fmt)
    ensures FieldsRoom(fs[i..], depth, fmt) == FieldRoom(fs[i], depth, fmt) + FieldsRoom(fs[i + 1..], depth, fmt)
  {
    hide MemberText, FieldRoom;
    assert fs[i..][1..] == fs[i + 1..] && fs[i..][0] == fs[i];
    var m, c := MemberText(fs[i], depth, fmt), if i < |fs| - 1 then [COMMA] else [];
    var nl, rest := Newline(fmt), RenderFields(fs[i + 1..], depth, fmt);
    Assoc(c, nl, rest);
    Assoc(m, c + nl, rest);
    Assoc(Indent(depth, fmt), m + (c + nl), rest);
  }

  /** What one round of the composing loop writes. */
  ghost function FieldLine(fs: seq<Field>, i: nat, depth: nat, fmt: bool): Text
    requires i < |fs| && NulFree(fs[i].key) && Printable(fs[i].value)
  {
    Indent(depth, fmt)
    + (MemberText(fs[i], depth, fmt) + ((if i < |fs| - 1 then [COMMA] else []) + Newline(fmt)))
  }

  /** `print_object`. */
  method PrintObject(fields: seq<Field>, depth: nat, fmt: bool) returns (r: Printed)
    requires Printable(Object(fields))
    ensures r == if fields == [] && fmt && depth == 0 then Overrun
                 else Printed(Render(Object(fields), depth, fmt))
    decreases fields, 0
  {
    hide Render, RenderFields, FieldsRoom, FieldRoom, FieldLine, AreTexts, Quoted, NulFree, Printable;
    if fields == [] {
      r := PrintEmptyObject(depth, fmt);
      return;
    }
    var names: seq<Text>, entries: seq<Text> := [], [];
    var len := 7 + (if fmt then depth + 1 else 0);
    ghost var start := len;
    assert fields[0..] == fields;
    for i := 0 to |fields|
      invariant Printable(Object(fields[i..])) && |names| == |entries| == i
      invariant len + FieldsRoom(fields[i..], depth + 1, fmt) == start + FieldsRoom(fields, depth + 1, fmt)
      invariant forall k :: 0 <= k < i ==> AreTexts(fields[k], names[k], entries[k], depth + 1, fmt)
    {
      FieldsUnfold(fields, i, depth + 1, fmt);
      var name, entry := PrintMember(fields[i], depth + 1, fmt);
      names, entries := names + [name], entries + [entry];
      len := len + |entry| + |name| + 2 + (if fmt then 2 + (depth + 1) else 0);
    }
    FieldsEnd(fields, depth + 1, fmt);
    var t := JoinFields(fields, names, entries, len, depth, fmt);
    r := Printed(t);
  }

  method PrintMember(f: Field, depth: nat, fmt: bool) returns (name: Text, entry: Text)
    requires NulFree(f.key) && Printable(f.value) && depth > 0
    ensures AreTexts(f, name, entry, depth, fmt)
    ensures |entry| + |name| + 2 + (if fmt then 2 + depth else 0) == FieldRoom(f, depth, fmt)
    decreases f, 2
  {
    name := PrintString(f.key);
    var ret := PrintValue(f.value, depth, fmt);
    entry := ret.text;
  }

  ghost predicate AreTexts(f: Field, name: Text, entry: Text, depth: nat, fmt: bool) {
    NulFree(f.key) && Printable(f.value) && name == Quoted(f.key) && entry == Render(f.value, depth, fmt)
  }

  lemma FieldsEnd(fs: seq<Field>, depth: nat, fmt: bool)
    ensures fs[|fs|..] == [] && FieldsRoom([], depth, fmt) == 0 && RenderFields([], depth, fmt) == []
  {
  }

  lemma EmptyObjectText(depth: nat, fmt: bool)
    ensures Render(Object([]), depth, fmt) == [LBRACE] + (Newline(fmt) + (Indent(depth - 1, fmt) + [RBRACE]))
    ensures |Indent(depth - 1, fmt)| == if fmt && depth > 0 then depth - 1 else 0
  {
    hide Indent;
    FieldsEnd([], depth + 1, fmt);
    assert [] + (Indent(depth - 1, fmt) + [RBRACE]) == Indent(depth - 1, fmt) + [RBRACE];
    IndentLength(if depth > 0 then depth - 1 else 0, fmt);
    if depth == 0 { NoTabs(fmt); }
  }

  lemma NoTabs(fmt: bool)
    ensures Indent(-1, fmt) == []
  {
  }

  /** The branch for an object without members; its last store is the one that can miss. */
  method PrintEmptyObject(depth: nat, fmt: bool) returns (r: Printed)
    ensures r == if fmt && depth == 0 then Overrun else Printed(Render(Object([]), depth, fmt))
  {
    hide Render, Tabs;
    EmptyObjectText(depth, fmt);
    var out := new Byte[if fmt then depth + 3 else 3];
    var p := Put(out, 0, LBRACE);
    if fmt {
      p := Put(out, p, NEWLINE);
      p := PutTabs(out, p, depth - 1);
    }
    assert out[..p] == [LBRACE] + (Newline(fmt) + Indent(depth - 1, fmt));
    p := Put(out, p, RBRACE);
    if p == out.Length { return Overrun; }
    out[p] := 0;
    Assoc(Newline(fmt), Indent(depth - 1, fmt), [RBRACE]);
    Assoc([LBRACE], Newline(fmt) + Indent(depth - 1, fmt), [RBRACE]);
    r := Printed(out[..p]);
  }

  lemma ObjectText(fields: seq<Field>, depth: nat, fmt: bool)
    requires Printable(Object(fields)) && fields != []
    ensures forall i :: 0 <= i < |fields| ==> Printable(fields[i].value) && NulFree(fields[i].key)
    ensures Render(Object(fields), depth, fmt)
      == [LBRACE] + (Newline(fmt) + (RenderFields(fields, depth + 1, fmt) + (Indent(depth, fmt) + [RBRACE])))
  {
  }

  /** The second half of `print_object`. */
  method JoinFields(fields: seq<Field>, names: seq<Text>, entries: seq<Text>, len: nat, depth: nat, fmt: bool)
      returns (t: Text)
    requires Printable(Object(fields)) && fields != []
    requires |names| == |entries| == |fields|
    requires len == 7 + (if fmt then depth + 1 else 0) + FieldsRoom(fields, depth + 1, fmt)
    requires forall k :: 0 <= k < |fields| ==> AreTexts(fields[k], names[k], entries[k], depth + 1, fmt)
    ensures t == Render(Object(fields), depth, fmt)
  {
    hide Render, RenderFields, FieldsRoom, FieldRoom, FieldLine, Printable, Tabs, AreTexts, Newline;
    ObjectText(fields, depth, fmt);
    ghost var all := RenderFields(fields, depth + 1, fmt);
    ghost var open := [LBRACE] + Newline(fmt);
    ghost var ind := Indent(depth, fmt);
    IndentLength(depth, fmt);
    var out := new Byte[len];
    var p := PutOpening(out, fmt);
    assert fields[0..] == fields;
    ghost var done := out[..p];
    for i := 0 to |fields|
      invariant Printable(Object(fields[i..]))
      invariant 0 <= p && p + FieldsRoom(fields[i..], depth + 1, fmt) + |ind| + 2 <= out.Length
      invariant done == out[..p] && done + RenderFields(fields[i..], depth + 1, fmt) == open + all
    {
      FieldsUnfold(fields, i, depth + 1, fmt);
      Assoc(done, FieldLine(fields, i, depth + 1, fmt), RenderFields(fields[i + 1..], depth + 1, fmt));
      p := PutField(out, p, fields, i, names[i], entries[i], depth + 1, fmt);
      done := out[..p];
    }
    FieldsEnd(fields, depth + 1, fmt);
    assert done + [] == done;
    p := PutClosing(out, p, depth, fmt);
    Assoc(open, all, ind + [RBRACE]);
    Assoc([LBRACE], Newline(fmt), all + (ind + [RBRACE]));
    t := out[..p];
  }

  lemma IndentLength(n: nat, fmt: bool)
    ensures |Indent(n, fmt)| == if fmt then n else 0
  {
    TabsLength(n);
  }

  method PutOpening(out: array<Byte>, fmt: bool) returns (p: nat)
    requires out.Length > 2
    modifies out
    ensures (p == if fmt then 2 else 1) && out[..p] == [LBRACE] + Newline(fmt)
  {
    p := Put(out, 0, LBRACE);
    if fmt { p := Put(out, p, NEWLINE); }
    out[p] := 0;
  }

  method PutClosing(out: array<Byte>, p: nat, depth: nat, fmt: bool) returns (q: nat)
    requires p + |Indent(depth, fmt)| + 2 <= out.Length
    modifies out
    ensures q < out.Length && out[..q] == old(out[..p]) + (Indent(depth, fmt) + [RBRACE])
  {
    q := p;
    if fmt { q := PutTabs(out, q, depth); }
    q := Put(out, q, RBRACE);
    out[q] := 0;
  }

  /** One round of the composing loop. */
  method PutField(out: array<Byte>, p: nat, fields: seq<Field>, i: nat, name: Text, entry: Text,
                  depth: nat, fmt: bool) returns (q: nat)
    requires i < |fields| && AreTexts(fields[i], name, entry, depth, fmt)
    requires p + FieldRoom(fields[i], depth, fmt) + 2 <= out.Length
    modifies out
    ensures q <= p + FieldRoom(fields[i], depth, fmt)
    ensures out[..q] == old(out[..p]) + FieldLine(fields, i, depth, fmt)
  {
    hide Render, Quoted, NulFree, Printable, Tabs;
    TabsLength(depth);
    ghost var was := out[..p];
    ghost var ind := Indent(depth, fmt);
    q := p;
    if fmt { q := PutTabs(out, q, depth); } else { assert was + [] == was; }
    q := StrCpy(out, q, name);
    q := Put(out, q, COLON);
    if fmt { q := Put(out, q, TAB); }
    assert out[..q] == was + ind + name + KeySeparator(fmt);
    q := StrCpy(out, q, entry);
    ghost var m := MemberText(fields[i], depth, fmt);
    Assoc(was + ind + name, KeySeparator(fmt), entry);
    Assoc(was + ind, name, KeySeparator(fmt) + entry);
    assert out[..q] == was + ind + m;
    q := PutLineEnd(out, q, i != |fields| - 1, fmt);
    ghost var end := (if i < |fields| - 1 then [COMMA] else []) + Newline(fmt);
    Assoc(was + ind, m, end);
    Assoc(was, ind, m + end);
  }

  /** The comma but for the last member, the newline when formatted, the terminator. */
  method PutLineEnd(out: array<Byte>, p: nat, more: bool, fmt: bool) returns (q: nat)
    requires p + (if more then 1 else 0) + (if fmt then 1 else 0) < out.Length
    modifies out
    ensures q == p + (if more then 1 else 0) + (if fmt then 1 else 0)
    ensures out[..q] == old(out[..p]) + ((if more then [COMMA] else []) + Newline(fmt))
  {
    q := p;
    if more { q := Put(out, q, COMMA); }
    if fmt { q := Put(out, q, NEWLINE); }
    out[q] := 0;
  }

  /** `print_value`. */
  method PrintValue(x: Json, depth: nat, fmt: bool) returns (r: Printed)
    requires Printable(x)
    ensures r == if x == Object([]) && fmt && depth == 0 then Overrun else Printed(Render(x, depth, fmt))
    decreases x, 1
  {
    match x
    case Null => r := Printed(NULL_WORD);
    case False => r := Printed(FALSE_WORD);
    case True => r := Printed(TRUE_WORD);
    case Number(d) => r := Printed(NumberText(d.Floor));
    case String(u) => var t := PrintString(u); r := Printed(t);
    case Array(items) => var t := PrintArray(items, depth, fmt); r := Printed(t);
    case Object(fields) => r := PrintObject(fields, depth, fmt);
  }
}
