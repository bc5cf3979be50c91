/** The two layouts of the printer of `gbcom_common/json/cjson.c`: the formatted text is the plain one with
    blanks put in by a rule that looks at one byte after the other. */
module CJsonLayout {
  import opened CText
  import opened CJson

  // ---------- the rule ----------

  datatype Spot = Outside | Inside | Escaped

  /** Where a scan stands: in a string or not, in which objects (true) and arrays (false), and whether the
      tabs of a line are still due. */
  datatype Scan = Scan(spot: Spot, open: seq<bool>, due: bool)

  function Popped(open: seq<bool>): seq<bool> {
    if open == [] then [] else open[..|open| - 1]
  }

  predicate InObject(open: seq<bool>) {
    open != [] && open[|open| - 1]
  }

  function Moved(s: Scan, c: Byte): Scan {
    match s.spot
    case Inside => s.(spot := if c == 34 then Outside else if c == 92 then Escaped else Inside)
    case Escaped => s.(spot := Inside)
    case Outside =>
      match c
      case 34 => s.(spot := Inside, due := false)
      case 123 => s.(open := s.open + [true], due := true)
      case 91 => s.(open := s.open + [false])
      case 125 => s.(open := Popped(s.open), due := false)
      case 93 => s.(open := Popped(s.open))
      case 44 => s.(due := InObject(s.open))
      case _ => s
  }

  /** What takes the place of one byte: a line begins behind a brace and behind a comma of an object, and
      in front of the closing brace; the tabs are the depth; an array has a blank behind a comma. The brace
      of an empty object stands two tabs to the left. */
  function Put(s: Scan, c: Byte): Text {
    match s.spot
    case Inside => [c]
    case Escaped => [c]
    case Outside =>
      match c
      case 34 => (if s.due then Tabs(|s.open|) else []) + [34]
      case 123 => [123, 10]
      case 125 => if s.due then Tabs(|s.open| - 2) + [125] else [10] + (Tabs(|s.open| - 1) + [125])
      case 44 => if InObject(s.open) then [44, 10] else [44, 32]
      case 58 => [58, 9]
      case _ => [c]
  }

  function Laid(t: Text, s: Scan): Text {
    if t == [] then [] else Put(s, t[0]) + Laid(t[1..], Moved(s, t[0]))
  }

  function Behind(t: Text, s: Scan): Scan {
    if t == [] then s else Behind(t[1..], Moved(s, t[0]))
  }

  lemma {:induction false} LaidConcat(t: Text, u: Text, s: Scan)
    ensures Laid(t + u, s) == Laid(t, s) + Laid(u, Behind(t, s))
    ensures Behind(t + u, s) == Behind(u, Behind(t, s))
    decreases |t|
  {
    hide Put, Moved;
    if t == [] {
      assert t + u == u;
    } else {
      assert (t + u)[1..] == t[1..] + u;
      LaidConcat(t[1..], u, Moved(s, t[0]));
      Regrouped(Put(s, t[0]), Laid(t[1..], Moved(s, t[0])), Laid(u, Behind(t, s)));
    }
  }

  lemma Regrouped(a: Text, b: Text, c: Text)
    ensures a + (b + c) == (a + b) + c
  {
  }

  lemma LaidByte(c: Byte, s: Scan)
    ensures Laid([c], s) == Put(s, c) && Behind([c], s) == Moved(s, c)
  {
    hide Put, Moved;
    assert [c][1..] == [] && Laid([], Moved(s, c)) == [];
    assert Behind([c], s) == Behind([], Moved(s, c));
  }

  // ---------- scalars ----------

  predicate Ordinary(c: Byte) {
    c != 34 && c != 123 && c != 91 && c != 125 && c != 93 && c != 44 && c != 58
  }

  lemma {:induction false} LaidOrdinary(t: Text, s: Scan)
    requires s.spot == Outside && forall k :: 0 <= k < |t| ==> Ordinary(t[k])
    ensures Laid(t, s) == t && Behind(t, s) == s
  {
    if t != [] {
      LaidOrdinary(t[1..], s);
      assert [t[0]] + t[1..] == t;
    }
  }

  lemma DecimalOrdinary(n: int)
    ensures forall k :: 0 <= k < |NumberText(n)| ==> Ordinary(NumberText(n)[k])
  {
  }

  lemma LaidEscape(c: Byte, s: Scan)
    requires s.spot == Inside && c != 0
    ensures Laid(EscapeByte(c), s) == EscapeByte(c) && Behind(EscapeByte(c), s) == s
  {
    hide Laid, Behind;
    var e := EscapeByte(c);
    LaidByte(e[0], s);
    if |e| == 1 {
      assert e == [e[0]];
    } else {
      assert e[0] == 92;
      var t := Moved(s, 92);
      LaidByte(e[1], t);
      assert e[..2] == [e[0]] + [e[1]];
      LaidConcat([e[0]], [e[1]], s);
      assert e == e[..2] + e[2..];
      LaidConcat(e[..2], e[2..], s);
      if |e| == 2 {
        assert e[2..] == [];
        LaidNothing(s);
      } else {
        LaidDigits(e[2..], s);
      }
    }
  }

  lemma LaidNothing(s: Scan)
    ensures Laid([], s) == [] && Behind([], s) == s
  {
  }

  lemma {:induction false} LaidDigits(t: Text, s: Scan)
    requires s.spot == Inside && forall k :: 0 <= k < |t| ==> t[k] != 34 && t[k] != 92
    ensures Laid(t, s) == t && Behind(t, s) == s
  {
    if t != [] {
      LaidDigits(t[1..], s);
      assert [t[0]] + t[1..] == t;
    }
  }

  lemma {:induction false} LaidEscaped(t: Text, s: Scan)
    requires s.spot == Inside && NulFree(t)
    ensures Laid(Escape(t), s) == Escape(t) && Behind(Escape(t), s) == s
  {
    hide EscapeByte;
    if t != [] {
      LaidEscape(t[0], s);
      LaidEscaped(t[1..], s);
      LaidConcat(EscapeByte(t[0]), Escape(t[1..]), s);
    }
  }

  /** A string is put down as it is, behind the tabs that are due. */
  lemma LaidQuoted(t: Text, s: Scan)
    requires s.spot == Outside && NulFree(t)
    ensures Laid(Quoted(t), s) == (if s.due then Tabs(|s.open|) else []) + Quoted(t)
    ensures Behind(Quoted(t), s) == s.(due := false)
  {
    hide Laid, Behind, Escape, Tabs;
    var i := s.(spot := Inside, due := false);
    LaidByte(34, s);
    LaidEscaped(t, i);
    LaidConcat([QUOTE], Escape(t), s);
    LaidByte(34, i);
    LaidConcat([QUOTE] + Escape(t), [QUOTE], s);
    var tabs := if s.due then Tabs(|s.open|) else [];
    Regrouped(tabs, [QUOTE], Escape(t));
    Regrouped(tabs, [QUOTE] + Escape(t), [QUOTE]);
  }

  // ---------- values ----------

  predicate Open(s: Scan) {
    s.spot == Outside && !s.due
  }

  lemma {:induction false} LaidValue(x: Json, depth: nat, s: Scan)
    requires Printable(x) && Open(s)
    ensures Laid(Render(x, depth, false), s) == Render(x, |s.open|, true)
    ensures Behind(Render(x, depth, false), s) == s
    decreases x, 1
  {
    hide Laid, Behind;
    match x
    case Number(d) =>
      DecimalOrdinary(d.Floor);
      LaidOrdinary(NumberText(d.Floor), s);
    case String(t) => LaidQuoted(t, s);
    case Array(items) => LaidArray(items, depth, s);
    case Object(fields) => LaidObject(fields, depth, s);
    case _ => LaidOrdinary(Render(x, depth, false), s);
  }

  lemma {:induction false} LaidArray(items: seq<Json>, depth: nat, s: Scan)
    requires Printable(Array(items)) && Open(s)
    ensures Laid(Render(Array(items), depth, false), s) == Render(Array(items), |s.open|, true)
    ensures Behind(Render(Array(items), depth, false), s) == s
    decreases items, 2
  {
    hide Laid, Behind, RenderItems;
    var t := s.(open := s.open + [false]);
    LaidByte(LBRACKET, s);
    LaidItems(items, depth + 1, t);
    LaidByte(RBRACKET, t);
    LaidConcat(RenderItems(items, depth + 1, false), [RBRACKET], t);
    LaidConcat([LBRACKET], RenderItems(items, depth + 1, false) + [RBRACKET], s);
    assert Popped(t.open) == s.open;
  }

  lemma {:induction false} LaidItems(xs: seq<Json>, depth: nat, s: Scan)
    requires Printable(Array(xs)) && Open(s) && !InObject(s.open)
    ensures Laid(RenderItems(xs, depth, false), s) == RenderItems(xs, |s.open|, true)
    ensures Behind(RenderItems(xs, depth, false), s) == s
    decreases xs, 0
  {
    hide Laid, Behind, Render;
    if xs == [] {
      LaidNothing(s);
    } else {
      LaidValue(xs[0], depth, s);
      if |xs| > 1 {
        var v, rest := Render(xs[0], depth, false), RenderItems(xs[1..], depth, false);
        LaidItems(xs[1..], depth, s);
        LaidByte(COMMA, s);
        LaidConcat(v, [COMMA], s);
        LaidConcat(v + [COMMA], rest, s);
      }
    }
  }

  lemma LaidMember(f: Field, depth: nat, s: Scan)
    requires NulFree(f.key) && Printable(f.value) && s.spot == Outside && s.due
    ensures Laid(MemberText(f, depth, false), s) == Tabs(|s.open|) + MemberText(f, |s.open|, true)
    ensures Behind(MemberText(f, depth, false), s) == s.(due := false)
    decreases f, 2
  {
    hide Laid, Behind, Render, Quoted, Tabs;
    var t := s.(due := false);
    var v := Render(f.value, depth, false);
    LaidQuoted(f.key, s);
    LaidByte(COLON, t);
    LaidValue(f.value, depth, t);
    LaidConcat([COLON], v, t);
    LaidConcat(Quoted(f.key), [COLON] + v, s);
    Regrouped(Tabs(|s.open|), Quoted(f.key), [COLON, TAB] + Render(f.value, |s.open|, true));
  }

  /** The members of an object, up to the line end in front of the closing brace. */
  lemma {:induction false} LaidFields(fs: seq<Field>, depth: nat, s: Scan)
    requires Printable(Object(fs)) && fs != [] && s.spot == Outside && s.due && InObject(s.open)
    ensures Laid(RenderFields(fs, depth, false), s) + [NEWLINE] == RenderFields(fs, |s.open|, true)
    ensures Behind(RenderFields(fs, depth, false), s) == s.(due := false)
    decreases fs, 0
  {
    hide Laid, Behind, MemberText, Tabs;
    var t := s.(due := false);
    var m := MemberText(fs[0], depth, false);
    var tabs, n := Tabs(|s.open|), MemberText(fs[0], |s.open|, true);
    LaidMember(fs[0], depth, s);
    if |fs| == 1 {
      assert fs[1..] == [];
      assert RenderFields(fs, depth, false) == m;
      assert RenderFields(fs, |s.open|, true) == tabs + (n + [NEWLINE]);
      Regrouped(tabs, n, [NEWLINE]);
    } else {
      var rest, laid := RenderFields(fs[1..], depth, false), RenderFields(fs[1..], |s.open|, true);
      assert Printable(Object(fs[1..]));
      LaidByte(COMMA, t);
      LaidFields(fs[1..], depth, s);
      LaidConcat([COMMA], rest, t);
      LaidConcat(m, [COMMA] + rest, s);
      assert RenderFields(fs, depth, false) == m + ([COMMA] + rest);
      assert RenderFields(fs, |s.open|, true) == tabs + (n + ([COMMA] + ([NEWLINE] + laid)));
      Chained(tabs, n, Laid(rest, s), laid);
    }
  }

  lemma Chained(tabs: Text, n: Text, rest: Text, laid: Text)
    requires rest + [NEWLINE] == laid
    ensures (tabs + n) + ([COMMA, NEWLINE] + rest) + [NEWLINE] == tabs + (n + ([COMMA] + ([NEWLINE] + laid)))
  {
    Regrouped([COMMA, NEWLINE], rest, [NEWLINE]);
    assert [COMMA, NEWLINE] + laid == [COMMA] + ([NEWLINE] + laid);
    Regrouped(tabs + n, [COMMA, NEWLINE] + rest, [NEWLINE]);
    Regrouped(tabs, n, [COMMA] + ([NEWLINE] + laid));
  }

  lemma {:induction false} LaidObject(fields: seq<Field>, depth: nat, s: Scan)
    requires Printable(Object(fields)) && Open(s)
    ensures Laid(Render(Object(fields), depth, false), s) == Render(Object(fields), |s.open|, true)
    ensures Behind(Render(Object(fields), depth, false), s) == s
    decreases fields, 2
  {
    hide Laid, Behind, RenderFields, Tabs;
    var t := s.(open := s.open + [true], due := true);
    assert Popped(t.open) == s.open;
    LaidByte(LBRACE, s);
    if fields == [] {
      LaidByte(RBRACE, t);
      LaidConcat([LBRACE], [RBRACE], s);
      EmptyObject(depth, s);
    } else {
      var u := t.(due := false);
      var fs, laid := RenderFields(fields, depth + 1, false), RenderFields(fields, |t.open|, true);
      LaidFields(fields, depth + 1, t);
      LaidByte(RBRACE, u);
      LaidConcat(fs, [RBRACE], t);
      LaidConcat([LBRACE], fs + [RBRACE], s);
      PlainObject(fields, depth);
      Closed(Laid(fs, t), laid, Tabs(|s.open|));
    }
  }

  lemma EmptyObject(depth: nat, s: Scan)
    ensures Render(Object([]), depth, false) == [LBRACE] + [RBRACE]
    ensures Render(Object([]), |s.open|, true) == [LBRACE, NEWLINE] + (Tabs(|s.open| - 1) + [RBRACE])
  {
    hide Tabs;
    assert Render(Object([]), |s.open|, true) == [LBRACE] + ([NEWLINE] + ([] + (Tabs(|s.open| - 1) + [RBRACE])));
  }

  lemma PlainObject(fields: seq<Field>, depth: nat)
    requires Printable(Object(fields)) && fields != []
    ensures Render(Object(fields), depth, false) == [LBRACE] + (RenderFields(fields, depth + 1, false) + [RBRACE])
  {
    hide RenderFields;
    assert ObjectEnd(fields, depth, false) == [RBRACE];
    var t := RenderFields(fields, depth + 1, false) + [RBRACE];
    assert Newline(false) + t == t;
  }

  lemma Closed(fs: Text, laid: Text, tabs: Text)
    requires fs + [NEWLINE] == laid
    ensures [LBRACE, NEWLINE] + (fs + ([NEWLINE] + (tabs + [RBRACE]))) == [LBRACE] + ([NEWLINE] + (laid + (tabs + [RBRACE])))
  {
    Regrouped(fs, [NEWLINE], tabs + [RBRACE]);
    assert [LBRACE, NEWLINE] + (laid + (tabs + [RBRACE])) == [LBRACE] + ([NEWLINE] + (laid + (tabs + [RBRACE])));
  }

  /** `cJSON_Print` writes what `cJSON_PrintUnformatted` writes, laid out by the rule. */
  lemma FormattedIsLaidOut(x: Json)
    requires Printable(x)
    ensures Render(x, 0, true) == Laid(Render(x, 0, false), Scan(Outside, [], false))
  {
    LaidValue(x, 0, Scan(Outside, [], false));
  }
}
