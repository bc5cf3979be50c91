/** `cJSON_Parse` on the texts of RFC 8259: whatever blanks, numerals and escapes a text uses, it is read
    as the value it stands for. */
module CJsonGrammar {
  import opened CText
  import opened CJson
  import opened CJsonRoundTrip
  import opened CJsonUnicode
  import opened CJsonNumber

  /** A text by its parts. The blanks of an array or object stand between its brackets when it is
      empty. */
  datatype Doc =
    | Nothing
    | No
    | Yes
    | Digits(numeral: Numeral)
    | Letters(units: seq<Unit>)
    | List(blanks: Text, elements: seq<Element>)
    | Table(blanks: Text, entries: seq<Entry>)

  /** A value with the blanks before and behind it. */
  datatype Element = Element(before: Text, doc: Doc, behind: Text)

  datatype Entry = Entry(before: Text, key: seq<Unit>, behind: Text, element: Element)

  ghost predicate Good(d: Doc)
    decreases d, 1
  {
    match d
    case Digits(n) => IsNumeral(n)
    case Letters(units) => AllWellFormed(units)
    case List(blanks, elements) => Blank(blanks) && forall k :: 0 <= k < |elements| ==> GoodElement(elements[k])
    case Table(blanks, entries) => Blank(blanks) && forall k :: 0 <= k < |entries| ==> GoodEntry(entries[k])
    case _ => true
  }

  ghost predicate GoodElement(e: Element)
    decreases e, 0
  {
    Blank(e.before) && Blank(e.behind) && Good(e.doc)
  }

  ghost predicate GoodEntry(e: Entry)
    decreases e, 0
  {
    Blank(e.before) && AllWellFormed(e.key) && Blank(e.behind) && GoodElement(e.element)
  }

  // ---------- the text ----------

  ghost function Source(d: Doc): (t: Text)
    requires Good(d)
    decreases d, 2
  {
    match d
    case Nothing => [110, 117, 108, 108]
    case No => [102, 97, 108, 115, 101]
    case Yes => [116, 114, 117, 101]
    case Digits(n) => NumeralText(n)
    case Letters(units) => [34] + Literal(units)
    case List(blanks, elements) => [91] + (if elements == [] then blanks + [93] else ElementsText(elements))
    case Table(blanks, entries) => [123] + (if entries == [] then blanks + [125] else EntriesText(entries))
  }

  /** Up to the bracket. */
  ghost function ElementsText(es: seq<Element>): Text
    requires es != [] && forall k :: 0 <= k < |es| ==> GoodElement(es[k])
    decreases es, 0
  {
    ElementText(es[0], if |es| == 1 then [93] else [44] + ElementsText(es[1..]))
  }

  /** A value with its blanks, and what follows. */
  ghost function ElementText(e: Element, rest: Text): Text
    requires GoodElement(e)
    decreases e, 3
  {
    e.before + (Source(e.doc) + (e.behind + rest))
  }

  ghost function EntriesText(es: seq<Entry>): Text
    requires es != [] && forall k :: 0 <= k < |es| ==> GoodEntry(es[k])
    decreases es, 0
  {
    EntryText(es[0], if |es| == 1 then [125] else [44] + EntriesText(es[1..]))
  }

  ghost function EntryText(e: Entry, rest: Text): Text
    requires GoodEntry(e)
    decreases e, 3
  {
    e.before + (([34] + Literal(e.key)) + (e.behind + ([58] + ElementText(e.element, rest))))
  }

  // ---------- what it stands for ----------

  ghost function Meaning(d: Doc): Json
    requires Good(d)
    decreases d, 2
  {
    match d
    case Nothing => Null
    case No => False
    case Yes => True
    case Digits(n) => Number(NumeralValue(n))
    case Letters(units) => String(Encode(CodePoints(units)))
    case List(_, elements) => Array(Values(elements))
    case Table(_, entries) => Object(Fields(entries))
  }

  ghost function Values(es: seq<Element>): seq<Json>
    requires forall k :: 0 <= k < |es| ==> GoodElement(es[k])
    decreases es, 0
  {
    if es == [] then [] else assert GoodElement(es[0]); [ValueOf(es[0])] + Values(es[1..])
  }

  ghost function ValueOf(e: Element): Json
    requires GoodElement(e)
    decreases e, 3
  {
    Meaning(e.doc)
  }

  ghost function Fields(es: seq<Entry>): seq<Field>
    requires forall k :: 0 <= k < |es| ==> GoodEntry(es[k])
    decreases es, 0
  {
    if es == [] then [] else assert GoodEntry(es[0]); [FieldOf(es[0])] + Fields(es[1..])
  }

  ghost function FieldOf(e: Entry): Field
    requires GoodEntry(e)
    decreases e, 3
  {
    Field(Encode(CodePoints(e.key)), ValueOf(e.element))
  }

  // ---------- the parser on it ----------

  /** A byte that ends an array or object, or stands between two of its parts. */
  predicate Stops(c: Byte) {
    c == COMMA || c == RBRACKET || c == RBRACE || c == COLON
  }

  /** Blanks and a stop behind a value: the number in front ends, and skipping leads to the stop. */
  lemma StopBehind(s: Text, j: nat, blanks: Text, rest: Text)
    requires Blank(blanks) && rest != [] && Stops(rest[0]) && Here(s, j, blanks + rest)
    ensures EndsNumber(At(s, j)) && Skip(s, j) == j + |blanks| && At(s, Skip(s, j)) == rest[0]
    ensures Here(s, Skip(s, j), rest) && Skip(s, j) < |s|
  {
    hide Skip;
    HereParts(s, j, blanks, rest);
    HereByte(s, j + |blanks|, rest, 0);
    SkipBlanks(s, j, blanks);
    if blanks != [] { HereByte(s, j, blanks, 0); }
  }

  /** The first byte tells the kind of a value and is no blank. */
  lemma SourceStart(d: Doc)
    requires Good(d)
    ensures Source(d) != []
    ensures var c := Source(d)[0];
            && c > SPACE && c != RBRACKET && c != RBRACE
            && match d
               case Nothing => c == 110
               case No => c == 102
               case Yes => c == 116
               case Digits(_) => StartsNumber(c)
               case Letters(_) => c == QUOTE
               case List(_, _) => c == LBRACKET
               case Table(_, _) => c == LBRACE
  {
    hide NumeralText;
    if d.Digits? { NumeralStart(d.numeral); }
  }

  lemma NumeralStart(n: Numeral)
    requires IsNumeral(n)
    ensures NumeralText(n) != [] && StartsNumber(NumeralText(n)[0])
  {
  }

  /** The text of a value, wherever it stands before a byte that continues no number, is read as what it
      stands for, and nothing behind it is. */
  lemma {:induction false} SourceRead(d: Doc, s: Text, i: nat)
    requires Good(d) && Here(s, i, Source(d)) && EndsNumber(At(s, i + |Source(d)|))
    ensures ValueAt(s, i) == Ok(Meaning(d), i + |Source(d)|)
    decreases d, 1
  {
    hide ValueAt, NumberAt, StringAt, ArrayAt, ObjectAt, NumeralText, Literal, ElementsText, EntriesText, Here, Encode, NumeralValue;
    Dispatched(s, i);
    SourceStart(d);
    HereByte(s, i, Source(d), 0);
    match d
    case Nothing =>
    case No =>
    case Yes =>
    case Digits(n) => NumeralRead(s, i, n);
    case Letters(units) => LiteralDenotes(s, i, units);
    case List(blanks, elements) => ListRead(blanks, elements, s, i);
    case Table(blanks, entries) => TableRead(blanks, entries, s, i);
  }

  /** How much there is up to the end of the value. */
  ghost function Front(e: Element): nat
    requires GoodElement(e)
  {
    |e.before| + |Source(e.doc)|
  }

  ghost function EntryFront(e: Entry): nat
    requires GoodEntry(e)
  {
    |e.before| + 1 + |Literal(e.key)| + |e.behind| + 1 + Front(e.element)
  }

  /** A value between blanks and before a stop. */
  lemma {:induction false} ElementRead(e: Element, s: Text, i: nat, rest: Text)
    requires GoodElement(e) && rest != [] && Stops(rest[0]) && Here(s, i, ElementText(e, rest))
    ensures i <= |s|
    ensures var j := i + Front(e);
            && ValueAt(s, Skip(s, i)) == Ok(ValueOf(e), j)
            && Skip(s, j) == j + |e.behind| < |s| && At(s, Skip(s, j)) == rest[0] && Here(s, Skip(s, j), rest)
    decreases e, 0
  {
    hide Here, Source, Meaning, ValueAt, Skip;
    HereParts(s, i, e.before, Source(e.doc) + (e.behind + rest));
    HereInside(s, i, ElementText(e, rest));
    var k := i + |e.before|;
    HereParts(s, k, Source(e.doc), e.behind + rest);
    SourceStart(e.doc);
    HereByte(s, k, Source(e.doc), 0);
    SkipBlanks(s, i, e.before);
    StopBehind(s, k + |Source(e.doc)|, e.behind, rest);
    SourceRead(e.doc, s, k);
  }

  lemma HereInside(s: Text, i: nat, t: Text)
    requires Here(s, i, t)
    ensures i + |t| <= |s|
  {
  }

  lemma ElementSize(e: Element, rest: Text)
    requires GoodElement(e)
    ensures |ElementText(e, rest)| == Front(e) + |e.behind| + |rest|
  {
    hide Source;
  }

  lemma ElementsUnfold(s: Text, i: nat, acc: seq<Json>, v: Json, j: nat)
    requires i <= |s| && ValueAt(s, Skip(s, i)) == Ok(v, j) && Skip(s, j) < |s|
    ensures var k := Skip(s, j);
            && (At(s, k) == COMMA ==> Elements(s, i, acc) == Elements(s, k + 1, acc + [v]))
            && (At(s, k) == RBRACKET ==> Elements(s, i, acc) == Ok(Array(acc + [v]), k + 1))
  {
    hide ValueAt, Skip;
  }

  lemma {:induction false} ElementsRead(es: seq<Element>, s: Text, i: nat, acc: seq<Json>)
    requires es != [] && (forall k :: 0 <= k < |es| ==> GoodElement(es[k])) && Here(s, i, ElementsText(es))
    ensures i <= |s| && Elements(s, i, acc) == Ok(Array(acc + Values(es)), i + |ElementsText(es)|)
    decreases es, 4
  {
    hide *;
    var e := es[0];
    ElementsParts(es);
    var rest := if |es| == 1 then [93] else [44] + ElementsText(es[1..]);
    ElementRead(e, s, i, rest);
    ElementSize(e, rest);
    var j := i + Front(e);
    ElementsUnfold(s, i, acc, ValueOf(e), j);
    if |es| > 1 {
      HereParts(s, Skip(s, j), [44], ElementsText(es[1..]));
      ElementsRead(es[1..], s, Skip(s, j) + 1, acc + [ValueOf(e)]);
      assert acc + [ValueOf(e)] + Values(es[1..]) == acc + Values(es);
    }
  }

  lemma ElementsParts(es: seq<Element>)
    requires es != [] && forall k :: 0 <= k < |es| ==> GoodElement(es[k])
    ensures var rest := if |es| == 1 then [93] else [44] + ElementsText(es[1..]);
            rest != [] && Stops(rest[0]) && rest[0] == (if |es| == 1 then RBRACKET else COMMA)
            && ElementsText(es) == ElementText(es[0], rest)
    ensures Values(es) == [ValueOf(es[0])] + Values(es[1..]) && (|es| == 1 ==> Values(es) == [ValueOf(es[0])])
  {
    hide ElementText, ValueOf, GoodElement;
    assert |es| == 1 ==> es[1..] == [];
  }

  lemma ElementsSkip(s: Text, i: nat, acc: seq<Json>)
    requires i <= |s|
    ensures Elements(s, Skip(s, i), acc) == Elements(s, i, acc)
  {
    hide ValueAt;
    SkipStays(s, i);
  }

  /** The first value is none that closes the list. */
  lemma FirstElement(es: seq<Element>, s: Text, i: nat)
    requires es != [] && (forall k :: 0 <= k < |es| ==> GoodElement(es[k])) && Here(s, i, ElementsText(es))
    ensures At(s, Skip(s, i)) != RBRACKET && i <= |s|
  {
    hide Here, Source, Skip;
    var e := es[0];
    var rest := if |es| == 1 then [93] else [44] + ElementsText(es[1..]);
    HereInside(s, i, ElementsText(es));
    HereParts(s, i, e.before, Source(e.doc) + (e.behind + rest));
    HereParts(s, i + |e.before|, Source(e.doc), e.behind + rest);
    SourceStart(e.doc);
    HereByte(s, i + |e.before|, Source(e.doc), 0);
    SkipBlanks(s, i, e.before);
  }

  lemma ListGood(blanks: Text, es: seq<Element>)
    requires Good(List(blanks, es))
    ensures Blank(blanks) && forall k :: 0 <= k < |es| ==> GoodElement(es[k])
  {
    hide GoodElement, Blank;
  }

  lemma ListText(blanks: Text, es: seq<Element>)
    requires Good(List(blanks, es)) && forall k :: 0 <= k < |es| ==> GoodElement(es[k])
    ensures Source(List(blanks, es)) == [91] + if es == [] then blanks + [93] else ElementsText(es)
  {
    hide ElementsText, GoodElement, Blank, Good;
  }

  lemma ListMeaning(blanks: Text, es: seq<Element>)
    requires Good(List(blanks, es)) && forall k :: 0 <= k < |es| ==> GoodElement(es[k])
    ensures Meaning(List(blanks, es)) == Array(Values(es)) && (es == [] ==> Values(es) == [])
  {
    hide GoodElement, Blank, Good;
  }

  lemma ArrayUnfold(s: Text, i: nat)
    requires At(s, i) == LBRACKET
    ensures i < |s|
    ensures var j := Skip(s, i + 1);
            ArrayAt(s, i) == if At(s, j) == RBRACKET then Ok(Array([]), j + 1) else Elements(s, j, [])
  {
    hide Skip, Elements;
  }

  lemma {:induction false} ListRead(blanks: Text, es: seq<Element>, s: Text, i: nat)
    requires Good(List(blanks, es)) && Here(s, i, Source(List(blanks, es)))
    ensures At(s, i) == LBRACKET && ArrayAt(s, i) == Ok(Meaning(List(blanks, es)), i + |Source(List(blanks, es))|)
    decreases es, 5
  {
    hide *;
    ListGood(blanks, es);
    ListText(blanks, es);
    ListMeaning(blanks, es);
    Closing();
    HereParts(s, i, [91], if es == [] then blanks + [93] else ElementsText(es));
    HereByte(s, i, [91], 0);
    ArrayUnfold(s, i);
    if es == [] {
      StopBehind(s, i + 1, blanks, [93]);
    } else {
      FirstElement(es, s, i + 1);
      ElementsSkip(s, i + 1, []);
      ElementsRead(es, s, i + 1, []);
      assert [] + Values(es) == Values(es);
    }
  }

  lemma Closing()
    ensures Stops(93) && Stops(125) && LBRACKET == 91 && RBRACKET == 93 && LBRACE == 123 && RBRACE == 125 && QUOTE == 34
  {
  }

  lemma EntrySize(e: Entry, rest: Text)
    requires GoodEntry(e)
    ensures |EntryText(e, rest)| == EntryFront(e) + |e.element.behind| + |rest|
  {
    hide Literal, ElementText, Front;
    ElementSize(e.element, rest);
  }

  lemma MemberUnfold(s: Text, i: nat, key: Text, j: nat, v: Json, l: nat)
    requires i <= |s| && StringAt(s, Skip(s, i)) == Ok(key, j) && At(s, Skip(s, j)) == COLON
    requires Skip(s, j) < |s| && ValueAt(s, Skip(s, Skip(s, j) + 1)) == Ok(v, l)
    ensures MemberAt(s, i) == Ok(Field(key, v), l)
  {
    hide ValueAt, StringAt, Skip;
  }

  /** The key of an entry, up to the colon. */
  lemma KeyRead(e: Entry, s: Text, i: nat, rest: Text)
    requires GoodEntry(e) && Here(s, i, EntryText(e, rest))
    ensures i <= |s|
    ensures var j := i + |e.before| + 1 + |Literal(e.key)|;
            && StringAt(s, Skip(s, i)) == Ok(Encode(CodePoints(e.key)), j) && Skip(s, j) == j + |e.behind| < |s|
            && At(s, Skip(s, j)) == COLON && Here(s, Skip(s, j) + 1, ElementText(e.element, rest))
  {
    hide Here, Source, StringAt, Skip, Literal, Encode, ElementText, GoodElement, AllWellFormed;
    var key, colon := [34] + Literal(e.key), [58] + ElementText(e.element, rest);
    HereInside(s, i, EntryText(e, rest));
    HereParts(s, i, e.before, key + (e.behind + colon));
    var k := i + |e.before|;
    HereParts(s, k, key, e.behind + colon);
    HereByte(s, k, key, 0);
    SkipBlanks(s, i, e.before);
    LiteralDenotes(s, k, e.key);
    StopBehind(s, k + |key|, e.behind, colon);
    HereParts(s, k + |key| + |e.behind|, [58], ElementText(e.element, rest));
  }

  lemma EntryParts(e: Entry)
    requires GoodEntry(e)
    ensures GoodElement(e.element) && AllWellFormed(e.key)
    ensures FieldOf(e) == Field(Encode(CodePoints(e.key)), ValueOf(e.element))
    ensures EntryFront(e) == |e.before| + 1 + |Literal(e.key)| + |e.behind| + 1 + Front(e.element)
  {
  }

  /** An entry between blanks and before a stop. */
  lemma {:induction false} EntryRead(e: Entry, s: Text, i: nat, rest: Text)
    requires GoodEntry(e) && rest != [] && Stops(rest[0]) && Here(s, i, EntryText(e, rest))
    ensures i <= |s|
    ensures var j := i + EntryFront(e);
            && MemberAt(s, i) == Ok(FieldOf(e), j)
            && Skip(s, j) == j + |e.element.behind| < |s| && At(s, Skip(s, j)) == rest[0] && Here(s, Skip(s, j), rest)
    decreases e, 0
  {
    hide *;
    EntryParts(e);
    KeyRead(e, s, i, rest);
    var j := i + |e.before| + 1 + |Literal(e.key)|;
    ElementRead(e.element, s, Skip(s, j) + 1, rest);
    MemberUnfold(s, i, Encode(CodePoints(e.key)), j, ValueOf(e.element), Skip(s, j) + 1 + Front(e.element));
  }

  lemma EntriesParts(es: seq<Entry>)
    requires es != [] && forall k :: 0 <= k < |es| ==> GoodEntry(es[k])
    ensures var rest := if |es| == 1 then [125] else [44] + EntriesText(es[1..]);
            rest != [] && Stops(rest[0]) && rest[0] == (if |es| == 1 then RBRACE else COMMA)
            && EntriesText(es) == EntryText(es[0], rest)
    ensures Fields(es) == [FieldOf(es[0])] + Fields(es[1..]) && (|es| == 1 ==> Fields(es) == [FieldOf(es[0])])
  {
    hide EntryText, FieldOf, GoodEntry;
    assert |es| == 1 ==> es[1..] == [];
  }

  lemma {:induction false} EntriesRead(es: seq<Entry>, s: Text, i: nat, acc: seq<Field>)
    requires es != [] && (forall k :: 0 <= k < |es| ==> GoodEntry(es[k])) && Here(s, i, EntriesText(es))
    ensures i <= |s| && Members(s, i, acc) == Ok(Object(acc + Fields(es)), i + |EntriesText(es)|)
    decreases es, 4
  {
    hide *;
    var e := es[0];
    EntriesParts(es);
    var rest := if |es| == 1 then [125] else [44] + EntriesText(es[1..]);
    EntryRead(e, s, i, rest);
    EntrySize(e, rest);
    var f, j := FieldOf(e), i + EntryFront(e);
    MembersUnfold(s, i, acc, f, j);
    if |es| > 1 {
      HereParts(s, Skip(s, j), [44], EntriesText(es[1..]));
      EntriesRead(es[1..], s, Skip(s, j) + 1, acc + [f]);
      assert acc + [f] + Fields(es[1..]) == acc + Fields(es);
    }
  }

  lemma FirstEntry(es: seq<Entry>, s: Text, i: nat)
    requires es != [] && (forall k :: 0 <= k < |es| ==> GoodEntry(es[k])) && Here(s, i, EntriesText(es))
    ensures At(s, Skip(s, i)) == QUOTE && i <= |s|
  {
    hide Here, Source, Skip, Literal, ElementText;
    var e := es[0];
    var rest := if |es| == 1 then [125] else [44] + EntriesText(es[1..]);
    HereInside(s, i, EntriesText(es));
    var key, behind := [34] + Literal(e.key), e.behind + ([58] + ElementText(e.element, rest));
    HereParts(s, i, e.before, key + behind);
    HereParts(s, i + |e.before|, key, behind);
    HereByte(s, i + |e.before|, key, 0);
    SkipBlanks(s, i, e.before);
  }

  lemma TableGood(blanks: Text, es: seq<Entry>)
    requires Good(Table(blanks, es))
    ensures Blank(blanks) && forall k :: 0 <= k < |es| ==> GoodEntry(es[k])
  {
    hide GoodEntry, Blank;
  }

  lemma TableText(blanks: Text, es: seq<Entry>)
    requires Good(Table(blanks, es)) && forall k :: 0 <= k < |es| ==> GoodEntry(es[k])
    ensures Source(Table(blanks, es)) == [123] + if es == [] then blanks + [125] else EntriesText(es)
  {
    hide EntriesText, GoodEntry, Blank, Good;
  }

  lemma TableMeaning(blanks: Text, es: seq<Entry>)
    requires Good(Table(blanks, es)) && forall k :: 0 <= k < |es| ==> GoodEntry(es[k])
    ensures Meaning(Table(blanks, es)) == Object(Fields(es)) && (es == [] ==> Fields(es) == [])
  {
    hide GoodEntry, Blank, Good;
  }

  lemma ObjectUnfold(s: Text, i: nat)
    requires At(s, i) == LBRACE
    ensures i < |s|
    ensures var j := Skip(s, i + 1);
            ObjectAt(s, i) == if At(s, j) == RBRACE then Ok(Object([]), j + 1) else Members(s, j, [])
  {
    hide Skip, Members;
  }

  lemma {:induction false} TableRead(blanks: Text, es: seq<Entry>, s: Text, i: nat)
    requires Good(Table(blanks, es)) && Here(s, i, Source(Table(blanks, es)))
    ensures At(s, i) == LBRACE && ObjectAt(s, i) == Ok(Meaning(Table(blanks, es)), i + |Source(Table(blanks, es))|)
    decreases es, 5
  {
    hide *;
    TableGood(blanks, es);
    TableText(blanks, es);
    TableMeaning(blanks, es);
    Closing();
    HereParts(s, i, [123], if es == [] then blanks + [125] else EntriesText(es));
    HereByte(s, i, [123], 0);
    ObjectUnfold(s, i);
    if es == [] {
      StopBehind(s, i + 1, blanks, [125]);
    } else {
      FirstEntry(es, s, i + 1);
      MembersSkip(s, i + 1, []);
      EntriesRead(es, s, i + 1, []);
      assert [] + Fields(es) == Fields(es);
    }
  }

  /** Every text of the standard, with blanks around it, is parsed as what it stands for; behind the
      blanks another text may follow, as long as it continues no number. */
  lemma TextIsParsed(d: Doc, blanks: Text, rest: Text)
    requires Good(d) && Blank(blanks) && (rest != [] ==> EndsNumber(rest[0]))
    ensures ParseText(blanks + (Source(d) + rest)) == Ok(Meaning(d), |blanks| + |Source(d)|)
  {
    hide Here, Skip, ValueAt, Source, Meaning;
    var s := blanks + (Source(d) + rest);
    HereWhole(s);
    HereParts(s, 0, blanks, Source(d) + rest);
    HereParts(s, |blanks|, Source(d), rest);
    SourceStart(d);
    HereByte(s, |blanks|, Source(d), 0);
    SkipBlanks(s, 0, blanks);
    if rest != [] { HereByte(s, |blanks| + |Source(d)|, rest, 0); }
    SourceRead(d, s, |blanks|);
  }

  lemma HereWhole(s: Text)
    ensures Here(s, 0, s)
  {
    assert s[0..|s|] == s;
  }
}
