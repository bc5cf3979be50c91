/** `gbcom_common/base64.c`: the codec of RFC 4648, sections 4 and 5. Masks and shifts are written
    as remainders and quotients. */
module Base64 {
  import opened CText

  const PAD: Byte := 61

  datatype Option<T> = None | Some(value: T)

  // ---------- the alphabet ----------

  /** Letter v of the table, the one for file names and addresses when `url` is set. */
  function Letter(v: nat, url: bool): Byte
    requires v < 64
  {
    if v < 26 then 65 + v
    else if v < 52 then 97 + (v - 26)
    else if v < 62 then 48 + (v - 52)
    else if v == 62 then (if url then 45 else 43)
    else (if url then 95 else 47)
  }

  /** Where a character stands in the standard table, or -1. */
  function Sextet(c: Byte): (v: int)
    ensures -1 <= v < 64
    ensures v >= 0 ==> Letter(v, false) == c
  {
    if 65 <= c <= 90 then c - 65
    else if 97 <= c <= 122 then c - 97 + 26
    else if 48 <= c <= 57 then c - 48 + 52
    else if c == 43 then 62
    else if c == 47 then 63
    else -1
  }

  lemma LetterIsSextet(v: nat)
    requires v < 64
    ensures Sextet(Letter(v, false)) == v && Letter(v, false) != PAD
  {
  }

  // ---------- encoding ----------

  /** The four characters of up to three bytes; missing bytes count as zero. */
  function Sextets(b: Text): (s: seq<nat>)
    requires 1 <= |b| <= 3
    ensures |s| == 4 && forall i :: 0 <= i < 4 ==> s[i] < 64
  {
    var b0, b1, b2 := b[0], if |b| > 1 then b[1] else 0, if |b| > 2 then b[2] else 0;
    [b0 / 4, b0 % 4 * 16 + b1 / 16, b1 % 16 * 4 + b2 / 64, b2 % 64]
  }

  /** A group of the encoding: with padding, or cut short. */
  function Group(b: Text, url: bool): Text
    requires 1 <= |b| <= 3
  {
    var s := Sextets(b);
    var pad: Text := if url then [] else [PAD];
    [Letter(s[0], url), Letter(s[1], url)]
      + (if |b| > 1 then [Letter(s[2], url)] else pad) + (if |b| > 2 then [Letter(s[3], url)] else pad)
  }

  function Encoded(data: Text, url: bool): Text {
    if data == [] then []
    else if |data| <= 3 then Group(data, url)
    else Group(data[..3], url) + Encoded(data[3..], url)
  }

  /** The lengths of section 4 and, without padding, of section 5. */
  lemma {:induction false} EncodedLength(data: Text)
    ensures |Encoded(data, false)| == 4 * ((|data| + 2) / 3)
    ensures |Encoded(data, true)| == |data| / 3 * 4 + (if |data| % 3 == 0 then 0 else |data| % 3 + 1)
  {
    hide Group;
    if |data| > 3 {
      GroupLength(data[..3]);
      EncodedLength(data[3..]);
      ThreeMore(|data| - 3);
    } else if data != [] {
      GroupLength(data);
    }
  }

  lemma GroupLength(b: Text)
    requires 1 <= |b| <= 3
    ensures |Group(b, false)| == 4 && |Group(b, true)| == |b| + 1
  {
    hide Letter;
  }

  lemma ThreeMore(n: nat)
    ensures (n + 3) / 3 == n / 3 + 1 && (n + 3) % 3 == n % 3 && (n + 5) / 3 == (n + 2) / 3 + 1
  {
  }

  /** The standard form with the two letters exchanged and without padding. */
  function Renamed(t: Text): Text {
    if t == [] then [] else RenamedByte(t[0]) + Renamed(t[1..])
  }

  function RenamedByte(c: Byte): Text {
    if c == PAD then [] else [if c == 43 then 45 else if c == 47 then 95 else c]
  }

  lemma {:induction false} RenamedAppend(t: Text, u: Text)
    ensures Renamed(t + u) == Renamed(t) + Renamed(u)
  {
    hide Renamed;
    if t == [] {
      assert t + u == u;
      RenamedNothing();
    } else {
      assert (t + u)[1..] == t[1..] + u;
      RenamedAppend(t[1..], u);
      RenamedFirst(t);
      RenamedFirst(t + u);
      Assoc(RenamedByte(t[0]), Renamed(t[1..]), Renamed(u));
    }
  }

  lemma RenamedFirst(t: Text)
    requires t != []
    ensures Renamed(t) == RenamedByte(t[0]) + Renamed(t[1..])
  {
  }

  lemma RenamedNothing()
    ensures Renamed([]) == []
  {
  }

  lemma RenamedOne(c: Byte)
    ensures Renamed([c]) == if c == PAD then [] else [if c == 43 then 45 else if c == 47 then 95 else c]
  {
    assert [c][1..] == [];
  }

  lemma RenamedLetter(v: nat)
    requires v < 64
    ensures Renamed([Letter(v, false)]) == [Letter(v, true)]
  {
    RenamedOne(Letter(v, false));
  }

  lemma RenamedGroup(b: Text)
    requires 1 <= |b| <= 3
    ensures Renamed(Group(b, false)) == Group(b, true)
  {
    hide Renamed, Letter, Sextets;
    var s := Sextets(b);
    var c0, c1 := Letter(s[0], false), Letter(s[1], false);
    var c2 := if |b| > 1 then Letter(s[2], false) else PAD;
    var c3 := if |b| > 2 then Letter(s[3], false) else PAD;
    assert Group(b, false) == [c0] + ([c1] + ([c2] + [c3]));
    RenamedAppend([c0], [c1] + ([c2] + [c3]));
    RenamedAppend([c1], [c2] + [c3]);
    RenamedAppend([c2], [c3]);
    RenamedLetter(s[0]);
    RenamedLetter(s[1]);
    if |b| > 1 { RenamedLetter(s[2]); } else { RenamedOne(PAD); }
    if |b| > 2 { RenamedLetter(s[3]); } else { RenamedOne(PAD); }
  }

  /** The url form of every text is the standard form renamed. */
  lemma {:induction false} UrlForm(data: Text)
    ensures Encoded(data, true) == Renamed(Encoded(data, false))
  {
    if 0 < |data| <= 3 {
      RenamedGroup(data);
    } else if |data| > 3 {
      RenamedGroup(data[..3]);
      RenamedAppend(Group(data[..3], false), Encoded(data[3..], false));
      UrlForm(data[3..]);
    }
  }

  // ---------- decoding ----------

  predicate IsLetter(c: Byte) {
    Sextet(c) >= 0
  }

  predicate Readable(q: Text) {
    forall i :: 0 <= i < |q| ==> q[i] == PAD || IsLetter(q[i])
  }

  function Value(c: Byte): nat {
    if IsLetter(c) then Sextet(c) else 0
  }

  function Pads(q: Text): (n: nat)
    ensures n <= |q|
  {
    if q == [] then 0 else Pads(q[..|q| - 1]) + (if q[|q| - 1] == PAD then 1 else 0)
  }

  function Bits(q: Text): nat
    requires |q| == 4
  {
    Value(q[0]) * 0x40000 + Value(q[1]) * 0x1000 + Value(q[2]) * 0x40 + Value(q[3])
  }

  /** The bytes of a quantum, as many as its padding leaves. */
  function Bytes(q: Text): (b: Text)
    requires |q| == 4 && Pads(q) <= 2
    ensures |b| == 3 - Pads(q)
  {
    var x := Bits(q);
    [x / 0x10000 % 0x100, x / 0x100 % 0x100, x % 0x100][..3 - Pads(q)]
  }

  function FirstPad(s: Text): (k: nat)
    ensures k <= |s| && (k < |s| ==> s[k] == PAD) && forall i :: 0 <= i < k ==> s[i] != PAD
  {
    if s == [] || s[0] == PAD then 0
    else
      var k := 1 + FirstPad(s[1..]);
      assert forall i :: 0 < i < k ==> s[i] == s[1..][i - 1];
      k
  }

  /** How much padding the decoder expects. */
  function Expected(s: Text): nat {
    var k := FirstPad(s);
    if k == |s| then 0 else if At(s, k + 1) == PAD then 2 else 1
  }

  /** The checks in front of the decoding. */
  predicate WellPadded(s: Text) {
    s != [] && |s| % 4 == 0 && (FirstPad(s) < |s| ==> FirstPad(s) + Expected(s) == |s|)
  }

  function Quanta(s: Text): Option<Text>
    requires |s| % 4 == 0
    decreases |s|
  {
    if s == [] then Some([])
    else if !Readable(s[..4]) || Pads(s[..4]) > 2 then None
    else
      match Quanta(s[4..])
      case None => None
      case Some(rest) => Some(Bytes(s[..4]) + rest)
  }

  function Decoded(s: Text): Option<Text> {
    if WellPadded(s) then Quanta(s) else None
  }

  // ---------- what decodes ----------

  /** Letters, then at most two padding characters. */
  predicate Form(s: Text, p: nat) {
    && p <= 2 && p <= |s|
    && (forall i :: 0 <= i < |s| - p ==> IsLetter(s[i])) && (forall i :: |s| - p <= i < |s| ==> s[i] == PAD)
  }

  lemma {:induction false} NoPads(q: Text)
    requires forall i :: 0 <= i < |q| ==> q[i] != PAD
    ensures Pads(q) == 0
  {
    if q != [] { NoPads(q[..|q| - 1]); }
  }

  lemma PadIsNoLetter()
    ensures !IsLetter(PAD)
  {
  }

  /** A quantum with p padding characters at its end. */
  lemma PadsOfForm(q: Text, p: nat)
    requires Form(q, p)
    ensures Pads(q) == p && Readable(q)
  {
    hide IsLetter, Pads;
    PadIsNoLetter();
    if p == 0 {
      NoPads(q);
    } else if p == 1 {
      NoPads(q[..|q| - 1]);
      PadsStep(q);
    } else {
      var r := q[..|q| - 1];
      NoPads(r[..|r| - 1]);
      PadsStep(q);
      PadsStep(r);
    }
  }

  lemma PadsStep(q: Text)
    requires q != []
    ensures Pads(q) == Pads(q[..|q| - 1]) + (if q[|q| - 1] == PAD then 1 else 0)
  {
  }

  lemma {:induction false} FormDecodes(s: Text, p: nat)
    requires |s| % 4 == 0 && Form(s, p)
    ensures Quanta(s).Some?
    decreases |s|
  {
    hide IsLetter, Pads, Bytes, Readable;
    if s != [] {
      var q := s[..4];
      if |s| == 4 {
        assert q == s;
        PadsOfForm(q, p);
        assert s[4..] == [];
      } else {
        assert Form(q, 0);
        PadsOfForm(q, 0);
        assert Form(s[4..], p);
        FormDecodes(s[4..], p);
      }
    }
  }

  lemma {:induction false} QuantaReadable(s: Text)
    requires |s| % 4 == 0 && Quanta(s).Some?
    ensures Readable(s)
    decreases |s|
  {
    hide IsLetter, Pads, Bytes;
    if s != [] {
      QuantaReadable(s[4..]);
      forall i | 0 <= i < |s| ensures s[i] == PAD || IsLetter(s[i]) {
        if i < 4 { assert s[..4][i] == s[i]; } else { assert s[4..][i - 4] == s[i]; }
      }
    }
  }

  /** Decoding succeeds exactly on texts whose length is a positive multiple of four, of letters
      with at most two padding characters at the end. */
  lemma DecodesExactly(s: Text)
    ensures Decoded(s).Some? <==> s != [] && |s| % 4 == 0 && exists p: nat :: Form(s, p)
  {
    hide IsLetter, Quanta;
    PadIsNoLetter();
    if Decoded(s).Some? {
      QuantaReadable(s);
      var p := |s| - FirstPad(s);
      assert Form(s, p);
    }
    if s != [] && |s| % 4 == 0 && exists p: nat :: Form(s, p) {
      var p: nat :| Form(s, p);
      FormDecodes(s, p);
      FirstPadIs(s, p);
    }
  }

  lemma FirstPadIs(s: Text, p: nat)
    requires Form(s, p)
    ensures FirstPad(s) == |s| - p
  {
    hide IsLetter;
    PadIsNoLetter();
    var k := FirstPad(s);
    assert p > 0 ==> s[|s| - p] == PAD;
  }

  // ---------- decoding what was encoded ----------

  lemma GroupForm(b: Text)
    requires 1 <= |b| <= 3
    ensures |Group(b, false)| == 4 && Form(Group(b, false), 3 - |b|)
  {
    var s := Sextets(b);
    LetterIsSextet(s[0]);
    LetterIsSextet(s[1]);
    LetterIsSextet(s[2]);
    LetterIsSextet(s[3]);
  }

  function Number(b: Text, i: nat): (n: nat)
    ensures n < 0x100
  {
    if i < |b| then b[i] else 0
  }

  lemma GroupBits(b: Text)
    requires 1 <= |b| <= 3
    ensures |Group(b, false)| == 4
    ensures Bits(Group(b, false)) == Number(b, 0) * 0x10000 + Number(b, 1) * 0x100 + Number(b, 2)
  {
    hide Letter, Sextet;
    var s := Sextets(b);
    LetterIsSextet(s[0]);
    LetterIsSextet(s[1]);
    LetterIsSextet(s[2]);
    LetterIsSextet(s[3]);
    PadIsNoLetter();
  }

  lemma BytesOfBits(b0: nat, b1: nat, b2: nat, x: nat)
    requires b0 < 0x100 && b1 < 0x100 && b2 < 0x100 && x == b0 * 0x10000 + b1 * 0x100 + b2
    ensures x / 0x10000 % 0x100 == b0 && x / 0x100 % 0x100 == b1 && x % 0x100 == b2
  {
  }

  lemma GroupBack(b: Text)
    requires 1 <= |b| <= 3
    ensures |Group(b, false)| == 4 && Readable(Group(b, false)) && Pads(Group(b, false)) == 3 - |b|
    ensures Bytes(Group(b, false)) == b
  {
    hide Group, Form, Bits, Readable, Pads;
    GroupForm(b);
    var q := Group(b, false);
    PadsOfForm(q, 3 - |b|);
    GroupBits(b);
    BytesOfBits(Number(b, 0), Number(b, 1), Number(b, 2), Bits(q));
  }

  /** The encoding is a first group and the encoding of the rest. */
  lemma EncodedParts(data: Text)
    requires data != []
    ensures var b, rest := Head(data), data[|Head(data)|..];
            b + rest == data && Encoded(data, false) == Group(b, false) + Encoded(rest, false)
  {
    if |data| <= 3 {
      assert data[|data|..] == [];
      assert Group(data, false) + [] == Group(data, false);
    }
  }

  function Head(data: Text): (b: Text)
    requires data != []
    ensures 1 <= |b| <= 3 && |b| <= |data|
  {
    if |data| <= 3 then data else data[..3]
  }

  lemma {:induction false} QuantaBack(data: Text)
    ensures |Encoded(data, false)| % 4 == 0
    ensures Quanta(Encoded(data, false)) == Some(data)
    decreases |data|
  {
    hide Group, Bytes, Readable, Pads, Encoded, Head;
    if data == [] {
      NothingEncoded();
    } else {
      var b := Head(data);
      var rest := data[|b|..];
      EncodedParts(data);
      var q, t := Group(b, false), Encoded(rest, false);
      GroupBack(b);
      QuantaBack(rest);
      QuantaStep(q, t);
    }
  }

  lemma NothingEncoded()
    ensures Encoded([], false) == []
  {
  }

  lemma QuantaStep(q: Text, t: Text)
    requires |q| == 4 && |t| % 4 == 0 && Readable(q) && Pads(q) <= 2 && Quanta(t).Some?
    ensures |q + t| % 4 == 0 && Quanta(q + t) == Some(Bytes(q) + Quanta(t).value)
  {
    hide Bytes, Readable, Pads;
    assert (q + t)[..4] == q && (q + t)[4..] == t;
  }

  lemma {:induction false} EncodedForm(data: Text)
    ensures exists p: nat :: Form(Encoded(data, false), p)
  {
    hide Group, IsLetter;
    if data == [] {
      assert Form(Encoded(data, false), 0);
    } else if |data| <= 3 {
      GroupForm(data);
      assert Form(Encoded(data, false), 3 - |data|);
    } else {
      GroupForm(data[..3]);
      EncodedForm(data[3..]);
      var p: nat :| Form(Encoded(data[3..], false), p);
      assert Form(Encoded(data, false), p);
    }
  }

  /** Decoding undoes encoding, for every text that is not empty. */
  lemma RoundTrip(data: Text)
    requires data != []
    ensures Decoded(Encoded(data, false)) == Some(data)
  {
    EncodedForm(data);
    QuantaBack(data);
    EncodedLength(data);
    DecodesExactly(Encoded(data, false));
  }

  // ---------- the encoder ----------

  /** The text in front of the terminator. */
  function CString(s: Text): (t: Text)
    ensures NulFree(t) && t <= s
  {
    if s == [] || s[0] == 0 then [] else [s[0]] + CString(s[1..])
  }

  /** `base64_encode`: a size of zero stands for the length of a C string. */
  method Encode(url: bool, inputbuff: Text, insize: nat) returns (out: Text)
    requires insize <= |inputbuff|
    ensures out == Encoded(if insize == 0 then CString(inputbuff) else inputbuff[..insize], url)
  {
    hide Group, CString, Encoded;
    var indata := if insize == 0 then CString(inputbuff) else inputbuff[..insize];
    var n := |indata|;
    var base64data := new Byte[n * 4 / 3 + 4];
    var output: nat := 0;
    var i := 0;
    EncodedFits(indata, url);
    assert indata[0..] == indata && base64data[..0] == [];
    while i < n
      invariant i <= n && i <= |indata| && (i % 3 == 0 || i == n)
      invariant output + |Encoded(indata[i..], url)| == |Encoded(indata, url)| < base64data.Length
      invariant output < base64data.Length
      invariant base64data[..output] + Encoded(indata[i..], url) == Encoded(indata, url)
    {
      var k := if n - i < 3 then n - i else 3;
      EncodeNext(indata, i, k, base64data[..output], url);
      var len := PrintGroup(base64data, output, indata[i..i + k], url);
      output := output + len;
      i := i + k;
    }
    assert indata[i..] == [];
    GroupOfNothing(url);
    base64data[output] := 0;
    out := base64data[..output];
  }

  /** One group more. */
  lemma EncodeNext(data: Text, i: nat, k: nat, done: Text, url: bool)
    requires i < |data| && k == if |data| - i < 3 then |data| - i else 3
    ensures var group, rest := Group(data[i..i + k], url), Encoded(data[i + k..], url);
            |Encoded(data[i..], url)| == |group| + |rest| && (done + group) + rest == done + Encoded(data[i..], url)
  {
    hide *;
    GroupOf(data[i..], url);
    assert data[i..][..k] == data[i..i + k] && data[i..][k..] == data[i + k..];
    Assoc(done, Group(data[i..i + k], url), Encoded(data[i + k..], url));
  }

  /** The allocation holds the text and its terminator. */
  lemma EncodedFits(data: Text, url: bool)
    ensures |Encoded(data, url)| < |data| * 4 / 3 + 4
  {
    hide Encoded;
    EncodedLength(data);
  }

  lemma GroupOfNothing(url: bool)
    ensures Encoded([], url) == []
  {
  }

  lemma GroupOf(data: Text, url: bool)
    requires data != []
    ensures var k := if |data| < 3 then |data| else 3;
            Encoded(data, url) == Group(data[..k], url) + Encoded(data[k..], url)
  {
    hide Group;
    if |data| <= 3 {
      assert data[..|data|] == data && data[|data|..] == [];
      assert Group(data, url) + [] == Group(data, url);
    }
  }

  /** One `snprintf`: the characters of a group and the terminator behind them. */
  method PrintGroup(dst: array<Byte>, p: nat, ibuf: Text, url: bool) returns (len: nat)
    requires 1 <= |ibuf| <= 3 && p + |Group(ibuf, url)| < dst.Length
    modifies dst
    ensures len == |Group(ibuf, url)| && dst[..p + len] == old(dst[..p]) + Group(ibuf, url)
  {
    hide Letter;
    var b0 := ibuf[0];
    var b1: Byte := if |ibuf| > 1 then ibuf[1] else 0;
    var b2: Byte := if |ibuf| > 2 then ibuf[2] else 0;
    var obuf := Sextets(ibuf);
    var text := [Letter(obuf[0], url), Letter(obuf[1], url)];
    var padstr: Text := if url then [] else [PAD];
    if |ibuf| == 1 {
      text := text + padstr + padstr;
    } else if |ibuf| == 2 {
      text := text + [Letter(obuf[2], url)] + padstr;
    } else {
      text := text + [Letter(obuf[2], url), Letter(obuf[3], url)];
    }
    assert text == Group(ibuf, url);
    len := |text|;
    forall k | 0 <= k < len { dst[p + k] := text[k]; }
    dst[p + len] := 0;
  }

  // ---------- the decoder ----------

  /** The first i characters of a quantum, shifted together. */
  function Shifted(q: Text, i: nat): nat
    requires i <= |q|
  {
    if i == 0 then 0 else Shifted(q, i - 1) * 0x40 + Value(q[i - 1])
  }

  lemma ShiftedIsBits(q: Text)
    requires |q| == 4
    ensures Shifted(q, 4) == Bits(q)
  {
    hide Value;
    assert Shifted(q, 1) == Value(q[0]);
    assert Shifted(q, 2) == Shifted(q, 1) * 0x40 + Value(q[1]);
    assert Shifted(q, 3) == Shifted(q, 2) * 0x40 + Value(q[2]);
  }

  /** `decodeQuantum`: zero tells that a character is not in the alphabet. */
  method DecodeQuantum(dest: array<Byte>, at: nat, src: Text) returns (n: nat)
    requires |src| == 4 && Pads(src) <= 2 && at + 3 - Pads(src) <= dest.Length
    modifies dest
    ensures n == if Readable(src) then 3 - Pads(src) else 0
    ensures n > 0 ==> dest[..at + n] == old(dest[..at]) + Bytes(src)
  {
    hide Sextet, Bytes, Bits;
    var padding, x := 0, 0;
    for i := 0 to 4
      invariant padding == Pads(src[..i]) && x == Shifted(src, i) && Readable(src[..i])
      invariant dest[..] == old(dest[..])
    {
      assert src[..i + 1][..i] == src[..i];
      if src[i] == PAD {
        PadIsNoLetter();
        x := x * 0x40;
        padding := padding + 1;
      } else {
        var p := Sextet(src[i]);
        if p < 0 { return 0; }
        x := x * 0x40 + p;
      }
    }
    assert src[..4] == src;
    ShiftedIsBits(src);
    n := 3 - padding;
    StoreBytes(dest, at, src, padding, x);
    assert at + n == at + 3 - padding;
  }

  lemma BytesAre(q: Text, padding: nat)
    requires |q| == 4 && Pads(q) == padding <= 2
    ensures Bytes(q) == [Bits(q) / 0x10000 % 0x100, Bits(q) / 0x100 % 0x100, Bits(q) % 0x100][..3 - padding]
  {
  }

  /** The shifts and stores behind the loop. */
  method StoreBytes(dest: array<Byte>, at: nat, ghost q: Text, padding: nat, bits: nat)
    requires |q| == 4 && padding == Pads(q) <= 2 && at + 3 - padding <= dest.Length && bits == Bits(q)
    modifies dest
    ensures dest[..at + 3 - padding] == old(dest[..at]) + Bytes(q)
  {
    hide Bytes, Bits, Pads;
    var x := bits;
    BytesAre(q, padding);
    Shifts(x);
    if padding < 1 { dest[at + 2] := x % 0x100; }
    x := x / 0x100;
    if padding < 2 { dest[at + 1] := x % 0x100; }
    x := x / 0x100;
    dest[at] := x % 0x100;
  }

  lemma Shifts(x: nat)
    ensures x / 0x100 / 0x100 == x / 0x10000
  {
  }

  lemma PadsKnown(s: Text, j: nat)
    requires WellPadded(s)
    ensures 4 * j + 4 < |s| ==> 4 * j + 8 <= |s|
    ensures var p := |s| - FirstPad(s); p <= 2 && forall i :: |s| - p <= i < |s| ==> s[i] == PAD
  {
    hide FirstPad;
  }

  /** Behind the position checks only the last quantum has padding. */
  lemma QuantumPads(s: Text, j: nat)
    requires WellPadded(s) && 4 * j + 4 <= |s|
    ensures Pads(s[4 * j..4 * j + 4]) == if 4 * j + 4 == |s| then |s| - FirstPad(s) else 0
    ensures |s| - FirstPad(s) <= 2
  {
    hide FirstPad, WellPadded, Pads;
    PadsKnown(s, j);
    var q := s[4 * j..4 * j + 4];
    var p := |s| - FirstPad(s);
    if 4 * j + 4 < |s| || p == 0 {
      forall i | 0 <= i < 4 ensures q[i] != PAD { assert q[i] == s[4 * j + i]; }
      NoPads(q);
    } else {
      LastPads(q, p);
    }
  }

  lemma LastPads(q: Text, p: nat)
    requires |q| == 4 && 1 <= p <= 2 && forall i :: 0 <= i < 4 ==> (q[i] == PAD <==> i >= 4 - p)
    ensures Pads(q) == p
  {
    hide Pads;
    PadsStep(q);
    if p == 1 {
      NoPads(q[..3]);
    } else {
      PadsStep(q[..3]);
      assert q[..3][..2] == q[..2];
      NoPads(q[..2]);
    }
  }

  /** The first i quanta gave this text. */
  ghost predicate Partly(src: Text, i: nat, done: Text) {
    |src| % 4 == 0 && 4 * i <= |src| && Quanta(src) == Continued(done, Quanta(src[4 * i..]))
  }

  lemma PartlyStart(src: Text)
    requires |src| % 4 == 0
    ensures Partly(src, 0, [])
  {
    hide Quanta;
    assert src[0..] == src;
    if Quanta(src).Some? { assert [] + Quanta(src).value == Quanta(src).value; }
  }

  lemma PartlyIs(src: Text, i: nat, n: nat, done: Text)
    requires |src| % 4 == 0 && n == 4 * i <= |src|
    ensures Partly(src, i, done) <==> Quanta(src) == Continued(done, Quanta(src[n..]))
  {
    hide Quanta, Continued;
  }

  /** The text from n on, which is a quantum and the rest. */
  lemma Cut(src: Text, i: nat, n: nat)
    requires |src| % 4 == 0 && n == 4 * i && n + 4 <= |src|
    ensures src[n..] == src[n..n + 4] + src[n + 4..] && |src[n + 4..]| % 4 == 0 && n + 4 == 4 * (i + 1)
  {
  }

  lemma NextQuantum(q: Text, rest: Text)
    requires |q| == 4 && |rest| % 4 == 0 && Pads(q) <= 2
    ensures Quanta(q + rest) == if Readable(q) then Continued(Bytes(q), Quanta(rest)) else None
  {
    hide *;
    assert (q + rest)[..4] == q && (q + rest)[4..] == rest;
    QuantaNext(q + rest);
  }

  lemma NothingFurther(done: Text)
    ensures Continued(done, None) == None
  {
  }

  lemma PartlyNext(src: Text, i: nat, n: nat, done: Text)
    requires |src| % 4 == 0 && n == 4 * i && n + 4 <= |src| && Partly(src, i, done) && Pads(src[n..n + 4]) <= 2
    ensures var q := src[n..n + 4];
            if Readable(q) then Partly(src, i + 1, done + Bytes(q)) else Quanta(src) == None
  {
    hide *;
    var q, rest := src[n..n + 4], src[n + 4..];
    Cut(src, i, n);
    PartlyIs(src, i, n, done);
    NextQuantum(q, rest);
    if Readable(q) {
      PartlyIs(src, i + 1, n + 4, done + Bytes(q));
      ContinuedTwice(done, Bytes(q), Quanta(rest));
    } else {
      NothingFurther(done);
    }
  }

  lemma PartlyAll(src: Text, i: nat, done: Text)
    requires Partly(src, i, done) && 4 * i == |src|
    ensures Quanta(src) == Some(done)
  {
    assert done + [] == done;
  }

  /** `mesh_base64_decode` without terminator. */
  method Decode(src: Text) returns (out: Option<Text>)
    ensures out == Decoded(src)
  {
    hide Quanta, Bytes, Pads, Readable, FirstPad, Partly;
    var srclen := |src|;
    if srclen == 0 || srclen % 4 != 0 { return None; }
    var padptr := FirstPad(src);
    var padding := 0;
    if padptr < srclen {
      padding := padding + 1;
      if At(src, padptr + 1) == PAD { padding := padding + 1; }
      if padptr + padding != srclen { return None; }
    }
    var numQuantums := srclen / 4;
    QuantumPads(src, 0);
    var rawlen := numQuantums * 3 - padding;
    var newstr := new Byte[rawlen + 1];
    var pos := 0;
    assert newstr[..0] == [];
    PartlyStart(src);
    for i := 0 to numQuantums
      invariant pos == 3 * i - (if i == numQuantums then padding else 0)
      invariant Partly(src, i, newstr[..pos])
    {
      QuantumPads(src, i);
      PartlyNext(src, i, 4 * i, newstr[..pos]);
      var result := DecodeQuantum(newstr, pos, src[4 * i..4 * i + 4]);
      if result == 0 { return None; }
      pos := pos + result;
    }
    newstr[pos] := 0;
    PartlyAll(src, numQuantums, newstr[..rawlen]);
    out := Some(newstr[..rawlen]);
  }

  function Continued(done: Text, rest: Option<Text>): Option<Text> {
    match rest
    case None => None
    case Some(t) => Some(done + t)
  }

  lemma ContinuedTwice(t: Text, u: Text, rest: Option<Text>)
    ensures Continued(t, Continued(u, rest)) == Continued(t + u, rest)
  {
    if rest.Some? { Assoc(t, u, rest.value); }
  }

  lemma QuantaNext(s: Text)
    requires |s| % 4 == 0 && s != []
    ensures Pads(s[..4]) <= 2 ==>
      Quanta(s) == if Readable(s[..4]) then Continued(Bytes(s[..4]), Quanta(s[4..])) else None
  {
    hide Bytes, Readable, Pads;
  }
}
