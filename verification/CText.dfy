/** Bytes and C strings as `gbcom_common/json/cjson.c` and `gbcom_common/base64.c` read them. */
module CText {

  type Byte = b: int | 0 <= b < 256

  type Text = seq<Byte>

  /** What dereferencing a `char` pointer at offset `i` gives: the terminator is the
      byte just behind the text. */
  function At(s: Text, i: nat): Byte {
    if i < |s| then s[i] else 0
  }

  /** No terminator inside: the text is exactly the C string. */
  predicate NulFree(s: Text) {
    forall i :: 0 <= i < |s| ==> s[i] != 0
  }

  /** `t` stands in `s` at offset `i`. */
  predicate Here(s: Text, i: nat, t: Text) {
    i + |t| <= |s| && s[i..i + |t|] == t
  }

  lemma HereParts(s: Text, i: nat, t: Text, u: Text)
    requires Here(s, i, t + u)
    ensures Here(s, i, t) && Here(s, i + |t|, u)
  {
    var w := s[i..i + |t + u|];
    assert w == t + u;
    assert s[i..i + |t|] == w[..|t|];
    assert s[i + |t|..i + |t| + |u|] == w[|t|..];
  }

  lemma Assoc(t: Text, u: Text, v: Text)
    ensures (t + u) + v == t + (u + v)
  {
  }

  lemma HereByte(s: Text, i: nat, t: Text, k: nat)
    requires Here(s, i, t) && k < |t|
    ensures At(s, i + k) == t[k]
  {
    assert s[i..i + |t|][k] == t[k];
  }

  predicate IsDigit(c: Byte) {
    48 <= c <= 57
  }
}
