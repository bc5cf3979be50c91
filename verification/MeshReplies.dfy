/** What `peer_connection_mesh.cc` reads out of a reply of the server, and that it does not matter in which
    pieces the reply arrives. */
module MeshReplies {
  import opened MeshSession
  import opened ConnAddress

  // ---------- replies as the server writes them ----------

  /** A first line with the status, header lines, and a body. */
  datatype Reply = Reply(protocol: string, status: nat, reason: string, lines: seq<string>, body: string)

  predicate Line(s: string) {
    s != "" && '\r' !in s
  }

  /** The lines hold the length of the body and, if there is one, the id; no other line looks like these. */
  predicate IsReply(r: Reply, length: nat, id: nat) {
    && Line(r.protocol) && ' ' !in r.protocol && '\r' !in r.reason && (r.reason != "" ==> !IsDigit(r.reason[0]))
    && (forall k :: 0 <= k < |r.lines| ==> Line(r.lines[k]))
    && length < |r.lines| && id <= |r.lines| && First(r.lines, LENGTH, length) && First(r.lines, ID, id)
  }

  const LENGTH := "Content-Length: "
  const ID := "Pragma: "

  /** Line k is the first that begins with the key; none does for k == |lines|. */
  predicate First(lines: seq<string>, key: string, k: nat)
    requires k <= |lines|
  {
    && (forall i :: 0 <= i < k ==> !(key <= lines[i])) && (k < |lines| ==> key <= lines[k])
  }

  function Tail(lines: seq<string>, body: string): string {
    if lines == [] then "\r\n\r\n" + body else "\r\n" + (lines[0] + Tail(lines[1..], body))
  }

  function Heading(r: Reply): string {
    r.protocol + (" " + (Decimal(r.status) + r.reason))
  }

  function TextOf(r: Reply): string {
    Heading(r) + Tail(r.lines, r.body)
  }

  /** Where the empty line starts in a tail. */
  function Size(lines: seq<string>): nat {
    if lines == [] then 0 else 2 + |lines[0]| + Size(lines[1..])
  }

  // ---------- looking for a text ----------

  predicate Stands(s: string, i: nat, t: string) {
    i + |t| <= |s| && s[i..i + |t|] == t
  }

  lemma StandsParts(s: string, i: nat, t: string, u: string)
    requires Stands(s, i, t + u)
    ensures Stands(s, i, t) && Stands(s, i + |t|, u)
  {
    var w := s[i..i + |t + u|];
    assert s[i..i + |t|] == w[..|t|];
    assert s[i + |t|..i + |t| + |u|] == w[|t|..];
  }

  lemma StandsAt(s: string, i: nat, t: string, k: nat)
    requires Stands(s, i, t) && k < |t|
    ensures s[i + k] == t[k]
  {
    assert s[i..i + |t|][k] == t[k];
  }

  /** Where the first letter is missing the text is not. */
  lemma {:induction false} FindSkips(s: string, p: string, i: nat, t: string)
    requires Stands(s, i, t) && p != "" && p[0] !in t
    ensures FindText(s, p, i) == FindText(s, p, i + |t|)
    decreases |t|
  {
    if t != "" {
      StandsAt(s, i, t, 0);
      assert t == t[..1] + t[1..];
      StandsParts(s, i, t[..1], t[1..]);
      FindSkips(s, p, i + 1, t[1..]);
      if i + |p| <= |s| {
        assert s[i..i + |p|][0] == s[i];
      }
    }
  }

  lemma FindHere(s: string, p: string, i: nat)
    requires Stands(s, i, p)
    ensures FindText(s, p, i) == i
  {
  }

  lemma FindNext(s: string, p: string, i: nat, k: nat)
    requires k < |p| && i + k < |s| && s[i + k] != p[k]
    ensures FindText(s, p, i) == FindText(s, p, i + 1)
  {
    if i + |p| <= |s| {
      assert s[i..i + |p|][k] == s[i + k];
    }
  }

  lemma {:induction false} FindFrom(s: string, p: string, i: nat)
    ensures FindText(s, p, i) == -1 || FindText(s, p, i) >= i
  {
  }

  // ---------- the header ----------

  /** The end of the header is found where it is. */
  lemma {:induction false} EndFound(s: string, i: nat, lines: seq<string>, body: string)
    requires Stands(s, i, Tail(lines, body)) && forall k :: 0 <= k < |lines| ==> Line(lines[k])
    ensures FindText(s, HEADER_END, i) == i + Size(lines)
    decreases |lines|
  {
    hide FindText, Stands;
    if lines == [] {
      StandsParts(s, i, HEADER_END, body);
      FindHere(s, HEADER_END, i);
    } else {
      var rest := Tail(lines[1..], body);
      LineFollows(s, i, lines[0], rest);
      FindNext(s, HEADER_END, i, 2);
      FindNext(s, HEADER_END, i + 1, 0);
      FindSkips(s, HEADER_END, i + 2, lines[0]);
      EndFound(s, i + 2 + |lines[0]|, lines[1..], body);
    }
  }

  lemma LineFollows(s: string, i: nat, line: string, rest: string)
    requires Stands(s, i, "\r\n" + (line + rest)) && Line(line)
    ensures i + 2 < |s| && s[i] == '\r' && s[i + 1] == '\n' && s[i + 2] == line[0] != '\r'
    ensures Stands(s, i + 2, line) && Stands(s, i + 2 + |line|, rest)
  {
    hide Stands;
    StandsParts(s, i, "\r\n", line + rest);
    StandsParts(s, i + 2, line, rest);
    StandsAt(s, i, "\r\n", 0);
    StandsAt(s, i, "\r\n", 1);
    StandsAt(s, i + 2, line, 0);
    Inside(s, i + 2, line);
  }

  lemma Inside(s: string, i: nat, t: string)
    requires Stands(s, i, t)
    ensures i + |t| <= |s|
  {
  }

  /** A header is found at its first line, or not in front of the end. */
  lemma {:induction false} HeaderFound(s: string, i: nat, lines: seq<string>, body: string, key: string, k: nat)
    requires Stands(s, i, Tail(lines, body)) && forall j :: 0 <= j < |lines| ==> Line(lines[j])
    requires k <= |lines| && First(lines, key, k) && key != "" && '\r' !in key
    ensures var f := FindText(s, "\r\n" + key, i);
            if k < |lines| then f == i + Size(lines[..k]) && Stands(s, f + 2, lines[k]) else f == -1 || f >= i + Size(lines)
    decreases |lines|
  {
    hide FindText, Stands, First, Size;
    var p := "\r\n" + key;
    if lines == [] {
      StandsParts(s, i, HEADER_END, body);
      FindFrom(s, p, i);
      SizeParts(lines, k);
    } else {
      var line, rest := lines[0], Tail(lines[1..], body);
      SizeParts(lines, k);
      FirstParts(lines, key, k);
      if k == 0 {
        HeaderHere(s, i, key, line, rest);
      } else {
        HeaderSkips(s, i, key, line, rest);
        HeaderFound(s, i + 2 + |line|, lines[1..], body, key, k - 1);
      }
    }
  }

  lemma SizeParts(lines: seq<string>, k: nat)
    requires k <= |lines|
    ensures lines == [] ==> Size(lines) == 0
    ensures lines != [] ==> Size(lines) == 2 + |lines[0]| + Size(lines[1..])
    ensures Size(lines[..k]) == if k == 0 then 0 else 2 + |lines[0]| + Size(lines[1..][..k - 1])
  {
    if k > 0 {
      assert lines[1..][..k - 1] == lines[..k][1..];
    } else {
      assert lines[..0] == [];
    }
  }

  lemma FirstParts(lines: seq<string>, key: string, k: nat)
    requires lines != [] && k <= |lines| && First(lines, key, k)
    ensures if k == 0 then key <= lines[0] else !(key <= lines[0]) && First(lines[1..], key, k - 1)
  {
  }

  lemma HeaderHere(s: string, i: nat, key: string, line: string, rest: string)
    requires Stands(s, i, "\r\n" + (line + rest)) && Line(line) && key <= line
    ensures FindText(s, "\r\n" + key, i) == i && Stands(s, i + 2, line)
  {
    hide FindText, Stands;
    LineFollows(s, i, line, rest);
    assert line == key + line[|key|..];
    StandsParts(s, i + 2, key, line[|key|..]);
    TwoAndMore(s, i, "\r\n", key);
    FindHere(s, "\r\n" + key, i);
  }

  lemma HeaderSkips(s: string, i: nat, key: string, line: string, rest: string)
    requires Stands(s, i, "\r\n" + (line + rest)) && Line(line) && !(key <= line) && '\r' !in key
    requires rest != "" && rest[0] == '\r'
    ensures FindText(s, "\r\n" + key, i) == FindText(s, "\r\n" + key, i + 2 + |line|)
    ensures Stands(s, i + 2 + |line|, rest)
  {
    hide FindText, Stands;
    var p := "\r\n" + key;
    LineFollows(s, i, line, rest);
    NoMatch(s, i, key, line, rest);
    FindNext(s, p, i + 1, 0);
    FindSkips(s, p, i + 2, line);
  }

  lemma TwoAndMore(s: string, i: nat, t: string, u: string)
    requires |t| == 2 && i + 1 < |s| && s[i] == t[0] && s[i + 1] == t[1] && Stands(s, i + 2, u)
    ensures Stands(s, i, t + u)
  {
    assert s[i..i + |t + u|] == [s[i]] + ([s[i + 1]] + s[i + 2..i + 2 + |u|]);
  }

  /** A line that does not begin with the key is no match. */
  lemma NoMatch(s: string, i: nat, key: string, line: string, rest: string)
    requires Stands(s, i, "\r\n" + (line + rest)) && Line(line) && !(key <= line) && '\r' !in key
    requires rest != "" && rest[0] == '\r'
    ensures FindText(s, "\r\n" + key, i) == FindText(s, "\r\n" + key, i + 1)
  {
    hide Stands;
    LineFollows(s, i, line, rest);
    var p := "\r\n" + key;
    var j := Differs(key, line);
    if j < |line| {
      StandsAt(s, i + 2, line, j);
    } else {
      StandsAt(s, i + 2 + |line|, rest, 0);
      Inside(s, i + 2 + |line|, rest);
      assert key[j] in key;
    }
    Inside(s, i + 2, line);
    assert p[j + 2] == key[j];
    FindNext(s, p, i, j + 2);
  }

  /** The first place where a line leaves the key. */
  lemma Differs(key: string, line: string) returns (j: nat)
    requires !(key <= line)
    ensures j < |key| && j <= |line| && (j < |line| ==> key[j] != line[j])
  {
    j := 0;
    while j < |key| && j < |line| && key[j] == line[j]
      invariant j <= |key| && j <= |line| && key[..j] == line[..j]
    {
      j := j + 1;
    }
    assert key[..j] == line[..j];
  }

  // ---------- numbers ----------

  /** No digit where the text stops. */
  predicate Stop(s: string, i: nat) {
    i >= |s| || !IsDigit(s[i])
  }

  lemma DigitsStop(s: string, i: nat, value: int)
    requires Stop(s, i)
    ensures MeshSession.Digits(s, i, value) == value
  {
  }

  lemma {:induction false} DigitsRead(s: string, i: nat, n: nat, value: int)
    requires Stands(s, i, Decimal(n))
    ensures MeshSession.Digits(s, i, value) == MeshSession.Digits(s, i + |Decimal(n)|, value * Tens(n) + n)
    decreases n
  {
    hide Stands, MeshSession.Digits;
    if n < 10 {
      LastDigit(s, i, n, value);
    } else {
      var t := Decimal(n / 10);
      StandsParts(s, i, t, [DIGITS[n % 10]]);
      DigitsRead(s, i, n / 10, value);
      var v := value * Tens(n / 10) + n / 10;
      LastDigit(s, i + |t|, n % 10, v);
      Regrouped(value, Tens(n / 10), n);
    }
  }

  lemma LastDigit(s: string, i: nat, d: nat, value: int)
    requires d < 10 && Stands(s, i, [DIGITS[d]])
    ensures MeshSession.Digits(s, i, value) == MeshSession.Digits(s, i + 1, value * 10 + d)
  {
    hide Stands;
    DigitAt(d);
    Inside(s, i, [DIGITS[d]]);
    StandsAt(s, i, [DIGITS[d]], 0);
  }

  lemma Regrouped(value: int, tens: int, n: nat)
    ensures (value * tens + n / 10) * 10 + n % 10 == value * (tens * 10) + n
  {
  }

  /** Ten to the number of digits. */
  function Tens(n: nat): int {
    if n < 10 then 10 else Tens(n / 10) * 10
  }

  /** A numeral is read as its number when no digit follows. */
  lemma NumberRead(s: string, i: nat, n: nat)
    requires Stands(s, i, Decimal(n)) && Stop(s, i + |Decimal(n)|)
    ensures Atoi(s, i) == n
  {
    hide Stands, MeshSession.Digits;
    DecimalIs(n);
    StandsAt(s, i, Decimal(n), 0);
    Inside(s, i, Decimal(n));
    DigitsRead(s, i, n, 0);
    DigitsStop(s, i + |Decimal(n)|, n);
  }

  /** The six characters that `atoi` skips. */
  const BLANKS := [' ', '\t', '\n', 11 as char, 12 as char, '\r']

  /** Blanks and a sign in front of the digits count as in C. */
  lemma {:induction false} SignedRead(s: string, i: nat, blanks: string, sign: string, n: nat)
    requires Stands(s, i, blanks) && (forall k :: 0 <= k < |blanks| ==> blanks[k] in BLANKS)
    requires sign == "" || sign == "+" || sign == "-"
    requires Stands(s, i + |blanks|, sign) && Stands(s, i + |blanks| + |sign|, Decimal(n))
    requires Stop(s, i + |blanks| + |sign| + |Decimal(n)|)
    ensures Atoi(s, i) == (if sign == "-" then -1 else 1) * n
    decreases |blanks|
  {
    hide Stands, MeshSession.Digits;
    Inside(s, i + |blanks| + |sign|, Decimal(n));
    if blanks != "" {
      StandsAt(s, i, blanks, 0);
      assert blanks == blanks[..1] + blanks[1..];
      StandsParts(s, i, blanks[..1], blanks[1..]);
      SignedRead(s, i + 1, blanks[1..], sign, n);
    } else if sign == "" {
      NumberRead(s, i, n);
    } else {
      StandsAt(s, i, sign, 0);
      Inside(s, i, sign);
      DigitsRead(s, i + 1, n, 0);
      DigitsStop(s, i + 1 + |Decimal(n)|, n);
    }
  }

  // ---------- what a reply says ----------

  /** The length line holds this number and the id line that one. */
  predicate Says(r: Reply, length: nat, n: nat, id: nat, who: nat) {
    && IsReply(r, length, id) && r.lines[length] == LENGTH + Decimal(n)
    && (id < |r.lines| ==> r.lines[id] == ID + Decimal(who))
  }

  lemma TextStands(r: Reply, length: nat, id: nat)
    requires IsReply(r, length, id)
    ensures var s := TextOf(r);
            && Stands(s, 0, Heading(r)) && Stands(s, |Heading(r)|, Tail(r.lines, r.body)) && '\r' !in Heading(r)
  {
    hide Tail;
    var s, h := TextOf(r), Heading(r);
    assert s[0..|h|] == h && s[|h|..|h| + |Tail(r.lines, r.body)|] == Tail(r.lines, r.body);
    DecimalPlain(r.status);
  }

  lemma DecimalPlain(n: nat)
    ensures '\r' !in Decimal(n) && ' ' !in Decimal(n)
  {
    DecimalIs(n);
  }

  /** Where the empty line of a reply starts. */
  function End(r: Reply): nat {
    |Heading(r)| + Size(r.lines)
  }

  lemma EndIs(r: Reply, length: nat, id: nat)
    requires IsReply(r, length, id)
    ensures FindText(TextOf(r), HEADER_END, 0) == End(r)
  {
    hide FindText, Stands, Heading, Tail, First;
    TextStands(r, length, id);
    FindSkips(TextOf(r), HEADER_END, 0, Heading(r));
    EndFound(TextOf(r), |Heading(r)|, r.lines, r.body);
  }

  lemma {:induction false} SizeBefore(lines: seq<string>, k: nat)
    requires k < |lines|
    ensures Size(lines[..k]) + 2 + |lines[k]| <= Size(lines)
    decreases |lines|
  {
    if k > 0 {
      assert lines[1..][..k - 1] == lines[..k][1..];
      SizeBefore(lines[1..], k - 1);
    } else {
      assert lines[..0] == [];
    }
  }

  /** The value behind a key, when a line has it, wherever that line stands. */
  lemma HeaderIs(r: Reply, length: nat, id: nat, key: string, k: nat, n: nat)
    requires IsReply(r, length, id) && k <= |r.lines| && First(r.lines, key, k) && key != "" && '\r' !in key
    requires k < |r.lines| ==> r.lines[k] == key + Decimal(n)
    ensures HeaderValue(TextOf(r), End(r), "\r\n" + key) == if k < |r.lines| then (true, n) else (false, 0)
  {
    hide FindText, Stands, Heading, Tail, First, Atoi;
    var s, at := TextOf(r), |Heading(r)|;
    var p := "\r\n" + key;
    TextStands(r, length, id);
    FindSkips(s, p, 0, Heading(r));
    HeaderFound(s, at, r.lines, r.body, key, k);
    if k < |r.lines| {
      SizeBefore(r.lines, k);
      var f := FindText(s, p, 0);
      StandsParts(s, f + 2, key, Decimal(n));
      LineEnds(s, at, r.lines, r.body, k);
      NumberRead(s, f + 2 + |key|, n);
    }
  }

  /** Behind a line comes no digit. */
  lemma {:induction false} LineEnds(s: string, i: nat, lines: seq<string>, body: string, k: nat)
    requires Stands(s, i, Tail(lines, body)) && k < |lines| && forall j :: 0 <= j < |lines| ==> Line(lines[j])
    ensures Stop(s, i + Size(lines[..k]) + 2 + |lines[k]|)
    decreases |lines|
  {
    hide Stands;
    var rest := Tail(lines[1..], body);
    LineFollows(s, i, lines[0], rest);
    if k == 0 {
      assert lines[..0] == [];
      StandsAt(s, i + 2 + |lines[0]|, rest, 0);
    } else {
      assert lines[1..][..k - 1] == lines[..k][1..];
      LineEnds(s, i + 2 + |lines[0]|, lines[1..], body, k - 1);
    }
  }

  lemma StatusIs(r: Reply, length: nat, id: nat)
    requires IsReply(r, length, id)
    ensures Status(TextOf(r)) == r.status
  {
    hide *;
    var s, rest := TextOf(r), Decimal(r.status) + r.reason;
    TextStands(r, length, id);
    HeadingParts(r, length, id);
    StandsParts(s, 0, r.protocol, " " + rest);
    FindSkips(s, " ", 0, r.protocol);
    StandsParts(s, |r.protocol|, " ", rest);
    FindHere(s, " ", |r.protocol|);
    StandsParts(s, |r.protocol| + 1, Decimal(r.status), r.reason);
    StatusEnds(r, length, id);
    NumberRead(s, |r.protocol| + 1, r.status);
    StatusBehind(s, |r.protocol|);
  }

  lemma HeadingParts(r: Reply, length: nat, id: nat)
    requires IsReply(r, length, id)
    ensures Heading(r) == r.protocol + (" " + (Decimal(r.status) + r.reason)) && ' ' !in r.protocol
  {
    hide First;
  }

  lemma StatusBehind(s: string, k: nat)
    requires FindText(s, " ", 0) == k
    ensures Status(s) == Atoi(s, k + 1)
  {
    hide FindText, Atoi;
  }

  /** Behind the status comes no digit. */
  lemma StatusEnds(r: Reply, length: nat, id: nat)
    requires IsReply(r, length, id)
    ensures Stop(TextOf(r), |r.protocol| + 1 + |Decimal(r.status)|)
  {
    hide Stands, Tail, First, Heading, TextOf, Decimal;
    var s, j := TextOf(r), |r.protocol| + 1 + |Decimal(r.status)|;
    TextStands(r, length, id);
    HeadingParts(r, length, id);
    if r.reason != "" {
      StandsParts(s, 0, r.protocol, " " + (Decimal(r.status) + r.reason));
      StandsParts(s, |r.protocol|, " ", Decimal(r.status) + r.reason);
      StandsParts(s, |r.protocol| + 1, Decimal(r.status), r.reason);
      StandsAt(s, j, r.reason, 0);
    } else {
      TailStart(r.lines, r.body);
      StandsAt(s, |Heading(r)|, Tail(r.lines, r.body), 0);
    }
  }

  lemma TailStart(lines: seq<string>, body: string)
    ensures Tail(lines, body) != "" && Tail(lines, body)[0] == '\r'
  {
  }

  lemma {:induction false} TailSize(lines: seq<string>, body: string)
    ensures |Tail(lines, body)| == Size(lines) + 4 + |body|
  {
    if lines != [] { TailSize(lines[1..], body); }
  }

  /** The status, the id, and that the reply is complete once its body has the length it announces. */
  lemma ReplyRead(r: Reply, length: nat, n: nat, id: nat, who: nat)
    requires Says(r, length, n, id, who) && End(r) + 4 + n < 0x1_0000_0000_0000_0000
    ensures Status(TextOf(r)) == r.status
    ensures ReplyId(TextOf(r)) == if id < |r.lines| then who else -1
    ensures Complete(TextOf(r)) <==> |r.body| >= n
  {
    hide FindText, Stands, Tail, First, HeaderValue, Heading;
    Keys();
    StatusIs(r, length, id);
    EndIs(r, length, id);
    HeaderIs(r, length, id, LENGTH, length, n);
    HeaderIs(r, length, id, ID, id, who);
    TailSize(r.lines, r.body);
  }

  lemma Keys()
    ensures CONTENT_LENGTH == "\r\n" + LENGTH && PRAGMA == "\r\n" + ID
    ensures '\r' !in LENGTH && '\r' !in ID && LENGTH != "" && ID != ""
  {
  }

  // ---------- replies in pieces ----------

  /** What is found in the beginning of a text is found in the text. */
  lemma {:induction false} FoundInPrefix(s: string, m: nat, p: string, i: nat)
    requires m <= |s| && FindText(s[..m], p, i) != -1
    ensures FindText(s, p, i) == FindText(s[..m], p, i)
    decreases |s| - i
  {
    assert i + |p| <= m ==> s[..m][i..i + |p|] == s[i..i + |p|];
    if i + |p| <= m && s[i..i + |p|] != p { FoundInPrefix(s, m, p, i + 1); }
  }

  lemma {:induction false} DigitsInPrefix(s: string, m: nat, i: nat, n: nat, value: int)
    requires m <= |s| && Stands(s, i, Decimal(n)) && i + |Decimal(n)| <= m && Stop(s, i + |Decimal(n)|)
    ensures Atoi(s[..m], i) == n
  {
    hide Atoi;
    var t := Decimal(n);
    assert s[..m][i..i + |t|] == s[i..i + |t|];
    assert i + |t| < m ==> s[..m][i + |t|] == s[i + |t|];
    NumberRead(s[..m], i, n);
  }

  /** No beginning of a reply is complete. */
  lemma NoneSooner(r: Reply, length: nat, n: nat, id: nat, who: nat, m: nat)
    requires Says(r, length, n, id, who) && End(r) + 4 + n < 0x1_0000_0000_0000_0000 && |r.body| == n && m < |TextOf(r)|
    ensures !Complete(TextOf(r)[..m])
  {
    hide FindText, Stands, Tail, First, Heading, Atoi, TextOf, End;
    var s := TextOf(r);
    var u := s[..m];
    Keys();
    EndIs(r, length, id);
    TextSize(r);
    if Complete(u) {
      FoundInPrefix(s, m, HEADER_END, 0);
      FoundInPrefix(s, m, CONTENT_LENGTH, 0);
      HeaderInPrefix(r, length, n, id, who, m);
    }
  }

  lemma TextSize(r: Reply)
    ensures |TextOf(r)| == End(r) + 4 + |r.body|
  {
    TailSize(r.lines, r.body);
  }

  lemma HeaderInPrefix(r: Reply, length: nat, n: nat, id: nat, who: nat, m: nat)
    requires Says(r, length, n, id, who) && m <= |TextOf(r)| && End(r) <= m
    requires FindText(TextOf(r)[..m], CONTENT_LENGTH, 0) != -1
    ensures HeaderValue(TextOf(r)[..m], End(r), CONTENT_LENGTH) == (true, n)
  {
    hide FindText, Stands, Tail, First, Heading, Atoi, Line, Stop, Decimal;
    var s, at := TextOf(r), |Heading(r)|;
    Keys();
    FoundInPrefix(s, m, CONTENT_LENGTH, 0);
    TextStands(r, length, id);
    FindSkips(s, CONTENT_LENGTH, 0, Heading(r));
    HeaderFound(s, at, r.lines, r.body, LENGTH, length);
    SizeBefore(r.lines, length);
    var f := FindText(s, CONTENT_LENGTH, 0);
    StandsParts(s, f + 2, LENGTH, Decimal(n));
    LineEnds(s, at, r.lines, r.body, length);
    DigitsInPrefix(s, m, f + 2 + |LENGTH|, n, 0);
  }

  function Concatenated(ps: seq<string>): string {
    if ps == [] then "" else ps[0] + Concatenated(ps[1..])
  }

  function Reads(ps: seq<string>, closed: bool, ok: bool): seq<Event> {
    seq(|ps|, i requires 0 <= i < |ps| => Read(ps[i], closed, ok))
  }

  function After(s: Session, es: seq<Event>): Session
    decreases |es|
  {
    if es == [] then s else After(Next(s, es[0]), es[1..])
  }

  lemma PartRead(s: Session, part: string, closed: bool, ok: bool)
    requires s.state != NOT_CONNECTED && s.state != SIGNING_OUT && !Complete(s.controlData + part)
    ensures Next(s, Read(part, closed, ok)) == s.(controlData := s.controlData + part)
  {
    hide Complete, Status, ReplyId;
  }

  lemma LastRead(s: Session, part: string, closed: bool, ok: bool)
    requires s.state != NOT_CONNECTED && s.state != SIGNING_OUT
    ensures Next(s, Read(part, closed, ok)) == Next(s.(controlData := ""), Read(s.controlData + part, closed, ok))
  {
    hide Taken;
    assert "" + (s.controlData + part) == s.controlData + part;
    TakenAlike(s, s.controlData + part, closed, ok);
  }

  lemma TakenAlike(s: Session, data: string, closed: bool, ok: bool)
    ensures Taken(s.(controlData := ""), data, closed, ok) == Taken(s, data, closed, ok)
  {
    hide Complete, Status, ReplyId, Left;
    if s.state == SIGNING_OUT_WAITING { LeftAlike(s, closed, ok); }
  }

  /** Leaving does not look at the data. */
  lemma LeftAlike(s: Session, closed: bool, ok: bool)
    ensures Left(s.(controlData := ""), closed, ok) == Left(s, closed, ok).(controlData := "")
  {
  }

  /** However a text arrives, as long as only all of it is complete, the session ends as if it had come at
      once. */
  lemma {:induction false} PiecesRead(s: Session, text: string, ps: seq<string>, closed: bool, ok: bool)
    requires ps != [] && (forall k :: 0 <= k < |ps| ==> ps[k] != "") && s.controlData + Concatenated(ps) == text
    requires s.state != NOT_CONNECTED && s.state != SIGNING_OUT
    requires forall m :: 0 <= m < |text| ==> !Complete(text[..m])
    ensures After(s, Reads(ps, closed, ok)) == Next(s.(controlData := ""), Read(text, closed, ok))
    decreases |ps|
  {
    hide Complete, Next;
    var es := Reads(ps, closed, ok);
    assert es[0] == Read(ps[0], closed, ok) && es[1..] == Reads(ps[1..], closed, ok);
    var data := s.controlData + ps[0];
    if |ps| == 1 {
      assert ps[1..] == [];
      assert Concatenated(ps) == ps[0];
      LastRead(s, ps[0], closed, ok);
    } else {
      Together(s.controlData, ps[0], Concatenated(ps[1..]));
      NotEmpty(ps[1..]);
      assert text[..|data|] == data;
      PartRead(s, ps[0], closed, ok);
      PiecesRead(s.(controlData := data), text, ps[1..], closed, ok);
    }
  }

  lemma Together(a: string, b: string, c: string)
    ensures a + (b + c) == (a + b) + c
  {
  }

  lemma NotEmpty(ps: seq<string>)
    requires ps != [] && ps[0] != ""
    ensures Concatenated(ps) != ""
  {
  }

  /** Signing in: a reply of status 200 with an id connects the session with that id, one of another status
      shuts it, in whatever pieces it arrives. */
  lemma SignedInExactly(
      s: Session, r: Reply, length: nat, n: nat, id: nat, who: nat, ps: seq<string>, closed: bool, ok: bool)
    requires s.state == SIGNING_IN && s.myId == -1 && s.controlData == ""
    requires Says(r, length, n, id, who) && End(r) + 4 + n < 0x1_0000_0000_0000_0000 && |r.body| == n
    requires ps != [] && (forall k :: 0 <= k < |ps| ==> ps[k] != "") && Concatenated(ps) == TextOf(r)
    ensures var t := After(s, Reads(ps, closed, ok));
            t == if r.status == 200 then s.(state := CONNECTED, myId := if id < |r.lines| then who else -1)
                 else s.(state := NOT_CONNECTED, myId := -1)
  {
    hide Complete, Status, ReplyId, TextOf, Says, End, Reads, Concatenated;
    ReplyRead(r, length, n, id, who);
    forall m | 0 <= m < |TextOf(r)| ensures !Complete(TextOf(r)[..m]) {
      NoneSooner(r, length, n, id, who, m);
    }
    assert "" + TextOf(r) == TextOf(r);
    PiecesRead(s, TextOf(r), ps, closed, ok);
  }

  /** Connected: a reply to a request leaves the session as it is, unless its status is an error. */
  lemma RequestAnswered(
      s: Session, r: Reply, length: nat, n: nat, id: nat, who: nat, ps: seq<string>, closed: bool, ok: bool)
    requires s.state == CONNECTED && s.myId != -1 && s.controlData == ""
    requires Says(r, length, n, id, who) && End(r) + 4 + n < 0x1_0000_0000_0000_0000 && |r.body| == n
    requires ps != [] && (forall k :: 0 <= k < |ps| ==> ps[k] != "") && Concatenated(ps) == TextOf(r)
    ensures After(s, Reads(ps, closed, ok)) == if r.status == 200 then s else s.(state := NOT_CONNECTED, myId := -1)
  {
    hide Complete, Status, ReplyId, TextOf, Says, End, Reads, Concatenated;
    ReplyRead(r, length, n, id, who);
    forall m | 0 <= m < |TextOf(r)| ensures !Complete(TextOf(r)[..m]) {
      NoneSooner(r, length, n, id, who, m);
    }
    assert "" + TextOf(r) == TextOf(r);
    PiecesRead(s, TextOf(r), ps, closed, ok);
  }
}
