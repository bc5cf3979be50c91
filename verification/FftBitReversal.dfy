/** `bitrv2` of `gbcom_common/ns/fft4g.cc`: n reals are n / 2 complex numbers, and the one at
    place i moves to the place with the bits of i reversed. */
module FftBitReversal {
  import opened FftBits
  import opened FftComplex

  ghost predicate Even(s: seq<real>, n: nat) {
    |s| == 2 * n
  }

  /** `s'` is `s` with places u and v exchanged. */
  ghost predicate Exchanged(s: seq<real>, s': seq<real>, n: nat, u: nat, v: nat)
    requires u < n && v < n
  {
    && Even(s, n) && Even(s', n)
    && forall i :: 0 <= i < n ==> Pair(s', i) == Pair(s, if i == u then v else if i == v then u else i)
  }

  /** Every place holds what stood at the reversed place. */
  ghost predicate Reversed(s: seq<real>, s': seq<real>, p: nat) {
    && Even(s, Pow2(p)) && Even(s', Pow2(p))
    && forall i :: 0 <= i < Pow2(p) ==> Pair(s', i) == Pair(s, Rev(p, i))
  }

  /** Reversing twice restores the array. */
  lemma TwiceIsIdentity(s: seq<real>, s': seq<real>, s'': seq<real>, p: nat)
    requires Reversed(s, s', p) && Reversed(s', s'', p)
    ensures s'' == s
  {
    forall k | 0 <= k < |s| ensures s''[k] == s[k] {
      var i := k / 2;
      RevInvolution(p, i);
      hide Rev;
      assert Pair(s'', i) == Pair(s', Rev(p, i)) == Pair(s, i);
    }
  }

  // ---------- places ----------

  /** The place with `t` high bits Rev(x), `w` middle bits b and `t` low bits y: the swap loops
      visit places in this form, y being the inner and x the outer counter. */
  function Place(t: nat, w: nat, x: nat, b: nat, y: nat): (i: nat)
    requires b < Pow2(w) && y < Pow2(t)
    ensures i < Pow2(t + (w + t))
  {
    hide *;
    PlaceBelow(t, w, Rev(t, x), b, y);
    Spot(t, w, Rev(t, x), b, y)
  }

  function Spot(t: nat, w: nat, r: nat, b: nat, y: nat): nat {
    r * Pow2(w + t) + (b * Pow2(t) + y)
  }

  lemma MiddleBelow(t: nat, w: nat, b: nat, y: nat)
    requires b < Pow2(w) && y < Pow2(t)
    ensures b * Pow2(t) + y < Pow2(w + t)
  {
    Pow2Sum(w, t);
    BelowProduct(b, Pow2(t), y, Pow2(w));
  }

  lemma PlaceBelow(t: nat, w: nat, r: nat, b: nat, y: nat)
    requires r < Pow2(t) && b < Pow2(w) && y < Pow2(t)
    ensures Spot(t, w, r, b, y) < Pow2(t + (w + t))
  {
    MiddleBelow(t, w, b, y);
    Pow2Sum(t, w + t);
    BelowProduct(r, Pow2(w + t), b * Pow2(t) + y, Pow2(t));
  }

  /** Reversing all bits exchanges the two counters and reverses the middle. */
  lemma PlaceReversed(t: nat, w: nat, x: nat, b: nat, y: nat)
    requires x < Pow2(t) && b < Pow2(w) && y < Pow2(t)
    ensures Rev(t + (w + t), Place(t, w, x, b, y)) == Place(t, w, y, Rev(w, b), x)
  {
    hide Rev, Pow2;
    MiddleBelow(t, w, b, y);
    RevConcat(t, w + t, Rev(t, x), b * Pow2(t) + y);
    RevConcat(w, t, b, y);
    RevInvolution(t, x);
    Pow2Sum(w, t);
    Reassociate(Rev(t, y), Pow2(w), Rev(w, b), Pow2(t));
  }

  lemma Reassociate(a: int, b: int, c: int, d: int)
    ensures (a * b + c) * d == a * (b * d) + c * d
  {
    Distribute(a * b, c, d);
    MulAssoc(a, b, d);
  }

  lemma MulAssoc(a: int, b: int, c: int)
    ensures (a * b) * c == a * (b * c)
  {
  }

  /** The place tells its counters. */
  lemma PlaceInjective(t: nat, w: nat, x: nat, b: nat, y: nat, x': nat, b': nat, y': nat)
    requires x < Pow2(t) && b < Pow2(w) && y < Pow2(t)
    requires x' < Pow2(t) && b' < Pow2(w) && y' < Pow2(t)
    requires Place(t, w, x, b, y) == Place(t, w, x', b', y')
    ensures x == x' && b == b' && y == y'
  {
    MiddleBelow(t, w, b, y);
    MiddleBelow(t, w, b', y');
    RevInvolution(t, x);
    RevInvolution(t, x');
    UniqueTriple(Pow2(t), Pow2(w + t), Rev(t, x), b, y, Rev(t, x'), b', y');
  }

  lemma UniqueTriple(m: nat, d: nat, r: nat, b: nat, y: nat, r': nat, b': nat, y': nat)
    requires y < m && y' < m && b * m + y < d && b' * m + y' < d
    requires r * d + (b * m + y) == r' * d + (b' * m + y')
    ensures r == r' && b == b' && y == y'
  {
    UniqueSplit(d, r, b * m + y, r', b' * m + y');
    UniqueSplit(m, b, y, b', y');
  }

  lemma UniqueSplit(d: nat, h: nat, l: nat, h': nat, l': nat)
    requires l < d && l' < d && h * d + l == h' * d + l'
    ensures h == h' && l == l'
  {
    QuotientRemainder(h, d, l);
    QuotientRemainder(h', d, l');
  }

  /** Every place has counters. */
  lemma CountersOf(t: nat, w: nat, i: nat) returns (x: nat, b: nat, y: nat)
    requires i < Pow2(t + (w + t))
    ensures x < Pow2(t) && b < Pow2(w) && y < Pow2(t) && i == Place(t, w, x, b, y)
  {
    Pow2Sum(t, w + t);
    Pow2Sum(w, t);
    var hi, lo := Split(i, Pow2(w + t), Pow2(t));
    b, y := Split(lo, Pow2(t), Pow2(w));
    x := Rev(t, hi);
    RevInvolution(t, hi);
  }

  lemma Split(i: nat, c: nat, e: nat) returns (h: nat, l: nat)
    requires c > 0 && i < e * c
    ensures i == h * c + l && l < c && h < e
  {
    h, l := i / c, i % c;
    Quotient(i, c, e);
  }

  // ---------- the swap loops ----------

  /** The middle bits of a place, reversed, are middle bits again. */
  function Flip(w: nat, b: nat): (f: nat)
    ensures f < Pow2(w)
  {
    Rev(w, b)
  }

  /** Place (x, b, y) has got its new contents when the outer counter stands at K, the inner at
      J and C of the exchanges of this round are done. */
  ghost predicate Moved(w: nat, x: nat, b: nat, y: nat, K: nat, J: nat, C: nat) {
    || (x < K && y < K)
    || (x == K && y < J) || (y == K && x < J)
    || (x == K && y == J && b < C)
    || (x == J && y == K && Flip(w, b) < C)
  }

  predicate InRange(t: nat, w: nat, x: int, b: int, y: int) {
    0 <= x < Pow2(t) && 0 <= b < Pow2(w) && 0 <= y < Pow2(t)
  }

  ghost predicate Settled(s0: seq<real>, s: seq<real>, t: nat, w: nat, x: nat, b: nat, y: nat, moved: bool)
    requires InRange(t, w, x, b, y) && Even(s0, Pow2(t + (w + t))) && Even(s, Pow2(t + (w + t)))
  {
    Pair(s, Place(t, w, x, b, y))
    == if moved then Pair(s0, Place(t, w, y, Flip(w, b), x)) else Pair(s0, Place(t, w, x, b, y))
  }

  ghost predicate Stage(s0: seq<real>, s: seq<real>, t: nat, w: nat, K: nat, J: nat, C: nat) {
    && Even(s0, Pow2(t + (w + t))) && Even(s, Pow2(t + (w + t)))
    && forall x, b, y :: InRange(t, w, x, b, y) ==>
         Settled(s0, s, t, w, x, b, y, Moved(w, x, b, y, K, J, C))
  }

  /** One exchange of a round. */
  lemma ExchangeStep(s0: seq<real>, s: seq<real>, s': seq<real>, t: nat, w: nat, K: nat, J: nat, C: nat)
    requires J < K < Pow2(t) && C < Pow2(w) && Stage(s0, s, t, w, K, J, C)
    requires Exchanged(s, s', Pow2(t + (w + t)), Place(t, w, K, C, J), Place(t, w, J, Flip(w, C), K))
    ensures Stage(s0, s', t, w, K, J, C + 1)
  {
    forall x, b, y | InRange(t, w, x, b, y)
      ensures Settled(s0, s', t, w, x, b, y, Moved(w, x, b, y, K, J, C + 1))
    {
      ExchangeAt(s0, s, s', t, w, K, J, C, x, b, y);
    }
  }

  lemma ExchangeAt(s0: seq<real>, s: seq<real>, s': seq<real>, t: nat, w: nat, K: nat, J: nat, C: nat,
                   x: nat, b: nat, y: nat)
    requires J < K < Pow2(t) && C < Pow2(w) && Stage(s0, s, t, w, K, J, C)
    requires Exchanged(s, s', Pow2(t + (w + t)), Place(t, w, K, C, J), Place(t, w, J, Flip(w, C), K))
    requires InRange(t, w, x, b, y)
    ensures Settled(s0, s', t, w, x, b, y, Moved(w, x, b, y, K, J, C + 1))
  {
    hide Rev, Place, Pow2, Pair;
    RevInvolution(w, b);
    RevInvolution(w, C);
    assert Settled(s0, s, t, w, x, b, y, Moved(w, x, b, y, K, J, C));
    assert Settled(s0, s, t, w, K, C, J, Moved(w, K, C, J, K, J, C));
    assert Settled(s0, s, t, w, J, Flip(w, C), K, Moved(w, J, Flip(w, C), K, K, J, C));
    if Place(t, w, x, b, y) == Place(t, w, K, C, J) {
      PlaceInjective(t, w, x, b, y, K, C, J);
    } else if Place(t, w, x, b, y) == Place(t, w, J, Flip(w, C), K) {
      PlaceInjective(t, w, x, b, y, J, Flip(w, C), K);
    }
  }

  lemma NextInner(s0: seq<real>, s: seq<real>, t: nat, w: nat, K: nat, J: nat)
    requires J < K < Pow2(t) && Stage(s0, s, t, w, K, J, Pow2(w))
    ensures Stage(s0, s, t, w, K, J + 1, 0)
  {
    hide Rev, Place, Pow2, Settled;
    forall x, b, y | InRange(t, w, x, b, y)
      ensures Settled(s0, s, t, w, x, b, y, Moved(w, x, b, y, K, J + 1, 0))
    {
      assert Moved(w, x, b, y, K, J + 1, 0) == Moved(w, x, b, y, K, J, Pow2(w));
    }
  }

  lemma SmallRev()
    ensures Pow2(1) == 2 && Pow2(2) == 4
    ensures Rev(1, 0) == 0 && Rev(1, 1) == 1
    ensures Rev(2, 0) == 0 && Rev(2, 1) == 2 && Rev(2, 2) == 1 && Rev(2, 3) == 3
  {
    assert Pow2(0) == 1;
    assert Rev(1, 0) == 0 && Rev(1, 1) == 1;
  }

  /** With one middle bit the places on the diagonal stay. */
  lemma NextOuterOdd(s0: seq<real>, s: seq<real>, t: nat, K: nat)
    requires K < Pow2(t) && Stage(s0, s, t, 1, K, K, 0)
    ensures Stage(s0, s, t, 1, K + 1, 0, 0)
  {
    hide Rev, Place, Pow2, Pair;
    SmallRev();
    forall x, b, y | InRange(t, 1, x, b, y)
      ensures Settled(s0, s, t, 1, x, b, y, Moved(1, x, b, y, K + 1, 0, 0))
    {
      assert Settled(s0, s, t, 1, x, b, y, Moved(1, x, b, y, K, K, 0));
      assert b == 0 || b == 1;
    }
  }

  /** With two middle bits the inner two of four places on the diagonal are exchanged. */
  lemma NextOuterEven(s0: seq<real>, s: seq<real>, s': seq<real>, t: nat, K: nat)
    requires K < Pow2(t) && Stage(s0, s, t, 2, K, K, 0) && Pow2(2) == 4
    requires Exchanged(s, s', Pow2(t + (2 + t)), Place(t, 2, K, 1, K), Place(t, 2, K, 2, K))
    ensures Stage(s0, s', t, 2, K + 1, 0, 0)
  {
    forall x, b, y | InRange(t, 2, x, b, y)
      ensures Settled(s0, s', t, 2, x, b, y, Moved(2, x, b, y, K + 1, 0, 0))
    {
      hide Rev, Place, Pow2, Pair;
      SmallRev();
      assert Settled(s0, s, t, 2, x, b, y, Moved(2, x, b, y, K, K, 0));
      assert Settled(s0, s, t, 2, K, 1, K, Moved(2, K, 1, K, K, K, 0));
      assert Settled(s0, s, t, 2, K, 2, K, Moved(2, K, 2, K, K, K, 0));
      if Place(t, 2, x, b, y) == Place(t, 2, K, 1, K) {
        PlaceInjective(t, 2, x, b, y, K, 1, K);
      } else if Place(t, 2, x, b, y) == Place(t, 2, K, 2, K) {
        PlaceInjective(t, 2, x, b, y, K, 2, K);
      }
      assert b == 0 || b == 1 || b == 2 || b == 3;
    }
  }

  lemma FirstStage(s: seq<real>, t: nat, w: nat)
    requires Even(s, Pow2(t + (w + t)))
    ensures Stage(s, s, t, w, 0, 0, 0)
  {
    hide Rev, Place, Pow2, Pair;
  }

  lemma LastStage(s0: seq<real>, s: seq<real>, t: nat, w: nat)
    requires Stage(s0, s, t, w, Pow2(t), 0, 0)
    ensures Reversed(s0, s, t + (w + t))
  {
    forall i | 0 <= i < Pow2(t + (w + t)) ensures Pair(s, i) == Pair(s0, Rev(t + (w + t), i)) {
      var x, b, y := CountersOf(t, w, i);
      PlaceReversed(t, w, x, b, y);
      hide Rev, Place, Pow2, Pair;
      assert Settled(s0, s, t, w, x, b, y, Moved(w, x, b, y, Pow2(t), 0, 0));
    }
  }

  // ---------- the index table ----------

  /** The first `m` = 2^s entries hold the reversals of their indices, scaled by l = 2^(q-s). */
  ghost predicate Table(ip: seq<nat>, s: nat, l: nat) {
    Pow2(s) <= |ip| && forall j :: 0 <= j < Pow2(s) ==> ip[j] == Rev(s, j) * l
  }

  /** Each round halves `l` and doubles the table, until eight times its size reaches `l`. */
  method MakeTable(n: nat, ip: array<nat>, ghost q: nat) returns (m: nat, l: nat, ghost t: nat)
    requires q >= 2 && n == Pow2(q) && ip.Length >= Pow2((q - 2) / 2)
    modifies ip
    ensures t <= q && m == Pow2(t) && l == Pow2(q - t) && Table(ip[..], t, l)
    ensures q - t == t + 2 || q - t == t + 3
  {
    hide Rev, Pow2;
    ip[0] := 0;
    l, m, t := n, 1, 0;
    EightTimes(0, q);
    FirstTable(ip[..], l);
    while m * 8 < l
      invariant 2 * t + 2 <= q && m == Pow2(t) && l == Pow2(q - t) && Table(ip[..], t, l)
      invariant m * 8 < l <==> 2 * t + 3 < q
      decreases q - t
    {
      TableRoom(t, q, ip.Length);
      DoubleTable(ip, m, l, t, q);
      l := l / 2;
      m := m * 2;
      t := t + 1;
      EightTimes(t, q);
    }
  }

  lemma FirstTable(ip: seq<nat>, l: nat)
    requires |ip| > 0 && ip[0] == 0
    ensures Table(ip, 0, l) && Pow2(0) == 1
  {
  }

  lemma EightTimes(t: nat, q: nat)
    requires t <= q
    ensures Pow2(t) * 8 < Pow2(q - t) <==> t + 3 < q - t
  {
    assert Pow2(t + 3) == 2 * Pow2(t + 2) == 4 * Pow2(t + 1) == 8 * Pow2(t);
    if t + 3 < q - t { Pow2Order(t + 3, q - t); } else { Pow2Order(q - t, t + 3); }
  }

  lemma TableRoom(t: nat, q: nat, length: nat)
    requires 2 * t + 3 < q && length >= Pow2((q - 2) / 2)
    ensures 2 * Pow2(t) <= length && Pow2(t + 1) == 2 * Pow2(t)
    ensures Pow2(q - t) == 2 * Pow2(q - t - 1)
  {
    Pow2Order(t + 1, (q - 2) / 2);
  }

  /** One round: the entries behind the first `m` repeat them, raised by the halved `l`. */
  method DoubleTable(ip: array<nat>, m: nat, l: nat, ghost t: nat, ghost q: nat)
    requires m == Pow2(t) && t < q && l == Pow2(q - t) && l == 2 * Pow2(q - t - 1) && Table(ip[..], t, l)
    requires Pow2(t + 1) == 2 * m <= ip.Length
    modifies ip
    ensures Table(ip[..], t + 1, l / 2)
  {
    hide Rev, Pow2, Table;
    TableSize(ip[..], t, l);
    var half := l / 2;
    ghost var was := ip[..];
    for j := 0 to m
      invariant forall i :: 0 <= i < m ==> ip[i] == was[i]
      invariant forall i :: 0 <= i < j ==> ip[m + i] == was[i] + half
    {
      ip[m + j] := ip[j] + half;
    }
    DoubledTable(t, l, half, was, ip[..]);
  }

  lemma TableSize(ip: seq<nat>, t: nat, l: nat)
    requires Table(ip, t, l)
    ensures Pow2(t) <= |ip|
  {
  }

  lemma DoubledTable(t: nat, l: nat, half: nat, was: seq<nat>, ip: seq<nat>)
    requires Table(was, t, l) && l == 2 * half && Pow2(t + 1) == 2 * Pow2(t) <= |ip|
    requires forall i :: 0 <= i < Pow2(t) ==> ip[i] == was[i]
    requires forall i :: 0 <= i < Pow2(t) ==> ip[Pow2(t) + i] == was[i] + half
    ensures Table(ip, t + 1, half)
  {
    hide Rev, Pow2;
    forall j | 0 <= j < Pow2(t + 1) ensures ip[j] == Rev(t + 1, j) * half {
      if j >= Pow2(t) { assert ip[Pow2(t) + (j - Pow2(t))] == was[j - Pow2(t)] + half; }
      TableEntry(t, j, l, half, ip[j], was);
    }
  }

  lemma TableEntry(t: nat, j: nat, l: nat, half: nat, entry: nat, was: seq<nat>)
    requires j < Pow2(t + 1) && Pow2(t + 1) == 2 * Pow2(t) && l == 2 * half && Table(was, t, l)
    requires entry == if j < Pow2(t) then was[j] else was[j - Pow2(t)] + half
    ensures entry == Rev(t + 1, j) * half
  {
    hide Pow2;
    var i := if j < Pow2(t) then j else j - Pow2(t);
    if j < Pow2(t) { RevLow(t + 1, i); } else { RevHigh(t + 1, i); }
    assert was[i] == Rev(t, i) * l;
    hide Rev;
    RaisedProduct(Rev(t, i), half, l);
  }

  lemma RaisedProduct(r: int, half: int, l: int)
    requires l == 2 * half
    ensures (2 * r) * half == r * l && (2 * r + 1) * half == r * l + half
  {
    Swap2(r, half, l);
    Product(r, half);
    Distribute(2 * r, 1, half);
  }

  // ---------- bitrv2 ----------

  /** The eight assignments that exchange two complex numbers. */
  method SwapPairs(a: array<real>, j1: nat, k1: nat, ghost n: nat, ghost u: nat, ghost v: nat)
    requires j1 == 2 * u && k1 == 2 * v && u < n && v < n && a.Length == 2 * n
    modifies a
    ensures Exchanged(old(a[..]), a[..], n, u, v)
  {
    var xr, xi, yr, yi := a[j1], a[j1 + 1], a[k1], a[k1 + 1];
    a[j1] := yr;
    a[j1 + 1] := yi;
    a[k1] := xr;
    a[k1 + 1] := xi;
  }

  /** Twice the place is what the loops compute from counters and table. */
  lemma PlaceIndex(t: nat, w: nat, x: nat, b: nat, y: nat, entry: nat, offset: nat, l: nat)
    requires InRange(t, w, x, b, y) && l == Pow2(1 + w + t)
    requires entry == Rev(t, x) * l && offset == b * (2 * Pow2(t))
    ensures 2 * Place(t, w, x, b, y) == 2 * y + entry + offset
  {
    hide Rev, Pow2;
    Pow2Step(1 + w + t);
    assert 1 + w + t - 1 == w + t;
    Swap2(Rev(t, x), Pow2(w + t), l);
    Swap2(b, Pow2(t), 2 * Pow2(t));
  }

  method Bitrv2(n: nat, ip: array<nat>, a: array<real>, ghost q: nat)
    requires q >= 2 && n == Pow2(q) && a.Length == n && ip.Length >= Pow2((q - 2) / 2)
    modifies ip, a
    ensures Reversed(old(a[..]), a[..], q - 1)
  {
    hide Rev, Pow2, Stage, Reversed;
    ghost var s0 := a[..];
    var m, l;
    ghost var t;
    m, l, t := MakeTable(n, ip, q);
    ghost var w := q - 1 - t - t;
    Pow2Step(q);
    EightExactly(t, q);
    SmallRev();
    var m2 := 2 * m;
    FirstStage(s0, t, w);
    if m * 8 == l {
      for k := 0 to m
        invariant Table(ip[..], t, l) && Stage(s0, a[..], t, 2, k, 0, 0)
      {
        for j := 0 to k
          invariant Table(ip[..], t, l) && Stage(s0, a[..], t, 2, k, j, 0)
        {
          SwapFour(a, k, j, ip[k], ip[j], m2, s0, t, l);
        }
        SwapDiagonal(a, k, ip[k], m2, s0, t, l);
      }
    } else {
      NextOuterOdd(s0, a[..], t, 0);
      for k := 1 to m
        invariant Table(ip[..], t, l) && Stage(s0, a[..], t, 1, k, 0, 0)
      {
        for j := 0 to k
          invariant Table(ip[..], t, l) && Stage(s0, a[..], t, 1, k, j, 0)
        {
          SwapTwo(a, k, j, ip[k], ip[j], m2, s0, t, l);
        }
        NextOuterOdd(s0, a[..], t, k);
      }
    }
    LastStage(s0, a[..], t, w);
    assert t + (w + t) == q - 1;
  }

  lemma EightExactly(t: nat, q: nat)
    requires q - t == t + 2 || q - t == t + 3
    ensures Pow2(t) * 8 == Pow2(q - t) <==> q - t == t + 3
  {
    assert Pow2(t + 3) == 2 * Pow2(t + 2) == 4 * Pow2(t + 1) == 8 * Pow2(t);
  }

  /** Where the two counters of a round lead: the table entries of both. */
  ghost predicate Entries(t: nat, K: nat, J: nat, l: nat, entryK: nat, entryJ: nat) {
    J <= K < Pow2(t) && entryK == Rev(t, K) * l && entryJ == Rev(t, J) * l
  }

  /** How far exchange C of a round lies behind the first one, in reals. */
  ghost predicate Offsets(t: nat, w: nat, C: nat, offsetJ: nat, offsetK: nat) {
    offsetJ == C * (2 * Pow2(t)) && offsetK == Flip(w, C) * (2 * Pow2(t))
  }

  /** The round of the schedule with four exchanges: the second index runs 0, 2, 1, 3. */
  method SwapFour(a: array<real>, k: nat, j: nat, entryK: nat, entryJ: nat, m2: nat,
                  ghost s0: seq<real>, ghost t: nat, ghost l: nat)
    requires j < k && Entries(t, k, j, l, entryK, entryJ)
    requires m2 == 2 * Pow2(t) && l == Pow2(1 + 2 + t) && a.Length == 2 * Pow2(t + (2 + t))
    requires Stage(s0, a[..], t, 2, k, j, 0)
    modifies a
    ensures Stage(s0, a[..], t, 2, k, j + 1, 0)
  {
    hide Rev, Pow2, Stage, Exchanged, Place, Entries;
    SmallRev();
    var j1, k1 := 2 * j + entryK, 2 * k + entryJ;
    SwapAt(a, j1, k1, s0, t, 2, k, j, 0, l, entryK, entryJ, 0, 0);
    j1, k1 := j1 + m2, k1 + 2 * m2;
    SwapAt(a, j1, k1, s0, t, 2, k, j, 1, l, entryK, entryJ, m2, 2 * m2);
    j1, k1 := j1 + m2, k1 - m2;
    SwapAt(a, j1, k1, s0, t, 2, k, j, 2, l, entryK, entryJ, 2 * m2, m2);
    j1, k1 := j1 + m2, k1 + 2 * m2;
    SwapAt(a, j1, k1, s0, t, 2, k, j, 3, l, entryK, entryJ, 3 * m2, 3 * m2);
    assert k < Pow2(t) by { Below(t, k, j, l, entryK, entryJ); }
    NextInner(s0, a[..], t, 2, k, j);
  }

  lemma Below(t: nat, K: nat, J: nat, l: nat, entryK: nat, entryJ: nat)
    requires Entries(t, K, J, l, entryK, entryJ)
    ensures K < Pow2(t)
  {
  }

  /** The round of the other schedule, with two exchanges. */
  method SwapTwo(a: array<real>, k: nat, j: nat, entryK: nat, entryJ: nat, m2: nat,
                 ghost s0: seq<real>, ghost t: nat, ghost l: nat)
    requires j < k && Entries(t, k, j, l, entryK, entryJ)
    requires m2 == 2 * Pow2(t) && l == Pow2(1 + 1 + t) && a.Length == 2 * Pow2(t + (1 + t))
    requires Stage(s0, a[..], t, 1, k, j, 0)
    modifies a
    ensures Stage(s0, a[..], t, 1, k, j + 1, 0)
  {
    hide Rev, Pow2, Stage, Exchanged, Place, Entries;
    SmallRev();
    var j1, k1 := 2 * j + entryK, 2 * k + entryJ;
    SwapAt(a, j1, k1, s0, t, 1, k, j, 0, l, entryK, entryJ, 0, 0);
    j1, k1 := j1 + m2, k1 + m2;
    SwapAt(a, j1, k1, s0, t, 1, k, j, 1, l, entryK, entryJ, m2, m2);
    assert k < Pow2(t) by { Below(t, k, j, l, entryK, entryJ); }
    NextInner(s0, a[..], t, 1, k, j);
  }

  /** One exchange of a round, at indices that are the two places of its number C. */
  method SwapAt(a: array<real>, j1: nat, k1: nat, ghost s0: seq<real>, ghost t: nat, ghost w: nat,
                ghost K: nat, ghost J: nat, ghost C: nat, ghost l: nat,
                ghost entryK: nat, ghost entryJ: nat, ghost offsetJ: nat, ghost offsetK: nat)
    requires J < K && Entries(t, K, J, l, entryK, entryJ)
    requires C < Pow2(w) && l == Pow2(1 + w + t) && a.Length == 2 * Pow2(t + (w + t))
    requires Offsets(t, w, C, offsetJ, offsetK)
    requires j1 == 2 * J + entryK + offsetJ && k1 == 2 * K + entryJ + offsetK
    requires Stage(s0, a[..], t, w, K, J, C)
    modifies a
    ensures Stage(s0, a[..], t, w, K, J, C + 1)
  {
    ghost var s := a[..];
    hide Rev, Pow2, Stage, Exchanged, Place, Flip, Offsets, Entries;
    RoundPlaces(t, w, K, J, C, l, entryK, entryJ, offsetJ, offsetK);
    SwapPairs(a, j1, k1, Pow2(t + (w + t)), Place(t, w, K, C, J), Place(t, w, J, Flip(w, C), K));
    assert K < Pow2(t) by { Below(t, K, J, l, entryK, entryJ); }
    ExchangeStep(s0, s, a[..], t, w, K, J, C);
  }

  lemma RoundPlaces(t: nat, w: nat, K: nat, J: nat, C: nat, l: nat,
                    entryK: nat, entryJ: nat, offsetJ: nat, offsetK: nat)
    requires Entries(t, K, J, l, entryK, entryJ) && C < Pow2(w) && l == Pow2(1 + w + t)
    requires Offsets(t, w, C, offsetJ, offsetK)
    ensures 2 * Place(t, w, K, C, J) == 2 * J + entryK + offsetJ
    ensures 2 * Place(t, w, J, Flip(w, C), K) == 2 * K + entryJ + offsetK
  {
    hide Rev, Pow2, Place, Flip;
    PlaceIndex(t, w, K, C, J, entryK, offsetJ, l);
    PlaceIndex(t, w, J, Flip(w, C), K, entryJ, offsetK, l);
  }

  /** The exchange behind the inner loop. */
  method SwapDiagonal(a: array<real>, k: nat, entryK: nat, m2: nat,
                      ghost s0: seq<real>, ghost t: nat, ghost l: nat)
    requires Entries(t, k, k, l, entryK, entryK)
    requires m2 == 2 * Pow2(t) && l == Pow2(1 + 2 + t) && a.Length == 2 * Pow2(t + (2 + t))
    requires Stage(s0, a[..], t, 2, k, k, 0)
    modifies a
    ensures Stage(s0, a[..], t, 2, k + 1, 0, 0)
  {
    hide Rev, Pow2, Stage, Exchanged, Place;
    ghost var s := a[..];
    SmallRev();
    DiagonalPlaces(t, k, entryK, m2, l);
    var j1 := 2 * k + m2 + entryK;
    var k1 := j1 + m2;
    SwapPairs(a, j1, k1, Pow2(t + (2 + t)), Place(t, 2, k, 1, k), Place(t, 2, k, 2, k));
    NextOuterEven(s0, s, a[..], t, k);
  }

  lemma DiagonalPlaces(t: nat, k: nat, entryK: nat, m2: nat, l: nat)
    requires Entries(t, k, k, l, entryK, entryK)
    requires m2 == 2 * Pow2(t) && l == Pow2(1 + 2 + t) && Pow2(2) == 4
    ensures 2 * Place(t, 2, k, 1, k) == 2 * k + m2 + entryK
    ensures 2 * Place(t, 2, k, 2, k) == 2 * k + m2 + entryK + m2
  {
    hide Rev, Pow2, Place;
    PlaceIndex(t, 2, k, 1, k, entryK, m2, l);
    PlaceIndex(t, 2, k, 2, k, entryK, 2 * m2, l);
  }
}
