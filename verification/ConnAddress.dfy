/** What `is_ipv4_addr` of `gbcom_common/utils.c` takes for an address, as `conn_ctrl.cc` uses it. */
module ConnAddress {
  import opened ConnSteps

  const DIGITS := "0123456789"

  /** The decimal numeral of n. */
  function Decimal(n: nat): (t: string)
    ensures t != ""
  {
    if n < 10 then [DIGITS[n]] else Decimal(n / 10) + [DIGITS[n % 10]]
  }

  lemma DigitAt(d: nat)
    requires d < 10
    ensures DIGITS[d] as int == '0' as int + d && '0' <= DIGITS[d] <= '9'
    ensures DIGITS[d] == '0' <==> d == 0
  {
  }

  lemma {:induction false} DecimalIs(n: nat)
    ensures Digits(Decimal(n)) && ValueOf(Decimal(n)) == n && (Decimal(n)[0] == '0' <==> n == 0)
  {
    var t := Decimal(n);
    if n < 10 {
      DigitAt(n);
      assert t[..0] == "";
    } else {
      DigitAt(n % 10);
      DecimalIs(n / 10);
      assert t[..|t| - 1] == Decimal(n / 10);
    }
  }

  lemma DotIsNoDigit(s: string)
    requires Digits(s)
    ensures '.' !in s
  {
  }

  lemma FindDot(t: string, rest: string)
    requires '.' !in t
    ensures Find(t + ("." + rest), '.') == |t|
  {
    var s := t + ("." + rest);
    var k := Find(s, '.');
    assert forall i :: 0 <= i < |t| ==> s[i] == t[i] && t[i] in t;
    assert s[|t|] == '.';
  }

  lemma FindNoDot(t: string)
    requires '.' !in t
    ensures Find(t, '.') == |t|
  {
    var k := Find(t, '.');
  }

  /** A part, a dot and the others. */
  lemma PartsDotted(t: string, rest: string)
    requires '.' !in t
    ensures Parts(t + ("." + rest)) == [t] + Parts(rest)
  {
    hide Find;
    FindDot(t, rest);
    var s := t + ("." + rest);
    assert s[..|t|] == t && s[|t| + 1..] == rest;
  }

  lemma PartsPlain(t: string)
    requires '.' !in t
    ensures Parts(t) == [t]
  {
    hide Find;
    FindNoDot(t);
  }

  function Dotted(a: string, b: string, c: string, d: string): string {
    a + ("." + (b + ("." + (c + ("." + d)))))
  }

  /** Four parts without dots are an address exactly when each is a numeral of at most 255, and the first
      does not begin with a zero. */
  lemma DottedExactly(a: string, b: string, c: string, d: string)
    requires '.' !in a && '.' !in b && '.' !in c && '.' !in d
    ensures IsIpv4(Dotted(a, b, c, d)) <==> Section(a) && Section(b) && Section(c) && Section(d) && a[0] != '0'
  {
    hide Parts, Section;
    PartsDotted(a, b + ("." + (c + ("." + d))));
    PartsDotted(b, c + ("." + d));
    PartsDotted(c, d);
    PartsPlain(d);
    var s := Dotted(a, b, c, d);
    var ps := Parts(s);
    assert ps == [a, b, c, d];
    assert ps[0] == a && ps[1] == b && ps[2] == c && ps[3] == d;
    NoSection();
    assert a != "" ==> s[0] == a[0];
  }

  lemma NoSection()
    ensures !Section("")
  {
  }

  /** Four numbers, written out and dotted, are an address exactly when none is above 255 and the first is
      not zero. */
  lemma NumbersExactly(a: nat, b: nat, c: nat, d: nat)
    ensures IsIpv4(Dotted(Decimal(a), Decimal(b), Decimal(c), Decimal(d)))
      <==> 1 <= a <= 255 && b <= 255 && c <= 255 && d <= 255
  {
    hide Dotted, Decimal, IsIpv4;
    DecimalSection(a);
    DecimalSection(b);
    DecimalSection(c);
    DecimalSection(d);
    DottedExactly(Decimal(a), Decimal(b), Decimal(c), Decimal(d));
  }

  lemma DecimalSection(n: nat)
    ensures Section(Decimal(n)) <==> n <= 255
    ensures '.' !in Decimal(n) && (Decimal(n)[0] == '0' <==> n == 0)
  {
    DecimalIs(n);
    DotIsNoDigit(Decimal(n));
  }

  /** Other texts are not: an address is four parts between three dots. */
  lemma FourParts(s: string)
    requires IsIpv4(s)
    ensures exists a, b, c, d :: s == Dotted(a, b, c, d) && '.' !in a && '.' !in b && '.' !in c && '.' !in d
  {
    var a, r := Cut(s);
    var b, r' := Cut(r);
    var c, d := Cut(r');
    LastPart(d);
    assert s == Dotted(a, b, c, d);
  }

  /** The first part, when there are more. */
  lemma Cut(s: string) returns (t: string, rest: string)
    requires |Parts(s)| > 1
    ensures s == t + ("." + rest) && '.' !in t && |Parts(rest)| == |Parts(s)| - 1
  {
    var k := Find(s, '.');
    t, rest := s[..k], s[k + 1..];
  }

  lemma LastPart(s: string)
    requires |Parts(s)| == 1
    ensures '.' !in s
  {
    var k := Find(s, '.');
  }
}
