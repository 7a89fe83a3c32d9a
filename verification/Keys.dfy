/**
 * Article numbers as dict keys. The program keys its dicts by `str(nmId)` and breaks ties by comparing
 * those strings, so that "10" sorts before "9"; a positive number stands here for its decimal string. Decimal
 * strings are also read back, as ids and as versions.
 */
module Keys {
  type NmId = n: int | 0 < n witness 1

  function Decimal(n: nat): string {
    if n < 10 then [Digit(n)] else Decimal(n / 10) + [Digit(n % 10)]
  }

  function Digit(d: nat): char
    requires d < 10
  {
    '0' + d as char
  }

  /** `str` comparison: code point by code point, a proper prefix first. */
  predicate TextLess(a: string, b: string) {
    b != [] && (a == [] || a[0] < b[0] || (a[0] == b[0] && TextLess(a[1..], b[1..])))
  }

  predicate KeyLess(a: NmId, b: NmId) {
    TextLess(Decimal(a), Decimal(b))
  }

  lemma {:induction false} DecimalInjective(a: nat, b: nat)
    requires Decimal(a) == Decimal(b)
    ensures a == b
  {
    var s, t := Decimal(a), Decimal(b);
    assert |Decimal(a)| == 1 <==> a < 10 by { DecimalLength(a); }
    assert |Decimal(b)| == 1 <==> b < 10 by { DecimalLength(b); }
    if 10 <= a {
      assert s[..|s| - 1] == Decimal(a / 10) && t[..|t| - 1] == Decimal(b / 10);
      DecimalInjective(a / 10, b / 10);
      assert s[|s| - 1] == t[|t| - 1];
    } else {
      assert s[0] == t[0];
    }
  }

  lemma {:induction false} DecimalLength(n: nat)
    ensures |Decimal(n)| >= 1
    ensures |Decimal(n)| == 1 <==> n < 10
  {
    if 10 <= n {
      DecimalLength(n / 10);
    }
  }

  predicate AllDigits(text: string) {
    forall i :: 0 <= i < |text| ==> '0' <= text[i] <= '9'
  }

  function Number(text: string): nat
    requires AllDigits(text)
  {
    if text == [] then 0 else
      10 * Number(text[..|text| - 1]) + (text[|text| - 1] - '0') as nat
  }

  lemma {:induction false} NumberOfDecimal(n: nat)
    ensures AllDigits(Decimal(n))
    ensures Number(Decimal(n)) == n
    ensures n > 0 ==> Decimal(n) != [] && Decimal(n)[0] != '0'
  {
    if 10 <= n {
      NumberOfDecimal(n / 10);
      var front := Decimal(n / 10);
      assert Decimal(n) == front + [Digit(n % 10)];
      assert Decimal(n)[..|front|] == front;
    } else {
      assert Decimal(n)[..0] == [];
      assert Number([]) == 0;
    }
  }

  lemma {:induction false} DecimalOfNumber(text: string)
    requires AllDigits(text)
    requires text != [] && (text[0] != '0' || |text| == 1)
    ensures Decimal(Number(text)) == text
    ensures text[0] != '0' ==> Number(text) > 0
  {
    var front, last := text[..|text| - 1], text[|text| - 1];
    if front == [] {
      assert Number(front) == 0;
    } else {
      DecimalOfNumber(front);
      DecimalAppend(Number(front), (last - '0') as nat);
      assert text == front + [last];
    }
  }

  lemma DecimalAppend(m: nat, d: nat)
    requires m > 0 && d < 10
    ensures Decimal(10 * m + d) == Decimal(m) + [Digit(d)]
  {
    assert (10 * m + d) / 10 == m && (10 * m + d) % 10 == d;
  }

  function Power(e: nat): nat {
    if e == 0 then 1 else 10 * Power(e - 1)
  }

  lemma {:induction false} DecimalBelow(n: nat, digits: nat)
    requires n < Power(digits) && digits > 0
    ensures |Decimal(n)| <= digits
  {
    assert Power(1) == 10 * Power(0);
    if 10 <= n {
      DecimalBelow(n / 10, digits - 1);
    }
  }

  lemma NineteenDigits()
    ensures Power(10) == 1_0000000000 && 0x7FFF_FFFF_FFFF_FFFF < Power(19)
  {
    assert Power(5) == 100000 by {
      assert Power(2) == 100;
    }
    assert Power(10) == 10000000000 by {
      assert Power(7) == 10000000;
    }
    assert Power(15) == 1000000000000000 by {
      assert Power(12) == 1000000000000;
    }
    assert Power(17) == 100000000000000000;
  }

  lemma {:induction false} TextIrreflexive(a: string)
    ensures !TextLess(a, a)
  {
    if a != [] { TextIrreflexive(a[1..]); }
  }

  lemma {:induction false} TextTotal(a: string, b: string)
    ensures a == b || TextLess(a, b) || TextLess(b, a)
  {
    if a != [] && b != [] && a[0] == b[0] {
      TextTotal(a[1..], b[1..]);
      if a[1..] == b[1..] {
        assert a == [a[0]] + a[1..] && b == [b[0]] + b[1..];
      }
    }
  }

  lemma {:induction false} TextTransitive(a: string, b: string, c: string)
    requires TextLess(a, b) && TextLess(b, c)
    ensures TextLess(a, c)
  {
    if a != [] && a[0] == b[0] == c[0] {
      TextTransitive(a[1..], b[1..], c[1..]);
    }
  }

  /** The string order on article numbers is a strict total order. */
  lemma KeyOrder()
    ensures forall a: NmId :: !KeyLess(a, a)
    ensures forall a: NmId, b: NmId :: a != b ==> KeyLess(a, b) || KeyLess(b, a)
    ensures forall a: NmId, b: NmId, c: NmId :: KeyLess(a, b) && KeyLess(b, c) ==> KeyLess(a, c)
  {
    forall a: NmId ensures !KeyLess(a, a) { TextIrreflexive(Decimal(a)); }
    forall a: NmId, b: NmId | a != b ensures KeyLess(a, b) || KeyLess(b, a) {
      TextTotal(Decimal(a), Decimal(b));
      if Decimal(a) == Decimal(b) { DecimalInjective(a, b); }
    }
    forall a: NmId, b: NmId, c: NmId | KeyLess(a, b) && KeyLess(b, c) ensures KeyLess(a, c) {
      TextTransitive(Decimal(a), Decimal(b), Decimal(c));
    }
  }
}
