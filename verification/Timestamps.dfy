/** Log timestamps: the order of time in which the server sorts them, and the order of their texts in
    which the client compares them. */
module Timestamps {
  import opened Ordering

  /** A time in UTC: the date and time to the second in fixed width, and the digits of the fraction. */
  datatype Timestamp = Timestamp(second: string, fraction: string)

  const WIDTH := 19
  const PLACES := 9

  predicate Digits(s: string) {
    forall i :: 0 <= i < |s| ==> '0' <= s[i] <= '9'
  }

  /** Fractions have at most nine digits and are written without zeros at the end. */
  predicate Fraction(s: string, places: nat) {
    |s| <= places && Digits(s) && (s == "" || s[|s| - 1] != '0')
  }

  type Stamp = t: Timestamp | |t.second| == WIDTH && Fraction(t.fraction, PLACES) witness Timestamp("0001-01-01T00:00:00", "")

  function FractionText(fraction: string): string {
    (if fraction == "" then "" else "." + fraction) + "Z"
  }

  /** The text the server writes. */
  function Text(t: Stamp): string {
    t.second + FractionText(t.fraction)
  }

  function Pow10(n: nat): (r: nat)
    ensures r >= 1
  {
    if n == 0 then 1 else 10 * Pow10(n - 1)
  }

  function DigitValue(c: char): int {
    c as int - '0' as int
  }

  /** The value of a fraction in units of its last place. */
  function Scaled(fraction: string, places: nat): int
    requires Digits(fraction)
  {
    if places == 0 || fraction == "" then 0
    else DigitValue(fraction[0]) * Pow10(places - 1) + Scaled(fraction[1..], places - 1)
  }

  predicate Earlier(a: Stamp, b: Stamp) {
    StringLess(a.second, b.second) || (a.second == b.second && Scaled(a.fraction, PLACES) < Scaled(b.fraction, PLACES))
  }

  predicate TextLess(a: Stamp, b: Stamp) {
    StringLess(Text(a), Text(b))
  }

  /** The two lie in the same second, and the digits of the first begin those of the second. */
  predicate Hides(a: Stamp, b: Stamp) {
    a.second == b.second && a.fraction <= b.fraction
  }

  // ---------- Fractions ----------

  lemma OneMore(d: nat, unit: nat)
    ensures (d + 1) * unit == d * unit + unit
  {
  }

  lemma {:induction false} Product(d: nat, e: nat, unit: nat)
    requires d < e
    ensures 0 <= d * unit && d * unit + unit <= e * unit
  {
    OneMore(e - 1, unit);
    if d < e - 1 {
      Product(d, e - 1, unit);
    } else if d > 0 {
      Product(d - 1, d, unit);
    }
  }

  lemma {:induction false} ScaledBound(fraction: string, places: nat)
    requires Fraction(fraction, places)
    ensures 0 <= Scaled(fraction, places) < Pow10(places)
    ensures fraction != "" ==> Scaled(fraction, places) > 0
  {
    if fraction != "" {
      ScaledBound(fraction[1..], places - 1);
      var d := DigitValue(fraction[0]);
      Product(d, 10, Pow10(places - 1));
      if d > 0 {
        Product(0, d, Pow10(places - 1));
      }
    }
  }

  /** Without zeros at the end, fractions compare as their digits do. */
  lemma {:induction false} FractionOrder(f: string, g: string, places: nat)
    requires Fraction(f, places) && Fraction(g, places)
    ensures Scaled(f, places) < Scaled(g, places) <==> StringLess(f, g)
  {
    ScaledBound(f, places);
    ScaledBound(g, places);
    if f != "" && g != "" {
      var d, e := DigitValue(f[0]), DigitValue(g[0]);
      ScaledBound(f[1..], places - 1);
      ScaledBound(g[1..], places - 1);
      if d < e {
        Product(d, e, Pow10(places - 1));
      } else if e < d {
        Product(e, d, Pow10(places - 1));
      } else {
        FractionOrder(f[1..], g[1..], places - 1);
      }
    }
  }

  // ---------- Texts ----------

  lemma {:induction false} ClosedOrder(f: string, g: string)
    requires Digits(f) && Digits(g) && StringLess(f, g)
    ensures StringLess(f + "Z", g + "Z") <==> !(f <= g)
  {
    if f == "" {
      assert (f + "Z")[0] == 'Z' && (g + "Z")[0] == g[0];
    } else {
      assert (f + "Z")[1..] == f[1..] + "Z" && (g + "Z")[1..] == g[1..] + "Z";
      if f[0] == g[0] {
        ClosedOrder(f[1..], g[1..]);
        assert f == [f[0]] + f[1..] && g == [g[0]] + g[1..];
      }
    }
  }

  lemma FractionTextOrder(f: string, g: string)
    requires Digits(f) && Digits(g) && StringLess(f, g)
    ensures StringLess(FractionText(f), FractionText(g)) <==> !(f <= g)
  {
    if f != "" {
      ClosedOrder(f, g);
      StringLessAfter(".", f + "Z", g + "Z");
      assert "." + f + "Z" == "." + (f + "Z") && "." + g + "Z" == "." + (g + "Z");
    }
  }

  /** Of two times in order, the texts compare the same way exactly when they do not lie in one second
      with the digits of the first beginning those of the second: 'Z' comes after the digits, and the
      point before them. */
  lemma TextOrderExactly(a: Stamp, b: Stamp)
    requires !Earlier(b, a)
    ensures TextLess(a, b) <==> !Hides(a, b)
  {
    if a.second == b.second {
      StringLessAfter(a.second, FractionText(a.fraction), FractionText(b.fraction));
      FractionOrder(b.fraction, a.fraction, PLACES);
      if a.fraction == b.fraction {
        StringLessIrreflexive(Text(a));
      } else {
        StringLessTotal(a.fraction, b.fraction);
        FractionTextOrder(a.fraction, b.fraction);
      }
    } else {
      StringLessTotal(a.second, b.second);
      StringLessBefore(a.second, b.second, FractionText(a.fraction), FractionText(b.fraction));
    }
  }

  lemma TextInjective(a: Stamp, b: Stamp)
    requires Text(a) == Text(b)
    ensures a == b
  {
    assert Text(a)[..WIDTH] == a.second && Text(b)[..WIDTH] == b.second;
    var x, y := Text(a)[WIDTH..], Text(b)[WIDTH..];
    assert x == FractionText(a.fraction) && y == FractionText(b.fraction);
    assert a.fraction != "" ==> x[1..|x| - 1] == a.fraction;
    assert b.fraction != "" ==> y[1..|y| - 1] == b.fraction;
  }

  lemma EarlierTotal(a: Stamp, b: Stamp)
    requires a != b
    ensures Earlier(a, b) || Earlier(b, a)
  {
    if a.second != b.second {
      StringLessTotal(a.second, b.second);
    } else {
      StringLessTotal(a.fraction, b.fraction);
      FractionOrder(a.fraction, b.fraction, PLACES);
      FractionOrder(b.fraction, a.fraction, PLACES);
    }
  }

  lemma StampsOrdered()
    ensures StrictOrder(Earlier) && StrictOrder(TextLess)
  {
    StringsOrdered();
    hide StringLess, Scaled;
    forall a: Stamp, b: Stamp | a != b
      ensures Earlier(a, b) || Earlier(b, a)
      ensures TextLess(a, b) || TextLess(b, a)
    {
      EarlierTotal(a, b);
      if Text(a) == Text(b) {
        TextInjective(a, b);
      }
    }
  }

  /** Within one second only the fractions matter. */
  lemma SameSecond(a: Stamp, b: Stamp)
    requires a.second == b.second && StringLess(a.fraction, b.fraction)
    ensures Earlier(a, b) && (TextLess(a, b) <==> !(a.fraction <= b.fraction))
  {
    FractionOrder(a.fraction, b.fraction, PLACES);
    StringLessIrreflexive(a.second);
    assert !Earlier(b, a);
    TextOrderExactly(a, b);
  }
}
