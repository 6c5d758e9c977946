/** Choosing the unit of a byte count, with 64-bit integers. */
module ByteSize {

  newtype int64 = x: int | -0x8000_0000_0000_0000 <= x < 0x8000_0000_0000_0000

  const UNIT: int64 := 1024
  const UNITS := "KMGTPE"

  /** Either a plain count, or a mantissa bytes / div to print with the unit letter. */
  datatype Size = Plain(bytes: int64) | Scaled(bytes: int64, div: int64, letter: char)

  function Pow1024(e: nat): nat {
    if e == 0 then 1 else 1024 * Pow1024(e - 1)
  }

  lemma {:induction false} PowMonotone(d: nat, e: nat)
    requires d <= e
    ensures 1 <= Pow1024(d) <= Pow1024(e)
    decreases e
  {
    if d < e {
      PowMonotone(d, e - 1);
    } else if e > 0 {
      PowMonotone(d - 1, e - 1);
    }
  }

  lemma ExponentBound(e: nat)
    requires Pow1024(e) < 0x8000_0000_0000_0000
    ensures e <= 6
  {
    assert Pow1024(3) == 0x4000_0000 && Pow1024(5) == 1024 * 1024 * Pow1024(3) && Pow1024(7) == 1024 * 1024 * Pow1024(5);
    if e >= 7 {
      PowMonotone(7, e);
    }
  }

  lemma ScaleMonotone(a: nat, b: nat, scale: nat)
    requires a <= b
    ensures a * scale <= b * scale
  {
  }

  /** n is bytes divided by div, rounded down. */
  ghost predicate Quotient(bytes: nat, div: nat, n: nat) {
    n * div <= bytes < (n + 1) * div
  }

  /** Dividing once more by 1024 divides by the larger divisor, which still fits below bytes. */
  lemma DivideOnce(bytes: nat, div: nat, n: nat)
    requires Quotient(bytes, div, n) && n >= 1024
    ensures Quotient(bytes, 1024 * div, n / 1024) && 1024 * div <= bytes
  {
    var q := n / 1024;
    ScaleMonotone(1024 * q, n, div);
    ScaleMonotone(n + 1, 1024 * (q + 1), div);
    ScaleMonotone(1024, n, div);
    assert 1024 * q * div == q * (1024 * div) && 1024 * (q + 1) * div == (q + 1) * (1024 * div);
  }

  ghost predicate FitsUnit(bytes: int64, r: Size, e: nat) {
    && e < |UNITS| && r.Scaled? && r.bytes == bytes && r.letter == UNITS[e]
    && r.div as int == Pow1024(e + 1) <= bytes as int < Pow1024(e + 2)
  }

  /** The mantissa lies in [1, 1024) for the printed unit, and no intermediate value leaves the
      64-bit range. */
  method FormatBytes(bytes: int64) returns (r: Size)
    ensures bytes < UNIT ==> r == Plain(bytes)
    ensures bytes >= UNIT ==> exists e :: FitsUnit(bytes, r, e)
  {
    if bytes < UNIT {
      return Plain(bytes);
    }
    var div, exp := UNIT, 0;
    var n := bytes / UNIT;
    assert div as int == Pow1024(1);
    while n >= UNIT
      invariant 0 <= exp <= 5
      invariant div as int == Pow1024(exp + 1)
      invariant n >= 1 && Quotient(bytes as int, div as int, n as int)
      decreases n
    {
      DivideOnce(bytes as int, div as int, n as int);
      ExponentBound(exp + 2);
      div := div * UNIT;
      exp := exp + 1;
      n := n / UNIT;
    }
    ScaleMonotone(1, n as int, div as int);
    ScaleMonotone(n as int + 1, 1024, div as int);
    r := Scaled(bytes, div, UNITS[exp]);
    assert FitsUnit(bytes, r, exp);
  }

  /** The unit is the only one whose mantissa lies in that range. */
  lemma UnitUnique(bytes: nat, d: nat, e: nat)
    requires Pow1024(d + 1) <= bytes < Pow1024(d + 2)
    requires Pow1024(e + 1) <= bytes < Pow1024(e + 2)
    ensures d == e
  {
    if d < e {
      PowMonotone(d + 2, e + 1);
    }
    if e < d {
      PowMonotone(e + 2, d + 1);
    }
  }
}
