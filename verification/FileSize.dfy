/** Sizes for people: `FileSize.String` of pkg/apis/kubepkg/v1alpha1/status.go. */
module FileSize {

  newtype int64 = x: int | -0x8000_0000_0000_0000 <= x < 0x8000_0000_0000_0000

  const UNIT: int64 := 1024
  const PREFIXES := "KMGTPE"

  /** What is printed: plain bytes, or a quotient and the prefix of its unit. */
  datatype Size = Plain(bytes: int64) | Scaled(bytes: int64, unit: int64, prefix: char)

  function Power(n: nat): (p: nat)
    ensures p >= 1
  {
    if n == 0 then 1 else 1024 * Power(n - 1)
  }

  lemma {:induction false} PowerGrows(m: nat, n: nat)
    requires m <= n
    ensures Power(m) <= Power(n) && (m < n ==> 1024 * Power(m) <= Power(n))
  {
    if m < n { PowerGrows(m, n - 1); }
  }

  /** The size of 1024 bytes or more is between one and 1024 of the unit of its prefix. */
  ghost predicate Fits(size: Size, exp: nat) {
    size.Scaled? && exp < |PREFIXES| && size.prefix == PREFIXES[exp] &&
    size.unit as int == Power(exp + 1) && Power(exp + 1) <= size.bytes as int < Power(exp + 2)
  }

  lemma PowersOfUnits()
    ensures Power(1) == 0x400 && Power(2) == 0x10_0000 && Power(3) == 0x4000_0000
    ensures Power(4) == 0x100_0000_0000 && Power(5) == 0x4_0000_0000_0000 && Power(6) == 0x1000_0000_0000_0000
    ensures Power(7) == 0x40_0000_0000_0000_0000
  {
    assert Power(2) == 1024 * Power(1) && Power(4) == 1024 * Power(3) && Power(6) == 1024 * Power(5);
  }

  /** `n` is the quotient of `b` by `d`. */
  predicate Quotient(b: int, d: int, n: int) { d * n <= b < d * (n + 1) }

  lemma Monotone(d: nat, m: int, n: int)
    requires m <= n
    ensures d * m <= d * n
  {
  }

  lemma Regroup(d: nat, q: int)
    ensures d * (1024 * q) == 1024 * d * q
  {
  }

  /** Dividing the quotient again is dividing by the product. */
  lemma DivideAgain(b: nat, d: nat, n: nat)
    requires Quotient(b, d, n)
    ensures Quotient(b, 1024 * d, n / 1024)
    ensures n >= 1024 ==> 1024 * d <= b
  {
    var q := n / 1024;
    Monotone(d, 1024 * q, n);
    Monotone(d, n + 1, 1024 * (q + 1));
    Regroup(d, q);
    Regroup(d, q + 1);
    if n >= 1024 { Monotone(d, 1024, n); }
  }

  /** No step overflows, and the prefix always exists. */
  method SizeOf(b: int64) returns (size: Size, ghost exp: nat)
    ensures size.bytes == b
    ensures size.Plain? <==> b < UNIT
    ensures b >= UNIT ==> Fits(size, exp)
  {
    exp := 0;
    if b < UNIT { return Plain(b), 0; }
    var div, e, n := UNIT, 0, b / UNIT;
    PowersOfUnits();
    while n >= UNIT
      invariant e <= 5 && div as int == Power(e + 1)
      invariant n >= 1 && Quotient(b as int, Power(e + 1), n as int)
      decreases n
    {
      DivideAgain(b as int, Power(e + 1), n as int);
      PowerFits(b, e);
      div := div * UNIT;
      e := e + 1;
      n := n / UNIT;
    }
    Monotone(Power(e + 1), 1, n as int);
    Monotone(Power(e + 1), n as int + 1, 1024);
    size, exp := Scaled(b, div, PREFIXES[e]), e;
  }

  lemma PowerFits(b: int64, e: nat)
    requires e <= 5 && b >= 0 && Power(e + 2) <= b as int
    ensures e <= 4
  {
    PowersOfUnits();
  }

  /** The unit is the only one that fits, so the text is a function of the size. */
  lemma OneUnitFits(a: Size, i: nat, b: Size, j: nat)
    requires Fits(a, i) && Fits(b, j) && a.bytes == b.bytes
    ensures a == b && i == j
  {
    if i < j { PowerGrows(i + 2, j + 1); }
    if j < i { PowerGrows(j + 2, i + 1); }
  }

  /** The prefixes, and the units they stand for. */
  lemma PrefixMeaning(size: Size, exp: nat)
    requires Fits(size, exp)
    ensures (size.prefix == 'K' <==> size.unit == 0x400) && (size.prefix == 'M' <==> size.unit == 0x10_0000)
    ensures (size.prefix == 'G' <==> size.unit == 0x4000_0000) && (size.prefix == 'T' <==> size.unit == 0x100_0000_0000)
    ensures (size.prefix == 'P' <==> size.unit == 0x4_0000_0000_0000) && (size.prefix == 'E' <==> size.unit == 0x1000_0000_0000_0000)
  {
    PowersOfUnits();
    assert exp == 0 || exp == 1 || exp == 2 || exp == 3 || exp == 4 || exp == 5;
  }
}
