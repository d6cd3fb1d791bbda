/** Text of hex digits and the numbers it stands for, and what reading, writing and padding do to each other. */
module HexNumbers {
  type Nibble = n: nat | n < 16
  type Hex = seq<Nibble>

  function Pow16(k: nat): (p: nat)
    ensures p >= 1
  {
    if k == 0 then 1 else 16 * Pow16(k - 1)
  }

  /** The number some digits stand for; no digits stand for none. */
  function ToNat(h: Hex): nat {
    if h == [] then 0 else ToNat(h[..|h| - 1]) * 16 + h[|h| - 1]
  }

  /** The digits of a number, without leading zeros; nought is one digit. */
  function Digits(n: nat): (h: Hex)
    ensures |h| >= 1
  {
    if n < 16 then [n] else Digits(n / 16) + [n % 16]
  }

  function Zeros(k: nat): (z: Hex)
    ensures |z| == k
  {
    if k == 0 then [] else [0] + Zeros(k - 1)
  }

  /** Zeros in front, up to a width. */
  function PadStart(h: Hex, width: nat): Hex {
    if |h| >= width then h else Zeros(width - |h|) + h
  }

  lemma {:induction false} ToNatOfDigits(n: nat)
    ensures ToNat(Digits(n)) == n
  {
    if n < 16 {
      assert ToNat([n][..0]) == 0;
    } else {
      var h := Digits(n);
      ToNatOfDigits(n / 16);
      assert h[..|h| - 1] == Digits(n / 16);
    }
  }

  lemma {:induction false} ToNatBound(h: Hex)
    ensures ToNat(h) < Pow16(|h|)
  {
    if h != [] {
      ToNatBound(h[..|h| - 1]);
    }
  }

  lemma {:induction false} DigitsFit(n: nat, width: nat)
    requires width >= 1
    ensures |Digits(n)| <= width <==> n < Pow16(width)
  {
    if width == 1 {
      assert Pow16(1) == 16 * Pow16(0) == 16;
    } else if n >= 16 {
      DigitsFit(n / 16, width - 1);
    } else {
      assert Pow16(width) == 16 * Pow16(width - 1);
    }
  }

  /** The number has a text of at most this many digits: it is below 16 to the width. */
  predicate Fits(n: nat, width: nat) {
    |Digits(n)| <= width
  }

  lemma FitsIs(n: nat, width: nat)
    requires width >= 1
    ensures Fits(n, width) <==> n < Pow16(width)
  {
    DigitsFit(n, width);
  }

  lemma SmallerFits(m: nat, n: nat, width: nat)
    requires m <= n && Fits(n, width)
    ensures Fits(m, width)
  {
    DigitsFit(m, width);
    DigitsFit(n, width);
  }

  lemma {:induction false} ToNatOfLeadingZero(h: Hex)
    ensures ToNat([0] + h) == ToNat(h)
  {
    var z: Hex := [0] + h;
    if h == [] {
      assert z[..0] == [];
    } else {
      assert z[..|z| - 1] == [0] + h[..|h| - 1];
      ToNatOfLeadingZero(h[..|h| - 1]);
    }
  }

  lemma {:induction false} ToNatOfZeros(k: nat, h: Hex)
    ensures ToNat(Zeros(k) + h) == ToNat(h)
  {
    if k == 0 {
      assert Zeros(0) + h == h;
    } else {
      ToNatOfZeros(k - 1, h);
      ToNatOfLeadingZero(Zeros(k - 1) + h);
      assert Zeros(k) + h == [0] + (Zeros(k - 1) + h);
    }
  }

  lemma ToNatOfPadded(n: nat, width: nat)
    requires Fits(n, width)
    ensures |PadStart(Digits(n), width)| == width && ToNat(PadStart(Digits(n), width)) == n
  {
    ToNatOfDigits(n);
    ToNatOfZeros(width - |Digits(n)|, Digits(n));
  }

  lemma {:induction false} ToNatInjective(a: Hex, b: Hex)
    requires |a| == |b| && ToNat(a) == ToNat(b)
    ensures a == b
  {
    if a != [] {
      ToNatInjective(a[..|a| - 1], b[..|b| - 1]);
      assert a == a[..|a| - 1] + [a[|a| - 1]] && b == b[..|b| - 1] + [b[|b| - 1]];
    }
  }

  /** Reading digits as a number and writing them back at their width changes nothing. */
  lemma PadRestores(h: Hex)
    requires h != []
    ensures PadStart(Digits(ToNat(h)), |h|) == h
  {
    ToNatBound(h);
    FitsIs(ToNat(h), |h|);
    ToNatOfPadded(ToNat(h), |h|);
    ToNatInjective(PadStart(Digits(ToNat(h)), |h|), h);
  }

  lemma {:induction false} ToNatOfJoin(a: Hex, b: Hex)
    ensures ToNat(a + b) == ToNat(a) * Pow16(|b|) + ToNat(b)
  {
    if b == [] {
      assert a + b == a;
    } else {
      var c := b[..|b| - 1];
      assert (a + b)[..|a + b| - 1] == a + c;
      ToNatOfJoin(a, c);
    }
  }

  /** All but the last `k` digits, as a number. */
  function High(n: nat, k: nat): nat {
    var h := Digits(n);
    if |h| <= k then 0 else ToNat(h[..|h| - k])
  }

  /** The last `k` digits, as a number. */
  function Low(n: nat, k: nat): nat {
    var h := Digits(n);
    if |h| <= k then n else ToNat(h[|h| - k..])
  }

  lemma HighLowAre(n: nat, k: nat)
    ensures High(n, k) == n / Pow16(k) && Low(n, k) == n % Pow16(k)
  {
    var h := Digits(n);
    ToNatOfDigits(n);
    if |h| <= k {
      FitsIs(n, k);
      DivMod(0, Pow16(k), n);
    } else {
      assert h == h[..|h| - k] + h[|h| - k..];
      DivModOfJoin(h[..|h| - k], h[|h| - k..]);
    }
  }

  lemma DivModOfJoin(a: Hex, b: Hex)
    ensures ToNat(a + b) / Pow16(|b|) == ToNat(a) && ToNat(a + b) % Pow16(|b|) == ToNat(b)
  {
    ToNatOfJoin(a, b);
    ToNatBound(b);
    DivMod(ToNat(a), Pow16(|b|), ToNat(b));
  }

  /** A packed word gives back its halves. */
  lemma HalvesOfJoin(a: Hex, b: Hex)
    ensures High(ToNat(a + b), |b|) == ToNat(a) && Low(ToNat(a + b), |b|) == ToNat(b)
  {
    HighLowAre(ToNat(a + b), |b|);
    DivModOfJoin(a, b);
  }

  lemma DivMod(q: nat, d: nat, r: nat)
    requires r < d
    ensures (q * d + r) / d == q && (q * d + r) % d == r
  {
    var n := q * d + r;
    var q1, r1 := n / d, n % d;
    assert (q - q1) * d == r1 - r by {
      assert n == q1 * d + r1;
    }
    OnlyZeroIsSmall(q - q1, d);
  }

  lemma OnlyZeroIsSmall(k: int, d: int)
    requires -d < k * d < d
    ensures k == 0
  {
    assert k >= 1 ==> k * d >= d;
    assert k <= -1 ==> k * d <= -d;
  }

  // ---- pieces put one after another ---------------------------------------------------------------

  function Join(parts: seq<Hex>, i: nat): Hex
    requires i <= |parts|
  {
    if i == 0 then [] else Join(parts, i - 1) + parts[i - 1]
  }

  lemma {:induction false} JoinGrows(parts: seq<Hex>, i: nat, j: nat)
    requires i <= j <= |parts|
    ensures Join(parts, i) <= Join(parts, j)
    decreases j - i
  {
    if i < j {
      JoinGrows(parts, i, j - 1);
    }
  }

  /** What stands before and after one piece. */
  lemma JoinAt(parts: seq<Hex>, j: nat) returns (after: Hex)
    requires j < |parts|
    ensures Join(parts, |parts|) == Join(parts, j) + parts[j] + after
  {
    JoinGrows(parts, j + 1, |parts|);
    after := Join(parts, |parts|)[|Join(parts, j + 1)|..];
  }

  lemma {:induction false} JoinLength(parts: seq<Hex>, size: nat, i: nat)
    requires i <= |parts| && forall j | 0 <= j < |parts| :: |parts[j]| == size
    ensures |Join(parts, i)| == size * i
  {
    if i > 0 {
      JoinLength(parts, size, i - 1);
      assert size * i == size * (i - 1) + size;
    }
  }

  lemma {:induction false} JoinAtLeast(parts: seq<Hex>, size: nat, i: nat)
    requires i <= |parts| && forall j | 0 <= j < |parts| :: |parts[j]| >= size
    ensures |Join(parts, i)| >= size * i
  {
    if i > 0 {
      JoinAtLeast(parts, size, i - 1);
      assert size * i == size * (i - 1) + size;
    }
  }

  lemma {:induction false} JoinEven(parts: seq<Hex>, i: nat)
    requires i <= |parts| && forall j | 0 <= j < |parts| :: |parts[j]| % 2 == 0
    ensures |Join(parts, i)| % 2 == 0
  {
    if i > 0 {
      JoinEven(parts, i - 1);
    }
  }
}
