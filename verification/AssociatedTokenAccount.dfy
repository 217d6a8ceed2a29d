/**
  The curve test behind associated token addresses: 32 bytes are on the curve exactly when their y coordinate has a
  matching x on the twisted Edwards curve -x^2 + y^2 = 1 + d x^2 y^2 of RFC 8032, section 5.1.
 */
module AssociatedTokenAccount {
  import opened Bytes
  import opened ModularArithmetic

  const SIGN_BIT: nat := 128

  // ---- the arithmetic helpers

  /** The remainder of the source language: it takes the sign of the dividend. */
  function TruncatedRemainder(value: int, modulus: nat): int
    requires modulus > 0
  {
    if value >= 0 then value % modulus else -((-value) % modulus)
  }

  function Mod(value: int, modulus: nat): (r: nat)
    requires modulus > 0
    ensures r < modulus && Congruent(r, value, modulus)
  {
    var result := TruncatedRemainder(value, modulus);
    TruncatedIsCongruent(value, modulus);
    if result >= 0 then result
    else
      CongruentByMultiple(result + modulus, result, 1, modulus);
      CongruentChain(result + modulus, result, value, modulus);
      result + modulus
  }

  lemma TruncatedIsCongruent(value: int, modulus: nat)
    requires modulus > 0
    ensures Congruent(TruncatedRemainder(value, modulus), value, modulus)
    ensures 0 - modulus < TruncatedRemainder(value, modulus) < modulus
  {
    if value >= 0 {
      CongruentRemainder(value, modulus);
    } else {
      CongruentRemainder(-value, modulus);
      CongruentProduct((-value) % modulus, -value, -1, modulus);
    }
  }

  /** Square-and-multiply computes the power; a non-positive exponent leaves the initial one. */
  method ModPow(base: int, exponent: int, modulus: nat) returns (result: nat)
    requires modulus > 0
    ensures exponent <= 0 ==> result == 1
    ensures exponent > 0 ==> result == Pow(base, exponent) % modulus
  {
    result := 1;
    var nextBase := Mod(base, modulus);
    var nextExponent := exponent;
    if exponent > 0 {
      PowCongruent(nextBase, base, exponent, modulus);
      assert 1 * Pow(nextBase, nextExponent) == Pow(nextBase, nextExponent);
    }
    while nextExponent > 0
      invariant exponent <= 0 ==> nextExponent == exponent && result == 1
      invariant exponent > 0 ==> 0 <= nextExponent <= exponent
      invariant exponent > 0 ==> Congruent(result * Pow(nextBase, nextExponent), Pow(base, exponent), modulus)
      invariant exponent > 0 && nextExponent == 0 ==> result < modulus
      decreases nextExponent
    {
      ghost var before := result * Pow(nextBase, nextExponent);
      ghost var oldBase, oldResult := nextBase, result;
      if nextExponent % 2 == 1 {
        result := Mod(result * nextBase, modulus);
      }
      nextBase := Mod(nextBase * nextBase, modulus);
      SquareAndMultiply(oldResult, oldBase, nextExponent, result, nextBase, modulus);
      nextExponent := nextExponent / 2;
      CongruentChain(result * Pow(nextBase, nextExponent), before, Pow(base, exponent), modulus);
    }
    if exponent > 0 {
      CongruentRemainder(Pow(base, exponent), modulus);
      assert result * Pow(nextBase, 0) == result;
      CongruentChain(result, Pow(base, exponent), Pow(base, exponent) % modulus, modulus);
      SmallCongruentAreEqual(result, Pow(base, exponent) % modulus, modulus);
    }
  }

  /** One round keeps result times base to the exponent, modulo the modulus. */
  lemma SquareAndMultiply(result: nat, base: nat, exponent: nat, nextResult: nat, nextBase: nat, modulus: nat)
    requires modulus > 0 && exponent > 0
    requires if exponent % 2 == 1 then Congruent(nextResult, result * base, modulus) else nextResult == result
    requires Congruent(nextBase, base * base, modulus)
    ensures Congruent(nextResult * Pow(nextBase, exponent / 2), result * Pow(base, exponent), modulus)
  {
    var half := exponent / 2;
    PowCongruent(nextBase, base * base, half, modulus);
    PowOfSquare(base, half);
    var used := if exponent % 2 == 1 then result * base else result;
    CongruentSelf(used, modulus);
    CongruentProducts(nextResult, used, Pow(nextBase, half), Pow(base, 2 * half), modulus);
    PeelOddFactor(result, base, half);
  }

  lemma PeelOddFactor(result: int, base: int, half: nat)
    ensures result * base * Pow(base, 2 * half) == result * Pow(base, 2 * half + 1)
  {
    var power := Pow(base, 2 * half);
    assert result * base * power == result * (base * power);
  }

  // ---- byte strings

  method LittleEndianToBigInt(bytes: array<Byte>) returns (value: nat)
    ensures value == LittleEndian(bytes[..])
  {
    value := 0;
    var index := bytes.Length - 1;
    while index >= 0
      invariant -1 <= index < bytes.Length
      invariant value == LittleEndian(bytes[index + 1..])
    {
      assert bytes[index..][1..] == bytes[index + 1..];
      value := value * 256 + bytes[index];
      index := index - 1;
    }
    assert bytes[0..] == bytes[..];
  }

  /** The bytes without the sign bit of x, which the last byte carries. */
  function WithoutSign(bytes: seq<Byte>): seq<Byte>
    requires |bytes| == 32
  {
    bytes[31 := bytes[31] % SIGN_BIT]
  }

  lemma {:induction false} TopByteWeighs(bytes: seq<Byte>, b: Byte)
    requires |bytes| > 0
    ensures LittleEndian(bytes) == LittleEndian(bytes[|bytes| - 1 := b])
            + (bytes[|bytes| - 1] - b) * Pow(256, |bytes| - 1)
    decreases |bytes|
  {
    var last := |bytes| - 1;
    if last > 0 {
      TopByteWeighs(bytes[1..], b);
      assert bytes[last := b][1..] == bytes[1..][last - 1 := b];
      var delta, weight := bytes[last] - b, Pow(256, last - 1);
      assert 256 * (delta * weight) == delta * (256 * weight);
    }
  }

  lemma {:induction false} PowPositive(base: nat, e: nat)
    requires base > 0
    ensures Pow(base, e) > 0
  {
    if e > 0 {
      PowPositive(base, e - 1);
      MultipleAtLeast(base, Pow(base, e - 1));
    }
  }

  lemma TopSplit(value: int, cleared: int, low: int, top: nat, weight: nat)
    requires weight > 0 && 0 <= low < weight
    requires value == cleared + (top - top % SIGN_BIT) * weight
    requires cleared == low + top % SIGN_BIT * weight
    ensures cleared == value % (SIGN_BIT * weight)
  {
    var q, b := top / SIGN_BIT, top % SIGN_BIT;
    assert top - b == q * SIGN_BIT;
    assert (q * SIGN_BIT) * weight == q * (SIGN_BIT * weight);
    MulBound(b, weight);
    RemainderIsUnique(value, q, cleared, SIGN_BIT * weight);
  }

  lemma MulBound(b: nat, weight: nat)
    requires b < SIGN_BIT
    ensures 0 <= b * weight <= SIGN_BIT * weight - weight
  {
    assert (SIGN_BIT - 1 - b) * weight >= 0;
    assert (SIGN_BIT - 1 - b) * weight == SIGN_BIT * weight - weight - b * weight;
  }

  /** Clearing the bit keeps the value modulo 2^255, so both encodings of a point share one y. */
  lemma SignDoesNotMoveY(bytes: seq<Byte>)
    requires |bytes| == 32
    ensures SIGN_BIT * Pow(256, 31) > 0
    ensures LittleEndian(WithoutSign(bytes)) == LittleEndian(bytes) % (SIGN_BIT * Pow(256, 31))
  {
    var cleared := WithoutSign(bytes);
    var low := cleared[31 := 0];
    PowPositive(256, 31);
    TopByteWeighs(bytes, bytes[31] % SIGN_BIT);
    TopByteWeighs(cleared, 0);
    LittleEndianBound(low[..31]);
    DropZeroTop(low[..31]);
    assert low[..31] + [0] == low;
    TopSplit(LittleEndian(bytes), LittleEndian(cleared), LittleEndian(low), bytes[31], Pow(256, 31));
  }

  lemma {:induction false} DropZeroTop(bytes: seq<Byte>)
    ensures LittleEndian(bytes + [0]) == LittleEndian(bytes)
    decreases |bytes|
  {
    if bytes == [] {
      assert (bytes + [0])[1..] == [];
    } else {
      assert (bytes + [0])[1..] == bytes[1..] + [0];
      DropZeroTop(bytes[1..]);
    }
  }

  // ---- the curve

  /** -x^2 + y^2 = 1 + d x^2 y^2 modulo p. */
  ghost predicate OnCurve(x: int, y: int, d: int, p: nat) {
    Congruent(y * y - x * x, 1 + d * (x * x) * (y * y), p)
  }

  ghost predicate HasPoint(y: int, d: int, p: nat) {
    exists x: nat :: x < p && OnCurve(x, y, d, p)
  }

  /** What the addressed curve asks of its parameters. */
  ghost predicate CurveParameters(p: nat, d: int) {
    IsPrime(p) && p % 4 == 1 && !IsSquare(d, p)
  }

  /** Modulo such a prime minus one has a root. */
  lemma MinusOneIsSquare(p: nat)
    requires IsPrime(p) && p % 4 == 1
    ensures IsSquare(p - 1, p)
  {
    EulerCriterion(p - 1, p);
    var half := (p - 1) / 2;
    CongruentByMultiple(p - 1, -1, 1, p);
    PowCongruent(p - 1, -1, half, p);
    EvenPowerOfMinusOne(half / 2);
    CongruentFlip(Pow(p - 1, half), 1, p);
    if !IsSquare(p - 1, p) {
      CongruentChain(1, Pow(p - 1, half), -1, p);
      CongruentSum(1, -1, 1, p);
      SmallCongruentAreEqual(2, 0, p);
    }
  }

  lemma EvenPowerOfMinusOne(n: nat)
    ensures Pow(-1, 2 * n) == 1
  {
    PowOfSquare(-1, n);
    PowOfOne(n);
  }

  /** The zero-denominator branch is dead: d y^2 = -1 would make d a square. */
  lemma DenominatorNeverVanishes(y: int, d: int, p: nat)
    requires CurveParameters(p, d)
    ensures !Congruent(d * (y * y) + 1, 0, p)
  {
    if Congruent(d * (y * y) + 1, 0, p) {
      CongruentSum(d * (y * y) + 1, 0, -1, p);
      if Congruent(y, 0, p) {
        CongruentProducts(y, 0, y, 0, p);
        CongruentProduct(y * y, 0, d, p);
        assert y * y * d == d * (y * y);
        CongruentFlip(d * (y * y), 0, p);
        CongruentChain(0, d * (y * y), -1, p);
        CongruentSum(0, -1, 1, p);
        SmallCongruentAreEqual(1, 0, p);
      } else {
        RootOfD(y, d, p);
      }
    }
  }

  lemma RootOfD(y: int, d: int, p: nat)
    requires IsPrime(p) && p % 4 == 1
    requires Congruent(d * (y * y), -1, p) && !Congruent(y, 0, p)
    ensures IsSquare(d, p)
  {
    MinusOneIsSquare(p);
    var i: nat :| IsRoot(i, p - 1, p);
    CongruentByMultiple(p - 1, -1, 1, p);
    CongruentChain(i * i, p - 1, -1, p);
    CongruentRemainder(y, p);
    var z := Inverse(y % p, p);
    CongruentProduct(y, y % p, z, p);
    CongruentChain(y * z, y % p * z, 1, p);
    QuotientRoot(d, y, i, z, p);
    var r := (i * z) % p;
    CongruentRemainder(i * z, p);
    CongruentProducts(r, i * z, r, i * z, p);
    CongruentChain(r * r, i * z * (i * z), d, p);
    assert IsRoot(r, d, p);
  }

  lemma QuotientRoot(d: int, y: int, i: int, z: int, p: nat)
    requires Congruent(d * (y * y), -1, p) && Congruent(i * i, -1, p) && Congruent(y * z, 1, p)
    ensures Congruent(i * z * (i * z), d, p)
  {
    CongruentFlip(d * (y * y), -1, p);
    CongruentChain(i * i, -1, d * (y * y), p);
    CongruentProduct(i * i, d * (y * y), z * z, p);
    CongruentProducts(y * z, 1, y * z, 1, p);
    CongruentProduct(y * z * (y * z), 1, d, p);
    Regroup(d, y, i, z);
    CongruentChain(i * z * (i * z), d * (y * y) * (z * z), d, p);
  }

  lemma Regroup(d: int, y: int, i: int, z: int)
    ensures i * i * (z * z) == i * z * (i * z)
    ensures y * z * (y * z) * d == d * (y * y) * (z * z)
  {
    assert y * z * (y * z) == y * y * (z * z) by { assert y * z * (y * z) == y * (z * (y * z)); }
    assert y * y * (z * z) * d == d * (y * y * (z * z)) == d * (y * y) * (z * z);
  }

  /** A point needs x^2 times the denominator to be the numerator. */
  lemma PointEquation(x: int, y: int, d: int, p: nat)
    ensures OnCurve(x, y, d, p) <==> Congruent(x * x * (d * (y * y) + 1), y * y - 1, p)
  {
    var left, right := y * y - x * x, 1 + d * (x * x) * (y * y);
    var square := x * x * (d * (y * y) + 1);
    assert square == x * x * (d * (y * y)) + x * x;
    assert d * (x * x) * (y * y) == x * x * (d * (y * y)) by { assert d * (x * x) == x * x * d; }
    assert square - (y * y - 1) == right - left;
    if OnCurve(x, y, d, p) {
      CongruentFlip(left, right, p);
      CongruentSum(right, left, square - right, p);
    }
    if Congruent(square, y * y - 1, p) {
      CongruentSum(square, y * y - 1, right - square, p);
      CongruentFlip(right, left, p);
    }
  }

  /** x solves the equation exactly when it is a root of the quotient the test computes. */
  lemma QuotientDecides(x: int, numerator: int, denominator: nat, quotient: int, p: nat)
    requires IsPrime(p) && p > 2 && 0 < denominator < p
    requires Congruent(quotient * denominator, numerator, p)
    ensures Congruent(x * x * denominator, numerator, p) <==> Congruent(x * x, quotient, p)
  {
    if Congruent(x * x * denominator, numerator, p) {
      CongruentFlip(quotient * denominator, numerator, p);
      CongruentChain(x * x * denominator, numerator, quotient * denominator, p);
      assert x * x * denominator == denominator * (x * x) && quotient * denominator == denominator * quotient;
      CancelFactor(denominator, x * x, quotient, p);
    }
    if Congruent(x * x, quotient, p) {
      CongruentProduct(x * x, quotient, denominator, p);
      CongruentChain(x * x * denominator, quotient * denominator, numerator, p);
    }
  }

  /** Whether y has a point: the reference the method is checked against, written without any computation. */
  ghost predicate EncodesPoint(bytes: seq<Byte>, d: int, p: nat) {
    && |bytes| == 32
    && LittleEndian(WithoutSign(bytes)) < p
    && HasPoint(LittleEndian(WithoutSign(bytes)), d, p)
  }

  /** Read without the sign bit: the y of the encoding alone decides. */
  lemma OnlyYDecides(bytes: seq<Byte>, d: int, p: nat)
    ensures SIGN_BIT * Pow(256, 31) > 0
    ensures EncodesPoint(bytes, d, p)
            <==> && |bytes| == 32
                 && var y := LittleEndian(bytes) % (SIGN_BIT * Pow(256, 31));
                    y < p && HasPoint(y, d, p)
  {
    PowPositive(256, 31);
    if |bytes| == 32 {
      SignDoesNotMoveY(bytes);
    }
  }

  /** Two encodings that differ in the sign bit only get the same verdict. */
  lemma SignBitDoesNotMatter(bytes: seq<Byte>, b: Byte, d: int, p: nat)
    requires |bytes| == 32 && b % SIGN_BIT == bytes[31] % SIGN_BIT
    ensures EncodesPoint(bytes[31 := b], d, p) <==> EncodesPoint(bytes, d, p)
  {
    assert WithoutSign(bytes[31 := b]) == WithoutSign(bytes);
  }

  method IsEd25519Point(bytes: array<Byte>, p: nat, d: nat) returns (accepted: bool)
    requires CurveParameters(p, d)
    ensures accepted <==> EncodesPoint(bytes[..], d, p)
  {
    if bytes.Length != 32 {
      return false;
    }
    var yBytes := new Byte[32](i requires 0 <= i < 32 reads bytes => bytes[i]);
    assert yBytes[..] == bytes[..];
    yBytes[31] := yBytes[31] % SIGN_BIT;
    assert yBytes[..] == WithoutSign(bytes[..]);
    var y := LittleEndianToBigInt(yBytes);
    if y >= p {
      return false;
    }
    accepted := HasMatchingX(y, p, d);
  }

  method HasMatchingX(y: nat, p: nat, d: nat) returns (accepted: bool)
    requires CurveParameters(p, d)
    ensures accepted <==> HasPoint(y, d, p)
  {
    var ySquared: int := Mod(y * y, p);
    var numerator := Mod(ySquared - 1, p);
    var denominator := Mod(d * ySquared + 1, p);
    DenominatorMatches(y, ySquared, d, denominator, p);
    if denominator == 0 {
      DenominatorNeverVanishes(y, d, p);
      CongruentFlip(denominator, d * (y * y) + 1, p);
      assert false;
    }
    var inverse := ModPow(denominator, p - 2, p);
    var xSquared := Mod(numerator * inverse, p);
    var symbol := ModPow(xSquared, (p - 1) / 2, p);
    accepted := xSquared == 0 || symbol == 1;
    FermatQuotient(denominator, inverse, p);
    QuotientIsExact(numerator, denominator, inverse, xSquared, p);
    SymbolDecides(xSquared, symbol, p);
    NumeratorMatches(y, ySquared, numerator, p);
    PointsAreRoots(y, d, numerator, denominator, xSquared, p);
  }

  lemma DenominatorMatches(y: int, ySquared: int, d: int, denominator: int, p: nat)
    requires Congruent(ySquared, y * y, p) && Congruent(denominator, d * ySquared + 1, p)
    ensures Congruent(denominator, d * (y * y) + 1, p)
  {
    CongruentProduct(ySquared, y * y, d, p);
    assert ySquared * d == d * ySquared && y * y * d == d * (y * y);
    CongruentSum(d * ySquared, d * (y * y), 1, p);
    CongruentChain(denominator, d * ySquared + 1, d * (y * y) + 1, p);
  }

  lemma NumeratorMatches(y: int, ySquared: int, numerator: int, p: nat)
    requires Congruent(ySquared, y * y, p) && Congruent(numerator, ySquared - 1, p)
    ensures Congruent(numerator, y * y - 1, p)
  {
    CongruentSum(ySquared, y * y, -1, p);
    CongruentChain(numerator, ySquared - 1, y * y - 1, p);
  }

  lemma FermatQuotient(denominator: nat, inverse: nat, p: nat)
    requires IsPrime(p) && p > 2 && 0 < denominator < p
    requires inverse == Pow(denominator, p - 2) % p
    ensures Congruent(inverse * denominator, 1, p)
  {
    var power := Pow(denominator, p - 2);
    FermatInverse(denominator, p);
    CongruentRemainder(power, p);
    CongruentProduct(inverse, power, denominator, p);
    Commutes(power, denominator);
    CongruentChain(inverse * denominator, denominator * power, 1, p);
  }

  lemma Commutes(a: int, b: int)
    ensures a * b == b * a
  {
  }

  lemma QuotientIsExact(numerator: nat, denominator: nat, inverse: nat, quotient: nat, p: nat)
    requires Congruent(inverse * denominator, 1, p)
    requires Congruent(quotient, numerator * inverse, p)
    ensures Congruent(quotient * denominator, numerator, p)
  {
    CongruentProduct(inverse * denominator, 1, numerator, p);
    CongruentProduct(quotient, numerator * inverse, denominator, p);
    assert numerator * inverse * denominator == inverse * denominator * numerator;
    CongruentChain(quotient * denominator, inverse * denominator * numerator, numerator, p);
  }

  /** Zero, or a Legendre symbol of one: exactly the residues with a root. */
  lemma SymbolDecides(a: nat, symbol: nat, p: nat)
    requires IsPrime(p) && p > 2 && a < p
    requires symbol == Pow(a, (p - 1) / 2) % p
    ensures a == 0 || symbol == 1 <==> IsSquare(a, p)
  {
    if a == 0 {
      CongruentSelf(0, p);
      assert IsRoot(0, a, p);
    } else {
      EulerCriterion(a, p);
      var sign := if IsSquare(a, p) then 1 else -1;
      CongruentRemainder(Pow(a, (p - 1) / 2), p);
      CongruentChain(symbol, Pow(a, (p - 1) / 2), sign, p);
      if IsSquare(a, p) {
        SmallCongruentAreEqual(symbol, 1, p);
      } else if symbol == 1 {
        CongruentSum(1, -1, 1, p);
        SmallCongruentAreEqual(2, 0, p);
      }
    }
  }

  lemma PointsAreRoots(y: nat, d: nat, numerator: nat, denominator: nat, quotient: nat, p: nat)
    requires IsPrime(p) && p > 2 && 0 < denominator < p
    requires Congruent(denominator, d * (y * y) + 1, p) && Congruent(numerator, y * y - 1, p)
    requires Congruent(quotient * denominator, numerator, p)
    ensures IsSquare(quotient, p) <==> HasPoint(y, d, p)
  {
    forall x: nat ensures IsRoot(x, quotient, p) <==> x < p && OnCurve(x, y, d, p) {
      PointEquation(x, y, d, p);
      QuotientDecides(x, numerator, denominator, quotient, p);
      SameEquation(x * x, d * (y * y) + 1, denominator, y * y - 1, numerator, p);
    }
    if IsSquare(quotient, p) {
      var x: nat :| IsRoot(x, quotient, p);
      assert x < p && OnCurve(x, y, d, p);
    }
    if HasPoint(y, d, p) {
      var x: nat :| x < p && OnCurve(x, y, d, p);
      assert IsRoot(x, quotient, p);
    }
  }

  lemma SameEquation(square: int, exactDenominator: int, denominator: int, exactNumerator: int, numerator: int, p: nat)
    requires Congruent(denominator, exactDenominator, p) && Congruent(numerator, exactNumerator, p)
    ensures Congruent(square * exactDenominator, exactNumerator, p) <==> Congruent(square * denominator, numerator, p)
  {
    CongruentProduct(denominator, exactDenominator, square, p);
    assert denominator * square == square * denominator && exactDenominator * square == square * exactDenominator;
    CongruentFlip(square * denominator, square * exactDenominator, p);
    CongruentFlip(numerator, exactNumerator, p);
    if Congruent(square * exactDenominator, exactNumerator, p) {
      CongruentChain(square * denominator, square * exactDenominator, exactNumerator, p);
      CongruentChain(square * denominator, exactNumerator, numerator, p);
    }
    if Congruent(square * denominator, numerator, p) {
      CongruentChain(square * exactDenominator, square * denominator, numerator, p);
      CongruentChain(square * exactDenominator, numerator, exactNumerator, p);
    }
  }
}
