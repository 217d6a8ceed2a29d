/**
  Arithmetic modulo a prime, up to Euler's criterion.  The criterion is proved by pairing every residue x with a / x:
  the product of all residues is then a power of a, and how it splits depends on whether a has a square root.
 */
module ModularArithmetic {

  // ---- congruence

  /** m added k times; kept apart from multiplication so that congruences stay linear for the reader and the prover. */
  function Scale(k: int, m: nat): int
    decreases if k >= 0 then k else -k
  {
    if k == 0 then 0 else if k > 0 then Scale(k - 1, m) + m else Scale(k + 1, m) - m
  }

  lemma {:induction false} ScaleMultiplies(k: int, m: nat)
    ensures Scale(k, m) == k * m
    decreases if k >= 0 then k else -k
  {
    if k > 0 {
      ScaleMultiplies(k - 1, m);
      assert k * m == (k - 1) * m + m;
    } else if k < 0 {
      ScaleMultiplies(k + 1, m);
      assert k * m == (k + 1) * m - m;
    }
  }

  /** A multiple of the modulus apart; the same as leaving equal remainders. */
  ghost predicate Congruent(a: int, b: int, m: nat) {
    exists k :: a == b + Scale(k, m)
  }

  lemma RemainderIsUnique(n: int, q: int, r: int, m: nat)
    requires m > 0 && 0 <= r < m && n == q * m + r
    ensures n % m == r && n / m == q
  {
    var k := n / m - q;
    assert n == n / m * m + n % m;
    assert k * m == r - n % m by { assert (n / m - q) * m == n / m * m - q * m; }
    if k > 0 {
      MultipleAtLeast(k, m);
    } else if k < 0 {
      MultipleAtLeast(-k, m);
    }
  }

  lemma MultipleAtLeast(k: int, m: nat)
    requires k >= 1
    ensures k * m >= m
  {
    assert k * m == (k - 1) * m + m;
  }

  lemma CongruentByMultiple(a: int, b: int, k: int, m: nat)
    requires a == b + k * m
    ensures Congruent(a, b, m)
  {
    ScaleMultiplies(k, m);
    assert a == b + Scale(k, m);
  }

  lemma CongruentRemainder(a: int, m: nat)
    requires m > 0
    ensures Congruent(a % m, a, m) && Congruent(a, a % m, m) && 0 <= a % m < m
  {
    assert a == a / m * m + a % m;
    CongruentByMultiple(a, a % m, a / m, m);
    assert a % m == a + (-(a / m)) * m;
    CongruentByMultiple(a % m, a, -(a / m), m);
  }

  /** Congruent residues are equal. */
  lemma SmallCongruentAreEqual(a: int, b: int, m: nat)
    requires Congruent(a, b, m) && 0 <= a < m && 0 <= b < m
    ensures a == b
  {
    var k :| a == b + Scale(k, m);
    ScaleMultiplies(k, m);
    if k >= 1 {
      MultipleAtLeast(k, m);
    } else if k <= -1 {
      MultipleAtLeast(-k, m);
    }
  }

  lemma CongruentSelf(a: int, m: nat)
    ensures Congruent(a, a, m)
  {
    CongruentByMultiple(a, a, 0, m);
  }

  lemma CongruentFlip(a: int, b: int, m: nat)
    requires Congruent(a, b, m)
    ensures Congruent(b, a, m)
  {
    var k :| a == b + Scale(k, m);
    ScaleMultiplies(k, m);
    assert (-k) * m == -(k * m);
    CongruentByMultiple(b, a, -k, m);
  }

  lemma CongruentChain(a: int, b: int, c: int, m: nat)
    requires Congruent(a, b, m) && Congruent(b, c, m)
    ensures Congruent(a, c, m)
  {
    var j :| a == b + Scale(j, m);
    ScaleMultiplies(j, m);
    var k :| b == c + Scale(k, m);
    ScaleMultiplies(k, m);
    assert (j + k) * m == j * m + k * m;
    CongruentByMultiple(a, c, j + k, m);
  }

  lemma CongruentProduct(a: int, b: int, c: int, m: nat)
    requires Congruent(a, b, m)
    ensures Congruent(a * c, b * c, m)
  {
    var k :| a == b + Scale(k, m);
    ScaleMultiplies(k, m);
    assert (b + k * m) * c == b * c + (k * c) * m;
    CongruentByMultiple(a * c, b * c, k * c, m);
  }

  lemma CongruentProducts(a: int, b: int, c: int, d: int, m: nat)
    requires Congruent(a, b, m) && Congruent(c, d, m)
    ensures Congruent(a * c, b * d, m)
  {
    CongruentProduct(a, b, c, m);
    CongruentProduct(c, d, b, m);
    assert c * b == b * c && d * b == b * d;
    CongruentChain(a * c, b * c, b * d, m);
  }

  lemma CongruentSum(a: int, b: int, c: int, m: nat)
    requires Congruent(a, b, m)
    ensures Congruent(a + c, b + c, m)
  {
    var k :| a == b + Scale(k, m);
    ScaleMultiplies(k, m);
    CongruentByMultiple(a + c, b + c, k, m);
  }

  // ---- powers

  function Pow(base: int, exponent: nat): int {
    if exponent == 0 then 1 else base * Pow(base, exponent - 1)
  }

  lemma {:induction false} PowAdds(base: int, e: nat, f: nat)
    ensures Pow(base, e + f) == Pow(base, e) * Pow(base, f)
  {
    if e > 0 {
      PowAdds(base, e - 1, f);
      assert Pow(base, e + f) == base * Pow(base, e - 1 + f);
    }
  }

  lemma {:induction false} PowOfSquare(base: int, e: nat)
    ensures Pow(base * base, e) == Pow(base, 2 * e)
  {
    if e > 0 {
      PowOfSquare(base, e - 1);
      assert Pow(base, 2 * e) == base * Pow(base, 2 * e - 1) == base * (base * Pow(base, 2 * e - 2));
    }
  }

  lemma {:induction false} PowCongruent(a: int, b: int, e: nat, m: nat)
    requires Congruent(a, b, m)
    ensures Congruent(Pow(a, e), Pow(b, e), m)
  {
    if e == 0 {
      CongruentSelf(1, m);
    } else {
      PowCongruent(a, b, e - 1, m);
      CongruentProducts(a, b, Pow(a, e - 1), Pow(b, e - 1), m);
    }
  }

  lemma {:induction false} PowOfOne(e: nat)
    ensures Pow(1, e) == 1
  {
    if e > 0 {
      PowOfOne(e - 1);
    }
  }

  // ---- primes

  predicate IsPrime(p: nat) {
    p > 1 && forall d | 1 < d < p :: p % d != 0
  }

  /** Every nonzero residue has an inverse: divide the prime by it and invert the smaller remainder. */
  lemma {:induction false} Inverse(a: nat, p: nat) returns (x: nat)
    requires IsPrime(p) && 0 < a < p
    ensures 0 < x < p && Congruent(a * x, 1, p)
    decreases a
  {
    if a == 1 {
      x := 1;
      CongruentSelf(1, p);
    } else {
      var q, r := p / a, p % a;
      assert p == q * a + r;
      var y := Inverse(r, p);
      x := (-q * y) % p;
      CongruentRemainder(-q * y, p);
      InverseStep(a, p, q, r, y, x);
      if x == 0 {
        SmallCongruentAreEqual(a * x, 1, p);
        assert false;
      }
    }
  }

  lemma InverseStep(a: int, p: nat, q: int, r: int, y: int, x: int)
    requires p == q * a + r && Congruent(r * y, 1, p) && Congruent(x, -q * y, p)
    ensures Congruent(a * x, 1, p)
  {
    CongruentProduct(x, -q * y, a, p);
    assert -q * y * a == r * y + (-y) * p by { assert (q * a + r) * y == p * y; }
    CongruentByMultiple(-q * y * a, r * y, -y, p);
    CongruentChain(x * a, -q * y * a, r * y, p);
    CongruentChain(x * a, r * y, 1, p);
    assert x * a == a * x;
  }

  /** Multiplying by a nonzero residue loses nothing. */
  lemma CancelFactor(a: nat, x: int, y: int, p: nat)
    requires IsPrime(p) && 0 < a < p
    requires Congruent(a * x, a * y, p)
    ensures Congruent(x, y, p)
  {
    var b := Inverse(a, p);
    InverseUndoes(a, b, x, p);
    InverseUndoes(a, b, y, p);
    CongruentProduct(a * x, a * y, b, p);
    CongruentFlip(a * x * b, x, p);
    CongruentChain(x, a * x * b, a * y * b, p);
    CongruentChain(x, a * y * b, y, p);
  }

  lemma InverseUndoes(a: nat, b: nat, x: int, p: nat)
    requires Congruent(a * b, 1, p)
    ensures Congruent(a * x * b, x, p)
  {
    CongruentProduct(a * b, 1, x, p);
    assert a * b * x == a * x * b;
  }

  lemma ProductOfNonzero(a: nat, b: nat, p: nat)
    requires IsPrime(p) && 0 < a < p && 0 < b < p
    ensures !Congruent(a * b, 0, p)
  {
    if Congruent(a * b, 0, p) {
      assert a * 0 == 0;
      CancelFactor(a, b, 0, p);
      SmallCongruentAreEqual(b, 0, p);
    }
  }

  // ---- pairing x with a / x

  ghost predicate ArePartners(a: nat, x: nat, y: nat, p: nat) {
    0 < x < p && 0 < y < p && Congruent(x * y, a, p)
  }

  lemma PartnerExists(a: nat, x: nat, p: nat) returns (y: nat)
    requires IsPrime(p) && 0 < a < p && 0 < x < p
    ensures ArePartners(a, x, y, p)
  {
    var inverse := Inverse(x, p);
    y := a * inverse % p;
    CongruentRemainder(a * inverse, p);
    ProductOfNonzero(a, inverse, p);
    QuotientTimes(a, x, inverse, y, p);
  }

  lemma QuotientTimes(a: nat, x: nat, inverse: nat, y: nat, p: nat)
    requires Congruent(x * inverse, 1, p) && Congruent(y, a * inverse, p)
    ensures Congruent(x * y, a, p)
  {
    CongruentProduct(y, a * inverse, x, p);
    InverseUndoes(x, inverse, a, p);
    assert a * inverse * x == x * a * inverse && y * x == x * y;
    CongruentChain(x * y, x * a * inverse, a, p);
  }

  ghost function Partner(a: nat, x: nat, p: nat): (y: nat)
    requires IsPrime(p) && 0 < a < p && 0 < x < p
    ensures ArePartners(a, x, y, p)
  {
    assert exists y: nat :: ArePartners(a, x, y, p) by { var z := PartnerExists(a, x, p); }
    var y: nat :| ArePartners(a, x, y, p);
    y
  }

  lemma PartnersAgree(a: nat, x: nat, y: nat, z: nat, p: nat)
    requires IsPrime(p) && ArePartners(a, x, y, p) && ArePartners(a, x, z, p)
    ensures y == z
  {
    CongruentFlip(x * z, a, p);
    CongruentChain(x * y, a, x * z, p);
    CancelFactor(x, y, z, p);
    SmallCongruentAreEqual(y, z, p);
  }

  lemma PartnerIsUnique(a: nat, x: nat, y: nat, p: nat)
    requires IsPrime(p) && 0 < a < p && ArePartners(a, x, y, p)
    ensures Partner(a, x, p) == y && Partner(a, y, p) == x
  {
    PartnersAgree(a, x, Partner(a, x, p), y, p);
    assert x * y == y * x;
    PartnersAgree(a, y, Partner(a, y, p), x, p);
  }

  // ---- products over sets

  ghost function Pick(s: set<nat>): (x: nat)
    requires s != {}
    ensures x in s
  {
    var x :| x in s; x
  }

  ghost function Product(s: set<nat>): nat {
    if s == {} then 1 else Pick(s) * Product(s - {Pick(s)})
  }

  lemma {:induction false} ProductWithout(s: set<nat>, x: nat)
    requires x in s
    ensures Product(s) == x * Product(s - {x})
    decreases s
  {
    var y := Pick(s);
    if y != x {
      ProductWithout(s - {y}, x);
      ProductWithout(s - {x}, y);
      assert s - {y} - {x} == s - {x} - {y};
      SwapFactors(x, y, Product(s - {x} - {y}));
    }
  }

  lemma SwapFactors(x: int, y: int, rest: int)
    ensures y * (x * rest) == x * (y * rest) == (x * y) * rest
  {
  }

  ghost predicate PairedIn(s: set<nat>, x: nat, a: nat, p: nat)
    requires IsPrime(p) && 0 < a < p
  {
    x in s ==> 0 < x < p && Partner(a, x, p) in s && Partner(a, x, p) != x
  }

  ghost predicate PairedUp(s: set<nat>, a: nat, p: nat)
    requires IsPrime(p) && 0 < a < p
  {
    forall x: nat :: PairedIn(s, x, a, p)
  }

  /** Takes some x and its partner out of a paired set. */
  lemma RemovePair(s: set<nat>, a: nat, p: nat) returns (rest: set<nat>, pair: nat)
    requires IsPrime(p) && 0 < a < p && s != {} && PairedUp(s, a, p)
    ensures |rest| == |s| - 2 && PairedUp(rest, a, p)
    ensures Product(s) == pair * Product(rest) && Congruent(pair, a, p)
  {
    var x := Pick(s);
    assert PairedIn(s, x, a, p);
    var y := Partner(a, x, p);
    PartnerIsUnique(a, x, y, p);
    rest, pair := s - {x} - {y}, x * y;
    forall z: nat ensures PairedIn(rest, z, a, p) {
      assert PairedIn(s, z, a, p);
      if z in rest {
        PartnerIsUnique(a, z, Partner(a, z, p), p);
      }
    }
    ProductWithout(s, x);
    ProductWithout(s - {x}, y);
    SwapFactors(x, y, Product(rest));
  }

  lemma ProductStep(whole: int, pair: int, rest: int, a: int, pairs: nat, p: nat)
    requires whole == pair * rest
    requires Congruent(pair, a, p) && Congruent(rest, Pow(a, pairs), p)
    ensures Congruent(whole, Pow(a, pairs + 1), p)
  {
    CongruentProducts(pair, a, rest, Pow(a, pairs), p);
  }

  lemma MinusProductStep(whole: int, pair: int, rest: int, a: int, pairs: nat, p: nat)
    requires whole == pair * rest
    requires Congruent(pair, -a, p) && Congruent(rest, Pow(a, pairs), p)
    ensures Congruent(whole, -Pow(a, pairs + 1), p)
  {
    CongruentProducts(pair, -a, rest, Pow(a, pairs), p);
    assert -a * Pow(a, pairs) == -(a * Pow(a, pairs));
  }

  /** Without fixed points the residues come in pairs with product a. */
  lemma {:induction false} PairedProduct(s: set<nat>, a: nat, p: nat, pairs: nat)
    requires IsPrime(p) && 0 < a < p && PairedUp(s, a, p) && |s| == 2 * pairs
    ensures Congruent(Product(s), Pow(a, pairs), p)
    decreases pairs
  {
    if pairs == 0 {
      assert s == {};
      CongruentSelf(1, p);
    } else {
      var rest, pair := RemovePair(s, a, p);
      PairedProduct(rest, a, p, pairs - 1);
      ProductStep(Product(s), pair, Product(rest), a, pairs - 1, p);
    }
  }

  function Residues(p: nat): (r: set<nat>)
    ensures forall x :: x in r <==> 0 < x < p
    ensures p > 0 ==> |r| == p - 1
  {
    if p <= 1 then {} else Residues(p - 1) + {p - 1}
  }

  // ---- Euler's criterion

  ghost predicate IsRoot(r: nat, a: int, p: nat) {
    r < p && Congruent(r * r, a, p)
  }

  ghost predicate IsSquare(a: int, p: nat) {
    exists r: nat :: IsRoot(r, a, p)
  }

  /** Without a square root every residue pairs up, so the product of all of them is a power of a. */
  lemma NonSquareProduct(a: nat, p: nat, half: nat)
    requires IsPrime(p) && 0 < a < p && p == 2 * half + 1
    requires !IsSquare(a, p)
    ensures Congruent(Product(Residues(p)), Pow(a, half), p)
  {
    NonSquaresPairUp(a, p);
    PairedProduct(Residues(p), a, p, half);
  }

  lemma NonSquaresPairUp(a: nat, p: nat)
    requires IsPrime(p) && 0 < a < p
    requires !IsSquare(a, p)
    ensures PairedUp(Residues(p), a, p)
  {
    forall x: nat ensures PairedIn(Residues(p), x, a, p) {
      assert !IsRoot(x, a, p);
    }
  }

  lemma DifferenceOfSquares(r: nat, x: nat, p: nat)
    requires Congruent(x * x, r * r, p)
    ensures Congruent((x - r) * (x + r), 0, p)
  {
    CongruentSum(x * x, r * r, -(r * r), p);
    assert x * x - r * r == (x - r) * (x + r);
  }

  /** A prime that divides a product divides a factor. */
  lemma ZeroFactor(u: int, v: int, p: nat)
    requires IsPrime(p) && Congruent(u * v, 0, p)
    ensures Congruent(u, 0, p) || Congruent(v, 0, p)
  {
    var s, t := u % p, v % p;
    CongruentRemainder(u, p);
    CongruentRemainder(v, p);
    if s > 0 && t > 0 {
      CongruentProducts(s, u, t, v, p);
      CongruentChain(s * t, u * v, 0, p);
      ProductOfNonzero(s, t, p);
    }
  }

  lemma OnlyTwoRoots(r: nat, x: nat, p: nat)
    requires IsPrime(p) && 0 < r < p && 0 < x < p && Congruent(x * x, r * r, p)
    ensures x == r || x == p - r
  {
    DifferenceOfSquares(r, x, p);
    ZeroFactor(x - r, x + r, p);
    if Congruent(x - r, 0, p) {
      CongruentSum(x - r, 0, r, p);
      SmallCongruentAreEqual(x, r, p);
    } else {
      CongruentSum(x + r, 0, 0 - r, p);
      CongruentByMultiple(0 - r, p - r, -1, p);
      CongruentChain(x, 0 - r, p - r, p);
      SmallCongruentAreEqual(x, p - r, p);
    }
  }

  lemma OddPrime(p: nat)
    requires IsPrime(p) && p > 2
    ensures p % 2 == 1
  {
  }

  lemma RootsAreFixed(a: nat, r: nat, p: nat)
    requires IsPrime(p) && 0 < a < p && 0 < r && IsRoot(r, a, p)
    ensures Partner(a, r, p) == r && Partner(a, p - r, p) == p - r
  {
    assert (p - r) * (p - r) == r * r + (p - 2 * r) * p;
    CongruentByMultiple((p - r) * (p - r), r * r, p - 2 * r, p);
    CongruentChain((p - r) * (p - r), r * r, a, p);
    PartnerIsUnique(a, r, r, p);
    PartnerIsUnique(a, p - r, p - r, p);
  }

  /** All residues but the two roots pair up. */
  lemma OthersPairUp(a: nat, r: nat, p: nat)
    requires IsPrime(p) && 0 < a < p && 0 < r && IsRoot(r, a, p)
    ensures PairedUp(Residues(p) - {r} - {p - r}, a, p)
  {
    var s := Residues(p) - {r} - {p - r};
    RootsAreFixed(a, r, p);
    forall x: nat ensures PairedIn(s, x, a, p) {
      if x in s {
        var y := Partner(a, x, p);
        PartnerIsUnique(a, x, y, p);
        if y == x {
          CongruentFlip(r * r, a, p);
          CongruentChain(x * x, a, r * r, p);
          OnlyTwoRoots(r, x, p);
        }
      }
    }
  }

  lemma RootsMultiplyToMinus(a: nat, r: nat, p: nat)
    requires IsRoot(r, a, p)
    ensures Congruent(r * (p - r), 0 - a, p)
  {
    assert r * (p - r) == -(r * r) + r * p;
    CongruentByMultiple(r * (p - r), -(r * r), r, p);
    CongruentProduct(r * r, a, -1, p);
    CongruentChain(r * (p - r), -(r * r), 0 - a, p);
  }

  lemma ProductWithoutTwo(s: set<nat>, x: nat, y: nat)
    requires x in s && y in s && x != y
    ensures Product(s) == (x * y) * Product(s - {x} - {y})
  {
    ProductWithout(s, x);
    ProductWithout(s - {x}, y);
    SwapFactors(x, y, Product(s - {x} - {y}));
  }

  lemma RootsTimesOthers(a: nat, r: nat, p: nat) returns (pair: int, rest: int)
    requires 0 < r && 2 * r != p && IsRoot(r, a, p)
    ensures rest == Product(Residues(p) - {r} - {p - r})
    ensures Product(Residues(p)) == pair * rest && Congruent(pair, 0 - a, p)
  {
    ProductWithoutTwo(Residues(p), r, p - r);
    RootsMultiplyToMinus(a, r, p);
    pair, rest := r * (p - r), Product(Residues(p) - {r} - {p - r});
  }

  /** With a root r the two roots r and p - r stay alone, and their product is minus a. */
  lemma SquareProduct(a: nat, r: nat, p: nat, half: nat)
    requires IsPrime(p) && 0 < a < p && 0 < r && p == 2 * half + 1
    requires IsRoot(r, a, p)
    ensures Congruent(Product(Residues(p)), -Pow(a, half), p)
  {
    OthersPairUp(a, r, p);
    OthersCount(r, p);
    PairedProduct(Residues(p) - {r} - {p - r}, a, p, half - 1);
    var pair, rest := RootsTimesOthers(a, r, p);
    MinusProductStep(Product(Residues(p)), pair, rest, a, half - 1, p);
  }

  lemma OthersCount(r: nat, p: nat)
    requires 0 < r < p && 2 * r != p
    ensures p >= 3 && |Residues(p) - {r} - {p - r}| == p - 3
  {
    assert |Residues(p) - {r}| == p - 2;
  }

  /** Wilson: the product of all residues is minus one. */
  lemma WilsonProduct(p: nat)
    requires IsPrime(p) && p > 2
    ensures Congruent(Product(Residues(p)), -1, p)
  {
    OddPrime(p);
    CongruentSelf(1, p);
    SquareProduct(1, 1, p, p / 2);
    PowOfOne(p / 2);
  }

  /** A nonzero residue raised to (p - 1) / 2 is 1 exactly when it has a square root, and minus one otherwise. */
  lemma EulerCriterion(a: nat, p: nat)
    requires IsPrime(p) && p > 2 && 0 < a < p
    ensures Congruent(Pow(a, (p - 1) / 2), if IsSquare(a, p) then 1 else -1, p)
  {
    OddPrime(p);
    WilsonProduct(p);
    var half := (p - 1) / 2;
    var all := Product(Residues(p));
    if IsSquare(a, p) {
      var r: nat :| IsRoot(r, a, p);
      if r == 0 {
        CongruentFlip(0, a, p);
        SmallCongruentAreEqual(a, 0, p);
        assert false;
      }
      SquareProduct(a, r, p, half);
      CongruentFlip(all, -Pow(a, half), p);
      CongruentChain(-Pow(a, half), all, -1, p);
      CongruentProduct(-Pow(a, half), -1, -1, p);
    } else {
      NonSquareProduct(a, p, half);
      CongruentFlip(all, Pow(a, half), p);
      CongruentChain(Pow(a, half), all, -1, p);
    }
  }

  /** Fermat: raising to p - 2 inverts. */
  lemma FermatInverse(a: nat, p: nat)
    requires IsPrime(p) && p > 2 && 0 < a < p
    ensures Congruent(a * Pow(a, p - 2), 1, p)
  {
    OddPrime(p);
    var half := (p - 1) / 2;
    var sign := if IsSquare(a, p) then 1 else -1;
    EulerCriterion(a, p);
    PowAdds(a, half, half);
    assert a * Pow(a, p - 2) == Pow(a, p - 1) == Pow(a, half) * Pow(a, half);
    CongruentProducts(Pow(a, half), sign, Pow(a, half), sign, p);
  }
}
