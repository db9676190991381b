/**
 Token and cost accounting for one run: checked unsigned token totals and an exact rational
 cost that is reported only when it fits two signed 64-bit integers in lowest terms.
 */
module Limits {
  import opened Common

  const MAX_UINT64: int := 0xFFFF_FFFF_FFFF_FFFF
  const MAX_INT64: int := 0x7FFF_FFFF_FFFF_FFFF

  // ---------------------------------------------------------------- tokens

  /**
   The token counts one turn reports: the five fixed categories, then the provider-specific
   ones in whatever order a map yields them. `specific` is absent when it does not normalize.
   */
  datatype Usage = Usage(known: bool, fixed: seq<int>, specific: Option<seq<int>>)

  function Counts(usage: Usage): seq<int>
    requires usage.specific.Some?
  {
    usage.fixed + usage.specific.value
  }

  function Sum(counts: seq<int>): int {
    if counts == [] then 0 else counts[0] + Sum(counts[1..])
  }

  /** What a turn's usage amounts to, with no reference to the order of addition. */
  function TokenCount(usage: Usage): Option<nat> {
    if !usage.known || usage.specific.None? then None
    else
      var counts := Counts(usage);
      if (forall i :: 0 <= i < |counts| ==> counts[i] >= 0) && 0 <= Sum(counts) <= MAX_UINT64
      then Some(Sum(counts)) else None
  }

  lemma {:induction false} SumAppend(a: seq<int>, b: seq<int>)
    ensures Sum(a + b) == Sum(a) + Sum(b)
  {
    if a == [] {
      assert a + b == b;
    } else {
      SumAppend(a[1..], b);
      assert (a + b)[1..] == a[1..] + b;
    }
  }

  lemma {:induction false} SumNonNegative(a: seq<int>)
    requires forall i :: 0 <= i < |a| ==> a[i] >= 0
    ensures Sum(a) >= 0
  {
    if a != [] { SumNonNegative(a[1..]); }
  }

  lemma SumWithout(s: seq<int>, k: nat)
    requires k < |s|
    ensures Sum(s) == s[k] + Sum(s[..k] + s[k + 1..])
  {
    SumAppend(s[..k], s[k..]);
    assert s == s[..k] + s[k..];
    SumAppend(s[..k], s[k + 1..]);
    assert s[k..][1..] == s[k + 1..];
  }

  lemma MultisetWithout(s: seq<int>, k: nat)
    requires k < |s|
    ensures multiset(s[..k] + s[k + 1..]) == multiset(s) - multiset{s[k]}
  {
    assert s == s[..k] + [s[k]] + s[k + 1..];
  }

  lemma WithoutFirst(a: seq<int>, b: seq<int>) returns (k: nat)
    requires multiset(a) == multiset(b) && a != []
    ensures k < |b| && b[k] == a[0] && multiset(a[1..]) == multiset(b[..k] + b[k + 1..])
  {
    assert a[0] in multiset(b);
    k :| 0 <= k < |b| && b[k] == a[0];
    MultisetWithout(a, 0);
    MultisetWithout(b, k);
    assert a[..0] + a[1..] == a[1..];
  }

  lemma {:induction false} SumPermutation(a: seq<int>, b: seq<int>)
    requires multiset(a) == multiset(b)
    ensures Sum(a) == Sum(b)
  {
    if a == [] {
      assert |multiset(b)| == 0;
    } else {
      var k := WithoutFirst(a, b);
      SumPermutation(a[1..], b[..k] + b[k + 1..]);
      SumWithout(b, k);
    }
  }

  lemma NonNegativePermutation(a: seq<int>, b: seq<int>)
    requires multiset(a) == multiset(b)
    requires forall i :: 0 <= i < |a| ==> a[i] >= 0
    ensures forall i :: 0 <= i < |b| ==> b[i] >= 0
  {
    forall i | 0 <= i < |b| ensures b[i] >= 0 {
      assert b[i] in multiset(a);
    }
  }

  /** The total does not depend on the order in which provider categories are visited. */
  lemma TokenCountOrderIndependent(u: Usage, v: Usage)
    requires u.known == v.known && u.fixed == v.fixed
    requires u.specific.Some? && v.specific.Some?
    requires multiset(u.specific.value) == multiset(v.specific.value)
    ensures TokenCount(u) == TokenCount(v)
  {
    var a, b := Counts(u), Counts(v);
    assert multiset(a) == multiset(b);
    SumPermutation(a, b);
    if forall i :: 0 <= i < |a| ==> a[i] >= 0 {
      NonNegativePermutation(a, b);
    } else if forall i :: 0 <= i < |b| ==> b[i] >= 0 {
      NonNegativePermutation(b, a);
    }
  }

  /** Checked addition, one category at a time, stopping at the first that does not fit. */
  method UsageTokenCount(usage: Usage) returns (r: Option<nat>)
    ensures r == TokenCount(usage)
  {
    if !usage.known || usage.specific.None? {
      return None;
    }
    var counts := Counts(usage);
    var total := 0;
    for i := 0 to |counts|
      invariant 0 <= total <= MAX_UINT64
      invariant total == Sum(counts[..i])
      invariant forall j :: 0 <= j < i ==> counts[j] >= 0
    {
      assert counts[..i + 1] == counts[..i] + [counts[i]];
      SumAppend(counts[..i], [counts[i]]);
      if counts[i] < 0 || counts[i] > MAX_UINT64 - total {
        if counts[i] >= 0 && (forall j :: 0 <= j < |counts| ==> counts[j] >= 0) {
          assert counts == counts[..i + 1] + counts[i + 1..];
          SumAppend(counts[..i + 1], counts[i + 1..]);
          SumNonNegative(counts[i + 1..]);
        }
        return None;
      }
      total := total + counts[i];
    }
    assert counts[..|counts|] == counts;
    return Some(total);
  }

  method AddTokens(total: nat, addition: nat) returns (r: Option<nat>)
    requires total <= MAX_UINT64
    ensures r == if total + addition <= MAX_UINT64 then Some(total + addition) else None
  {
    if addition > MAX_UINT64 - total {
      return None;
    }
    return Some(total + addition);
  }

  // ---------------------------------------------------------------- exact rationals

  datatype ExactAmount = ExactAmount(currency: string, numerator: int, denominator: int, known: bool)

  datatype Fraction = Fraction(num: nat, den: nat)

  type Rational = r: Fraction | r.den >= 1 witness Fraction(0, 1)

  function Value(r: Rational): real {
    r.num as real / r.den as real
  }

  function AmountValue(amount: ExactAmount): real
    requires amount.denominator >= 1
  {
    amount.numerator as real / amount.denominator as real
  }

  function Gcd(a: nat, b: nat): (g: nat)
    requires a > 0 || b > 0
    ensures g > 0
    decreases b
  {
    if b == 0 then a else Gcd(b, a % b)
  }

  lemma Distribute(k: nat, p: nat, q: nat, g: nat)
    ensures (k * p + q) * g == k * (p * g) + q * g
  {}

  lemma EuclidStep(a: nat, b: nat, p: nat, q: nat, g: nat)
    requires b > 0 && b == p * g && a % b == q * g
    ensures a == (a / b * p + q) * g
  {
    var k, r := a / b, a % b;
    assert a == k * b + r;
    Distribute(k, p, q, g);
  }

  lemma {:induction false} GcdDivides(a: nat, b: nat) returns (p: nat, q: nat)
    requires a > 0 || b > 0
    ensures a == p * Gcd(a, b) && b == q * Gcd(a, b)
    decreases b
  {
    if b == 0 {
      p, q := 1, 0;
    } else {
      var p', q' := GcdDivides(b, a % b);
      p, q := a / b * p' + q', p';
      EuclidStep(a, b, p', q', Gcd(a, b));
    }
  }

  lemma {:induction false} Bezout(a: nat, b: nat) returns (x: int, y: int)
    requires a > 0 || b > 0
    ensures a * x + b * y == Gcd(a, b)
    decreases b
  {
    if b == 0 {
      x, y := 1, 0;
    } else {
      var x', y' := Bezout(b, a % b);
      x, y := y', x' - a / b * y';
      assert a * x + b * y == b * x' + (a - a / b * b) * y';
      assert a - a / b * b == a % b;
    }
  }

  lemma SmallMultiple(g: nat, t: int)
    requires 0 <= g * t < g
    ensures t == 0
  {}

  lemma QuotientIsExact(p: nat, g: nat)
    requires g > 0
    ensures p * g / g == p
  {
    var k := p * g / g;
    var r := p * g % g;
    assert p * g == g * k + r && 0 <= r < g;
    SmallMultiple(g, p - k);
  }

  /** Dividing by the greatest common divisor is exact and keeps cross products. */
  lemma GcdQuotients(num: nat, den: nat) returns (p: nat, q: nat)
    requires den >= 1
    ensures num / Gcd(num, den) == p && den / Gcd(num, den) == q && q >= 1
    ensures num == p * Gcd(num, den) && den == q * Gcd(num, den)
    ensures p * den == num * q
  {
    var g := Gcd(num, den);
    p, q := GcdDivides(num, den);
    QuotientIsExact(p, g);
    QuotientIsExact(q, g);
    assert p * (q * g) == (p * g) * q;
  }

  /** Lowest terms, as an exact rational type keeps itself. */
  function Reduced(num: nat, den: nat): (r: Rational)
    requires den >= 1
    ensures r.num * den == num * r.den
  {
    var g := Gcd(num, den);
    assert den / g >= 1 && num / g * den == num * (den / g) by {
      var p, q := GcdQuotients(num, den);
    }
    Fraction(num / g, den / g)
  }

  /** `r` has no smaller equal fraction. */
  ghost predicate Lowest(r: Rational) {
    forall n: nat, d: nat :: d >= 1 && n * r.den == r.num * d ==> r.num <= n && r.den <= d
  }

  lemma CoprimeIsLowest(p: nat, q: nat, x: int, y: int, n: nat, d: nat)
    requires q >= 1 && d >= 1 && p * x + q * y == 1 && n * q == p * d
    ensures p <= n && q <= d
  {
    var k := n * x + d * y;
    assert d == q * k by {
      assert d == d * (p * x + q * y);
      assert d * (p * x + q * y) == (p * d) * x + q * (d * y);
      assert (n * q) * x + q * (d * y) == q * k;
    }
    assert k >= 1;
    assert n * q == (p * k) * q;
    assert n == p * k;
  }

  lemma CancelGcd(p: nat, q: nat, x: int, y: int, g: nat)
    requires g > 0 && p * g * x + q * g * y == g
    ensures p * x + q * y == 1
  {
    assert g * (p * x + q * y) == p * g * x + q * g * y;
  }

  lemma ReducedIsLowest(num: nat, den: nat)
    requires den >= 1
    ensures Lowest(Reduced(num, den))
  {
    var p, q := GcdQuotients(num, den);
    var x, y := Bezout(num, den);
    CancelGcd(p, q, x, y, Gcd(num, den));
    forall n: nat, d: nat | d >= 1 && n * q == p * d ensures p <= n && q <= d {
      CoprimeIsLowest(p, q, x, y, n, d);
    }
  }

  lemma SameValue(a: Rational, b: Rational)
    requires a.num * b.den == b.num * a.den
    ensures Value(a) == Value(b)
  {
    var an, ad, bn, bd := a.num as real, a.den as real, b.num as real, b.den as real;
    assert an * bd == (a.num * b.den) as real && bn * ad == (b.num * a.den) as real;
    assert an / ad == (an * bd) / (ad * bd);
    assert bn / bd == (bn * ad) / (ad * bd);
  }

  lemma AddFractions(an: real, ad: real, bn: real, bd: real)
    requires ad > 0.0 && bd > 0.0
    ensures ad * bd > 0.0 && (an * bd + bn * ad) / (ad * bd) == an / ad + bn / bd
  {
    assert an / ad == (an * bd) / (ad * bd);
    assert bn / bd == (bn * ad) / (ad * bd);
  }

  function RationalAdd(a: Rational, b: Rational): (r: Rational) {
    Reduced(a.num * b.den + b.num * a.den, a.den * b.den)
  }

  lemma ProductCast(a: nat, b: nat)
    ensures (a * b) as real == a as real * b as real
  {}

  lemma RationalAddIsExact(a: Rational, b: Rational)
    ensures Value(RationalAdd(a, b)) == Value(a) + Value(b)
    ensures Lowest(RationalAdd(a, b))
  {
    var n, d := a.num * b.den + b.num * a.den, a.den * b.den;
    ReducedIsLowest(n, d);
    var sum: Rational := Fraction(n, d);
    SameValue(Reduced(n, d), sum);
    assert Value(sum) == Value(a) + Value(b) by {
      ProductCast(a.num, b.den);
      ProductCast(b.num, a.den);
      ProductCast(a.den, b.den);
      AddFractions(a.num as real, a.den as real, b.num as real, b.den as real);
    }
  }

  // ---------------------------------------------------------------- cost

  /** An amount a run may add: known, in the run's currency, and not negative. */
  predicate Chargeable(currency: string, amount: ExactAmount) {
    && amount.known && amount.currency == currency
    && amount.numerator >= 0 && amount.denominator >= 1
  }

  predicate FitsInt64(r: Rational) {
    r.num <= MAX_INT64 && r.den <= MAX_INT64
  }

  /** The exact running cost of one run. */
  class CostAccumulator {
    const currency: string
    var value: Rational

    constructor (currency: string)
      ensures this.currency == currency && Value(value) == 0.0 && Valid()
    {
      this.currency := currency;
      value := Fraction(0, 1);
    }

    ghost predicate Valid()
      reads this
    {
      Lowest(value)
    }

    function Total(): real
      reads this
    {
      Value(value)
    }

    /** Adds one turn's cost exactly, or refuses it and changes nothing. */
    method Add(amount: ExactAmount) returns (ok: bool)
      requires Valid()
      modifies this
      ensures Valid()
      ensures ok <==> Chargeable(currency, amount)
      ensures ok ==> Total() == old(Total()) + AmountValue(amount)
      ensures !ok ==> value == old(value)
    {
      if !Chargeable(currency, amount) {
        return false;
      }
      var addition: Rational := Fraction(amount.numerator, amount.denominator);
      RationalAddIsExact(value, addition);
      value := RationalAdd(value, addition);
      return true;
    }

    predicate Exceeds(limit: ExactAmount)
      requires limit.denominator >= 1
      reads this
    {
      Total() > AmountValue(limit)
    }

    /** What a run reports: the exact sum, or unknown when it does not fit. */
    function Amount(): (r: ExactAmount)
      reads this
      ensures r.currency == currency
      ensures r.known ==> r.denominator >= 1 && AmountValue(r) == Total()
    {
      if FitsInt64(value) then ExactAmount(currency, value.num, value.den, true)
      else ExactAmount(currency, 0, 0, false)
    }
  }

  /** Some fraction of 64-bit integers states the amount. */
  ghost predicate Statable(x: real) {
    exists n: nat, d: nat :: StatedBy(x, n, d)
  }

  predicate StatedBy(x: real, n: nat, d: nat) {
    1 <= d <= MAX_INT64 && n <= MAX_INT64 && n as real / d as real == x
  }

  /** Equal fractions have equal cross products. */
  lemma SameFraction(n: nat, d: nat, r: Rational)
    requires d >= 1
    ensures n as real / d as real == Value(r) <==> n * r.den == r.num * d
  {
    var a, b, x, y := n as real, d as real, r.num as real, r.den as real;
    ProductCast(n, r.den);
    ProductCast(r.num, d);
    CrossMultiply(a, b, x, y);
  }

  lemma CrossMultiply(a: real, b: real, x: real, y: real)
    requires b > 0.0 && y > 0.0
    ensures a / b == x / y <==> a * y == x * b
  {
    var p, q := a / b, x / y;
    assert a == p * b && x == q * y;
    assert a * y - x * b == (p - q) * (b * y);
    assert b * y > 0.0;
  }

  /** The cost is reported exactly, and as known exactly when some pair of 64-bit integers states it. */
  lemma AmountKnownIff(a: CostAccumulator)
    requires a.Valid()
    ensures a.Amount().known <==> Statable(a.Total())
    ensures a.Amount().known ==> a.Amount().denominator >= 1 && AmountValue(a.Amount()) == a.Total()
  {
    var r := a.value;
    if FitsInt64(r) {
      assert StatedBy(a.Total(), r.num, r.den);
    }
    forall n: nat, d: nat | StatedBy(a.Total(), n, d) ensures FitsInt64(r) { SameFraction(n, d, r); }
  }
}
