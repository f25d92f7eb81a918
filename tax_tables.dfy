/** The tax-year constants of the retirement engine and the bracket-walking
    marginal tax evaluator `progressive_tax`. */
module TaxTables {
  import opened Wrappers

  const TaxYear: int := 2026

  const Employee401kLimit: real := 23000.0
  const HsaFamilyLimit: real := 8300.0
  const AnnualAdditionsLimit: real := 66000.0

  const FederalStandardDeduction: real := 30700.0
  const CaStandardDeduction: real := 10404.0

  /** Upper end of a bracket: a finite amount, or the catch-all that the
      source writes as `Float::INFINITY`. */
  datatype Limit = Bounded(amount: real) | Unbounded

  datatype Bracket = Bracket(limit: Limit, rate: real)

  const FederalBrackets: seq<Bracket> := [
    Bracket(Bounded(23200.0), 0.10),
    Bracket(Bounded(94300.0), 0.12),
    Bracket(Bounded(201050.0), 0.22),
    Bracket(Bounded(383900.0), 0.24),
    Bracket(Bounded(487450.0), 0.32),
    Bracket(Bounded(731200.0), 0.35),
    Bracket(Unbounded, 0.37)
  ]

  const CaBrackets: seq<Bracket> := [
    Bracket(Bounded(20659.0), 0.01),
    Bracket(Bounded(48435.0), 0.02),
    Bracket(Bounded(76215.0), 0.04),
    Bracket(Bounded(105387.0), 0.06),
    Bracket(Bounded(133667.0), 0.08),
    Bracket(Bounded(679015.0), 0.093),
    Bracket(Unbounded, 0.103)
  ]

  // ---------------------------------------------------------------------
  // Shape of a bracket table

  /** Limits strictly ascend from `lower`, and only the last bracket may be
      the catch-all. */
  ghost predicate Ascending(lower: real, bs: seq<Bracket>)
    decreases |bs|
  {
    bs == [] ||
    match bs[0].limit
    case Unbounded => |bs| == 1
    case Bounded(c) => lower < c && Ascending(c, bs[1..])
  }

  ghost predicate EndsUnbounded(bs: seq<Bracket>) {
    |bs| > 0 && bs[|bs| - 1].limit.Unbounded?
  }

  ghost predicate RatesNonDecreasing(bs: seq<Bracket>) {
    forall i, j :: 0 <= i < j < |bs| ==> bs[i].rate <= bs[j].rate
  }

  /** What both tables of the source satisfy. */
  ghost predicate TaxTable(bs: seq<Bracket>) {
    Ascending(0.0, bs) && EndsUnbounded(bs) && RatesNonDecreasing(bs) && 0.0 <= bs[0].rate
  }

  lemma TablesAreWellFormed()
    ensures TaxTable(FederalBrackets) && TaxTable(CaBrackets)
  {
    StepwiseRatesNonDecreasing(FederalBrackets);
    StepwiseRatesNonDecreasing(CaBrackets);
  }

  /** Rates that never drop from one bracket to the next never drop at all. */
  lemma {:induction false} StepwiseRatesNonDecreasing(bs: seq<Bracket>)
    requires forall i :: 0 <= i < |bs| - 1 ==> bs[i].rate <= bs[i + 1].rate
    ensures RatesNonDecreasing(bs)
    decreases |bs|
  {
    if |bs| > 1 {
      var tail := bs[1..];
      assert forall i :: 0 <= i < |tail| ==> tail[i] == bs[i + 1];
      StepwiseRatesNonDecreasing(tail);
      forall i, j | 0 <= i < j < |bs| ensures bs[i].rate <= bs[j].rate {
        if i > 0 {
          assert bs[i] == tail[i - 1] && bs[j] == tail[j - 1];
        } else if j > 1 {
          assert bs[1] == tail[0] && bs[j] == tail[j - 1];
        }
      }
    }
  }

  // ---------------------------------------------------------------------
  // The walk, as a function

  /** The amount taxed in one bracket: `min(remaining, max(limit - lower, 0))`,
      where the catch-all's span is infinite. */
  function Taxed(remaining: real, lower: real, limit: Limit): (t: real)
    ensures t <= remaining
    ensures remaining >= 0.0 ==> t >= 0.0
    ensures limit.Unbounded? ==> t == remaining
  {
    match limit
    case Unbounded => remaining
    case Bounded(c) => Min(remaining, Max(c - lower, 0.0))
  }

  /** The next bracket's lower bound. After the catch-all the walk always
      stops, so its value there is never used. */
  function NextLower(lower: real, limit: Limit): real {
    match limit
    case Unbounded => lower
    case Bounded(c) => c
  }

  /** Tax accumulated by the walk and the amount left untaxed when it stops. */
  datatype Walk = Walk(tax: real, leftover: real)

  /** The walk of `progressive_tax` from a state where `remaining` is still
      untaxed and `lower` is the previous bracket's limit. */
  function TaxWalk(remaining: real, lower: real, bs: seq<Bracket>): Walk
    decreases |bs|, remaining
  {
    if bs == [] then Walk(0.0, remaining)
    else
      var taxed := Taxed(remaining, lower, bs[0].limit);
      var rest := remaining - taxed;
      if rest <= 0.0 then Walk(taxed * bs[0].rate, rest)
      else
        var w := TaxWalk(rest, NextLower(lower, bs[0].limit), bs[1..]);
        Walk(taxed * bs[0].rate + w.tax, w.leftover)
  }

  /** The tax `progressive_tax(amount, brackets)` returns. */
  function ProgressiveTaxOf(amount: real, bs: seq<Bracket>): real {
    TaxWalk(amount, 0.0, bs).tax
  }

  // ---------------------------------------------------------------------
  // The textbook marginal formula, as an independent reference

  /** clamp(amount - lower, 0, limit - lower): the part of `amount` that
      falls inside one bracket. */
  function Slice(amount: real, lower: real, limit: Limit): real {
    match limit
    case Unbounded => Max(amount - lower, 0.0)
    case Bounded(c) => Min(Max(amount - lower, 0.0), c - lower)
  }

  /** The tax due inside one bracket: rate * slice. */
  function BracketTax(amount: real, lower: real, b: Bracket): real {
    b.rate * Slice(amount, lower, b.limit)
  }

  /** Sum over brackets of rate * slice. */
  function Marginal(amount: real, lower: real, bs: seq<Bracket>): real
    decreases |bs|
  {
    if bs == [] then 0.0
    else BracketTax(amount, lower, bs[0]) + Marginal(amount, NextLower(lower, bs[0].limit), bs[1..])
  }

  lemma {:induction false} MarginalZeroBelow(amount: real, lower: real, bs: seq<Bracket>)
    requires Ascending(lower, bs) && amount <= lower
    ensures Marginal(amount, lower, bs) == 0.0
    decreases |bs|
  {
    if bs != [] {
      match bs[0].limit
      case Unbounded =>
      case Bounded(c) => MarginalZeroBelow(amount, c, bs[1..]);
    }
  }

  lemma {:induction false} WalkIsMarginalAbove(amount: real, lower: real, bs: seq<Bracket>)
    requires Ascending(lower, bs) && amount > lower
    ensures TaxWalk(amount - lower, lower, bs).tax == Marginal(amount, lower, bs)
    decreases |bs|
  {
    if bs != [] {
      var taxed := Taxed(amount - lower, lower, bs[0].limit);
      match bs[0].limit
      case Unbounded =>
        assert bs[1..] == [];
        assert taxed * bs[0].rate == BracketTax(amount, lower, bs[0]);
      case Bounded(c) =>
        WalkStep(amount, lower, c, bs[0]);
        assert Marginal(amount, lower, bs) == BracketTax(amount, lower, bs[0]) + Marginal(amount, c, bs[1..]);
        if amount <= c {
          MarginalZeroBelow(amount, c, bs[1..]);
        } else {
          WalkIsMarginalAbove(amount, c, bs[1..]);
          var w := TaxWalk(amount - c, c, bs[1..]);
          assert TaxWalk(amount - lower, lower, bs) == Walk(taxed * bs[0].rate + w.tax, w.leftover);
        }
    }
  }

  /** One bounded bracket of the walk taxes what the marginal formula
      taxes in it, and leaves what lies above its limit. */
  lemma WalkStep(amount: real, lower: real, c: real, b: Bracket)
    requires b.limit == Bounded(c) && lower < c && lower < amount
    ensures Taxed(amount - lower, lower, b.limit) * b.rate == BracketTax(amount, lower, b)
    ensures amount <= c ==> (amount - lower) - Taxed(amount - lower, lower, b.limit) == 0.0
    ensures amount > c ==> (amount - lower) - Taxed(amount - lower, lower, b.limit) == amount - c
  {
  }

  /** progressive_tax computes exactly the marginal formula on an ascending table. */
  lemma WalkIsMarginal(amount: real, bs: seq<Bracket>)
    requires Ascending(0.0, bs) && amount >= 0.0
    ensures ProgressiveTaxOf(amount, bs) == Marginal(amount, 0.0, bs)
  {
    if amount == 0.0 {
      MarginalZeroBelow(amount, 0.0, bs);
    } else {
      WalkIsMarginalAbove(amount, 0.0, bs);
    }
  }

  /** A bracket-walk on a table with a catch-all taxes the whole amount. */
  lemma {:induction false} WalkConsumesAll(remaining: real, lower: real, bs: seq<Bracket>)
    requires remaining >= 0.0 && EndsUnbounded(bs)
    ensures TaxWalk(remaining, lower, bs).leftover == 0.0
    decreases |bs|
  {
    var taxed := Taxed(remaining, lower, bs[0].limit);
    if remaining - taxed > 0.0 {
      WalkConsumesAll(remaining - taxed, NextLower(lower, bs[0].limit), bs[1..]);
    }
  }

  lemma ScaleMono(r: real, x: real, y: real)
    requires 0.0 <= r && x <= y
    ensures r * x <= r * y
  {
  }

  lemma BracketTaxMonotone(a: real, b: real, lower: real, br: Bracket)
    requires a <= b && 0.0 <= br.rate
    ensures BracketTax(a, lower, br) <= BracketTax(b, lower, br)
  {
    assert Slice(a, lower, br.limit) <= Slice(b, lower, br.limit);
    ScaleMono(br.rate, Slice(a, lower, br.limit), Slice(b, lower, br.limit));
  }

  lemma {:induction false} MarginalMonotone(a: real, b: real, lower: real, bs: seq<Bracket>)
    requires a <= b
    requires forall i :: 0 <= i < |bs| ==> 0.0 <= bs[i].rate
    ensures Marginal(a, lower, bs) <= Marginal(b, lower, bs)
    decreases |bs|
  {
    if bs != [] {
      var tail := bs[1..];
      assert forall i :: 0 <= i < |tail| ==> tail[i] == bs[i + 1];
      BracketTaxMonotone(a, b, lower, bs[0]);
      MarginalMonotone(a, b, NextLower(lower, bs[0].limit), tail);
    }
  }

  /** Every rate lies in [lo, hi], so the tax lies between lo and hi times
      the part of `amount` above `lower`. */
  lemma {:induction false} MarginalBetweenRates(amount: real, lower: real, bs: seq<Bracket>, lo: real, hi: real)
    requires Ascending(lower, bs) && EndsUnbounded(bs)
    requires forall i :: 0 <= i < |bs| ==> lo <= bs[i].rate <= hi
    ensures lo * Max(amount - lower, 0.0) <= Marginal(amount, lower, bs) <= hi * Max(amount - lower, 0.0)
    decreases |bs|
  {
    match bs[0].limit
    case Unbounded =>
      assert bs[1..] == [];
      RateBetween(Slice(amount, lower, bs[0].limit), lo, bs[0].rate, hi);
    case Bounded(c) =>
      assert |bs| > 1;
      var tail := bs[1..];
      assert forall i :: 0 <= i < |tail| ==> tail[i] == bs[i + 1];
      MarginalBetweenRates(amount, c, tail, lo, hi);
      BoundedBracketBetween(amount, lower, c, bs[0], Marginal(amount, c, tail), lo, hi);
  }

  /** One bounded bracket followed by a tail taxed between `lo` and `hi`:
      the two together are taxed between `lo` and `hi`. */
  lemma BoundedBracketBetween(amount: real, lower: real, c: real, b: Bracket, restTax: real, lo: real, hi: real)
    requires b.limit == Bounded(c) && lower < c && lo <= b.rate <= hi
    requires lo * Max(amount - c, 0.0) <= restTax <= hi * Max(amount - c, 0.0)
    ensures lo * Max(amount - lower, 0.0) <= BracketTax(amount, lower, b) + restTax <= hi * Max(amount - lower, 0.0)
  {
    var s := Slice(amount, lower, b.limit);
    RateBetween(s, lo, b.rate, hi);
    SumBetween(lo, hi, s, Max(amount - c, 0.0), Max(amount - lower, 0.0), BracketTax(amount, lower, b), restTax);
  }

  lemma RateBetween(s: real, lo: real, r: real, hi: real)
    requires 0.0 <= s && lo <= r <= hi
    ensures lo * s <= r * s <= hi * s
  {
    ScaleMono(s, lo, r);
    ScaleMono(s, r, hi);
  }

  /** Bounds on two parts add up to bounds on the whole. */
  lemma SumBetween(lo: real, hi: real, s: real, above: real, whole: real, m: real, rest: real)
    requires whole == s + above
    requires lo * s <= m <= hi * s && lo * above <= rest <= hi * above
    ensures lo * whole <= m + rest <= hi * whole
  {
    assert lo * whole == lo * s + lo * above;
    assert hi * whole == hi * s + hi * above;
  }

  /** The tax is non-decreasing in the amount (for non-negative rates). */
  lemma TaxMonotone(a: real, b: real, bs: seq<Bracket>)
    requires 0.0 <= a <= b && Ascending(0.0, bs)
    requires forall i :: 0 <= i < |bs| ==> 0.0 <= bs[i].rate
    ensures ProgressiveTaxOf(a, bs) <= ProgressiveTaxOf(b, bs)
  {
    WalkIsMarginal(a, bs);
    WalkIsMarginal(b, bs);
    MarginalMonotone(a, b, 0.0, bs);
  }

  /** amount * first rate <= tax <= amount * last rate, so the tax is never negative. */
  lemma TaxBetweenFirstAndLastRate(amount: real, bs: seq<Bracket>)
    requires TaxTable(bs) && amount >= 0.0
    ensures amount * bs[0].rate <= ProgressiveTaxOf(amount, bs) <= amount * bs[|bs| - 1].rate
    ensures ProgressiveTaxOf(amount, bs) >= 0.0
  {
    WalkIsMarginal(amount, bs);
    MarginalBetweenRates(amount, 0.0, bs, bs[0].rate, bs[|bs| - 1].rate);
    ScaleMono(amount, 0.0, bs[0].rate);
  }

  // ---------------------------------------------------------------------
  // The evaluator

  /** `progressive_tax`: walk the brackets in order, taxing each bracket's
      span of what remains at that bracket's rate, and stop once nothing
      remains. `leftover` is the value of `remaining` when the loop ends. */
  method ProgressiveTax(amount: real, brackets: seq<Bracket>) returns (tax: real, ghost leftover: real)
    ensures tax == ProgressiveTaxOf(amount, brackets)
    ensures leftover == TaxWalk(amount, 0.0, brackets).leftover
    ensures amount == 0.0 ==> tax == 0.0
    ensures amount >= 0.0 && EndsUnbounded(brackets) ==> leftover == 0.0
  {
    tax := 0.0;
    var remaining := amount;
    var lower := 0.0;
    var i := 0;
    while i < |brackets|
      invariant 0 <= i <= |brackets|
      invariant tax + TaxWalk(remaining, lower, brackets[i..]).tax == ProgressiveTaxOf(amount, brackets)
      invariant TaxWalk(remaining, lower, brackets[i..]).leftover == TaxWalk(amount, 0.0, brackets).leftover
    {
      var bracket := brackets[i];
      var taxed := Taxed(remaining, lower, bracket.limit);
      assert brackets[i..][1..] == brackets[i + 1..];
      tax := tax + taxed * bracket.rate;
      remaining := remaining - taxed;
      lower := NextLower(lower, bracket.limit);
      i := i + 1;
      if remaining <= 0.0 {
        break;
      }
    }
    leftover := remaining;
    if amount >= 0.0 && EndsUnbounded(brackets) {
      WalkConsumesAll(amount, 0.0, brackets);
    }
  }
}
