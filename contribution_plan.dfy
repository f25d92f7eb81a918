/** One job's paychecks under a contribution election: the employee's
    deferrals, the capped employer match, withholding and running totals. */
module ContributionPlan {
  import opened Wrappers
  import opened TaxTables
  import PaycheckSchedule

  type Day = PaycheckSchedule.Day

  /** The election, as percentages of gross; `None` is a nil percentage. */
  datatype ContributionInput = ContributionInput(
    traditionalPct: Option<real>,
    rothPct: Option<real>,
    afterTaxPct: Option<real>,
    hsaPct: Option<real>)

  /** One processed paycheck. */
  datatype PaycheckResult = PaycheckResult(
    date: Day,
    gross: real,
    employeeTraditional: real,
    employeeRoth: real,
    employeeAfterTax: real,
    employeeHsa: real,
    employerMatch: real,
    employerHsa: real,
    federalTax: real,
    stateTax: real,
    netCash: real,
    ytdEmployee401k: real,
    ytdHsa: real,
    ytdMatch: real)

  /** The constructor's arguments, which are never changed afterwards.
      `employerMatchCap` is a fraction of gross (0.06), not a percentage. */
  datatype Plan = Plan(
    gross: real,
    input: ContributionInput,
    employerMatchRate: real,
    employerMatchCap: real,
    employerHsa: real)

  /** Withholding annualises a paycheck with this many pay periods,
      whatever the schedule's real frequency. */
  const PayPeriods: real := 26.0

  /** `pct`: a percentage as a fraction, and nil as 0. */
  function Pct(value: Option<real>): (f: real)
    ensures value.None? ==> f == 0.0
    ensures value.Some? ==> f * 100.0 == value.value
  {
    if value.None? then 0.0 else value.value / 100.0
  }

  /** Annual tax on `taxableWages` per paycheck, less `deduction`, spread
      back over the pay periods. */
  function Withholding(taxableWages: real, deduction: real, brackets: seq<Bracket>): real {
    ProgressiveTaxOf(Max(taxableWages * PayPeriods - deduction, 0.0), brackets) / PayPeriods
  }

  function FederalWithholding(taxableWages: real): real {
    Withholding(taxableWages, FederalStandardDeduction, FederalBrackets)
  }

  function StateWithholding(taxableWages: real): real {
    Withholding(taxableWages, CaStandardDeduction, CaBrackets)
  }

  /** The employee's share of gross for one election. */
  function Deferral(pct: Option<real>, gross: real): real {
    Pct(pct) * gross
  }

  /** Gross less the pre-tax 401(k) and HSA deferrals: the only input of
      withholding. */
  function TaxableWages(gross: real, input: ContributionInput): real {
    gross - Deferral(input.traditionalPct, gross) - Deferral(input.hsaPct, gross)
  }

  /** The capped match: pre-tax plus Roth deferrals, at most `cap` of
      gross, times the match rate. */
  function EmployerMatch(plan: Plan): real {
    Min(Deferral(plan.input.traditionalPct, plan.gross) + Deferral(plan.input.rothPct, plan.gross),
        plan.gross * plan.employerMatchCap) * plan.employerMatchRate
  }

  /** Gross less every employee deduction and both withholdings. Neither
      the employer match nor the employer HSA amount takes part. */
  function NetCash(gross: real, input: ContributionInput): real {
    var taxable := TaxableWages(gross, input);
    gross - Deferral(input.traditionalPct, gross) - Deferral(input.rothPct, gross)
    - Deferral(input.afterTaxPct, gross) - Deferral(input.hsaPct, gross)
    - FederalWithholding(taxable) - StateWithholding(taxable)
  }

  /** The paycheck of the plan paid on `date`, once the three year-to-date
      totals through it are known: every other figure is the same on each
      paycheck. */
  function PaycheckAt(plan: Plan, date: Day, ytd401k: real, ytdHsa: real, ytdMatch: real): PaycheckResult {
    var gross, input := plan.gross, plan.input;
    PaycheckResult(date, gross,
                   Deferral(input.traditionalPct, gross), Deferral(input.rothPct, gross),
                   Deferral(input.afterTaxPct, gross), Deferral(input.hsaPct, gross),
                   EmployerMatch(plan), plan.employerHsa,
                   FederalWithholding(TaxableWages(gross, input)), StateWithholding(TaxableWages(gross, input)),
                   NetCash(gross, input),
                   ytd401k, ytdHsa, ytdMatch)
  }

  /** What one paycheck adds to the employee 401(k) total. */
  function Employee401kPerCheck(plan: Plan): real {
    Deferral(plan.input.traditionalPct, plan.gross) + Deferral(plan.input.rothPct, plan.gross)
    + Deferral(plan.input.afterTaxPct, plan.gross)
  }

  /** What one paycheck adds to the HSA total, employer part included. */
  function HsaPerCheck(plan: Plan): real {
    Deferral(plan.input.hsaPct, plan.gross) + plan.employerHsa
  }

  /** The sum of one amount over a list of paychecks. */
  function Total(rs: seq<PaycheckResult>, amount: PaycheckResult -> real): real {
    if rs == [] then 0.0 else Total(rs[..|rs| - 1], amount) + amount(rs[|rs| - 1])
  }

  /** What a paycheck puts into the employee 401(k) total: pre-tax, Roth and after-tax. */
  function Employee401kAmount(p: PaycheckResult): real {
    p.employeeTraditional + p.employeeRoth + p.employeeAfterTax
  }

  /** What a paycheck puts into the HSA, employer part included. */
  function HsaAmount(p: PaycheckResult): real {
    p.employeeHsa + p.employerHsa
  }

  function MatchAmount(p: PaycheckResult): real {
    p.employerMatch
  }

  /** `rs` is what `process_paychecks` returns for `dates`: the last
      paycheck is the plan's paycheck for the last date, carrying the totals
      over all of `rs`, and the paychecks before it are the run for the
      dates before it. */
  ghost predicate IsPaycheckRun(plan: Plan, dates: seq<Day>, rs: seq<PaycheckResult>)
    decreases |rs|
  {
    && |rs| == |dates|
    && (rs != [] ==>
          && IsPaycheckRun(plan, dates[..|dates| - 1], rs[..|rs| - 1])
          && rs[|rs| - 1] == PaycheckAt(plan, dates[|dates| - 1], Total(rs, Employee401kAmount),
                                        Total(rs, HsaAmount), Total(rs, MatchAmount)))
  }

  /** `progressive_tax` on a paycheck's taxable wages: annualised over the
      pay periods, less the deduction and clamped at 0, then divided back. */
  method Withhold(taxableWages: real, deduction: real, brackets: seq<Bracket>) returns (tax: real)
    ensures tax == Withholding(taxableWages, deduction, brackets)
  {
    var annualized := taxableWages * PayPeriods;
    var annualTax, _ := ProgressiveTax(Max(annualized - deduction, 0.0), brackets);
    tax := annualTax / PayPeriods;
  }

  /** The body of the `dates.map` block: one paycheck, given the three
      year-to-date totals before it, which the paycheck then carries with
      its own amounts added. */
  method ProcessPaycheck(plan: Plan, date: Day, ytd401kBefore: real, ytdHsaBefore: real, ytdMatchBefore: real)
    returns (paycheck: PaycheckResult)
    ensures paycheck == PaycheckAt(plan, date, ytd401kBefore + Employee401kPerCheck(plan),
                                   ytdHsaBefore + HsaPerCheck(plan), ytdMatchBefore + EmployerMatch(plan))
  {
    var trad := Pct(plan.input.traditionalPct) * plan.gross;
    var roth := Pct(plan.input.rothPct) * plan.gross;
    var afterTax := Pct(plan.input.afterTaxPct) * plan.gross;
    var hsa := Pct(plan.input.hsaPct) * plan.gross;
    assert trad == Deferral(plan.input.traditionalPct, plan.gross);
    assert roth == Deferral(plan.input.rothPct, plan.gross);
    assert afterTax == Deferral(plan.input.afterTaxPct, plan.gross);
    assert hsa == Deferral(plan.input.hsaPct, plan.gross);

    var matchable := Min(trad + roth, plan.gross * plan.employerMatchCap);
    var employerMatch := matchable * plan.employerMatchRate;
    assert employerMatch == EmployerMatch(plan);

    var ytd401k := ytd401kBefore + trad + roth + afterTax;
    var ytdHsa := ytdHsaBefore + hsa + plan.employerHsa;
    var ytdMatch := ytdMatchBefore + employerMatch;

    var taxable := plan.gross - trad - hsa;
    assert taxable == TaxableWages(plan.gross, plan.input);
    var federalTax := Withhold(taxable, FederalStandardDeduction, FederalBrackets);
    var stateTax := Withhold(taxable, CaStandardDeduction, CaBrackets);

    var netCash := plan.gross - trad - roth - afterTax - hsa - federalTax - stateTax;
    assert netCash == NetCash(plan.gross, plan.input);

    paycheck := PaycheckResult(date, plan.gross, trad, roth, afterTax, hsa,
                               employerMatch, plan.employerHsa, federalTax, stateTax, netCash,
                               ytd401k, ytdHsa, ytdMatch);
  }

  /** `process_paychecks`: one result per date, in order, with the three
      year-to-date accumulators threaded through the loop. Because the
      accumulators start at 0 on every call, the output is a function of
      the plan and the dates alone (`PaycheckRunClosedForm`). */
  method ProcessPaychecks(plan: Plan, dates: seq<Day>) returns (results: seq<PaycheckResult>)
    ensures IsPaycheckRun(plan, dates, results)
  {
    var ytd401k, ytdHsa, ytdMatch := 0.0, 0.0, 0.0;
    results := [];
    for i := 0 to |dates|
      invariant IsPaycheckRun(plan, dates[..i], results)
      invariant ytd401k == Total(results, Employee401kAmount)
      invariant ytdHsa == Total(results, HsaAmount)
      invariant ytdMatch == Total(results, MatchAmount)
    {
      var paycheck := ProcessPaycheck(plan, dates[i], ytd401k, ytdHsa, ytdMatch);
      ytd401k, ytdHsa, ytdMatch := paycheck.ytdEmployee401k, paycheck.ytdHsa, paycheck.ytdMatch;
      var before := results;
      results := results + [paycheck];
      assert results[..|results| - 1] == before;
      assert dates[..i + 1][..i] == dates[..i];
    }
    assert dates[..|dates|] == dates;
  }

  /** Every paycheck of a run carries the plan's per-paycheck amounts. */
  lemma {:induction false} RunAmounts(plan: Plan, dates: seq<Day>, rs: seq<PaycheckResult>)
    requires IsPaycheckRun(plan, dates, rs)
    ensures forall k :: 0 <= k < |rs| ==>
              && rs[k].employeeTraditional == Deferral(plan.input.traditionalPct, plan.gross)
              && rs[k].employeeRoth == Deferral(plan.input.rothPct, plan.gross)
              && rs[k].employeeAfterTax == Deferral(plan.input.afterTaxPct, plan.gross)
              && rs[k].employeeHsa == Deferral(plan.input.hsaPct, plan.gross)
              && rs[k].employerMatch == EmployerMatch(plan)
              && rs[k].employerHsa == plan.employerHsa
    ensures forall k :: 0 <= k < |rs| ==>
              && Employee401kAmount(rs[k]) == Employee401kPerCheck(plan)
              && HsaAmount(rs[k]) == HsaPerCheck(plan)
              && MatchAmount(rs[k]) == EmployerMatch(plan)
    decreases |rs|
  {
    if rs != [] {
      var n := |rs|;
      RunAmounts(plan, dates[..n - 1], rs[..n - 1]);
      assert forall k :: 0 <= k < n - 1 ==> rs[k] == rs[..n - 1][k];
    }
  }

  /** `n` paychecks' worth of a per-paycheck amount, added up one
      paycheck at a time. */
  function Times(n: nat, c: real): real {
    if n == 0 then 0.0 else Times(n - 1, c) + c
  }

  /** ... which is `n` times the amount. */
  lemma {:induction false} TimesIsProduct(n: nat, c: real)
    ensures Times(n, c) == n as real * c
  {
    if n > 0 {
      TimesIsProduct(n - 1, c);
      assert (n - 1) as real * c + c == n as real * c;
    }
  }

  /** A total of an amount that is the same on every paycheck. */
  lemma {:induction false} TotalOfConstant(rs: seq<PaycheckResult>, amount: PaycheckResult -> real, c: real)
    requires forall k :: 0 <= k < |rs| ==> amount(rs[k]) == c
    ensures Total(rs, amount) == Times(|rs|, c)
    decreases |rs|
  {
    if rs != [] {
      var front := rs[..|rs| - 1];
      assert forall k :: 0 <= k < |front| ==> front[k] == rs[k];
      TotalOfConstant(front, amount, c);
    }
  }

  /** Each year-to-date total over a run is the number of paychecks times
      the per-paycheck amount. */
  lemma RunTotals(plan: Plan, dates: seq<Day>, rs: seq<PaycheckResult>)
    requires IsPaycheckRun(plan, dates, rs)
    ensures Total(rs, Employee401kAmount) == Times(|rs|, Employee401kPerCheck(plan))
    ensures Total(rs, HsaAmount) == Times(|rs|, HsaPerCheck(plan))
    ensures Total(rs, MatchAmount) == Times(|rs|, EmployerMatch(plan))
  {
    RunAmounts(plan, dates, rs);
    TotalsOfPlanAmounts(plan, rs);
  }

  /** The three totals over paychecks that each carry the plan's amounts. */
  lemma TotalsOfPlanAmounts(plan: Plan, rs: seq<PaycheckResult>)
    requires forall k :: 0 <= k < |rs| ==>
               && Employee401kAmount(rs[k]) == Employee401kPerCheck(plan)
               && HsaAmount(rs[k]) == HsaPerCheck(plan)
               && MatchAmount(rs[k]) == EmployerMatch(plan)
    ensures Total(rs, Employee401kAmount) == Times(|rs|, Employee401kPerCheck(plan))
    ensures Total(rs, HsaAmount) == Times(|rs|, HsaPerCheck(plan))
    ensures Total(rs, MatchAmount) == Times(|rs|, EmployerMatch(plan))
  {
    TotalOfConstant(rs, Employee401kAmount, Employee401kPerCheck(plan));
    TotalOfConstant(rs, HsaAmount, HsaPerCheck(plan));
    TotalOfConstant(rs, MatchAmount, EmployerMatch(plan));
  }

  /** The closed form of a run: paycheck `k` (from 0) is the plan's
      paycheck for `dates[k]`, and each year-to-date field is `k + 1` times
      its per-paycheck amount. */
  lemma {:induction false} PaycheckRunClosedForm(plan: Plan, dates: seq<Day>, rs: seq<PaycheckResult>)
    requires IsPaycheckRun(plan, dates, rs)
    ensures |rs| == |dates|
    ensures forall k :: 0 <= k < |rs| ==>
              rs[k] == PaycheckAt(plan, dates[k], Times(k + 1, Employee401kPerCheck(plan)),
                                  Times(k + 1, HsaPerCheck(plan)), Times(k + 1, EmployerMatch(plan)))
    decreases |rs|
  {
    if rs != [] {
      var n := |rs|;
      var front, frontDates := rs[..n - 1], dates[..n - 1];
      PaycheckRunClosedForm(plan, frontDates, front);
      forall k | 0 <= k < n
        ensures rs[k] == PaycheckAt(plan, dates[k], Times(k + 1, Employee401kPerCheck(plan)),
                                    Times(k + 1, HsaPerCheck(plan)), Times(k + 1, EmployerMatch(plan)))
      {
        if k < n - 1 {
          assert rs[k] == front[k] && dates[k] == frontDates[k];
        } else {
          LastPaycheckClosedForm(plan, dates, rs);
        }
      }
    }
  }

  /** The last paycheck of a run carries `|rs|` times each per-paycheck amount. */
  lemma LastPaycheckClosedForm(plan: Plan, dates: seq<Day>, rs: seq<PaycheckResult>)
    requires IsPaycheckRun(plan, dates, rs) && rs != []
    ensures rs[|rs| - 1] == PaycheckAt(plan, dates[|rs| - 1], Times(|rs|, Employee401kPerCheck(plan)),
                                       Times(|rs|, HsaPerCheck(plan)), Times(|rs|, EmployerMatch(plan)))
  {
    LastOfRun(plan, dates, rs);
    RunTotals(plan, dates, rs);
  }

  /** The last paycheck of a run carries the run's totals. */
  lemma LastOfRun(plan: Plan, dates: seq<Day>, rs: seq<PaycheckResult>)
    requires IsPaycheckRun(plan, dates, rs) && rs != []
    ensures rs[|rs| - 1] == PaycheckAt(plan, dates[|rs| - 1], Total(rs, Employee401kAmount),
                                       Total(rs, HsaAmount), Total(rs, MatchAmount))
  {
  }

  /** Two runs of the same plan over the same dates are equal. */
  lemma PaycheckRunUnique(plan: Plan, dates: seq<Day>, r1: seq<PaycheckResult>, r2: seq<PaycheckResult>)
    requires IsPaycheckRun(plan, dates, r1) && IsPaycheckRun(plan, dates, r2)
    ensures r1 == r2
  {
    PaycheckRunClosedForm(plan, dates, r1);
    PaycheckRunClosedForm(plan, dates, r2);
  }

  /** Withholding is never negative: the taxed income is clamped at 0 and
      both tables have non-negative rates. */
  lemma WithholdingNonNegative(taxableWages: real)
    ensures FederalWithholding(taxableWages) >= 0.0
    ensures StateWithholding(taxableWages) >= 0.0
  {
    TablesAreWellFormed();
    TaxBetweenFirstAndLastRate(Max(taxableWages * PayPeriods - FederalStandardDeduction, 0.0), FederalBrackets);
    TaxBetweenFirstAndLastRate(Max(taxableWages * PayPeriods - CaStandardDeduction, 0.0), CaBrackets);
  }

  /** Less taxable pay never means more withholding; so raising the pre-tax
      or HSA election never raises it. */
  lemma WithholdingMonotone(a: real, b: real)
    requires a <= b
    ensures FederalWithholding(a) <= FederalWithholding(b)
    ensures StateWithholding(a) <= StateWithholding(b)
  {
    TablesAreWellFormed();
    WithholdingMonotoneIn(a, b, FederalStandardDeduction, FederalBrackets);
    WithholdingMonotoneIn(a, b, CaStandardDeduction, CaBrackets);
  }

  lemma WithholdingMonotoneIn(a: real, b: real, deduction: real, brackets: seq<Bracket>)
    requires a <= b && TaxTable(brackets)
    ensures Withholding(a, deduction, brackets) <= Withholding(b, deduction, brackets)
  {
    assert forall i :: 0 <= i < |brackets| ==> 0.0 <= brackets[i].rate by {
      forall i | 0 <= i < |brackets| ensures 0.0 <= brackets[i].rate {
        assert brackets[0].rate <= brackets[i].rate || i == 0;
      }
    }
    var x, y := Max(a * PayPeriods - deduction, 0.0), Max(b * PayPeriods - deduction, 0.0);
    assert x <= y;
    TaxMonotone(x, y, brackets);
  }

  /** Withholding sees only gross less pre-tax and HSA deferrals: the Roth
      and after-tax elections do not change it. */
  lemma WithholdingIgnoresRothAndAfterTax(gross: real, input: ContributionInput, roth: Option<real>, afterTax: Option<real>)
    ensures var other := input.(rothPct := roth, afterTaxPct := afterTax);
            && TaxableWages(gross, other) == TaxableWages(gross, input)
            && FederalWithholding(TaxableWages(gross, other)) == FederalWithholding(TaxableWages(gross, input))
            && StateWithholding(TaxableWages(gross, other)) == StateWithholding(TaxableWages(gross, input))
  {
  }

  /** The match is on pre-tax plus Roth deferrals, capped at `cap` of gross,
      times the rate: it never exceeds `gross * cap * rate`, and the
      after-tax election does not change it. */
  lemma MatchIsCapped(plan: Plan, afterTax: Option<real>)
    requires plan.employerMatchRate >= 0.0
    ensures EmployerMatch(plan) <= plan.gross * plan.employerMatchCap * plan.employerMatchRate
    ensures EmployerMatch(plan) <= (Deferral(plan.input.traditionalPct, plan.gross)
                                    + Deferral(plan.input.rothPct, plan.gross)) * plan.employerMatchRate
    ensures EmployerMatch(plan.(input := plan.input.(afterTaxPct := afterTax))) == EmployerMatch(plan)
  {
    var deferred := Deferral(plan.input.traditionalPct, plan.gross) + Deferral(plan.input.rothPct, plan.gross);
    var m := Min(deferred, plan.gross * plan.employerMatchCap);
    ScaleMono(plan.employerMatchRate, m, plan.gross * plan.employerMatchCap);
    ScaleMono(plan.employerMatchRate, m, deferred);
  }

  /** With non-negative elections and gross, net cash never exceeds gross,
      and it falls short of gross by exactly the employee deductions and the
      two withholdings. */
  lemma NetCashAccounting(gross: real, input: ContributionInput)
    ensures var taxable := TaxableWages(gross, input);
            NetCash(gross, input) + Deferral(input.traditionalPct, gross) + Deferral(input.rothPct, gross)
            + Deferral(input.afterTaxPct, gross) + Deferral(input.hsaPct, gross)
            + FederalWithholding(taxable) + StateWithholding(taxable) == gross
    ensures (&& gross >= 0.0 && Pct(input.traditionalPct) >= 0.0 && Pct(input.rothPct) >= 0.0
             && Pct(input.afterTaxPct) >= 0.0 && Pct(input.hsaPct) >= 0.0)
            ==> NetCash(gross, input) <= gross
  {
    var taxable := TaxableWages(gross, input);
    var federal, state := FederalWithholding(taxable), StateWithholding(taxable);
    var deferrals := Deferral(input.traditionalPct, gross) + Deferral(input.rothPct, gross)
                     + Deferral(input.afterTaxPct, gross) + Deferral(input.hsaPct, gross);
    assert NetCash(gross, input) == gross - deferrals - federal - state;
    WithholdingNonNegative(taxable);
    if gross >= 0.0 && Pct(input.traditionalPct) >= 0.0 && Pct(input.rothPct) >= 0.0
       && Pct(input.afterTaxPct) >= 0.0 && Pct(input.hsaPct) >= 0.0 {
      DeferralNonNegative(input.traditionalPct, gross);
      DeferralNonNegative(input.rothPct, gross);
      DeferralNonNegative(input.afterTaxPct, gross);
      DeferralNonNegative(input.hsaPct, gross);
    }
  }

  lemma DeferralNonNegative(pct: Option<real>, gross: real)
    requires gross >= 0.0 && Pct(pct) >= 0.0
    ensures Deferral(pct, gross) >= 0.0
  {
    ScaleMono(gross, 0.0, Pct(pct));
  }

  /** The worked example: gross 4000, 10% pre-tax, 5% Roth, 2% HSA, match
      50% up to 6% of gross. */
  lemma ExamplePaycheck(date: Day)
    ensures var plan := Plan(4000.0, ContributionInput(Some(10.0), Some(5.0), Some(0.0), Some(2.0)), 0.5, 0.06, 100.0);
            var p := PaycheckAt(plan, date, 0.0, 0.0, 0.0);
            && p.employeeTraditional == 400.0 && p.employeeRoth == 200.0 && p.employerMatch == 120.0
            && p.netCash < 4000.0
  {
    var input := ContributionInput(Some(10.0), Some(5.0), Some(0.0), Some(2.0));
    assert Deferral(input.traditionalPct, 4000.0) == 400.0;
    assert Deferral(input.rothPct, 4000.0) == 200.0;
    assert Deferral(input.afterTaxPct, 4000.0) == 0.0;
    assert Deferral(input.hsaPct, 4000.0) == 80.0;
    WithholdingNonNegative(TaxableWages(4000.0, input));
    NetCashAccounting(4000.0, input);
  }
}
