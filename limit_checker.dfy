/** The year-end check of a list of paychecks against the three annual
    limits: employee 401(k) deferrals, HSA contributions and total annual
    additions. */
module LimitChecker {
  import opened TaxTables
  import opened ContributionPlan

  /** Which limit a warning is about, in the order the checks run. */
  datatype LimitKind = Employee401kLimitKind | HsaFamilyLimitKind | AnnualAdditionsLimitKind

  /** A warning: the limit exceeded and the amount by which it is exceeded
      (the message text and its rounding to cents are not modelled). */
  datatype Warning = Warning(kind: LimitKind, excess: real)

  datatype LimitResult = LimitResult(withinLimits: bool, warnings: seq<Warning>)

  /** Employee deferrals that count toward the 401(k) limit: pre-tax and Roth. */
  function ElectiveAmount(p: PaycheckResult): real {
    p.employeeTraditional + p.employeeRoth
  }

  /** Everything that counts as an annual addition: every employee 401(k)
      deferral and the employer match. */
  function AdditionsAmount(p: PaycheckResult): real {
    p.employeeTraditional + p.employeeRoth + p.employeeAfterTax + p.employerMatch
  }

  /** The statutory amount of each limit. */
  function LimitOf(kind: LimitKind): real {
    match kind
    case Employee401kLimitKind => Employee401kLimit
    case HsaFamilyLimitKind => HsaFamilyLimit
    case AnnualAdditionsLimitKind => AnnualAdditionsLimit
  }

  /** The year's total that each limit is compared with. */
  function TotalOf(kind: LimitKind, paychecks: seq<PaycheckResult>): real {
    match kind
    case Employee401kLimitKind => Total(paychecks, ElectiveAmount)
    case HsaFamilyLimitKind => Total(paychecks, HsaAmount)
    case AnnualAdditionsLimitKind => Total(paychecks, AdditionsAmount)
  }

  /** Position of a check in `validate`. */
  function Rank(kind: LimitKind): nat {
    match kind
    case Employee401kLimitKind => 0
    case HsaFamilyLimitKind => 1
    case AnnualAdditionsLimitKind => 2
  }

  /** The warning for one limit: none when the total is at or under it. */
  function WarningFor(kind: LimitKind, paychecks: seq<PaycheckResult>): seq<Warning> {
    if TotalOf(kind, paychecks) > LimitOf(kind)
    then [Warning(kind, TotalOf(kind, paychecks) - LimitOf(kind))]
    else []
  }

  /** The warnings `validate` collects, in the order it checks the limits. */
  function Warnings(paychecks: seq<PaycheckResult>): seq<Warning> {
    WarningFor(Employee401kLimitKind, paychecks)
    + WarningFor(HsaFamilyLimitKind, paychecks)
    + WarningFor(AnnualAdditionsLimitKind, paychecks)
  }

  /** `validate`: the three sums, then one conditional append per limit. */
  method Validate(paychecks: seq<PaycheckResult>) returns (r: LimitResult)
    ensures r.warnings == Warnings(paychecks)
    ensures r.withinLimits <==> r.warnings == []
  {
    var warnings: seq<Warning> := [];
    var employeeTotal := Total(paychecks, ElectiveAmount);
    var hsaTotal := Total(paychecks, HsaAmount);
    var additionsTotal := Total(paychecks, AdditionsAmount);

    if employeeTotal > Employee401kLimit {
      warnings := warnings + [Warning(Employee401kLimitKind, employeeTotal - Employee401kLimit)];
    }
    if hsaTotal > HsaFamilyLimit {
      warnings := warnings + [Warning(HsaFamilyLimitKind, hsaTotal - HsaFamilyLimit)];
    }
    if additionsTotal > AnnualAdditionsLimit {
      warnings := warnings + [Warning(AnnualAdditionsLimitKind, additionsTotal - AnnualAdditionsLimit)];
    }
    r := LimitResult(warnings == [], warnings);
  }

  /** A warning is raised for a limit exactly when its total is strictly
      above it, and it carries the (positive) excess. */
  lemma WarningsExactlyForExceededLimits(paychecks: seq<PaycheckResult>)
    ensures forall kind :: TotalOf(kind, paychecks) > LimitOf(kind) <==>
                             exists i :: 0 <= i < |Warnings(paychecks)| && Warnings(paychecks)[i].kind == kind
    ensures forall w :: w in Warnings(paychecks) ==>
              && w.excess == TotalOf(w.kind, paychecks) - LimitOf(w.kind)
              && w.excess > 0.0
  {
    var ws := Warnings(paychecks);
    forall kind
      ensures TotalOf(kind, paychecks) > LimitOf(kind) <==> exists i :: 0 <= i < |ws| && ws[i].kind == kind
    {
      if TotalOf(kind, paychecks) > LimitOf(kind) {
        var before := match kind
          case Employee401kLimitKind => 0
          case HsaFamilyLimitKind => |WarningFor(Employee401kLimitKind, paychecks)|
          case AnnualAdditionsLimitKind => |ws| - 1;
        assert ws[before].kind == kind;
      }
    }
  }

  /** The paychecks are within limits exactly when every total is at or
      under its limit; there are at most three warnings, in the order
      401(k), HSA, annual additions; no paychecks draw no warning. */
  lemma WarningsOrderAndWithin(paychecks: seq<PaycheckResult>)
    ensures Warnings(paychecks) == [] <==> forall kind :: TotalOf(kind, paychecks) <= LimitOf(kind)
    ensures |Warnings(paychecks)| <= 3
    ensures paychecks == [] ==> Warnings(paychecks) == []
    ensures forall i, j :: 0 <= i < j < |Warnings(paychecks)| ==>
              Rank(Warnings(paychecks)[i].kind) < Rank(Warnings(paychecks)[j].kind)
  {
    if Warnings(paychecks) != [] {
      var k := Warnings(paychecks)[0].kind;
      assert TotalOf(k, paychecks) > LimitOf(k);
    }
  }

  /** A sum over paychecks splits at any point. */
  lemma {:induction false} TotalAppend(a: seq<PaycheckResult>, b: seq<PaycheckResult>, amount: PaycheckResult -> real)
    ensures Total(a + b, amount) == Total(a, amount) + Total(b, amount)
    decreases |b|
  {
    if b != [] {
      var ab := a + b;
      assert ab[..|ab| - 1] == a + b[..|b| - 1];
      assert ab[|ab| - 1] == b[|b| - 1];
      TotalAppend(a, b[..|b| - 1], amount);
    } else {
      assert a + b == a;
    }
  }

  /** Paychecks with no negative amounts never sum to a negative total. */
  lemma {:induction false} TotalNonNegative(paychecks: seq<PaycheckResult>, amount: PaycheckResult -> real)
    requires forall k :: 0 <= k < |paychecks| ==> amount(paychecks[k]) >= 0.0
    ensures Total(paychecks, amount) >= 0.0
    decreases |paychecks|
  {
    if paychecks != [] {
      var front := paychecks[..|paychecks| - 1];
      assert forall k :: 0 <= k < |front| ==> front[k] == paychecks[k];
      TotalNonNegative(front, amount);
    }
  }

  /** Adding paychecks with non-negative amounts never takes back a warning:
      every total only grows. */
  lemma MoreNonNegativePaychecksRaiseTotals(paychecks: seq<PaycheckResult>, more: seq<PaycheckResult>, kind: LimitKind)
    requires forall k :: 0 <= k < |more| ==>
               ElectiveAmount(more[k]) >= 0.0 && HsaAmount(more[k]) >= 0.0 && AdditionsAmount(more[k]) >= 0.0
    ensures TotalOf(kind, paychecks) <= TotalOf(kind, paychecks + more)
  {
    match kind
    case Employee401kLimitKind =>
      TotalAppend(paychecks, more, ElectiveAmount);
      TotalNonNegative(more, ElectiveAmount);
    case HsaFamilyLimitKind =>
      TotalAppend(paychecks, more, HsaAmount);
      TotalNonNegative(more, HsaAmount);
    case AnnualAdditionsLimitKind =>
      TotalAppend(paychecks, more, AdditionsAmount);
      TotalNonNegative(more, AdditionsAmount);
  }

  /** What one paycheck of `plan` adds to the total checked against each limit. */
  function PerCheckOf(kind: LimitKind, plan: Plan): real {
    match kind
    case Employee401kLimitKind =>
      Deferral(plan.input.traditionalPct, plan.gross) + Deferral(plan.input.rothPct, plan.gross)
    case HsaFamilyLimitKind => HsaPerCheck(plan)
    case AnnualAdditionsLimitKind => Employee401kPerCheck(plan) + EmployerMatch(plan)
  }

  /** For a run of one plan, each checked total is the number of paychecks
      times what one paycheck adds to it; so a plan stays within a limit
      exactly when that product does. */
  lemma RunLimitTotals(plan: Plan, dates: seq<Day>, rs: seq<PaycheckResult>)
    requires IsPaycheckRun(plan, dates, rs)
    ensures TotalOf(Employee401kLimitKind, rs) == Times(|rs|, PerCheckOf(Employee401kLimitKind, plan))
    ensures TotalOf(HsaFamilyLimitKind, rs) == Times(|rs|, PerCheckOf(HsaFamilyLimitKind, plan))
    ensures TotalOf(AnnualAdditionsLimitKind, rs) == Times(|rs|, PerCheckOf(AnnualAdditionsLimitKind, plan))
  {
    RunAmounts(plan, dates, rs);
    LimitTotalsOfPlanAmounts(plan, rs);
  }

  lemma LimitTotalsOfPlanAmounts(plan: Plan, rs: seq<PaycheckResult>)
    requires forall k :: 0 <= k < |rs| ==>
               && rs[k].employeeTraditional == Deferral(plan.input.traditionalPct, plan.gross)
               && rs[k].employeeRoth == Deferral(plan.input.rothPct, plan.gross)
               && rs[k].employeeAfterTax == Deferral(plan.input.afterTaxPct, plan.gross)
               && rs[k].employeeHsa == Deferral(plan.input.hsaPct, plan.gross)
               && rs[k].employerMatch == EmployerMatch(plan)
               && rs[k].employerHsa == plan.employerHsa
    ensures TotalOf(Employee401kLimitKind, rs) == Times(|rs|, PerCheckOf(Employee401kLimitKind, plan))
    ensures TotalOf(HsaFamilyLimitKind, rs) == Times(|rs|, PerCheckOf(HsaFamilyLimitKind, plan))
    ensures TotalOf(AnnualAdditionsLimitKind, rs) == Times(|rs|, PerCheckOf(AnnualAdditionsLimitKind, plan))
  {
    TotalOfConstant(rs, ElectiveAmount, PerCheckOf(Employee401kLimitKind, plan));
    TotalOfConstant(rs, HsaAmount, PerCheckOf(HsaFamilyLimitKind, plan));
    TotalOfConstant(rs, AdditionsAmount, PerCheckOf(AnnualAdditionsLimitKind, plan));
  }

  /** The test's example: one paycheck with 20000 pre-tax, 5000 Roth,
      2000 after-tax, 4000 + 500 HSA and a 10000 match is over the 401(k)
      limit by 2000 and under the other two, so it draws exactly one
      warning and is not within limits. */
  lemma ExampleOverLimits(p: PaycheckResult)
    requires p.employeeTraditional == 20000.0 && p.employeeRoth == 5000.0 && p.employeeAfterTax == 2000.0
    requires p.employeeHsa == 4000.0 && p.employerMatch == 10000.0 && p.employerHsa == 500.0
    ensures Warnings([p]) == [Warning(Employee401kLimitKind, 2000.0)]
  {
    assert [p][..0] == [];
    assert Total([p], ElectiveAmount) == ElectiveAmount(p);
    assert Total([p], HsaAmount) == HsaAmount(p);
    assert Total([p], AdditionsAmount) == AdditionsAmount(p);
  }
}
