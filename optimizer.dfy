/** The contribution optimizer: walks the household's jobs in order and
    gives each an election, filling the family HSA target first and then
    the employee 401(k) limit, never going under a job's match threshold. */
module Optimizer {
  import opened Wrappers
  import opened TaxTables
  import ContributionPlan

  type Day = ContributionPlan.Day

  /** A number as a job hash holds it: a Ruby Integer or Float. The two
      agree everywhere the optimizer uses them except in `/`, where two
      Integers divide to the floor of their quotient. */
  datatype Number = Integer(i: int) | Float(f: real) {
    function Value(): real {
      if Integer? then i as real else f
    }
  }

  /** One job as the optimizer receives it. `None` is a missing key. */
  datatype Job = Job(
    name: string,
    gross: Number,
    paychecks: seq<Day>,
    hsaAllowed: Number,
    matchThresholdPct: Option<real>,
    maxTraditionalPct: Option<real>,
    allowRoth: bool,
    preferredRothPct: Option<real>,
    allowAfterTax: bool,
    preferredAfterTaxPct: Option<real>,
    trueUp: bool)

  /** The three notes attached to every optimized job. */
  datatype Note =
    | MatchThresholdApplied(thresholdPct: real)
    | TrueUpAllowsFrontLoading
    | PerPaycheckMatchPreserved
    | AfterTaxAllowed
    | AfterTaxNotAllowed

  datatype OptimizedJob = OptimizedJob(jobName: string, contributionInput: ContributionPlan.ContributionInput, notes: seq<Note>)

  /** What is left of the two budgets after some jobs, with their elections. */
  datatype Outcome = Outcome(jobs: seq<OptimizedJob>, hsaLeft: real, employee401kLeft: real)

  function Gross(job: Job): real {
    job.gross.Value()
  }

  /** A job the optimizer can divide by: it has paychecks and a positive
      gross (otherwise the Ruby arithmetic yields Infinity or NaN, or
      raises ZeroDivisionError for an Integer gross of 0). */
  predicate Payable(job: Job) {
    |job.paychecks| > 0 && Gross(job) > 0.0
  }

  /** The number of paychecks, as a real. */
  function Count(job: Job): real {
    |job.paychecks| as real
  }

  /** The HSA dollars per paycheck: an even share of what is left of the
      target, but no more than the job allows. Never more than the share,
      so the job never takes more than what is left. */
  function HsaPerPaycheck(job: Job, remainingHsa: real): (perCheck: real)
    requires Payable(job)
    ensures perCheck <= job.hsaAllowed.Value()
    ensures perCheck * Count(job) <= remainingHsa
    ensures remainingHsa >= 0.0 && job.hsaAllowed.Value() >= 0.0 ==> perCheck >= 0.0
  {
    var share := remainingHsa / Count(job);
    assert share * Count(job) == remainingHsa;
    var perCheck := Min(share, job.hsaAllowed.Value());
    ScaleDown(perCheck, share, Count(job));
    perCheck
  }

  /** `hsa_per_check` as Ruby holds it: `Array#min` keeps the Float share
      unless the allowance is strictly below it, and then returns the
      allowance itself, Integer or Float. */
  function HsaPerCheck(job: Job, remainingHsa: real): (n: Number)
    requires Payable(job)
    ensures n.Value() == HsaPerPaycheck(job, remainingHsa)
    ensures n.Integer? ==> n == job.hsaAllowed
  {
    var share := remainingHsa / Count(job);
    if job.hsaAllowed.Value() < share then job.hsaAllowed else Float(share)
  }

  /** The HSA percentage the code intends: the per-paycheck dollars as a
      share of gross, so that percentage of gross gives them back. */
  function HsaPct(job: Job, perCheck: Number): (pct: real)
    requires Payable(job)
    ensures pct / 100.0 * Gross(job) == perCheck.Value()
  {
    perCheck.Value() / Gross(job) * 100.0
  }

  /** `hsa_per_check / job[:gross] * 100` as written: when both are
      Integers the division is Integer division, the floor of the
      quotient (the gross is positive, where Dafny's `/` is that floor).
      So it never exceeds the intended percentage and falls short of it by
      less than 100, and only when both numbers are Integers. */
  function HsaPctAsWritten(job: Job, perCheck: Number): (pct: real)
    requires Payable(job)
    ensures pct <= HsaPct(job, perCheck) < pct + 100.0
    ensures perCheck.Float? || job.gross.Float? ==> pct == HsaPct(job, perCheck)
  {
    if perCheck.Integer? && job.gross.Integer? then
      FloorBounds(perCheck.i, job.gross.i);
      ((perCheck.i / job.gross.i) * 100) as real
    else
      perCheck.Value() / Gross(job) * 100.0
  }

  /** Integer division by a positive divisor is the floor of the real quotient. */
  lemma FloorBounds(a: int, b: int)
    requires b > 0
    ensures (a / b) as real <= a as real / b as real < (a / b) as real + 1.0
  {
    var q, r := a / b, a % b;
    assert a as real == q as real * b as real + r as real;
    assert a as real / b as real == q as real + r as real / b as real;
    assert 0.0 <= r as real / b as real < 1.0;
  }

  /** The highest pre-tax percentage the job permits (100 when it sets none). */
  function TraditionalCap(job: Job): real {
    job.maxTraditionalPct.GetOr(100.0)
  }

  /** The pre-tax percentage the match threshold calls for, within the cap. */
  function TraditionalFloor(job: Job): real {
    Min(job.matchThresholdPct.GetOr(0.0), TraditionalCap(job))
  }

  /** The pre-tax percentage that would use up exactly what is left of the
      401(k) limit over the job's paychecks. */
  function TraditionalRoom(job: Job, remaining401k: real): real
    requires Payable(job)
  {
    remaining401k / (Count(job) * Gross(job)) * 100.0
  }

  /** The pre-tax percentage: the floor, raised toward the room (within the
      cap) while any of the 401(k) limit is left. It is never under the
      floor or over the cap, and once the limit is used up it is the floor. */
  function TraditionalPct(job: Job, remaining401k: real): (pct: real)
    requires Payable(job)
    ensures TraditionalFloor(job) <= pct <= TraditionalCap(job)
    ensures remaining401k <= 0.0 ==> pct == TraditionalFloor(job)
    ensures remaining401k > 0.0 && TraditionalFloor(job) <= TraditionalRoom(job, remaining401k)
            ==> pct <= TraditionalRoom(job, remaining401k)
  {
    if remaining401k > 0.0 then
      Max(Min(TraditionalRoom(job, remaining401k), TraditionalCap(job)), TraditionalFloor(job))
    else
      TraditionalFloor(job)
  }

  /** When the room is at least the floor, the job never takes more of the
      401(k) limit than is left. When the floor is above the room, the match
      threshold wins and the budget goes negative. */
  lemma TraditionalPctWithinRemaining(job: Job, remaining401k: real)
    requires Payable(job) && remaining401k > 0.0
    requires TraditionalFloor(job) <= TraditionalRoom(job, remaining401k)
    ensures TraditionalDollars(job, TraditionalPct(job, remaining401k)) <= remaining401k
    ensures Employee401kLeftAfter(job, remaining401k) >= 0.0
  {
    RoomSpendsAtMostRemaining(job, remaining401k, TraditionalPct(job, remaining401k));
  }

  /** 401(k) dollars a pre-tax percentage takes over the job's paychecks. */
  function TraditionalDollars(job: Job, pct: real): real {
    pct / 100.0 * Gross(job) * Count(job)
  }

  /** The Roth and after-tax percentages: the preferred one when allowed, else 0. */
  function RothPct(job: Job): real {
    if job.allowRoth then job.preferredRothPct.GetOr(0.0) else 0.0
  }

  function AfterTaxPct(job: Job): real {
    if job.allowAfterTax then job.preferredAfterTaxPct.GetOr(0.0) else 0.0
  }

  function NotesFor(job: Job): seq<Note> {
    [ MatchThresholdApplied(job.matchThresholdPct.GetOr(0.0)),
      if job.trueUp then TrueUpAllowsFrontLoading else PerPaycheckMatchPreserved,
      if job.allowAfterTax then AfterTaxAllowed else AfterTaxNotAllowed ]
  }

  /** The election for one job, given what is left of both budgets. */
  function ElectionFor(job: Job, remainingHsa: real, remaining401k: real): ContributionPlan.ContributionInput
    requires Payable(job)
  {
    ContributionPlan.ContributionInput(
      Some(TraditionalPct(job, remaining401k)),
      Some(RothPct(job)),
      Some(AfterTaxPct(job)),
      Some(HsaPctAsWritten(job, HsaPerCheck(job, remainingHsa))))
  }

  /** The HSA target left after the job. */
  function HsaLeftAfter(job: Job, remainingHsa: real): real
    requires Payable(job)
  {
    remainingHsa - HsaPerPaycheck(job, remainingHsa) * Count(job)
  }

  /** The 401(k) limit left after the job: only spent while some is left. */
  function Employee401kLeftAfter(job: Job, remaining401k: real): real
    requires Payable(job)
  {
    if remaining401k > 0.0 then remaining401k - TraditionalDollars(job, TraditionalPct(job, remaining401k))
    else remaining401k
  }

  /** The `map` over the jobs, with both budgets threaded through it. */
  function OptimizeRun(jobs: seq<Job>, remainingHsa: real, remaining401k: real): Outcome
    requires forall j :: 0 <= j < |jobs| ==> Payable(jobs[j])
    decreases |jobs|
  {
    if jobs == [] then Outcome([], remainingHsa, remaining401k)
    else
      var job := jobs[0];
      var optimized := OptimizedJob(job.name, ElectionFor(job, remainingHsa, remaining401k), NotesFor(job));
      var rest := OptimizeRun(jobs[1..], HsaLeftAfter(job, remainingHsa), Employee401kLeftAfter(job, remaining401k));
      Outcome([optimized] + rest.jobs, rest.hsaLeft, rest.employee401kLeft)
  }

  /** The HSA step of the `map` block: the job's HSA dollars per
      paycheck, and the target less what the job takes. */
  method TakeHsa(job: Job, remainingHsaBefore: real) returns (hsaPerCheck: Number, remainingHsa: real)
    requires Payable(job)
    ensures hsaPerCheck == HsaPerCheck(job, remainingHsaBefore)
    ensures remainingHsa == HsaLeftAfter(job, remainingHsaBefore)
  {
    var paycheckCount := |job.paychecks| as real;
    var share := remainingHsaBefore / paycheckCount;
    hsaPerCheck := if job.hsaAllowed.Value() < share then job.hsaAllowed else Float(share);
    remainingHsa := remainingHsaBefore - hsaPerCheck.Value() * paycheckCount;
  }

  /** The pre-tax step of the `map` block: the floor, raised toward the
      room while any of the 401(k) limit is left, and the limit less what
      the job takes. */
  method TakeTraditional(job: Job, remaining401kBefore: real) returns (tradPct: real, remaining401k: real)
    requires Payable(job)
    ensures tradPct == TraditionalPct(job, remaining401kBefore)
    ensures remaining401k == Employee401kLeftAfter(job, remaining401kBefore)
  {
    var paycheckCount := |job.paychecks| as real;
    var matchThreshold := job.matchThresholdPct.GetOr(0.0);
    tradPct := Min(matchThreshold, job.maxTraditionalPct.GetOr(100.0));
    remaining401k := remaining401kBefore;
    if remaining401k > 0.0 {
      var tradRoom := Min(remaining401k / (paycheckCount * Gross(job)) * 100.0, job.maxTraditionalPct.GetOr(100.0));
      tradPct := Max(tradRoom, tradPct);
      remaining401k := remaining401k - tradPct / 100.0 * Gross(job) * paycheckCount;
    }
  }

  /** The body of the `map` block: one job's election and notes, and both
      budgets less what the job took. */
  method OptimizeJob(job: Job, remainingHsaBefore: real, remaining401kBefore: real)
    returns (optimized: OptimizedJob, remainingHsa: real, remaining401k: real)
    requires Payable(job)
    ensures optimized == OptimizedJob(job.name, ElectionFor(job, remainingHsaBefore, remaining401kBefore), NotesFor(job))
    ensures remainingHsa == HsaLeftAfter(job, remainingHsaBefore)
    ensures remaining401k == Employee401kLeftAfter(job, remaining401kBefore)
  {
    var hsaPerCheck;
    hsaPerCheck, remainingHsa := TakeHsa(job, remainingHsaBefore);
    var tradPct;
    tradPct, remaining401k := TakeTraditional(job, remaining401kBefore);

    var rothPct := if job.allowRoth then job.preferredRothPct.GetOr(0.0) else 0.0;
    var afterTaxPct := if job.allowAfterTax then job.preferredAfterTaxPct.GetOr(0.0) else 0.0;
    var hsaPct := if hsaPerCheck.Integer? && job.gross.Integer?
                  then ((hsaPerCheck.i / job.gross.i) * 100) as real
                  else hsaPerCheck.Value() / Gross(job) * 100.0;

    optimized := OptimizedJob(
      job.name,
      ContributionPlan.ContributionInput(Some(tradPct), Some(rothPct), Some(afterTaxPct), Some(hsaPct)),
      [ MatchThresholdApplied(job.matchThresholdPct.GetOr(0.0)),
        if job.trueUp then TrueUpAllowsFrontLoading else PerPaycheckMatchPreserved,
        if job.allowAfterTax then AfterTaxAllowed else AfterTaxNotAllowed ]);
  }

  /** `optimize`: the HSA target (by default the family limit) and the
      employee 401(k) limit are the two budgets; each job in turn takes its
      HSA share and its pre-tax percentage, and the budgets shrink by what
      it took. */
  method Optimize(jobs: seq<Job>, hsaTarget: real) returns (result: seq<OptimizedJob>)
    requires forall j :: 0 <= j < |jobs| ==> Payable(jobs[j])
    ensures result == OptimizeRun(jobs, hsaTarget, Employee401kLimit).jobs
  {
    var remainingHsa := hsaTarget;
    var remaining401k := Employee401kLimit;
    result := [];
    for i := 0 to |jobs|
      invariant result + OptimizeRun(jobs[i..], remainingHsa, remaining401k).jobs
                == OptimizeRun(jobs, hsaTarget, Employee401kLimit).jobs
    {
      var optimized;
      assert jobs[i..][1..] == jobs[i + 1..];
      optimized, remainingHsa, remaining401k := OptimizeJob(jobs[i], remainingHsa, remaining401k);
      result := result + [optimized];
    }
  }

  /** `x <= y` scales by a non-negative factor. */
  lemma ScaleDown(x: real, y: real, c: real)
    requires x <= y && c >= 0.0
    ensures x * c <= y * c
  {
  }

  /** A percentage no larger than the room takes no more than is left. */
  lemma RoomSpendsAtMostRemaining(job: Job, remaining401k: real, pct: real)
    requires Payable(job)
    requires pct <= TraditionalRoom(job, remaining401k)
    ensures pct / 100.0 * Gross(job) * Count(job) <= remaining401k
  {
    var perDollar := Count(job) * Gross(job);
    assert perDollar > 0.0;
    ScaleDown(pct, TraditionalRoom(job, remaining401k), perDollar / 100.0);
    assert TraditionalRoom(job, remaining401k) * (perDollar / 100.0) == remaining401k;
  }

  /** One optimized job per job, in order, carrying its name, its notes and
      its Roth and after-tax percentages (0 unless the job allows them). */
  lemma {:induction false} OptimizeRunShape(jobs: seq<Job>, remainingHsa: real, remaining401k: real)
    requires forall j :: 0 <= j < |jobs| ==> Payable(jobs[j])
    ensures var out := OptimizeRun(jobs, remainingHsa, remaining401k).jobs;
            && |out| == |jobs|
            && forall i :: 0 <= i < |out| ==>
                 && out[i].jobName == jobs[i].name
                 && out[i].notes == NotesFor(jobs[i])
                 && out[i].contributionInput.rothPct == Some(RothPct(jobs[i]))
                 && out[i].contributionInput.afterTaxPct == Some(AfterTaxPct(jobs[i]))
    decreases |jobs|
  {
    if jobs != [] {
      var job := jobs[0];
      OptimizeRunShape(jobs[1..], HsaLeftAfter(job, remainingHsa), Employee401kLeftAfter(job, remaining401k));
    }
  }

  /** The HSA target is never over-allocated: what the jobs take plus what
      is left is the target, and what is left is never negative once a job
      has taken its share. */
  lemma {:induction false} HsaNeverOverAllocated(jobs: seq<Job>, remainingHsa: real, remaining401k: real)
    requires forall j :: 0 <= j < |jobs| ==> Payable(jobs[j])
    ensures HsaTaken(jobs, remainingHsa) + OptimizeRun(jobs, remainingHsa, remaining401k).hsaLeft == remainingHsa
    ensures jobs != [] || remainingHsa >= 0.0 ==> OptimizeRun(jobs, remainingHsa, remaining401k).hsaLeft >= 0.0
    decreases |jobs|
  {
    if jobs != [] {
      var job := jobs[0];
      var left := HsaLeftAfter(job, remainingHsa);
      assert left >= 0.0;
      HsaNeverOverAllocated(jobs[1..], left, Employee401kLeftAfter(job, remaining401k));
    }
  }

  /** The HSA dollars all the jobs take together, at their per-paycheck amounts. */
  function HsaTaken(jobs: seq<Job>, remainingHsa: real): real
    requires forall j :: 0 <= j < |jobs| ==> Payable(jobs[j])
    decreases |jobs|
  {
    if jobs == [] then 0.0
    else
      HsaPerPaycheck(jobs[0], remainingHsa) * Count(jobs[0]) + HsaTaken(jobs[1..], HsaLeftAfter(jobs[0], remainingHsa))
  }

  /** The HSA dollars an election's percentage gives back are never more
      than the per-paycheck HSA amount, and so never more than the job
      allows; they are exactly that amount unless the Integer division
      of `optimize` rounded the percentage down. */
  lemma HsaPctWithinAllowance(job: Job, remainingHsa: real, remaining401k: real)
    requires Payable(job)
    ensures var dollars := ContributionPlan.Deferral(ElectionFor(job, remainingHsa, remaining401k).hsaPct, Gross(job));
            && dollars <= HsaPerPaycheck(job, remainingHsa) <= job.hsaAllowed.Value()
            && (HsaPerCheck(job, remainingHsa).Float? || job.gross.Float? ==> dollars == HsaPerPaycheck(job, remainingHsa))
  {
    var perCheck := HsaPerCheck(job, remainingHsa);
    var pct := HsaPctAsWritten(job, perCheck);
    assert ContributionPlan.Deferral(Some(pct), Gross(job)) == pct / 100.0 * Gross(job);
    ScaleDown(pct / 100.0, HsaPct(job, perCheck) / 100.0, Gross(job));
  }

  /** While every job's cap is non-negative, the 401(k) budget never grows,
      and it is spent only while some of it is left. */
  lemma {:induction false} Employee401kNeverGrows(jobs: seq<Job>, remainingHsa: real, remaining401k: real)
    requires forall j :: 0 <= j < |jobs| ==> Payable(jobs[j]) && TraditionalCap(jobs[j]) >= 0.0
    ensures OptimizeRun(jobs, remainingHsa, remaining401k).employee401kLeft <= remaining401k
    ensures remaining401k <= 0.0 ==> OptimizeRun(jobs, remainingHsa, remaining401k).employee401kLeft == remaining401k
    decreases |jobs|
  {
    if jobs != [] {
      var job := jobs[0];
      if remaining401k > 0.0 {
        var pct := TraditionalPct(job, remaining401k);
        assert pct >= 0.0 by {
          assert TraditionalRoom(job, remaining401k) > 0.0;
        }
        ScaleDown(0.0, pct / 100.0, Gross(job) * Count(job));
        assert TraditionalDollars(job, pct) == pct / 100.0 * (Gross(job) * Count(job));
      }
      Employee401kNeverGrows(jobs[1..], HsaLeftAfter(job, remainingHsa), Employee401kLeftAfter(job, remaining401k));
    }
  }

  /** The test's job: 26 paychecks at an Integer gross of 4000 that
      allow an Integer 150 of HSA per paycheck, with a 5% match threshold
      and a 50% cap. */
  function TestJob(paychecks: seq<Day>): Job {
    Job("Primary Job", Integer(4000), paychecks, Integer(150), Some(5.0), Some(50.0),
        true, None, false, None, false)
  }

  /** As written, the test's job gets a pre-tax percentage of at least 5
      but an HSA percentage of 0, not the positive one the test expects:
      the allowance 150 is below the share of the target, so it is the
      Integer that is divided by the Integer gross. */
  lemma ExampleSingleJob(paychecks: seq<Day>)
    requires |paychecks| == 26
    ensures var out := OptimizeRun([TestJob(paychecks)], HsaFamilyLimit, Employee401kLimit).jobs;
            && |out| == 1
            && out[0].contributionInput.hsaPct == Some(0.0)
            && out[0].contributionInput.traditionalPct.value >= 5.0
  {
    var job := TestJob(paychecks);
    assert HsaPerCheck(job, HsaFamilyLimit) == Integer(150);
  }

  /** With real division the same job gets an HSA percentage of 3.75,
      which gives back its 150 per paycheck. */
  lemma ExampleSingleJobIntended(paychecks: seq<Day>)
    requires |paychecks| == 26
    ensures HsaPct(TestJob(paychecks), HsaPerCheck(TestJob(paychecks), HsaFamilyLimit)) == 3.75
  {
    assert HsaPerCheck(TestJob(paychecks), HsaFamilyLimit) == Integer(150);
  }
}
