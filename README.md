# 401kviz retirement engine and tax-year configuration, in Dafny

This project models the calculation core of 401kviz, a household retirement
contribution planner. It has two parts.

The retirement engine is in `backend/lib/retirement`:

- `TaxTables` (`tax_tables.dfy`) holds the tax-year constants, the federal
  and California bracket tables and `progressive_tax`.
  - `progressive_tax` is modelled as a loop method.
  - That method is proved equal to a recursive walk (`TaxWalk`).
  - The walk is proved equal to the textbook marginal formula (`Marginal`), which serves as an independent reference definition.
- `PaycheckSchedule` (`paycheck_schedule.dfy`) covers the constructor and its `validate!` guards, `increment` and the `dates_for_year` loop.
  - Dates are integer day numbers.
  - The caller supplies the calendar year of a day as a function `yearOf`, which must be monotone and must change within 366 days.
- `ContributionPlan` (`contribution_plan.dfy`) covers `pct`, the per-paycheck arithmetic and the `process_paychecks` map.
  - The map threads three year-to-date accumulators.
  - `IsPaycheckRun` describes the loop's output paycheck by paycheck.
  - `PaycheckRunClosedForm` solves that description: paycheck `k` carries `k + 1` times each per-paycheck amount.
- `LimitChecker` (`limit_checker.dfy`) models `validate` and the three annual limits.
- `Optimizer` (`optimizer.dfy`) models the greedy walk over jobs that shares an HSA budget and an employee 401(k) budget.
  - `OptimizeRun` is the specification.
  - `Optimize` and `OptimizeJob` are the loop and its body; `TakeHsa` and `TakeTraditional` are the body's two budget steps.
  - A job's gross and HSA allowance are Ruby numbers (`Number`: an Integer or a Float), because `/` on two Integers is Integer division (see Findings).

The tax-year configuration part is in `backend/lib/irs_config`:

- `IrsValidator` (`irs_validator.dfy`) covers `validate_year` and `validate_config`, with Ruby's `String#to_i` and the `^\d+$` digit pattern written out.
- `IrsService` (`irs_service.dfy`) models the `Service` class.
  - Its state is a year-to-configuration cache and a memoised year list.
  - It includes the error classes and their HTTP status codes.
  - The file loader is a fixed oracle value (`Loader`) handed to the constructor. Two ghost fields record the side effects: the years loaded so far (`loads`) and the number of directory scans (`scans`).

Design choices:

- Money and percentages are `real`, so every computation is exact. The one place where Ruby's Integer arithmetic changes a result, the HSA percentage of `optimize`, is modelled with Ruby's Integer division.
- `Times(n, c)` is "n paychecks' worth of c". `TimesIsProduct` proves it equals `n * c`.
- Records that the source never updates after construction are datatypes: `ContributionInput`, `PaycheckResult`, `Plan` (the constructor arguments of `ContributionPlan`), `Schedule` and the optimizer's job descriptors.
- The employer match cap is a fraction of gross: `contribution_plan.rb:49` multiplies gross by it, and `backend/spec/contribution_plan_spec.rb` passes a cap of 0.06.
- The code is modelled as written, and where it departs from what its tests expect the corrected behaviour is modelled beside it (see Findings):
  - A count-only `PaycheckSchedule` yields `paycheck_count` copies of the first date, while `backend/spec/paycheck_schedule_spec.rb:17` expects one date.
  - The service validates with the line-anchored `^\d+$`, as `service.rb:124` calls the validator; `ValidateConfig` is the whole-string check the error message describes.
  - The optimizer's HSA percentage uses Integer division when both numbers are Integers, so the test's job gets 0, while `backend/spec/optimizer_spec.rb:22` expects a positive percentage.

## Model

| member | source | states |
|---|---|---|
| TaxTables.TablesAreWellFormed | backend/lib/retirement/constants.rb:14-32 | Both tables have limits strictly ascending from 0, a catch-all last bracket, non-decreasing rates and a non-negative first rate |
| TaxTables.Taxed | backend/lib/retirement/constants.rb:40-41 | The amount taxed in one bracket is never more than what remains; it is non-negative when the remainder is; the catch-all taxes all of it |
| TaxTables.ProgressiveTax | backend/lib/retirement/constants.rb:34-48 | The loop returns the tax of the bracket walk; an amount of 0 gives 0; with a catch-all bracket and amount >= 0 nothing remains untaxed when the loop ends |
| TaxTables.WalkConsumesAll | backend/lib/retirement/constants.rb:39-46 | On a table ending in the catch-all, a walk from any non-negative remainder leaves nothing untaxed |
| TaxTables.MarginalZeroBelow | backend/lib/retirement/constants.rb:39-44 | Brackets that lie wholly above the amount add no tax |
| TaxTables.WalkIsMarginalAbove | backend/lib/retirement/constants.rb:39-46 | From any bracket below the amount, the walk's tax equals the sum of rate times clamped slice over the remaining brackets |
| TaxTables.WalkIsMarginal | backend/lib/retirement/constants.rb:39-44 | On an ascending table and amount >= 0, `progressive_tax` equals the marginal formula: the sum over brackets of rate times clamp(amount - lower, 0, limit - lower) |
| TaxTables.MarginalMonotone | backend/lib/retirement/constants.rb:39-44 | With non-negative rates the marginal formula never decreases as the amount grows |
| TaxTables.MarginalBetweenRates | backend/lib/retirement/constants.rb:39-44 | If every rate lies in [lo, hi], the marginal tax lies between lo and hi times the amount above the lower bound |
| TaxTables.TaxMonotone | backend/lib/retirement/constants.rb:39-46 | For ascending limits and non-negative rates, the tax is non-decreasing in the amount |
| TaxTables.TaxBetweenFirstAndLastRate | backend/lib/retirement/constants.rb:39-46 | On a well-formed table, amount times the first rate <= tax <= amount times the last rate, and the tax is never negative |
| PaycheckSchedule.NewSchedule | backend/lib/retirement/paycheck_schedule.rb:46-51 | Construction succeeds exactly when there is a first date, a frequency or a count, and any frequency is one of the four names; neither gives the frequency-or-count error; an unknown name gives the unsupported-frequency error |
| PaycheckSchedule.Increment | backend/lib/retirement/paycheck_schedule.rb:34-44 | The increment is never nil: it is the frequency's positive day count when a frequency is set (even with a count), and 0 for a count-only schedule |
| PaycheckSchedule.IntendedIncrement | backend/lib/retirement/paycheck_schedule.rb:34-37 | The corrected increment: the same as written when there is a frequency, none for a count-only schedule |
| PaycheckSchedule.IsDatesForUnique | backend/lib/retirement/paycheck_schedule.rb:22-29 | The loop's output description has one solution, so the dates are a function of the schedule and the year |
| PaycheckSchedule.CollectDates | backend/lib/retirement/paycheck_schedule.rb:22-29 | The loop terminates and returns dates spaced by the increment from the first date, all in the year, at most the count, and stops where the loop condition fails |
| PaycheckSchedule.DatesForYear | backend/lib/retirement/paycheck_schedule.rb:21-30 | Every date is in the year; a first date outside the year gives none; the list starts at the first date, never exceeds the count, and with a frequency rises by exactly its day count; count-only yields count copies of the first date when it is in the year |
| PaycheckSchedule.DatesForYearIntended | backend/lib/retirement/paycheck_schedule.rb:21-30 | With the corrected increment a count-only schedule yields just its first date (or nothing outside the year) |
| PaycheckSchedule.CountOnlyRepeatsFirstDate | backend/lib/retirement/paycheck_schedule.rb:24-37 | As written, count 12 with no frequency and a first date in the year gives 12 dates, all equal to the first, not 1 |
| PaycheckSchedule.CountOnlyIntendedSingleDate | backend/spec/paycheck_schedule_spec.rb:14-18 | With the corrected increment the same schedule gives exactly the first date |
| ContributionPlan.Pct | backend/lib/retirement/contribution_plan.rb:86-89 | A missing percentage counts as 0; otherwise the fraction times 100 is the percentage |
| ContributionPlan.Withhold | backend/lib/retirement/contribution_plan.rb:56-61 | Withholding is the tax on 26 times the wages less the deduction, clamped at 0, divided by 26 |
| ContributionPlan.ProcessPaycheck | backend/lib/retirement/contribution_plan.rb:44-80 | One paycheck is the plan's paycheck for that date, with each running total raised by the per-paycheck amount |
| ContributionPlan.ProcessPaychecks | backend/lib/retirement/contribution_plan.rb:39-82 | The output is a paycheck run for the dates: one result per date in order, each carrying the running totals through it |
| ContributionPlan.RunAmounts | backend/lib/retirement/contribution_plan.rb:44-50 | Every paycheck of a run has deferrals of pct/100 times gross, the capped match and the employer HSA amount |
| ContributionPlan.RunTotals | backend/lib/retirement/contribution_plan.rb:52-54 | Over a run, each year-to-date sum is the paycheck count times its per-paycheck amount |
| ContributionPlan.PaycheckRunClosedForm | backend/lib/retirement/contribution_plan.rb:39-82 | Output length equals input length; paycheck k is the plan's paycheck for dates[k], whose date is dates[k], with ytd fields equal to k+1 times the per-paycheck 401(k), HSA and match amounts |
| ContributionPlan.PaycheckRunUnique | backend/lib/retirement/contribution_plan.rb:40-42 | The accumulators start at 0 on every call, so two runs over the same dates are identical |
| ContributionPlan.WithholdingNonNegative | backend/lib/retirement/contribution_plan.rb:56-61 | Federal and state withholding are never negative |
| ContributionPlan.WithholdingMonotone | backend/lib/retirement/contribution_plan.rb:56-61 | Less taxable pay never means more withholding |
| ContributionPlan.WithholdingIgnoresRothAndAfterTax | backend/lib/retirement/contribution_plan.rb:56-61 | Changing the Roth or after-tax percentage changes neither taxable wages nor either withholding |
| ContributionPlan.MatchIsCapped | backend/lib/retirement/contribution_plan.rb:49-50 | The match is at most gross times cap times rate and at most (pre-tax + Roth) times rate; the after-tax election never changes it |
| ContributionPlan.NetCashAccounting | backend/lib/retirement/contribution_plan.rb:63 | Net cash plus the four employee deferrals and both withholdings is exactly gross, so the employer amounts play no part; with non-negative inputs net cash <= gross |
| ContributionPlan.ExamplePaycheck | backend/spec/contribution_plan_spec.rb:10-18 | Gross 4000 at 10% pre-tax, 5% Roth, 2% HSA with a 50% match up to 0.06 of gross gives 400, 200, a match of 120 and net cash under 4000 |
| LimitChecker.Validate | backend/lib/retirement/limit_checker.rb:11-32 | The warnings are the per-limit warnings in check order, and `within_limits` holds exactly when there are none |
| LimitChecker.WarningsExactlyForExceededLimits | backend/lib/retirement/limit_checker.rb:13-29 | A limit draws a warning exactly when its total is strictly above it (a total at the limit draws none); each warning carries the positive excess |
| LimitChecker.WarningsOrderAndWithin | backend/lib/retirement/limit_checker.rb:19-31 | No warnings exactly when every total is within its limit; at most three, in the order 401(k), HSA, additions; no paychecks, no warnings |
| LimitChecker.MoreNonNegativePaychecksRaiseTotals | backend/lib/retirement/limit_checker.rb:13-17 | Appending paychecks with non-negative amounts never lowers a checked total |
| LimitChecker.RunLimitTotals | backend/lib/retirement/limit_checker.rb:13-17 | For a run of one plan, each checked total is the paycheck count times what one paycheck adds to it |
| LimitChecker.ExampleOverLimits | backend/spec/limit_checker_spec.rb:6-27 | The test's paycheck is 2000 over the 401(k) limit and under the other two, so it draws exactly that warning |
| Optimizer.HsaPerPaycheck | backend/lib/retirement/optimizer.rb:18 | The per-paycheck HSA amount is at most the job's allowance, its total over the job's paychecks is at most what remains, and it is non-negative when both are |
| Optimizer.HsaPerCheck | backend/lib/retirement/optimizer.rb:18 | `Array#min` keeps the share unless the allowance is strictly below it; its value is the per-paycheck HSA amount, and it is an Integer only when it is the job's own Integer allowance |
| Optimizer.HsaPct | backend/lib/retirement/optimizer.rb:39 | The intended HSA percentage: that percentage of gross gives back the per-paycheck HSA dollars |
| Optimizer.HsaPctAsWritten | backend/lib/retirement/optimizer.rb:39 | The percentage as written never exceeds the intended one and falls short of it by less than 100; it equals it unless both the per-paycheck amount and gross are Integers |
| Optimizer.TraditionalPct | backend/lib/retirement/optimizer.rb:21-28 | The pre-tax percentage lies between min(threshold, cap) and the cap (100 by default); it is exactly that floor once the 401(k) budget is used up; it does not exceed the room when the room is above the floor |
| Optimizer.TraditionalPctWithinRemaining | backend/lib/retirement/optimizer.rb:24-27 | When the room is at least the floor, the job spends no more than the remaining 401(k) budget and leaves it non-negative |
| Optimizer.TakeHsa | backend/lib/retirement/optimizer.rb:17-19 | The job's HSA amount per paycheck, kept as the Ruby number `Array#min` returns, and the target less that amount times the paycheck count |
| Optimizer.TakeTraditional | backend/lib/retirement/optimizer.rb:21-28 | The job's pre-tax percentage and the 401(k) budget after the job, which changes only while some of it is left |
| Optimizer.OptimizeJob | backend/lib/retirement/optimizer.rb:17-46 | The loop body yields the job's election (with the HSA percentage as Ruby computes it) and notes, and both budgets less what the job took |
| Optimizer.Optimize | backend/lib/retirement/optimizer.rb:12-48 | The loop yields the elections of the greedy walk that starts from the HSA target and the employee 401(k) limit |
| Optimizer.OptimizeRunShape | backend/lib/retirement/optimizer.rb:16-45 | One optimized job per job, in input order, with the job's name, three notes in fixed order, and Roth and after-tax percentages that are 0 unless allowed |
| Optimizer.HsaNeverOverAllocated | backend/lib/retirement/optimizer.rb:13-19 | What all jobs take plus what is left is exactly the HSA target, and what is left is never negative once a job has taken its share |
| Optimizer.HsaPctWithinAllowance | backend/lib/retirement/optimizer.rb:18-39 | The HSA dollars the election's percentage gives back are at most the per-paycheck HSA amount, which is within the job's allowance; they equal it unless both numbers are Integers |
| Optimizer.Employee401kNeverGrows | backend/lib/retirement/optimizer.rb:24-27 | With non-negative caps the 401(k) budget never increases over the walk, and once it is <= 0 it stays unchanged |
| Optimizer.ExampleSingleJob | backend/spec/optimizer_spec.rb:6-24 | As written, the test's job (26 paychecks of Integer 4000, Integer 150 HSA allowed, 5% threshold) gets pre-tax of at least 5% but an HSA percentage of 0, not the positive one the test expects |
| Optimizer.ExampleSingleJobIntended | backend/spec/optimizer_spec.rb:6-24 | With real division the same job gets an HSA percentage of 3.75 |
| IrsValidator.ValidateYear | backend/lib/irs_config/validator.rb:30-38 | A year passes exactly when it is an Integer in 2020..2050 inclusive; a non-Integer is rejected as such before the range is checked |
| IrsValidator.DigitsValue | backend/lib/irs_config/validator.rb:62 | A digit string denotes a positive number exactly when some digit is not 0 |
| IrsValidator.ToIOfDigits | backend/lib/irs_config/validator.rb:62 | `to_i` of a digit-only string is its decimal value |
| IrsValidator.MissingFrom | backend/lib/irs_config/validator.rb:47-48 | The missing list holds exactly the names of required keys absent from the file; it is empty exactly when none is absent |
| IrsValidator.FirstValueError | backend/lib/irs_config/validator.rb:51-63 | The key loop finds no error exactly when every known key that is present has a good value; absent keys are skipped |
| IrsValidator.FirstValueErrorIsFirst | backend/lib/irs_config/validator.rb:51-63 | A reported error belongs to a present key, and every present key before it passes |
| IrsValidator.ValidateConfigAsWritten | backend/lib/irs_config/validator.rb:45-66 | As written: accepted exactly when all required keys are present and every present known key has some line of digits and a positive `to_i`; a missing required key is reported before any value |
| IrsValidator.ValidateConfig | backend/lib/irs_config/validator.rb:45-66 | The corrected check: accepted exactly when all required keys are present and every present known key is digits only and positive; a missing required key is reported before any value |
| IrsValidator.WholeStringChecksPositiveDigits | backend/lib/irs_config/validator.rb:57-62 | With the whole-string pattern, a value passes both checks exactly when it is digits only and not zero |
| IrsValidator.ValidateConfigIgnoresOtherKeys | backend/lib/irs_config/validator.rb:51-52 | Entries outside the known keys never change the verdict, as written or corrected |
| IrsValidator.AsWrittenAcceptsWhatIntendedAccepts | backend/lib/irs_config/validator.rb:57 | The line-anchored check accepts every configuration the whole-string check accepts |
| IrsValidator.LineAnchoredAcceptsTrailingText | backend/lib/irs_config/validator.rb:57 | A required value made of a digit line plus other text passes as written but is rejected as "not a positive integer" by the corrected check |
| IrsValidator.TrailingTextValue | backend/lib/irs_config/validator.rb:57-62 | "24500\nabc" has a digit line, is not digits only, and `to_i` reads it as 24500 |
| IrsValidator.PositiveDigitsPass | backend/lib/irs_config/validator.rb:57-62 | A positive digit-only value passes both value checks under either pattern |
| IrsService.SymbolInjective | backend/lib/irs_config/service.rb:145 | Distinct keys get distinct lower-case symbols, so no entry overwrites another |
| IrsService.SymbolizedOver | backend/lib/irs_config/service.rb:142-147 | A symbol is present exactly for the listed keys that the file has, each mapped to the `to_i` of its text |
| IrsService.SymbolizedContents | backend/lib/irs_config/service.rb:139-150 | The converted configuration holds exactly the known keys present in the file, as symbols with `to_i` values; other entries are dropped |
| IrsService.ConvertToSymbolizedIntegers | backend/lib/irs_config/service.rb:139-150 | The loop builds exactly the symbolized configuration |
| IrsService.MissingSymbols | backend/lib/irs_config/service.rb:89-90 | The startup missing list is empty exactly when every required symbol is present |
| IrsService.ValidYears | backend/lib/irs_config/service.rb:28-32 | The kept years are exactly the discovered years in 2020..2050 |
| IrsService.ValidYearsAscending | backend/lib/irs_config/service.rb:28-32 | Filtering keeps the sorted order of the discovered years |
| IrsService.YearsOutcomeMeaning | backend/lib/irs_config/service.rb:20-37 | The year list is produced exactly when some discovered year is in range; it is non-empty and holds exactly the in-range years; a failure is a 500 |
| IrsService.MaxOf | backend/lib/irs_config/service.rb:42-44 | The default year is an available year and no available year is larger |
| IrsService.LoadAndValidateMeaning | backend/lib/irs_config/service.rb:121-133 | Success exactly when the file loads and passes the line-anchored check as written, returning its entries; a failure is a 404 exactly when the load message contains "not found", and a 500 otherwise; a year without a file is a 404 |
| IrsService.ConfigForIsComplete | backend/lib/irs_config/service.rb:55-75 | A configuration handed out has every required symbol and only known symbols, and every value in it is positive, even under the line-anchored check |
| IrsService.TrailingTextIsServed | backend/lib/irs_config/service.rb:121-150 | A file whose deferral limit is "24500\nabc" and whose other values are good is served, with the limit read as 24500 |
| IrsService.Service.constructor | backend/lib/irs_config/service.rb:10-14 | A new service has an empty cache and no memoised years |
| IrsService.Service.AvailableYears | backend/lib/irs_config/service.rb:20-37 | The answer is the discovered in-range years or the matching 500 error; a success is memoised, and a memoised list is returned without rescanning |
| IrsService.Service.DefaultYear | backend/lib/irs_config/service.rb:42-44 | The default year is the largest available year, or the error `available_years` raises |
| IrsService.Service.LoadAndValidate | backend/lib/irs_config/service.rb:121-133 | Loads the year's file once and classifies the outcome as described by `LoadAndValidateMeaning` |
| IrsService.Service.GetConfig | backend/lib/irs_config/service.rb:55-75 | A bad year fails with a 400 and changes nothing; a cached year returns without loading; otherwise it loads once and caches on success; every answer is what loading and validating the year as written would give |
| IrsService.Service.DefaultConfig | backend/lib/irs_config/service.rb:86 | With the year list memoised, the answer is the default year's configuration; it is loaded only when not cached and cached on success; the year list and the scans are unchanged |
| IrsService.Service.ValidateStartup | backend/lib/irs_config/service.rb:81-99 | Startup succeeds exactly when there are available years and the default year's configuration loads and validates; a failure is the error of `available_years` or of loading the default year; afterwards the year list is memoised when there is one and the default year's configuration is cached on success; the missing-keys error never occurs |
| IrsService.Service.ClearCache | backend/lib/irs_config/service.rb:106-111 | The cache is emptied and the memoised year list forgotten |

## Left out

- Rounding and message text are not modelled.
  - `.round(2)` in `optimizer.rb:36,39` and in the warning messages of `limit_checker.rb:20-28` is left out; amounts are exact reals.
  - Warnings are `(kind, excess)` values.
  - Validation and service errors are datatypes carrying the data their messages show.
  - The `warn` line for a skipped year (`service.rb:30`) is not modelled.
- Ruby floating point is not modelled, nor the NaN and Infinity it gives on division by zero.
- Optimizer.Optimize: requires every job to have at least one paycheck and a positive gross (`Payable`). The Ruby code divides by both; otherwise it produces Infinity or NaN, or raises ZeroDivisionError for an Integer gross of 0 at `optimizer.rb:39`.
- Optimizer.OptimizeJob: carries the same `Payable` requirement, for the same reason.
- `optimizer.rb:30` assigns a constant (`Roth_pct = ...`) inside a block. Ruby refuses this as a dynamic constant assignment. The model reads it as the local variable it is evidently meant to be.
- Calendar arithmetic and `Date.parse` are not modelled.
  - Dates are day numbers.
  - The year of a day comes from the caller's `yearOf`.
  - An unparseable first date is treated like a missing one.
  - Frequencies are strings, and `to_sym` is not modelled.
- The file loader (`loader.rb`) is a fixed oracle given when the service is created.
  - Directory globbing, Dotenv parsing and sorting of the discovered years are not modelled.
  - Files do not change while the service runs, so the memoised year list and the cache are never stale.
  - Only the "not found" message of a missing file is modelled. In the loader that message is wrapped again by its own `rescue StandardError`, but it still contains "not found", so the service still reports a 404.
- The `Mutex` in `service.rb:13,61,107` is left out; operations run sequentially.
- The `rescue Loader::LoadError` of `validate_startup!` (`service.rb:97-98`) is left out. It can never fire, because `load_and_validate` already turns every load error into a configuration error.
- `InvalidYearParameterError` exists only as an error class with its 400 status; the core never raises it.
- `String#downcase` is modelled for ASCII only, which covers every configuration key name.
- Some of Ruby's `String#to_i` is not modelled: underscores between digits and a `0d` prefix are not read. With the line-anchored check a value such as "1_000\n5" reaches `to_i`, so the model can read a smaller number than Ruby does for such a value.
- The default arguments `hsa_target: HSA_FAMILY_LIMIT` (`optimizer.rb:7`) and `year = TAX_YEAR` of `dates_for_year` are not defaults here: callers of `Optimize` and `DatesForYear` pass the value.
- Ruby's Integer and Float are told apart only for a job's gross and HSA allowance, the one place (`optimizer.rb:39`) where the kind of number changes a result; everywhere else a Ruby number is its real value.
- `Withholding` treats the annualising factor 26 as the real 26.0 in both places where it appears (`contribution_plan.rb:57,60-61`).
- The ghost `leftover` result of `TaxTables.ProgressiveTax` states the final value of `remaining`; the code does not return it.

## Findings

| source | as written | input that shows it | evidently intended | confidence | as-written member | corrected member |
|---|---|---|---|---|---|---|
| backend/lib/retirement/paycheck_schedule.rb:37 | A count-only schedule has increment 0, and Ruby treats 0 as true, so `break unless increment` (line 26) never stops the loop; it appends the first date again until the count is reached | first paycheck 2026-01-15, `paycheck_count: 12`, no frequency | one date, as the test at backend/spec/paycheck_schedule_spec.rb:17 expects ("increment 0 so only first included") | high; not executed | PaycheckSchedule.CountOnlyRepeatsFirstDate | PaycheckSchedule.CountOnlyIntendedSingleDate |
| backend/lib/irs_config/validator.rb:57 | `^\d+$` is anchored at line boundaries in Ruby, so a value passes when any one of its lines is all digits, and `to_i` then reads its leading digits | `EMPLOYEE_DEFERRAL_LIMIT` set to "24500\nabc" | the whole value is a positive integer, as the error message says (`\A\d+\z`) | high; not executed | IrsValidator.LineAnchoredAcceptsTrailingText | IrsValidator.ValidateConfig |
| backend/lib/retirement/optimizer.rb:39 | When the allowance is below the share of the HSA target, `hsa_per_check` is the allowance itself; if it and the gross are Integers, `/` is Integer division and the percentage is floored, to 0 whenever the allowance is below the gross | the test's job: `gross: 4000`, `hsa_allowed: 150`, 26 paychecks (backend/spec/optimizer_spec.rb:10-12) | 150 / 4000 * 100 = 3.75, a positive percentage as backend/spec/optimizer_spec.rb:22 expects | high; not executed | Optimizer.ExampleSingleJob | Optimizer.ExampleSingleJobIntended |

The model follows the code as written wherever the code is used:
- The service validates with `ValidateConfigAsWritten`, as `service.rb:124` does; `ValidateConfig` is the corrected check, and `AsWrittenAcceptsWhatIntendedAccepts` relates the two.
- `OptimizeRun` computes the HSA percentage with `HsaPctAsWritten`; `HsaPct` is the corrected one, and `HsaPctAsWritten`'s contract bounds the difference.
- `DatesForYear` keeps the as-written increment; `DatesForYearIntended` is the corrected loop.
