/** The tax-year configuration service: a memoised list of the years that
    have a configuration file, and a cache from year to the validated
    configuration with symbol keys and integer values. The file loader is
    a fixed oracle given when the service is created. */
module IrsService {
  import opened Wrappers
  import opened IrsValidator

  // ---- The loader oracle ----

  /** What loading one year's file produces: its parsed entries, or a
      load error with its message. */
  datatype LoadOutcome = Loaded(config: map<string, string>) | LoadFailed(message: string)

  /** The file system as the service sees it: the years that discovery
      reports, and the outcome of loading each year that has a file. */
  datatype Loader = Loader(discovered: seq<int>, files: map<int, LoadOutcome>)

  /** The message of the load error for a year without a file. */
  const NotFoundMessage: string := "Configuration file not found"

  /** Loading a year: a year without a file fails with the not-found
      message. */
  function LoadConfig(loader: Loader, year: int): LoadOutcome {
    if year in loader.files then loader.files[year] else LoadFailed(NotFoundMessage)
  }

  /** `String#include?`. */
  predicate Contains(s: string, part: string) {
    exists i :: 0 <= i <= |s| && part <= s[i..]
  }

  // ---- Errors ----

  /** Why a `ConfigurationError` is raised. */
  datatype Reason =
    | NoConfigurationFiles
    | NoValidConfigurations
    | InvalidConfig(cause: ValidationError)
    | LoadFailure(message: string)
    | StartupMissingKeys(missing: seq<string>)

  /** The error classes of the configuration service. */
  datatype ConfigError =
    | ConfigurationError(reason: Reason)
    | YearOutOfRangeError(cause: ValidationError)
    | ConfigNotFoundError(message: string)
    | InvalidYearParameterError(message: string)

  /** The HTTP status each error class carries. */
  function StatusCode(e: ConfigError): int {
    match e
    case ConfigurationError(_) => 500
    case YearOutOfRangeError(_) => 400
    case ConfigNotFoundError(_) => 404
    case InvalidYearParameterError(_) => 400
  }

  // ---- Symbolized configurations ----

  function Lower(c: char): char {
    if 'A' <= c <= 'Z' then (c as int - 'A' as int + 'a' as int) as char else c
  }

  /** `String#downcase` on ASCII text. */
  function Downcase(s: string): (t: string)
    ensures |t| == |s|
  {
    seq(|s|, i requires 0 <= i < |s| => Lower(s[i]))
  }

  /** The symbol a key is stored under: its file name in lower case. */
  function Symbol(k: ConfigKey): string {
    Downcase(EnvName(k))
  }

  /** Different keys get different symbols. */
  lemma SymbolInjective(k1: ConfigKey, k2: ConfigKey)
    requires k1 != k2
    ensures Symbol(k1) != Symbol(k2)
  {
    if |EnvName(k1)| == |EnvName(k2)| {
      assert Symbol(k1)[0] != Symbol(k2)[0];
    }
  }

  lemma AllKeysCoverEveryKey()
    ensures forall k :: k in AllKeys
  {
    forall k ensures k in AllKeys {
      match k
      case EmployeeDeferralLimit => assert AllKeys[0] == k;
      case Total401kLimit => assert AllKeys[1] == k;
      case CatchUpContribution => assert AllKeys[2] == k;
      case HsaIndividualLimit => assert AllKeys[3] == k;
      case HsaFamilyLimit => assert AllKeys[4] == k;
    }
  }

  /** The entries of `config` for `keys`, under their symbols, with `to_i`
      values; entries that are absent are skipped. */
  function SymbolizedOver(keys: seq<ConfigKey>, config: map<string, string>): (result: map<string, int>)
    ensures forall s :: s in result <==> exists k :: k in keys && EnvName(k) in config && Symbol(k) == s
    ensures forall k :: k in keys && EnvName(k) in config ==> result[Symbol(k)] == ToI(config[EnvName(k)])
    decreases |keys|
  {
    if keys == [] then map[]
    else
      var front := SymbolizedOver(keys[..|keys| - 1], config);
      var k := keys[|keys| - 1];
      assert forall j :: j in keys <==> j in keys[..|keys| - 1] || j == k;
      forall j | j != k ensures Symbol(j) != Symbol(k) { SymbolInjective(j, k); }
      if EnvName(k) in config then front[Symbol(k) := ToI(config[EnvName(k)])] else front
  }

  /** `convert_to_symbolized_integers` as a value. */
  function Symbolized(config: map<string, string>): map<string, int> {
    SymbolizedOver(AllKeys, config)
  }

  /** The converted configuration holds exactly the known keys present in
      the file, each as its symbol with the `to_i` of its text; other
      entries of the file are dropped. */
  lemma SymbolizedContents(config: map<string, string>)
    ensures forall k :: Symbol(k) in Symbolized(config) <==> EnvName(k) in config
    ensures forall k :: EnvName(k) in config ==> Symbolized(config)[Symbol(k)] == ToI(config[EnvName(k)])
    ensures forall s :: s in Symbolized(config) ==> exists k :: Symbol(k) == s
  {
    AllKeysCoverEveryKey();
    forall k | Symbol(k) in Symbolized(config) ensures EnvName(k) in config {
      var j :| j in AllKeys && EnvName(j) in config && Symbol(j) == Symbol(k);
      if j != k { SymbolInjective(j, k); }
    }
  }

  /** `convert_to_symbolized_integers`: one pass over the known keys,
      adding each one the file has. */
  method ConvertToSymbolizedIntegers(config: map<string, string>) returns (result: map<string, int>)
    ensures result == Symbolized(config)
  {
    result := map[];
    for i := 0 to |AllKeys|
      invariant result == SymbolizedOver(AllKeys[..i], config)
    {
      var key := AllKeys[i];
      var keys := AllKeys[..i + 1];
      assert keys[..|keys| - 1] == AllKeys[..i] && keys[|keys| - 1] == key;
      if EnvName(key) in config {
        result := result[Symbol(key) := ToI(config[EnvName(key)])];
      }
      assert result == SymbolizedOver(keys, config);
    }
    assert AllKeys[..|AllKeys|] == AllKeys;
  }

  /** The symbols of `keys` that a converted configuration lacks. */
  function MissingSymbols(keys: seq<ConfigKey>, config: map<string, int>): (missing: seq<string>)
    ensures missing == [] <==> forall k :: k in keys ==> Symbol(k) in config
    decreases |keys|
  {
    if keys == [] then []
    else (if Symbol(keys[0]) in config then [] else [Symbol(keys[0])]) + MissingSymbols(keys[1..], config)
  }

  // ---- What the service computes ----

  /** The discovered years inside the valid range, in discovery order. */
  function ValidYears(years: seq<int>): (valid: seq<int>)
    ensures forall y :: y in valid <==> y in years && MinYear <= y <= MaxYear
    ensures |valid| <= |years|
  {
    if years == [] then []
    else (if MinYear <= years[0] <= MaxYear then [years[0]] else []) + ValidYears(years[1..])
  }

  /** Filtering keeps ascending discovery order ascending. */
  lemma {:induction false} ValidYearsAscending(years: seq<int>)
    requires forall i, j :: 0 <= i < j < |years| ==> years[i] < years[j]
    ensures forall i, j :: 0 <= i < j < |ValidYears(years)| ==> ValidYears(years)[i] < ValidYears(years)[j]
    decreases |years|
  {
    if years != [] {
      var tail := years[1..];
      TailAscending(years);
      ValidYearsAscending(tail);
      var rest := ValidYears(tail);
      var valid := ValidYears(years);
      if MinYear <= years[0] <= MaxYear {
        assert valid == [years[0]] + rest;
        ValidYearsAbove(tail, years[0]);
        ConsAscending(years[0], rest, valid);
      } else {
        assert valid == rest;
      }
    }
  }

  lemma TailAscending(s: seq<int>)
    requires s != [] && forall i, j :: 0 <= i < j < |s| ==> s[i] < s[j]
    ensures forall i, j :: 0 <= i < j < |s[1..]| ==> s[1..][i] < s[1..][j]
    ensures forall i :: 0 <= i < |s[1..]| ==> s[0] < s[1..][i]
  {
    forall i, j | 0 <= i < j < |s[1..]| ensures s[1..][i] < s[1..][j] {
      assert s[1..][i] == s[i + 1] && s[1..][j] == s[j + 1];
    }
    forall i | 0 <= i < |s[1..]| ensures s[0] < s[1..][i] {
      assert s[1..][i] == s[i + 1];
    }
  }

  lemma ConsAscending(x: int, s: seq<int>, t: seq<int>)
    requires t == [x] + s
    requires forall i, j :: 0 <= i < j < |s| ==> s[i] < s[j]
    requires forall i :: 0 <= i < |s| ==> x < s[i]
    ensures forall i, j :: 0 <= i < j < |t| ==> t[i] < t[j]
  {
    forall i, j | 0 <= i < j < |t| ensures t[i] < t[j] {
      assert t[j] == s[j - 1];
      if i > 0 {
        assert t[i] == s[i - 1];
      }
    }
  }

  lemma {:induction false} ValidYearsAbove(years: seq<int>, x: int)
    requires forall i :: 0 <= i < |years| ==> x < years[i]
    ensures forall i :: 0 <= i < |ValidYears(years)| ==> x < ValidYears(years)[i]
    decreases |years|
  {
    if years != [] {
      var tail := years[1..];
      assert forall i :: 0 <= i < |tail| ==> tail[i] == years[i + 1];
      ValidYearsAbove(tail, x);
      if MinYear <= years[0] <= MaxYear {
        assert ValidYears(years) == [years[0]] + ValidYears(tail);
      } else {
        assert ValidYears(years) == ValidYears(tail);
      }
    }
  }

  /** `available_years` when nothing is memoised. */
  function YearsOutcome(discovered: seq<int>): Result<seq<int>, ConfigError> {
    if discovered == [] then Failure(ConfigurationError(NoConfigurationFiles))
    else if ValidYears(discovered) == [] then Failure(ConfigurationError(NoValidConfigurations))
    else Success(ValidYears(discovered))
  }

  /** The year list is non-empty and made of in-range discovered years;
      an error is raised exactly when discovery finds nothing or only
      out-of-range years. */
  lemma YearsOutcomeMeaning(discovered: seq<int>)
    ensures YearsOutcome(discovered).Success? <==> exists y :: y in discovered && MinYear <= y <= MaxYear
    ensures YearsOutcome(discovered).Success? ==>
              && YearsOutcome(discovered).value != []
              && forall y :: y in YearsOutcome(discovered).value <==> y in discovered && MinYear <= y <= MaxYear
    ensures YearsOutcome(discovered).Failure? ==> StatusCode(YearsOutcome(discovered).error) == 500
  {
    var valid := ValidYears(discovered);
    if valid != [] {
      assert valid[0] in valid;
    }
  }

  /** `Array#max`. */
  function MaxOf(s: seq<int>): (m: int)
    requires s != []
    ensures m in s
    ensures forall x :: x in s ==> x <= m
    decreases |s|
  {
    if |s| == 1 then s[0]
    else
      var rest := MaxOf(s[1..]);
      assert forall x :: x in s ==> x == s[0] || x in s[1..];
      if s[0] >= rest then s[0] else rest
  }

  /** `load_and_validate`: load the file, then validate it with the
      line-anchored check as written. A load error
      whose message mentions "not found" becomes a not-found error, any
      other a configuration error. */
  function LoadAndValidateOf(loader: Loader, year: int): Result<map<string, string>, ConfigError> {
    match LoadConfig(loader, year)
    case LoadFailed(message) =>
      if Contains(message, "not found") then Failure(ConfigNotFoundError(message))
      else Failure(ConfigurationError(LoadFailure(message)))
    case Loaded(config) =>
      match ValidateConfigAsWritten(config, year)
      case Some(cause) => Failure(ConfigurationError(InvalidConfig(cause)))
      case None => Success(config)
  }

  /** Success means the file loaded and validated; a failure is a 404
      exactly when loading failed with "not found" in its message, and a
      500 otherwise; a year without a file is always a 404. */
  lemma LoadAndValidateMeaning(loader: Loader, year: int)
    ensures LoadAndValidateOf(loader, year).Success? <==>
              LoadConfig(loader, year).Loaded? && ValidateConfigAsWritten(LoadConfig(loader, year).config, year).None?
    ensures LoadAndValidateOf(loader, year).Success? ==>
              LoadAndValidateOf(loader, year).value == LoadConfig(loader, year).config
    ensures LoadAndValidateOf(loader, year).Failure? ==>
              (StatusCode(LoadAndValidateOf(loader, year).error) == 404 <==>
                 LoadConfig(loader, year).LoadFailed? && Contains(LoadConfig(loader, year).message, "not found"))
    ensures LoadAndValidateOf(loader, year).Failure? ==>
              StatusCode(LoadAndValidateOf(loader, year).error) in {404, 500}
    ensures year !in loader.files ==>
              LoadAndValidateOf(loader, year).Failure? && StatusCode(LoadAndValidateOf(loader, year).error) == 404
  {
    if year !in loader.files {
      assert "not found" <= NotFoundMessage[19..];
    }
  }

  /** `get_config` for an in-range year that is not cached. */
  function ConfigFor(loader: Loader, year: int): Result<map<string, int>, ConfigError> {
    match LoadAndValidateOf(loader, year)
    case Success(config) => Success(Symbolized(config))
    case Failure(e) => Failure(e)
  }

  /** A configuration the service hands out has every required key and
      only known keys, and every value in it is a positive integer (even
      though the line-anchored check lets through values that are not
      digits only). */
  lemma ConfigForIsComplete(loader: Loader, year: int)
    requires ConfigFor(loader, year).Success?
    ensures forall k :: k in RequiredKeys ==> Symbol(k) in ConfigFor(loader, year).value
    ensures forall s :: s in ConfigFor(loader, year).value ==>
              (exists k :: Symbol(k) == s) && ConfigFor(loader, year).value[s] > 0
  {
    var config := LoadConfig(loader, year).config;
    var result := ConfigFor(loader, year).value;
    SymbolizedContents(config);
    AllKeysCoverEveryKey();
  }

  /** The line-anchored check in service: a file whose deferral limit is
      a line of digits followed by other text loads, and its value is read
      from the leading digits. */
  lemma TrailingTextIsServed(loader: Loader, year: int)
    requires year in loader.files && loader.files[year].Loaded?
    requires var config := loader.files[year].config;
             && (forall k :: k in RequiredKeys ==> EnvName(k) in config)
             && config[EnvName(EmployeeDeferralLimit)] == "24500\nabc"
             && forall k :: k != EmployeeDeferralLimit && EnvName(k) in config ==> PositiveDigits(config[EnvName(k)])
    ensures ConfigFor(loader, year).Success?
    ensures ConfigFor(loader, year).value[Symbol(EmployeeDeferralLimit)] == 24500
  {
    var config := loader.files[year].config;
    TrailingTextValue();
    LineAnchoredAcceptsTrailingText(config, year);
    SymbolizedContents(config);
  }

  // ---- The service ----

  class Service {
    /** Validated configurations by year. */
    var cache: map<int, map<string, int>>
    /** The memoised year list. */
    var availableYears: Option<seq<int>>
    const loader: Loader
    /** The years whose file was loaded, in order. */
    ghost var loads: seq<int>
    /** How many times discovery ran. */
    ghost var scans: nat

    /** Everything cached is what loading that year would give now, and
        the memoised list is the non-empty list of valid years. */
    ghost predicate Valid()
      reads this
    {
      && (forall y :: y in cache ==> MinYear <= y <= MaxYear && ConfigFor(loader, y) == Success(cache[y]))
      && (availableYears.Some? ==> YearsOutcome(loader.discovered) == Success(availableYears.value))
    }

    constructor(loader: Loader)
      ensures this.loader == loader
      ensures cache == map[] && availableYears == None
      ensures loads == [] && scans == 0
      ensures Valid()
    {
      this.loader := loader;
      cache := map[];
      availableYears := None;
      loads := [];
      scans := 0;
    }

    /** `available_years`: the memoised list if there is one; otherwise the
        discovered years in range, memoised when there are any. */
    method AvailableYears() returns (r: Result<seq<int>, ConfigError>)
      requires Valid()
      modifies this
      ensures Valid()
      ensures r == YearsOutcome(loader.discovered)
      ensures availableYears == if r.Success? then Some(r.value) else old(availableYears)
      ensures old(availableYears).Some? ==> scans == old(scans)
      ensures cache == old(cache) && loads == old(loads)
    {
      if availableYears.Some? {
        return Success(availableYears.value);
      }
      var years := loader.discovered;
      scans := scans + 1;
      if years == [] {
        return Failure(ConfigurationError(NoConfigurationFiles));
      }
      var valid := ValidYears(years);
      if valid == [] {
        return Failure(ConfigurationError(NoValidConfigurations));
      }
      availableYears := Some(valid);
      r := Success(valid);
    }

    /** `default_year`: the largest available year. */
    method DefaultYear() returns (r: Result<int, ConfigError>)
      requires Valid()
      modifies this
      ensures Valid()
      ensures r.Success? <==> YearsOutcome(loader.discovered).Success?
      ensures r.Success? ==> r.value == MaxOf(YearsOutcome(loader.discovered).value)
      ensures r.Failure? ==> r.error == YearsOutcome(loader.discovered).error
      ensures availableYears == if r.Success? then Some(YearsOutcome(loader.discovered).value) else old(availableYears)
      ensures old(availableYears).Some? ==> scans == old(scans)
      ensures cache == old(cache) && loads == old(loads)
    {
      var years := AvailableYears();
      match years
      case Failure(e) => r := Failure(e);
      case Success(ys) => r := Success(MaxOf(ys));
    }

    /** `load_and_validate`: reads the year's file once. */
    method LoadAndValidate(year: int) returns (r: Result<map<string, string>, ConfigError>)
      modifies this`loads
      ensures r == LoadAndValidateOf(loader, year)
      ensures loads == old(loads) + [year]
    {
      var outcome := LoadConfig(loader, year);
      loads := loads + [year];
      match outcome
      case LoadFailed(message) =>
        if Contains(message, "not found") {
          r := Failure(ConfigNotFoundError(message));
        } else {
          r := Failure(ConfigurationError(LoadFailure(message)));
        }
      case Loaded(config) =>
        var error := ValidateConfigAsWritten(config, year);
        if error.Some? {
          r := Failure(ConfigurationError(InvalidConfig(error.value)));
        } else {
          r := Success(config);
        }
    }

    /** `get_config`: a year that is not an in-range integer fails with a
        400 and changes nothing; a cached year is answered without loading;
        any other year is loaded once, and cached when it is valid. Every
        answer for a valid year is what loading it would give. */
    method GetConfig(year: YearArg) returns (r: Result<map<string, int>, ConfigError>)
      requires Valid()
      modifies this
      ensures Valid()
      ensures availableYears == old(availableYears) && scans == old(scans)
      ensures ValidateYear(year).Some? ==>
                && r == Failure(YearOutOfRangeError(ValidateYear(year).value))
                && cache == old(cache) && loads == old(loads)
      ensures ValidateYear(year).None? ==> r == ConfigFor(loader, year.value)
      ensures ValidateYear(year).None? && year.value in old(cache) ==>
                cache == old(cache) && loads == old(loads)
      ensures ValidateYear(year).None? && year.value !in old(cache) ==>
                && loads == old(loads) + [year.value]
                && cache == if r.Success? then old(cache)[year.value := r.value] else old(cache)
    {
      var error := ValidateYear(year);
      if error.Some? {
        return Failure(YearOutOfRangeError(error.value));
      }
      var y := year.value;
      if y in cache {
        return Success(cache[y]);
      }
      var loaded := LoadAndValidate(y);
      match loaded
      case Failure(e) => r := Failure(e);
      case Success(config) =>
        var symbolized := ConvertToSymbolizedIntegers(config);
        cache := cache[y := symbolized];
        r := Success(symbolized);
    }

    /** `validate_startup!`: there are available years and the default
        year's configuration loads and validates. The year list is
        memoised and the default year's configuration cached as
        `get_config` leaves them, and a failure is the error of
        `available_years` or of loading the default year. The check for
        missing required keys that follows never fires, since a
        configuration that validated has them all. */
    method ValidateStartup() returns (r: Result<bool, ConfigError>)
      requires Valid()
      modifies this
      ensures Valid()
      ensures r.Success? <==>
                && YearsOutcome(loader.discovered).Success?
                && ConfigFor(loader, MaxOf(YearsOutcome(loader.discovered).value)).Success?
      ensures r.Success? ==> r.value
      ensures r.Failure? ==> !(r.error.ConfigurationError? && r.error.reason.StartupMissingKeys?)
      ensures r.Failure? && YearsOutcome(loader.discovered).Failure? ==> r.error == YearsOutcome(loader.discovered).error
      ensures YearsOutcome(loader.discovered).Success? ==>
                var dy := MaxOf(YearsOutcome(loader.discovered).value);
                && (r.Failure? ==> r.error == ConfigFor(loader, dy).error)
                && cache == (if r.Success? then old(cache)[dy := ConfigFor(loader, dy).value] else old(cache))
                && loads == (if dy in old(cache) then old(loads) else old(loads) + [dy])
      ensures YearsOutcome(loader.discovered).Failure? ==> cache == old(cache) && loads == old(loads)
      ensures availableYears == if YearsOutcome(loader.discovered).Success?
                                then Some(YearsOutcome(loader.discovered).value) else old(availableYears)
      ensures old(availableYears).Some? ==> scans == old(scans)
    {
      var years := AvailableYears();
      if years.Failure? {
        return Failure(years.error);
      }
      var config := DefaultConfig();
      match config
      case Failure(e) => r := Failure(e);
      case Success(c) =>
        ConfigForIsComplete(loader, MaxOf(years.value));
        var missing := MissingSymbols(RequiredKeys, c);
        if missing != [] {
          r := Failure(ConfigurationError(StartupMissingKeys(missing)));
        } else {
          r := Success(true);
        }
    }

    /** `get_config(default_year)` once the year list is memoised: the
        default year's configuration, loaded and cached unless it already
        is. */
    method DefaultConfig() returns (r: Result<map<string, int>, ConfigError>)
      requires Valid() && availableYears.Some?
      modifies this
      ensures Valid()
      ensures availableYears == old(availableYears) && scans == old(scans)
      ensures var dy := MaxOf(YearsOutcome(loader.discovered).value);
              && r == ConfigFor(loader, dy)
              && cache == (if r.Success? then old(cache)[dy := r.value] else old(cache))
              && loads == (if dy in old(cache) then old(loads) else old(loads) + [dy])
    {
      var defaultYear := DefaultYear();
      var dy := defaultYear.value;
      YearsOutcomeMeaning(loader.discovered);
      r := GetConfig(IntegerYear(dy));
      if dy in old(cache) {
        assert cache == old(cache)[dy := r.value];
      }
    }

    /** `clear_cache!`: forget every configuration and the year list. */
    method ClearCache()
      modifies this
      ensures cache == map[] && availableYears == None
      ensures loads == old(loads) && scans == old(scans)
      ensures Valid()
    {
      cache := map[];
      availableYears := None;
    }
  }
}
