/** The checks a tax-year configuration must pass: the year is an integer
    in range, every required key is present, and every known key that is
    present holds a positive whole number written in decimal digits. */
module IrsValidator {
  import opened Wrappers

  /** The keys a configuration file may set. */
  datatype ConfigKey =
    | EmployeeDeferralLimit
    | Total401kLimit
    | CatchUpContribution
    | HsaIndividualLimit
    | HsaFamilyLimit

  /** The name of a key in a configuration file. */
  function EnvName(key: ConfigKey): string {
    match key
    case EmployeeDeferralLimit => "EMPLOYEE_DEFERRAL_LIMIT"
    case Total401kLimit => "TOTAL_401K_LIMIT"
    case CatchUpContribution => "CATCH_UP_CONTRIBUTION"
    case HsaIndividualLimit => "HSA_INDIVIDUAL_LIMIT"
    case HsaFamilyLimit => "HSA_FAMILY_LIMIT"
  }

  const RequiredKeys: seq<ConfigKey> := [EmployeeDeferralLimit, Total401kLimit, CatchUpContribution]
  const OptionalKeys: seq<ConfigKey> := [HsaIndividualLimit, HsaFamilyLimit]
  const AllKeys: seq<ConfigKey> := RequiredKeys + OptionalKeys

  const MinYear: int := 2020
  const MaxYear: int := 2050

  /** What `validate_year` is given: an Integer, or some other object. */
  datatype YearArg = IntegerYear(value: int) | NonIntegerYear(className: string)

  /** Why a year or a configuration is rejected; each carries what its
      message shows. */
  datatype ValidationError =
    | YearNotInteger(className: string)
    | YearOutOfRange(year: int)
    | MissingRequiredKeys(year: int, missing: seq<string>)
    | NotAPositiveInteger(key: string, year: int, value: string)
    | NotGreaterThanZero(key: string, year: int)

  /** `validate_year`: `None` is `[true, nil]`. A non-integer is rejected
      before the range is looked at; the range is inclusive at both ends. */
  function ValidateYear(year: YearArg): (error: Option<ValidationError>)
    ensures error.None? <==> year.IntegerYear? && MinYear <= year.value <= MaxYear
    ensures year.NonIntegerYear? ==> error == Some(YearNotInteger(year.className))
    ensures year.IntegerYear? && error.Some? ==> error == Some(YearOutOfRange(year.value))
  {
    if !year.IntegerYear? then Some(YearNotInteger(year.className))
    else if !(MinYear <= year.value <= MaxYear) then Some(YearOutOfRange(year.value))
    else None
  }

  // ---- Digit strings ----

  predicate IsDigit(c: char) {
    '0' <= c <= '9'
  }

  /** The whole string is one or more decimal digits. */
  predicate IsDigits(s: string) {
    |s| > 0 && forall i :: 0 <= i < |s| ==> IsDigit(s[i])
  }

  /** The number a string of decimal digits denotes. */
  function DigitsValue(s: string): (n: nat)
    requires forall i :: 0 <= i < |s| ==> IsDigit(s[i])
    ensures (exists i :: 0 <= i < |s| && s[i] != '0') <==> n > 0
    decreases |s|
  {
    if s == [] then 0
    else
      var front := s[..|s| - 1];
      assert forall i :: 0 <= i < |front| ==> front[i] == s[i];
      assert IsDigit(s[|s| - 1]);
      var digit := s[|s| - 1] as int - '0' as int;
      assert 0 <= digit <= 9 && (digit == 0 <==> s[|s| - 1] == '0');
      var n := DigitsValue(front) * 10 + digit;
      assert (exists i :: 0 <= i < |s| && s[i] != '0') ==> n > 0 by {
        if exists i :: 0 <= i < |s| && s[i] != '0' {
          var i :| 0 <= i < |s| && s[i] != '0';
          if i < |front| {
            assert front[i] != '0';
          }
        }
      }
      assert n > 0 ==> exists i :: 0 <= i < |s| && s[i] != '0' by {
        if digit > 0 {
          assert s[|s| - 1] != '0';
        } else if n > 0 {
          var i :| 0 <= i < |front| && front[i] != '0';
          assert s[i] != '0';
        }
      }
      n
  }

  /** The index where the first line of `s` ends: its first newline, or
      the end of the string. */
  function LineEnd(s: string): (e: nat)
    ensures e <= |s|
    ensures e < |s| ==> s[e] == '\n'
    ensures forall i :: 0 <= i < e ==> s[i] != '\n'
    decreases |s|
  {
    if s == [] || s[0] == '\n' then 0 else 1 + LineEnd(s[1..])
  }

  /** Some line of `s` is one or more digits and nothing else: what the
      line-anchored pattern `^\d+$` accepts. */
  predicate HasDigitLine(s: string)
    decreases |s|
  {
    var e := LineEnd(s);
    IsDigits(s[..e]) || (e < |s| && HasDigitLine(s[e + 1..]))
  }

  /** The digits at the start of `s`. */
  function LeadingDigits(s: string): (d: string)
    ensures |d| <= |s| && d == s[..|d|]
    ensures forall i :: 0 <= i < |d| ==> IsDigit(d[i])
    ensures |d| < |s| ==> !IsDigit(s[|d|])
    decreases |s|
  {
    if s != [] && IsDigit(s[0]) then [s[0]] + LeadingDigits(s[1..]) else []
  }

  predicate IsSpace(c: char) {
    c == ' ' || c == '\t' || c == '\n' || c == '\U{000B}' || c == '\U{000C}' || c == '\r'
  }

  function SkipSpace(s: string): (t: string)
    ensures |t| <= |s| && t == s[|s| - |t|..]
    ensures t != [] ==> !IsSpace(t[0])
    decreases |s|
  {
    if s != [] && IsSpace(s[0]) then SkipSpace(s[1..]) else s
  }

  /** `String#to_i`: leading white space, an optional sign, then as many
      decimal digits as there are; anything after them is ignored, and no
      digits gives 0. */
  function ToI(s: string): int {
    var t := SkipSpace(s);
    if t != [] && t[0] == '-' then -(DigitsValue(LeadingDigits(t[1..])) as int)
    else if t != [] && t[0] == '+' then DigitsValue(LeadingDigits(t[1..]))
    else DigitsValue(LeadingDigits(t))
  }

  /** On a string of digits `to_i` is its decimal value. */
  lemma ToIOfDigits(s: string)
    requires IsDigits(s)
    ensures ToI(s) == DigitsValue(s)
  {
    assert !IsSpace(s[0]);
    assert SkipSpace(s) == s;
    LeadingDigitsOfDigits(s);
  }

  lemma {:induction false} LeadingDigitsOfDigits(s: string)
    requires forall i :: 0 <= i < |s| ==> IsDigit(s[i])
    ensures LeadingDigits(s) == s
    decreases |s|
  {
    if s != [] {
      LeadingDigitsOfDigits(s[1..]);
    }
  }

  /** `to_i` of digits followed by other text is the value of the digits. */
  lemma ToIOfDigitsBeforeText(d: string, rest: string)
    requires IsDigits(d)
    requires rest != [] && !IsDigit(rest[0])
    ensures ToI(d + rest) == DigitsValue(d)
  {
    var v := d + rest;
    assert v[0] == d[0] && IsDigit(d[0]);
    assert !IsSpace(v[0]) && v[0] != '-' && v[0] != '+';
    assert SkipSpace(v) == v;
    LeadingDigitsBeforeText(d, rest);
    assert ToI(v) == DigitsValue(LeadingDigits(v));
  }

  /** The digits before a non-digit are the leading digits. */
  lemma {:induction false} LeadingDigitsBeforeText(d: string, rest: string)
    requires forall i :: 0 <= i < |d| ==> IsDigit(d[i])
    requires rest != [] && !IsDigit(rest[0])
    ensures LeadingDigits(d + rest) == d
    decreases |d|
  {
    if d != [] {
      assert (d + rest)[1..] == d[1..] + rest;
      LeadingDigitsBeforeText(d[1..], rest);
    } else {
      assert d + rest == rest;
    }
  }

  // ---- Configuration values ----

  /** How a value is matched against the digits pattern: line by line, as
      `^\d+$` does, or over the whole string, as `\A\d+\z` would. */
  datatype DigitMatch = LineAnchored | WholeString

  predicate MatchesDigits(how: DigitMatch, value: string) {
    match how
    case LineAnchored => HasDigitLine(value)
    case WholeString => IsDigits(value)
  }

  /** The check of one present value: the digits pattern first, then
      `to_i` must be above 0. */
  function ValueError(how: DigitMatch, key: ConfigKey, value: string, year: int): Option<ValidationError> {
    if !MatchesDigits(how, value) then Some(NotAPositiveInteger(EnvName(key), year, value))
    else if ToI(value) <= 0 then Some(NotGreaterThanZero(EnvName(key), year))
    else None
  }

  /** The file names of `keys` that `config` lacks, in the order of `keys`. */
  function MissingFrom(keys: seq<ConfigKey>, config: map<string, string>): (missing: seq<string>)
    ensures forall name :: name in missing <==> exists k :: k in keys && EnvName(k) == name && name !in config
    ensures missing == [] <==> forall k :: k in keys ==> EnvName(k) in config
    ensures |missing| <= |keys|
  {
    if keys == [] then []
    else (if EnvName(keys[0]) in config then [] else [EnvName(keys[0])]) + MissingFrom(keys[1..], config)
  }

  /** The `ALL_KEYS.each` search: the error of the first key in `keys`
      that is present with a bad value, if any; absent keys are skipped. */
  function FirstValueError(how: DigitMatch, keys: seq<ConfigKey>, config: map<string, string>, year: int)
    : (error: Option<ValidationError>)
    ensures error.None? <==>
              forall i :: 0 <= i < |keys| && EnvName(keys[i]) in config ==>
                ValueError(how, keys[i], config[EnvName(keys[i])], year).None?
    decreases |keys|
  {
    if keys == [] then None
    else
      var name := EnvName(keys[0]);
      if name in config && ValueError(how, keys[0], config[name], year).Some? then
        ValueError(how, keys[0], config[name], year)
      else
        assert forall i :: 1 <= i < |keys| ==> keys[i] == keys[1..][i - 1];
        FirstValueError(how, keys[1..], config, year)
  }

  /** Every key of `keys` before index `i` that `config` has holds a
      value that passes. */
  predicate PassBefore(how: DigitMatch, keys: seq<ConfigKey>, config: map<string, string>, year: int, i: int)
    requires i <= |keys|
  {
    forall j :: 0 <= j < i && EnvName(keys[j]) in config ==>
      ValueError(how, keys[j], config[EnvName(keys[j])], year).None?
  }

  /** The search reports the first present key with a bad value: every
      present key before it passes. */
  lemma {:induction false} FirstValueErrorIsFirst(how: DigitMatch, keys: seq<ConfigKey>, config: map<string, string>,
                                                  year: int)
    requires FirstValueError(how, keys, config, year).Some?
    ensures exists i :: && 0 <= i < |keys| && EnvName(keys[i]) in config
                        && FirstValueError(how, keys, config, year)
                           == ValueError(how, keys[i], config[EnvName(keys[i])], year)
                        && PassBefore(how, keys, config, year, i)
    decreases |keys|
  {
    var name := EnvName(keys[0]);
    if name in config && ValueError(how, keys[0], config[name], year).Some? {
      assert PassBefore(how, keys, config, year, 0);
    } else {
      var tail := keys[1..];
      assert FirstValueError(how, keys, config, year) == FirstValueError(how, tail, config, year);
      FirstValueErrorIsFirst(how, tail, config, year);
      var i :| && 0 <= i < |tail| && EnvName(tail[i]) in config
               && FirstValueError(how, tail, config, year) == ValueError(how, tail[i], config[EnvName(tail[i])], year)
               && PassBefore(how, tail, config, year, i);
      PassBeforeCons(how, keys, config, year, i);
      assert keys[i + 1] == tail[i];
    }
  }

  /** Passing before `i` in the tail, and at the head, is passing before
      `i + 1` in the whole sequence. */
  lemma PassBeforeCons(how: DigitMatch, keys: seq<ConfigKey>, config: map<string, string>, year: int, i: int)
    requires 0 <= i < |keys| - 1
    requires PassBefore(how, keys[1..], config, year, i)
    requires EnvName(keys[0]) in config ==> ValueError(how, keys[0], config[EnvName(keys[0])], year).None?
    ensures PassBefore(how, keys, config, year, i + 1)
  {
    forall j | 0 < j < i + 1 && EnvName(keys[j]) in config
      ensures ValueError(how, keys[j], config[EnvName(keys[j])], year).None?
    {
      assert keys[j] == keys[1..][j - 1];
    }
  }

  /** `validate_config` with a given pattern match: missing required keys
      first, then the value of each known key that is present. */
  function ValidateConfigWith(how: DigitMatch, config: map<string, string>, year: int): Option<ValidationError> {
    var missing := MissingFrom(RequiredKeys, config);
    if |missing| > 0 then Some(MissingRequiredKeys(year, missing))
    else FirstValueError(how, AllKeys, config, year)
  }

  /** `validate_config` as written, with the line-anchored `^\d+$`. A
      configuration is accepted exactly when it has every required key
      and every known key it has holds a value with some line of digits
      whose `to_i` is positive; a missing required key is reported before
      any value is looked at. */
  function ValidateConfigAsWritten(config: map<string, string>, year: int): (error: Option<ValidationError>)
    ensures error.None? <==>
              && (forall k :: k in RequiredKeys ==> EnvName(k) in config)
              && (forall k :: k in AllKeys && EnvName(k) in config ==> PositiveDigitLine(config[EnvName(k)]))
    ensures (exists k :: k in RequiredKeys && EnvName(k) !in config) ==>
              error == Some(MissingRequiredKeys(year, MissingFrom(RequiredKeys, config)))
  {
    var missing := MissingFrom(RequiredKeys, config);
    if |missing| > 0 then
      assert missing[0] in missing;
      ValidateConfigWith(LineAnchored, config, year)
    else
      assert forall k :: k in RequiredKeys ==> EnvName(k) in config by {
        forall k | k in RequiredKeys ensures EnvName(k) in config {
          assert EnvName(k) !in config ==> EnvName(k) in missing;
        }
      }
      assert forall k :: k in AllKeys ==> exists i :: 0 <= i < |AllKeys| && AllKeys[i] == k;
      ValidateConfigWith(LineAnchored, config, year)
  }

  /** What the line-anchored check lets through: some line of digits, and
      a positive `to_i`. */
  predicate PositiveDigitLine(value: string) {
    HasDigitLine(value) && ToI(value) > 0
  }

  /** `validate_config` as its message promises: every present value is a
      positive integer written in digits only. A configuration is accepted
      exactly when it has every required key and every known key it has
      holds such a value; a missing required key is reported before any
      value is looked at. */
  function ValidateConfig(config: map<string, string>, year: int): (error: Option<ValidationError>)
    ensures error.None? <==>
              && (forall k :: k in RequiredKeys ==> EnvName(k) in config)
              && (forall k :: k in AllKeys && EnvName(k) in config ==> PositiveDigits(config[EnvName(k)]))
    ensures (exists k :: k in RequiredKeys && EnvName(k) !in config) ==>
              error == Some(MissingRequiredKeys(year, MissingFrom(RequiredKeys, config)))
  {
    var missing := MissingFrom(RequiredKeys, config);
    if |missing| > 0 then
      assert missing[0] in missing;
      ValidateConfigWith(WholeString, config, year)
    else
      assert forall k :: k in RequiredKeys ==> EnvName(k) in config by {
        forall k | k in RequiredKeys ensures EnvName(k) in config {
          assert EnvName(k) !in config ==> EnvName(k) in missing;
        }
      }
      WholeStringChecksPositiveDigits(config, year);
      assert forall k :: k in AllKeys ==> exists i :: 0 <= i < |AllKeys| && AllKeys[i] == k;
      ValidateConfigWith(WholeString, config, year)
  }

  /** With the whole-string match a present value passes exactly when it
      is digits only and not all zeros. */
  lemma WholeStringChecksPositiveDigits(config: map<string, string>, year: int)
    ensures forall k :: EnvName(k) in config ==>
              (ValueError(WholeString, k, config[EnvName(k)], year).None? <==> PositiveDigits(config[EnvName(k)]))
  {
    forall k | EnvName(k) in config
      ensures ValueError(WholeString, k, config[EnvName(k)], year).None? <==> PositiveDigits(config[EnvName(k)])
    {
      if IsDigits(config[EnvName(k)]) {
        ToIOfDigits(config[EnvName(k)]);
      }
    }
  }

  /** A value the intended check accepts: digits only, not all zeros. */
  predicate PositiveDigits(value: string) {
    IsDigits(value) && DigitsValue(value) > 0
  }

  /** Keys outside the known ones never matter: two configurations that
      agree on the known keys get the same verdict. */
  lemma ValidateConfigIgnoresOtherKeys(c1: map<string, string>, c2: map<string, string>, year: int)
    requires forall k :: (EnvName(k) in c1 <==> EnvName(k) in c2)
    requires forall k :: EnvName(k) in c1 ==> c1[EnvName(k)] == c2[EnvName(k)]
    ensures ValidateConfigWith(LineAnchored, c1, year) == ValidateConfigWith(LineAnchored, c2, year)
    ensures ValidateConfig(c1, year) == ValidateConfig(c2, year)
  {
    MissingFromAgrees(RequiredKeys, c1, c2);
    FirstValueErrorAgrees(LineAnchored, AllKeys, c1, c2, year);
    FirstValueErrorAgrees(WholeString, AllKeys, c1, c2, year);
  }

  lemma {:induction false} MissingFromAgrees(keys: seq<ConfigKey>, c1: map<string, string>, c2: map<string, string>)
    requires forall k :: (EnvName(k) in c1 <==> EnvName(k) in c2)
    ensures MissingFrom(keys, c1) == MissingFrom(keys, c2)
    decreases |keys|
  {
    if keys != [] {
      MissingFromAgrees(keys[1..], c1, c2);
    }
  }

  lemma {:induction false} FirstValueErrorAgrees(how: DigitMatch, keys: seq<ConfigKey>, c1: map<string, string>,
                                                 c2: map<string, string>, year: int)
    requires forall k :: (EnvName(k) in c1 <==> EnvName(k) in c2)
    requires forall k :: EnvName(k) in c1 ==> c1[EnvName(k)] == c2[EnvName(k)]
    ensures FirstValueError(how, keys, c1, year) == FirstValueError(how, keys, c2, year)
    decreases |keys|
  {
    if keys != [] {
      FirstValueErrorAgrees(how, keys[1..], c1, c2, year);
    }
  }

  /** The line-anchored pattern accepts every value the whole-string one
      does, so the as-written check never rejects a configuration that the
      intended check accepts. */
  lemma AsWrittenAcceptsWhatIntendedAccepts(config: map<string, string>, year: int)
    requires ValidateConfig(config, year).None?
    ensures ValidateConfigAsWritten(config, year).None?
  {
    forall k | k in AllKeys && EnvName(k) in config
      ensures ValueError(LineAnchored, k, config[EnvName(k)], year).None?
    {
      var v := config[EnvName(k)];
      assert PositiveDigits(v);
      DigitsAreADigitLine(v);
      ToIOfDigits(v);
    }
  }

  lemma DigitsAreADigitLine(s: string)
    requires IsDigits(s)
    ensures HasDigitLine(s)
  {
    LineEndOfDigits(s);
    assert s[..|s|] == s;
  }

  lemma {:induction false} LineEndOfDigits(s: string)
    requires forall i :: 0 <= i < |s| ==> IsDigit(s[i])
    ensures LineEnd(s) == |s|
    decreases |s|
  {
    if s != [] {
      LineEndOfDigits(s[1..]);
    }
  }

  /** As written, a required value made of a digit line and then other
      text passes: the pattern finds the digit line and `to_i` reads the
      digits; the intended check rejects the same configuration with that
      key's "not a positive integer". */
  lemma LineAnchoredAcceptsTrailingText(config: map<string, string>, year: int)
    requires forall k :: k in RequiredKeys ==> EnvName(k) in config
    requires var v := config[EnvName(EmployeeDeferralLimit)];
             HasDigitLine(v) && ToI(v) > 0 && !IsDigits(v)
    requires forall k :: k != EmployeeDeferralLimit && EnvName(k) in config ==> PositiveDigits(config[EnvName(k)])
    ensures ValidateConfigAsWritten(config, year) == None
    ensures ValidateConfig(config, year)
            == Some(NotAPositiveInteger("EMPLOYEE_DEFERRAL_LIMIT", year, config["EMPLOYEE_DEFERRAL_LIMIT"]))
  {
    AsWrittenPassesOthers(config, year);
    IntendedRejectsFirstKey(config, year);
  }

  lemma AsWrittenPassesOthers(config: map<string, string>, year: int)
    requires forall k :: k in RequiredKeys ==> EnvName(k) in config
    requires PositiveDigitLine(config[EnvName(EmployeeDeferralLimit)])
    requires forall k :: k != EmployeeDeferralLimit && EnvName(k) in config ==> PositiveDigits(config[EnvName(k)])
    ensures ValidateConfigAsWritten(config, year) == None
  {
    forall k | k in AllKeys && EnvName(k) in config
      ensures PositiveDigitLine(config[EnvName(k)])
    {
      if k != EmployeeDeferralLimit {
        var v := config[EnvName(k)];
        DigitsAreADigitLine(v);
        ToIOfDigits(v);
      }
    }
  }

  lemma IntendedRejectsFirstKey(config: map<string, string>, year: int)
    requires forall k :: k in RequiredKeys ==> EnvName(k) in config
    requires !IsDigits(config[EnvName(EmployeeDeferralLimit)])
    ensures ValidateConfig(config, year)
            == Some(NotAPositiveInteger("EMPLOYEE_DEFERRAL_LIMIT", year, config["EMPLOYEE_DEFERRAL_LIMIT"]))
  {
    assert MissingFrom(RequiredKeys, config) == [];
    assert AllKeys[0] == EmployeeDeferralLimit;
  }

  /** "24500\nabc" is such a value: its first line is digits, `to_i` reads
      24500, and it is not digits only. */
  lemma TrailingTextValue()
    ensures HasDigitLine("24500\nabc") && !IsDigits("24500\nabc")
    ensures ToI("24500\nabc") == 24500
  {
    TrailingTextLines();
    TrailingTextToI();
  }

  lemma TrailingTextLines()
    ensures HasDigitLine("24500\nabc") && !IsDigits("24500\nabc")
  {
    assert "24500" + "\nabc" == "24500\nabc";
    DigitLineBeforeText("24500", "\nabc");
  }

  /** Digits ending at a line break form a digit line, and the whole
      string is then not digits only. */
  lemma DigitLineBeforeText(d: string, rest: string)
    requires IsDigits(d)
    requires rest != [] && rest[0] == '\n'
    ensures HasDigitLine(d + rest) && !IsDigits(d + rest)
  {
    var v := d + rest;
    LineEndBeforeBreak(d, rest);
    assert v[..|d|] == d;
    assert v[|d|] == '\n';
  }

  lemma {:induction false} LineEndBeforeBreak(d: string, rest: string)
    requires forall i :: 0 <= i < |d| ==> IsDigit(d[i])
    requires rest != [] && rest[0] == '\n'
    ensures LineEnd(d + rest) == |d|
    decreases |d|
  {
    if d != [] {
      assert (d + rest)[1..] == d[1..] + rest;
      LineEndBeforeBreak(d[1..], rest);
    } else {
      assert d + rest == rest;
    }
  }

  lemma TrailingTextToI()
    ensures ToI("24500\nabc") == 24500
  {
    assert "24500" + "\nabc" == "24500\nabc";
    ToIOfDigitsBeforeText("24500", "\nabc");
    DigitsValueOf24500();
  }

  lemma DigitsValueOf24500()
    ensures DigitsValue("24500") == 24500
  {
    assert DigitsValue("2") == 2 by { assert "2"[..0] == ""; }
    assert DigitsValue("24") == 24 by { assert "24"[..1] == "2"; }
    assert DigitsValue("245") == 245 by { assert "245"[..2] == "24"; }
    assert DigitsValue("2450") == 2450 by { assert "2450"[..3] == "245"; }
    assert DigitsValue("24500") == 24500 by { assert "24500"[..4] == "2450"; }
  }

  /** A plain positive digit string passes both checks. */
  lemma PositiveDigitsPass(v: string)
    requires PositiveDigits(v)
    ensures forall how, k, year :: ValueError(how, k, v, year) == None
  {
    DigitsAreADigitLine(v);
    ToIOfDigits(v);
  }
}
