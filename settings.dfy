/** Checking the run parameters before the capture loop starts: the GUI's
    validate_settings (interval, "Max screenshots" text, keep count) and the
    command-line checks done before the window opens. */
module Settings {
  import opened Wrappers
  import opened Decimal
  import opened Text

  /** Why a configuration is refused; each is one message box (or, on the
      command line, one message followed by exit status 1). */
  datatype SettingsError =
    | Unreadable           // a widget's value could not be read as a number
    | IntervalNotPositive
    | MaxCountNotPositive
    | MaxCountNotANumber
    | KeepNotPositive

  /** The accepted run parameters; `maxCount == None` means no limit. */
  datatype Settings = Settings(interval: real, maxCount: Option<int>, keep: int)

  /** The invariant every accepted configuration has. */
  predicate WellFormed(s: Settings) {
    s.interval > 0.0 && s.keep > 0 && (s.maxCount.Some? ==> s.maxCount.value > 0)
  }

  /** The "Max screenshots" text as validate_settings compares it. */
  function Normalise(text: string): string {
    Lower(Strip(text))
  }

  /** The max-count part of validate_settings: "infinite" or an empty
      entry mean no limit; anything else must be an integer above zero. */
  function ParseMaxCount(text: string): (r: Result<Option<int>, SettingsError>)
    ensures r == Success(None) <==> Normalise(text) == "infinite" || Normalise(text) == ""
    ensures r.Success? && r.value.Some? ==> r.value.value > 0 && ParseInt(Normalise(text)) == r.value
    ensures r == Failure(MaxCountNotANumber) <==>
              Normalise(text) != "infinite" && Normalise(text) != "" && ParseInt(Normalise(text)).None?
    ensures r == Failure(MaxCountNotPositive) <==>
              ParseInt(Normalise(text)).Some? && ParseInt(Normalise(text)).value <= 0
    ensures ParseInt(Normalise(text)).Some? && ParseInt(Normalise(text)).value > 0 ==>
              r == Success(ParseInt(Normalise(text)))
    ensures r.Failure? ==> r == Failure(MaxCountNotANumber) || r == Failure(MaxCountNotPositive)
  {
    var t := Normalise(text);
    KeywordsAreNotNumbers();
    if t == "infinite" || t == "" then Success(None)
    else
      var n := ParseInt(t);
      if n.None? then Failure(MaxCountNotANumber)
      else if n.value <= 0 then Failure(MaxCountNotPositive)
      else Success(n)
  }

  /** validate_settings: reads the interval, the max-count text and the keep
      count in that order and reports the first one that is wrong. A widget
      whose text is not a number is given as None. */
  function ValidateSettings(interval: Option<real>, maxCountText: string, keep: Option<int>)
    : (r: Result<Settings, SettingsError>)
    ensures r.Success? <==>
              && interval.Some? && interval.value > 0.0
              && ParseMaxCount(maxCountText).Success?
              && keep.Some? && keep.value > 0
    ensures r.Success? ==> WellFormed(r.value)
    ensures r.Success? ==>
              r.value == Settings(interval.value, ParseMaxCount(maxCountText).value, keep.value)
    ensures interval.None? ==> r == Failure(Unreadable)
    ensures interval.Some? && interval.value <= 0.0 ==> r == Failure(IntervalNotPositive)
  {
    if interval.None? then Failure(Unreadable)
    else if interval.value <= 0.0 then Failure(IntervalNotPositive)
    else match ParseMaxCount(maxCountText)
      case Failure(e) => Failure(e)
      case Success(maxCount) =>
        if keep.None? then Failure(Unreadable)
        else if keep.value <= 0 then Failure(KeepNotPositive)
        else Success(Settings(interval.value, maxCount, keep.value))
  }

  /** The command-line checks: interval, then keep, then max count; a
      failure prints its message and exits with status 1. */
  function CheckArguments(interval: real, keep: int, maxCount: Option<int>)
    : (r: Result<Settings, SettingsError>)
    ensures r.Success? <==> interval > 0.0 && keep > 0 && (maxCount.Some? ==> maxCount.value > 0)
    ensures r.Success? ==> WellFormed(r.value) && r.value == Settings(interval, maxCount, keep)
  {
    if interval <= 0.0 then Failure(IntervalNotPositive)
    else if keep <= 0 then Failure(KeepNotPositive)
    else if maxCount.Some? && maxCount.value <= 0 then Failure(MaxCountNotPositive)
    else Success(Settings(interval, maxCount, keep))
  }

  /** The text the "Max screenshots" entry starts with: the command-line
      value when it is truthy, "infinite" otherwise. */
  function MaxCountFieldText(maxCount: Option<int>): string {
    if maxCount.Some? && maxCount.value != 0 then IntToString(maxCount.value) else "infinite"
  }

  /** The defaults used when no arguments are given. */
  const DefaultInterval: real := 5.0
  const DefaultKeep: int := 100

  lemma KeywordsAreNotNumbers()
    ensures ParseInt("infinite").None? && ParseInt("").None?
  {
    assert !IsDigit("infinite"[0]);
  }

  /** The max-count text is compared without regard to ASCII letter case. */
  lemma ParseMaxCountIgnoresCase(a: string, b: string)
    requires Lower(a) == Lower(b)
    ensures ParseMaxCount(a) == ParseMaxCount(b)
  {
    StripLeftLower(a);
    StripRightLower(StripLeft(a));
    StripLeftLower(b);
    StripRightLower(StripLeft(b));
    assert Normalise(a) == Strip(Lower(a));
    assert Normalise(b) == Strip(Lower(b));
  }

  /** The max-count text is compared without regard to surrounding white space. */
  lemma ParseMaxCountIgnoresSpace(pre: string, text: string, post: string)
    requires AllSpace(pre) && AllSpace(post)
    ensures ParseMaxCount(pre + text + post) == ParseMaxCount(text)
  {
    StripIgnoresSurroundingSpace(pre, text, post);
  }

  // ---------------------------------------------------------------------
  // Command line and GUI agree

  /** The entry pre-filled from a command-line max count reads back as that
      count; a zero or absent count reads back as "no limit". */
  lemma MaxCountFieldRoundTrip(maxCount: Option<int>)
    ensures ParseMaxCount(MaxCountFieldText(maxCount)) ==
              if maxCount.None? || maxCount.value == 0 then Success(None)
              else if maxCount.value > 0 then Success(maxCount)
              else Failure(MaxCountNotPositive)
  {
    if maxCount.Some? && maxCount.value != 0 {
      var n := maxCount.value;
      var t := IntToString(n);
      NumeralIsNormal(n);
      ParseIntOfIntToString(n);
      assert t != "infinite" && t != "";
    }
  }

  /** A written integer has no surrounding space and no capital letter. */
  lemma NumeralIsNormal(n: int)
    ensures Normalise(IntToString(n)) == IntToString(n)
  {
    var t := IntToString(n);
    assert t[0] == '-' || IsDigit(t[0]);
    assert !IsSpace(t[0]) && !IsSpace(t[|t| - 1]);
    assert Strip(t) == t;
    assert Lower(t) == t;
  }

  /** Arguments the command line accepts are accepted unchanged by the GUI,
      whose widgets start with those values. */
  lemma CliAcceptedSettingsPassValidation(interval: real, keep: int, maxCount: Option<int>)
    requires CheckArguments(interval, keep, maxCount).Success?
    ensures ValidateSettings(Some(interval), MaxCountFieldText(maxCount), Some(keep))
            == CheckArguments(interval, keep, maxCount)
  {
    MaxCountFieldRoundTrip(maxCount);
  }

  /** The GUI started without arguments validates to: every 5 seconds, no
      limit, keep 100. */
  lemma DefaultsValidate()
    ensures ValidateSettings(Some(DefaultInterval), MaxCountFieldText(None), Some(DefaultKeep))
            == Success(Settings(5.0, None, 100))
  {
    assert Strip("infinite") == "infinite";
    assert Lower("infinite") == "infinite";
  }
}
