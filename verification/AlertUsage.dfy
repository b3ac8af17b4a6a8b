/** The API usage alerts of pkg/products/marin3r/apiUsagePrometheusRules.go: reading the period and
    the percentages, and the numbers the alert expressions compare against. */
module AlertUsage {
  import opened Options
  import opened Multisets
  import opened Numerals

  datatype Result<T> = Ok(value: T) | Err

  const MAX_UINT32: int := 0xFFFF_FFFF
  const TWO_32: int := 0x1_0000_0000
  const TWO_63: int := 0x8000_0000_0000_0000
  const TWO_64: int := 0x1_0000_0000_0000_0000

  // ---------------------------------------------------------------- the regular expressions

  predicate IsLetter(c: char) { 'a' <= c <= 'z' || 'A' <= c <= 'Z' }

  predicate IsPercent(c: char) { c == '%' }

  predicate EndsLine(s: string, k: nat)
    requires k <= |s|
  {
    k == |s| || s[k] == '\n'
  }

  /** `(?m)([0-9]+)X$` matches from `i`, with the digits ending before the character at `j`. */
  predicate MatchAt(s: string, last: char -> bool, i: nat, j: nat) {
    i < j < |s| && AllDigits(s[i..j]) && last(s[j]) && EndsLine(s, j + 1)
  }

  datatype Match = Match(start: nat, end: nat)

  predicate IsMatch(s: string, last: char -> bool, m: Match) { MatchAt(s, last, m.start, m.end) }

  lemma MatchEnd(s: string, last: char -> bool, i: nat, j: nat)
    requires MatchAt(s, last, i, j) && !IsDigit(s[j])
    ensures j == i + DigitPrefix(s[i..])
  {
    assert s[i..] == s[i..j] + s[j..];
    DigitPrefixOfConcat(s[i..j], s[j..]);
  }

  /** The leftmost match at or after `i`. */
  function FindFrom(s: string, last: char -> bool, i: nat): (r: Option<Match>)
    requires i <= |s| && forall c | last(c) :: !IsDigit(c)
    ensures r.Some? ==> i <= r.value.start && IsMatch(s, last, r.value)
    ensures forall m: Match | i <= m.start && IsMatch(s, last, m) ::
      r.Some? && (r.value == m || r.value.start < m.start)
    decreases |s| - i
  {
    if i == |s| then None
    else
      var j := i + DigitPrefix(s[i..]);
      assert s[i..][..j - i] == s[i..j];
      assert forall m: Match | m.start == i && IsMatch(s, last, m) :: m.end == j by {
        forall m: Match | m.start == i && IsMatch(s, last, m) ensures m.end == j { MatchEnd(s, last, i, m.end); }
      }
      if MatchAt(s, last, i, j) then Some(Match(i, j)) else FindFrom(s, last, i + 1)
  }

  /** The digits and the character of the leftmost match. */
  function Find(s: string, last: char -> bool): (r: Option<(string, char)>)
    requires forall c | last(c) :: !IsDigit(c)
    ensures r.Some? ==> IsNumeral(r.value.0) && last(r.value.1)
  {
    match FindFrom(s, last, 0)
    case None => None
    case Some(m) => Some((s[m.start..m.end], s[m.end]))
  }

  /** Digits and a character at the beginning that end their line are what is found, whatever the lines
      after it say. */
  lemma FindWhole(d: string, c: char, rest: string, last: char -> bool)
    requires IsNumeral(d) && last(c) && forall x | last(x) :: !IsDigit(x)
    requires rest == "" || rest[0] == '\n'
    ensures Find(d + [c] + rest, last) == Some((d, c))
  {
    var s := d + [c] + rest;
    assert s[0..|d|] == d && s[|d|] == c;
    assert IsMatch(s, last, Match(0, |d|));
    var m := FindFrom(s, last, 0).value;
    MatchEnd(s, last, 0, |d|);
    MatchEnd(s, last, 0, m.end);
  }

  // ---------------------------------------------------------------- the period

  /** Two's complement arithmetic on `int64`. */
  function Wrap64(n: int): int { (n + TWO_63) % TWO_64 - TWO_63 }

  function Multiplier(unit: char): Option<nat> {
    if unit == 'm' || unit == 'M' then Some(1)
    else if unit == 'h' || unit == 'H' then Some(60)
    else None
  }

  function IntervalToMinutes(interval: string): Result<nat> {
    match Find(interval, IsLetter)
    case None => Err
    case Some((digits, unit)) =>
      match (Multiplier(unit), Atoi(digits))
      case (Some(multiplier), Some(n)) =>
        var result := Wrap64(n * multiplier);
        if result < 0 || result > MAX_UINT32 then Err else Ok(result)
      case _ => Err
  }

  /** The number of minutes an interval spells, whatever its size. */
  predicate Spells(interval: string, minutes: nat) {
    match Find(interval, IsLetter)
    case None => false
    case Some((digits, unit)) =>
      Multiplier(unit).Some? && Value(digits) <= MAX_INT && minutes == Value(digits) * Multiplier(unit).value
  }

  lemma WrapInRange(n: nat)
    ensures 0 <= Wrap64(n) <= MAX_UINT32 <==> n % TWO_64 <= MAX_UINT32
    ensures n % TWO_64 <= MAX_UINT32 ==> Wrap64(n) == n % TWO_64
  {
    var q, r := n / TWO_64, n % TWO_64;
    if r < TWO_63 {
      assert n + TWO_63 == q * TWO_64 + (r + TWO_63);
      assert Wrap64(n) == r;
    } else {
      assert n + TWO_63 == (q + 1) * TWO_64 + (r - TWO_63);
      assert Wrap64(n) == r - TWO_64;
    }
  }

  /** What is accepted, and as what. */
  lemma IntervalAcceptedIff(interval: string, m: nat)
    ensures IntervalToMinutes(interval) == Ok(m)
       <==> exists n: nat :: Spells(interval, n) && m == n % TWO_64 <= MAX_UINT32
  {
    match Find(interval, IsLetter)
    case None =>
    case Some((digits, unit)) =>
      if Multiplier(unit).Some? && Value(digits) <= MAX_INT {
        var n := Value(digits) * Multiplier(unit).value;
        assert Spells(interval, n);
        WrapInRange(n);
      }
  }

  /** A spelled interval is either read as what it spells or rejected as too large for `uint32`
      exactly when its product does not wrap around to a small number. */
  lemma IntervalHonestIff(interval: string, n: nat)
    requires Spells(interval, n)
    ensures IntervalToMinutes(interval) == (if n <= MAX_UINT32 then Ok(n) else Err)
       <==> (n < TWO_64 || n % TWO_64 > MAX_UINT32)
  {
    WrapInRange(n);
    if n < TWO_64 {
      assert n % TWO_64 == n;
    }
  }

  /** A number and a unit are read back as the minutes they stand for. */
  lemma IntervalRoundTrip(n: nat, unit: char)
    requires n <= MAX_INT && Multiplier(unit).Some?
    ensures Spells(Print(n) + [unit], n * Multiplier(unit).value)
    ensures n * Multiplier(unit).value <= MAX_UINT32 ==>
      IntervalToMinutes(Print(n) + [unit]) == Ok(n * Multiplier(unit).value)
  {
    assert Print(n) + [unit] + "" == Print(n) + [unit];
    FindWhole(Print(n), unit, "", IsLetter);
    ValueOfPrint(n);
    IntervalHonestIff(Print(n) + [unit], n * Multiplier(unit).value);
  }

  /** What is read of a product that does not wrap around. */
  function Fitting(minutes: nat): Result<nat> { if minutes <= MAX_UINT32 then Ok(minutes) else Err }

  lemma PlainReading(n: nat, unit: char, product: nat)
    requires n <= MAX_INT && Multiplier(unit).Some? && product == n * Multiplier(unit).value < TWO_64
    ensures IntervalToMinutes(Print(n) + [unit]) == Fitting(product)
  {
    IntervalRoundTrip(n, unit);
    IntervalHonestIff(Print(n) + [unit], product);
  }

  /** Minutes count as they are, in either case of the letter. */
  lemma PlainMinutes(n: nat, unit: char)
    requires n <= MAX_INT && unit in {'m', 'M'}
    ensures IntervalToMinutes(Print(n) + [unit]) == Fitting(n)
  {
    PlainReading(n, unit, n);
  }

  /** Hours count sixtyfold. */
  lemma PlainHours(n: nat, unit: char)
    requires n <= MAX_INT && n * 60 < TWO_64 && unit in {'h', 'H'}
    ensures IntervalToMinutes(Print(n) + [unit]) == Fitting(n * 60)
  {
    PlainReading(n, unit, n * 60);
  }

  /** No other letter is accepted. */
  lemma PlainOther(n: nat, unit: char)
    requires n <= MAX_INT && IsLetter(unit) && unit !in {'m', 'M', 'h', 'H'}
    ensures IntervalToMinutes(Print(n) + [unit]) == Err
  {
    assert Print(n) + [unit] + "" == Print(n) + [unit];
    FindWhole(Print(n), unit, "", IsLetter);
  }

  /** The wrap-around is reached by numbers of hours that fit an `int`. */
  lemma SomeHoursWrap() returns (hours: nat)
    ensures hours <= MAX_INT && hours * 60 >= TWO_64 && hours * 60 % TWO_64 <= MAX_UINT32
  {
    hours := 307445734561825861;
    assert hours * 60 == TWO_64 + 44;
  }

  /** Such an interval, 307,445,734,561,825,861 hours for one, is accepted as a short one. */
  lemma HoursWrapAround()
    ensures exists hours: nat ::
      hours * 60 >= TWO_64 && IntervalToMinutes(Print(hours) + ['h']).Ok?
  {
    var hours := SomeHoursWrap();
    HoursReadModulo(hours);
  }

  lemma HoursReadModulo(n: nat)
    requires n <= MAX_INT && n * 60 % TWO_64 <= MAX_UINT32
    ensures IntervalToMinutes(Print(n) + ['h']) == Ok(n * 60 % TWO_64)
  {
    IntervalRoundTrip(n, 'h');
    WrapInRange(n * 60);
  }

  // ---------------------------------------------------------------- the allowance

  /** `getUnitInSeconds`, the window of the limitador limit. */
  function UnitInSeconds(unit: string): Result<nat> {
    if unit == "second" then Ok(1)
    else if unit == "minute" then Ok(60)
    else if unit == "hour" then Ok(60 * 60)
    else if unit == "day" then Ok(60 * 60 * 24)
    else Err
  }

  /** `getRateLimitInSeconds`. */
  function RatePerSecond(unit: string, requests: nat): Result<real> {
    if unit == "second" then Ok(requests as real)
    else if unit == "minute" then Ok(requests as real / 60.0)
    else if unit == "hour" then Ok(requests as real / 3600.0)
    else if unit == "day" then Ok(requests as real / 86400.0)
    else Err
  }

  /** The requests allowed over a period: the minutes are turned into seconds in `uint32`. */
  function Allowance(rate: real, minutes: nat): real { rate * (minutes * 60 % TWO_32) as real }

  /** The limitador limit scaled from its window to the period. */
  function Scaled(requests: nat, minutes: nat, window: nat): real
    requires window > 0
  {
    requests as real * (minutes * 60) as real / window as real
  }

  lemma SameUnits(unit: string, requests: nat)
    ensures UnitInSeconds(unit).Ok? <==> RatePerSecond(unit, requests).Ok?
    ensures UnitInSeconds(unit).Ok? ==>
      (&& UnitInSeconds(unit).value > 0
       && RatePerSecond(unit, requests).value * UnitInSeconds(unit).value as real == requests as real)
  {
  }

  lemma CancelDivision(rate: real, window: real, seconds: real)
    requires window > 0.0
    ensures rate * window * seconds / window == rate * seconds
  {
    assert rate * window * seconds == (rate * seconds) * window;
  }

  /** For every unit the alert's allowance is the limitador limit scaled from its window to the alert's
      period exactly for periods of at most 71,582,788 minutes (or a limit of zero). */
  lemma AllowanceExactIff(unit: string, requests: nat, minutes: nat)
    requires UnitInSeconds(unit).Ok? && RatePerSecond(unit, requests).Ok?
    ensures UnitInSeconds(unit).value > 0
    ensures Allowance(RatePerSecond(unit, requests).value, minutes)
         == Scaled(requests, minutes, UnitInSeconds(unit).value)
       <==> (minutes <= 71_582_788 || requests == 0)
  {
    SameUnits(unit, requests);
    var rate, window := RatePerSecond(unit, requests).value, UnitInSeconds(unit).value as real;
    var exact, wrapped := (minutes * 60) as real, (minutes * 60 % TWO_32) as real;
    CancelDivision(rate, window, exact);
    assert Scaled(requests, minutes, UnitInSeconds(unit).value) == rate * exact;
    if requests == 0 {
      assert rate == 0.0;
    } else {
      assert rate > 0.0;
      SameProduct(rate, wrapped, exact);
    }
  }

  lemma SameProduct(rate: real, x: real, y: real)
    requires rate > 0.0
    ensures rate * x == rate * y <==> x == y
  {
    if rate * x == rate * y {
      assert rate * (x - y) == 0.0;
    }
  }

  // ---------------------------------------------------------------- percentages

  datatype Percentage = Absent | Percent(n: nat) | Invalid

  /** Digits too large for an `int` are treated like an absent percentage. */
  function ParsePercentage(percentage: Option<string>): Percentage {
    if percentage.None? then Absent
    else match Find(percentage.value, IsPercent)
      case None => Invalid
      case Some((digits, _)) =>
        match Atoi(digits)
        case None => Absent
        case Some(n) => if n > 100 then Invalid else Percent(n)
  }

  datatype RangeResult = Range(min: nat, max: Option<nat>) | Rejected | NilDereference

  /** An absent minimum is dereferenced all the same. */
  function ParsePercentageRange(min: string, max: Option<string>): RangeResult {
    var lo := ParsePercentage(Some(min));
    if lo.Invalid? then Rejected
    else
      var hi := ParsePercentage(max);
      if hi.Invalid? then Rejected
      else if lo.Absent? then NilDereference
      else if hi.Percent? && lo.n > hi.n then Rejected
      else Range(lo.n, if hi.Percent? then Some(hi.n) else None)
  }

  /** The number a percentage spells, whatever its size. */
  predicate SpellsPercent(s: string, n: nat) {
    Find(s, IsPercent).Some? && Value(Find(s, IsPercent).value.0) == n
  }

  predicate Overflows(s: string) { Find(s, IsPercent).Some? && Value(Find(s, IsPercent).value.0) > MAX_INT }

  /** Exactly which ranges are accepted, and as what: an upper bound that does not fit an `int` is
      dropped. */
  lemma RangeAcceptedIff(min: string, max: Option<string>, lo: nat, hi: Option<nat>)
    ensures ParsePercentageRange(min, max) == Range(lo, hi) <==>
      (SpellsPercent(min, lo) && lo <= 100 &&
       match (max, hi)
       case (Some(m), Some(h)) => SpellsPercent(m, h) && lo <= h <= 100
       case (Some(m), None) => Overflows(m)
       case (None, Some(_)) => false
       case (None, None) => true)
  {
  }

  /** A maximum the reader does not reject: absent, a percentage, or too large for an `int`. */
  ghost predicate MaxAcceptable(max: Option<string>) {
    max.None? || Overflows(max.value) || exists n: nat | n <= 100 :: SpellsPercent(max.value, n)
  }

  /** Without overflow an accepted range is an ordered pair of percentages; the reader fails with a
      nil dereference exactly when the minimum overflows beside an acceptable maximum. */
  lemma RangeSafeIff(min: string, max: Option<string>)
    ensures ParsePercentageRange(min, max).NilDereference? <==> (Overflows(min) && MaxAcceptable(max))
    ensures ParsePercentageRange(min, max).Range? && max.Some? && !Overflows(max.value) ==>
      var r := ParsePercentageRange(min, max); r.max.Some? && r.min <= r.max.value <= 100
  {
    if max.Some? && Find(max.value, IsPercent).Some? {
      assert SpellsPercent(max.value, Value(Find(max.value, IsPercent).value.0));
    }
  }

  /** Every number too large for an `int`, written as a minimum percentage, is such a failure. */
  lemma LargeMinimumPanics(n: nat)
    requires n > MAX_INT
    ensures ParsePercentageRange(Print(n) + ['%'], None).NilDereference?
  {
    assert Print(n) + ['%'] + "" == Print(n) + ['%'];
    FindWhole(Print(n), '%', "", IsPercent);
    ValueOfPrint(n);
    RangeSafeIff(Print(n) + ['%'], None);
  }

  // ---------------------------------------------------------------- the alerts

  datatype AlertType = Spike | Threshold | Unknown

  datatype Rates = Rates(min: string, max: Option<string>)

  /** An entry of the configuration; the entry itself and its threshold may be null. */
  datatype AlertConfig = NullEntry | AlertConfig(kind: AlertType, period: string, threshold: Option<Rates>)

  /** What an alert expression compares the number of requests with. */
  datatype Alert =
    | SpikeAbove(limit: nat, period: string)
    | UsageBetween(lower: real, upper: Option<real>, period: string)

  datatype Mapping<T> = Mapped(value: T) | Failed | Panicked

  function Share(allowance: real, percent: nat): real { allowance / 100.0 * percent as real }

  /** The period is read before the threshold is dereferenced. */
  function ThresholdAlert(period: string, threshold: Option<Rates>, rate: real): Mapping<Alert> {
    match IntervalToMinutes(period)
    case Err => Failed
    case Ok(minutes) =>
      if threshold.None? then Panicked
      else
        match ParsePercentageRange(threshold.value.min, threshold.value.max)
        case Rejected => Failed
        case NilDereference => Panicked
        case Range(lo, hi) =>
          var allowance := Allowance(rate, minutes);
          var upper := if hi.Some? then Some(Share(allowance, hi.value)) else None;
          Mapped(UsageBetween(Share(allowance, lo), upper, period))
  }

  /** The alerts of one configuration entry: none for an unknown type. */
  function AlertsOf(config: AlertConfig, requests: nat, rate: real): Mapping<seq<Alert>> {
    match config
    case NullEntry => Panicked
    case AlertConfig(Spike, period, _) => Mapped([SpikeAbove(requests, period)])
    case AlertConfig(Unknown, _, _) => Mapped([])
    case AlertConfig(Threshold, period, threshold) =>
      match ThresholdAlert(period, threshold, rate)
      case Mapped(a) => Mapped([a])
      case Failed => Failed
      case Panicked => Panicked
  }

  function AllAlerts(configs: seq<AlertConfig>, requests: nat, rate: real): Mapping<seq<Alert>> {
    if configs == [] then Mapped([])
    else
      match AllAlerts(configs[..|configs| - 1], requests, rate)
      case Failed => Failed
      case Panicked => Panicked
      case Mapped(before) =>
        match AlertsOf(configs[|configs| - 1], requests, rate)
        case Failed => Failed
        case Panicked => Panicked
        case Mapped(alerts) => Mapped(before + alerts)
  }

  lemma {:induction false} FailureStays(configs: seq<AlertConfig>, i: nat, requests: nat, rate: real)
    requires i <= |configs| && !AllAlerts(configs[..i], requests, rate).Mapped?
    ensures AllAlerts(configs, requests, rate) == AllAlerts(configs[..i], requests, rate)
    decreases |configs|
  {
    if i == |configs| {
      assert configs[..i] == configs;
    } else {
      var init := configs[..|configs| - 1];
      assert init[..i] == configs[..i];
      FailureStays(init, i, requests, rate);
    }
  }

  /** One iteration: the entry's alerts are added, or its failure is that of the whole. */
  lemma OneMore(configs: seq<AlertConfig>, i: nat, requests: nat, rate: real, result: seq<Alert>)
    requires i < |configs| && AllAlerts(configs[..i], requests, rate) == Mapped(result)
    ensures match AlertsOf(configs[i], requests, rate)
      case Mapped(alerts) => AllAlerts(configs[..i + 1], requests, rate) == Mapped(result + alerts)
      case Failed => AllAlerts(configs, requests, rate) == Failed
      case Panicked => AllAlerts(configs, requests, rate) == Panicked
  {
    var next := configs[..i + 1];
    assert next[..i] == configs[..i] && next[i] == configs[i];
    if !AlertsOf(configs[i], requests, rate).Mapped? {
      FailureStays(configs, i + 1, requests, rate);
    }
  }

  /** `mapAlertsConfiguration`, over the entries in the order the map happens to give. */
  method MapAlertsConfiguration(configs: seq<AlertConfig>, requests: nat, rate: real) returns (r: Mapping<seq<Alert>>)
    ensures r == AllAlerts(configs, requests, rate)
  {
    var result := [];
    for i := 0 to |configs|
      invariant AllAlerts(configs[..i], requests, rate) == Mapped(result)
    {
      OneMore(configs, i, requests, rate, result);
      match configs[i]
      case NullEntry => return Panicked;
      case AlertConfig(Spike, period, _) => result := result + [SpikeAbove(requests, period)];
      case AlertConfig(Unknown, _, _) => assert result + [] == result;
      case AlertConfig(Threshold, period, threshold) =>
        match ThresholdAlert(period, threshold, rate)
        case Failed => return Failed;
        case Panicked => return Panicked;
        case Mapped(a) => result := result + [a];
    }
    assert configs[..|configs|] == configs;
    r := Mapped(result);
  }

  /** An entry that is there and, if it asks for a usage alert, has a readable period and an
      acceptable range. */
  predicate Acceptable(c: AlertConfig) {
    && c.AlertConfig?
    && (c.kind.Threshold? ==>
          (IntervalToMinutes(c.period).Ok? && c.threshold.Some?
           && ParsePercentageRange(c.threshold.value.min, c.threshold.value.max).Range?))
  }

  /** Alerts are created exactly when every entry is acceptable, in whatever order they come. */
  lemma {:induction false} AlertsMappedIff(configs: seq<AlertConfig>, requests: nat, rate: real)
    ensures AllAlerts(configs, requests, rate).Mapped? <==> forall c | c in configs :: Acceptable(c)
  {
    if configs != [] {
      var init, c := configs[..|configs| - 1], configs[|configs| - 1];
      assert configs == init + [c];
      AlertsMappedIff(init, requests, rate);
      assert AlertsOf(c, requests, rate).Mapped? <==> Acceptable(c);
    }
  }

  /** Exactly which entries panic: null ones, and usage alerts with a readable period and either no
      threshold or a range that is dereferenced without being there. */
  lemma EntryPanicsIff(c: AlertConfig, requests: nat, rate: real)
    ensures AlertsOf(c, requests, rate).Panicked? <==>
      (|| c.NullEntry?
       || (&& c.kind.Threshold? && IntervalToMinutes(c.period).Ok?
           && (c.threshold.None? || (Overflows(c.threshold.value.min) && MaxAcceptable(c.threshold.value.max)))))
  {
    if c.AlertConfig? && c.threshold.Some? {
      RangeSafeIff(c.threshold.value.min, c.threshold.value.max);
    }
  }

  /** The first unacceptable entry decides between an error and a panic: what comes after it in the
      map's order is never looked at. */
  lemma FirstBadEntryDecides(configs: seq<AlertConfig>, i: nat, requests: nat, rate: real)
    requires i < |configs| && !Acceptable(configs[i]) && forall c | c in configs[..i] :: Acceptable(c)
    ensures AllAlerts(configs, requests, rate).Panicked? <==> AlertsOf(configs[i], requests, rate).Panicked?
    ensures AllAlerts(configs, requests, rate).Failed? <==> AlertsOf(configs[i], requests, rate).Failed?
  {
    var upTo := configs[..i + 1];
    assert upTo[..i] == configs[..i] && upTo[i] == configs[i];
    AlertsMappedIff(configs[..i], requests, rate);
    AlertsMappedIff(upTo, requests, rate);
    assert upTo[i] in upTo;
    FailureStays(configs, i + 1, requests, rate);
  }

  lemma {:induction false} PanicHasCause(configs: seq<AlertConfig>, requests: nat, rate: real)
    requires AllAlerts(configs, requests, rate).Panicked?
    ensures exists c | c in configs :: AlertsOf(c, requests, rate).Panicked?
  {
    var init, c := configs[..|configs| - 1], configs[|configs| - 1];
    assert configs == init + [c];
    if AllAlerts(init, requests, rate).Panicked? {
      PanicHasCause(init, requests, rate);
    } else {
      assert c in configs;
    }
  }

  lemma ToFront(configs: seq<AlertConfig>, c: AlertConfig) returns (order: seq<AlertConfig>)
    requires c in configs
    ensures multiset(order) == multiset(configs) && order != [] && order[0] == c
  {
    var i :| 0 <= i < |configs| && configs[i] == c;
    var before, after := configs[..i], configs[i + 1..];
    assert configs == before + ([c] + after);
    order := [c] + (before + after);
  }

  /** The mapping panics in no order of the entries exactly when no entry does. */
  lemma NeverPanicsIff(configs: seq<AlertConfig>, requests: nat, rate: real)
    ensures (forall order: seq<AlertConfig> | multiset(order) == multiset(configs) ::
               !AllAlerts(order, requests, rate).Panicked?)
       <==> (forall c | c in configs :: !AlertsOf(c, requests, rate).Panicked?)
  {
    if c :| c in configs && AlertsOf(c, requests, rate).Panicked? {
      var order := ToFront(configs, c);
      FirstBadEntryDecides(order, 0, requests, rate);
    } else {
      forall order: seq<AlertConfig> | multiset(order) == multiset(configs)
        ensures !AllAlerts(order, requests, rate).Panicked?
      {
        assert forall c :: c in order <==> c in multiset(configs);
        if AllAlerts(order, requests, rate).Panicked? {
          PanicHasCause(order, requests, rate);
        }
      }
    }
  }

  /** The entries of a known type, in order. */
  function Supported(configs: seq<AlertConfig>): (r: seq<AlertConfig>)
    ensures forall c | c in r :: c.AlertConfig? && !c.kind.Unknown? && c in configs
  {
    if configs == [] then []
    else
      var rest, c := Supported(configs[..|configs| - 1]), configs[|configs| - 1];
      if c.AlertConfig? && !c.kind.Unknown? then rest + [c] else rest
  }

  /** There is one alert for every spike or threshold entry, namely that entry's own, in order. */
  lemma {:induction false} OneAlertPerEntry(configs: seq<AlertConfig>, requests: nat, rate: real)
    requires AllAlerts(configs, requests, rate).Mapped?
    ensures var alerts, entries := AllAlerts(configs, requests, rate).value, Supported(configs);
      && |alerts| == |entries|
      && forall i | 0 <= i < |alerts| ::
           if entries[i].kind.Spike? then alerts[i] == SpikeAbove(requests, entries[i].period)
           else ThresholdAlert(entries[i].period, entries[i].threshold, rate) == Mapped(alerts[i])
  {
    if configs != [] {
      OneAlertPerEntry(configs[..|configs| - 1], requests, rate);
    }
  }

  lemma {:induction false} AlertsOfConcat(xs: seq<AlertConfig>, ys: seq<AlertConfig>, requests: nat, rate: real)
    requires AllAlerts(xs, requests, rate).Mapped? && AllAlerts(ys, requests, rate).Mapped?
    ensures AllAlerts(xs + ys, requests, rate)
         == Mapped(AllAlerts(xs, requests, rate).value + AllAlerts(ys, requests, rate).value)
  {
    if ys == [] {
      assert xs + ys == xs;
      var a := AllAlerts(xs, requests, rate).value;
      assert a + [] == a;
    } else {
      var init := ys[..|ys| - 1];
      assert (xs + ys)[..|xs + ys| - 1] == xs + init && (xs + ys)[|xs + ys| - 1] == ys[|ys| - 1];
      AlertsOfConcat(xs, init, requests, rate);
      var a, b, c := AllAlerts(xs, requests, rate).value, AllAlerts(init, requests, rate).value,
                     AlertsOf(ys[|ys| - 1], requests, rate).value;
      assert (a + b) + c == a + (b + c);
    }
  }

  lemma AlertsOfOne(c: AlertConfig, requests: nat, rate: real)
    ensures AllAlerts([c], requests, rate) == AlertsOf(c, requests, rate)
  {
    assert [c][..0] == [] && AllAlerts([], requests, rate) == Mapped([]);
    assert AlertsOf(c, requests, rate).Mapped? ==>
      [] + AlertsOf(c, requests, rate).value == AlertsOf(c, requests, rate).value;
  }

  /** One entry taken out takes its own alerts out. */
  lemma AlertsWithout(configs: seq<AlertConfig>, i: nat, requests: nat, rate: real)
    requires i < |configs| && forall c | c in configs :: Acceptable(c)
    ensures AllAlerts(configs, requests, rate).Mapped? && AlertsOf(configs[i], requests, rate).Mapped?
    ensures var rest := configs[..i] + configs[i + 1..];
      && (forall c | c in rest :: Acceptable(c)) && AllAlerts(rest, requests, rate).Mapped?
      && multiset(configs) == multiset(rest) + multiset{configs[i]}
      && multiset(AllAlerts(configs, requests, rate).value)
         == multiset(AllAlerts(rest, requests, rate).value) + multiset(AlertsOf(configs[i], requests, rate).value)
  {
    var before, c, after := configs[..i], configs[i], configs[i + 1..];
    assert configs == (before + [c]) + after;
    AlertsMappedIff(before, requests, rate);
    AlertsMappedIff(after, requests, rate);
    AlertsMappedIff([c], requests, rate);
    AlertsOfOne(c, requests, rate);
    AlertsOfConcat(before, [c], requests, rate);
    AlertsOfConcat(before + [c], after, requests, rate);
    AlertsOfConcat(before, after, requests, rate);
  }

  /** The map's order does not matter: the same entries give the same alerts. */
  lemma {:induction false} AlertOrderIrrelevant(xs: seq<AlertConfig>, ys: seq<AlertConfig>, requests: nat, rate: real)
    requires multiset(xs) == multiset(ys) && AllAlerts(xs, requests, rate).Mapped?
    ensures AllAlerts(ys, requests, rate).Mapped?
    ensures multiset(AllAlerts(xs, requests, rate).value) == multiset(AllAlerts(ys, requests, rate).value)
    decreases |xs|
  {
    assert forall c :: c in ys <==> c in multiset(xs);
    AlertsMappedIff(xs, requests, rate);
    AlertsMappedIff(ys, requests, rate);
    if xs == [] {
      assert |multiset(ys)| == 0;
    } else {
      assert xs[0] in multiset(ys);
      var j :| 0 <= j < |ys| && ys[j] == xs[0];
      AlertsWithout(xs, 0, requests, rate);
      AlertsWithout(ys, j, requests, rate);
      var xs', ys' := xs[..0] + xs[1..], ys[..j] + ys[j + 1..];
      SameRest(multiset(xs'), multiset(ys'), xs[0]);
      AlertOrderIrrelevant(xs', ys', requests, rate);
    }
  }

  /** A hundred times the share is the percentage of the allowance. */
  lemma ShareOfHundred(allowance: real, percent: nat)
    ensures Share(allowance, percent) * 100.0 == allowance * percent as real
  {
  }

  lemma ShareMonotone(allowance: real, lo: nat, hi: nat)
    requires allowance >= 0.0 && lo <= hi
    ensures Share(allowance, lo) <= Share(allowance, hi)
  {
    assert (allowance / 100.0) * (hi - lo) as real >= 0.0;
  }

  /** A mapped usage alert asks for a band that is not upside down, and for periods that do not wrap
      its edges are the stated percentages of the limitador limit scaled to the period. */
  lemma UsageBand(period: string, rates: Rates, unit: string, requests: nat, n: nat) returns (lo: nat, hi: Option<nat>)
    requires RatePerSecond(unit, requests).Ok? && UnitInSeconds(unit).Ok? && UnitInSeconds(unit).value > 0
    requires ThresholdAlert(period, Some(rates), RatePerSecond(unit, requests).value).Mapped?
    requires Spells(period, n) && n <= 71_582_788
    ensures SpellsPercent(rates.min, lo) && lo <= 100
    ensures hi.Some? ==> rates.max.Some? && SpellsPercent(rates.max.value, hi.value) && lo <= hi.value <= 100
    ensures hi.None? ==> rates.max.None? || Overflows(rates.max.value)
    ensures var a := ThresholdAlert(period, Some(rates), RatePerSecond(unit, requests).value).value;
      var limit := Scaled(requests, n, UnitInSeconds(unit).value);
      && a.lower == Share(limit, lo)
      && (if hi.Some? then a.upper == Some(Share(limit, hi.value)) && a.lower <= a.upper.value else a.upper.None?)
  {
    var rate := RatePerSecond(unit, requests).value;
    SameUnits(unit, requests);
    IntervalHonestIff(period, n);
    AllowanceExactIff(unit, requests, n);
    var range := ParsePercentageRange(rates.min, rates.max);
    lo, hi := range.min, range.max;
    RangeAcceptedIff(rates.min, rates.max, lo, hi);
    AllowanceNonNegative(rate, n);
    if hi.Some? {
      ShareMonotone(Allowance(rate, n), lo, hi.value);
    }
  }

  lemma AllowanceNonNegative(rate: real, minutes: nat)
    requires rate >= 0.0
    ensures Allowance(rate, minutes) >= 0.0
  {
  }
}
