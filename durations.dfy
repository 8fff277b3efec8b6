/** parseDurationMs, in the two variants the program carries: the Tomestone
    client's (which also takes plain numbers) and the entry point's (which
    takes strings only). Both read a setting such as "1h30m" by summing every
    match of /(\d+)([smhd])/g. */
module Durations {
  import opened Common

  /** A configuration value as the two parsers see it. */
  datatype Setting =
    | Unset              // undefined, null, false, NaN: every falsy non-string, non-number
    | Number(n: int)     // a finite number (integers only in this model)
    | NonFinite          // Infinity or -Infinity
    | Text(s: string)

  /** JavaScript truthiness: undefined, NaN, 0 and "" are falsy. */
  predicate Truthy(v: Setting)
  {
    match v
    case Unset => false
    case Number(n) => n != 0
    case NonFinite => true
    case Text(s) => s != ""
  }

  /** `a || b` on settings. */
  function Or(a: Setting, b: Setting): Setting
  {
    if Truthy(a) then a else b
  }

  /** Number.parseInt(String(v), 10): a finite integer reads back as itself,
      Infinity as NaN. */
  function IntSetting(v: Setting): Option<int>
  {
    match v
    case Unset => None
    case Number(n) => ParseInt(IntToString(n))
    case NonFinite => None
    case Text(s) => ParseInt(s)
  }

  /** The constructor's idiom for counts: the parsed value when it is a
      positive integer, the default otherwise. */
  function PositiveIntOr(v: Setting, default: int): int
  {
    var parsed := IntSetting(v);
    if parsed.Some? && parsed.value > 0 then parsed.value else default
  }

  /** A number setting is taken exactly when it is positive; anything
      else yields a positive value or the default. */
  lemma PositiveNumberTaken(n: int, default: int)
    ensures n > 0 ==> PositiveIntOr(Number(n), default) == n
    ensures n <= 0 ==> PositiveIntOr(Number(n), default) == default
  {
    ParseIntOfIntToString(n);
  }

  lemma PositiveIntOrPositive(v: Setting, default: int)
    ensures PositiveIntOr(v, default) > 0 || PositiveIntOr(v, default) == default
    ensures !Truthy(v) ==> PositiveIntOr(v, default) == default
  {
    if v.Number? {
      ParseIntOfIntToString(v.n);
    }
  }

  predicate IsUnit(c: char) { c == 's' || c == 'm' || c == 'h' || c == 'd' }

  /** Milliseconds per unit letter. */
  function UnitMs(c: char): nat
  {
    match c
    case 's' => 1000
    case 'm' => 60000
    case 'h' => 3600000
    case 'd' => 86400000
    case _ => 0
  }

  /** What one match amount-unit adds. */
  function MatchMs(digits: string, unit: char): nat
    requires AllDigits(digits)
  {
    var amount := DigitsValue(digits);
    match unit
    case 's' => amount * 1000
    case 'm' => amount * 60000
    case 'h' => amount * 3600000
    case 'd' => amount * 86400000
    case _ => 0
  }

  /** The sum of the matches of /(\d+)([smhd])/g in t from index i on,
      where t[start..i] is a run of digits read so far. A match is a
      maximal run of digits followed by a unit letter: a shorter run is
      followed by a digit, so backtracking finds nothing else, and a search
      that starts inside a run fails where the whole run fails. Scanning
      resumes behind a match, and behind the character that ended a failed
      run. */
  function Scan(t: string, start: nat, i: nat): nat
    requires start <= i <= |t|
    requires forall k :: start <= k < i ==> IsDigit(t[k])
    decreases |t| - i
  {
    if i == |t| then 0
    else if IsDigit(t[i]) then Scan(t, start, i + 1)
    else if start < i && IsUnit(t[i]) then MatchMs(t[start..i], t[i]) + Scan(t, i + 1, i + 1)
    else Scan(t, i + 1, i + 1)
  }

  /** The sum of all matches of /(\d+)([smhd])/g in t. */
  function Total(t: string): nat
  {
    Scan(t, 0, 0)
  }

  /** What the string branch returns for trimmed text. */
  function TextDuration(t: string, fallbackMs: int): int
  {
    if t == "" then fallbackMs
    else if Total(t) > 0 then Total(t) else fallbackMs
  }

  /** tomestone.js parseDurationMs. */
  function TomestoneDuration(value: Setting, fallbackMs: int): int
  {
    match value
    case Unset => fallbackMs
    case Number(n) => if n > 0 then n else fallbackMs
    case NonFinite => TextDuration("Infinity", fallbackMs)
    case Text(s) => if s == "" then fallbackMs else TextDuration(Trim(s), fallbackMs)
  }

  /** index.js parseDurationMs: anything but a non-empty string falls back. */
  function EnvDuration(value: Setting, fallbackMs: int): int
  {
    match value
    case Text(s) => if s == "" then fallbackMs else TextDuration(Trim(s), fallbackMs)
    case _ => fallbackMs
  }

  /** The regex loop: sums amount * unit over the matches of t. */
  method ScanTotal(t: string) returns (total: nat)
    ensures total == Total(t)
  {
    total := 0;
    var i := 0;
    while i < |t|
      invariant 0 <= i <= |t|
      invariant total + Scan(t, i, i) == Total(t)
    {
      var j := i;
      while j < |t| && IsDigit(t[j])
        invariant i <= j <= |t|
        invariant forall k :: i <= k < j ==> IsDigit(t[k])
        invariant Scan(t, i, j) == Scan(t, i, i)
      {
        j := j + 1;
      }
      if j == |t| {
        i := j;
      } else if i < j && IsUnit(t[j]) {
        total := total + MatchMs(t[i..j], t[j]);
        i := j + 1;
      } else {
        i := j + 1;
      }
    }
  }

  method ParseText(t: string, fallbackMs: int) returns (ms: int)
    ensures ms == TextDuration(t, fallbackMs)
  {
    if t == "" {
      return fallbackMs;
    }
    var total := ScanTotal(t);
    ms := if total > 0 then total else fallbackMs;
  }

  /** tomestone.js parseDurationMs, loop and all. */
  method ParseDurationMs(value: Setting, fallbackMs: int) returns (ms: int)
    ensures ms == TomestoneDuration(value, fallbackMs)
  {
    match value
    case Unset => ms := fallbackMs;
    case Number(n) => ms := if n > 0 then n else fallbackMs;
    case NonFinite => ms := ParseText("Infinity", fallbackMs);
    case Text(s) =>
      if s == "" {
        ms := fallbackMs;
      } else {
        ms := ParseText(Trim(s), fallbackMs);
      }
  }

  /** index.js parseDurationMs. */
  method ParseEnvDurationMs(value: Setting, fallbackMs: int) returns (ms: int)
    ensures ms == EnvDuration(value, fallbackMs)
  {
    if !value.Text? || value.s == "" {
      return fallbackMs;
    }
    ms := ParseText(Trim(value.s), fallbackMs);
  }

  // ---------------------------------------------------------------------
  // Properties
  // ---------------------------------------------------------------------

  /** Either a positive duration or the fallback; the fallback exactly when
      no match contributes anything. */
  lemma TextDurationPositiveOrFallback(t: string, fallbackMs: int)
    ensures TextDuration(t, fallbackMs) > 0 || TextDuration(t, fallbackMs) == fallbackMs
    ensures TextDuration(t, fallbackMs) == fallbackMs || TextDuration(t, fallbackMs) == Total(t)
    ensures Total(t) > 0 ==> TextDuration(t, fallbackMs) == Total(t)
    ensures Total(t) == 0 ==> TextDuration(t, fallbackMs) == fallbackMs
  {
    if t == "" {
      assert Total(t) == 0;
    }
  }

  lemma DurationPositiveOrFallback(value: Setting, fallbackMs: int)
    ensures TomestoneDuration(value, fallbackMs) > 0 || TomestoneDuration(value, fallbackMs) == fallbackMs
    ensures EnvDuration(value, fallbackMs) > 0 || EnvDuration(value, fallbackMs) == fallbackMs
  {
    match value
    case NonFinite => TextDurationPositiveOrFallback("Infinity", fallbackMs);
    case Text(s) => TextDurationPositiveOrFallback(Trim(s), fallbackMs);
    case _ =>
  }

  /** The two parsers agree on strings; on a positive number only the
      Tomestone one takes the value. */
  lemma ParsersAgreeOnText(s: string, n: int, fallbackMs: int)
    ensures TomestoneDuration(Text(s), fallbackMs) == EnvDuration(Text(s), fallbackMs)
    ensures EnvDuration(Number(n), fallbackMs) == fallbackMs
    ensures n > 0 ==> TomestoneDuration(Number(n), fallbackMs) == n
    ensures n <= 0 ==> TomestoneDuration(Number(n), fallbackMs) == fallbackMs
  {
  }

  /** Infinity has no digits and so falls back. */
  lemma NonFiniteFallsBack(fallbackMs: int)
    ensures TomestoneDuration(NonFinite, fallbackMs) == fallbackMs
  {
    var t := "Infinity";
    assert forall k :: 0 <= k < |t| ==> !IsDigit(t[k]);
    NoDigitsNoTotal(t, 0);
  }

  /** String(n) followed by a unit letter reads back as n of that unit,
      whatever follows. */
  lemma AmountRoundTrip(n: nat, u: char, rest: string)
    requires IsUnit(u)
    ensures Total(NatToString(n) + [u] + rest) == n * UnitMs(u) + Total(rest)
  {
    var d := NatToString(n);
    var s := d + [u] + rest;
    DigitsValueOfNatToString(n);
    ScanDigits(s, 0, 0, |d|);
    assert s[0..|d|] == d && s[|d|] == u;
    MatchMsScales(d, u);
    assert Scan(s, 0, |d|) == n * UnitMs(u) + Scan(s, |d| + 1, |d| + 1);
    ScanShift(d + [u], rest, 0, 0);
  }

  /** "1h30m" is an hour and a half. */
  lemma HourAndAHalf()
    ensures Total("1h30m") == 5400000
  {
    AmountRoundTrip(30, 'm', "");
    assert NatToString(30) + ['m'] + "" == "30m";
    AmountRoundTrip(1, 'h', "30m");
    assert NatToString(1) + ['h'] + "30m" == "1h30m";
  }

  /** A match adds its amount times its unit. */
  lemma MatchMsScales(digits: string, unit: char)
    requires AllDigits(digits)
    ensures MatchMs(digits, unit) == DigitsValue(digits) * UnitMs(unit)
  {
  }

  /** Reading further digits does not change the sum. */
  lemma {:induction false} ScanDigits(t: string, start: nat, i: nat, j: nat)
    requires start <= i <= j <= |t|
    requires forall k :: start <= k < j ==> IsDigit(t[k])
    ensures Scan(t, start, i) == Scan(t, start, j)
    decreases j - i
  {
    if i < j {
      ScanDigits(t, start, i + 1, j);
    }
  }

  /** Scanning behind a prefix p is scanning the rest alone. */
  lemma {:induction false} ScanShift(p: string, s: string, start: nat, i: nat)
    requires start <= i <= |s|
    requires forall k :: start <= k < i ==> IsDigit(s[k])
    ensures Scan(p + s, |p| + start, |p| + i) == Scan(s, start, i)
    decreases |s| - i
  {
    var t := p + s;
    if i < |s| {
      assert t[|p| + i] == s[i];
      if IsDigit(s[i]) {
        ScanShift(p, s, start, i + 1);
      } else {
        if start < i && IsUnit(s[i]) {
          assert t[|p| + start..|p| + i] == s[start..i];
        }
        ScanShift(p, s, i + 1, i + 1);
      }
    }
  }

  /** A text that does not end inside a digit run is read independently of
      what follows it: "1h30m" is 1h plus 30m. */
  lemma TotalConcat(a: string, b: string)
    requires a == [] || !IsDigit(a[|a| - 1])
    ensures Total(a + b) == Total(a) + Total(b)
  {
    ScanPrefix(a, b, 0, 0);
    ScanShift(a, b, 0, 0);
  }

  /** Before the end of a, a scan of a + b sees what a scan of a sees. */
  lemma {:induction false} ScanPrefix(a: string, b: string, start: nat, i: nat)
    requires start <= i <= |a| && (a == [] || !IsDigit(a[|a| - 1]))
    requires forall k :: start <= k < i ==> IsDigit(a[k])
    ensures Scan(a + b, start, i) == Scan(a, start, i) + Scan(a + b, |a|, |a|)
    decreases |a| - i
  {
    var t := a + b;
    if i < |a| {
      assert t[i] == a[i];
      if IsDigit(a[i]) {
        ScanPrefix(a, b, start, i + 1);
      } else {
        if start < i && IsUnit(a[i]) {
          assert t[start..i] == a[start..i];
        }
        ScanPrefix(a, b, i + 1, i + 1);
      }
    }
  }

  /** A text without digits matches nothing. */
  lemma {:induction false} NoDigitsNoTotal(t: string, i: nat)
    requires i <= |t| && forall k :: i <= k < |t| ==> !IsDigit(t[k])
    ensures Scan(t, i, i) == 0
    decreases |t| - i
  {
    if i < |t| {
      NoDigitsNoTotal(t, i + 1);
    }
  }
}
