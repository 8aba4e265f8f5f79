/** The TTL / duration parser, in its two implementations: Go's
    `parseDuration` (src/validate_packet.go) returning nanoseconds, and
    Python's `parse_duration` (src/validate_packet.py) returning whole seconds
    (a `timedelta` built from an integer count of one unit). */
module Duration {
  import opened Text

  datatype Unit = Second | Minute | Hour | Day

  /** Calendar-naive multipliers: a day is always 24 hours. */
  function UnitSeconds(u: Unit): (k: nat)
    ensures k == match u case Second => 1 case Minute => 60 case Hour => 60 * 60 case Day => 24 * 60 * 60
  {
    match u
    case Second => 1
    case Minute => 60
    case Hour => 3600
    case Day => 86400
  }

  /** The unit named by a lower-case letter of the class `[smhd]`. */
  function UnitOf(c: char): (r: Option<Unit>)
    ensures r.Some? <==> c in "smhd"
  {
    if c == 's' then Some(Second)
    else if c == 'm' then Some(Minute)
    else if c == 'h' then Some(Hour)
    else if c == 'd' then Some(Day)
    else None
  }

  /** Why a duration string was refused. */
  datatype ErrKind =
    | FormatInvalid    // not `<int><unit>`
    | NotInteger       // Go: the digits do not fit `strconv.Atoi`
    | NotPositive      // the number is zero
    | UnsupportedUnit  // Python: the unit letter lower-cases to none of s, m, h, d
    | OutOfRange       // the duration does not fit the library's duration type

  datatype Parsed = Ok(value: int) | Err(kind: ErrKind, message: string)

  /** The parse failed for the reason `k`. */
  predicate Fails(r: Parsed, k: ErrKind) { r.Err? && r.kind == k }

  const MaxInt64: int := 0x7FFF_FFFF_FFFF_FFFF
  const TwoTo64: int := 0x1_0000_0000_0000_0000
  const NanosPerSecond: nat := 1_000_000_000

  function UnitNanos(u: Unit): nat { UnitSeconds(u) * NanosPerSecond }

  /** Each unit is the one below it scaled, in seconds and in Go's
      nanoseconds alike: a minute is 60 s, an hour 60 min, a day 24 h. */
  lemma UnitScale()
    ensures UnitSeconds(Second) == 1 && UnitNanos(Second) == NanosPerSecond
    ensures UnitSeconds(Minute) == 60 * UnitSeconds(Second) && UnitNanos(Minute) == 60 * UnitNanos(Second)
    ensures UnitSeconds(Hour) == 60 * UnitSeconds(Minute) && UnitNanos(Hour) == 60 * UnitNanos(Minute)
    ensures UnitSeconds(Day) == 24 * UnitSeconds(Hour) && UnitNanos(Day) == 24 * UnitNanos(Hour)
  {
  }

  // ------------------------------------------------------------------
  // Go: parseDuration (src/validate_packet.go:17-46)
  // ------------------------------------------------------------------

  /** What `ttlRe`, `^(\d+)([smhd])$`, accepts: one or more ASCII digits and
      one unit letter, nothing else. */
  predicate GoMatches(t: string) {
    |t| >= 2 && AllDigits(t[..|t| - 1]) && UnitOf(t[|t| - 1]).Some?
  }

  /** `strings.TrimSpace(strings.ToLower(s))`. */
  function GoTrimmed(s: string): string { Trim(Lower(s), GoWhite) }

  /** The result of matching and reading the number, before the unit is applied. */
  datatype Scan = Scanned(n: nat, unit: Unit) | Rejected(kind: ErrKind, message: string)

  /** Every step of `parseDuration` up to the `switch` on the unit. */
  function GoScan(s: string, name: string): (r: Scan)
    ensures r.Scanned? ==> 0 < r.n <= MaxInt64
    ensures r.Rejected? ==> name <= r.message
    ensures r.Rejected? && r.kind == FormatInvalid <==> !GoMatches(GoTrimmed(s))
  {
    var t := GoTrimmed(s);
    if !GoMatches(t) then Rejected(FormatInvalid, name + " must match <int><s|m|h|d>")
    else
      var n := DigitsValue(t[..|t| - 1]);
      if n > MaxInt64 then Rejected(NotInteger, name + " must start with an integer")
      else if n == 0 then Rejected(NotPositive, name + " must be positive")
      else Scanned(n, UnitOf(t[|t| - 1]).value)
  }

  /** Two's-complement wrap-around of a 64-bit signed multiplication. */
  function WrapInt64(x: int): (r: int)
    ensures -MaxInt64 - 1 <= r <= MaxInt64
    ensures (r - x) % TwoTo64 == 0
    ensures -MaxInt64 - 1 <= x <= MaxInt64 ==> r == x
  {
    (x + MaxInt64 + 1) % TwoTo64 - MaxInt64 - 1
  }

  /** `parseDuration` as written: `time.Duration` multiplication wraps. */
  function GoParseDurationAsWritten(s: string, name: string): (r: Parsed)
    ensures r.Err? <==> GoScan(s, name).Rejected?
  {
    match GoScan(s, name)
    case Rejected(k, m) => Err(k, m)
    case Scanned(n, u) => Ok(WrapInt64(n * UnitNanos(u)))
  }

  /** `parseDuration` with the overflow rejected instead of wrapped: the
      result is a positive whole number of seconds, in nanoseconds, that fits
      a `time.Duration`. */
  function GoParseDuration(s: string, name: string): (r: Parsed)
    ensures r.Ok? ==> 0 < r.value <= MaxInt64 && r.value % NanosPerSecond == 0
    ensures r.Err? ==> name <= r.message
    ensures r.Err? && r.kind == FormatInvalid <==> !GoMatches(GoTrimmed(s))
  {
    match GoScan(s, name)
    case Rejected(k, m) => Err(k, m)
    case Scanned(n, u) =>
      if n * UnitNanos(u) > MaxInt64 then Err(OutOfRange, name + " is out of range")
      else NanosWhole(n, u); Ok(n * UnitNanos(u))
  }

  /** A count of whole units is a whole number of seconds. */
  lemma NanosWhole(n: nat, u: Unit)
    ensures (n * UnitNanos(u)) % NanosPerSecond == 0
  {
    var k := n * UnitSeconds(u);
    assert n * UnitNanos(u) == k * NanosPerSecond;
  }

  lemma LowerConcat(x: string, y: string)
    ensures Lower(x + y) == Lower(x) + Lower(y)
  {
  }

  /** Lower-casing leaves a string without ASCII capitals unchanged. */
  lemma LowerFixed(s: string)
    requires forall i :: 0 <= i < |s| ==> !('A' <= s[i] <= 'Z')
    ensures Lower(s) == s
  {
  }

  lemma LowerFixesSpaces(s: string, w: WhiteSpace)
    requires AllSpace(s, w)
    ensures Lower(s) == s
  {
    LowerFixed(s);
  }

  /** Lower-casing and trimming reduce spaced, mixed-case input to its core. */
  lemma GoTrimmedShape(s: string, a: string, d: string, u: char, c: string)
    requires s == a + d + [u] + c
    requires AllSpace(a, GoWhite) && AllSpace(c, GoWhite)
    requires d != [] && AllDigits(d) && UnitOf(LowerChar(u)).Some?
    ensures GoTrimmed(s) == d + [LowerChar(u)]
  {
    var core := d + [LowerChar(u)];
    var m := a + core + c;
    assert Lower(s) == m by {
      forall k | 0 <= k < |s| ensures Lower(s)[k] == m[k] {
        if k < |a| {
          assert s[k] == a[k] == m[k];
        } else if k < |a| + |d| {
          assert s[k] == d[k - |a|] == m[k];
        } else if k == |a| + |d| {
          assert s[k] == u;
        } else {
          assert s[k] == c[k - |a| - |d| - 1] == m[k];
        }
      }
    }
    TrimAbsorbs(a, core, c, GoWhite);
    assert !GoSpace(core[0]);
    TrimOfTrimmed(core, GoWhite);
  }

  /** Go accepts optional outer white space, digits and one unit letter in
      either case, and yields the number times the unit. */
  lemma GoParseAccepts(s: string, a: string, d: string, u: char, c: string, unit: Unit, name: string)
    requires s == a + d + [u] + c
    requires AllSpace(a, GoWhite) && AllSpace(c, GoWhite)
    requires d != [] && AllDigits(d) && DigitsValue(d) > 0
    requires UnitOf(LowerChar(u)) == Some(unit)
    requires DigitsValue(d) * UnitNanos(unit) <= MaxInt64
    ensures GoParseDuration(s, name) == Ok(DigitsValue(d) * UnitSeconds(unit) * NanosPerSecond)
  {
    GoTrimmedShape(s, a, d, u, c);
    var core := d + [LowerChar(u)];
    assert core[..|core| - 1] == d;
    var n := DigitsValue(d);
    NanosBound(n, unit);
    assert GoScan(s, name) == Scanned(n, unit);
  }

  /** The plain form, digits then the unit letter in either case. */
  lemma GoParsePlain(s: string, d: string, u: char, unit: Unit, name: string)
    requires s == d + [u] && d != [] && AllDigits(d) && DigitsValue(d) > 0
    requires UnitOf(LowerChar(u)) == Some(unit)
    requires DigitsValue(d) * UnitNanos(unit) <= MaxInt64
    ensures GoParseDuration(s, name) == Ok(DigitsValue(d) * UnitSeconds(unit) * NanosPerSecond)
  {
    GoTrimmedPlain(s, d, u);
    NanosBound(DigitsValue(d), unit);
    assert GoScan(s, name) == Scanned(DigitsValue(d), unit);
  }

  /** A count that fits after scaling fits before scaling. */
  lemma NanosBound(n: nat, unit: Unit)
    requires n * UnitNanos(unit) <= MaxInt64
    ensures n <= MaxInt64 && n * UnitNanos(unit) == n * UnitSeconds(unit) * NanosPerSecond
  {
    assert UnitNanos(unit) >= 1;
  }

  /** Outer white space and letter case do not matter to Go. */
  lemma GoParseIgnoresOuterSpaceAndCase(a: string, s: string, c: string, name: string)
    requires AllSpace(a, GoWhite) && AllSpace(c, GoWhite)
    ensures GoParseDuration(a + s + c, name) == GoParseDuration(s, name)
    ensures GoParseDuration(Lower(s), name) == GoParseDuration(s, name)
  {
    LowerConcat(a + s, c);
    LowerConcat(a, s);
    LowerFixesSpaces(a, GoWhite);
    LowerFixesSpaces(c, GoWhite);
    TrimAbsorbs(a, Lower(s), c, GoWhite);
    assert GoTrimmed(a + s + c) == GoTrimmed(s);
    assert Lower(Lower(s)) == Lower(s);
  }

  /** Every string Go accepts is outer white space, ASCII digits, one unit
      letter in either case, and outer white space. */
  lemma GoAcceptedShape(s: string, name: string) returns (a: string, d: string, u: char, c: string, unit: Unit)
    requires GoParseDuration(s, name).Ok?
    ensures s == a + d + [u] + c
    ensures AllSpace(a, GoWhite) && AllSpace(c, GoWhite)
    ensures d != [] && AllDigits(d) && DigitsValue(d) > 0 && UnitOf(LowerChar(u)) == Some(unit)
    ensures DigitsValue(d) * UnitNanos(unit) <= MaxInt64
    ensures GoParseDuration(s, name) == Ok(DigitsValue(d) * UnitSeconds(unit) * NanosPerSecond)
  {
    var t := GoTrimmed(s);
    assert GoMatches(t);
    a, d, u, c := GoSplitMatch(s);
    unit := UnitOf(t[|t| - 1]).value;
    assert GoScan(s, name) == Scanned(DigitsValue(d), unit);
    NanosBound(DigitsValue(d), unit);
  }

  /** Where the trimmed, lower-cased string sits in the original one. */
  lemma GoSplitMatch(s: string) returns (a: string, d: string, u: char, c: string)
    requires GoMatches(GoTrimmed(s))
    ensures s == a + d + [u] + c
    ensures AllSpace(a, GoWhite) && AllSpace(c, GoWhite)
    ensures GoTrimmed(s) == d + [LowerChar(u)] && AllDigits(d) && d != []
  {
    var i, j := LowerTrimSplit(s);
    var x := s[i..j];
    MatchedCore(x);
    a, d, u, c := s[..i], x[..|x| - 1], x[|x| - 1], s[j..];
    SliceThree(s, i, j);
    SplitLast(x);
    Regroup(a, d, u, c);
  }

  lemma Regroup(a: string, d: string, u: char, c: string)
    ensures a + (d + [u]) + c == a + d + [u] + c
  {
  }

  lemma SplitLast(x: string)
    requires x != []
    ensures x == x[..|x| - 1] + [x[|x| - 1]]
  {
  }

  /** Trimming after lower-casing keeps a slice of the original string,
      lower-cased, between outer white space. */
  lemma LowerTrimSplit(s: string) returns (i: nat, j: nat)
    ensures i <= j <= |s| && GoTrimmed(s) == Lower(s[i..j])
    ensures AllSpace(s[..i], GoWhite) && AllSpace(s[j..], GoWhite)
  {
    var low := Lower(s);
    i, j := TrimSplit(low, GoWhite);
    LowerSlice(s, i, j);
    LowerSlice(s, 0, i);
    assert s[0..i] == s[..i];
    GoSpaceUnlowered(s[..i]);
    LowerSlice(s, j, |s|);
    assert s[j..|s|] == s[j..];
    GoSpaceUnlowered(s[j..]);
  }

  /** A string whose lower-cased form matches is digits, which lower-casing
      keeps, and one more character. */
  lemma MatchedCore(x: string)
    requires GoMatches(Lower(x))
    ensures |x| >= 2 && AllDigits(x[..|x| - 1])
    ensures Lower(x) == x[..|x| - 1] + [LowerChar(x[|x| - 1])]
  {
    var low := Lower(x);
    var n := |x|;
    forall k | 0 <= k < n - 1 ensures IsDigit(x[k]) {
      assert low[..n - 1][k] == low[k];
    }
    var m := x[..n - 1] + [LowerChar(x[n - 1])];
    forall k | 0 <= k < n ensures low[k] == m[k] {
      if k < n - 1 {
        assert IsDigit(x[k]);
      }
    }
  }

  lemma SliceThree(s: string, i: nat, j: nat)
    requires i <= j <= |s|
    ensures s == s[..i] + s[i..j] + s[j..]
  {
  }

  lemma LowerSlice(s: string, i: nat, j: nat)
    requires i <= j <= |s|
    ensures Lower(s)[i..j] == Lower(s[i..j])
  {
  }

  /** A character that lower-cases to a space was that space already. */
  lemma GoSpaceUnlowered(x: string)
    requires AllSpace(Lower(x), GoWhite)
    ensures AllSpace(x, GoWhite)
  {
    forall k | 0 <= k < |x| ensures GoSpace(x[k]) {
      assert Lower(x)[k] == LowerChar(x[k]);
    }
  }

  /** Go refuses white space between the digits and the unit. */
  lemma GoRejectsInnerSpace(s: string, d: string, b: string, u: char, name: string)
    requires s == d + b + [u]
    requires d != [] && AllDigits(d) && b != [] && AllSpace(b, GoWhite)
    requires UnitOf(LowerChar(u)).Some?
    ensures Fails(GoParseDuration(s, name), FormatInvalid)
  {
    var core := d + b + [LowerChar(u)];
    InnerSpaceTrimmed(d, b, u);
    assert core[..|core| - 1][|d|] == b[0];
    assert !IsDigit(b[0]);
    assert !GoMatches(GoTrimmed(s));
  }

  lemma InnerSpaceTrimmed(d: string, b: string, u: char)
    requires d != [] && AllDigits(d) && AllSpace(b, GoWhite)
    requires UnitOf(LowerChar(u)).Some?
    ensures GoTrimmed(d + b + [u]) == d + b + [LowerChar(u)]
  {
    LowerConcat(d + b, [u]);
    LowerConcat(d, b);
    LowerFixed(d);
    LowerFixesSpaces(b, GoWhite);
    var core := d + b + [LowerChar(u)];
    assert Lower([u]) == [LowerChar(u)];
    assert Lower(d + b + [u]) == core;
    assert !GoSpace(core[0]);
    TrimOfTrimmed(core, GoWhite);
  }

  /** A zero count is refused as not positive, however many zeros it has. */
  lemma GoRejectsZero(s: string, d: string, u: char, name: string)
    requires s == d + [u] && d != [] && AllDigits(d) && DigitsValue(d) == 0
    requires UnitOf(LowerChar(u)).Some?
    ensures GoParseDuration(s, name) == Err(NotPositive, name + " must be positive")
  {
    GoTrimmedPlain(s, d, u);
  }

  /** Digits and a unit letter in either case trim to themselves, lower-cased. */
  lemma GoTrimmedPlain(s: string, d: string, u: char)
    requires s == d + [u] && d != [] && AllDigits(d) && UnitOf(LowerChar(u)).Some?
    ensures GoTrimmed(s) == d + [LowerChar(u)]
    ensures GoMatches(GoTrimmed(s)) && GoTrimmed(s)[..|d|] == d
  {
    var core := d + [LowerChar(u)];
    assert Lower(s) == core by {
      forall k | 0 <= k < |s| ensures Lower(s)[k] == core[k] {
        if k < |d| {
          assert s[k] == d[k];
        } else {
          assert s[k] == u;
        }
      }
    }
    DigitNotPySpace(core[0]);
    assert !GoSpace(core[|core| - 1]);
    TrimOfTrimmed(core, GoWhite);
    assert core[..|core| - 1] == d;
  }

  /** A day is exactly 24 hours. */
  lemma GoDayIsTwentyFourHours(d: string, name: string)
    requires d != [] && AllDigits(d) && DigitsValue(d) > 0
    requires DigitsValue(d) * UnitNanos(Day) <= MaxInt64
    ensures GoParseDuration(d + "d", name).Ok? && GoParseDuration(d + "h", name).Ok?
    ensures GoParseDuration(d + "d", name).value == 24 * GoParseDuration(d + "h", name).value
  {
    var n := DigitsValue(d);
    assert n * UnitNanos(Hour) <= n * UnitNanos(Day) by {
      assert UnitNanos(Day) == 24 * UnitNanos(Hour);
    }
    GoParsePlain(d + "d", d, 'd', Day, name);
    GoParsePlain(d + "h", d, 'h', Hour, name);
    assert n * UnitSeconds(Day) * NanosPerSecond == 24 * (n * UnitSeconds(Hour) * NanosPerSecond);
  }

  /** Sample inputs that Go accepts: a plain hour count, a minute count,
      and outer spaces with a capital unit letter. */
  lemma GoAcceptsTwoHours(name: string)
    ensures GoParseDuration("2h", name) == Ok(7200 * NanosPerSecond)
  {
    assert DigitsValue("2") * UnitSeconds(Hour) * NanosPerSecond == 7200 * NanosPerSecond;
    GoParsePlain("2h", "2", 'h', Hour, name);
  }

  lemma GoAcceptsThirtyMinutes(name: string)
    ensures GoParseDuration("30m", name) == Ok(1800 * NanosPerSecond)
  {
    DecimalRoundTrip(30);
    assert Decimal(30) == "30";
    assert DigitsValue("30") * UnitSeconds(Minute) * NanosPerSecond == 1800 * NanosPerSecond;
    GoParsePlain("30m", "30", 'm', Minute, name);
  }

  lemma GoAcceptsSpacedCapital(name: string)
    ensures GoParseDuration(" 2H ", name) == Ok(7200 * NanosPerSecond)
  {
    assert AllSpace(" ", GoWhite);
    assert DigitsValue("2") * UnitSeconds(Hour) * NanosPerSecond == 7200 * NanosPerSecond;
    GoParseAccepts(" 2H ", " ", "2", 'H', " ", Hour, name);
  }

  /** Sample inputs that Go refuses: empty, fractional, signed, multi-unit,
      an inner space, and zero. */
  lemma GoRejectsFractional(name: string)
    ensures Fails(GoParseDuration("1.5h", name), FormatInvalid)
  {
    GoNonDigitBeforeUnitFails("1.5h", 1);
  }

  lemma GoRejectsSigned(name: string)
    ensures Fails(GoParseDuration("-1h", name), FormatInvalid)
  {
    GoNonDigitBeforeUnitFails("-1h", 0);
  }

  lemma GoRejectsTwoUnits(name: string)
    ensures Fails(GoParseDuration("1h30m", name), FormatInvalid)
  {
    GoNonDigitBeforeUnitFails("1h30m", 1);
  }

  lemma GoRejectsEmpty(name: string)
    ensures Fails(GoParseDuration("", name), FormatInvalid)
  {
    assert Lower("") == "";
  }

  lemma GoRejectsInnerSpaceSample(name: string)
    ensures Fails(GoParseDuration("2 h", name), FormatInvalid)
  {
    GoRejectsInnerSpace("2 h", "2", " ", 'h', name);
  }

  lemma GoRejectsZeroSample(name: string)
    ensures GoParseDuration("0h", name) == Err(NotPositive, name + " must be positive")
  {
    GoRejectsZero("0h", "0", 'h', name);
  }

  /** A string of lower-case non-space characters with a non-digit before its
      last character does not match. */
  lemma GoNonDigitBeforeUnitFails(s: string, k: nat)
    requires |s| >= 2 && k < |s| - 1 && !IsDigit(s[k])
    requires forall i :: 0 <= i < |s| ==> !('A' <= s[i] <= 'Z') && !GoSpace(s[i])
    ensures !GoMatches(GoTrimmed(s))
  {
    LowerFixed(s);
    TrimOfTrimmed(s, GoWhite);
    assert s[..|s| - 1][k] == s[k];
  }

  /** A count beyond the int64 range fails `strconv.Atoi`. */
  lemma GoRejectsHugeCount(d: string, u: char, name: string)
    requires d != [] && AllDigits(d) && DigitsValue(d) > MaxInt64 && UnitOf(u).Some?
    ensures GoParseDuration(d + [u], name) == Err(NotInteger, name + " must start with an integer")
  {
    GoTrimmedDigitsUnit(d, u);
  }

  /** Digits and a lower-case unit letter are already trimmed. */
  lemma GoTrimmedDigitsUnit(d: string, u: char)
    requires d != [] && AllDigits(d) && UnitOf(u).Some?
    ensures GoTrimmed(d + [u]) == d + [u]
    ensures (d + [u])[..|d|] == d
  {
    assert d + [u] == d + "" + [u];
    InnerSpaceTrimmed(d, "", u);
  }

  /** The source as written: a count whose duration lies between 2^63 and
      2^64 nanoseconds wraps around to a negative `time.Duration`, which the
      caller then uses as a TTL or a tolerance; the corrected parser refuses it. */
  lemma GoOverflowWrapsNegative(s: string, d: string, u: char, unit: Unit, name: string)
    requires s == d + [u] && d != [] && AllDigits(d) && 0 < DigitsValue(d) <= MaxInt64 && UnitOf(u) == Some(unit)
    requires MaxInt64 < DigitsValue(d) * UnitNanos(unit) < TwoTo64
    ensures GoParseDurationAsWritten(s, name) == Ok(DigitsValue(d) * UnitNanos(unit) - TwoTo64)
    ensures GoParseDurationAsWritten(s, name).value < 0
    ensures GoParseDuration(s, name) == Err(OutOfRange, name + " is out of range")
  {
    assert LowerChar(u) == u;
    GoTrimmedPlain(s, d, u);
    assert GoScan(s, name) == Scanned(DigitsValue(d), unit);
    WrapAboveMax(DigitsValue(d) * UnitNanos(unit));
  }

  lemma WrapAboveMax(x: int)
    requires MaxInt64 < x < TwoTo64
    ensures WrapInt64(x) == x - TwoTo64
  {
  }

  /** For instance "106752d": 106752 days is just over 2^63 nanoseconds. */
  lemma GoOverflowSample(name: string)
    ensures GoParseDurationAsWritten("106752d", name) == Ok(-9223371273709551616)
    ensures GoParseDuration("106752d", name) == Err(OutOfRange, name + " is out of range")
  {
    Numeral106752();
    assert 106752 * UnitNanos(Day) == 9223372800000000000;
    GoOverflowWrapsNegative("106752d", "106752", 'd', Day, name);
  }

  lemma Numeral106752()
    ensures AllDigits("106752") && DigitsValue("106752") == 106752
  {
    assert Decimal(1) == "1";
    assert Decimal(10) == Decimal(1) + [DigitChar(0)] == "10";
    assert Decimal(106) == Decimal(10) + [DigitChar(6)] == "106";
    assert Decimal(1067) == Decimal(106) + [DigitChar(7)] == "1067";
    assert Decimal(10675) == Decimal(1067) + [DigitChar(5)] == "10675";
    assert Decimal(106752) == Decimal(10675) + [DigitChar(2)] == "106752";
    DecimalRoundTrip(106752);
  }

  /** The two Go definitions differ only where the multiplication overflows. */
  lemma GoAsWrittenDiffersOnlyOnOverflow(s: string, name: string)
    ensures GoParseDuration(s, name).Ok? ==> GoParseDurationAsWritten(s, name) == GoParseDuration(s, name)
    ensures GoParseDuration(s, name).Err? && GoParseDuration(s, name).kind != OutOfRange ==>
              GoParseDurationAsWritten(s, name) == GoParseDuration(s, name)
  {
  }

  // ------------------------------------------------------------------
  // Python: parse_duration (src/validate_packet.py:59-85)
  // ------------------------------------------------------------------

  /** A character that the case-insensitive class `[smhd]` matches: the
      eight ASCII letters and U+017F (long s), which case-folds to 's'. */
  predicate PyUnitLetter(c: char) { UnitOf(LowerChar(c)).Some? || c == '\U{17F}' }

  /** `timedelta` refuses durations of 10^9 days or more (OverflowError). */
  const PyTimedeltaLimitSeconds: nat := 86400 * 1_000_000_000

  const PyFormatMessage: string := "ttl" + " must match <int><s|m|h|d> (e.g., '30m', '2h')"

  /** `_DURATION_RE`, `^\s*(\d+)\s*([smhd])\s*$` with IGNORECASE, read off
      a string whose outer white space is already trimmed: the last character
      is a unit letter and what precedes it is digits, then white space. */
  predicate PyMatches(t: string) {
    t != [] && PyUnitLetter(t[|t| - 1])
    && var body := TrimRight(t[..|t| - 1], PyWhite); body != [] && AllDigits(body)
  }

  /** The digits of a matching string. */
  function PyDigits(t: string): (d: string)
    requires PyMatches(t)
    ensures d != [] && AllDigits(d)
  {
    TrimRight(t[..|t| - 1], PyWhite)
  }

  function PyParseDuration(s: string): (r: Parsed)
    ensures r.Ok? ==> 0 < r.value < PyTimedeltaLimitSeconds
    ensures r.Err? && r.kind in {FormatInvalid, NotPositive} ==> "ttl" <= r.message
    ensures r.Err? && r.kind == FormatInvalid <==> !PyMatches(Trim(s, PyWhite))
  {
    var t := Trim(s, PyWhite);
    if !PyMatches(t) then Err(FormatInvalid, PyFormatMessage)
    else
      var value := DigitsValue(PyDigits(t));
      if value == 0 then Err(NotPositive, "ttl must be positive")
      else
        match UnitOf(LowerChar(t[|t| - 1]))
        case None => Err(UnsupportedUnit, "unsupported ttl unit")
        case Some(u) =>
          if value * UnitSeconds(u) >= PyTimedeltaLimitSeconds
          then Err(OutOfRange, "days must have magnitude <= 999999999")
          else Ok(value * UnitSeconds(u))
  }

  /** The shapes above with some pieces empty. */
  lemma NoPadding(d: string, b: string, u: char)
    ensures d + b + [u] == "" + d + b + [u] + ""
    ensures d + [u] == "" + d + "" + [u] + ""
  {
  }

  lemma NoInnerSpace(a: string, d: string, u: char, c: string)
    ensures a + d + [u] + c == a + d + "" + [u] + c
  {
  }

  /** A unit letter, in either case, is not white space. */
  lemma UnitNotSpace(u: char)
    requires UnitOf(LowerChar(u)).Some?
    ensures !PySpace(u) && !GoSpace(u)
  {
    assert LowerChar(u) in "smhd";
  }

  lemma DigitNotPySpace(c: char)
    requires IsDigit(c)
    ensures !PySpace(c) && !GoSpace(c)
  {
  }

  /** Python accepts outer white space, white space between the digits and the
      unit, and either case of the unit, and yields the number times the unit. */
  lemma PyParseAccepts(s: string, a: string, d: string, b: string, u: char, c: string, unit: Unit)
    requires s == a + d + b + [u] + c
    requires AllSpace(a, PyWhite) && AllSpace(b, PyWhite) && AllSpace(c, PyWhite)
    requires d != [] && AllDigits(d) && DigitsValue(d) > 0
    requires UnitOf(LowerChar(u)) == Some(unit)
    requires DigitsValue(d) * UnitSeconds(unit) < PyTimedeltaLimitSeconds
    ensures PyParseDuration(s) == Ok(DigitsValue(d) * UnitSeconds(unit))
  {
    PyTrimmedShape(s, a, d, b, u, c);
  }

  /** Trimming leaves the digits, the inner white space and the unit letter,
      and the digits are what the pattern captures. */
  lemma PyTrimmedShape(s: string, a: string, d: string, b: string, u: char, c: string)
    requires s == a + d + b + [u] + c
    requires AllSpace(a, PyWhite) && AllSpace(b, PyWhite) && AllSpace(c, PyWhite)
    requires d != [] && AllDigits(d) && UnitOf(LowerChar(u)).Some?
    ensures Trim(s, PyWhite) == d + b + [u]
    ensures PyMatches(d + b + [u]) && PyDigits(d + b + [u]) == d
  {
    var core := d + b + [u];
    assert s == a + core + c;
    TrimAbsorbs(a, core, c, PyWhite);
    DigitNotPySpace(d[0]);
    UnitNotSpace(u);
    assert core[0] == d[0] && core[|core| - 1] == u;
    TrimOfTrimmed(core, PyWhite);
    assert core[..|core| - 1] == d + b;
    TrimRightAbsorbs(d, b, PyWhite);
    DigitNotPySpace(d[|d| - 1]);
    assert TrimRight(d, PyWhite) == d;
  }

  /** The plain form, digits then the unit letter. */
  lemma PyParseDigitsUnit(s: string, d: string, u: char, unit: Unit)
    requires s == d + [u]
    requires d != [] && AllDigits(d) && DigitsValue(d) > 0
    requires UnitOf(LowerChar(u)) == Some(unit)
    requires DigitsValue(d) * UnitSeconds(unit) < PyTimedeltaLimitSeconds
    ensures PyParseDuration(s) == Ok(DigitsValue(d) * UnitSeconds(unit))
  {
    NoPadding(d, "", u);
    PyParseAccepts(s, "", d, "", u, "", unit);
  }

  /** Every string Python accepts is white space, digits, white space, a unit
      letter in either case and white space. */
  lemma PyAcceptedShape(s: string) returns (a: string, d: string, b: string, u: char, c: string, unit: Unit)
    requires PyParseDuration(s).Ok?
    ensures s == a + d + b + [u] + c
    ensures AllSpace(a, PyWhite) && AllSpace(b, PyWhite) && AllSpace(c, PyWhite)
    ensures d != [] && AllDigits(d) && DigitsValue(d) > 0 && UnitOf(LowerChar(u)) == Some(unit)
    ensures PyParseDuration(s) == Ok(DigitsValue(d) * UnitSeconds(unit))
  {
    var t := Trim(s, PyWhite);
    assert PyMatches(t);
    a, d, b, u, c := PySplitMatch(s);
    unit := UnitOf(LowerChar(u)).value;
  }

  /** Where the pieces of a matching string sit in the original one. */
  lemma PySplitMatch(s: string) returns (a: string, d: string, b: string, u: char, c: string)
    requires PyMatches(Trim(s, PyWhite))
    ensures s == a + d + b + [u] + c
    ensures AllSpace(a, PyWhite) && AllSpace(b, PyWhite) && AllSpace(c, PyWhite)
    ensures d == PyDigits(Trim(s, PyWhite)) && u == Trim(s, PyWhite)[|Trim(s, PyWhite)| - 1]
  {
    var i, j := TrimSplit(s, PyWhite);
    var t := s[i..j];
    assert t == Trim(s, PyWhite);
    var front := t[..|t| - 1];
    d := TrimRight(front, PyWhite);
    TrimRightPrefix(front, PyWhite);
    a, b, u, c := s[..i], front[|d|..], t[|t| - 1], s[j..];
    SplitPieces(s, i, j, |d|);
  }

  lemma SplitPieces(s: string, i: nat, j: nat, k: nat)
    requires i < j <= |s| && k <= j - i - 1
    ensures s == s[..i] + s[i..j][..j - i - 1][..k] + s[i..j][..j - i - 1][k..] + [s[i..j][j - i - 1]] + s[j..]
  {
    var t := s[i..j];
    var front := t[..|t| - 1];
    assert front == front[..k] + front[k..];
    assert t == front + [t[|t| - 1]];
    assert s == s[..i] + t + s[j..];
  }

  /** Python refuses the empty string (and so `None`, read as ""). */
  lemma PyRejectsEmpty()
    ensures PyParseDuration("") == Err(FormatInvalid, PyFormatMessage)
  {
  }

  /** A zero count is refused as not positive. */
  lemma PyRejectsZero(s: string, d: string, u: char)
    requires s == d + [u] && d != [] && AllDigits(d) && DigitsValue(d) == 0
    requires PyUnitLetter(u)
    ensures PyParseDuration(s) == Err(NotPositive, "ttl must be positive")
  {
    var t := s;
    DigitNotPySpace(d[0]);
    TrimOfTrimmed(t, PyWhite);
    assert t[..|t| - 1] == d;
    DigitNotPySpace(d[|d| - 1]);
    assert TrimRight(d, PyWhite) == d;
  }

  /** The branch the source marks unreachable is reached by "1" followed by
      U+017F: the case-insensitive class matches it, but it lower-cases to
      itself, which is none of s, m, h, d. Go refuses the same string at the
      pattern. */
  lemma PyLongSReachesUnsupportedUnit()
    ensures PyParseDuration("1\U{17F}") == Err(UnsupportedUnit, "unsupported ttl unit")
  {
    var t := "1\U{17F}";
    TrimOfTrimmed(t, PyWhite);
    assert t[..1] == "1";
    assert TrimRight("1", PyWhite) == "1";
  }

  lemma GoRejectsLongS(name: string)
    ensures Fails(GoParseDuration("1\U{17F}", name), FormatInvalid)
  {
    TrimOfTrimmed(Lower("1\U{17F}"), GoWhite);
  }

  /** A day is exactly 24 hours in Python too. */
  lemma PyDayIsTwentyFourHours(d: string)
    requires d != [] && AllDigits(d) && DigitsValue(d) > 0
    requires DigitsValue(d) * UnitSeconds(Day) < PyTimedeltaLimitSeconds
    ensures PyParseDuration(d + "d").Ok? && PyParseDuration(d + "h").Ok?
    ensures PyParseDuration(d + "d").value == 24 * PyParseDuration(d + "h").value
  {
    var n := DigitsValue(d);
    DayHourScale(n);
    PyParseDigitsUnit(d + "d", d, 'd', Day);
    PyParseDigitsUnit(d + "h", d, 'h', Hour);
  }

  lemma DayHourScale(n: nat)
    ensures n * UnitSeconds(Hour) <= n * UnitSeconds(Day)
    ensures n * UnitSeconds(Day) == 24 * (n * UnitSeconds(Hour))
  {
  }

  // ------------------------------------------------------------------
  // The two grammars compared
  // ------------------------------------------------------------------

  /** Python's grammar contains Go's: whatever Go accepts, Python accepts with
      the same duration (Go's nanoseconds are Python's seconds times 10^9). */
  lemma GoAcceptedImpliesPyAccepted(s: string, name: string)
    requires GoParseDuration(s, name).Ok?
    ensures PyParseDuration(s).Ok?
    ensures PyParseDuration(s).value * NanosPerSecond == GoParseDuration(s, name).value
  {
    var a, d, u, c, unit := GoAcceptedShape(s, name);
    var n := DigitsValue(d);
    assert n * UnitSeconds(unit) * NanosPerSecond <= MaxInt64;
    assert n * UnitSeconds(unit) < PyTimedeltaLimitSeconds;
    assert AllSpace(a, PyWhite) && AllSpace(c, PyWhite);
    NoInnerSpace(a, d, u, c);
    PyParseAccepts(s, a, d, "", u, c, unit);
  }

  /** Exactly where the grammars part: of the strings Python accepts, split
      into outer white space, digits, inner white space, unit and outer white
      space, Go accepts those whose outer white space is also Go white space,
      that have no inner white space, and whose duration fits int64. */
  lemma GoAcceptsPyShape(s: string, a: string, d: string, b: string, u: char, c: string, unit: Unit, name: string)
    requires s == a + d + b + [u] + c
    requires AllSpace(a, PyWhite) && AllSpace(b, PyWhite) && AllSpace(c, PyWhite)
    requires d != [] && AllDigits(d) && DigitsValue(d) > 0
    requires UnitOf(LowerChar(u)) == Some(unit)
    ensures GoParseDuration(s, name).Ok? <==>
      AllSpace(a, GoWhite) && b == [] && AllSpace(c, GoWhite) && DigitsValue(d) * UnitNanos(unit) <= MaxInt64
  {
    if GoParseDuration(s, name).Ok? {
      var a2, d2, u2, c2, unit2 := GoAcceptedShape(s, name);
      assert AllSpace(a2, PyWhite) && AllSpace(c2, PyWhite);
      NoInnerSpace(a2, d2, u2, c2);
      ShapeUnique(a, d, b, u, c, a2, d2, "", u2, c2);
    }
    if AllSpace(a, GoWhite) && b == [] && AllSpace(c, GoWhite) && DigitsValue(d) * UnitNanos(unit) <= MaxInt64 {
      NoInnerSpace(a, d, u, c);
      GoParseAccepts(s, a, d, u, c, unit, name);
    }
  }

  /** A string splits at most one way into white space, digits, white space,
      a unit letter and white space. */
  lemma ShapeUnique(a: string, d: string, b: string, u: char, c: string,
                    a2: string, d2: string, b2: string, u2: char, c2: string)
    requires a + d + b + [u] + c == a2 + d2 + b2 + [u2] + c2
    requires AllSpace(a, PyWhite) && AllSpace(b, PyWhite) && AllSpace(c, PyWhite)
    requires AllSpace(a2, PyWhite) && AllSpace(b2, PyWhite) && AllSpace(c2, PyWhite)
    requires d != [] && AllDigits(d) && d2 != [] && AllDigits(d2)
    requires UnitOf(LowerChar(u)).Some? && UnitOf(LowerChar(u2)).Some?
    ensures a == a2 && d == d2 && b == b2 && u == u2 && c == c2
  {
    var m, m2 := d + b + [u], d2 + b2 + [u2];
    UnitNotSpace(u);
    UnitNotSpace(u2);
    DigitNotPySpace(d[0]);
    DigitNotPySpace(d2[0]);
    Regroup3(a, m, c, d, b, u);
    Regroup3(a2, m2, c2, d2, b2, u2);
    PrefixUnique(a, m + c, a2, m2 + c2);
    SuffixUnique(m, c, m2, c2);
    assert m[..|m| - 1] == d + b && m2[..|m2| - 1] == d2 + b2;
    DigitsSpaceUnique(d, b, d2, b2);
  }

  /** Digits followed by white space split one way only. */
  lemma DigitsSpaceUnique(d: string, b: string, d2: string, b2: string)
    requires d + b == d2 + b2
    requires AllDigits(d) && AllDigits(d2) && AllSpace(b, PyWhite) && AllSpace(b2, PyWhite)
    ensures d == d2 && b == b2
  {
    var e := d + b + ['a'];
    assert forall k :: 0 <= k < |d| ==> IsDigit(e[k]);
    assert forall k :: |d| <= k < |d + b| ==> PySpace(e[k]);
    assert forall k :: 0 <= k < |d2| ==> IsDigit(e[k]);
    assert forall k :: |d2| <= k < |d2 + b2| ==> PySpace(e[k]);
    assert e == d2 + b2 + ['a'];
    assert e[|d|] == 'a' || PySpace(e[|d|]);
    assert e[|d2|] == 'a' || PySpace(e[|d2|]);
    assert d == (d + b)[..|d|] && b == (d + b)[|d|..];
    assert d2 == (d2 + b2)[..|d2|] && b2 == (d2 + b2)[|d2|..];
  }

  lemma Regroup3(a: string, m: string, c: string, d: string, b: string, u: char)
    requires m == d + b + [u]
    ensures a + d + b + [u] + c == a + (m + c)
  {
  }

  /** White space followed by a non-space character splits one way only. */
  lemma PrefixUnique(x: string, r: string, y: string, q: string)
    requires x + r == y + q
    requires AllSpace(x, PyWhite) && AllSpace(y, PyWhite)
    requires r != [] && !PySpace(r[0]) && q != [] && !PySpace(q[0])
    ensures x == y && r == q
  {
    assert !PySpace((x + r)[|x|]) && forall k :: 0 <= k < |x| ==> PySpace((x + r)[k]);
    assert !PySpace((y + q)[|y|]) && forall k :: 0 <= k < |y| ==> PySpace((y + q)[k]);
    assert x == (x + r)[..|x|] && r == (x + r)[|x|..];
    assert y == (y + q)[..|y|] && q == (y + q)[|y|..];
  }

  /** A non-space character followed by white space splits one way only. */
  lemma SuffixUnique(r: string, x: string, q: string, y: string)
    requires r + x == q + y
    requires AllSpace(x, PyWhite) && AllSpace(y, PyWhite)
    requires r != [] && !PySpace(r[|r| - 1]) && q != [] && !PySpace(q[|q| - 1])
    ensures r == q && x == y
  {
    assert !PySpace((r + x)[|r| - 1]) && forall k :: |r| <= k < |r + x| ==> PySpace((r + x)[k]);
    assert !PySpace((q + y)[|q| - 1]) && forall k :: |q| <= k < |q + y| ==> PySpace((q + y)[k]);
    assert r == (r + x)[..|r|] && x == (r + x)[|r|..];
    assert q == (q + y)[..|q|] && y == (q + y)[|q|..];
  }

  /** The grammars differ: white space between the digits and the unit is
      accepted by Python and refused by Go. */
  lemma InnerSpaceSplitsGrammars(s: string, d: string, b: string, u: char, unit: Unit)
    requires s == d + b + [u]
    requires d != [] && AllDigits(d) && DigitsValue(d) > 0
    requires b != [] && AllSpace(b, GoWhite)
    requires UnitOf(LowerChar(u)) == Some(unit)
    requires DigitsValue(d) * UnitSeconds(unit) < PyTimedeltaLimitSeconds
    ensures Fails(GoParseDuration(s, "ttl"), FormatInvalid)
    ensures PyParseDuration(s) == Ok(DigitsValue(d) * UnitSeconds(unit))
  {
    GoRejectsInnerSpace(s, d, b, u, "ttl");
    assert AllSpace(b, PyWhite);
    NoPadding(d, b, u);
    PyParseAccepts(s, "", d, b, u, "", unit);
  }

  /** The grammars differ on white space too: Python's `\s` includes the
      separators U+001C..U+001F, which Go's `TrimSpace` keeps. */
  lemma SeparatorSplitsGrammars(s: string, x: char, d: string, u: char, unit: Unit, name: string)
    requires s == [x] + d + [u] && '\U{1C}' <= x <= '\U{1F}'
    requires d != [] && AllDigits(d) && DigitsValue(d) > 0
    requires UnitOf(LowerChar(u)) == Some(unit)
    requires DigitsValue(d) * UnitSeconds(unit) < PyTimedeltaLimitSeconds
    ensures Fails(GoParseDuration(s, name), FormatInvalid)
    ensures PyParseDuration(s) == Ok(DigitsValue(d) * UnitSeconds(unit))
  {
    var low := Lower(s);
    assert low[0] == x;
    assert LowerChar(u) in "smhd";
    assert low[|low| - 1] == LowerChar(u);
    TrimOfTrimmed(low, GoWhite);
    assert low[..|low| - 1][0] == x;
    assert AllSpace([x], PyWhite);
    NoInnerSpace([x], d, u, "");
    PyParseAccepts(s, [x], d, "", u, "", unit);
  }

  /** The separator U+001C before "2h". */
  lemma SeparatorSample(name: string)
    ensures Fails(GoParseDuration("\U{1C}2h", name), FormatInvalid)
    ensures PyParseDuration("\U{1C}2h") == Ok(7200)
  {
    SeparatorSplitsGrammars("\U{1C}2h", '\U{1C}', "2", 'h', Hour, name);
  }
}
