# Context-packet temporal validator, modelled in Dafny

The context broker checks a ContextPacket in two implementations, one in Go and one as a Python
reference. Each runs the JSON Schema engine first. It then checks the packet's time fields:

- `created_at` and `expires_at` are RFC 3339 timestamps;
- `ttl` is a duration string such as `30m`, `2h` or `7d`;
- `expires_at` must equal `created_at + ttl` within a tolerance;
- `created_at` may not lie too far in the future;
- the packet must not have expired.

The Go program stops at the first failure and reports one code. The Python `validate_packet`
collects every issue it finds into a list.

The model has seven modules:

- `Text`: ASCII digits and decimal numerals, lower-casing, and the two white-space classes
  with their trims.
  - Go's `strings.TrimSpace` uses Unicode White_Space.
  - Python's `str.strip` and `\s` also include U+001C..U+001F.
- `Duration`: both duration parsers. Go's `parseDuration` works in nanoseconds. Python's
  `parse_duration` works in whole seconds, because a `timedelta` is built from one integer
  count of one unit.
- `JsonPath`: `_json_path`, the dotted rendering of a schema error's location. It is modelled as
  the imperative two-loop method `FormatPath`, proved against a recursive specification
  `Render` and against an independent piece-by-piece description `Pieces`.
- `Packet`: what both validators share.
  - the packet as a JSON object, in which only string values matter;
  - the schema engine's findings;
  - the issue codes;
  - the three comparisons: mismatch with its one-second tolerance floor, created too far in the
    future, and expired.
- `GoValidator`: the early-exit chain of `main`, from the schema check to `{"ok":true}`.
  - `Validate` is a method with the mutable locals `diff` and `tolerance`.
  - `GoVerdict` is its specification: the first failing check in a fixed list.
- `PyValidator`: `validate_packet`, as the methods `ValidatePacket`, `CheckTimes` and
  `CompareTimes`. Each appends to the issue list step by step and is proved against the
  function `Issues`.
- `CrossCheck`: how the two validators relate when both see the same packet, the same
  timestamps and the same tolerances.

Inputs the model takes as parameters:

- Timestamps are integers on a time line: nanoseconds for Go, microseconds for Python (the
  resolution of `datetime`).
- The RFC 3339 parsers are parameters, `rfc3339: string -> Option<int>` for Go and
  `string -> Stamp` for Python.
- The wall clock, `time.Now()` or `now_utc`, is the parameter `env.now`, read once.
- The schema engine is represented by its result: a boolean for Go, and for Python the list of
  errors, each with a message and a path.

Some functions are plain transcriptions of the source: `Text.Lower`, `Duration.UnitSeconds`,
`Packet.StringField`, `JsonPath.Parts` and `PyValidator.SchemaIssues`. They carry no row of
their own. What they mean is stated by `Text.LowerNoUpper`, `Duration.UnitScale`,
`GoValidator.GoVerdictCases`, `JsonPath.RenderIsPieces` and `PyValidator.PySchemaIssuesFirst`.

## Model

| member | source | states |
|---|---|---|
| Text.Decimal | src/validate_packet.py:153 | `str(i)` of a non-negative int: ASCII digits only, and a leading '0' exactly for zero |
| Text.DecimalRoundTrip | src/validate_packet.py:153 | reading back the decimal numeral of `n` gives `n` |
| Text.DigitsValueZero | src/validate_packet.go:26-32 | a digit string has value 0 exactly when every digit is '0', so "00h" is zero as well |
| Text.LowerNoUpper | src/validate_packet.go:20 | after `strings.ToLower` no ASCII capital remains, so lower-casing twice is lower-casing once |
| Text.TrimSplit | src/validate_packet.go:20 | a trim keeps a slice `s[i..j]`, and what it drops on either side is all white space |
| Text.TrimAbsorbs | src/validate_packet.go:20 | extra white space on either side does not change the trim |
| Text.TrimOfTrimmed | src/validate_packet.py:92-95 | a string that starts and ends with a non-space character is its own trim |
| Duration.GoScan | src/validate_packet.go:19-33 | a scanned count lies in 1..MaxInt64; every refusal message starts with the label; a format error occurs exactly when the trimmed, lower-cased string is not ASCII digits and one unit letter |
| Duration.UnitScale | src/validate_packet.go:34-42 | each unit is the one below it scaled: 60 s to the minute, 60 min to the hour, 24 h to the day, in seconds and in nanoseconds |
| Duration.GoParseDuration | src/validate_packet.go:19-46 | a success is positive, fits int64 and is a whole number of seconds; every error message starts with the label; a format error occurs exactly when the pattern does not match |
| Duration.GoParseAccepts | src/validate_packet.go:20-42 | outer white space, digits worth n > 0 and a unit letter in either case parse to n times the unit, when the product fits int64 |
| Duration.GoAcceptedShape | src/validate_packet.go:20-42 | converse of GoParseAccepts: every accepted string has that shape, and the value is the count times the unit |
| Duration.GoParseIgnoresOuterSpaceAndCase | src/validate_packet.go:20 | adding outer white space or lower-casing does not change the result |
| Duration.GoAcceptsSpacedCapital | src/validate_packet.go:20 | " 2H " gives 7200 s, the same as "2h" (Duration.GoAcceptsTwoHours) |
| Duration.GoAcceptsTwoHours | src/validate_packet.go:39-40 | "2h" gives 7200 s |
| Duration.GoAcceptsThirtyMinutes | src/validate_packet.go:37-38 | "30m" gives 1800 s |
| Duration.GoDayIsTwentyFourHours | src/validate_packet.go:39-42 | `n`d is exactly 24 times `n`h |
| Duration.GoRejectsInnerSpace | src/validate_packet.go:17-24 | white space between the digits and the unit is a format error |
| Duration.GoRejectsInnerSpaceSample | src/validate_packet.go:17-24 | "2 h" is a format error |
| Duration.GoRejectsEmpty | src/validate_packet.go:21-24 | "" is a format error |
| Duration.GoRejectsFractional | src/validate_packet.go:21-24 | "1.5h" is a format error |
| Duration.GoRejectsSigned | src/validate_packet.go:21-24 | "-1h" is a format error |
| Duration.GoRejectsTwoUnits | src/validate_packet.go:21-24 | "1h30m" is a format error |
| Duration.GoNonDigitBeforeUnitFails | src/validate_packet.go:17-24 | a non-digit anywhere before the last character of an already trimmed, lower-case string fails the pattern |
| Duration.GoRejectsZero | src/validate_packet.go:30-32 | a count of zero gives exactly "`label` must be positive" |
| Duration.GoRejectsZeroSample | src/validate_packet.go:30-32 | "0h" gives "`label` must be positive" |
| Duration.GoRejectsHugeCount | src/validate_packet.go:26-29 | a count beyond int64 gives exactly "`label` must start with an integer" |
| Duration.GoRejectsLongS | src/validate_packet.go:17-24 | "1" followed by U+017F is a format error in Go |
| Duration.GoParseDurationAsWritten | src/validate_packet.go:19-46 | the code as written, with the `time.Duration` product wrapping modulo 2^64; it fails exactly when the scan fails |
| Duration.GoOverflowWrapsNegative | src/validate_packet.go:34-42 | when count times unit lies between 2^63 and 2^64 ns, the as-written parser returns that product minus 2^64, which is negative; the corrected parser reports an out-of-range error |
| Duration.GoOverflowSample | src/validate_packet.go:41-42 | "106752d" gives -9223371273709551616 ns as written, and an out-of-range error when corrected |
| Duration.GoAsWrittenDiffersOnlyOnOverflow | src/validate_packet.go:19-46 | the corrected and as-written parsers agree on every input except the overflowing ones |
| Duration.PyParseDuration | src/validate_packet.py:59-85 | a success is positive and below the `timedelta` limit; format and zero errors start with "ttl"; a format error occurs exactly when the stripped string does not match the pattern |
| Duration.PyParseAccepts | src/validate_packet.py:59-82 | outer white space, digits worth n > 0, optional inner white space and a unit letter in either case parse to n times the unit |
| Duration.PyAcceptedShape | src/validate_packet.py:59-82 | converse of PyParseAccepts: every accepted string has that shape, and the value is the count times the unit |
| Duration.PyTrimmedShape | src/validate_packet.py:59-66 | the pattern's capture group is exactly the digits |
| Duration.PyParseDigitsUnit | src/validate_packet.py:75-82 | digits worth n > 0 and a unit letter parse to n times the unit |
| Duration.PyDayIsTwentyFourHours | src/validate_packet.py:79-82 | `n`d is exactly 24 times `n`h |
| Duration.PyRejectsEmpty | src/validate_packet.py:66-68 | "" gives the format error |
| Duration.PyRejectsZero | src/validate_packet.py:72-73 | a count of zero gives exactly "ttl must be positive" |
| Duration.PyLongSReachesUnsupportedUnit | src/validate_packet.py:70-85 | "1" followed by U+017F reaches the branch commented as unreachable and gives "unsupported ttl unit" |
| Duration.GoAcceptedImpliesPyAccepted | src/validate_packet.py:59-82 | whatever Go accepts, Python accepts too, with the same duration |
| Duration.GoAcceptsPyShape | src/validate_packet.py:59-66 | exactly which strings Python accepts and Go refuses: of Python's shapes, Go accepts exactly those whose outer white space is Go white space, that have no inner white space, and whose duration fits int64 |
| Duration.ShapeUnique | src/validate_packet.py:59-66 | two splits of one string into white space, digits, white space, a unit letter and white space are the same split, piece by piece |
| Duration.InnerSpaceSplitsGrammars | src/validate_packet.py:59-66 | digits, inner white space and a unit: Python accepts, Go gives a format error |
| Duration.SeparatorSplitsGrammars | src/validate_packet.py:59-66 | a leading U+001C..U+001F: Python strips it and accepts, Go keeps it and gives a format error |
| Duration.SeparatorSample | src/validate_packet.py:59-66 | "\u001C2h": Python gives 7200 s and Go gives a format error |
| JsonPath.FormatPath | src/validate_packet.py:146-163 | the two loops compute `Render(path)`; the empty path gives "" |
| JsonPath.RenderIsPieces | src/validate_packet.py:157-162 | the output is the concatenation of the pieces: an index, or a key starting with '[', as it is; any other key with a '.' before it exactly when some earlier component produced text |
| JsonPath.RenderEmptyIff | src/validate_packet.py:157-163 | the output is empty exactly when every component renders as the empty string |
| JsonPath.RenderNoLeadingDot | src/validate_packet.py:162 | when no key starts with '.', the output does not start with '.' |
| JsonPath.RenderNoDoubleDot | src/validate_packet.py:157-162 | when keys are non-empty and contain no '.', the output has no ".." and does not end with '.' |
| JsonPath.EmptyKeyMakesDoubleDot | src/validate_packet.py:162 | counterexample: the keys a, "" and b render as "a..b" |
| JsonPath.LeadingDotKey | src/validate_packet.py:162 | counterexample: a single key starting with '.' renders with a leading '.' |
| JsonPath.IndexBetweenKeys | src/validate_packet.py:159-162 | a, then index i, then b renders as "a[i].b": no dot before the index |
| JsonPath.KeysRenderAsDotJoin | src/validate_packet.py:157-162 | keys only, non-empty and not starting with '[', render as their '.'-join |
| Packet.MismatchBoundary | src/validate_packet.go:129-140 | a drift exactly equal to max(skew, 1 s) passes in both directions, one unit more fails, and the 1 s floor applies to any smaller skew |
| Packet.ExpiryIgnoresSecondFloor | src/validate_packet.go:147-149 | expiry uses the skew without the floor: with zero skew, one unit past `expires_at` is expired, while a one-unit mismatch still passes |
| Packet.CodeNamesDistinct | src/validate_packet.go:99-148 | the seven code strings the validators emit are pairwise different, so a name identifies its code |
| Packet.ComparisonsScale | src/validate_packet.py:221-253 | the three comparisons give the same answers on a time line k times finer, so the nanosecond and microsecond models agree |
| GoValidator.FirstFailure | src/validate_packet.go:98-151 | Valid exactly when no check fails; otherwise the code of a failing check that no earlier failing check precedes |
| GoValidator.Validate | src/validate_packet.go:98-151 | the early-exit chain with the mutable `diff` and `tolerance` computes `GoVerdict` |
| GoValidator.GoVerdictChain | src/validate_packet.go:98-151 | the verdict spelled out in order: schema, created_at, expires_at, ttl, mismatch, future, expired, valid |
| GoValidator.GoVerdictCases | src/validate_packet.go:98-127 | each early code occurs exactly when its check fails and all earlier checks pass |
| GoValidator.GoMismatchIff | src/validate_packet.go:129-140 | TIME_MISMATCH exactly when all fields parse and abs(expires - (created + ttl)) > max(skew, 1 s) |
| GoValidator.GoFutureIff | src/validate_packet.go:142-145 | TIME_CREATED_AT_IN_FUTURE exactly when all fields parse, there is no mismatch, and created - now > allowFuture |
| GoValidator.GoExpiredIff | src/validate_packet.go:147-149 | TIME_EXPIRED exactly when all fields parse, no earlier comparison fails, and now - expires > skew, with the skew not floored |
| GoValidator.GoValidIff | src/validate_packet.go:151 | valid exactly when the schema passes, everything parses and no comparison fails |
| GoValidator.GoExpiryMonotonic | src/validate_packet.go:142-149 | once expired, every later `now` is expired as well |
| GoValidator.GoFutureMonotonic | src/validate_packet.go:142-145 | once too far in the future, every earlier `now` is too |
| GoValidator.GoParsedSkewNeedsNoFloor | src/validate_packet.go:134-137 | a skew produced by the corrected `parseDuration` is at least 1 s, so the floor leaves it unchanged |
| GoValidator.AsWrittenSkewNeedsFloor | src/validate_packet.go:129-149 | the parser as written lets "106752d" through as a negative skew; for that value the mismatch check uses the 1 s floor and the expiry check the negative skew |
| GoValidator.DefaultFlagsParse | src/validate_packet.go:51-52 | the default flags "60s" and "5m" parse to one and five minutes |
| GoValidator.GoBadExpiryFirst | src/validate_packet.go:111-127 | a bad `expires_at` is reported before any `ttl` problem |
| GoValidator.GoScenarioValidThenExpired | src/validate_packet.go:129-151 | created 00:00, "2h", expiring 02:00: valid at 01:00, expired at 03:05 |
| GoValidator.GoScenarioZeroTtl | src/validate_packet.go:120-127 | `ttl` "0h" gives TIME_INVALID_TTL |
| GoValidator.GoScenarioFuture | src/validate_packet.go:142-145 | created ten minutes after `now`, with five allowed: TIME_CREATED_AT_IN_FUTURE |
| GoValidator.GoScenarioMissingExpiry | src/validate_packet.go:111-114 | a missing `expires_at` gives TIME_INVALID_EXPIRES_AT even when the schema passes |
| PyValidator.ValidatePacket | src/validate_packet.py:168-271 | the result's issues are `Issues`; ok exactly when there are none; `schema_version` is the packet's value exactly when it is a string |
| PyValidator.CheckTimes | src/validate_packet.py:199-265 | the temporal block appends exactly `TemporalIssues` |
| PyValidator.CompareTimes | src/validate_packet.py:219-265 | the three comparisons append exactly `Comparisons` |
| PyValidator.PyOkIff | src/validate_packet.py:270 | no issues exactly when there are no schema errors and no temporal issues |
| PyValidator.PySchemaIssuesFirst | src/validate_packet.py:180-265 | the schema issues come first, one per error, and the remaining issues follow the order created_at, ttl, expires_at, mismatch, future, expired |
| PyValidator.PyNoTemporalWithoutFields | src/validate_packet.py:195-199 | without all three keys, only the schema issues are reported |
| PyValidator.PyParseIssuesIff | src/validate_packet.py:200-216 | each TIME_INVALID_* code is reported exactly when the three keys are present and that field fails to parse |
| PyValidator.PyComparisonIssuesIff | src/validate_packet.py:219-265 | each comparison code is reported exactly when all three fields parse and that comparison fails, independently of the other two |
| PyValidator.ComparisonsReport | src/validate_packet.py:221-265 | the comparisons report a code exactly when its inequality holds |
| PyValidator.FieldIssuesReport | src/validate_packet.py:200-219 | per-field issues and comparisons, code by code |
| PyValidator.PyExpiryMonotonic | src/validate_packet.py:253 | once expired, every later `now` is expired as well |
| PyValidator.PyBadTtlAndExpiry | src/validate_packet.py:206-216 | a bad `ttl` and a bad `expires_at` are both reported, the ttl first |
| PyValidator.AllComparisonsFail | src/validate_packet.py:221-265 | when all three comparisons fail, three issues are reported, in check order |
| PyValidator.PyThreeComparisonsTogether | src/validate_packet.py:221-265 | an `expires_at` before `created_at`, itself in the future, yields mismatch, future and expired together |
| PyValidator.PyScenarioValidThenExpired | src/validate_packet.py:219-265 | created 00:00, "2h", expiring 02:00: no issue at 01:00, only TIME_EXPIRED at 03:05 |
| PyValidator.PyScenarioMissingExpiry | src/validate_packet.py:199 | a missing `expires_at`, with no schema errors, gives no issue at all |
| PyValidator.PyStampSample | src/validate_packet.py:92-95 | a timestamp without outer white space reaches the parser unchanged |
| CrossCheck.TemporalCodesAgree | src/validate_packet.py:199-265 | on the same inputs, Python's temporal issues report each code exactly under the condition that makes Go's corresponding check fail |
| CrossCheck.GoVerdictAmongPyIssues | src/validate_packet.go:98-151 | Go says valid exactly when Python finds no issue, and Go's code is always among Python's issues |
| CrossCheck.FirstIssueIsGoVerdict | src/validate_packet.go:98-151 | unless `expires_at` and `ttl` both fail, Python's first issue has Go's code |
| CrossCheck.FirstTemporalIsGoVerdict | src/validate_packet.py:199-265 | the same for the temporal issues with the schema passing |
| CrossCheck.ParseOrderDiverges | src/validate_packet.go:111-127 | with a bad `expires_at` and a bad `ttl`, Go reports the expiry, while Python lists the ttl first |
| CrossCheck.MissingExpiryDiverges | src/validate_packet.py:199 | a missing `expires_at`: Go gives TIME_INVALID_EXPIRES_AT, Python reports nothing |
| CrossCheck.InnerSpaceTtlDiverges | src/validate_packet.py:59-66 | `ttl` "2 h": Go gives TIME_INVALID_TTL, Python accepts the packet |
| CrossCheck.PyTwoSpaceHours | src/validate_packet.py:59-66 | "2 h" parses to 7200 s in Python |
| CrossCheck.PyZeroHours | src/validate_packet.py:72-73 | "0h" gives "ttl must be positive" in Python |

## Left out

- Command-line flags and arguments, exit codes, logging, and JSON and text output are not
  modelled. Go's `fail` and Python's `main` are process plumbing.
- Reading and decoding the packet and schema files is not modelled. It is file I/O and library
  JSON decoding.
- JSON Schema validation is left to its library. In Go it is the boolean `schemaOk`. In Python
  it is the list of errors, already in the order produced by the `sorted(..., key=str(e.path))`
  call, which depends on library data.
- CrossCheck identifies "Go's schema check passes" with "Python's error list is empty". This
  assumes the two schema libraries agree on the packet.
- RFC 3339 parsing (`time.Parse(time.RFC3339Nano, ...)`, `datetime.fromisoformat`) is a
  parameter. Python's own handling before the parser is modelled: a non-string or blank value
  fails, and the value is stripped. The replacement of a trailing "Z" is part of the parser
  parameter.
- The timestamp values in the scenario lemmas are given by the parser parameter. The lemmas do
  not depend on what an RFC 3339 parser would compute.
- GoValidator.Validate: reads `ttl` with the corrected `parseDuration`. The source's parser
  lets a count whose duration overflows int64 through as a wrapped, possibly negative
  duration. For an overflowing `ttl` such as "106752d", the model reports TIME_INVALID_TTL.
  The source goes on with a negative ttl instead, and reports TIME_MISMATCH, or whatever follows
  when `expires_at` equals the wrapped sum. The two flags are not parsed by the chain: they
  reach it as the integers of `Env`, so every value the flag parser as written can yield,
  wrapped ones included, is covered.
- GoValidator.Validate: uses unbounded integers. It does not model the saturation of
  `time.Time.Sub` at the int64 nanosecond range, nor `time.Time.Add` past that range.
- PyValidator.ValidatePacket: does not model the OverflowError that `created_at + ttl` raises
  outside the `datetime` range. That error is raised outside any `try` block.
- PyValidator.CompareTimes: compares exact integer microseconds. The source compares
  `total_seconds()` floats, which can round for very large values.
- Messages are modelled only where they are fixed text or a label prefix.
  - Go verdicts carry the code only, not the text `fail` prints.
  - Python's mismatch, future and expired messages keep their fixed prefix. The interpolated
    timestamps and tolerances are not modelled.
- PyValidator.PyTtl: gives the format-error message for every non-string value. For falsy
  values this matches the source, because `duration or ""` turns them into "". For a truthy
  non-string, such as a number, the source's `re.match` raises a TypeError, whose message is
  reported instead.
- Duration.PyParseDuration: the out-of-range message is simplified. `timedelta` refuses counts
  of 10^9 days or more, and its OverflowError text depends on the unit.
- Duration.PyParseDuration: does not model Python's 4300-digit limit on `int()`.
- Duration.PyParseDuration: only ASCII digits are modelled. Python's `\d` and `int()` would
  also accept other Unicode decimal digits.
- Duration.GoParseDuration: `strings.ToLower` is modelled on ASCII only. No non-ASCII character
  lower-cases to a digit, to one of s, m, h, d, or to white space, so accepted strings and
  values are unaffected. Only the form of already-refused strings would differ.
- Duration.GoParseDuration: the corrected definition rejects an overflowing product with the
  message "`label` is out of range". The source has no such branch; see Findings.

## Findings

| source | as written | input that shows it | evidently intended | confidence | as-written member | corrected member |
|---|---|---|---|---|---|---|
| src/validate_packet.go:34-42 | `time.Duration(n)` times the unit is an int64 product that wraps silently. `strconv.Atoi` only bounds n itself | "106752d" gives -9223371273709551616 ns, a negative ttl that passed the `n <= 0` check | a ttl too long for `time.Duration` is refused like any other invalid ttl | not executed | Duration.GoParseDurationAsWritten, Duration.GoOverflowWrapsNegative, Duration.GoOverflowSample | Duration.GoParseDuration |
