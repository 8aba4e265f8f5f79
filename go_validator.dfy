/** The Go validator's verdict (src/validate_packet.go:98-151): once the
    flags are parsed and the schema is loaded, `main` runs a fixed chain of
    checks and stops at the first one that fails. Time is in integer
    nanoseconds, like `time.Duration`. */
module GoValidator {
  import opened Text
  import opened Duration
  import opened Packet

  datatype Verdict = Valid | Invalid(code: Code)

  /** The wall clock reading and the two tolerances from the flags, in
      nanoseconds. */
  datatype Env = Env(now: int, clockSkew: int, allowFuture: int)

  /** One link of the chain: the code it reports and whether it fails. */
  datatype Check = Check(code: Code, fails: bool)

  /** The verdict of a chain: the code of the first failing check, or
      `Valid` when none fails. */
  function FirstFailure(checks: seq<Check>): (v: Verdict)
    ensures v.Valid? <==> forall i :: 0 <= i < |checks| ==> !checks[i].fails
    ensures v.Invalid? ==>
      exists i :: 0 <= i < |checks| && checks[i].fails && checks[i].code == v.code
                  && forall j :: 0 <= j < i ==> !checks[j].fails
    decreases |checks|
  {
    if checks == [] then Valid
    else if checks[0].fails then Invalid(checks[0].code)
    else
      var v := FirstFailure(checks[1..]);
      assert forall i :: 1 <= i < |checks| ==> checks[i] == checks[1..][i - 1];
      v
  }

  /** `time.Parse(time.RFC3339Nano, packet[key].(string))`, with the parser
      given as `rfc3339`; a missing or non-string field fails. */
  function GoTime(p: Packet, key: string, rfc3339: string -> Option<int>): Option<int> {
    match StringField(p, key)
    case None => None
    case Some(s) => rfc3339(s)
  }

  /** `parseDuration(packet["ttl"].(string), "ttl")`. */
  function GoTtl(p: Packet): Option<int> {
    match StringField(p, "ttl")
    case None => None
    case Some(s) =>
      match GoParseDuration(s, "ttl")
      case Ok(d) => Some(d)
      case Err(_, _) => None
  }

  /** The chain, in the order `main` runs it. The comparisons only matter
      once every earlier check has passed, so they read the parsed values
      under that assumption. */
  function GoChecks(p: Packet, schemaOk: bool, rfc3339: string -> Option<int>, env: Env): seq<Check> {
    var c := GoTime(p, "created_at", rfc3339);
    var e := GoTime(p, "expires_at", rfc3339);
    var t := GoTtl(p);
    [ Check(SchemaViolation, !schemaOk),
      Check(TimeInvalidCreatedAt, c.None?),
      Check(TimeInvalidExpiresAt, e.None?),
      Check(TimeInvalidTtl, t.None?),
      Check(TimeMismatch, c.Some? && e.Some? && t.Some?
                          && Mismatched(c.value, e.value, t.value, env.clockSkew, NanosPerSecond)),
      Check(TimeCreatedAtInFuture, c.Some? && TooFarInFuture(c.value, env.now, env.allowFuture)),
      Check(TimeExpired, e.Some? && Expired(e.value, env.now, env.clockSkew)) ]
  }

  function GoVerdict(p: Packet, schemaOk: bool, rfc3339: string -> Option<int>, env: Env): Verdict {
    FirstFailure(GoChecks(p, schemaOk, rfc3339, env))
  }

  /** `main` from the schema check on: early exits at each failure, the
      absolute drift and the floored tolerance held in mutable locals. */
  method Validate(p: Packet, schemaOk: bool, rfc3339: string -> Option<int>, env: Env) returns (v: Verdict)
    ensures v == GoVerdict(p, schemaOk, rfc3339, env)
  {
    FirstFailureUnfold(GoChecks(p, schemaOk, rfc3339, env));
    if !schemaOk {
      return Invalid(SchemaViolation);
    }
    var createdAtStr := StringField(p, "created_at");
    if createdAtStr.None? {
      return Invalid(TimeInvalidCreatedAt);
    }
    var createdAt := rfc3339(createdAtStr.value);
    if createdAt.None? {
      return Invalid(TimeInvalidCreatedAt);
    }
    var expiresAtStr := StringField(p, "expires_at");
    if expiresAtStr.None? {
      return Invalid(TimeInvalidExpiresAt);
    }
    var expiresAt := rfc3339(expiresAtStr.value);
    if expiresAt.None? {
      return Invalid(TimeInvalidExpiresAt);
    }
    var ttlStr := StringField(p, "ttl");
    if ttlStr.None? {
      return Invalid(TimeInvalidTtl);
    }
    var ttl := GoParseDuration(ttlStr.value, "ttl");
    if ttl.Err? {
      return Invalid(TimeInvalidTtl);
    }
    var expected := createdAt.value + ttl.value;
    var diff := expiresAt.value - expected;
    if diff < 0 {
      diff := -diff;
    }
    var tolerance := env.clockSkew;
    if tolerance < NanosPerSecond {
      tolerance := NanosPerSecond;
    }
    if diff > tolerance {
      return Invalid(TimeMismatch);
    }
    if createdAt.value - env.now > env.allowFuture {
      return Invalid(TimeCreatedAtInFuture);
    }
    if env.now - expiresAt.value > env.clockSkew {
      return Invalid(TimeExpired);
    }
    return Valid;
  }

  // ---------- What each verdict means ----------

  /** All three temporal fields are present, of the right type and parse. */
  predicate Parsed(p: Packet, rfc3339: string -> Option<int>) {
    GoTime(p, "created_at", rfc3339).Some? && GoTime(p, "expires_at", rfc3339).Some? && GoTtl(p).Some?
  }

  function Created(p: Packet, rfc3339: string -> Option<int>): int
    requires Parsed(p, rfc3339)
  {
    GoTime(p, "created_at", rfc3339).value
  }

  function Expires(p: Packet, rfc3339: string -> Option<int>): int
    requires Parsed(p, rfc3339)
  {
    GoTime(p, "expires_at", rfc3339).value
  }

  function Ttl(p: Packet): int
    requires GoTtl(p).Some?
  {
    GoTtl(p).value
  }

  /** The verdicts of the chain, one by one: each code is reported exactly
      when its check fails and every earlier check passes. */
  lemma {:induction false} GoVerdictCases(p: Packet, schemaOk: bool, rfc3339: string -> Option<int>, env: Env)
    ensures var v := GoVerdict(p, schemaOk, rfc3339, env);
      && (v == Invalid(SchemaViolation) <==> !schemaOk)
      && (v == Invalid(TimeInvalidCreatedAt) <==> schemaOk && GoTime(p, "created_at", rfc3339).None?)
      && (v == Invalid(TimeInvalidExpiresAt) <==>
            schemaOk && GoTime(p, "created_at", rfc3339).Some? && GoTime(p, "expires_at", rfc3339).None?)
      && (v == Invalid(TimeInvalidTtl) <==>
            schemaOk && GoTime(p, "created_at", rfc3339).Some? && GoTime(p, "expires_at", rfc3339).Some?
            && GoTtl(p).None?)
  {
    GoVerdictChain(p, schemaOk, rfc3339, env);
  }

  /** `FirstFailure` on the seven links, spelled out. */
  lemma FirstFailureUnfold(cs: seq<Check>)
    requires |cs| == 7
    ensures FirstFailure(cs) ==
      if cs[0].fails then Invalid(cs[0].code)
      else if cs[1].fails then Invalid(cs[1].code)
      else if cs[2].fails then Invalid(cs[2].code)
      else if cs[3].fails then Invalid(cs[3].code)
      else if cs[4].fails then Invalid(cs[4].code)
      else if cs[5].fails then Invalid(cs[5].code)
      else if cs[6].fails then Invalid(cs[6].code)
      else Valid
  {
    assert cs[1..][1..][1..][1..][1..][1..][1..] == [];
  }

  /** The verdict as the chain of early returns in `main`: each check runs
      only once the earlier ones have passed. */
  lemma GoVerdictChain(p: Packet, schemaOk: bool, rfc3339: string -> Option<int>, env: Env)
    ensures GoVerdict(p, schemaOk, rfc3339, env) ==
      if !schemaOk then Invalid(SchemaViolation)
      else if GoTime(p, "created_at", rfc3339).None? then Invalid(TimeInvalidCreatedAt)
      else if GoTime(p, "expires_at", rfc3339).None? then Invalid(TimeInvalidExpiresAt)
      else if GoTtl(p).None? then Invalid(TimeInvalidTtl)
      else if Mismatched(Created(p, rfc3339), Expires(p, rfc3339), Ttl(p), env.clockSkew, NanosPerSecond)
      then Invalid(TimeMismatch)
      else if TooFarInFuture(Created(p, rfc3339), env.now, env.allowFuture) then Invalid(TimeCreatedAtInFuture)
      else if Expired(Expires(p, rfc3339), env.now, env.clockSkew) then Invalid(TimeExpired)
      else Valid
  {
    FirstFailureUnfold(GoChecks(p, schemaOk, rfc3339, env));
  }

  /** A mismatch is reported exactly when the schema holds, all three fields
      parse and `expires_at` drifts from `created_at + ttl` by more than
      `max(clock-skew, 1s)`. */
  lemma GoMismatchIff(p: Packet, schemaOk: bool, rfc3339: string -> Option<int>, env: Env)
    ensures GoVerdict(p, schemaOk, rfc3339, env) == Invalid(TimeMismatch) <==>
      schemaOk && Parsed(p, rfc3339)
      && Abs(Expires(p, rfc3339) - (Created(p, rfc3339) + Ttl(p))) > Max(env.clockSkew, NanosPerSecond)
  {
    GoVerdictChain(p, schemaOk, rfc3339, env);
  }

  /** A future `created_at` is reported exactly when the earlier checks pass
      and `created_at - now` exceeds the allowance. */
  lemma GoFutureIff(p: Packet, schemaOk: bool, rfc3339: string -> Option<int>, env: Env)
    ensures GoVerdict(p, schemaOk, rfc3339, env) == Invalid(TimeCreatedAtInFuture) <==>
      schemaOk && Parsed(p, rfc3339)
      && !Mismatched(Created(p, rfc3339), Expires(p, rfc3339), Ttl(p), env.clockSkew, NanosPerSecond)
      && Created(p, rfc3339) - env.now > env.allowFuture
  {
    GoVerdictChain(p, schemaOk, rfc3339, env);
  }

  /** Expiry is reported exactly when the earlier checks pass and
      `now - expires_at` exceeds the clock skew itself (no one-second floor). */
  lemma GoExpiredIff(p: Packet, schemaOk: bool, rfc3339: string -> Option<int>, env: Env)
    ensures GoVerdict(p, schemaOk, rfc3339, env) == Invalid(TimeExpired) <==>
      schemaOk && Parsed(p, rfc3339)
      && !Mismatched(Created(p, rfc3339), Expires(p, rfc3339), Ttl(p), env.clockSkew, NanosPerSecond)
      && !TooFarInFuture(Created(p, rfc3339), env.now, env.allowFuture)
      && env.now - Expires(p, rfc3339) > env.clockSkew
  {
    GoVerdictChain(p, schemaOk, rfc3339, env);
  }

  /** A packet is valid exactly when the schema holds, the three fields
      parse and none of the three comparisons fails. */
  lemma GoValidIff(p: Packet, schemaOk: bool, rfc3339: string -> Option<int>, env: Env)
    ensures GoVerdict(p, schemaOk, rfc3339, env) == Valid <==>
      schemaOk && Parsed(p, rfc3339)
      && !Mismatched(Created(p, rfc3339), Expires(p, rfc3339), Ttl(p), env.clockSkew, NanosPerSecond)
      && !TooFarInFuture(Created(p, rfc3339), env.now, env.allowFuture)
      && !Expired(Expires(p, rfc3339), env.now, env.clockSkew)
  {
    GoVerdictChain(p, schemaOk, rfc3339, env);
  }

  /** Once expired, a packet stays expired as the clock moves on. */
  lemma GoExpiryMonotonic(p: Packet, schemaOk: bool, rfc3339: string -> Option<int>, env: Env, later: int)
    requires GoVerdict(p, schemaOk, rfc3339, env) == Invalid(TimeExpired)
    requires env.now <= later
    ensures GoVerdict(p, schemaOk, rfc3339, env.(now := later)) == Invalid(TimeExpired)
  {
    GoExpiredIff(p, schemaOk, rfc3339, env);
    GoExpiredIff(p, schemaOk, rfc3339, env.(now := later));
  }

  /** A `created_at` too far in the future stays so for every earlier clock
      reading. */
  lemma GoFutureMonotonic(p: Packet, schemaOk: bool, rfc3339: string -> Option<int>, env: Env, earlier: int)
    requires GoVerdict(p, schemaOk, rfc3339, env) == Invalid(TimeCreatedAtInFuture)
    requires earlier <= env.now
    ensures GoVerdict(p, schemaOk, rfc3339, env.(now := earlier)) == Invalid(TimeCreatedAtInFuture)
  {
    GoFutureIff(p, schemaOk, rfc3339, env);
    GoFutureIff(p, schemaOk, rfc3339, env.(now := earlier));
  }

  /** A clock skew that came from the corrected `parseDuration` is at least
      a second, so the one-second floor never changes the tolerance then. */
  lemma GoParsedSkewNeedsNoFloor(s: string, name: string)
    requires GoParseDuration(s, name).Ok?
    ensures Max(GoParseDuration(s, name).value, NanosPerSecond) == GoParseDuration(s, name).value
  {
  }

  /** The parser as written does let a negative skew through: "106752d"
      wraps below zero, and for that value the one-second floor is what the
      mismatch check uses, while the expiry check uses the negative skew. */
  lemma AsWrittenSkewNeedsFloor()
    ensures GoParseDurationAsWritten("106752d", "clock-skew").Ok?
    ensures GoParseDurationAsWritten("106752d", "clock-skew").value < 0
    ensures Max(GoParseDurationAsWritten("106752d", "clock-skew").value, NanosPerSecond) == NanosPerSecond
  {
    GoOverflowSample("clock-skew");
  }

  // ---------- Worked examples ----------

  /** 2025-01-01T00:00:00Z in nanoseconds since the Unix epoch. */
  const T0: int := 1735689600 * NanosPerSecond

  function Minutes(m: int): int { m * 60 * NanosPerSecond }

  /** The default flags: `--clock-skew 60s`, `--allow-future-created-at 5m`. */
  function DefaultEnv(now: int): Env { Env(now, Minutes(1), Minutes(5)) }

  lemma DefaultFlagsParse()
    ensures GoParseDuration("60s", "clock-skew") == Ok(Minutes(1))
    ensures GoParseDuration("5m", "allow-future-created-at") == Ok(Minutes(5))
  {
    DecimalRoundTrip(60);
    assert Decimal(60) == "60";
    assert Minutes(1) == DigitsValue("60") * UnitSeconds(Second) * NanosPerSecond;
    assert Minutes(5) == DigitsValue("5") * UnitSeconds(Minute) * NanosPerSecond;
    GoParsePlain("60s", "60", 's', Second, "clock-skew");
    GoParsePlain("5m", "5", 'm', Minute, "allow-future-created-at");
  }

  function SamplePacket(created: string, ttl: string, expires: string): Packet {
    map["created_at" := JString(created), "ttl" := JString(ttl), "expires_at" := JString(expires)]
  }

  lemma SampleFields(created: string, ttl: string, expires: string)
    ensures StringField(SamplePacket(created, ttl, expires), "created_at") == Some(created)
    ensures StringField(SamplePacket(created, ttl, expires), "ttl") == Some(ttl)
    ensures StringField(SamplePacket(created, ttl, expires), "expires_at") == Some(expires)
  {
    assert "created_at"[0] != "expires_at"[0];
  }

  /** The verdict on a packet whose three fields parse, as the three
      comparisons decide it in order. */
  lemma GoSampleVerdict(created: string, ttl: string, expires: string, rfc3339: string -> Option<int>, env: Env,
                        c: int, d: int, e: int)
    requires rfc3339(created) == Some(c) && rfc3339(expires) == Some(e)
    requires GoParseDuration(ttl, "ttl") == Ok(d)
    ensures GoVerdict(SamplePacket(created, ttl, expires), true, rfc3339, env) ==
      if Mismatched(c, e, d, env.clockSkew, NanosPerSecond) then Invalid(TimeMismatch)
      else if TooFarInFuture(c, env.now, env.allowFuture) then Invalid(TimeCreatedAtInFuture)
      else if Expired(e, env.now, env.clockSkew) then Invalid(TimeExpired)
      else Valid
  {
    SampleFields(created, ttl, expires);
    FirstFailureUnfold(GoChecks(SamplePacket(created, ttl, expires), true, rfc3339, env));
  }

  /** A bad `expires_at` is reported whatever `ttl` holds. */
  lemma GoBadExpiryFirst(created: string, ttl: string, expires: string, rfc3339: string -> Option<int>, env: Env)
    requires rfc3339(created).Some? && rfc3339(expires).None?
    ensures GoVerdict(SamplePacket(created, ttl, expires), true, rfc3339, env) == Invalid(TimeInvalidExpiresAt)
  {
    SampleFields(created, ttl, expires);
    GoVerdictChain(SamplePacket(created, ttl, expires), true, rfc3339, env);
  }

  /** Created at 00:00, `ttl` "2h", expiring at 02:00, checked at 01:00
      with the default flags: valid. Checked at 03:05 (five minutes past
      expiry, one minute of skew): expired. */
  lemma GoScenarioValidThenExpired(rfc3339: string -> Option<int>)
    requires rfc3339("2025-01-01T00:00:00Z") == Some(T0)
    requires rfc3339("2025-01-01T02:00:00Z") == Some(T0 + Minutes(120))
    ensures GoVerdict(SamplePacket("2025-01-01T00:00:00Z", "2h", "2025-01-01T02:00:00Z"), true, rfc3339,
                      DefaultEnv(T0 + Minutes(60))) == Valid
    ensures GoVerdict(SamplePacket("2025-01-01T00:00:00Z", "2h", "2025-01-01T02:00:00Z"), true, rfc3339,
                      DefaultEnv(T0 + Minutes(185))) == Invalid(TimeExpired)
  {
    GoAcceptsTwoHours("ttl");
    GoSampleVerdict("2025-01-01T00:00:00Z", "2h", "2025-01-01T02:00:00Z", rfc3339, DefaultEnv(T0 + Minutes(60)),
                    T0, Minutes(120), T0 + Minutes(120));
    GoSampleVerdict("2025-01-01T00:00:00Z", "2h", "2025-01-01T02:00:00Z", rfc3339, DefaultEnv(T0 + Minutes(185)),
                    T0, Minutes(120), T0 + Minutes(120));
  }

  /** A `ttl` of "0h" is refused by the duration parser and reported as an
      invalid ttl. */
  lemma GoScenarioZeroTtl(rfc3339: string -> Option<int>, env: Env)
    requires rfc3339("2025-01-01T00:00:00Z") == Some(T0)
    requires rfc3339("2025-01-01T02:00:00Z") == Some(T0 + Minutes(120))
    ensures GoVerdict(SamplePacket("2025-01-01T00:00:00Z", "0h", "2025-01-01T02:00:00Z"), true, rfc3339, env)
            == Invalid(TimeInvalidTtl)
  {
    GoRejectsZeroSample("ttl");
    var p := SamplePacket("2025-01-01T00:00:00Z", "0h", "2025-01-01T02:00:00Z");
    SampleFields("2025-01-01T00:00:00Z", "0h", "2025-01-01T02:00:00Z");
    assert GoTtl(p) == None;
    GoVerdictCases(p, true, rfc3339, env);
  }

  /** `created_at` ten minutes after `now`, with five minutes allowed: too
      far in the future. */
  lemma GoScenarioFuture(rfc3339: string -> Option<int>)
    requires rfc3339("2025-01-01T00:00:00Z") == Some(T0)
    requires rfc3339("2025-01-01T02:00:00Z") == Some(T0 + Minutes(120))
    ensures GoVerdict(SamplePacket("2025-01-01T00:00:00Z", "2h", "2025-01-01T02:00:00Z"), true, rfc3339,
                      DefaultEnv(T0 - Minutes(10))) == Invalid(TimeCreatedAtInFuture)
  {
    GoAcceptsTwoHours("ttl");
    GoSampleVerdict("2025-01-01T00:00:00Z", "2h", "2025-01-01T02:00:00Z", rfc3339, DefaultEnv(T0 - Minutes(10)),
                    T0, Minutes(120), T0 + Minutes(120));
  }

  /** A packet without `expires_at` that the schema accepts is still
      refused: Go reads the missing field as a non-string. */
  lemma GoScenarioMissingExpiry(rfc3339: string -> Option<int>, env: Env)
    requires rfc3339("2025-01-01T00:00:00Z") == Some(T0)
    ensures GoVerdict(map["created_at" := JString("2025-01-01T00:00:00Z"), "ttl" := JString("2h")],
                      true, rfc3339, env) == Invalid(TimeInvalidExpiresAt)
  {
    var p := map["created_at" := JString("2025-01-01T00:00:00Z"), "ttl" := JString("2h")];
    assert "expires_at" !in p;
    GoVerdictCases(p, true, rfc3339, env);
  }
}
