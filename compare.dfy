/** The Go and the Python validators side by side: when their inputs agree,
    Go's single verdict is Python's first issue, and `Valid` is an empty
    issue list; where they part ways, a concrete packet shows it. */
module CrossCheck {
  import opened Text
  import opened Duration
  import opened Packet
  import G = GoValidator
  import P = PyValidator

  /** Go reads nanoseconds and Python microseconds. */
  const NanosPerMicro: nat := 1000

  /** The two timestamp parsers agree on field `key`: Go reads it exactly
      when Python does, at a thousand times the resolution. */
  predicate StampAgrees(p: Packet, key: string, goTime: string -> Option<int>, pyTime: string -> Stamp)
    requires key in p
  {
    (G.GoTime(p, key, goTime).Some? <==> P.PyTime(p[key], pyTime).Stamp?)
    && (G.GoTime(p, key, goTime).Some? ==>
          G.GoTime(p, key, goTime).value == NanosPerMicro * P.PyTime(p[key], pyTime).value)
  }

  /** Both duration parsers accept the packet's `ttl`, or both refuse it. */
  predicate TtlAgrees(p: Packet)
    requires "ttl" in p
  {
    G.GoTtl(p).Some? <==> P.PyTtl(p["ttl"]).Ok?
  }

  /** The same clock and tolerances, in each program's unit. */
  predicate EnvAgrees(ge: G.Env, pe: P.Env) {
    ge.now == NanosPerMicro * pe.now && ge.clockSkew == NanosPerMicro * pe.clockSkew
    && ge.allowFuture == NanosPerMicro * pe.allowFuture
  }

  /** Everything the two validators are handed is the same. */
  predicate SameInputs(p: Packet, goTime: string -> Option<int>, pyTime: string -> Stamp, ge: G.Env, pe: P.Env) {
    P.HasTimeFields(p)
    && StampAgrees(p, "created_at", goTime, pyTime) && StampAgrees(p, "expires_at", goTime, pyTime)
    && TtlAgrees(p) && EnvAgrees(ge, pe)
  }

  /** Under the same inputs Python reports each temporal code exactly when
      Go's corresponding check fails. */
  lemma TemporalCodesAgree(p: Packet, goTime: string -> Option<int>, pyTime: string -> Stamp, ge: G.Env, pe: P.Env)
    requires SameInputs(p, goTime, pyTime, ge, pe)
    ensures var t := P.TemporalIssues(p, pyTime, pe);
      && !P.Reports(t, SchemaViolation)
      && (P.Reports(t, TimeInvalidCreatedAt) <==> G.GoTime(p, "created_at", goTime).None?)
      && (P.Reports(t, TimeInvalidTtl) <==> G.GoTtl(p).None?)
      && (P.Reports(t, TimeInvalidExpiresAt) <==> G.GoTime(p, "expires_at", goTime).None?)
      && (P.Reports(t, TimeMismatch) <==>
            G.Parsed(p, goTime)
            && Mismatched(G.Created(p, goTime), G.Expires(p, goTime), G.Ttl(p), ge.clockSkew, NanosPerSecond))
      && (P.Reports(t, TimeCreatedAtInFuture) <==>
            G.Parsed(p, goTime) && TooFarInFuture(G.Created(p, goTime), ge.now, ge.allowFuture))
      && (P.Reports(t, TimeExpired) <==>
            G.Parsed(p, goTime) && Expired(G.Expires(p, goTime), ge.now, ge.clockSkew))
  {
    var t := P.TemporalIssues(p, pyTime, pe);
    P.TemporalRanked(p, pyTime, pe);
    P.PyParseIssuesIff(p, pyTime, pe);
    P.PyComparisonIssuesIff(p, pyTime, pe);
    if G.Parsed(p, goTime) {
      var c := P.PyTime(p["created_at"], pyTime).value;
      var e := P.PyTime(p["expires_at"], pyTime).value;
      var s := P.PyTtl(p["ttl"]).value;
      var ttlString := StringField(p, "ttl").value;
      GoAcceptedImpliesPyAccepted(ttlString, "ttl");
      assert G.Ttl(p) == NanosPerMicro * (s * P.MicrosPerSecond);
      ComparisonsScale(NanosPerMicro, c, e, s * P.MicrosPerSecond, pe.clockSkew, P.MicrosPerSecond,
                       pe.now, pe.allowFuture);
    }
  }

  lemma EmptyIffNoReports(iss: seq<P.Issue>)
    ensures iss == [] <==> forall code :: !P.Reports(iss, code)
  {
    if iss != [] {
      assert P.Reports(iss, iss[0].code);
    }
  }

  /** The two validators agree on acceptance, and the code Go stops at is
      among the issues Python reports. The schema engine is the same in
      both: Go's schema check passes exactly when Python finds no schema
      error. */
  lemma GoVerdictAmongPyIssues(p: Packet, errs: seq<SchemaError>, goTime: string -> Option<int>,
                               pyTime: string -> Stamp, ge: G.Env, pe: P.Env)
    requires SameInputs(p, goTime, pyTime, ge, pe)
    ensures var v := G.GoVerdict(p, errs == [], goTime, ge);
      var iss := P.Issues(p, errs, pyTime, pe);
      && (v == G.Valid <==> iss == [])
      && (v.Invalid? ==> P.Reports(iss, v.code))
  {
    var sc := P.SchemaIssues(errs);
    var t := P.TemporalIssues(p, pyTime, pe);
    assert P.Issues(p, errs, pyTime, pe) == sc + t;
    G.GoVerdictChain(p, errs == [], goTime, ge);
    if errs != [] {
      assert (sc + t)[0] == sc[0];
      P.ReportsConcat(sc, t, SchemaViolation);
      assert P.Reports(sc, SchemaViolation) by { assert sc[0].code == SchemaViolation; }
    } else {
      assert sc + t == t;
      TemporalVerdictReported(p, goTime, pyTime, ge, pe);
    }
  }

  /** Without schema errors: Go accepts exactly when Python reports no
      temporal issue, and a refusal's code is among Python's issues. */
  lemma TemporalVerdictReported(p: Packet, goTime: string -> Option<int>, pyTime: string -> Stamp,
                                ge: G.Env, pe: P.Env)
    requires SameInputs(p, goTime, pyTime, ge, pe)
    ensures var v := G.GoVerdict(p, true, goTime, ge);
      var t := P.TemporalIssues(p, pyTime, pe);
      && (v == G.Valid <==> t == [])
      && (v.Invalid? ==> P.Reports(t, v.code))
  {
    var t := P.TemporalIssues(p, pyTime, pe);
    TemporalCodesAgree(p, goTime, pyTime, ge, pe);
    G.GoVerdictChain(p, true, goTime, ge);
    var parsed := G.Parsed(p, goTime);
    ChainReported(t, G.GoVerdict(p, true, goTime, ge),
      G.GoTime(p, "created_at", goTime).None?, G.GoTime(p, "expires_at", goTime).None?, G.GoTtl(p).None?,
      parsed && Mismatched(G.Created(p, goTime), G.Expires(p, goTime), G.Ttl(p), ge.clockSkew, NanosPerSecond),
      parsed && TooFarInFuture(G.Created(p, goTime), ge.now, ge.allowFuture),
      parsed && Expired(G.Expires(p, goTime), ge.now, ge.clockSkew));
  }

  /** Go's chain over the failures Python reports: the verdict is `Valid`
      exactly when nothing is reported, and otherwise is reported. */
  lemma ChainReported(t: seq<P.Issue>, v: G.Verdict, cBad: bool, eBad: bool, tBad: bool, m: bool, f: bool, x: bool)
    requires !P.Reports(t, SchemaViolation)
    requires P.Reports(t, TimeInvalidCreatedAt) == cBad && P.Reports(t, TimeInvalidTtl) == tBad
    requires P.Reports(t, TimeInvalidExpiresAt) == eBad
    requires P.Reports(t, TimeMismatch) == (!cBad && !eBad && !tBad && m)
    requires P.Reports(t, TimeCreatedAtInFuture) == (!cBad && !eBad && !tBad && f)
    requires P.Reports(t, TimeExpired) == (!cBad && !eBad && !tBad && x)
    requires v == if cBad then G.Invalid(TimeInvalidCreatedAt) else if eBad then G.Invalid(TimeInvalidExpiresAt)
                  else if tBad then G.Invalid(TimeInvalidTtl) else if m then G.Invalid(TimeMismatch)
                  else if f then G.Invalid(TimeCreatedAtInFuture) else if x then G.Invalid(TimeExpired)
                  else G.Valid
    ensures v == G.Valid <==> t == []
    ensures v.Invalid? ==> P.Reports(t, v.code)
  {
    EmptyIffNoReports(t);
  }

  lemma RankInjective(a: Code, b: Code)
    requires P.Rank(a) == P.Rank(b)
    ensures a == b
  {
  }

  /** In a ranked issue list, the first issue is the reported code of
      lowest rank. */
  lemma FirstOfRanked(t: seq<P.Issue>, code: Code)
    requires P.Ranked(t, 1, 6) && P.Reports(t, code)
    requires forall c: Code :: P.Rank(c) < P.Rank(code) ==> !P.Reports(t, c)
    ensures |t| > 0 && t[0].code == code
  {
    var j :| 0 <= j < |t| && t[j].code == code;
    assert P.Reports(t, t[0].code);
    RankInjective(t[0].code, code);
  }

  /** Go's chain picks `code`; then Python reports it and nothing of lower
      rank, unless both `expires_at` and `ttl` are bad. */
  lemma LowerRanksQuiet(t: seq<P.Issue>, code: Code, cBad: bool, eBad: bool, tBad: bool, m: bool, f: bool, x: bool)
    requires !P.Reports(t, SchemaViolation)
    requires P.Reports(t, TimeInvalidCreatedAt) == cBad && P.Reports(t, TimeInvalidTtl) == tBad
    requires P.Reports(t, TimeInvalidExpiresAt) == eBad
    requires P.Reports(t, TimeMismatch) == (!cBad && !eBad && !tBad && m)
    requires P.Reports(t, TimeCreatedAtInFuture) == (!cBad && !eBad && !tBad && f)
    requires P.Reports(t, TimeExpired) == (!cBad && !eBad && !tBad && x)
    requires !(eBad && tBad)
    requires cBad || eBad || tBad || m || f || x
    requires code == if cBad then TimeInvalidCreatedAt else if eBad then TimeInvalidExpiresAt
                     else if tBad then TimeInvalidTtl else if m then TimeMismatch
                     else if f then TimeCreatedAtInFuture else TimeExpired
    ensures P.Reports(t, code)
    ensures forall c: Code :: P.Rank(c) < P.Rank(code) ==> !P.Reports(t, c)
  {
  }

  /** Without schema errors, Python's first temporal issue is Go's verdict
      (both `expires_at` and `ttl` bad excepted). */
  lemma FirstTemporalIsGoVerdict(p: Packet, goTime: string -> Option<int>, pyTime: string -> Stamp,
                                 ge: G.Env, pe: P.Env)
    requires SameInputs(p, goTime, pyTime, ge, pe)
    requires G.GoTime(p, "expires_at", goTime).Some? || G.GoTtl(p).Some?
    requires G.GoVerdict(p, true, goTime, ge).Invalid?
    ensures var t := P.TemporalIssues(p, pyTime, pe);
      |t| > 0 && t[0].code == G.GoVerdict(p, true, goTime, ge).code
  {
    var t := P.TemporalIssues(p, pyTime, pe);
    var v := G.GoVerdict(p, true, goTime, ge);
    P.TemporalRanked(p, pyTime, pe);
    TemporalCodesAgree(p, goTime, pyTime, ge, pe);
    var parsed := G.Parsed(p, goTime);
    G.FirstFailureUnfold(G.GoChecks(p, true, goTime, ge));
    LowerRanksQuiet(t, v.code,
      G.GoTime(p, "created_at", goTime).None?, G.GoTime(p, "expires_at", goTime).None?, G.GoTtl(p).None?,
      parsed && Mismatched(G.Created(p, goTime), G.Expires(p, goTime), G.Ttl(p), ge.clockSkew, NanosPerSecond),
      parsed && TooFarInFuture(G.Created(p, goTime), ge.now, ge.allowFuture),
      parsed && Expired(G.Expires(p, goTime), ge.now, ge.clockSkew));
    FirstOfRanked(t, v.code);
  }

  /** Python's first issue is Go's verdict, except when both `expires_at`
      and `ttl` are bad: Go checks `expires_at` first, Python `ttl`. */
  lemma FirstIssueIsGoVerdict(p: Packet, errs: seq<SchemaError>, goTime: string -> Option<int>,
                              pyTime: string -> Stamp, ge: G.Env, pe: P.Env)
    requires SameInputs(p, goTime, pyTime, ge, pe)
    requires G.GoTime(p, "expires_at", goTime).Some? || G.GoTtl(p).Some?
    ensures var v := G.GoVerdict(p, errs == [], goTime, ge);
      var iss := P.Issues(p, errs, pyTime, pe);
      v.Invalid? ==> |iss| > 0 && iss[0].code == v.code
  {
    var v := G.GoVerdict(p, errs == [], goTime, ge);
    if v.Invalid? {
      if errs == [] {
        FirstTemporalIsGoVerdict(p, goTime, pyTime, ge, pe);
        assert P.Issues(p, errs, pyTime, pe) == P.TemporalIssues(p, pyTime, pe);
      } else {
        G.GoVerdictCases(p, false, goTime, ge);
        var iss := P.Issues(p, errs, pyTime, pe);
        assert iss[0] == P.SchemaIssues(errs)[0];
      }
    }
  }

  // ---------- Where the two part ways ----------

  /** A packet the schema accepts but that lacks `expires_at`: Go refuses
      it, Python skips the temporal checks and accepts it. */
  lemma MissingExpiryDiverges(goTime: string -> Option<int>, pyTime: string -> Stamp, ge: G.Env, pe: P.Env)
    requires goTime("2025-01-01T00:00:00Z") == Some(G.T0)
    ensures var p := map["created_at" := JString("2025-01-01T00:00:00Z"), "ttl" := JString("2h")];
      G.GoVerdict(p, true, goTime, ge) == G.Invalid(TimeInvalidExpiresAt) && P.Issues(p, [], pyTime, pe) == []
  {
    G.GoScenarioMissingExpiry(goTime, ge);
    P.PyScenarioMissingExpiry(pyTime, pe);
  }

  /** A bad `expires_at` together with a zero `ttl`: Go reports the
      timestamp, Python reports the ttl first. */
  lemma ParseOrderDiverges(created: string, expires: string, goTime: string -> Option<int>, pyTime: string -> Stamp,
                           ge: G.Env, pe: P.Env)
    requires goTime(created).Some? && goTime(expires).None?
    requires P.PyTime(JString(created), pyTime).Stamp? && P.PyTime(JString(expires), pyTime).BadStamp?
    ensures G.GoVerdict(G.SamplePacket(created, "0h", expires), true, goTime, ge) == G.Invalid(TimeInvalidExpiresAt)
    ensures P.Issues(P.SamplePacket(created, "0h", expires), [], pyTime, pe)
            == [P.Issue(TimeInvalidTtl, "ttl must be positive", "ttl"),
                P.Issue(TimeInvalidExpiresAt, P.PyTime(JString(expires), pyTime).message, "expires_at")]
  {
    G.GoBadExpiryFirst(created, "0h", expires, goTime, ge);
    PyZeroHours();
    P.PyBadTtlAndExpiry(created, "0h", expires, pyTime, pe);
  }

  lemma PyZeroHours()
    ensures PyParseDuration("0h") == Err(NotPositive, "ttl must be positive")
  {
    PyRejectsZero("0h", "0", 'h');
  }

  /** A `ttl` of "2 h": Python reads two hours and accepts the packet, Go
      refuses the ttl. */
  lemma InnerSpaceTtlDiverges(goTime: string -> Option<int>, pyTime: string -> Stamp)
    requires goTime("2025-01-01T00:00:00Z") == Some(G.T0)
    requires goTime("2025-01-01T02:00:00Z") == Some(G.T0 + G.Minutes(120))
    requires pyTime("2025-01-01T00:00:00Z") == Stamp(P.T0)
    requires pyTime("2025-01-01T02:00:00Z") == Stamp(P.T0 + P.Minutes(120))
    ensures G.GoVerdict(G.SamplePacket("2025-01-01T00:00:00Z", "2 h", "2025-01-01T02:00:00Z"), true, goTime,
                        G.DefaultEnv(G.T0 + G.Minutes(60))) == G.Invalid(TimeInvalidTtl)
    ensures P.Issues(P.SamplePacket("2025-01-01T00:00:00Z", "2 h", "2025-01-01T02:00:00Z"), [], pyTime,
                     P.Env(P.T0 + P.Minutes(60), P.Minutes(1), P.Minutes(5))) == []
  {
    InnerSpaceGo(goTime);
    InnerSpacePy(pyTime);
  }

  lemma InnerSpaceGo(goTime: string -> Option<int>)
    requires goTime("2025-01-01T00:00:00Z") == Some(G.T0)
    requires goTime("2025-01-01T02:00:00Z") == Some(G.T0 + G.Minutes(120))
    ensures G.GoVerdict(G.SamplePacket("2025-01-01T00:00:00Z", "2 h", "2025-01-01T02:00:00Z"), true, goTime,
                        G.DefaultEnv(G.T0 + G.Minutes(60))) == G.Invalid(TimeInvalidTtl)
  {
    GoRejectsInnerSpaceSample("ttl");
    var gp := G.SamplePacket("2025-01-01T00:00:00Z", "2 h", "2025-01-01T02:00:00Z");
    G.SampleFields("2025-01-01T00:00:00Z", "2 h", "2025-01-01T02:00:00Z");
    assert G.GoTtl(gp) == None;
    G.GoVerdictCases(gp, true, goTime, G.DefaultEnv(G.T0 + G.Minutes(60)));
  }

  lemma InnerSpacePy(pyTime: string -> Stamp)
    requires pyTime("2025-01-01T00:00:00Z") == Stamp(P.T0)
    requires pyTime("2025-01-01T02:00:00Z") == Stamp(P.T0 + P.Minutes(120))
    ensures P.Issues(P.SamplePacket("2025-01-01T00:00:00Z", "2 h", "2025-01-01T02:00:00Z"), [], pyTime,
                     P.Env(P.T0 + P.Minutes(60), P.Minutes(1), P.Minutes(5))) == []
  {
    PyTwoSpaceHours();
    P.PyStampSample("2025-01-01T00:00:00Z", pyTime);
    P.PyStampSample("2025-01-01T02:00:00Z", pyTime);
    P.SampleTemporal("2025-01-01T00:00:00Z", "2 h", "2025-01-01T02:00:00Z", pyTime,
                     P.Env(P.T0 + P.Minutes(60), P.Minutes(1), P.Minutes(5)), P.T0, 7200, P.T0 + P.Minutes(120));
  }

  lemma PyTwoSpaceHours()
    ensures PyParseDuration("2 h") == Ok(7200)
  {
    assert AllSpace(" ", GoWhite);
    InnerSpaceSplitsGrammars("2 h", "2", " ", 'h', Hour);
  }
}
