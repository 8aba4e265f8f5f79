/** The Python validator, `validate_packet` (src/validate_packet.py:168-271):
    it collects every issue it finds instead of stopping at the first one.
    Time is in integer microseconds, the resolution of `datetime` and
    `timedelta`. */
module PyValidator {
  import opened Text
  import opened Duration
  import opened JsonPath
  import opened Packet

  /** `ValidationIssue(code, message, path)`. */
  datatype Issue = Issue(code: Code, message: string, path: string)

  /** `ValidationResult(ok, schema_version, issues)`. */
  datatype ValidationResult = ValidationResult(ok: bool, schemaVersion: Option<string>, issues: seq<Issue>)

  /** `now_utc`, `clock_skew` and `allow_future_created_at`, in microseconds. */
  datatype Env = Env(now: int, clockSkew: int, allowFuture: int)

  const MicrosPerSecond: nat := 1_000_000

  const MismatchMessage: string := "expires_at does not match created_at + ttl within allowed tolerance"
  const FutureMessage: string := "created_at is too far in the future"
  const ExpiredMessage: string := "context packet is expired"
  const BlankStampMessage: string := "datetime must be a non-empty string"

  /** `parse_rfc3339(value)`: a non-string or blank value fails here; the
      stripped text goes to the timestamp parser `rfc3339`. */
  function PyTime(v: Json, rfc3339: string -> Stamp): Stamp {
    match v
    case JOther => BadStamp(BlankStampMessage)
    case JString(s) =>
      var t := Trim(s, PyWhite);
      if t == "" then BadStamp(BlankStampMessage) else rfc3339(t)
  }

  /** `parse_duration(value)`: a non-string value is refused as well. */
  function PyTtl(v: Json): Parsed {
    match v
    case JOther => Err(FormatInvalid, PyFormatMessage)
    case JString(s) => PyParseDuration(s)
  }

  /** The issue recorded for one schema error. */
  function SchemaIssue(e: SchemaError): Issue {
    Issue(SchemaViolation, e.message, Render(e.path))
  }

  function SchemaIssues(errs: seq<SchemaError>): (iss: seq<Issue>)
    ensures |iss| == |errs| && forall k :: 0 <= k < |errs| ==> iss[k] == SchemaIssue(errs[k])
  {
    seq(|errs|, k requires 0 <= k < |errs| => SchemaIssue(errs[k]))
  }

  /** `has_fields("created_at", "ttl", "expires_at")`: presence only, any
      value. */
  predicate HasTimeFields(p: Packet) {
    "created_at" in p && "ttl" in p && "expires_at" in p
  }

  function Opt(b: bool, i: Issue): seq<Issue> { if b then [i] else [] }

  /** The three comparisons on parsed values; `ttl` already in microseconds. */
  function Comparisons(created: int, ttl: int, expires: int, env: Env): seq<Issue> {
    Opt(Mismatched(created, expires, ttl, env.clockSkew, MicrosPerSecond),
        Issue(TimeMismatch, MismatchMessage, "expires_at"))
    + Opt(TooFarInFuture(created, env.now, env.allowFuture),
          Issue(TimeCreatedAtInFuture, FutureMessage, "created_at"))
    + Opt(Expired(expires, env.now, env.clockSkew),
          Issue(TimeExpired, ExpiredMessage, "expires_at"))
  }

  /** The issue for a timestamp field that did not parse. */
  function StampIssue(code: Code, s: Stamp, path: string): seq<Issue> {
    if s.BadStamp? then [Issue(code, s.message, path)] else []
  }

  /** The issue for a `ttl` that did not parse. */
  function TtlIssue(t: Parsed): seq<Issue> {
    if t.Err? then [Issue(TimeInvalidTtl, t.message, "ttl")] else []
  }

  /** The temporal issues once the three fields have been read: one per
      field that does not parse, in the order created_at, ttl, expires_at;
      then, only if all three parsed, the comparisons. */
  function FieldIssues(c: Stamp, t: Parsed, e: Stamp, env: Env): seq<Issue> {
    StampIssue(TimeInvalidCreatedAt, c, "created_at") + TtlIssue(t) + StampIssue(TimeInvalidExpiresAt, e, "expires_at")
    + (if c.Stamp? && t.Ok? && e.Stamp? then Comparisons(c.value, t.value * MicrosPerSecond, e.value, env) else [])
  }

  /** The temporal issues: nothing unless the three fields are present. */
  function TemporalIssues(p: Packet, rfc3339: string -> Stamp, env: Env): seq<Issue> {
    if !HasTimeFields(p) then []
    else FieldIssues(PyTime(p["created_at"], rfc3339), PyTtl(p["ttl"]), PyTime(p["expires_at"], rfc3339), env)
  }

  function Issues(p: Packet, errs: seq<SchemaError>, rfc3339: string -> Stamp, env: Env): seq<Issue> {
    SchemaIssues(errs) + TemporalIssues(p, rfc3339, env)
  }

  /** `validate_packet`. The schema engine's findings arrive as `errs`,
      already in the order the library sorted them; timestamps are read by
      `rfc3339`. */
  method ValidatePacket(p: Packet, errs: seq<SchemaError>, rfc3339: string -> Stamp, env: Env)
    returns (r: ValidationResult)
    ensures r.issues == Issues(p, errs, rfc3339, env)
    ensures r.ok <==> r.issues == []
    ensures r.schemaVersion.Some? <==> "schema_version" in p && p["schema_version"].JString?
    ensures r.schemaVersion.Some? ==> p["schema_version"] == JString(r.schemaVersion.value)
  {
    var issues: seq<Issue> := [];
    for k := 0 to |errs|
      invariant issues == SchemaIssues(errs[..k])
    {
      var path := FormatPath(errs[k].path);
      issues := issues + [Issue(SchemaViolation, errs[k].message, path)];
    }
    assert errs[..|errs|] == errs;
    var schemaVersion: Option<string> := None;
    if "schema_version" in p && p["schema_version"].JString? {
      schemaVersion := Some(p["schema_version"].s);
    }
    if "created_at" in p && "ttl" in p && "expires_at" in p {
      var temporal := CheckTimes(p, rfc3339, env);
      issues := issues + temporal;
    }
    r := ValidationResult(|issues| == 0, schemaVersion, issues);
  }

  /** The temporal block of `validate_packet`, run when the three fields are
      present: each field is parsed in turn, a failure appended as an issue,
      and only if all three parsed the comparisons append theirs. */
  method CheckTimes(p: Packet, rfc3339: string -> Stamp, env: Env) returns (temporal: seq<Issue>)
    requires HasTimeFields(p)
    ensures temporal == TemporalIssues(p, rfc3339, env)
  {
    temporal := [];
    var createdAt := PyTime(p["created_at"], rfc3339);
    if createdAt.BadStamp? {
      temporal := temporal + [Issue(TimeInvalidCreatedAt, createdAt.message, "created_at")];
    }
    assert temporal == StampIssue(TimeInvalidCreatedAt, createdAt, "created_at");
    var ttl := PyTtl(p["ttl"]);
    if ttl.Err? {
      temporal := temporal + [Issue(TimeInvalidTtl, ttl.message, "ttl")];
    }
    assert temporal == StampIssue(TimeInvalidCreatedAt, createdAt, "created_at") + TtlIssue(ttl);
    var expiresAt := PyTime(p["expires_at"], rfc3339);
    if expiresAt.BadStamp? {
      temporal := temporal + [Issue(TimeInvalidExpiresAt, expiresAt.message, "expires_at")];
    }
    assert temporal == StampIssue(TimeInvalidCreatedAt, createdAt, "created_at") + TtlIssue(ttl)
                       + StampIssue(TimeInvalidExpiresAt, expiresAt, "expires_at");
    if createdAt.Stamp? && ttl.Ok? && expiresAt.Stamp? {
      var compared := CompareTimes(createdAt.value, ttl.value * MicrosPerSecond, expiresAt.value, env);
      temporal := temporal + compared;
    }
    assert temporal == FieldIssues(createdAt, ttl, expiresAt, env);
  }

  /** The three comparisons at the end of the temporal block, each appending
      its issue when it fails. */
  method CompareTimes(created: int, ttl: int, expires: int, env: Env) returns (iss: seq<Issue>)
    ensures iss == Comparisons(created, ttl, expires, env)
  {
    iss := [];
    var delta := expires - (created + ttl);
    if delta < 0 {
      delta := -delta;
    }
    if delta > Max(env.clockSkew, MicrosPerSecond) {
      iss := iss + [Issue(TimeMismatch, MismatchMessage, "expires_at")];
    }
    if created - env.now > env.allowFuture {
      iss := iss + [Issue(TimeCreatedAtInFuture, FutureMessage, "created_at")];
    }
    if env.now - expires > env.clockSkew {
      iss := iss + [Issue(TimeExpired, ExpiredMessage, "expires_at")];
    }
  }

  // ---------- What the issues mean ----------

  /** Some issue carries `code`. */
  predicate Reports(iss: seq<Issue>, code: Code) {
    exists i :: 0 <= i < |iss| && iss[i].code == code
  }

  lemma ReportsConcat(a: seq<Issue>, b: seq<Issue>, code: Code)
    ensures Reports(a + b, code) <==> Reports(a, code) || Reports(b, code)
  {
    if Reports(a + b, code) {
      var i :| 0 <= i < |a + b| && (a + b)[i].code == code;
      if i >= |a| {
        assert b[i - |a|].code == code;
      } else {
        assert a[i].code == code;
      }
    }
    if Reports(a, code) {
      var i :| 0 <= i < |a| && a[i].code == code;
      assert (a + b)[i].code == code;
    }
    if Reports(b, code) {
      var i :| 0 <= i < |b| && b[i].code == code;
      assert (a + b)[i + |a|].code == code;
    }
  }

  lemma ReportsSingle(i: Issue, code: Code)
    ensures Reports([i], code) <==> i.code == code
    ensures !Reports([], code)
  {
    if i.code == code {
      assert [i][0].code == code;
    }
  }

  /** The position of a code in the order the issues are appended. */
  function Rank(c: Code): nat {
    match c
    case SchemaViolation => 0
    case TimeInvalidCreatedAt => 1
    case TimeInvalidTtl => 2
    case TimeInvalidExpiresAt => 3
    case TimeMismatch => 4
    case TimeCreatedAtInFuture => 5
    case TimeExpired => 6
  }

  /** Ranks strictly increase along `iss`, so each code occurs at most once,
      and all of them lie in `lo..hi`. */
  predicate Ranked(iss: seq<Issue>, lo: nat, hi: nat) {
    (forall i :: 0 <= i < |iss| ==> lo <= Rank(iss[i].code) <= hi)
    && forall i, j :: 0 <= i < j < |iss| ==> Rank(iss[i].code) < Rank(iss[j].code)
  }

  lemma RankedConcat(a: seq<Issue>, b: seq<Issue>, lo: nat, mid: nat, hi: nat)
    requires lo <= mid < hi
    requires Ranked(a, lo, mid) && Ranked(b, mid + 1, hi)
    ensures Ranked(a + b, lo, hi)
  {
    var ab := a + b;
    forall i | 0 <= i < |ab| ensures lo <= Rank(ab[i].code) <= hi {
      if i >= |a| {
        assert ab[i] == b[i - |a|];
      } else {
        assert ab[i] == a[i];
      }
    }
    forall i, j | 0 <= i < j < |ab| ensures Rank(ab[i].code) < Rank(ab[j].code) {
      if j < |a| {
        assert ab[i] == a[i] && ab[j] == a[j];
      } else if i >= |a| {
        assert ab[i] == b[i - |a|] && ab[j] == b[j - |a|];
      } else {
        assert ab[i] == a[i] && ab[j] == b[j - |a|];
      }
    }
  }

  lemma ComparisonsRanked(created: int, ttl: int, expires: int, env: Env)
    ensures Ranked(Comparisons(created, ttl, expires, env), 4, 6)
  {
    var m := Opt(Mismatched(created, expires, ttl, env.clockSkew, MicrosPerSecond),
                 Issue(TimeMismatch, MismatchMessage, "expires_at"));
    var f := Opt(TooFarInFuture(created, env.now, env.allowFuture),
                 Issue(TimeCreatedAtInFuture, FutureMessage, "created_at"));
    var x := Opt(Expired(expires, env.now, env.clockSkew), Issue(TimeExpired, ExpiredMessage, "expires_at"));
    assert Comparisons(created, ttl, expires, env) == m + f + x;
    OptRanked(Mismatched(created, expires, ttl, env.clockSkew, MicrosPerSecond),
              Issue(TimeMismatch, MismatchMessage, "expires_at"));
    OptRanked(TooFarInFuture(created, env.now, env.allowFuture),
              Issue(TimeCreatedAtInFuture, FutureMessage, "created_at"));
    OptRanked(Expired(expires, env.now, env.clockSkew), Issue(TimeExpired, ExpiredMessage, "expires_at"));
    RankedConcat(m, f, 4, 4, 5);
    RankedConcat(m + f, x, 4, 5, 6);
  }

  lemma OptRanked(b: bool, i: Issue)
    ensures Ranked(Opt(b, i), Rank(i.code), Rank(i.code))
  {
  }

  /** Which comparisons report a given code. */
  lemma ComparisonsReport(created: int, ttl: int, expires: int, env: Env, code: Code)
    ensures Reports(Comparisons(created, ttl, expires, env), code) <==>
      (code == TimeMismatch && Mismatched(created, expires, ttl, env.clockSkew, MicrosPerSecond))
      || (code == TimeCreatedAtInFuture && TooFarInFuture(created, env.now, env.allowFuture))
      || (code == TimeExpired && Expired(expires, env.now, env.clockSkew))
  {
    var mi := Issue(TimeMismatch, MismatchMessage, "expires_at");
    var fi := Issue(TimeCreatedAtInFuture, FutureMessage, "created_at");
    var xi := Issue(TimeExpired, ExpiredMessage, "expires_at");
    var m := Opt(Mismatched(created, expires, ttl, env.clockSkew, MicrosPerSecond), mi);
    var f := Opt(TooFarInFuture(created, env.now, env.allowFuture), fi);
    var x := Opt(Expired(expires, env.now, env.clockSkew), xi);
    ReportsConcat(m + f, x, code);
    ReportsConcat(m, f, code);
    ReportsSingle(mi, code);
    ReportsSingle(fi, code);
    ReportsSingle(xi, code);
  }

  lemma FieldIssuesRanked(c: Stamp, t: Parsed, e: Stamp, env: Env)
    ensures Ranked(FieldIssues(c, t, e, env), 1, 6)
  {
    var a := StampIssue(TimeInvalidCreatedAt, c, "created_at");
    var b := TtlIssue(t);
    var d := StampIssue(TimeInvalidExpiresAt, e, "expires_at");
    var rest := if c.Stamp? && t.Ok? && e.Stamp? then Comparisons(c.value, t.value * MicrosPerSecond, e.value, env)
                else [];
    if c.Stamp? && t.Ok? && e.Stamp? {
      ComparisonsRanked(c.value, t.value * MicrosPerSecond, e.value, env);
    }
    RankedConcat(a, b, 1, 1, 2);
    RankedConcat(a + b, d, 1, 2, 3);
    RankedConcat(a + b + d, rest, 1, 3, 6);
  }

  /** Which read fields report a given code. */
  lemma FieldIssuesReport(c: Stamp, t: Parsed, e: Stamp, env: Env, code: Code)
    ensures Reports(FieldIssues(c, t, e, env), code) <==>
      (code == TimeInvalidCreatedAt && c.BadStamp?)
      || (code == TimeInvalidTtl && t.Err?)
      || (code == TimeInvalidExpiresAt && e.BadStamp?)
      || (c.Stamp? && t.Ok? && e.Stamp?
          && Reports(Comparisons(c.value, t.value * MicrosPerSecond, e.value, env), code))
  {
    var a := StampIssue(TimeInvalidCreatedAt, c, "created_at");
    var b := TtlIssue(t);
    var d := StampIssue(TimeInvalidExpiresAt, e, "expires_at");
    var rest := if c.Stamp? && t.Ok? && e.Stamp? then Comparisons(c.value, t.value * MicrosPerSecond, e.value, env)
                else [];
    ReportsConcat(a + b + d, rest, code);
    ReportsConcat(a + b, d, code);
    ReportsConcat(a, b, code);
    if c.BadStamp? { ReportsSingle(Issue(TimeInvalidCreatedAt, c.message, "created_at"), code); }
    if t.Err? { ReportsSingle(Issue(TimeInvalidTtl, t.message, "ttl"), code); }
    if e.BadStamp? { ReportsSingle(Issue(TimeInvalidExpiresAt, e.message, "expires_at"), code); }
    ReportsSingle(Issue(code, "", ""), code);
  }

  /** The temporal issues appear in the fixed order created_at, ttl,
      expires_at, mismatch, future, expired, each at most once. */
  lemma TemporalRanked(p: Packet, rfc3339: string -> Stamp, env: Env)
    ensures Ranked(TemporalIssues(p, rfc3339, env), 1, 6)
  {
    if HasTimeFields(p) {
      FieldIssuesRanked(PyTime(p["created_at"], rfc3339), PyTtl(p["ttl"]), PyTime(p["expires_at"], rfc3339), env);
    }
  }

  /** Schema issues followed by ranked temporal issues: the shape of
      every issue list. */
  lemma SchemaThenTemporal(sc: seq<Issue>, t: seq<Issue>)
    requires forall k :: 0 <= k < |sc| ==> sc[k].code == SchemaViolation
    requires Ranked(t, 1, 6)
    ensures forall k :: |sc| <= k < |sc + t| ==> (sc + t)[k].code != SchemaViolation
    ensures forall i, j :: 0 <= i < j < |sc + t| ==> Rank((sc + t)[i].code) <= Rank((sc + t)[j].code)
  {
    var iss := sc + t;
    forall k | |sc| <= k < |iss| ensures iss[k].code != SchemaViolation {
      assert iss[k] == t[k - |sc|];
    }
    forall i, j | 0 <= i < j < |iss| ensures Rank(iss[i].code) <= Rank(iss[j].code) {
      if i >= |sc| {
        assert iss[i] == t[i - |sc|] && iss[j] == t[j - |sc|];
      } else if j < |sc| {
        assert iss[i] == sc[i] && iss[j] == sc[j];
      } else {
        assert iss[i] == sc[i];
      }
    }
  }

  /** The schema issues come first, one per schema error and in the same
      order, each with the error's message and its formatted path; no later
      issue is a schema issue. The codes never go back in the order above. */
  lemma PySchemaIssuesFirst(p: Packet, errs: seq<SchemaError>, rfc3339: string -> Stamp, env: Env)
    ensures var iss := Issues(p, errs, rfc3339, env);
      && |errs| <= |iss|
      && (forall k :: 0 <= k < |errs| ==> iss[k] == Issue(SchemaViolation, errs[k].message, Render(errs[k].path)))
      && (forall k :: |errs| <= k < |iss| ==> iss[k].code != SchemaViolation)
      && (forall i, j :: 0 <= i < j < |iss| ==> Rank(iss[i].code) <= Rank(iss[j].code))
  {
    var t := TemporalIssues(p, rfc3339, env);
    TemporalRanked(p, rfc3339, env);
    var sc := SchemaIssues(errs);
    assert Issues(p, errs, rfc3339, env) == sc + t;
    SchemaThenTemporal(sc, t);
    forall k | 0 <= k < |errs| ensures (sc + t)[k] == Issue(SchemaViolation, errs[k].message, Render(errs[k].path)) {
      assert (sc + t)[k] == sc[k];
    }
  }

  /** `ok` holds exactly when there are no issues: no schema errors, and no
      temporal issue. */
  lemma PyOkIff(p: Packet, errs: seq<SchemaError>, rfc3339: string -> Stamp, env: Env)
    ensures Issues(p, errs, rfc3339, env) == [] <==> errs == [] && TemporalIssues(p, rfc3339, env) == []
  {
  }

  /** Without all three fields no temporal check runs at all: only the
      schema issues are reported. */
  lemma PyNoTemporalWithoutFields(p: Packet, errs: seq<SchemaError>, rfc3339: string -> Stamp, env: Env)
    requires !HasTimeFields(p)
    ensures Issues(p, errs, rfc3339, env) == SchemaIssues(errs)
  {
  }

  /** Which parse failures are reported: each field that does not parse,
      when all three are present, independently of the other two. */
  lemma PyParseIssuesIff(p: Packet, rfc3339: string -> Stamp, env: Env)
    ensures var t := TemporalIssues(p, rfc3339, env);
      && (Reports(t, TimeInvalidCreatedAt) <==> HasTimeFields(p) && PyTime(p["created_at"], rfc3339).BadStamp?)
      && (Reports(t, TimeInvalidTtl) <==> HasTimeFields(p) && PyTtl(p["ttl"]).Err?)
      && (Reports(t, TimeInvalidExpiresAt) <==> HasTimeFields(p) && PyTime(p["expires_at"], rfc3339).BadStamp?)
  {
    if HasTimeFields(p) {
      var c := PyTime(p["created_at"], rfc3339);
      var t := PyTtl(p["ttl"]);
      var e := PyTime(p["expires_at"], rfc3339);
      FieldIssuesReport(c, t, e, env, TimeInvalidCreatedAt);
      FieldIssuesReport(c, t, e, env, TimeInvalidTtl);
      FieldIssuesReport(c, t, e, env, TimeInvalidExpiresAt);
      if c.Stamp? && t.Ok? && e.Stamp? {
        ComparisonsReport(c.value, t.value * MicrosPerSecond, e.value, env, TimeInvalidCreatedAt);
        ComparisonsReport(c.value, t.value * MicrosPerSecond, e.value, env, TimeInvalidTtl);
        ComparisonsReport(c.value, t.value * MicrosPerSecond, e.value, env, TimeInvalidExpiresAt);
      }
    } else {
      ReportsSingle(Issue(SchemaViolation, "", ""), TimeInvalidTtl);
      ReportsSingle(Issue(SchemaViolation, "", ""), TimeInvalidCreatedAt);
      ReportsSingle(Issue(SchemaViolation, "", ""), TimeInvalidExpiresAt);
    }
  }

  /** The three fields are present and all of them parse. */
  predicate PyParsed(p: Packet, rfc3339: string -> Stamp) {
    HasTimeFields(p) && PyTime(p["created_at"], rfc3339).Stamp? && PyTtl(p["ttl"]).Ok?
    && PyTime(p["expires_at"], rfc3339).Stamp?
  }

  /** Each comparison is reported exactly when the three fields are
      present and parse and the comparison fails; they are independent of
      each other, so several can be reported together. */
  lemma PyComparisonIssuesIff(p: Packet, rfc3339: string -> Stamp, env: Env)
    ensures var t := TemporalIssues(p, rfc3339, env);
      && (Reports(t, TimeMismatch) <==>
            PyParsed(p, rfc3339)
            && Mismatched(PyTime(p["created_at"], rfc3339).value, PyTime(p["expires_at"], rfc3339).value,
                          PyTtl(p["ttl"]).value * MicrosPerSecond, env.clockSkew, MicrosPerSecond))
      && (Reports(t, TimeCreatedAtInFuture) <==>
            PyParsed(p, rfc3339) && TooFarInFuture(PyTime(p["created_at"], rfc3339).value, env.now, env.allowFuture))
      && (Reports(t, TimeExpired) <==>
            PyParsed(p, rfc3339) && Expired(PyTime(p["expires_at"], rfc3339).value, env.now, env.clockSkew))
  {
    if HasTimeFields(p) {
      var c := PyTime(p["created_at"], rfc3339);
      var t := PyTtl(p["ttl"]);
      var e := PyTime(p["expires_at"], rfc3339);
      FieldIssuesReport(c, t, e, env, TimeMismatch);
      FieldIssuesReport(c, t, e, env, TimeCreatedAtInFuture);
      FieldIssuesReport(c, t, e, env, TimeExpired);
      if c.Stamp? && t.Ok? && e.Stamp? {
        ComparisonsReport(c.value, t.value * MicrosPerSecond, e.value, env, TimeMismatch);
        ComparisonsReport(c.value, t.value * MicrosPerSecond, e.value, env, TimeCreatedAtInFuture);
        ComparisonsReport(c.value, t.value * MicrosPerSecond, e.value, env, TimeExpired);
      }
    } else {
      ReportsSingle(Issue(SchemaViolation, "", ""), TimeMismatch);
      ReportsSingle(Issue(SchemaViolation, "", ""), TimeCreatedAtInFuture);
      ReportsSingle(Issue(SchemaViolation, "", ""), TimeExpired);
    }
  }

  lemma SchemaIssuesCodes(errs: seq<SchemaError>, code: Code)
    requires code != SchemaViolation
    ensures !Reports(SchemaIssues(errs), code)
  {
  }

  /** Once expired, a packet stays expired as the clock moves on. */
  lemma PyExpiryMonotonic(p: Packet, errs: seq<SchemaError>, rfc3339: string -> Stamp, env: Env, later: int)
    requires Reports(Issues(p, errs, rfc3339, env), TimeExpired)
    requires env.now <= later
    ensures Reports(Issues(p, errs, rfc3339, env.(now := later)), TimeExpired)
  {
    ReportsConcat(SchemaIssues(errs), TemporalIssues(p, rfc3339, env), TimeExpired);
    ReportsConcat(SchemaIssues(errs), TemporalIssues(p, rfc3339, env.(now := later)), TimeExpired);
    SchemaIssuesCodes(errs, TimeExpired);
    PyComparisonIssuesIff(p, rfc3339, env);
    PyComparisonIssuesIff(p, rfc3339, env.(now := later));
  }

  // ---------- Worked examples ----------

  /** 2025-01-01T00:00:00Z in microseconds since the Unix epoch. */
  const T0: int := 1735689600 * MicrosPerSecond

  function Minutes(m: int): int { m * 60 * MicrosPerSecond }

  function SamplePacket(created: string, ttl: string, expires: string): Packet {
    map["created_at" := JString(created), "ttl" := JString(ttl), "expires_at" := JString(expires)]
  }

  lemma SampleTemporal(created: string, ttl: string, expires: string, rfc3339: string -> Stamp, env: Env,
                       c: int, d: int, e: int)
    requires PyTime(JString(created), rfc3339) == Stamp(c) && PyTime(JString(expires), rfc3339) == Stamp(e)
    requires PyParseDuration(ttl) == Ok(d)
    ensures TemporalIssues(SamplePacket(created, ttl, expires), rfc3339, env)
            == Comparisons(c, d * MicrosPerSecond, e, env)
  {
    var p := SamplePacket(created, ttl, expires);
    assert "created_at"[0] != "expires_at"[0];
    assert p["created_at"] == JString(created) && p["ttl"] == JString(ttl) && p["expires_at"] == JString(expires);
  }

  /** A bad `ttl` and a bad `expires_at` are both reported, the ttl first. */
  lemma PyBadTtlAndExpiry(created: string, ttl: string, expires: string, rfc3339: string -> Stamp, env: Env)
    requires PyTime(JString(created), rfc3339).Stamp? && PyParseDuration(ttl).Err?
    requires PyTime(JString(expires), rfc3339).BadStamp?
    ensures Issues(SamplePacket(created, ttl, expires), [], rfc3339, env)
            == [Issue(TimeInvalidTtl, PyParseDuration(ttl).message, "ttl"),
                Issue(TimeInvalidExpiresAt, PyTime(JString(expires), rfc3339).message, "expires_at")]
  {
    var p := SamplePacket(created, ttl, expires);
    assert "created_at"[0] != "expires_at"[0];
    assert p["created_at"] == JString(created) && p["ttl"] == JString(ttl) && p["expires_at"] == JString(expires);
    assert Issues(p, [], rfc3339, env) == TemporalIssues(p, rfc3339, env);
  }

  /** Mismatch, a future `created_at` and expiry are reported together,
      in that order: `expires_at` lies before `created_at`. */
  lemma PyThreeComparisonsTogether(rfc3339: string -> Stamp)
    requires rfc3339("2025-01-01T00:20:00Z") == Stamp(T0 + Minutes(20))
    requires rfc3339("2024-12-31T23:40:00Z") == Stamp(T0 - Minutes(20))
    ensures Issues(SamplePacket("2025-01-01T00:20:00Z", "2h", "2024-12-31T23:40:00Z"), [], rfc3339,
                   Env(T0, Minutes(1), Minutes(5)))
            == [Issue(TimeMismatch, MismatchMessage, "expires_at"),
                Issue(TimeCreatedAtInFuture, FutureMessage, "created_at"),
                Issue(TimeExpired, ExpiredMessage, "expires_at")]
  {
    PyStampSample("2025-01-01T00:20:00Z", rfc3339);
    PyStampSample("2024-12-31T23:40:00Z", rfc3339);
    ThreeComparisonsSample("2025-01-01T00:20:00Z", "2024-12-31T23:40:00Z", rfc3339);
  }

  lemma ThreeComparisonsSample(created: string, expires: string, rfc3339: string -> Stamp)
    requires PyTime(JString(created), rfc3339) == Stamp(T0 + Minutes(20))
    requires PyTime(JString(expires), rfc3339) == Stamp(T0 - Minutes(20))
    ensures Issues(SamplePacket(created, "2h", expires), [], rfc3339, Env(T0, Minutes(1), Minutes(5)))
            == [Issue(TimeMismatch, MismatchMessage, "expires_at"),
                Issue(TimeCreatedAtInFuture, FutureMessage, "created_at"),
                Issue(TimeExpired, ExpiredMessage, "expires_at")]
  {
    var env := Env(T0, Minutes(1), Minutes(5));
    var p := SamplePacket(created, "2h", expires);
    PyTwoHours();
    SampleTemporal(created, "2h", expires, rfc3339, env, T0 + Minutes(20), 7200, T0 - Minutes(20));
    var c, d, e := T0 + Minutes(20), 7200 * MicrosPerSecond, T0 - Minutes(20);
    assert Abs(e - (c + d)) == Minutes(160);
    AllComparisonsFail(c, d, e, env);
    assert Issues(p, [], rfc3339, env) == TemporalIssues(p, rfc3339, env);
  }

  /** When all three comparisons fail, all three issues are reported, in
      the order of the checks. */
  lemma AllComparisonsFail(created: int, ttl: int, expires: int, env: Env)
    requires Mismatched(created, expires, ttl, env.clockSkew, MicrosPerSecond)
    requires TooFarInFuture(created, env.now, env.allowFuture)
    requires Expired(expires, env.now, env.clockSkew)
    ensures Comparisons(created, ttl, expires, env)
            == [Issue(TimeMismatch, MismatchMessage, "expires_at"),
                Issue(TimeCreatedAtInFuture, FutureMessage, "created_at"),
                Issue(TimeExpired, ExpiredMessage, "expires_at")]
  {
  }

  /** A timestamp without surrounding white space goes to the parser as it
      is. */
  lemma PyStampSample(s: string, rfc3339: string -> Stamp)
    requires s != [] && !PySpace(s[0]) && !PySpace(s[|s| - 1])
    ensures PyTime(JString(s), rfc3339) == rfc3339(s)
  {
    TrimOfTrimmed(s, PyWhite);
  }

  lemma PyTwoHours()
    ensures PyParseDuration("2h") == Ok(7200)
  {
    PyParseAccepts("2h", "", "2", "", 'h', "", Hour);
  }

  /** Created at 00:00, `ttl` "2h", expiring at 02:00, checked at 01:00
      with the default tolerances: no issue. Checked at 03:05: expired. */
  lemma PyScenarioValidThenExpired(rfc3339: string -> Stamp)
    requires rfc3339("2025-01-01T00:00:00Z") == Stamp(T0)
    requires rfc3339("2025-01-01T02:00:00Z") == Stamp(T0 + Minutes(120))
    ensures Issues(SamplePacket("2025-01-01T00:00:00Z", "2h", "2025-01-01T02:00:00Z"), [], rfc3339,
                   Env(T0 + Minutes(60), Minutes(1), Minutes(5))) == []
    ensures Issues(SamplePacket("2025-01-01T00:00:00Z", "2h", "2025-01-01T02:00:00Z"), [], rfc3339,
                   Env(T0 + Minutes(185), Minutes(1), Minutes(5)))
            == [Issue(TimeExpired, ExpiredMessage, "expires_at")]
  {
    PyStampSample("2025-01-01T00:00:00Z", rfc3339);
    PyStampSample("2025-01-01T02:00:00Z", rfc3339);
    ValidThenExpiredSample("2025-01-01T00:00:00Z", "2025-01-01T02:00:00Z", rfc3339);
  }

  lemma ValidThenExpiredSample(created: string, expires: string, rfc3339: string -> Stamp)
    requires PyTime(JString(created), rfc3339) == Stamp(T0)
    requires PyTime(JString(expires), rfc3339) == Stamp(T0 + Minutes(120))
    ensures Issues(SamplePacket(created, "2h", expires), [], rfc3339, Env(T0 + Minutes(60), Minutes(1), Minutes(5)))
            == []
    ensures Issues(SamplePacket(created, "2h", expires), [], rfc3339, Env(T0 + Minutes(185), Minutes(1), Minutes(5)))
            == [Issue(TimeExpired, ExpiredMessage, "expires_at")]
  {
    PyTwoHours();
    var p := SamplePacket(created, "2h", expires);
    var early, late := Env(T0 + Minutes(60), Minutes(1), Minutes(5)), Env(T0 + Minutes(185), Minutes(1), Minutes(5));
    SampleTemporal(created, "2h", expires, rfc3339, early, T0, 7200, T0 + Minutes(120));
    SampleTemporal(created, "2h", expires, rfc3339, late, T0, 7200, T0 + Minutes(120));
    assert 7200 * MicrosPerSecond == Minutes(120);
    assert Issues(p, [], rfc3339, early) == TemporalIssues(p, rfc3339, early);
    assert Issues(p, [], rfc3339, late) == TemporalIssues(p, rfc3339, late);
  }

  /** A packet without `expires_at` and without schema errors is accepted:
      the temporal checks are skipped, not failed. */
  lemma PyScenarioMissingExpiry(rfc3339: string -> Stamp, env: Env)
    ensures Issues(map["created_at" := JString("2025-01-01T00:00:00Z"), "ttl" := JString("2h")], [], rfc3339, env)
            == []
  {
    var p := map["created_at" := JString("2025-01-01T00:00:00Z"), "ttl" := JString("2h")];
    assert "expires_at" !in p;
  }
}
