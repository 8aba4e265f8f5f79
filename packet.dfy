/** What both validators share: the packet as a JSON object, the schema
    engine's findings, the issue codes and the three temporal comparisons. */
module Packet {
  import opened Text
  import opened JsonPath

  /** A JSON value of the packet. Only strings matter to the temporal checks;
      every other value (number, bool, null, array, object) is `JOther`. */
  datatype Json = JString(s: string) | JOther

  /** A decoded packet: a JSON object. */
  type Packet = map<string, Json>

  /** One finding of the JSON Schema engine: its message and the location
      (`absolute_path`) of the offending value. */
  datatype SchemaError = SchemaError(message: string, path: seq<PathElem>)

  /** The outcome of an RFC 3339 timestamp parser: an instant on an integer
      time line, or the parser's error text. */
  datatype Stamp = Stamp(value: int) | BadStamp(message: string)

  /** The issue codes both validators report. */
  datatype Code =
    | SchemaViolation
    | TimeInvalidCreatedAt
    | TimeInvalidExpiresAt
    | TimeInvalidTtl
    | TimeMismatch
    | TimeCreatedAtInFuture
    | TimeExpired

  /** The code as it appears in the JSON output. */
  function CodeName(c: Code): string {
    match c
    case SchemaViolation => "SCHEMA_VIOLATION"
    case TimeInvalidCreatedAt => "TIME_INVALID_CREATED_AT"
    case TimeInvalidExpiresAt => "TIME_INVALID_EXPIRES_AT"
    case TimeInvalidTtl => "TIME_INVALID_TTL"
    case TimeMismatch => "TIME_MISMATCH"
    case TimeCreatedAtInFuture => "TIME_CREATED_AT_IN_FUTURE"
    case TimeExpired => "TIME_EXPIRED"
  }

  /** No two codes share a name, so a reported name identifies its code. */
  lemma CodeNamesDistinct(a: Code, b: Code)
    ensures CodeName(a) == CodeName(b) <==> a == b
  {
  }

  /** The field `key` when it is present and a string (`packet[key].(string)`
      in Go, `isinstance(..., str)` in Python). */
  function StringField(p: Packet, key: string): (r: Option<string>)
    ensures r.Some? <==> key in p && p[key].JString?
    ensures r.Some? ==> p[key] == JString(r.value)
  {
    if key in p && p[key].JString? then Some(p[key].s) else None
  }

  function Abs(x: int): nat { if x < 0 then -x else x }

  function Max(a: int, b: int): int { if a < b then b else a }

  /** `expires_at` is further from `created_at + ttl` than the tolerance,
      which is the clock skew but never less than one second (`second` is
      one second in the time line's unit). */
  predicate Mismatched(created: int, expires: int, ttl: int, skew: int, second: int) {
    Abs(expires - (created + ttl)) > Max(skew, second)
  }

  /** `created_at` lies more than the allowance after `now`. */
  predicate TooFarInFuture(created: int, now: int, allowance: int) {
    created - now > allowance
  }

  /** `now` lies more than the clock skew after `expires_at`. */
  predicate Expired(expires: int, now: int, skew: int) {
    now - expires > skew
  }

  /** The tolerance is exact: a drift equal to it passes in both directions,
      one unit more fails. The floor of one second applies even to a zero or
      negative skew. */
  lemma MismatchBoundary(created: int, ttl: int, skew: int, second: int)
    requires second > 0
    ensures !Mismatched(created, created + ttl + Max(skew, second), ttl, skew, second)
    ensures !Mismatched(created, created + ttl - Max(skew, second), ttl, skew, second)
    ensures Mismatched(created, created + ttl + Max(skew, second) + 1, ttl, skew, second)
    ensures Mismatched(created, created + ttl - Max(skew, second) - 1, ttl, skew, second)
    ensures skew <= second ==> (Mismatched(created, created + ttl + second + 1, ttl, skew, second)
                                && !Mismatched(created, created + ttl + second, ttl, skew, second))
  {
  }

  /** Unlike the mismatch tolerance, expiry uses the clock skew as it is:
      with a zero skew an instant past `expires_at` is already expired, while
      a one-second drift of `expires_at` is still tolerated. */
  lemma ExpiryIgnoresSecondFloor(created: int, ttl: int, second: int)
    requires second > 1
    ensures Expired(created + ttl, created + ttl + 1, 0)
    ensures !Mismatched(created, created + ttl + 1, ttl, 0, second)
  {
  }

  /** The comparisons scale: on a time line `k` times finer, with every
      quantity scaled by `k`, each one gives the same answer. */
  lemma ComparisonsScale(k: nat, created: int, expires: int, ttl: int, skew: int, second: int, now: int, allowance: int)
    requires k > 0
    ensures Mismatched(k * created, k * expires, k * ttl, k * skew, k * second)
            <==> Mismatched(created, expires, ttl, skew, second)
    ensures TooFarInFuture(k * created, k * now, k * allowance) <==> TooFarInFuture(created, now, allowance)
    ensures Expired(k * expires, k * now, k * skew) <==> Expired(expires, now, skew)
  {
    var d := expires - (created + ttl);
    assert k * expires - (k * created + k * ttl) == k * d;
    assert Abs(k * d) == k * Abs(d);
    assert Max(k * skew, k * second) == k * Max(skew, second);
    MulMonotone(k, Abs(d), Max(skew, second));
    assert k * created - k * now == k * (created - now);
    MulMonotone(k, created - now, allowance);
    assert k * now - k * expires == k * (now - expires);
    MulMonotone(k, now - expires, skew);
  }

  lemma MulMonotone(k: nat, x: int, y: int)
    requires k > 0
    ensures k * x > k * y <==> x > y
  {
    if x > y {
      MulPositive(k, x - y);
      assert k * x - k * y == k * (x - y);
    } else if x < y {
      MulPositive(k, y - x);
      assert k * y - k * x == k * (y - x);
    }
  }

  /** A product of two positive numbers is positive. */
  lemma {:induction false} MulPositive(k: nat, z: int)
    requires k > 0 && z > 0
    ensures k * z > 0
  {
    if k > 1 {
      MulPositive(k - 1, z);
      assert k * z == (k - 1) * z + z;
    }
  }
}
