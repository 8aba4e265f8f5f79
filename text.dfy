/** Character classes, decimal numerals and whitespace trimming shared by the
    Go and Python duration parsers and by the JSON-path formatter. */
module Text {

  datatype Option<T> = None | Some(value: T)

  predicate IsDigit(c: char) { '0' <= c <= '9' }

  predicate AllDigits(s: string) { forall i :: 0 <= i < |s| ==> IsDigit(s[i]) }

  function DigitValue(c: char): (d: nat)
    requires IsDigit(c)
    ensures d < 10
  {
    c as int - '0' as int
  }

  function DigitChar(d: nat): (c: char)
    requires d < 10
    ensures IsDigit(c) && DigitValue(c) == d
  {
    ('0' as int + d) as char
  }

  /** The value of a string of ASCII decimal digits, as `strconv.Atoi` and
      Python's `int()` read it (leading zeros allowed, no sign). */
  function DigitsValue(s: string): nat
    requires AllDigits(s)
    decreases |s|
  {
    if s == [] then 0 else DigitsValue(s[..|s| - 1]) * 10 + DigitValue(s[|s| - 1])
  }

  /** The canonical decimal numeral of `n`, as Python's `str(n)` writes a
      non-negative int: digits only, no leading zero unless `n` is zero. */
  function Decimal(n: nat): (s: string)
    ensures |s| > 0 && AllDigits(s)
    ensures s[0] == '0' <==> n == 0
    decreases n
  {
    if n < 10 then [DigitChar(n)] else Decimal(n / 10) + [DigitChar(n % 10)]
  }

  /** Reading back the numeral gives the number. */
  lemma {:induction false} DecimalRoundTrip(n: nat)
    ensures DigitsValue(Decimal(n)) == n
    decreases n
  {
    if n >= 10 {
      var s := Decimal(n);
      assert s[..|s| - 1] == Decimal(n / 10);
      DecimalRoundTrip(n / 10);
    }
  }

  /** A digit string is zero exactly when every digit is '0'. */
  lemma {:induction false} DigitsValueZero(s: string)
    requires AllDigits(s)
    ensures DigitsValue(s) == 0 <==> forall i :: 0 <= i < |s| ==> s[i] == '0'
    decreases |s|
  {
    if s != [] {
      var p := s[..|s| - 1];
      DigitsValueZero(p);
      assert forall i :: 0 <= i < |p| ==> p[i] == s[i];
    }
  }

  // ---------- Case ----------

  /** Lower-casing of one character: ASCII 'A'..'Z' map to 'a'..'z'. */
  function LowerChar(c: char): (l: char)
    ensures IsDigit(l) <==> IsDigit(c)
    ensures 'A' <= c <= 'Z' ==> l as int == c as int + 32
    ensures !('A' <= c <= 'Z') ==> l == c
  {
    if 'A' <= c <= 'Z' then (c as int + 32) as char else c
  }

  function Lower(s: string): (r: string)
    ensures |r| == |s| && forall i :: 0 <= i < |s| ==> r[i] == LowerChar(s[i])
  {
    seq(|s|, i requires 0 <= i < |s| => LowerChar(s[i]))
  }

  /** Lower-casing leaves no ASCII capital behind, so a second pass changes
      nothing. */
  lemma LowerNoUpper(s: string)
    ensures forall i :: 0 <= i < |s| ==> !('A' <= Lower(s)[i] <= 'Z')
    ensures Lower(Lower(s)) == Lower(s)
  {
    var l := Lower(s);
    forall i | 0 <= i < |s| ensures LowerChar(l[i]) == l[i] {
      assert l[i] == LowerChar(s[i]);
    }
  }

  // ---------- Whitespace ----------

  /** Characters with the Unicode White_Space property: what Go's
      `unicode.IsSpace` (and so `strings.TrimSpace`) accepts. */
  predicate GoSpace(c: char) {
    c == '\t' || c == '\n' || c == '\U{B}' || c == '\U{C}' || c == '\r' || c == ' '
    || c == '\U{85}' || c == '\U{A0}' || c == '\U{1680}'
    || ('\U{2000}' <= c <= '\U{200A}')
    || c == '\U{2028}' || c == '\U{2029}' || c == '\U{202F}' || c == '\U{205F}' || c == '\U{3000}'
  }

  /** What Python's `\s` matches in a str pattern (`str.isspace`): the
      White_Space characters plus the four separators U+001C..U+001F. */
  predicate PySpace(c: char) { GoSpace(c) || ('\U{1C}' <= c <= '\U{1F}') }

  /** Which of the two white-space classes a trim uses. */
  datatype WhiteSpace = GoWhite | PyWhite

  predicate IsSpace(w: WhiteSpace, c: char) {
    match w
    case GoWhite => GoSpace(c)
    case PyWhite => PySpace(c)
  }

  predicate AllSpace(s: string, w: WhiteSpace) {
    forall i :: 0 <= i < |s| ==> IsSpace(w, s[i])
  }

  /** Drops the leading characters that are white space of class `w`. */
  function TrimLeft(s: string, w: WhiteSpace): (r: string)
    ensures |r| <= |s|
    ensures r == [] || !IsSpace(w, r[0])
    decreases |s|
  {
    if s != [] && IsSpace(w, s[0]) then TrimLeft(s[1..], w) else s
  }

  /** Drops the trailing characters that are white space of class `w`. */
  function TrimRight(s: string, w: WhiteSpace): (r: string)
    ensures |r| <= |s|
    ensures r == [] || !IsSpace(w, r[|r| - 1])
    decreases |s|
  {
    if s != [] && IsSpace(w, s[|s| - 1]) then TrimRight(s[..|s| - 1], w) else s
  }

  /** Drops leading and trailing characters that are white space of class `w`. */
  function Trim(s: string, w: WhiteSpace): string {
    TrimRight(TrimLeft(s, w), w)
  }

  /** `TrimLeft` keeps a suffix and drops only spaces. */
  lemma {:induction false} TrimLeftSuffix(s: string, w: WhiteSpace)
    ensures TrimLeft(s, w) == s[|s| - |TrimLeft(s, w)|..]
    ensures AllSpace(s[..|s| - |TrimLeft(s, w)|], w)
    decreases |s|
  {
    if s != [] && IsSpace(w, s[0]) {
      TrimLeftSuffix(s[1..], w);
      var k := |s| - |TrimLeft(s, w)|;
      assert s[1..][k - 1..] == s[k..];
      forall i | 0 <= i < k ensures IsSpace(w, s[..k][i]) {
        if i > 0 { assert s[..k][i] == s[1..][..k - 1][i - 1]; }
      }
    }
  }

  /** `TrimRight` keeps a prefix and drops only spaces. */
  lemma {:induction false} TrimRightPrefix(s: string, w: WhiteSpace)
    ensures TrimRight(s, w) == s[..|TrimRight(s, w)|]
    ensures AllSpace(s[|TrimRight(s, w)|..], w)
    decreases |s|
  {
    if s != [] && IsSpace(w, s[|s| - 1]) {
      var p := s[..|s| - 1];
      TrimRightPrefix(p, w);
      var k := |TrimRight(s, w)|;
      assert p[..k] == s[..k];
      forall i | k <= i < |s| ensures IsSpace(w, s[i]) {
        if i < |s| - 1 { assert s[i] == p[k..][i - k]; }
      }
    }
  }

  /** Trimming removes exactly an all-space prefix and an all-space suffix. */
  lemma TrimSplit(s: string, w: WhiteSpace) returns (i: nat, j: nat)
    ensures i <= j <= |s| && Trim(s, w) == s[i..j]
    ensures AllSpace(s[..i], w) && AllSpace(s[j..], w)
  {
    var l := TrimLeft(s, w);
    var r := TrimRight(l, w);
    TrimLeftSuffix(s, w);
    TrimRightPrefix(l, w);
    i := |s| - |l|;
    j := i + |r|;
    assert s[i..j] == l[..|r|];
    assert s[j..] == l[|r|..];
  }

  /** Leading spaces do not change what `TrimLeft` keeps. */
  lemma {:induction false} TrimLeftAbsorbs(a: string, s: string, w: WhiteSpace)
    requires AllSpace(a, w)
    ensures TrimLeft(a + s, w) == TrimLeft(s, w)
    decreases |a|
  {
    if a != [] {
      var t := a + s;
      var rest := a[1..];
      assert t[0] == a[0];
      assert IsSpace(w, t[0]);
      assert t[1..] == rest + s;
      assert AllSpace(rest, w) by {
        forall i | 0 <= i < |rest| ensures IsSpace(w, rest[i]) { assert rest[i] == a[i + 1]; }
      }
      TrimLeftAbsorbs(rest, s, w);
    } else {
      assert a + s == s;
    }
  }

  /** Trailing spaces do not change what `TrimRight` keeps. */
  lemma {:induction false} TrimRightAbsorbs(s: string, c: string, w: WhiteSpace)
    requires AllSpace(c, w)
    ensures TrimRight(s + c, w) == TrimRight(s, w)
    decreases |c|
  {
    if c != [] {
      var t := s + c;
      var d := c[..|c| - 1];
      assert t[|t| - 1] == c[|c| - 1];
      assert IsSpace(w, t[|t| - 1]);
      assert t[..|t| - 1] == s + d;
      assert AllSpace(d, w) by {
        forall i | 0 <= i < |d| ensures IsSpace(w, d[i]) { assert d[i] == c[i]; }
      }
      TrimRightAbsorbs(s, d, w);
    } else {
      assert s + c == s;
    }
  }

  /** Surrounding spaces on both sides do not change what `Trim` keeps. */
  lemma {:induction false} TrimAbsorbs(a: string, s: string, c: string, w: WhiteSpace)
    requires AllSpace(a, w) && AllSpace(c, w)
    ensures Trim(a + s + c, w) == Trim(s, w)
  {
    assert a + s + c == a + (s + c);
    TrimLeftAbsorbs(a, s + c, w);
    TrimLeftOfSpaced(s, c, w);
  }

  lemma {:induction false} TrimLeftOfSpaced(s: string, c: string, w: WhiteSpace)
    requires AllSpace(c, w)
    ensures TrimRight(TrimLeft(s + c, w), w) == TrimRight(TrimLeft(s, w), w)
    decreases |s|
  {
    if s == [] {
      assert s + c == c;
      AllSpaceTrimLeft(c, w);
    } else if IsSpace(w, s[0]) {
      assert (s + c)[1..] == s[1..] + c;
      TrimLeftOfSpaced(s[1..], c, w);
    } else {
      TrimRightAbsorbs(s, c, w);
    }
  }

  lemma {:induction false} AllSpaceTrimLeft(c: string, w: WhiteSpace)
    requires AllSpace(c, w)
    ensures TrimLeft(c, w) == []
    decreases |c|
  {
    if c != [] {
      AllSpaceTrimLeft(c[1..], w);
    }
  }

  /** A string that starts and ends with non-space characters is its own trim. */
  lemma TrimOfTrimmed(s: string, w: WhiteSpace)
    requires s != [] && !IsSpace(w, s[0]) && !IsSpace(w, s[|s| - 1])
    ensures Trim(s, w) == s
  {
  }
}
