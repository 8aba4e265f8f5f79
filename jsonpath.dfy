/** `_json_path` (src/validate_packet.py:146-163): the readable form of a
    schema error's location, keys joined with '.', array indexes glued on as
    `[i]`. */
module JsonPath {
  import opened Text

  /** One step of a location inside a JSON document: an array index (an int
      in the library's path) or an object key. */
  datatype PathElem = Index(i: nat) | Key(k: string)

  /** The text of one step before joining: `f"[{p}]"` or `str(p)`. */
  function Part(e: PathElem): string {
    match e
    case Index(i) => "[" + Decimal(i) + "]"
    case Key(k) => k
  }

  /** `part.startswith("[")`. */
  predicate Glued(part: string) { |part| > 0 && part[0] == '[' }

  /** One step of the joining loop. */
  function Glue(out: string, part: string): string {
    if Glued(part) then out + part else out + (if out != "" then "." else "") + part
  }

  /** The joining loop over the parts, from the left. */
  function RenderParts(parts: seq<string>): string
    decreases |parts|
  {
    if parts == [] then "" else Glue(RenderParts(parts[..|parts| - 1]), parts[|parts| - 1])
  }

  function Parts(path: seq<PathElem>): (ps: seq<string>)
    ensures |ps| == |path| && forall k :: 0 <= k < |path| ==> ps[k] == Part(path[k])
  {
    seq(|path|, k requires 0 <= k < |path| => Part(path[k]))
  }

  function Render(path: seq<PathElem>): string { RenderParts(Parts(path)) }

  /** `_json_path`: a first loop builds the parts, a second one joins them. */
  method FormatPath(path: seq<PathElem>) returns (out: string)
    ensures out == Render(path)
    ensures path == [] ==> out == ""
  {
    var parts: seq<string> := [];
    for i := 0 to |path|
      invariant parts == Parts(path)[..i]
    {
      match path[i]
      case Index(n) => parts := parts + ["[" + Decimal(n) + "]"];
      case Key(k) => parts := parts + [k];
    }
    assert parts == Parts(path);
    out := "";
    for j := 0 to |parts|
      invariant out == RenderParts(parts[..j])
    {
      var part := parts[j];
      if |part| > 0 && part[0] == '[' {
        out := out + part;
      } else {
        out := out + (if out != "" then "." else "") + part;
      }
      assert parts[..j + 1][..j] == parts[..j];
    }
    assert parts[..|parts|] == parts;
  }

  // ---------- An independent description of the output ----------

  /** Some step before position `k` contributes text. */
  predicate TextBefore(path: seq<PathElem>, k: nat)
    requires k <= |path|
  {
    exists j :: 0 <= j < k && Part(path[j]) != ""
  }

  /** What step `k` contributes to the output: an index (or a key starting
      with '[') as it is, any other key after a '.' exactly when some earlier
      step contributed text. */
  function Piece(path: seq<PathElem>, k: nat): string
    requires k < |path|
  {
    if Glued(Part(path[k])) then Part(path[k])
    else (if TextBefore(path, k) then "." else "") + Part(path[k])
  }

  function Pieces(path: seq<PathElem>): (ps: seq<string>)
    ensures |ps| == |path| && forall k :: 0 <= k < |path| ==> ps[k] == Piece(path, k)
  {
    seq(|path|, k requires 0 <= k < |path| => Piece(path, k))
  }

  function Concat(ss: seq<string>): string
    decreases |ss|
  {
    if ss == [] then "" else Concat(ss[..|ss| - 1]) + ss[|ss| - 1]
  }

  lemma PartsPrefix(path: seq<PathElem>, n: nat)
    requires n <= |path|
    ensures Parts(path)[..n] == Parts(path[..n])
  {
  }

  /** The joining loop's last step. */
  lemma RenderSnoc(path: seq<PathElem>)
    requires path != []
    ensures Render(path) == Glue(Render(path[..|path| - 1]), Part(path[|path| - 1]))
  {
    PartsPrefix(path, |path| - 1);
  }

  lemma TextBeforePrefix(path: seq<PathElem>, m: nat, k: nat)
    requires k <= m <= |path|
    ensures TextBefore(path[..m], k) <==> TextBefore(path, k)
  {
    var p := path[..m];
    if TextBefore(path, k) {
      var j :| 0 <= j < k && Part(path[j]) != "";
      assert p[j] == path[j];
    }
    if TextBefore(p, k) {
      var j :| 0 <= j < k && Part(p[j]) != "";
      assert p[j] == path[j];
    }
  }

  /** The output is empty exactly when no step contributed text. */
  lemma {:induction false} RenderEmptyIff(path: seq<PathElem>)
    ensures Render(path) == "" <==> !TextBefore(path, |path|)
    decreases |path|
  {
    if path != [] {
      var n := |path| - 1;
      var p := path[..n];
      RenderSnoc(path);
      RenderEmptyIff(p);
      TextBeforePrefix(path, n, n);
      if Part(path[n]) != "" {
        assert TextBefore(path, |path|);
      } else if TextBefore(path, |path|) {
        var j :| 0 <= j < |path| && Part(path[j]) != "";
        assert j < n;
        assert TextBefore(path, n);
      }
    }
  }

  lemma PiecesPrefix(path: seq<PathElem>, n: nat)
    requires n <= |path|
    ensures Pieces(path)[..n] == Pieces(path[..n])
  {
    forall k | 0 <= k < n ensures Piece(path, k) == Piece(path[..n], k) {
      TextBeforePrefix(path, n, k);
      assert path[..n][k] == path[k];
    }
  }

  /** One joining step appends the step's piece. */
  lemma GlueIsPiece(path: seq<PathElem>, out: string)
    requires path != []
    requires out == "" <==> !TextBefore(path, |path| - 1)
    ensures Glue(out, Part(path[|path| - 1])) == out + Piece(path, |path| - 1)
  {
  }

  lemma ConcatSnoc(ss: seq<string>)
    requires ss != []
    ensures Concat(ss) == Concat(ss[..|ss| - 1]) + ss[|ss| - 1]
  {
  }

  /** The output is the concatenation of the steps' pieces: every index
      `i` appears as `[i]` with no '.' before it, every key is preceded by a
      '.' exactly when some earlier step wrote text. */
  lemma {:induction false} RenderIsPieces(path: seq<PathElem>)
    ensures Render(path) == Concat(Pieces(path))
    decreases |path|
  {
    if path != [] {
      var n := |path| - 1;
      var p := path[..n];
      var out := Render(p);
      RenderSnoc(path);
      assert Render(path) == Glue(out, Part(path[n]));
      RenderEmptyIff(p);
      TextBeforePrefix(path, n, n);
      GlueIsPiece(path, out);
      assert Render(path) == out + Piece(path, n);
      RenderIsPieces(p);
      PiecesPrefix(path, n);
      var ps := Pieces(path);
      assert out == Concat(ps[..n]);
      ConcatSnoc(ps);
      assert Concat(ps) == Concat(ps[..n]) + ps[n];
    } else {
      assert Pieces(path) == [];
    }
  }

  // ---------- Shape of the output ----------

  /** A key that cannot make a '.' appear at the front. */
  predicate KeysNoLeadingDot(path: seq<PathElem>) {
    forall k :: 0 <= k < |path| && path[k].Key? ==> path[k].k == [] || path[k].k[0] != '.'
  }

  /** The output never starts with '.', provided no key itself does. */
  lemma {:induction false} RenderNoLeadingDot(path: seq<PathElem>)
    requires KeysNoLeadingDot(path)
    ensures Render(path) == [] || Render(path)[0] != '.'
    decreases |path|
  {
    if path != [] {
      var n := |path| - 1;
      var p := path[..n];
      PartsPrefix(path, n);
      assert KeysNoLeadingDot(p) by {
        forall k | 0 <= k < |p| && p[k].Key? ensures p[k].k == [] || p[k].k[0] != '.' {
          assert p[k] == path[k];
        }
      }
      RenderNoLeadingDot(p);
      var out := Render(p);
      var part := Part(path[n]);
      assert Render(path) == Glue(out, part);
      if out == "" {
        assert Glue(out, part) == part;
      } else {
        assert Glue(out, part)[0] == out[0];
      }
    }
  }

  /** A key that is non-empty and has no '.' in it. */
  predicate PlainKey(k: string) { k != [] && forall i :: 0 <= i < |k| ==> k[i] != '.' }

  predicate PlainKeys(path: seq<PathElem>) {
    forall k :: 0 <= k < |path| && path[k].Key? ==> PlainKey(path[k].k)
  }

  predicate NoDoubleDot(s: string) {
    forall i :: 0 <= i < |s| - 1 ==> !(s[i] == '.' && s[i + 1] == '.')
  }

  lemma PartOfPlain(e: PathElem)
    requires e.Key? ==> PlainKey(e.k)
    ensures Part(e) != [] && Part(e)[0] != '.' && Part(e)[|Part(e)| - 1] != '.'
    ensures forall i :: 0 <= i < |Part(e)| ==> Part(e)[i] != '.'
  {
    if e.Index? {
      var d := Decimal(e.i);
      assert Part(e) == "[" + d + "]";
      forall i | 0 <= i < |Part(e)| ensures Part(e)[i] != '.' {
        if 0 < i < |Part(e)| - 1 { assert Part(e)[i] == d[i - 1]; }
      }
    }
  }

  /** With plain keys the output never holds "..", never ends with '.', and
      every '.' separates two steps. */
  lemma {:induction false} RenderNoDoubleDot(path: seq<PathElem>)
    requires PlainKeys(path)
    ensures NoDoubleDot(Render(path))
    ensures Render(path) == [] || Render(path)[|Render(path)| - 1] != '.'
    decreases |path|
  {
    if path != [] {
      var n := |path| - 1;
      var p := path[..n];
      PartsPrefix(path, n);
      assert PlainKeys(p) by {
        forall k | 0 <= k < |p| && p[k].Key? ensures PlainKey(p[k].k) { assert p[k] == path[k]; }
      }
      RenderNoDoubleDot(p);
      var out := Render(p);
      var part := Part(path[n]);
      PartOfPlain(path[n]);
      assert Render(path) == Glue(out, part);
      var sep := if !Glued(part) && out != "" then "." else "";
      assert Glue(out, part) == out + sep + part;
      NoDoubleDotJoin(out, sep, part);
    }
  }

  lemma NoDoubleDotJoin(out: string, sep: string, part: string)
    requires NoDoubleDot(out) && (out == [] || out[|out| - 1] != '.')
    requires sep == "" || sep == "."
    requires part != [] && forall i :: 0 <= i < |part| ==> part[i] != '.'
    ensures NoDoubleDot(out + sep + part)
    ensures (out + sep + part)[|out + sep + part| - 1] != '.'
  {
    var r := out + sep + part;
    forall i | 0 <= i < |r| - 1 ensures !(r[i] == '.' && r[i + 1] == '.') {
      if i + 1 < |out| {
        assert r[i] == out[i] && r[i + 1] == out[i + 1];
      } else if i + 1 == |out| {
        assert r[i] == out[i];
      } else if i >= |out| + |sep| {
        assert r[i] == part[i - |out| - |sep|];
      } else {
        assert r[i + 1] == part[i + 1 - |out| - |sep|];
      }
    }
    assert r[|r| - 1] == part[|part| - 1];
  }

  lemma RenderOne(e: PathElem)
    ensures Render([e]) == Part(e)
  {
    RenderSnoc([e]);
    assert [e][..0] == [];
  }

  lemma RenderThree(e0: PathElem, e1: PathElem, e2: PathElem)
    ensures Render([e0, e1, e2]) == Glue(Glue(Part(e0), Part(e1)), Part(e2))
  {
    var p := [e0, e1, e2];
    RenderSnoc(p);
    assert p[..2] == [e0, e1];
    RenderSnoc(p[..2]);
    assert p[..2][..1] == [e0];
    RenderOne(e0);
  }

  /** Without plain keys the shape properties fail: an empty key between two
      keys produces "..". */
  lemma EmptyKeyMakesDoubleDot(a: string, b: string)
    requires a != [] && !Glued(b)
    ensures Render([Key(a), Key(""), Key(b)]) == a + ".." + b
    ensures !NoDoubleDot(Render([Key(a), Key(""), Key(b)]))
  {
    RenderThree(Key(a), Key(""), Key(b));
    var r := a + ".." + b;
    assert r[|a|] == '.' && r[|a| + 1] == '.';
  }

  /** A key that starts with '.' puts a '.' at the front. */
  lemma LeadingDotKey(k: string)
    requires k != [] && k[0] == '.'
    ensures Render([Key(k)]) == k && Render([Key(k)])[0] == '.'
  {
    RenderOne(Key(k));
  }

  /** An index is glued to the key before it; the key after it follows a '.'. */
  lemma IndexBetweenKeys(a: string, i: nat, b: string)
    requires a != [] && !Glued(b)
    ensures Render([Key(a), Index(i), Key(b)]) == a + "[" + Decimal(i) + "]" + "." + b
  {
    RenderThree(Key(a), Index(i), Key(b));
    assert Glued(Part(Index(i)));
  }

  // ---------- Keys only: a dotted join ----------

  /** `".".join(keys)`. */
  function DotJoin(keys: seq<string>): string
    decreases |keys|
  {
    if keys == [] then ""
    else if |keys| == 1 then keys[0]
    else DotJoin(keys[..|keys| - 1]) + "." + keys[|keys| - 1]
  }

  /** A path of non-empty keys, none starting with '[', renders as the keys
      joined with '.'. */
  lemma {:induction false} KeysRenderAsDotJoin(keys: seq<string>)
    requires forall k :: 0 <= k < |keys| ==> keys[k] != [] && keys[k][0] != '['
    ensures Render(seq(|keys|, k requires 0 <= k < |keys| => Key(keys[k]))) == DotJoin(keys)
    decreases |keys|
  {
    var path := seq(|keys|, k requires 0 <= k < |keys| => Key(keys[k]));
    if keys != [] {
      var n := |keys| - 1;
      var ks := keys[..n];
      var p := seq(|ks|, k requires 0 <= k < |ks| => Key(ks[k]));
      assert p == path[..n];
      PartsPrefix(path, n);
      KeysRenderAsDotJoin(ks);
      RenderEmptyIff(p);
      if n > 0 {
        assert Part(p[0]) != "";
        assert TextBefore(p, n);
      } else {
        assert Render(p) == "";
      }
    }
  }
}
