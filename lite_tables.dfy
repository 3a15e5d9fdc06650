/**
 * utils/tables_engine.py: the "tables-lite" engine of the v1 stack. It keeps
 * only whether a tables file was loaded and its version; `is_valid` never
 * accepts a code, and `expand_from_prefix` proposes default completions
 * ending in device "Z" and qualifier "Z".
 */
module LiteTables {
  import opened Common
  import opened Text

  /**
   * `VALID_CODE_RE.match(s)` for `^[0-9A-Z]{7}$`: seven code characters, and
   * since Python's `$` also matches before a final newline, optionally one
   * trailing "\n".
   */
  predicate CodeFormat(s: string) {
    (|s| == 7 && AllCodeChars(s)) || (|s| == 8 && AllCodeChars(s[..7]) && s[7] == '\n')
  }

  /** The engine record: `has_tables` and the `meta` dictionary. */
  datatype LiteEngine = LiteEngine(hasTables: bool, meta: map<string, string>)

  /** What the XML parser made of the bytes: nothing usable, or a root whose `version` text is given. */
  datatype Parsed = Malformed | Root(version: Option<string>)

  /** `none_engine` */
  function NoneEngine(): (e: LiteEngine)
    ensures !e.hasTables && e.meta == map[]
  {
    LiteEngine(false, map[])
  }

  /** `from_bytes`: empty input or a parse failure gives the empty engine; otherwise the version, "unknown" when missing or empty. */
  function FromBytes(b: seq<bv8>, parsed: Parsed): (e: LiteEngine)
    ensures e.hasTables <==> b != [] && parsed.Root?
    ensures !e.hasTables ==> e == NoneEngine()
    ensures e.hasTables ==> e.meta.Keys == {"version"} && e.meta["version"] != []
    ensures e.hasTables && parsed.version.Some? && parsed.version.value != [] ==> e.meta["version"] == parsed.version.value
  {
    if b == [] then NoneEngine()
    else match parsed
      case Malformed => NoneEngine()
      case Root(v) => LiteEngine(true, map["version" := if v.Some? && v.value != [] then v.value else "unknown"])
  }

  /** `is_valid`: a well-formed code is still not accepted, with or without tables. */
  function IsValid(e: LiteEngine, code: string): (r: bool)
    ensures !r
  {
    if !CodeFormat(code) then false
    else if !e.hasTables then false
    else false
  }

  /** The `k`-th body-part character tried: "A" to "Z", then "0" to "9". */
  function BodyPart(k: int): char {
    if 0 <= k < 26 then ('A' as int + k) as char
    else if 26 <= k < 36 then ('0' as int + k - 26) as char
    else ' '
  }
  /** Open, percutaneous, percutaneous endoscopic, external. */
  const Approaches: string := "034X"

  lemma BodyPartsSpelled()
    ensures seq(36, BodyPart) == "ABCDEFGHIJKLMNOPQRSTUVWXYZ0123456789"
  {
  }

  /** The `i`-th three-character completion: body part `i / 4`, approach `i % 4`. */
  function Cell3(p: string, i: nat): string
    requires i < 144
  {
    p + [BodyPart(i / 4), Approaches[i % 4], 'Z', 'Z']
  }

  /** The first `n` three-character completions: body part major, approach minor. */
  function Grid3(p: string, n: nat): (r: seq<string>)
    requires n <= 144
    ensures |r| == n && forall i :: 0 <= i < n ==> r[i] == Cell3(p, i)
  {
    seq(n, i requires 0 <= i < n => Cell3(p, i))
  }

  /** The first `n` four-character completions. */
  function Grid4(p: string, n: nat): (r: seq<string>)
    requires n <= |Approaches|
    ensures |r| == n && forall i :: 0 <= i < n ==> r[i] == p + [Approaches[i], 'Z', 'Z']
  {
    seq(n, i requires 0 <= i < n => p + [Approaches[i], 'Z', 'Z'])
  }

  /** The completions `expand_from_prefix` proposes for a prefix. */
  function Defaults(prefix: string): seq<string> {
    var p := Normalize(prefix);
    if |p| == 3 && AllCodeChars(p) then Grid3(p, 144)
    else if |p| == 4 && AllCodeChars(p) then Grid4(p, 4)
    else []
  }

  /** A completion of the right length matches the code pattern exactly when the prefix is made of code characters. */
  lemma CompletionFormat(p: string, tail: string)
    requires |p + tail| == 7 && AllCodeChars(tail)
    ensures CodeFormat(p + tail) <==> AllCodeChars(p)
  {
    var c := p + tail;
    if AllCodeChars(p) {
      forall i | 0 <= i < 7 ensures IsCodeChar(c[i]) {
        if i >= |p| {
          assert c[i] == tail[i - |p|];
        }
      }
    }
    if AllCodeChars(c) {
      forall i | 0 <= i < |p| ensures IsCodeChar(p[i]) {
        assert c[i] == p[i];
      }
    }
  }

  lemma ExtendGrid3(p: string, n: nat)
    requires n < 144
    ensures Grid3(p, n + 1) == Grid3(p, n) + [Cell3(p, n)]
  {
    var a, b := Grid3(p, n + 1), Grid3(p, n) + [Cell3(p, n)];
    assert |a| == |b|;
    forall i | 0 <= i < n + 1 ensures a[i] == b[i] {
      if i < n {
        assert b[i] == Grid3(p, n)[i];
      }
    }
  }

  lemma DivMod4(b: nat, a: nat)
    requires a < 4
    ensures (4 * b + a) / 4 == b && (4 * b + a) % 4 == a
  {
  }

  lemma ExtendGrid4(p: string, n: nat)
    requires n < 4
    ensures Grid4(p, n + 1) == Grid4(p, n) + [p + [Approaches[n], 'Z', 'Z']]
  {
  }

  /** The nested loops over body parts and approaches for a three-character prefix. */
  method Expand3(p: string) returns (results: seq<string>)
    requires |p| == 3
    ensures results == if AllCodeChars(p) then Grid3(p, 144) else []
  {
    results := [];
    for b := 0 to 36
      invariant results == if AllCodeChars(p) then Grid3(p, 4 * b) else []
    {
      for a := 0 to |Approaches|
        invariant results == if AllCodeChars(p) then Grid3(p, 4 * b + a) else []
      {
        var code := p + [BodyPart(b), Approaches[a], 'Z', 'Z'];
        CompletionFormat(p, [BodyPart(b), Approaches[a], 'Z', 'Z']);
        if CodeFormat(code) {
          DivMod4(b, a);
          assert code == Cell3(p, 4 * b + a);
          ExtendGrid3(p, 4 * b + a);
          results := results + [code];
        }
      }
    }
  }

  /** The loop over approaches for a four-character prefix. */
  method Expand4(p: string) returns (results: seq<string>)
    requires |p| == 4
    ensures results == if AllCodeChars(p) then Grid4(p, 4) else []
  {
    results := [];
    for a := 0 to |Approaches|
      invariant results == if AllCodeChars(p) then Grid4(p, a) else []
    {
      var code := p + [Approaches[a], 'Z', 'Z'];
      CompletionFormat(p, [Approaches[a], 'Z', 'Z']);
      if CodeFormat(code) {
        ExtendGrid4(p, a);
        results := results + [code];
      }
    }
  }

  /** `expand_from_prefix` */
  method ExpandFromPrefix(prefix: string) returns (results: seq<string>)
    ensures results == Defaults(prefix)
  {
    var p := Normalize(prefix);
    if |p| == 3 {
      results := Expand3(p);
      results := Take(results, 200);
    } else if |p| == 4 {
      results := Expand4(p);
    } else {
      results := [];
    }
  }

  /** Distinct positions of the grid give distinct pairs of characters. */
  lemma GridPairs(i: nat, j: nat)
    requires i < j < 144
    ensures BodyPart(i / 4) != BodyPart(j / 4) || Approaches[i % 4] != Approaches[j % 4]
  {
    if i / 4 == j / 4 {
      assert i % 4 != j % 4;
      assert NoDup(Approaches);
    }
  }

  /** Predicate shared by every completion of a prefix `p`. */
  predicate Completion(p: string, c: string) {
    CodeFormat(c) && |c| == 7 && p <= c && c[5..] == "ZZ"
  }

  lemma Grid3Spec(p: string)
    requires |p| == 3 && AllCodeChars(p)
    ensures NoDup(Grid3(p, 144)) && forall c :: c in Grid3(p, 144) ==> Completion(p, c)
  {
    var r := Grid3(p, 144);
    forall i, j | 0 <= i < j < |r| ensures r[i] != r[j] {
      CellsDiffer(p, i, j);
    }
    forall c | c in r ensures Completion(p, c) {
      var i :| 0 <= i < |r| && r[i] == c;
      CellCompletion(p, i);
    }
  }

  lemma CellsDiffer(p: string, i: nat, j: nat)
    requires |p| == 3 && i < j < 144
    ensures Cell3(p, i) != Cell3(p, j)
  {
    GridPairs(i, j);
    assert Cell3(p, i)[3] == BodyPart(i / 4) && Cell3(p, j)[3] == BodyPart(j / 4);
    assert Cell3(p, i)[4] == Approaches[i % 4] && Cell3(p, j)[4] == Approaches[j % 4];
  }

  lemma CellCompletion(p: string, i: nat)
    requires |p| == 3 && AllCodeChars(p) && i < 144
    ensures Completion(p, Cell3(p, i))
  {
    var c := Cell3(p, i);
    CompletionFormat(p, [BodyPart(i / 4), Approaches[i % 4], 'Z', 'Z']);
    assert c[..3] == p;
  }

  lemma Grid4Spec(p: string)
    requires |p| == 4 && AllCodeChars(p)
    ensures NoDup(Grid4(p, 4)) && forall c :: c in Grid4(p, 4) ==> Completion(p, c)
  {
    var r := Grid4(p, 4);
    forall i, j | 0 <= i < j < |r| ensures r[i] != r[j] {
      assert r[i][4] == Approaches[i] && r[j][4] == Approaches[j];
    }
    forall c | c in r ensures Completion(p, c) {
      var i :| 0 <= i < |r| && r[i] == c;
      CompletionFormat(p, [Approaches[i], 'Z', 'Z']);
      assert c[..4] == p;
    }
  }

  /**
   * The completions are distinct, each matches the code pattern, starts
   * with the normalised prefix and ends in "ZZ"; a three-character prefix
   * gets 144 of them (under the cap of 200), a four-character one 4, and
   * any other prefix, or one with a character outside [0-9A-Z], none.
   */
  lemma DefaultsSpec(prefix: string)
    ensures var p, r := Normalize(prefix), Defaults(prefix);
      && NoDup(r)
      && (forall c :: c in r ==> Completion(p, c))
      && |r| == (if |p| == 3 && AllCodeChars(p) then 144 else if |p| == 4 && AllCodeChars(p) then 4 else 0)
  {
    var p := Normalize(prefix);
    if |p| == 3 && AllCodeChars(p) {
      Grid3Spec(p);
    } else if |p| == 4 && AllCodeChars(p) {
      Grid4Spec(p);
    }
  }
}
