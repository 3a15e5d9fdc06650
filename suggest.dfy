/**
 * suggest_from_index.py: search the synonym index with the whole note and
 * with its first fifty 2- and 3-grams, pull code-shaped tokens out of the
 * hits, keep the 7-character ones the tables accept and expand the shorter
 * ones through the tables, remember the best score per code, and rank.
 *
 * Scores are integer hundredths: a hit scored `s` (0..100) contributes
 * `s + 20` for an exact 7-character code and `s` for an expansion.
 */
module SuggestFromIndex {
  import opened Common
  import opened Text
  import opened Fuzzy
  import opened PcsTrie
  import opened PcsTables
  import opened PcsIndex

  // ----- n-grams -----

  /** `re.findall(r"[A-Za-z0-9]+", text.lower())` */
  function Tokens(text: string): (r: seq<string>)
    ensures forall k :: 0 <= k < |r| ==> |r[k]| > 0 && forall i :: 0 <= i < |r[k]| ==> IsAlnum(r[k][i])
  {
    Runs(Lower(text), IsAlnum)
  }

  /** The `k`-grams of `tokens`, left to right, each joined by single spaces. */
  function KGrams(tokens: seq<string>, k: nat): (r: seq<string>)
    requires k >= 1
    ensures |r| == if |tokens| >= k then |tokens| - k + 1 else 0
    ensures forall i :: 0 <= i < |r| ==> r[i] == Gram(tokens, i, k)
  {
    seq(if |tokens| >= k then |tokens| - k + 1 else 0, i requires 0 <= i && i + k <= |tokens| => Gram(tokens, i, k))
  }

  /** Tokens `i` to `i + k - 1` joined by single spaces. */
  function Gram(tokens: seq<string>, i: nat, k: nat): string
    requires i + k <= |tokens|
  {
    Join(" ", tokens[i..i + k])
  }

  /** All grams, for each size in `ns` in turn. */
  function Grams(tokens: seq<string>, ns: seq<nat>): seq<string>
    requires forall j :: 0 <= j < |ns| ==> ns[j] >= 1
  {
    if ns == [] then [] else Grams(tokens, ns[..|ns| - 1]) + KGrams(tokens, ns[|ns| - 1])
  }

  /** `g` is `k` consecutive tokens joined by spaces, for one of the sizes `k`. */
  ghost predicate IsGram(tokens: seq<string>, ns: seq<nat>, g: string) {
    exists j, i: nat :: 0 <= j < |ns| && i + ns[j] <= |tokens| && g == Gram(tokens, i, ns[j])
  }

  lemma {:induction false} GramsSpec(tokens: seq<string>, ns: seq<nat>, g: string)
    requires forall j :: 0 <= j < |ns| ==> ns[j] >= 1
    ensures g in Grams(tokens, ns) <==> IsGram(tokens, ns, g)
  {
    if ns != [] {
      var front, k := ns[..|ns| - 1], ns[|ns| - 1];
      GramsSpec(tokens, front, g);
      assert Grams(tokens, ns) == Grams(tokens, front) + KGrams(tokens, k);
      if g in KGrams(tokens, k) {
        var i :| 0 <= i < |KGrams(tokens, k)| && KGrams(tokens, k)[i] == g;
        assert ns[|ns| - 1] == k;
      }
      if IsGram(tokens, front, g) {
        var j, i: nat :| 0 <= j < |front| && i + front[j] <= |tokens| && g == Gram(tokens, i, front[j]);
        assert ns[j] == front[j];
      }
      if IsGram(tokens, ns, g) {
        var j, i: nat :| 0 <= j < |ns| && i + ns[j] <= |tokens| && g == Gram(tokens, i, ns[j]);
        if j < |front| {
          assert front[j] == ns[j];
        } else {
          assert KGrams(tokens, k)[i] == g;
        }
      }
    }
  }

  /** `_ngram_terms(text, n)`: the distinct grams in first-occurrence order, at most 500 of them. */
  method NgramTerms(text: string, ns: seq<nat>) returns (out: seq<string>)
    requires forall j :: 0 <= j < |ns| ==> ns[j] >= 1
    ensures out == Take(Dedup(Grams(Tokens(text), ns)), 500)
  {
    var tokens := Tokens(text);
    var grams: seq<string> := [];
    for j := 0 to |ns|
      invariant grams == Grams(tokens, ns[..j])
    {
      assert ns[..j + 1][..j] == ns[..j];
      grams := GramsInto(grams, tokens, ns[j]);
    }
    assert ns[..|ns|] == ns;
    out := DedupInOrder(grams);
    out := Take(out, 500);
  }

  /** `for i in range(len(tokens)-k+1): grams.append(" ".join(tokens[i:i+k]))` */
  method GramsInto(grams: seq<string>, tokens: seq<string>, k: nat) returns (grams': seq<string>)
    requires k >= 1
    ensures grams' == grams + KGrams(tokens, k)
  {
    var count := if |tokens| >= k then |tokens| - k + 1 else 0;
    grams' := grams;
    for i := 0 to count
      invariant grams' == grams + KGrams(tokens, k)[..i]
    {
      assert KGrams(tokens, k)[..i + 1] == KGrams(tokens, k)[..i] + [Gram(tokens, i, k)];
      ConcatAssoc(grams, KGrams(tokens, k)[..i], [Gram(tokens, i, k)]);
      grams' := grams' + [Join(" ", tokens[i..i + k])];
    }
    assert KGrams(tokens, k)[..count] == KGrams(tokens, k);
  }

  /** At most 500 distinct grams, each made of `k` consecutive tokens for some `k` in `ns`. */
  lemma NgramTermsSpec(text: string, ns: seq<nat>, out: seq<string>)
    requires forall j :: 0 <= j < |ns| ==> ns[j] >= 1
    requires out == Take(Dedup(Grams(Tokens(text), ns)), 500)
    ensures |out| <= 500 && NoDup(out)
    ensures forall g :: g in out ==> IsGram(Tokens(text), ns, g)
  {
    var d := Dedup(Grams(Tokens(text), ns));
    forall g | g in out ensures IsGram(Tokens(text), ns, g) {
      assert g in d;
      GramsSpec(Tokens(text), ns, g);
    }
  }

  // ----- code tokens -----

  /** `CODE_RE.match(tok)`: three to seven digits or upper-case letters. */
  predicate CodeToken(tok: string) {
    3 <= |tok| <= 7 && AllCodeChars(tok)
  }

  /** One `(tok, path, score)` entry of `raw`. */
  datatype Raw = Raw(tok: string, path: string, score: int)

  /** The entries for the pieces of one code string that pass `CODE_RE`. */
  function RawOfToks(toks: seq<string>, path: string, score: int): (r: seq<Raw>)
    ensures forall k :: 0 <= k < |r| ==> CodeToken(r[k].tok) && r[k].tok in toks && r[k].path == path && r[k].score == score
  {
    if toks == [] then []
    else
      var t := toks[|toks| - 1];
      RawOfToks(toks[..|toks| - 1], path, score) + (if CodeToken(t) then [Raw(t, path, score)] else [])
  }

  /** `re.split(r'[^0-9A-Z]+', c.upper())`, without the empty pieces `CODE_RE` rejects anyway. */
  function Pieces(c: string): seq<string> {
    Runs(Upper(c), IsCodeChar)
  }

  function RawOfCodes(codes: seq<string>, path: string, score: int): (r: seq<Raw>)
    ensures forall k :: 0 <= k < |r| ==> CodeToken(r[k].tok) && r[k].path == path && r[k].score == score
  {
    if codes == [] then []
    else RawOfCodes(codes[..|codes| - 1], path, score) + RawOfToks(Pieces(codes[|codes| - 1]), path, score)
  }

  /** The whole `raw` list for `base_hits`. */
  function RawOf(hits: seq<Hit>): (r: seq<Raw>)
    ensures forall k :: 0 <= k < |r| ==> CodeToken(r[k].tok) && exists j :: 0 <= j < |hits| && r[k].score == hits[j].score
  {
    if hits == [] then []
    else
      var h := hits[|hits| - 1];
      var a, b := RawOf(hits[..|hits| - 1]), RawOfCodes(h.codes, h.path, h.score);
      assert forall k :: 0 <= k < |a| ==> exists j :: 0 <= j < |hits| && a[k].score == hits[j].score by {
        forall k | 0 <= k < |a| ensures exists j :: 0 <= j < |hits| && a[k].score == hits[j].score {
          var j :| 0 <= j < |hits| - 1 && a[k].score == hits[..|hits| - 1][j].score;
          assert hits[j] == hits[..|hits| - 1][j];
        }
      }
      var r := a + b;
      assert forall k :: |a| <= k < |r| ==> r[k] == b[k - |a|] && r[k].score == hits[|hits| - 1].score;
      r
  }

  method TokensInto(raw: seq<Raw>, c: string, path: string, score: int) returns (raw': seq<Raw>)
    ensures raw' == raw + RawOfToks(Pieces(c), path, score)
  {
    var toks := Pieces(c);
    raw' := raw;
    for t := 0 to |toks|
      invariant raw' == raw + RawOfToks(toks[..t], path, score)
    {
      assert toks[..t + 1][..t] == toks[..t];
      if CodeToken(toks[t]) {
        raw' := raw' + [Raw(toks[t], path, score)];
      }
    }
    assert toks[..|toks|] == toks;
  }

  method CodesInto(raw: seq<Raw>, h: Hit) returns (raw': seq<Raw>)
    ensures raw' == raw + RawOfCodes(h.codes, h.path, h.score)
  {
    raw' := raw;
    for c := 0 to |h.codes|
      invariant raw' == raw + RawOfCodes(h.codes[..c], h.path, h.score)
    {
      assert h.codes[..c + 1][..c] == h.codes[..c];
      ConcatAssoc(raw, RawOfCodes(h.codes[..c], h.path, h.score), RawOfToks(Pieces(h.codes[c]), h.path, h.score));
      raw' := TokensInto(raw', h.codes[c], h.path, h.score);
    }
    assert h.codes[..|h.codes|] == h.codes;
  }

  /** The loops over `base_hits`, their codes and the pieces of each code. */
  method CollectRaw(hits: seq<Hit>) returns (raw: seq<Raw>)
    ensures raw == RawOf(hits)
  {
    raw := [];
    for h := 0 to |hits|
      invariant raw == RawOf(hits[..h])
    {
      assert hits[..h + 1][..h] == hits[..h];
      raw := CodesInto(raw, hits[h]);
    }
    assert hits[..|hits|] == hits;
  }

  // ----- scores -----

  /** A Python dict from codes to scores: its keys in insertion order, and the mapping. */
  datatype Scores = Scores(keys: seq<string>, m: map<string, int>)

  ghost predicate DictOk(d: Scores) {
    NoDup(d.keys) && forall c :: c in d.keys <==> c in d.m
  }

  function Max(a: int, b: int): int { if a >= b then a else b }

  /** `scored[c] = max(scored.get(c, 0), v)` */
  function Bump(d: Scores, c: string, v: int): Scores {
    Scores(if c in d.m then d.keys else d.keys + [c], d.m[c := Max(if c in d.m then d.m[c] else 0, v)])
  }

  /** The dict after recording the `(code, value)` contributions of `log` in order. */
  function Fold(log: seq<(string, int)>): Scores {
    if log == [] then Scores([], map[]) else
      var last := log[|log| - 1];
      Bump(Fold(log[..|log| - 1]), last.0, last.1)
  }

  lemma BumpOk(d: Scores, c: string, v: int)
    requires DictOk(d)
    ensures DictOk(Bump(d, c, v))
  {
    if c !in d.m {
      var ks := d.keys + [c];
      forall i, j | 0 <= i < j < |ks| ensures ks[i] != ks[j] {
        if j == |ks| - 1 {
          assert ks[i] == d.keys[i];
        }
      }
    }
  }

  /**
   * The dict holds exactly the codes that received a contribution; each
   * code's score is at least every contribution it received, and is one of
   * them unless it is the default 0.
   */
  lemma {:induction false} FoldSpec(log: seq<(string, int)>)
    ensures DictOk(Fold(log))
    ensures forall c :: c in Fold(log).m <==> exists v :: (c, v) in log
    ensures forall c, v :: (c, v) in log ==> Fold(log).m[c] >= v
    ensures forall c :: c in Fold(log).m ==> Fold(log).m[c] == 0 || (c, Fold(log).m[c]) in log
  {
    if log != [] {
      var front, last := log[..|log| - 1], log[|log| - 1];
      FoldSpec(front);
      BumpOk(Fold(front), last.0, last.1);
      assert forall p :: p in log <==> p in front || p == last;
    }
  }

  // ----- ranking -----

  /** The sort key `(-score, code)`: higher score first, then the smaller code. */
  predicate RankLe(a: (string, int), b: (string, int)) {
    a.1 > b.1 || (a.1 == b.1 && LexLe(a.0, b.0))
  }

  lemma RankLeIsTotalPreorder()
    ensures TotalPreorder(RankLe)
  {
    forall a: (string, int), b: (string, int) ensures RankLe(a, b) || RankLe(b, a) {
      LexLeTotal(a.0, b.0);
    }
    forall a: (string, int), b: (string, int), c: (string, int) | RankLe(a, b) && RankLe(b, c) ensures RankLe(a, c) {
      if a.1 == b.1 == c.1 {
        LexLeTransitive(a.0, b.0, c.0);
      }
    }
  }

  /** `scored.items()` */
  function Items(d: Scores): (r: seq<(string, int)>)
    requires DictOk(d)
    ensures |r| == |d.keys| && forall i :: 0 <= i < |r| ==> r[i] == (d.keys[i], d.m[d.keys[i]])
  {
    seq(|d.keys|, i requires 0 <= i < |d.keys| => (d.keys[i], d.m[d.keys[i]]))
  }

  function Firsts(ps: seq<(string, int)>): (r: seq<string>)
    ensures |r| == |ps| && forall i :: 0 <= i < |r| ==> r[i] == ps[i].0
  {
    seq(|ps|, i requires 0 <= i < |ps| => ps[i].0)
  }

  /** `[c for c, _ in sorted(scored.items(), key=...)[:max_codes]]` */
  function Rank(d: Scores, maxCodes: int): seq<string>
    requires DictOk(d)
  {
    Take(Firsts(Sort(Items(d), RankLe)), maxCodes)
  }

  /** The sorted items are the dict's entries, sorted by the key. */
  lemma SortedItems(d: Scores)
    requires DictOk(d)
    ensures var sorted := Sort(Items(d), RankLe);
      && SortedBy(sorted, RankLe)
      && forall i :: 0 <= i < |sorted| ==> sorted[i].0 in d.m && sorted[i] == (sorted[i].0, d.m[sorted[i].0])
  {
    var items := Items(d);
    var sorted := Sort(items, RankLe);
    RankLeIsTotalPreorder();
    SortSorted(items, RankLe);
    MultisetElements(items, sorted);
    forall i | 0 <= i < |sorted| ensures sorted[i].0 in d.m && sorted[i] == (sorted[i].0, d.m[sorted[i].0]) {
      assert sorted[i] in items;
    }
  }

  lemma RankedNoDup(d: Scores)
    requires DictOk(d)
    ensures NoDup(Firsts(Sort(Items(d), RankLe)))
  {
    var items := Items(d);
    var sorted := Sort(items, RankLe);
    var f := Firsts(sorted);
    SortedItems(d);
    assert NoDup(items) by {
      forall x, y | 0 <= x < y < |items| ensures items[x] != items[y] { }
    }
    PermutationNoDup(items, sorted);
    forall i, j | 0 <= i < j < |f| ensures f[i] != f[j] {
      assert sorted[i] != sorted[j];
    }
  }

  lemma RankedKeys(d: Scores)
    requires DictOk(d)
    ensures forall c :: c in Firsts(Sort(Items(d), RankLe)) <==> c in d.m
  {
    var items := Items(d);
    var sorted := Sort(items, RankLe);
    var f := Firsts(sorted);
    SortedItems(d);
    MultisetElements(items, sorted);
    forall c ensures c in f <==> c in d.m {
      if c in d.m {
        var i :| 0 <= i < |d.keys| && d.keys[i] == c;
        assert items[i] in sorted;
        var j :| 0 <= j < |sorted| && sorted[j] == items[i];
        assert f[j] == c;
      }
    }
  }

  /** Every dict entry appears in the ranking, each once, best first. */
  lemma RankedAll(d: Scores)
    requires DictOk(d)
    ensures var f := Firsts(Sort(Items(d), RankLe));
      && NoDup(f) && |f| == |d.keys|
      && (forall c :: c in f <==> c in d.m)
      && forall i, j :: 0 <= i < j < |f| ==> RankLe((f[i], d.m[f[i]]), (f[j], d.m[f[j]]))
  {
    SortedItems(d);
    RankedNoDup(d);
    RankedKeys(d);
    var sorted := Sort(Items(d), RankLe);
    var f := Firsts(sorted);
    forall i, j | 0 <= i < j < |f| ensures RankLe((f[i], d.m[f[i]]), (f[j], d.m[f[j]])) {
      assert RankLe(sorted[i], sorted[j]);
    }
  }

  /**
   * The ranking has no duplicates, only scored codes, best first by
   * (score descending, code ascending), at most `maxCodes` of them, and
   * every scored code left out ranks after every code kept.
   */
  lemma RankSpec(d: Scores, maxCodes: int)
    requires DictOk(d)
    ensures var r := Rank(d, maxCodes);
      && NoDup(r)
      && (forall c :: c in r ==> c in d.m)
      && (forall i, j :: 0 <= i < j < |r| ==> RankLe((r[i], d.m[r[i]]), (r[j], d.m[r[j]])))
      && (maxCodes >= 0 ==> |r| == if maxCodes < |d.keys| then maxCodes else |d.keys|)
      && forall i, c :: 0 <= i < |r| && c in d.m && c !in r ==> RankLe((r[i], d.m[r[i]]), (c, d.m[c]))
  {
    RankedAll(d);
    RankTake(d, Firsts(Sort(Items(d), RankLe)), maxCodes);
  }

  /** A prefix of the full ranking keeps its order and ranks before everything it leaves out. */
  lemma RankTake(d: Scores, f: seq<string>, maxCodes: int)
    requires NoDup(f) && (forall c :: c in f <==> c in d.m)
    requires forall i, j :: 0 <= i < j < |f| ==> RankLe((f[i], d.m[f[i]]), (f[j], d.m[f[j]]))
    ensures var r := Take(f, maxCodes);
      && NoDup(r)
      && (forall c :: c in r ==> c in d.m)
      && (forall i, j :: 0 <= i < j < |r| ==> RankLe((r[i], d.m[r[i]]), (r[j], d.m[r[j]])))
      && forall i, c :: 0 <= i < |r| && c in d.m && c !in r ==> RankLe((r[i], d.m[r[i]]), (c, d.m[c]))
  {
    var r := Take(f, maxCodes);
    assert r == f[..|r|];
    forall i, c | 0 <= i < |r| && c in d.m && c !in r ensures RankLe((r[i], d.m[r[i]]), (c, d.m[c])) {
      var j :| 0 <= j < |f| && f[j] == c;
      assert j >= |r|;
      assert r[i] == f[i];
    }
  }

  // ----- scoring loop -----

  /** A contribution `v` to code `c` made by the raw entry `r`: exact and accepted, or expanded from a shorter token. */
  predicate From(r: Raw, c: string, v: int) {
    (c == r.tok && |c| == 7 && v == r.score + 20) || (3 <= |r.tok| <= 6 && r.tok <= c && v == r.score)
  }

  ghost predicate Justified(raw: seq<Raw>, c: string, v: int) {
    exists k :: 0 <= k < |raw| && From(raw[k], c, v)
  }

  /** `len(tok) == 7 and engine.is_valid(tok)` for a token of code characters. */
  method ValidToken(engine: TablesEngine, tok: string) returns (valid: bool)
    requires engine.Valid() && AllCodeChars(tok)
    ensures valid <==> |tok| == 7 && tok in engine.trie.codes
  {
    NormalizeCode(tok);
    valid := |tok| == 7 && engine.IsValid(tok);
  }

  /** `engine.expand(tok, limit=80)` for a token of code characters. */
  method ExpandToken(engine: TablesEngine, tok: string) returns (codes: seq<string>)
    requires engine.Valid() && AllCodeChars(tok)
    ensures ExpansionOf(engine.trie.codes, tok, 80, codes)
  {
    NormalizeCode(tok);
    codes := engine.Expand(tok, 80);
  }

  /**
   * The contributions of one raw entry, given the codes `expand` returned
   * for it: the exact token with its bonus when the tables accept it,
   * otherwise each expansion of a three- to six-character token at the
   * entry's score, otherwise nothing.
   */
  ghost function EntryLog(r: Raw, codes: set<string>, e: seq<string>): seq<(string, int)> {
    if |r.tok| == 7 && r.tok in codes then [(r.tok, r.score + 20)]
    else if 3 <= |r.tok| <= 6 then seq(|e|, i requires 0 <= i < |e| => (e[i], r.score))
    else []
  }

  /** The contributions of all raw entries in order, `exps[k]` being what `expand` returned for entry `k`. */
  ghost function LogOf(raw: seq<Raw>, codes: set<string>, exps: seq<seq<string>>): seq<(string, int)>
    requires |exps| == |raw|
  {
    if raw == [] then []
    else LogOf(raw[..|raw| - 1], codes, exps[..|exps| - 1]) + EntryLog(raw[|raw| - 1], codes, exps[|exps| - 1])
  }

  /** Each expansion recorded for a three- to six-character token is one `expand(tok, limit=80)` may return. */
  ghost predicate ExpansionsOk(raw: seq<Raw>, codes: set<string>, exps: seq<seq<string>>) {
    |exps| == |raw| && forall k :: 0 <= k < |raw| && 3 <= |raw[k].tok| <= 6 ==> ExpansionOf(codes, raw[k].tok, 80, exps[k])
  }

  /** The `scored` dict the loop builds from those contributions. */
  ghost function ScoredOf(raw: seq<Raw>, codes: set<string>, exps: seq<seq<string>>): (d: Scores)
    requires |exps| == |raw|
    ensures DictOk(d)
  {
    FoldSpec(LogOf(raw, codes, exps));
    Fold(LogOf(raw, codes, exps))
  }

  lemma LogOfSnoc(raw: seq<Raw>, codes: set<string>, exps: seq<seq<string>>, k: nat, e: seq<string>)
    requires k < |raw| && |exps| == k
    ensures LogOf(raw[..k + 1], codes, exps + [e]) == LogOf(raw[..k], codes, exps) + EntryLog(raw[k], codes, e)
  {
    assert raw[..k + 1][..k] == raw[..k];
    assert (exps + [e])[..k] == exps;
  }

  lemma ExpansionsSnoc(raw: seq<Raw>, codes: set<string>, exps: seq<seq<string>>, k: nat, e: seq<string>)
    requires k < |raw| && ExpansionsOk(raw[..k], codes, exps)
    requires 3 <= |raw[k].tok| <= 6 ==> ExpansionOf(codes, raw[k].tok, 80, e)
    ensures ExpansionsOk(raw[..k + 1], codes, exps + [e])
  {
    forall i | 0 <= i < k + 1 && 3 <= |raw[..k + 1][i].tok| <= 6
      ensures ExpansionOf(codes, raw[..k + 1][i].tok, 80, (exps + [e])[i])
    {
      if i < k {
        assert raw[..k + 1][i] == raw[..k][i];
      }
    }
  }

  lemma ExpansionsFront(raw: seq<Raw>, codes: set<string>, exps: seq<seq<string>>)
    requires raw != [] && ExpansionsOk(raw, codes, exps)
    ensures ExpansionsOk(raw[..|raw| - 1], codes, exps[..|exps| - 1])
  {
    var front := raw[..|raw| - 1];
    forall i | 0 <= i < |front| && 3 <= |front[i].tok| <= 6 ensures ExpansionOf(codes, front[i].tok, 80, exps[..|exps| - 1][i]) {
      assert front[i] == raw[i];
    }
  }

  /** What one raw entry adds to the dict: its contributions, folded in. */
  method ScoreOne(d: Scores, ghost log: seq<(string, int)>, r: Raw, engine: TablesEngine)
    returns (d': Scores, ghost e: seq<string>)
    requires engine.Valid() && CodeToken(r.tok) && d == Fold(log)
    ensures 3 <= |r.tok| <= 6 ==> ExpansionOf(engine.trie.codes, r.tok, 80, e)
    ensures d' == Fold(log + EntryLog(r, engine.trie.codes, e))
  {
    var valid := ValidToken(engine, r.tok);
    if valid {
      d', e := Bump(d, r.tok, r.score + 20), [];
      assert (log + [(r.tok, r.score + 20)])[..|log|] == log;
    } else if 3 <= |r.tok| <= 6 {
      var codes := ExpandToken(engine, r.tok);
      ghost var log';
      d', log' := BumpAll(d, log, codes, r.score);
      e := codes;
    } else {
      d', e := d, [];
      assert log + [] == log;
    }
  }

  /** The `scored` loop over `raw`: the dict of the contributions of every entry, with the expansions it used. */
  method ScoreRaw(raw: seq<Raw>, engine: TablesEngine) returns (d: Scores, ghost exps: seq<seq<string>>)
    requires engine.Valid() && forall k :: 0 <= k < |raw| ==> CodeToken(raw[k].tok)
    ensures ExpansionsOk(raw, engine.trie.codes, exps)
    ensures d == ScoredOf(raw, engine.trie.codes, exps)
  {
    d := Scores([], map[]);
    exps := [];
    ghost var codes := engine.trie.codes;
    for k := 0 to |raw|
      invariant ExpansionsOk(raw[..k], codes, exps)
      invariant d == Fold(LogOf(raw[..k], codes, exps))
    {
      ghost var e;
      d, e := ScoreOne(d, LogOf(raw[..k], codes, exps), raw[k], engine);
      LogOfSnoc(raw, codes, exps, k, e);
      ExpansionsSnoc(raw, codes, exps, k, e);
      exps := exps + [e];
    }
    assert raw[..|raw|] == raw;
  }

  /** Every contribution is to a seven-character code of the tables and is justified by a raw entry. */
  lemma {:induction false} LogOfSound(raw: seq<Raw>, codes: set<string>, exps: seq<seq<string>>)
    requires ExpansionsOk(raw, codes, exps)
    ensures forall c, v :: (c, v) in LogOf(raw, codes, exps) ==> c in codes && |c| == 7 && Justified(raw, c, v)
  {
    if raw != [] {
      var n := |raw|;
      var front := raw[..n - 1];
      ExpansionsFront(raw, codes, exps);
      LogOfSound(front, codes, exps[..n - 1]);
      forall c, v | (c, v) in LogOf(raw, codes, exps) ensures c in codes && |c| == 7 && Justified(raw, c, v) {
        if (c, v) in LogOf(front, codes, exps[..n - 1]) {
          var i :| 0 <= i < |front| && From(front[i], c, v);
          assert raw[i] == front[i];
        } else {
          assert (c, v) in EntryLog(raw[n - 1], codes, exps[n - 1]);
          assert From(raw[n - 1], c, v);
        }
      }
    }
  }

  /** The contributions of entry `k` are all in the log. */
  lemma {:induction false} LogOfHas(raw: seq<Raw>, codes: set<string>, exps: seq<seq<string>>, k: nat)
    requires |exps| == |raw| && k < |raw|
    ensures forall p :: p in EntryLog(raw[k], codes, exps[k]) ==> p in LogOf(raw, codes, exps)
  {
    var n := |raw|;
    if k < n - 1 {
      LogOfHas(raw[..n - 1], codes, exps[..n - 1], k);
      assert raw[..n - 1][k] == raw[k] && exps[..n - 1][k] == exps[k];
    }
  }

  /** An exact token that the tables accept is scored with its bonus. */
  lemma LogOfExact(raw: seq<Raw>, codes: set<string>, exps: seq<seq<string>>, k: nat)
    requires |exps| == |raw| && k < |raw| && |raw[k].tok| == 7 && raw[k].tok in codes
    ensures (raw[k].tok, raw[k].score + 20) in LogOf(raw, codes, exps)
  {
    LogOfHas(raw, codes, exps, k);
  }

  /**
   * A three- to six-character token contributes each of its expansions at
   * the entry's score: when fewer than 80 come back, that is every
   * seven-character code of the tables that starts with the token.
   */
  lemma LogOfExpanded(raw: seq<Raw>, codes: set<string>, exps: seq<seq<string>>, k: nat, c: string)
    requires ExpansionsOk(raw, codes, exps) && k < |raw| && 3 <= |raw[k].tok| <= 6
    ensures c in exps[k] ==> (c, raw[k].score) in LogOf(raw, codes, exps)
    ensures |exps[k]| < 80 && c in codes && |c| == 7 && raw[k].tok <= c ==> (c, raw[k].score) in LogOf(raw, codes, exps)
  {
    LogOfHas(raw, codes, exps, k);
    var e := exps[k];
    if c in e {
      var i :| 0 <= i < |e| && e[i] == c;
      assert EntryLog(raw[k], codes, e)[i] == (c, raw[k].score);
    }
  }

  /** `for code in ...: scored[code] = max(scored.get(code, 0), score)` */
  method BumpAll(d: Scores, ghost log: seq<(string, int)>, codes: seq<string>, score: int) returns (d': Scores, ghost log': seq<(string, int)>)
    requires d == Fold(log)
    ensures d' == Fold(log') && log' == log + seq(|codes|, i requires 0 <= i < |codes| => (codes[i], score))
    ensures forall p :: p in log' ==> p in log || (p.0 in codes && p.1 == score)
  {
    d', log' := d, log;
    for i := 0 to |codes|
      invariant d' == Fold(log') && log' == log + seq(i, j requires 0 <= j < i => (codes[j], score))
    {
      assert log + seq(i + 1, j requires 0 <= j < i + 1 => (codes[j], score)) == log' + [(codes[i], score)];
      d', log' := Bump(d', codes[i], score), log' + [(codes[i], score)];
    }
  }

  // ----- the pipeline -----

  /** The searches of `suggest_from_index`: the whole note with the default cutoff, then each of its first 50 two- and three-word grams. */
  function SearchAllOf(index: Index, extract: Extractor, note: string, topkHits: int): seq<Hit> {
    SearchOf(index, extract, note, topkHits, 70)
      + SearchEach(index, extract, Take(Take(Dedup(Grams(Tokens(note), [2, 3])), 500), 50), 5, 70)
  }

  /** Every hit is a stored item scored between 70 and 100; there are at most `topk_hits` + 250 of them. */
  lemma SearchAllSpec(index: Index, extract: Extractor, note: string, topkHits: int)
    ensures topkHits >= 0 ==> |SearchAllOf(index, extract, note, topkHits)| <= topkHits + 250
    ensures forall h :: h in SearchAllOf(index, extract, note, topkHits) ==> HitOk(index, 70, h)
  {
    var grams := Take(Take(Dedup(Grams(Tokens(note), [2, 3])), 500), 50);
    SearchOfOk(index, extract, note, topkHits, 70);
    SearchEachSpec(index, extract, grams, 5, 70);
  }

  /** The index searches of `suggest_from_index`, all hits in order. */
  method SearchAll(note: string, index: Index, extract: Extractor, topkHits: int) returns (hits: seq<Hit>)
    ensures hits == SearchAllOf(index, extract, note, topkHits)
  {
    hits := Search(index, extract, note, topkHits, 70);
    var grams := NgramTerms(note, [2, 3]);
    var first := Take(grams, 50);
    ghost var base := hits;
    for j := 0 to |first|
      invariant hits == base + SearchEach(index, extract, first[..j], 5, 70)
    {
      var more := Search(index, extract, first[j], 5, 70);
      SearchEachSnoc(index, extract, first, j, 5, 70);
      ConcatAssoc(base, SearchEach(index, extract, first[..j], 5, 70), more);
      hits := hits + more;
    }
    assert first[..|first|] == first;
  }

  /**
   * `suggest_from_index`: the ranking of the dict built from the raw
   * entries of all the searches' hits, `exps` being the expansions that
   * `expand` returned. The suggestions are distinct seven-character codes
   * of the tables, at most `maxCodes` of them, best score first, then code.
   */
  method Suggest(note: string, index: Index, extract: Extractor, engine: TablesEngine, topkHits: int, maxCodes: int)
    returns (out: seq<string>, ghost exps: seq<seq<string>>)
    requires engine.Valid()
    ensures var raw := RawOf(SearchAllOf(index, extract, note, topkHits));
      && ExpansionsOk(raw, engine.trie.codes, exps)
      && out == Rank(ScoredOf(raw, engine.trie.codes, exps), maxCodes)
    ensures forall c :: c in out ==> c in engine.trie.codes && |c| == 7
    ensures NoDup(out) && (maxCodes >= 0 ==> |out| <= maxCodes)
  {
    var hits := SearchAll(note, index, extract, topkHits);
    var raw := CollectRaw(hits);
    var d;
    d, exps := ScoreRaw(raw, engine);
    out := Rank(d, maxCodes);
    RankSpec(d, maxCodes);
    LogOfSound(raw, engine.trie.codes, exps);
    FoldSpec(LogOf(raw, engine.trie.codes, exps));
    forall c | c in out ensures c in engine.trie.codes && |c| == 7 {
      var v :| (c, v) in LogOf(raw, engine.trie.codes, exps);
    }
  }
}
