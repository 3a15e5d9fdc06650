/**
 * pipeline_suggest.py: turn a note into one or two index queries, collect
 * code stems from the hits, and keep the seven-character codes the tables
 * accept, directly or by expanding a shorter stem.
 *
 * The source splits each hit's `codes` value as one string, but the index
 * returns a list there; `SuggestAsWritten` models that and `Suggest` the
 * intended per-string split.
 */
module PipelineSuggest {
  import opened Common
  import opened Text
  import opened Fuzzy
  import opened PcsTrie
  import opened PcsTables
  import opened PcsIndex

  // ----- query terms -----

  /** A character the cleaning step keeps apart from whitespace: `[A-Za-z0-9\-/]`. */
  predicate WordChar(c: char) { IsAlnum(c) || c == '-' || c == '/' }

  /** `re.sub(r"[^A-Za-z0-9\-/\s]", " ", text)` */
  function Blank(s: string): (r: string)
    ensures |r| == |s| && forall i :: 0 <= i < |s| ==> r[i] == if WordChar(s[i]) || IsSpace(s[i]) then s[i] else ' '
  {
    seq(|s|, i requires 0 <= i < |s| => if WordChar(s[i]) || IsSpace(s[i]) then s[i] else ' ')
  }

  /**
   * `re.sub(r"\s+", " ", Blank(text)).strip()`: collapsing every whitespace
   * run to one space and stripping the ends leaves the whitespace-separated
   * words joined by single spaces.
   */
  function Clean(text: string): string {
    Join(" ", SplitWhitespace(Blank(text)))
  }

  /** Only word characters and single inner spaces. */
  predicate CleanText(s: string) {
    && (forall i :: 0 <= i < |s| ==> WordChar(s[i]) || s[i] == ' ')
    && (forall i :: 0 <= i < |s| - 1 ==> s[i] == ' ' ==> s[i + 1] != ' ')
    && (s == [] || (s[0] != ' ' && s[|s| - 1] != ' '))
  }

  predicate Word(w: string) {
    |w| > 0 && forall i :: 0 <= i < |w| ==> WordChar(w[i])
  }

  lemma {:induction false} JoinWordsClean(ws: seq<string>)
    requires forall k :: 0 <= k < |ws| ==> Word(ws[k])
    ensures CleanText(Join(" ", ws))
    ensures |ws| > 0 ==> |Join(" ", ws)| > 0
  {
    if |ws| > 1 {
      JoinWordsClean(ws[1..]);
      var w, rest := ws[0], Join(" ", ws[1..]);
      var s := w + " " + rest;
      assert Join(" ", ws) == s;
      assert Word(w);
      forall i | 0 <= i < |s| ensures WordChar(s[i]) || s[i] == ' ' {
        if i < |w| {
          assert s[i] == w[i];
        } else if i > |w| {
          assert s[i] == rest[i - |w| - 1];
        }
      }
      forall i | 0 <= i < |s| - 1 && s[i] == ' ' ensures s[i + 1] != ' ' {
        if i == |w| {
          assert s[i + 1] == rest[0];
        } else if i > |w| {
          assert s[i] == rest[i - |w| - 1] && s[i + 1] == rest[i - |w|];
        }
      }
      assert s[0] == w[0] && s[|s| - 1] == rest[|rest| - 1];
    }
  }

  /** The cleaned text holds only letters, digits, '-', '/' and single inner spaces. */
  lemma CleanSpec(text: string)
    ensures CleanText(Clean(text))
  {
    var b := Blank(text);
    var ws := SplitWhitespace(b);
    RunsFrom(b, NotSpace);
    forall k | 0 <= k < |ws| ensures Word(ws[k]) {
      forall i | 0 <= i < |ws[k]| ensures WordChar(ws[k][i]) {
        assert ws[k][i] in b && !IsSpace(ws[k][i]);
      }
    }
    JoinWordsClean(ws);
  }

  /** `re.split(r"[.;\n]", s)`: the pieces between separators, empty ones included. */
  predicate IsSep(c: char) { c == '.' || c == ';' || c == '\n' }

  function Chunks(s: string): (r: seq<string>)
    ensures |r| >= 1
  {
    if s == [] then [""]
    else
      var rest := Chunks(s[1..]);
      if IsSep(s[0]) then [""] + rest else [[s[0]] + rest[0]] + rest[1..]
  }

  lemma {:induction false} ChunksNoSep(s: string)
    requires forall i :: 0 <= i < |s| ==> !IsSep(s[i])
    ensures Chunks(s) == [s]
  {
    if s != [] {
      ChunksNoSep(s[1..]);
      assert [s[0]] + s[1..] == s;
    }
  }

  /** The keyword stems of the source, in its order. */
  const Keywords: seq<string> := [
    "arthro", "arthros", "debrid", "biopsy", "excision", "extraction", "resection",
    "fusion", "arthrodesis", "arthroplasty", "open", "percutaneous", "endoscopic",
    "arthroscopic", "laparosc", "insertion", "repair", "replacement", "supplement",
    "transfer", "bypass", "dilation", "drainage"]

  /** A chunk worth its own query: six characters or more and a keyword stem inside. */
  predicate Relevant(c: string) {
    |c| >= 6 && exists w :: w in Keywords && Contains(Lower(c), w)
  }

  /** The kept, stripped chunks. */
  function KeepOf(chunks: seq<string>): (r: seq<string>)
    ensures |r| <= |chunks|
  {
    if chunks == [] then []
    else
      var c := Strip(chunks[|chunks| - 1]);
      KeepOf(chunks[..|chunks| - 1]) + (if Relevant(c) then [c] else [])
  }

  /** The query terms `_extract_terms` returns. */
  function Terms(text: string): seq<string> {
    var t := Clean(text);
    Dedup(KeepOf(Chunks(t)) + [Take(t, 4000)])
  }

  /** `_extract_terms` */
  method ExtractTerms(text: string) returns (out: seq<string>)
    ensures out == Terms(text)
  {
    var t := Clean(text);
    var chunks := Chunks(t);
    var keep: seq<string> := [];
    for k := 0 to |chunks|
      invariant keep == KeepOf(chunks[..k])
    {
      assert chunks[..k + 1][..k] == chunks[..k];
      var c := Strip(chunks[k]);
      if Relevant(c) {
        keep := keep + [c];
      }
    }
    assert chunks[..|chunks|] == chunks;
    keep := keep + [Take(t, 4000)];
    out := DedupInOrder(keep);
  }

  /**
   * Since the cleaning removed every separator, there is one chunk: the
   * terms are the whole cleaned text when it is relevant, and its first
   * 4000 characters, without repeats; so one or two distinct terms, the
   * bounded text always among them.
   */
  /** The cleaned text is one chunk and is already stripped. */
  lemma CleanOneChunk(text: string)
    ensures Chunks(Clean(text)) == [Clean(text)] && Strip(Clean(text)) == Clean(text)
  {
    var t := Clean(text);
    CleanSpec(text);
    ChunksNoSep(t);
    assert t == [] || (!IsSpace(t[0]) && !IsSpace(t[|t| - 1]));
    TrimStartNoop(t, IsSpace);
    TrimEndNoop(t, IsSpace);
  }

  lemma TermsSpec(text: string)
    ensures var t := Clean(text);
      && 1 <= |Terms(text)| <= 2 && NoDup(Terms(text))
      && Take(t, 4000) in Terms(text)
      && (forall x :: x in Terms(text) <==> x == Take(t, 4000) || (x == t && Relevant(t)))
  {
    var t := Clean(text);
    CleanOneChunk(text);
    assert [t][..0] == [];
    assert KeepOf([t]) == if Relevant(t) then [t] else [];
  }

  // ----- stems -----

  /** `re.sub(r"[^0-9A-Z]", "", s)` */
  function CodeCharsOf(s: string): (r: string)
    ensures |r| <= |s| && AllCodeChars(r)
  {
    if s == [] then []
    else CodeCharsOf(s[..|s| - 1]) + (if IsCodeChar(s[|s| - 1]) then [s[|s| - 1]] else [])
  }

  /** The token a whitespace-separated piece contributes, upper-cased and reduced to code characters. */
  function Token(c: string): string {
    CodeCharsOf(Upper(c))
  }

  /** A piece already made of code characters is its own token. */
  lemma {:induction false} CodeCharsOfCode(s: string)
    requires AllCodeChars(s)
    ensures CodeCharsOf(s) == s
  {
    if s != [] {
      CodeCharsOfCode(s[..|s| - 1]);
      assert s[..|s| - 1] + [s[|s| - 1]] == s;
    }
  }

  lemma TokenOfCode(s: string)
    requires AllCodeChars(s)
    ensures Token(s) == s
  {
    UpperCodeChars(s);
    CodeCharsOfCode(s);
  }

  predicate Stem(s: string) { 1 <= |s| <= 7 && AllCodeChars(s) }

  function StemsOfPieces(ps: seq<string>): (r: set<string>)
    ensures forall s :: s in r ==> Stem(s)
  {
    if ps == [] then {}
    else
      var t := Token(ps[|ps| - 1]);
      StemsOfPieces(ps[..|ps| - 1]) + (if 1 <= |t| <= 7 then {t} else {})
  }

  /** The stems of one hit: each code string split on whitespace. */
  function StemsOfCodes(codes: seq<string>): (r: set<string>)
    ensures forall s :: s in r ==> Stem(s)
  {
    if codes == [] then {}
    else StemsOfCodes(codes[..|codes| - 1]) + StemsOfPieces(SplitWhitespace(codes[|codes| - 1]))
  }

  function StemsOf(hits: seq<Hit>): (r: set<string>)
    ensures forall s :: s in r ==> Stem(s)
  {
    if hits == [] then {}
    else StemsOf(hits[..|hits| - 1]) + StemsOfCodes(hits[|hits| - 1].codes)
  }

  method PiecesInto(stems: set<string>, code: string) returns (stems': set<string>)
    ensures stems' == stems + StemsOfPieces(SplitWhitespace(code))
  {
    var ps := SplitWhitespace(code);
    stems' := stems;
    for k := 0 to |ps|
      invariant stems' == stems + StemsOfPieces(ps[..k])
    {
      assert ps[..k + 1][..k] == ps[..k];
      var token := Token(ps[k]);
      if 1 <= |token| <= 7 {
        stems' := stems' + {token};
      }
    }
    assert ps[..|ps|] == ps;
  }

  /** The loops over the hits and their code strings, splitting each string. */
  method CollectStems(hits: seq<Hit>) returns (stems: set<string>)
    ensures stems == StemsOf(hits)
  {
    stems := {};
    for h := 0 to |hits|
      invariant stems == StemsOf(hits[..h])
    {
      assert hits[..h + 1][..h] == hits[..h];
      var codes := hits[h].codes;
      ghost var base := stems;
      for c := 0 to |codes|
        invariant stems == base + StemsOfCodes(codes[..c])
      {
        assert codes[..c + 1][..c] == codes[..c];
        stems := PiecesInto(stems, codes[c]);
      }
      assert codes[..|codes|] == codes;
    }
    assert hits[..|hits|] == hits;
  }

  // ----- validation and expansion -----

  /** `len(s) == 7 and engine.is_valid(s)` for a stem. */
  method ValidStem(engine: TablesEngine, s: string) returns (valid: bool)
    requires engine.Valid() && AllCodeChars(s)
    ensures valid <==> |s| == 7 && s in engine.trie.codes
  {
    NormalizeCode(s);
    valid := |s| == 7 && engine.IsValid(s);
  }

  /** The expansions of a stem that `is_valid` accepts, each added once; `exp` is what `expand(s, limit=500)` returned. */
  method AddExpansions(engine: TablesEngine, s: string, final: seq<string>) returns (final': seq<string>, ghost exp: seq<string>)
    requires engine.Valid() && AllCodeChars(s) && NoDup(final)
    ensures ExpansionOf(engine.trie.codes, s, 500, exp)
    ensures NoDup(final') && final <= final'
    ensures forall e :: e in final' ==> e in final || (engine.IsValid(e) && e in exp)
    ensures forall e :: e in exp && engine.IsValid(e) ==> e in final'
  {
    NormalizeCode(s);
    var codes := engine.Expand(s, 500);
    exp := codes;
    final' := final;
    for i := 0 to |codes|
      invariant NoDup(final') && final <= final'
      invariant forall e :: e in final' ==> e in final || (engine.IsValid(e) && e in codes)
      invariant ValidKept(engine, codes, i, final')
    {
      ghost var prev := final';
      if engine.IsValid(codes[i]) && codes[i] !in final' {
        final' := final' + [codes[i]];
      }
      ValidKeptStep(engine, codes, i, prev, final');
    }
    assert codes[..|codes|] == codes;
  }

  /** Each of the first `i` expansions that `is_valid` accepts is in `final`. */
  ghost predicate ValidKept(engine: TablesEngine, codes: seq<string>, i: nat, final: seq<string>)
    reads engine.trie
    requires engine.Valid() && i <= |codes|
  {
    forall e :: e in codes[..i] && engine.IsValid(e) ==> e in final
  }

  lemma ValidKeptStep(engine: TablesEngine, codes: seq<string>, i: nat, prev: seq<string>, final: seq<string>)
    requires engine.Valid() && i < |codes| && ValidKept(engine, codes, i, prev) && prev <= final
    requires engine.IsValid(codes[i]) ==> codes[i] in final
    ensures ValidKept(engine, codes, i + 1, final)
  {
    assert codes[..i + 1] == codes[..i] + [codes[i]];
    forall e | e in codes[..i] ensures e in prev ==> e in final {
      if e in prev {
        var m :| 0 <= m < |prev| && prev[m] == e;
        assert final[m] == e;
      }
    }
  }

  /** The accepted codes collected so far: distinct seven-character codes of the tables that `is_valid` accepts. */
  ghost predicate Accepted(engine: TablesEngine, final: seq<string>)
    reads engine.trie
    requires engine.Valid()
  {
    NoDup(final) && forall e :: e in final ==> engine.IsValid(e) && e in engine.trie.codes && |e| == 7
  }

  /** Stem `s` was expanded to `exp` by `expand(s, limit=500)`, and every code of it that `is_valid` accepts is in `final`. */
  ghost predicate Expanded(engine: TablesEngine, s: string, exp: seq<string>, final: seq<string>)
    reads engine.trie
    requires engine.Valid()
  {
    ExpansionOf(engine.trie.codes, s, 500, exp) && forall e :: e in exp && engine.IsValid(e) ==> e in final
  }

  /** A seven-character stem of the tables passes `is_valid`, which leaves code characters unchanged. */
  lemma ValidStemAccepted(engine: TablesEngine, s: string)
    requires engine.Valid() && AllCodeChars(s) && |s| == 7 && s in engine.trie.codes
    ensures engine.IsValid(s)
  {
    NormalizeCode(s);
  }

  /** One step of the `for s in stems` loop. */
  method FinalizeStem(engine: TablesEngine, s: string, final: seq<string>) returns (final': seq<string>, ghost exp: seq<string>)
    requires engine.Valid() && Stem(s) && Accepted(engine, final)
    ensures Accepted(engine, final') && final <= final'
    ensures |s| == 7 && s in engine.trie.codes ==> s in final'
    ensures |s| < 7 ==> Expanded(engine, s, exp, final')
    ensures forall e :: e in final' ==> e in final || (|s| == 7 && e == s) || (|s| < 7 && e in exp)
  {
    var valid := ValidStem(engine, s);
    final', exp := final, [];
    if valid {
      ValidStemAccepted(engine, s);
      if s !in final {
        final' := final + [s];
        AcceptedSnoc(engine, final, s);
      }
    } else if |s| < 7 {
      final', exp := AddExpansions(engine, s, final);
      ExpansionsAccepted(engine, s, final, final', exp);
    }
  }

  lemma AcceptedSnoc(engine: TablesEngine, final: seq<string>, s: string)
    requires engine.Valid() && Accepted(engine, final) && s !in final
    requires engine.IsValid(s) && s in engine.trie.codes && |s| == 7
    ensures Accepted(engine, final + [s])
  {
  }

  /** Adding accepted expansions of `s` keeps the codes accepted. */
  lemma ExpansionsAccepted(engine: TablesEngine, s: string, final: seq<string>, final': seq<string>, exp: seq<string>)
    requires engine.Valid() && Accepted(engine, final) && ExpansionOf(engine.trie.codes, s, 500, exp)
    requires NoDup(final') && forall e :: e in final' ==> e in final || (engine.IsValid(e) && e in exp)
    ensures Accepted(engine, final')
  {
  }

  /**
   * Code `e` was added by the loop over `stems`: it is a seven-character
   * stem itself, or `expand` returned it for a shorter stem.
   */
  ghost predicate Sourced(stems: set<string>, exps: map<string, seq<string>>, e: string) {
    (e in stems && |e| == 7) || exists s :: s in stems && |s| < 7 && s in exps && e in exps[s]
  }

  /** A code that is a stem or an expansion of one extends that stem. */
  lemma SourcedFromStem(engine: TablesEngine, stems: set<string>, exps: map<string, seq<string>>, final: seq<string>, e: string)
    requires engine.Valid() && forall s :: s in stems && |s| < 7 ==> s in exps && Expanded(engine, s, exps[s], final)
    requires Sourced(stems, exps, e)
    ensures exists s :: s in stems && s <= e
  {
    if !(e in stems && |e| == 7) {
      var s :| s in stems && |s| < 7 && s in exps && e in exps[s];
      assert s <= e;
    }
  }

  /** What the `for s in stems` loop has built once it has handled the stems in `done`. */
  ghost predicate FinalizedOver(engine: TablesEngine, done: set<string>, final: seq<string>, exps: map<string, seq<string>>)
    reads engine.trie
    requires engine.Valid()
  {
    && Accepted(engine, final)
    && (forall s :: s in done && |s| == 7 && s in engine.trie.codes ==> s in final)
    && (forall s :: s in done && |s| < 7 ==> s in exps && Expanded(engine, s, exps[s], final))
    && (forall e :: e in final ==> Sourced(done, exps, e))
  }

  /**
   * The `for s in stems` loop: every accepted 7-character stem, and every
   * accepted expansion of a shorter one, `exps[s]` being what `expand`
   * returned for stem `s`.
   */
  method Finalize(engine: TablesEngine, stems: set<string>) returns (final: seq<string>, ghost exps: map<string, seq<string>>)
    requires engine.Valid() && forall s :: s in stems ==> Stem(s)
    ensures Accepted(engine, final)
    ensures forall s :: s in stems && |s| == 7 ==> (s in final <==> s in engine.trie.codes)
    ensures forall s :: s in stems && |s| < 7 ==> s in exps && Expanded(engine, s, exps[s], final)
    ensures forall e :: e in final ==> Sourced(stems, exps, e)
  {
    final, exps := FinalizeAll(engine, stems);
    FinalizedAll(engine, stems, final, exps);
  }

  /** The loop itself, which handles every stem. */
  method FinalizeAll(engine: TablesEngine, stems: set<string>) returns (final: seq<string>, ghost exps: map<string, seq<string>>)
    requires engine.Valid() && forall s :: s in stems ==> Stem(s)
    ensures FinalizedOver(engine, stems, final, exps)
  {
    var rest := stems;
    ghost var done: set<string> := {};
    final, exps := [], map[];
    while rest != {}
      invariant rest + done == stems && rest !! done
      invariant FinalizedOver(engine, done, final, exps)
      decreases |rest|
    {
      var s :| s in rest;
      assert s !in done;
      final, exps := FinalizeNext(engine, s, done, final, exps);
      DisjointMove(rest, done, stems, s);
      rest, done := rest - {s}, done + {s};
    }
    assert done == stems;
  }

  lemma DisjointMove(rest: set<string>, done: set<string>, stems: set<string>, s: string)
    requires rest + done == stems && rest !! done && s in rest
    ensures (rest - {s}) + (done + {s}) == stems && (rest - {s}) !! (done + {s})
  {
  }

  /** One pass of the loop: stem `s` joins the handled stems. */
  method FinalizeNext(engine: TablesEngine, s: string, ghost done: set<string>, final: seq<string>, ghost exps: map<string, seq<string>>)
    returns (final': seq<string>, ghost exps': map<string, seq<string>>)
    requires engine.Valid() && Stem(s) && s !in done && FinalizedOver(engine, done, final, exps)
    ensures FinalizedOver(engine, done + {s}, final', exps')
  {
    ghost var exp;
    final', exp := FinalizeStem(engine, s, final);
    exps' := if |s| < 7 then exps[s := exp] else exps;
    FinalizedStep(engine, done, s, final, final', exps, exp, exps');
  }

  /** Once every stem is handled, `FinalizedOver` gives the promises of `Finalize`. */
  lemma FinalizedAll(engine: TablesEngine, stems: set<string>, final: seq<string>, exps: map<string, seq<string>>)
    requires engine.Valid() && FinalizedOver(engine, stems, final, exps)
    ensures Accepted(engine, final)
    ensures forall s :: s in stems && |s| == 7 ==> (s in final <==> s in engine.trie.codes)
    ensures forall s :: s in stems && |s| < 7 ==> s in exps && Expanded(engine, s, exps[s], final)
    ensures forall e :: e in final ==> Sourced(stems, exps, e)
  {
  }

  /** One pass of the loop, with `final` grown by `FinalizeStem`, keeps `FinalizedOver`. */
  lemma FinalizedStep(engine: TablesEngine, done: set<string>, s: string, prev: seq<string>, final: seq<string>,
                      exps: map<string, seq<string>>, exp: seq<string>, exps': map<string, seq<string>>)
    requires engine.Valid() && s !in done && FinalizedOver(engine, done, prev, exps)
    requires Accepted(engine, final) && prev <= final
    requires |s| == 7 && s in engine.trie.codes ==> s in final
    requires |s| < 7 ==> Expanded(engine, s, exp, final)
    requires forall e :: e in final ==> e in prev || (|s| == 7 && e == s) || (|s| < 7 && e in exp)
    requires exps' == if |s| < 7 then exps[s := exp] else exps
    ensures FinalizedOver(engine, done + {s}, final, exps')
  {
    forall t | t in done && |t| == 7 && t in engine.trie.codes ensures t in final {
      PrefixKeeps(prev, final, t);
    }
    SourcedStep(done, s, prev, final, exps, exp, exps');
    ExpandedStep(engine, done, s, prev, final, exps, exp, exps');
  }

  lemma PrefixKeeps(prev: seq<string>, final: seq<string>, e: string)
    requires prev <= final && e in prev
    ensures e in final
  {
    var m :| 0 <= m < |prev| && prev[m] == e;
    assert final[m] == e;
  }

  /** The codes gathered so far, and those stem `s` added, come from the stems seen, `s` included. */
  lemma SourcedStep(done: set<string>, s: string, prev: seq<string>, final: seq<string>,
                    exps: map<string, seq<string>>, exp: seq<string>, exps': map<string, seq<string>>)
    requires s !in done && prev <= final
    requires forall e :: e in final ==> e in prev || (|s| == 7 && e == s) || (|s| < 7 && e in exp)
    requires forall e :: e in prev ==> Sourced(done, exps, e)
    requires exps' == if |s| < 7 then exps[s := exp] else exps
    ensures forall e :: e in final ==> Sourced(done + {s}, exps', e)
  {
    forall e | e in final ensures Sourced(done + {s}, exps', e) {
      if e !in prev {
        if |s| < 7 {
          assert s in done + {s} && s in exps' && e in exps'[s];
        }
      } else if !(e in done && |e| == 7) {
        var t :| t in done && |t| < 7 && t in exps && e in exps[t];
        assert t != s && t in done + {s} && exps'[t] == exps[t];
      }
    }
  }

  /** Earlier stems stay expanded as the codes grow, and stem `s` joins them. */
  lemma ExpandedStep(engine: TablesEngine, done: set<string>, s: string, prev: seq<string>, final: seq<string>,
                     exps: map<string, seq<string>>, exp: seq<string>, exps': map<string, seq<string>>)
    requires engine.Valid() && prev <= final
    requires forall t :: t in done && |t| < 7 ==> t in exps && Expanded(engine, t, exps[t], prev)
    requires |s| < 7 ==> Expanded(engine, s, exp, final)
    requires exps' == if |s| < 7 then exps[s := exp] else exps
    ensures forall t :: t in done + {s} && |t| < 7 ==> t in exps' && Expanded(engine, t, exps'[t], final)
  {
    forall t | t in done + {s} && |t| < 7 ensures t in exps' && Expanded(engine, t, exps'[t], final) {
      if t != s {
        assert Expanded(engine, t, exps[t], prev);
        forall e | e in prev ensures e in final {
          PrefixKeeps(prev, final, e);
        }
      }
    }
  }

  /** The hits of `for t in terms: index.search(t, limit=topk)`, in order. */
  method SearchTerms(index: Index, extract: Extractor, terms: seq<string>, topk: int) returns (hits: seq<Hit>)
    ensures hits == SearchEach(index, extract, terms, topk, 70)
  {
    hits := [];
    for k := 0 to |terms|
      invariant hits == SearchEach(index, extract, terms[..k], topk, 70)
    {
      var more := Search(index, extract, terms[k], topk, 70);
      SearchEachSnoc(index, extract, terms, k, topk, 70);
      hits := hits + more;
    }
    assert terms[..|terms|] == terms;
  }

  /**
   * `suggest_codes_from_note` with each code string split on whitespace:
   * nothing without an engine or an index; otherwise, over the stems of
   * the hits of every extracted term, a strictly increasing list of
   * seven-character codes of the tables that `is_valid` accepts, in which a
   * seven-character stem appears exactly when the tables hold it, and
   * every accepted expansion of a shorter stem appears.
   */
  method Suggest(text: string, index: Option<Index>, extract: Extractor, engine: TablesEngine?, topk: int)
    returns (out: seq<string>, ghost hits: seq<Hit>, ghost exps: map<string, seq<string>>)
    requires engine != null ==> engine.Valid()
    ensures index.None? || engine == null ==> out == []
    ensures index.Some? ==> hits == SearchEach(index.value, extract, Terms(text), topk, 70)
    ensures StrictlyIncreasing(out)
    ensures engine != null ==> forall c :: c in out ==> engine.IsValid(c) && c in engine.trie.codes && |c| == 7
    ensures index.Some? && engine != null ==>
      forall s :: s in StemsOf(hits) && |s| == 7 ==> (s in out <==> s in engine.trie.codes)
    ensures index.Some? && engine != null ==>
      forall s :: s in StemsOf(hits) && |s| < 7 ==> s in exps && Expanded(engine, s, exps[s], out)
    ensures index.Some? && engine != null ==> forall c :: c in out ==> Sourced(StemsOf(hits), exps, c)
  {
    if index.None? || engine == null {
      hits := if index.Some? then SearchEach(index.value, extract, Terms(text), topk, 70) else [];
      return [], hits, map[];
    }
    var terms := ExtractTerms(text);
    var found := SearchTerms(index.value, extract, terms, topk);
    hits := found;
    var stems := CollectStems(found);
    var final;
    final, exps := Finalize(engine, stems);
    SortStringsDistinct(final);
    out := SortStrings(final);
    forall s | s in stems && |s| < 7 ensures Expanded(engine, s, exps[s], out) {
      assert Expanded(engine, s, exps[s], final);
    }
  }

  // ----- the code as written -----

  /** How the call ends: with a result, or with Python's `AttributeError`. */
  datatype Outcome = AttributeError | Returned(codes: seq<string>)

  predicate AnyCodes(hits: seq<Hit>) {
    exists k :: 0 <= k < |hits| && hits[k].codes != []
  }

  /**
   * `suggest_codes_from_note` as written: `(h.get("codes") or "").split()`
   * is applied to the list of codes itself. An empty list falls back to
   * `""`, which yields no stems; a non-empty list has no `split`, so the
   * first hit that carries a code ends the call with an `AttributeError`.
   */
  method SuggestAsWritten(text: string, index: Option<Index>, extract: Extractor, engine: TablesEngine?, topk: int)
    returns (r: Outcome, ghost hits: seq<Hit>)
    ensures index.Some? ==> hits == SearchEach(index.value, extract, Terms(text), topk, 70)
    ensures index.None? || engine == null ==> r == Returned([])
    ensures index.Some? && engine != null ==> r == if AnyCodes(hits) then AttributeError else Returned([])
  {
    hits := if index.Some? then SearchEach(index.value, extract, Terms(text), topk, 70) else [];
    if index.None? || engine == null {
      return Returned([]), hits;
    }
    var terms := ExtractTerms(text);
    var found := SearchTerms(index.value, extract, terms, topk);
    var crash := SplitsList(found);
    r := if crash then AttributeError else Returned([]);
  }

  /** The `for h in hits` loop as written: whether some hit reaches `split` on a non-empty list of codes. */
  method SplitsList(hits: seq<Hit>) returns (crash: bool)
    ensures crash == AnyCodes(hits)
  {
    for h := 0 to |hits|
      invariant forall k :: 0 <= k < h ==> hits[k].codes == []
    {
      if hits[h].codes != [] {
        return true;
      }
    }
    return false;
  }

  /** A hit carrying the single code stem "0JH": the code as written raises, the split per string finds the stem. */
  lemma AsWrittenCrashExample()
    ensures var hits := [Hit(["B", "Biopsy"], ["0JH"], "B > Biopsy", 90)];
      AnyCodes(hits) && "0JH" in StemsOf(hits)
  {
    var hits := [Hit(["B", "Biopsy"], ["0JH"], "B > Biopsy", 90)];
    assert hits[..0] == [];
    assert ["0JH"][..0] == [];
    var p := SplitWhitespace("0JH");
    SplitWhitespaceWord("0JH");
    TokenOfCode("0JH");
    assert p[..0] == [];
    assert StemsOfPieces(p) == {"0JH"};
    assert StemsOfCodes(["0JH"]) == {"0JH"};
    assert StemsOf(hits) == {"0JH"};
    assert hits[0].codes != [];
  }
}
