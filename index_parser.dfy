/**
 * The older index loader of utils/index_parser.py: the recursive `collect`
 * that turns every titled term into an `IndexEntry` (joined path, raw
 * title, and the codes, `use` synonyms and `see` texts found anywhere
 * below the term), the `corpus` of paths, and `search`, which maps fuzzy
 * matches back to entries through a path-keyed dictionary.
 */
module IndexParser {
  import opened Common
  import opened Text
  import opened Fuzzy
  import opened IndexTree

  /** `IndexEntry`. */
  datatype Entry = Entry(path: string, title: string, codes: seq<string>, uses: seq<string>, sees: seq<string>)

  // ----- descendant searches (`.//code`, `.//codes`, `.//use`, `.//see`) -----

  /** The elements `sel` picks out of a term and of all terms below it, the term's own first. */
  function Desc<X>(node: Term, sel: Term -> seq<X>): seq<X>
    decreases node, 1
  {
    sel(node) + DescAll(node.terms, sel)
  }

  function DescAll<X>(nodes: seq<Term>, sel: Term -> seq<X>): seq<X>
    decreases nodes, 0
  {
    if nodes == [] then [] else DescAll(nodes[..|nodes| - 1], sel) + Desc(nodes[|nodes| - 1], sel)
  }

  /** Whatever is found below one child is found below its parent too. */
  lemma {:induction false} DescAllHas<X>(nodes: seq<Term>, sel: Term -> seq<X>, k: nat, x: X)
    requires k < |nodes| && x in Desc(nodes[k], sel)
    ensures x in DescAll(nodes, sel)
  {
    if k < |nodes| - 1 {
      assert nodes[..|nodes| - 1][k] == nodes[k];
      DescAllHas(nodes[..|nodes| - 1], sel, k, x);
    }
  }

  lemma DescHasChild<X>(node: Term, sel: Term -> seq<X>, k: nat, x: X)
    requires k < |node.terms| && x in Desc(node.terms[k], sel)
    ensures x in Desc(node, sel)
  {
    DescAllHas(node.terms, sel, k, x);
  }

  /** `[c.strip() for c in texts if c is not None]`: one stripped text per present element. */
  function Present(xs: seq<Option<string>>): (r: seq<string>)
    ensures |r| <= |xs|
    ensures (forall i :: 0 <= i < |xs| ==> xs[i].Some?) ==> |r| == |xs|
  {
    if xs == [] then []
    else
      var last := xs[|xs| - 1];
      Present(xs[..|xs| - 1]) + (if last.Some? then [Strip(last.value)] else [])
  }

  /** Every present text is kept, stripped, duplicates included, and nothing else is. */
  lemma {:induction false} PresentMembers(xs: seq<Option<string>>)
    ensures forall s :: s in Present(xs) <==> exists x :: Some(x) in xs && s == Strip(x)
  {
    if xs != [] {
      var last := xs[|xs| - 1];
      var front := xs[..|xs| - 1];
      PresentMembers(front);
      assert xs == front + [last];
      forall s ensures s in Present(xs) <==> exists x :: Some(x) in xs && s == Strip(x) {
        if s in Present(xs) && s !in Present(front) {
          assert Some(last.value) in xs && s == Strip(last.value);
        }
        if exists x :: Some(x) in xs && s == Strip(x) {
          var x :| Some(x) in xs && s == Strip(x);
          if Some(x) !in front {
            assert Some(x) == last;
          }
        }
      }
    }
  }

  /** The elements with non-empty text, unchanged (`if u.text`). */
  function NonEmpty(xs: seq<Option<string>>): (r: seq<string>)
    ensures forall s :: s in r <==> s != "" && Some(s) in xs
  {
    if xs == [] then []
    else
      var last := xs[|xs| - 1];
      var front := xs[..|xs| - 1];
      assert forall x :: Some(x) in xs <==> Some(x) in front || Some(x) == last;
      NonEmpty(front) + (if last.Some? && last.value != "" then [last.value] else [])
  }

  function NonEmptyTexts(xs: seq<string>): (r: seq<string>)
    ensures forall s :: s in r <==> s != "" && s in xs
  {
    if xs == [] then []
    else
      var last := xs[|xs| - 1];
      assert forall x :: x in xs <==> x in xs[..|xs| - 1] || x == last;
      NonEmptyTexts(xs[..|xs| - 1]) + (if last != "" then [last] else [])
  }

  /** The codes of an entry: all `code` texts below the term, then all `codes` texts. */
  function EntryCodes(node: Term): seq<string> {
    Present(Desc(node, (t: Term) => t.code)) + Present(Desc(node, (t: Term) => t.codes))
  }

  function EntryUses(node: Term): seq<string> {
    NonEmpty(Desc(node, (t: Term) => t.uses))
  }

  function EntrySees(node: Term): seq<string> {
    NonEmptyTexts(Desc(node, (t: Term) => t.sees))
  }

  predicate PathEnd(c: char) { c == ' ' || c == '>' }

  /** `" > ".join([*path_parts, title]).strip(" >")` */
  function PathOf(parts: seq<string>, title: string): (r: string)
    ensures r == [] || (!PathEnd(r[0]) && !PathEnd(r[|r| - 1]))
  {
    StripWith(Join(" > ", parts + [title]), PathEnd)
  }

  // ----- collect -----

  /** The entries `collect(node, parts)` appends, in order. */
  function Collect(node: Term, parts: seq<string>): seq<Entry>
    decreases node, 1
  {
    (if node.title != "" then [Entry(PathOf(parts, node.title), node.title, EntryCodes(node), EntryUses(node), EntrySees(node))] else [])
    + CollectAll(node.terms, parts + [node.title])
  }

  function CollectAll(nodes: seq<Term>, parts: seq<string>): seq<Entry>
    decreases nodes, 0
  {
    if nodes == [] then [] else CollectAll(nodes[..|nodes| - 1], parts) + Collect(nodes[|nodes| - 1], parts)
  }

  /** All entries: every main term of every letter, collected under the letter's raw title. */
  function CollectLetters(letters: seq<Letter>): seq<Entry> {
    if letters == [] then []
    else
      var last := letters[|letters| - 1];
      CollectLetters(letters[..|letters| - 1]) + CollectAll(last.mains, [last.title])
  }

  /** The number of terms with a non-empty title. */
  function TitledCount(node: Term): nat
    decreases node, 1
  {
    (if node.title != "" then 1 else 0) + TitledCountAll(node.terms)
  }

  function TitledCountAll(nodes: seq<Term>): nat
    decreases nodes, 0
  {
    if nodes == [] then 0 else TitledCountAll(nodes[..|nodes| - 1]) + TitledCount(nodes[|nodes| - 1])
  }

  /** What every stored entry satisfies: a title, and a path with no ' ' or '>' at either end. */
  predicate EntryOk(e: Entry) {
    e.title != "" && (e.path == [] || (!PathEnd(e.path[0]) && !PathEnd(e.path[|e.path| - 1])))
  }

  predicate AllOk(es: seq<Entry>) {
    forall k :: 0 <= k < |es| ==> EntryOk(es[k])
  }

  lemma AllOkConcat(a: seq<Entry>, b: seq<Entry>)
    requires AllOk(a) && AllOk(b)
    ensures AllOk(a + b)
  {
    forall k | 0 <= k < |a + b| ensures EntryOk((a + b)[k]) {
      if k >= |a| {
        assert (a + b)[k] == b[k - |a|];
      }
    }
  }

  /** One entry per titled term, and only for titled terms. */
  lemma {:induction false} CollectSpec(node: Term, parts: seq<string>)
    ensures |Collect(node, parts)| == TitledCount(node)
    ensures AllOk(Collect(node, parts))
    decreases node, 1
  {
    CollectAllSpec(node.terms, parts + [node.title]);
    var own := if node.title != "" then [Entry(PathOf(parts, node.title), node.title, EntryCodes(node), EntryUses(node), EntrySees(node))] else [];
    assert Collect(node, parts) == own + CollectAll(node.terms, parts + [node.title]);
    AllOkConcat(own, CollectAll(node.terms, parts + [node.title]));
  }

  lemma {:induction false} CollectAllSpec(nodes: seq<Term>, parts: seq<string>)
    ensures |CollectAll(nodes, parts)| == TitledCountAll(nodes)
    ensures AllOk(CollectAll(nodes, parts))
    decreases nodes, 0
  {
    if nodes != [] {
      CollectAllSpec(nodes[..|nodes| - 1], parts);
      CollectSpec(nodes[|nodes| - 1], parts);
      AllOkConcat(CollectAll(nodes[..|nodes| - 1], parts), Collect(nodes[|nodes| - 1], parts));
    }
  }

  /**
   * A titled term's entry comes first, then its sub-terms collected under
   * the parts extended by its title; an untitled term yields no entry but
   * still extends the parts, with an empty segment.
   */
  lemma CollectUnfold(node: Term, parts: seq<string>)
    ensures node.title != "" ==>
      Collect(node, parts)[0] == Entry(PathOf(parts, node.title), node.title, EntryCodes(node), EntryUses(node), EntrySees(node)) &&
      Collect(node, parts)[1..] == CollectAll(node.terms, parts + [node.title])
    ensures node.title == "" ==> Collect(node, parts) == CollectAll(node.terms, parts + [""])
  {
  }

  /** The untitled middle term leaves an empty segment in its child's path. */
  lemma UntitledSegment()
    ensures Join(" > ", ["A", "", "b"]) == "A >  > b"
    ensures PathOf(["A", ""], "b") == "A >  > b"
  {
    assert Join(" > ", ["b"]) == "b";
    assert ["A", "", "b"][1..] == ["", "b"];
    assert ["", "b"][1..] == ["b"];
    assert Join(" > ", ["", "b"]) == " > b";
    var j := "A >  > b";
    assert Join(" > ", ["A", "", "b"]) == j;
    assert j[0] == 'A' && j[|j| - 1] == 'b';
    TrimStartNoop(j, PathEnd);
    TrimEndNoop(j, PathEnd);
    assert StripWith(j, PathEnd) == j;
    assert ["A", ""] + ["b"] == ["A", "", "b"];
  }

  lemma CollectAllSnoc(nodes: seq<Term>, k: nat, parts: seq<string>)
    requires k < |nodes|
    ensures CollectAll(nodes[..k + 1], parts) == CollectAll(nodes[..k], parts) + Collect(nodes[k], parts)
  {
    assert nodes[..k + 1][..k] == nodes[..k];
  }

  lemma CollectUnfoldAll(node: Term, parts: seq<string>)
    ensures Collect(node, parts) ==
      (if node.title != "" then [Entry(PathOf(parts, node.title), node.title, EntryCodes(node), EntryUses(node), EntrySees(node))] else [])
      + CollectAll(node.terms, parts + [node.title])
  {
  }

  /** `collect`: appends the term's entry when it has a title, then collects its `term` children. */
  method CollectInto(node: Term, parts: seq<string>, entries: seq<Entry>) returns (entries': seq<Entry>)
    ensures entries' == entries + Collect(node, parts)
    decreases node, 1
  {
    var title := node.title;
    var path := PathOf(parts, title);
    var own: seq<Entry> := if title != "" then [Entry(path, title, EntryCodes(node), EntryUses(node), EntrySees(node))] else [];
    CollectUnfoldAll(node, parts);
    entries' := CollectChildren(node.terms, parts + [title], entries + own);
    ConcatAssoc(entries, own, CollectAll(node.terms, parts + [title]));
  }

  /** The loop `for child in node.findall("term"): collect(child, [*path_parts, title])`. */
  method CollectChildren(nodes: seq<Term>, parts: seq<string>, entries: seq<Entry>) returns (entries': seq<Entry>)
    ensures entries' == entries + CollectAll(nodes, parts)
    decreases nodes, 0
  {
    entries' := entries;
    assert nodes[..0] == [];
    for k := 0 to |nodes|
      invariant entries' == entries + CollectAll(nodes[..k], parts)
    {
      CollectAllSnoc(nodes, k, parts);
      ConcatAssoc(entries, CollectAll(nodes[..k], parts), Collect(nodes[k], parts));
      entries' := CollectInto(nodes[k], parts, entries');
    }
    assert nodes[..|nodes|] == nodes;
  }

  // ----- the store -----

  /** `IndexStore`: the entries and the `corpus` of their paths. */
  datatype Store = Store(entries: seq<Entry>, corpus: seq<string>)

  function Paths(es: seq<Entry>): (r: seq<string>)
    ensures |r| == |es| && forall i :: 0 <= i < |es| ==> r[i] == es[i].path
  {
    seq(|es|, i requires 0 <= i < |es| => es[i].path)
  }

  /** `IndexStore.__init__`: `corpus[i]` is the path of `entries[i]`. */
  function NewStore(es: seq<Entry>): (s: Store)
    ensures s.entries == es && |s.corpus| == |es|
    ensures forall i :: 0 <= i < |es| ==> s.corpus[i] == es[i].path
  {
    Store(es, Paths(es))
  }

  lemma CollectLettersSnoc(letters: seq<Letter>, l: nat)
    requires l < |letters|
    ensures CollectLetters(letters[..l + 1]) == CollectLetters(letters[..l]) + CollectAll(letters[l].mains, [letters[l].title])
  {
    assert letters[..l + 1][..l] == letters[..l];
  }

  /** `from_bytes`: collects every main term of every letter, then builds the store. */
  method FromLetters(letters: seq<Letter>) returns (store: Store)
    ensures store == NewStore(CollectLetters(letters))
  {
    var entries: seq<Entry> := [];
    assert letters[..0] == [];
    for l := 0 to |letters|
      invariant entries == CollectLetters(letters[..l])
    {
      entries := CollectChildren(letters[l].mains, [letters[l].title], entries);
      CollectLettersSnoc(letters, l);
    }
    assert letters[..|letters|] == letters;
    store := NewStore(entries);
  }

  /** Every stored entry has a title and an end-trimmed path. */
  lemma {:induction false} CollectLettersOk(letters: seq<Letter>)
    ensures AllOk(CollectLetters(letters))
  {
    if letters != [] {
      var last := letters[|letters| - 1];
      CollectLettersOk(letters[..|letters| - 1]);
      CollectAllSpec(last.mains, [last.title]);
      AllOkConcat(CollectLetters(letters[..|letters| - 1]), CollectAll(last.mains, [last.title]));
    }
  }

  // ----- search -----

  /** `{e.path: e for e in entries}`: a later entry replaces an earlier one with the same path. */
  function PathMap(es: seq<Entry>): map<string, Entry> {
    if es == [] then map[] else PathMap(es[..|es| - 1])[es[|es| - 1].path := es[|es| - 1]]
  }

  /** `es[i]` is the last entry whose path is `p`. */
  predicate LastWith(es: seq<Entry>, i: int, p: string) {
    0 <= i < |es| && es[i].path == p && forall j :: i < j < |es| ==> es[j].path != p
  }

  lemma {:induction false} PathMapKeys(es: seq<Entry>, p: string)
    ensures p in PathMap(es) <==> exists i :: 0 <= i < |es| && es[i].path == p
  {
    if es != [] {
      var front := es[..|es| - 1];
      PathMapKeys(front, p);
      if exists i :: 0 <= i < |es| && es[i].path == p {
        var i :| 0 <= i < |es| && es[i].path == p;
        if i < |es| - 1 {
          assert front[i].path == p;
        }
      }
      if exists i :: 0 <= i < |front| && front[i].path == p {
        var i :| 0 <= i < |front| && front[i].path == p;
        assert es[i].path == p;
      }
    }
  }

  lemma {:induction false} PathMapLast(es: seq<Entry>, p: string)
    requires p in PathMap(es)
    ensures exists i :: LastWith(es, i, p) && PathMap(es)[p] == es[i]
  {
    var front, last := es[..|es| - 1], es[|es| - 1];
    if last.path == p {
      assert LastWith(es, |es| - 1, p);
    } else {
      PathMapLast(front, p);
      var i :| LastWith(front, i, p) && PathMap(front)[p] == front[i];
      assert LastWith(es, i, p);
    }
  }

  /** One search result: the matched path, its score and the entry behind it. */
  datatype Hit = Hit(path: string, score: int, entry: Entry)

  /** The hits for matches `ms`, skipping any path with no entry. */
  function HitsOf(m: map<string, Entry>, ms: seq<Match>): seq<Hit> {
    if ms == [] then []
    else
      var last := ms[|ms| - 1];
      HitsOf(m, ms[..|ms| - 1]) + (if last.text in m then [Hit(last.text, last.score, m[last.text])] else [])
  }

  /** `search`: nothing for a blank phrase; otherwise the hits for the fuzzy matches on the corpus. */
  method Search(store: Store, extract: Extractor, phrase: string, topk: int, cutoff: int) returns (hits: seq<Hit>)
    ensures Strip(phrase) == "" ==> hits == []
    ensures Strip(phrase) != "" ==> hits == HitsOf(PathMap(store.entries), extract(phrase, store.corpus, topk, cutoff))
  {
    if Strip(phrase) == "" {
      return [];
    }
    var results := extract(phrase, store.corpus, topk, cutoff);
    var pathToEntry := PathMap(store.entries);
    hits := [];
    for k := 0 to |results|
      invariant hits == HitsOf(pathToEntry, results[..k])
    {
      assert results[..k + 1][..k] == results[..k];
      var path := results[k].text;
      if path in pathToEntry {
        hits := hits + [Hit(path, results[k].score, pathToEntry[path])];
      }
    }
    assert results[..|results|] == results;
  }

  /** A hit is the last entry with the matched path. */
  ghost predicate HitOk(es: seq<Entry>, h: Hit, m: Match, cutoff: int) {
    && h.path == m.text && h.score == m.score && cutoff <= h.score <= 100
    && exists i :: LastWith(es, i, h.path) && h.entry == es[i]
  }

  /**
   * On a store built by `NewStore`, every match yields a hit (its path is
   * always in the dictionary), in match order, and the hit's entry is the
   * last entry with that path.
   */
  lemma {:induction false} HitsSpec(es: seq<Entry>, ms: seq<Match>, limit: int, cutoff: int)
    requires MatchesOk(ms, NewStore(es).corpus, limit, cutoff)
    ensures |HitsOf(PathMap(es), ms)| == |ms|
    ensures forall k :: 0 <= k < |ms| ==> HitOk(es, HitsOf(PathMap(es), ms)[k], ms[k], cutoff)
  {
    if ms != [] {
      var front, last := ms[..|ms| - 1], ms[|ms| - 1];
      assert MatchesOk(front, NewStore(es).corpus, limit, cutoff) by {
        forall k | 0 <= k < |front| ensures front[k] == ms[k] { }
      }
      HitsSpec(es, front, limit, cutoff);
      assert es[last.index].path == last.text;
      PathMapKeys(es, last.text);
      PathMapLast(es, last.text);
      var hs := HitsOf(PathMap(es), ms);
      var h := Hit(last.text, last.score, PathMap(es)[last.text]);
      assert hs == HitsOf(PathMap(es), front) + [h];
      forall k | 0 <= k < |ms| ensures HitOk(es, hs[k], ms[k], cutoff) {
        if k < |front| {
          assert hs[k] == HitsOf(PathMap(es), front)[k];
          assert ms[k] == front[k];
        }
      }
    }
  }
}
