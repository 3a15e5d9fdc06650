/**
 * The synonym index of pcs_index.py: the recursive walk that flattens the
 * index into items (a title path and a code list per titled term), the
 * `_keys` built from them, and `search`, which turns fuzzy matches on the
 * joined title paths back into items.
 */
module PcsIndex {
  import opened Common
  import opened Text
  import opened Fuzzy
  import opened IndexTree

  /** One stored item: `{"titles": ..., "codes": ...}`. */
  datatype Item = Item(titles: seq<string>, codes: seq<string>)

  /** One search result: a copy of the item plus the matched `path` and the integer `score`. */
  datatype Hit = Hit(titles: seq<string>, codes: seq<string>, path: string, score: int)

  // ----- the walk -----

  /** The texts of the elements that have non-empty text, stripped, in order. */
  function Texts(els: seq<Option<string>>): (r: seq<string>)
    ensures |r| <= |els|
  {
    if els == [] then []
    else
      var last := els[|els| - 1];
      Texts(els[..|els| - 1]) + (if last.Some? && last.value != "" then [Strip(last.value)] else [])
  }

  /** The codes gathered at a term: its own `code` children, then its own `codes` children. */
  function OwnCodes(node: Term): seq<string> {
    Texts(node.code) + Texts(node.codes)
  }

  /** The stripped title; "" means the term is untitled. */
  function MyTitle(node: Term): string {
    Strip(node.title)
  }

  /** The title path handed to a term's children. */
  function CurTitles(node: Term, titles: seq<string>): seq<string> {
    if MyTitle(node) != "" then titles + [MyTitle(node)] else titles
  }

  /** The items `walk(node, titles)` appends, in the order it appends them. */
  function Flatten(node: Term, titles: seq<string>): seq<Item>
    decreases node, 1
  {
    var cur := CurTitles(node, titles);
    (if MyTitle(node) != "" then [Item(cur, Dedup(OwnCodes(node)))] else []) + FlattenAll(node.terms, cur)
  }

  /** The items appended by walking each of `nodes` in turn with the same title path. */
  function FlattenAll(nodes: seq<Term>, titles: seq<string>): seq<Item>
    decreases nodes, 0
  {
    if nodes == [] then []
    else FlattenAll(nodes[..|nodes| - 1], titles) + Flatten(nodes[|nodes| - 1], titles)
  }

  /** The items of the whole index: each letter's main terms, walked under the letter's stripped title. */
  function FlattenLetters(letters: seq<Letter>): seq<Item> {
    if letters == [] then []
    else
      var last := letters[|letters| - 1];
      FlattenLetters(letters[..|letters| - 1]) + FlattenAll(last.mains, [Strip(last.title)])
  }

  /** The number of terms in the tree whose stripped title is non-empty. */
  function TitledCount(node: Term): nat
    decreases node, 1
  {
    (if MyTitle(node) != "" then 1 else 0) + TitledCountAll(node.terms)
  }

  function TitledCountAll(nodes: seq<Term>): nat
    decreases nodes, 0
  {
    if nodes == [] then 0 else TitledCountAll(nodes[..|nodes| - 1]) + TitledCount(nodes[|nodes| - 1])
  }

  /**
   * An item walked under `titles`: its title path extends `titles` by at
   * least one title, every added title is non-empty, and its codes are
   * duplicate-free.
   */
  predicate ItemUnder(it: Item, titles: seq<string>) {
    && |titles| < |it.titles|
    && titles <= it.titles
    && (forall j :: |titles| <= j < |it.titles| ==> it.titles[j] != "")
    && NoDup(it.codes)
  }

  predicate ItemsUnder(items: seq<Item>, titles: seq<string>) {
    forall k :: 0 <= k < |items| ==> ItemUnder(items[k], titles)
  }

  /** An item under a longer path made of non-empty titles is also under the shorter one. */
  lemma ItemUnderWiden(it: Item, titles: seq<string>, cur: seq<string>)
    requires ItemUnder(it, cur) && titles <= cur
    requires forall j :: |titles| <= j < |cur| ==> cur[j] != ""
    ensures ItemUnder(it, titles)
  {
    assert titles == cur[..|titles|] && cur == it.titles[..|cur|];
  }

  lemma ItemsUnderConcat(a: seq<Item>, b: seq<Item>, titles: seq<string>)
    requires ItemsUnder(a, titles) && ItemsUnder(b, titles)
    ensures ItemsUnder(a + b, titles)
  {
    forall k | 0 <= k < |a + b| ensures ItemUnder((a + b)[k], titles) {
      if k >= |a| {
        assert (a + b)[k] == b[k - |a|];
      }
    }
  }

  /** The children's items are under the term's own path, so under the parent's too. */
  lemma ItemsUnderWiden(items: seq<Item>, titles: seq<string>, cur: seq<string>)
    requires ItemsUnder(items, cur) && titles <= cur
    requires forall j :: |titles| <= j < |cur| ==> cur[j] != ""
    ensures ItemsUnder(items, titles)
  {
    forall k | 0 <= k < |items| ensures ItemUnder(items[k], titles) {
      ItemUnderWiden(items[k], titles, cur);
    }
  }

  /** Every titled term yields exactly one item, and every item lies under the path it was walked with. */
  lemma {:induction false} FlattenSpec(node: Term, titles: seq<string>)
    ensures |Flatten(node, titles)| == TitledCount(node)
    ensures ItemsUnder(Flatten(node, titles), titles)
    decreases node, 1
  {
    var cur := CurTitles(node, titles);
    FlattenAllSpec(node.terms, cur);
    var own: seq<Item> := if MyTitle(node) != "" then [Item(cur, Dedup(OwnCodes(node)))] else [];
    var rest := FlattenAll(node.terms, cur);
    assert Flatten(node, titles) == own + rest;
    ItemsUnderWiden(rest, titles, cur);
    if MyTitle(node) != "" {
      assert ItemUnder(own[0], titles);
    }
    ItemsUnderConcat(own, rest, titles);
  }

  lemma {:induction false} FlattenAllSpec(nodes: seq<Term>, titles: seq<string>)
    ensures |FlattenAll(nodes, titles)| == TitledCountAll(nodes)
    ensures ItemsUnder(FlattenAll(nodes, titles), titles)
    decreases nodes, 0
  {
    if nodes != [] {
      FlattenAllSpec(nodes[..|nodes| - 1], titles);
      FlattenSpec(nodes[|nodes| - 1], titles);
      ItemsUnderConcat(FlattenAll(nodes[..|nodes| - 1], titles), Flatten(nodes[|nodes| - 1], titles), titles);
    }
  }

  /** Items come in pre-order: a titled term's own item precedes those of its sub-terms. */
  lemma PreOrder(node: Term, titles: seq<string>)
    requires MyTitle(node) != ""
    ensures Flatten(node, titles)[0] == Item(titles + [MyTitle(node)], Dedup(OwnCodes(node)))
    ensures Flatten(node, titles)[1..] == FlattenAll(node.terms, titles + [MyTitle(node)])
  {
  }

  lemma FlattenUnfold(node: Term, titles: seq<string>)
    ensures Flatten(node, titles) ==
      (if MyTitle(node) != "" then [Item(CurTitles(node, titles), Dedup(OwnCodes(node)))] else []) +
      FlattenAll(node.terms, CurTitles(node, titles))
  {
  }

  lemma FlattenAllSnoc(nodes: seq<Term>, k: nat, titles: seq<string>)
    requires k < |nodes|
    ensures FlattenAll(nodes[..k + 1], titles) == FlattenAll(nodes[..k], titles) + Flatten(nodes[k], titles)
  {
    assert nodes[..k + 1][..k] == nodes[..k];
  }

  /** `walk`: appends the term's item when it is titled, then walks its `term` children. */
  method Walk(node: Term, titles: seq<string>, items: seq<Item>) returns (items': seq<Item>)
    ensures items' == items + Flatten(node, titles)
    decreases node, 1
  {
    var myTitle := Strip(node.title);
    var curTitles := if myTitle != "" then titles + [myTitle] else titles;
    var codes := AppendTexts([], node.code);
    codes := AppendTexts(codes, node.codes);
    assert codes == OwnCodes(node);
    var own: seq<Item> := if myTitle != "" then [Item(curTitles, Dedup(codes))] else [];
    items' := WalkAll(node.terms, curTitles, items + own);
    WalkJoin(node, titles, items, curTitles, own);
  }

  /** What `Walk` appends before and while walking the children adds up to `Flatten`. */
  lemma WalkJoin(node: Term, titles: seq<string>, items: seq<Item>, cur: seq<string>, own: seq<Item>)
    requires cur == CurTitles(node, titles)
    requires own == if MyTitle(node) != "" then [Item(cur, Dedup(OwnCodes(node)))] else []
    ensures items + own + FlattenAll(node.terms, cur) == items + Flatten(node, titles)
  {
    FlattenUnfold(node, titles);
    ConcatAssoc(items, own, FlattenAll(node.terms, cur));
  }

  /** The loop `for child in ...: walk(child, cur_titles)`. */
  method WalkAll(nodes: seq<Term>, titles: seq<string>, items: seq<Item>) returns (items': seq<Item>)
    ensures items' == items + FlattenAll(nodes, titles)
    decreases nodes, 0
  {
    items' := items;
    assert nodes[..0] == [];
    for k := 0 to |nodes|
      invariant items' == items + FlattenAll(nodes[..k], titles)
    {
      FlattenAllSnoc(nodes, k, titles);
      ConcatAssoc(items, FlattenAll(nodes[..k], titles), Flatten(nodes[k], titles));
      items' := Walk(nodes[k], titles, items');
    }
    assert nodes[..|nodes|] == nodes;
  }

  /** The loop `for el in ...: if el.text: codes.append(el.text.strip())`. */
  method AppendTexts(acc: seq<string>, els: seq<Option<string>>) returns (r: seq<string>)
    ensures r == acc + Texts(els)
  {
    r := acc;
    for k := 0 to |els|
      invariant r == acc + Texts(els[..k])
    {
      assert els[..k + 1][..k] == els[..k];
      if els[k].Some? && els[k].value != "" {
        r := r + [Strip(els[k].value)];
      }
    }
    assert els[..|els|] == els;
  }

  // ----- the index -----

  /** The loaded index: the items and `_keys`. */
  datatype Index = Index(items: seq<Item>, keys: seq<string>)

  /** The search key of an item: its titles joined by " > ". */
  function Key(it: Item): string {
    Join(" > ", it.titles)
  }

  function KeysOf(items: seq<Item>): (keys: seq<string>)
    ensures |keys| == |items| && forall i :: 0 <= i < |items| ==> keys[i] == Key(items[i])
  {
    seq(|items|, i requires 0 <= i < |items| => Key(items[i]))
  }

  /** `PCSIndex.__init__`: `_keys[i]` is the joined title path of `items[i]`. */
  function NewIndex(items: seq<Item>): (index: Index)
    ensures index.items == items && |index.keys| == |items|
    ensures forall i :: 0 <= i < |items| ==> index.keys[i] == Join(" > ", items[i].titles)
  {
    Index(items, KeysOf(items))
  }

  lemma FlattenLettersSnoc(letters: seq<Letter>, l: nat)
    requires l < |letters|
    ensures FlattenLetters(letters[..l + 1]) ==
      FlattenLetters(letters[..l]) + FlattenAll(letters[l].mains, [Strip(letters[l].title)])
  {
    assert letters[..l + 1][..l] == letters[..l];
  }

  /** `from_bytes`: walks every main term of every letter, then builds the index. */
  method FromLetters(letters: seq<Letter>) returns (index: Index)
    ensures index == NewIndex(FlattenLetters(letters))
  {
    var items: seq<Item> := [];
    assert letters[..0] == [];
    for l := 0 to |letters|
      invariant items == FlattenLetters(letters[..l])
    {
      var letterTitle := Strip(letters[l].title);
      items := WalkAll(letters[l].mains, [letterTitle], items);
      FlattenLettersSnoc(letters, l);
    }
    assert letters[..|letters|] == letters;
    index := NewIndex(items);
  }

  /** A stored item: the letter title plus at least its own non-empty title, and distinct codes. */
  predicate ItemOk(it: Item) {
    |it.titles| >= 2 && it.titles[|it.titles| - 1] != "" && NoDup(it.codes)
  }

  predicate AllOk(items: seq<Item>) {
    forall k :: 0 <= k < |items| ==> ItemOk(items[k])
  }

  /** Items walked under a one-title path (a letter) are stored items. */
  lemma UnderLetterOk(items: seq<Item>, t: string)
    requires ItemsUnder(items, [t])
    ensures AllOk(items)
  {
    forall k | 0 <= k < |items| ensures ItemOk(items[k]) {
      assert ItemUnder(items[k], [t]);
    }
  }

  lemma AllOkConcat(a: seq<Item>, b: seq<Item>)
    requires AllOk(a) && AllOk(b)
    ensures AllOk(a + b)
  {
    forall k | 0 <= k < |a + b| ensures ItemOk((a + b)[k]) {
      if k >= |a| {
        assert (a + b)[k] == b[k - |a|];
      }
    }
  }

  /** Every item of the index has the letter title, at least one non-empty title of its own, and distinct codes. */
  lemma {:induction false} FlattenLettersSpec(letters: seq<Letter>)
    ensures AllOk(FlattenLetters(letters))
  {
    if letters != [] {
      var last := letters[|letters| - 1];
      FlattenLettersSpec(letters[..|letters| - 1]);
      FlattenAllSpec(last.mains, [Strip(last.title)]);
      UnderLetterOk(FlattenAll(last.mains, [Strip(last.title)]), Strip(last.title));
      AllOkConcat(FlattenLetters(letters[..|letters| - 1]), FlattenAll(last.mains, [Strip(last.title)]));
    }
  }

  // ----- search -----

  function ToHit(it: Item, m: Match): Hit {
    Hit(it.titles, it.codes, m.text, m.score)
  }

  /** The hits for matches `ms` against the item keys. */
  function HitsFor(items: seq<Item>, ms: seq<Match>): (hits: seq<Hit>)
    requires forall k :: 0 <= k < |ms| ==> ms[k].index < |items|
    ensures |hits| == |ms|
  {
    seq(|ms|, k requires 0 <= k < |ms| => ToHit(items[ms[k].index], ms[k]))
  }

  /** `search`: nothing for an empty index or a blank query; otherwise one hit per fuzzy match, in match order. */
  method Search(index: Index, extract: Extractor, query: string, limit: int, cutoff: int) returns (out: seq<Hit>)
    ensures out == SearchOf(index, extract, query, limit, cutoff)
    ensures index.items == [] || Strip(query) == "" ==> out == []
    ensures index.items != [] && Strip(query) != "" ==>
      MatchesOk(extract(query, KeysOf(index.items), limit, cutoff), KeysOf(index.items), limit, cutoff) &&
      out == HitsFor(index.items, extract(query, KeysOf(index.items), limit, cutoff))
  {
    if index.items == [] || Strip(query) == "" {
      return [];
    }
    var keys := KeysOf(index.items);
    var results := extract(query, keys, limit, cutoff);
    out := [];
    for k := 0 to |results|
      invariant out == HitsFor(index.items, results[..k])
    {
      var m := results[k];
      out := out + [ToHit(index.items[m.index], m)];
    }
    assert results[..|results|] == results;
  }

  /** Every hit is a stored item whose `path` is that item's joined titles, scored within the cutoff, and there are at most `limit`. */
  lemma HitsSpec(index: Index, extract: Extractor, query: string, limit: int, cutoff: int)
    ensures var ms := extract(query, KeysOf(index.items), limit, cutoff);
      var hits := HitsFor(index.items, ms);
      && (limit >= 0 ==> |hits| <= limit)
      && forall k :: 0 <= k < |hits| ==>
           && Item(hits[k].titles, hits[k].codes) in index.items
           && hits[k].path == Join(" > ", hits[k].titles)
           && cutoff <= hits[k].score <= 100
  {
    var ms := extract(query, KeysOf(index.items), limit, cutoff);
    assert MatchesOk(ms, KeysOf(index.items), limit, cutoff);
    var hits := HitsFor(index.items, ms);
    forall k | 0 <= k < |hits|
      ensures Item(hits[k].titles, hits[k].codes) in index.items && hits[k].path == Join(" > ", hits[k].titles)
    {
      assert hits[k] == ToHit(index.items[ms[k].index], ms[k]);
      assert Item(hits[k].titles, hits[k].codes) == index.items[ms[k].index];
    }
  }

  /** What `search` returns for a query, as a function of the index and the matcher. */
  function SearchOf(index: Index, extract: Extractor, query: string, limit: int, cutoff: int): (out: seq<Hit>)
    ensures limit >= 0 ==> |out| <= limit
  {
    if index.items == [] || Strip(query) == "" then []
    else
      var ms := extract(query, KeysOf(index.items), limit, cutoff);
      assert MatchesOk(ms, KeysOf(index.items), limit, cutoff);
      HitsFor(index.items, ms)
  }

  /** The hits of one search per query, concatenated in query order. */
  function SearchEach(index: Index, extract: Extractor, queries: seq<string>, limit: int, cutoff: int): seq<Hit> {
    if queries == [] then []
    else SearchEach(index, extract, queries[..|queries| - 1], limit, cutoff) + SearchOf(index, extract, queries[|queries| - 1], limit, cutoff)
  }

  lemma SearchEachSnoc(index: Index, extract: Extractor, queries: seq<string>, j: nat, limit: int, cutoff: int)
    requires j < |queries|
    ensures SearchEach(index, extract, queries[..j + 1], limit, cutoff)
      == SearchEach(index, extract, queries[..j], limit, cutoff) + SearchOf(index, extract, queries[j], limit, cutoff)
  {
    assert queries[..j + 1][..j] == queries[..j];
  }

  /** A hit of `search`: a stored item, its joined titles as `path`, and a score between the cutoff and 100. */
  predicate HitOk(index: Index, cutoff: int, h: Hit) {
    Item(h.titles, h.codes) in index.items && h.path == Join(" > ", h.titles) && cutoff <= h.score <= 100
  }

  /** Every hit of one search is a stored item within the cutoff. */
  lemma SearchOfOk(index: Index, extract: Extractor, query: string, limit: int, cutoff: int)
    ensures forall h :: h in SearchOf(index, extract, query, limit, cutoff) ==> HitOk(index, cutoff, h)
  {
    HitsSpec(index, extract, query, limit, cutoff);
  }

  /** Every hit of a run of searches is a stored item within the cutoff, and there are at most `limit` per query. */
  lemma SearchEachSpec(index: Index, extract: Extractor, queries: seq<string>, limit: int, cutoff: int)
    ensures limit >= 0 ==> |SearchEach(index, extract, queries, limit, cutoff)| <= |queries| * limit
    ensures forall h :: h in SearchEach(index, extract, queries, limit, cutoff) ==> HitOk(index, cutoff, h)
  {
    if limit >= 0 {
      SearchEachSize(index, extract, queries, limit, cutoff);
    }
    SearchEachOk(index, extract, queries, limit, cutoff);
  }

  /** Each query contributes at most `limit` hits. */
  lemma {:induction false} SearchEachSize(index: Index, extract: Extractor, queries: seq<string>, limit: nat, cutoff: int)
    ensures |SearchEach(index, extract, queries, limit, cutoff)| <= |queries| * limit
  {
    if queries != [] {
      var front, q := queries[..|queries| - 1], queries[|queries| - 1];
      SearchEachSize(index, extract, front, limit, cutoff);
      SearchOfOk(index, extract, q, limit, cutoff);
      MulStep(|front|, limit);
    }
  }

  /** Every hit of every query passes the cutoff and names an indexed code. */
  lemma {:induction false} SearchEachOk(index: Index, extract: Extractor, queries: seq<string>, limit: int, cutoff: int)
    ensures forall h :: h in SearchEach(index, extract, queries, limit, cutoff) ==> HitOk(index, cutoff, h)
  {
    if queries != [] {
      var front, q := queries[..|queries| - 1], queries[|queries| - 1];
      SearchEachOk(index, extract, front, limit, cutoff);
      SearchOfOk(index, extract, q, limit, cutoff);
    }
  }

  lemma MulStep(n: nat, limit: nat)
    ensures (n + 1) * limit == n * limit + limit
  {
  }
}
