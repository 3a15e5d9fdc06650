/**
 * utils/coder.py: the v1 coder. It queries the index store with the
 * note's phrases, proposes each full code of a hit (with the biopsy
 * qualifier rewrite), completes partial codes through the tables-lite
 * engine with an approach filter, and ranks by confidence.
 *
 * Confidences are integer hundredths: `min(0.99, score / 100)` is
 * `Min(99, score)` and `min(0.85, score / 100 - 0.05)` is `Min(85, score - 5)`.
 */
module Coder {
  import opened Common
  import opened Text
  import opened Fuzzy
  import opened IndexParser
  import opened LiteTables

  // ----- keyword hints -----

  /** `APPROACH_HINTS`, in declaration order. */
  const ApproachHints: seq<(string, string)> := [
    ("open", "0"),
    ("percutaneous", "3"),
    ("percutaneous endoscopic", "4"),
    ("endoscopic", "4"),
    ("arthroscopic", "4"),
    ("laparoscopic", "4"),
    ("external", "X")]

  /** The value of the first hint whose key occurs in `t`, or "". */
  function FirstHint(hints: seq<(string, string)>, t: string): (r: string)
    ensures r == "" || exists k :: 0 <= k < |hints| && r == hints[k].1
  {
    if hints == [] then ""
    else if Contains(t, hints[0].0) then hints[0].1
    else FirstHint(hints[1..], t)
  }

  /** `detect_approach` */
  function DetectApproach(text: string): string {
    FirstHint(ApproachHints, Lower(text))
  }

  /**
   * The first-match scan: the result is the value of hint `k` exactly when
   * key `k` occurs and no earlier key does, and "" exactly when no key occurs.
   */
  lemma {:induction false} FirstHintSpec(hints: seq<(string, string)>, t: string)
    requires forall k :: 0 <= k < |hints| ==> hints[k].1 != ""
    ensures FirstHint(hints, t) == "" <==> forall k :: 0 <= k < |hints| ==> !Contains(t, hints[k].0)
    ensures forall k :: (0 <= k < |hints| && Contains(t, hints[k].0) && (forall j :: 0 <= j < k ==> !Contains(t, hints[j].0))
      ==> FirstHint(hints, t) == hints[k].1)
  {
    if hints != [] && !Contains(t, hints[0].0) {
      FirstHintSpec(hints[1..], t);
      forall k | 0 < k < |hints| && Contains(t, hints[k].0) && (forall j :: 0 <= j < k ==> !Contains(t, hints[j].0))
        ensures FirstHint(hints, t) == hints[k].1
      {
        assert hints[1..][k - 1] == hints[k];
        forall j | 0 <= j < k - 1 ensures !Contains(t, hints[1..][j].0) {
          assert hints[1..][j] == hints[j + 1];
        }
      }
      if FirstHint(hints, t) != "" {
        var k :| 0 <= k < |hints[1..]| && Contains(t, hints[1..][k].0);
        assert hints[1..][k] == hints[k + 1];
      } else {
        forall k | 0 <= k < |hints| ensures !Contains(t, hints[k].0) {
          if k > 0 {
            assert hints[1..][k - 1] == hints[k];
          }
        }
      }
    }
  }

  /** A string occurs wherever a longer string that begins with it occurs. */
  lemma {:induction false} ContainsPrefix(t: string, a: string, b: string)
    requires a <= b && Contains(t, b)
    ensures Contains(t, a)
  {
    if !(b <= t) {
      ContainsPrefix(t[1..], a, b);
    }
  }

  /**
   * Because "percutaneous" is listed before "percutaneous endoscopic", a note
   * that says "percutaneous endoscopic" and not "open" is given approach "3",
   * never the "4" its own hint names.
   */
  lemma PercutaneousEndoscopicGivesThree(text: string)
    requires Contains(Lower(text), "percutaneous endoscopic") && !Contains(Lower(text), "open")
    ensures DetectApproach(text) == "3"
  {
    var t := Lower(text);
    ContainsPrefix(t, "percutaneous", "percutaneous endoscopic");
    var hs := ApproachHints;
    assert hs[0].0 == "open" && !Contains(t, hs[0].0);
    assert FirstHint(hs, t) == FirstHint(hs[1..], t);
    assert hs[1..][0] == ("percutaneous", "3");
    assert Contains(t, hs[1..][0].0);
  }

  /** The substrings `is_biopsy` looks for. */
  const BiopsyWords: seq<string> := ["biopsy", "bx", "diagnostic sample", "diagnostic excision"]

  /** `any(w in t for w in words)` */
  function AnyIn(words: seq<string>, t: string): bool {
    words != [] && (Contains(t, words[0]) || AnyIn(words[1..], t))
  }

  /** `is_biopsy` */
  function IsBiopsy(text: string): bool {
    AnyIn(BiopsyWords, Lower(text))
  }

  /** The any-of scan holds exactly when one of the words occurs. */
  lemma {:induction false} AnyInSpec(words: seq<string>, t: string)
    ensures AnyIn(words, t) <==> exists k :: 0 <= k < |words| && Contains(t, words[k])
  {
    if words != [] {
      AnyInSpec(words[1..], t);
      if exists k :: 0 <= k < |words| && Contains(t, words[k]) {
        var k :| 0 <= k < |words| && Contains(t, words[k]);
        if k > 0 {
          assert words[1..][k - 1] == words[k];
        }
      }
      if AnyIn(words[1..], t) {
        var k :| 0 <= k < |words[1..]| && Contains(t, words[1..][k]);
        assert words[k + 1] == words[1..][k];
      }
    }
  }

  /** `is_biopsy` holds exactly when one of its four substrings occurs in the lower-cased note. */
  lemma IsBiopsySpec(text: string)
    ensures IsBiopsy(text) <==> exists k :: 0 <= k < |BiopsyWords| && Contains(Lower(text), BiopsyWords[k])
  {
    AnyInSpec(BiopsyWords, Lower(text));
  }

  // ----- the query -----

  /** `[A-Za-z \-/]` */
  predicate PhraseChar(c: char) { IsLetter(c) || c == ' ' || c == '-' || c == '/' }

  /** `re.findall(r"[A-Za-z][A-Za-z \-/]{3,}", text)`: a letter followed by the longest run of three or more phrase characters. */
  function Phrases(s: string): (r: seq<string>)
    decreases |s|
  {
    if s == [] then []
    else if IsLetter(s[0]) && RunLen(s[1..], PhraseChar) >= 3 then
      var k := 1 + RunLen(s[1..], PhraseChar);
      [s[..k]] + Phrases(s[k..])
    else Phrases(s[1..])
  }

  /** Every phrase starts with a letter, has at least four characters and holds only phrase characters. */
  lemma {:induction false} PhrasesSpec(s: string)
    ensures forall p :: p in Phrases(s) ==> |p| >= 4 && IsLetter(p[0]) && forall i :: 0 <= i < |p| ==> PhraseChar(p[i])
    decreases |s|
  {
    if s != [] {
      if IsLetter(s[0]) && RunLen(s[1..], PhraseChar) >= 3 {
        var k := 1 + RunLen(s[1..], PhraseChar);
        PhrasesSpec(s[k..]);
        PhraseHead(s, k);
        assert Phrases(s) == [s[..k]] + Phrases(s[k..]);
      } else {
        PhrasesSpec(s[1..]);
      }
    }
  }

  /** The phrase taken at the head of `s` is a letter followed by a run of at least three phrase characters. */
  lemma PhraseHead(s: string, k: nat)
    requires s != [] && IsLetter(s[0]) && k == 1 + RunLen(s[1..], PhraseChar) && k >= 4
    ensures |s[..k]| >= 4 && IsLetter(s[..k][0]) && forall i :: 0 <= i < k ==> PhraseChar(s[..k][i])
  {
    forall i | 0 <= i < k ensures PhraseChar(s[..k][i]) {
      if i > 0 {
        assert s[..k][i] == s[1..][i - 1];
      }
    }
  }

  /** `" ".join(phrases[:60])` */
  function Query(text: string): string {
    Join(" ", Take(Phrases(text), 60))
  }

  // ----- suggestions -----

  /** One suggestion: code, confidence in hundredths, the `validated` flag, the reason and the evidence. */
  datatype Suggestion = Suggestion(code: string, confidence: int, validated: bool, why: string, evidence: seq<string>)

  function Min(a: int, b: int): int { if a <= b then a else b }

  /** `[path] + entry.uses[:2] + entry.sees[:1]` */
  function Evidence(h: Hit): seq<string> {
    [h.path] + Take(h.entry.uses, 2) + Take(h.entry.sees, 1)
  }

  function MatchedWhy(h: Hit): string {
    "Matched Index path: " + h.path + " (score " + IntToString(h.score) + ")."
  }

  function PartialWhy(c: string): string {
    "Index partial code " + c + " expanded to plausible codes (tables-lite)."
  }

  /** The biopsy rewrite: a trailing "Z" becomes "X" when the note reads as a biopsy. */
  function Rewrite(c: string, biopsy: bool): (r: string)
    ensures |r| == |c| && (c != [] ==> r[..|c| - 1] == c[..|c| - 1])
    ensures biopsy && c != [] && c[|c| - 1] == 'Z' ==> r[|r| - 1] == 'X'
    ensures !biopsy || c == [] || c[|c| - 1] != 'Z' ==> r == c
  {
    if biopsy && c != [] && c[|c| - 1] == 'Z' then c[..|c| - 1] + "X" else c
  }

  /** `[e for e in expanded if len(e) == 7 and e[4] == approach_ch]` */
  function WithApproach(expanded: seq<string>, approach: string): (r: seq<string>)
    ensures forall e :: e in r <==> e in expanded && |e| == 7 && [e[4]] == approach
  {
    if expanded == [] then []
    else
      var e := expanded[|expanded| - 1];
      WithApproach(expanded[..|expanded| - 1], approach) + (if |e| == 7 && [e[4]] == approach then [e] else [])
  }

  /** The approach filter, falling back to the unfiltered list when nothing matches. */
  function ApproachFilter(expanded: seq<string>, approach: string): (r: seq<string>)
    ensures forall e :: e in r ==> e in expanded
    ensures r == [] <==> expanded == []
    ensures approach != "" && (exists e :: e in expanded && |e| == 7 && [e[4]] == approach) ==>
      forall e :: e in r ==> |e| == 7 && [e[4]] == approach
  {
    if approach == "" then expanded
    else
      var f := WithApproach(expanded, approach);
      if f == [] then expanded else f
  }

  /** A suggestion for the full code `c` of hit `h`. */
  ghost predicate DirectOk(s: Suggestion, h: Hit, biopsy: bool, c: string) {
    |c| == 7 && s == Suggestion(Rewrite(c, biopsy), Min(99, h.score), false, MatchedWhy(h), Evidence(h))
  }

  /** A suggestion completing the partial code `c` of hit `h`. */
  ghost predicate PartialOk(s: Suggestion, h: Hit, approach: string, c: string) {
    && (|c| == 3 || |c| == 4)
    && s.code in Take(ApproachFilter(Defaults(c), approach), 5)
    && s == Suggestion(s.code, Min(85, h.score - 5), false, PartialWhy(c), Evidence(h))
  }

  /** Suggestion `s` comes from one of the hits: from a full code, or (when `partial`) from completing a partial one. */
  ghost predicate Justified(hits: seq<Hit>, approach: string, biopsy: bool, s: Suggestion, partial: bool) {
    exists h, k :: 0 <= h < |hits| && 0 <= k < |hits[h].entry.codes| &&
      var c := Normalize(hits[h].entry.codes[k]);
      if partial then PartialOk(s, hits[h], approach, c) else DirectOk(s, hits[h], biopsy, c)
  }

  /**
   * The state of the loop over the hits: `seen` holds exactly the codes
   * suggested so far, every suggestion is justified, and a completion is
   * never suggested twice nor after the same code was already suggested.
   */
  ghost predicate Inv(hits: seq<Hit>, approach: string, biopsy: bool, all: seq<Suggestion>, partial: seq<bool>, seen: set<string>) {
    && |partial| == |all|
    && (forall x :: x in seen <==> exists i :: 0 <= i < |all| && all[i].code == x)
    && (forall i :: 0 <= i < |all| ==> Justified(hits, approach, biopsy, all[i], partial[i]))
    && (forall i, j :: 0 <= i < j < |all| && partial[j] ==> all[i].code != all[j].code)
  }

  lemma SeenAppend(all: seq<Suggestion>, seen: set<string>, s: Suggestion)
    requires forall x :: x in seen <==> exists i :: 0 <= i < |all| && all[i].code == x
    ensures forall x :: x in seen + {s.code} <==> exists i :: 0 <= i < |all + [s]| && (all + [s])[i].code == x
  {
    forall x | x in seen + {s.code} ensures exists i :: 0 <= i < |all + [s]| && (all + [s])[i].code == x {
      if x == s.code {
        assert (all + [s])[|all|].code == x;
      } else {
        var i :| 0 <= i < |all| && all[i].code == x;
        assert (all + [s])[i].code == x;
      }
    }
  }

  lemma JustifiedAppend(hits: seq<Hit>, approach: string, biopsy: bool, all: seq<Suggestion>, partial: seq<bool>,
                        s: Suggestion, p: bool)
    requires |partial| == |all| && forall i :: 0 <= i < |all| ==> Justified(hits, approach, biopsy, all[i], partial[i])
    requires Justified(hits, approach, biopsy, s, p)
    ensures forall i :: 0 <= i < |all| + 1 ==> Justified(hits, approach, biopsy, (all + [s])[i], (partial + [p])[i])
  {
    forall i | 0 <= i < |all| + 1 ensures Justified(hits, approach, biopsy, (all + [s])[i], (partial + [p])[i]) {
      if i < |all| {
        assert (all + [s])[i] == all[i] && (partial + [p])[i] == partial[i];
      }
    }
  }

  lemma DistinctAppend(all: seq<Suggestion>, partial: seq<bool>, seen: set<string>, s: Suggestion, p: bool)
    requires |partial| == |all|
    requires forall x :: x in seen <==> exists i :: 0 <= i < |all| && all[i].code == x
    requires forall i, j :: 0 <= i < j < |all| && partial[j] ==> all[i].code != all[j].code
    requires p ==> s.code !in seen
    ensures forall a, b :: 0 <= a < b < |all| + 1 && (partial + [p])[b] ==> (all + [s])[a].code != (all + [s])[b].code
  {
    var all', partial' := all + [s], partial + [p];
    forall a, b | 0 <= a < b < |all'| && partial'[b] ensures all'[a].code != all'[b].code {
      if b < |all| {
        assert all'[a] == all[a] && all'[b] == all[b] && partial'[b] == partial[b];
      } else {
        assert all'[a] == all[a];
      }
    }
  }

  /** Appending a justified suggestion keeps the invariant, provided a completion's code was not seen. */
  lemma InvAppend(hits: seq<Hit>, approach: string, biopsy: bool, all: seq<Suggestion>, partial: seq<bool>, seen: set<string>,
                  s: Suggestion, p: bool)
    requires Inv(hits, approach, biopsy, all, partial, seen)
    requires Justified(hits, approach, biopsy, s, p) && (p ==> s.code !in seen)
    ensures Inv(hits, approach, biopsy, all + [s], partial + [p], seen + {s.code})
  {
    SeenAppend(all, seen, s);
    JustifiedAppend(hits, approach, biopsy, all, partial, s, p);
    DistinctAppend(all, partial, seen, s, p);
  }

  /** Some suggestion in `all` has code `x`. */
  ghost predicate Suggested(all: seq<Suggestion>, x: string) {
    exists s :: s in all && s.code == x
  }

  /**
   * Full code `k` of hit `h` has been handled: it was suggested for this
   * hit (after the biopsy rewrite), or its code had been suggested before.
   */
  ghost predicate DirectDone(hits: seq<Hit>, biopsy: bool, all: seq<Suggestion>, h: nat, k: nat)
    requires h < |hits| && k < |hits[h].entry.codes|
  {
    var c := Normalize(hits[h].entry.codes[k]);
    |c| == 7 ==> Suggested(all, c) || exists s :: s in all && DirectOk(s, hits[h], biopsy, c)
  }

  /** `tried[c]` is the list `expanded[:5]` the loop walks for the partial code `c`. */
  ghost predicate TriedOk(tried: map<string, seq<string>>, approach: string) {
    forall c :: c in tried ==> tried[c] == Take(ApproachFilter(Defaults(c), approach), 5)
  }

  /** `tried'` keeps every entry of `tried`. */
  ghost predicate Extends(tried: map<string, seq<string>>, tried': map<string, seq<string>>) {
    forall c :: c in tried ==> c in tried' && tried'[c] == tried[c]
  }

  /**
   * Partial code `k` of hit `h` has been handled: it had been suggested
   * itself, or every one of its first five completions `tried[c]` is suggested.
   */
  ghost predicate PartialDone(hits: seq<Hit>, all: seq<Suggestion>, tried: map<string, seq<string>>, h: nat, k: nat)
    requires h < |hits| && k < |hits[h].entry.codes|
  {
    var c := Normalize(hits[h].entry.codes[k]);
    (|c| == 3 || |c| == 4) ==> Suggested(all, c) || (c in tried && AllSuggested(all, tried[c]))
  }

  /** The first `n` codes of hit `h` have been handled by the first inner loop. */
  ghost predicate DirectUpTo(hits: seq<Hit>, biopsy: bool, all: seq<Suggestion>, h: nat, n: nat)
    requires h < |hits| && n <= |hits[h].entry.codes|
  {
    forall k :: 0 <= k < n ==> DirectDone(hits, biopsy, all, h, k)
  }

  /** The first `n` codes of hit `h` have been handled by the second inner loop. */
  ghost predicate PartialUpTo(hits: seq<Hit>, all: seq<Suggestion>, tried: map<string, seq<string>>, h: nat, n: nat)
    requires h < |hits| && n <= |hits[h].entry.codes|
  {
    forall k :: 0 <= k < n ==> PartialDone(hits, all, tried, h, k)
  }

  /** Every code of hit `h` has been handled by both inner loops. */
  ghost predicate HitDone(hits: seq<Hit>, biopsy: bool, all: seq<Suggestion>, tried: map<string, seq<string>>, h: nat)
    requires h < |hits|
  {
    DirectUpTo(hits, biopsy, all, h, |hits[h].entry.codes|) && PartialUpTo(hits, all, tried, h, |hits[h].entry.codes|)
  }

  /** The first `n` hits have been handled. */
  ghost predicate HitsUpTo(hits: seq<Hit>, biopsy: bool, all: seq<Suggestion>, tried: map<string, seq<string>>, n: nat)
    requires n <= |hits|
  {
    forall h :: 0 <= h < n ==> HitDone(hits, biopsy, all, tried, h)
  }

  lemma PrefixMembers(all: seq<Suggestion>, all': seq<Suggestion>)
    requires all <= all'
    ensures forall s :: s in all ==> s in all'
  {
    forall s | s in all ensures s in all' {
      var i :| 0 <= i < |all| && all[i] == s;
      assert all'[i] == s;
    }
  }

  /** What the loops have suggested stays suggested as the list grows. */
  lemma SuggestedGrow(all: seq<Suggestion>, all': seq<Suggestion>, x: string)
    requires all <= all' && Suggested(all, x)
    ensures Suggested(all', x)
  {
    PrefixMembers(all, all');
  }

  /** Every code of `xs` is suggested in `all`. */
  ghost predicate AllSuggested(all: seq<Suggestion>, xs: seq<string>) {
    forall x :: x in xs ==> Suggested(all, x)
  }

  lemma AllSuggestedStep(all: seq<Suggestion>, all': seq<Suggestion>, xs: seq<string>, i: nat)
    requires all <= all' && i < |xs| && AllSuggested(all, xs[..i]) && Suggested(all', xs[i])
    ensures AllSuggested(all', xs[..i + 1])
  {
    forall x | x in xs[..i + 1] ensures Suggested(all', x) {
      if x != xs[i] {
        assert x in xs[..i];
        SuggestedGrow(all, all', x);
      }
    }
  }

  lemma DirectDoneGrow(hits: seq<Hit>, biopsy: bool, all: seq<Suggestion>, all': seq<Suggestion>, h: nat, k: nat)
    requires all <= all' && h < |hits| && k < |hits[h].entry.codes| && DirectDone(hits, biopsy, all, h, k)
    ensures DirectDone(hits, biopsy, all', h, k)
  {
    PrefixMembers(all, all');
  }

  lemma PartialDoneGrow(hits: seq<Hit>, all: seq<Suggestion>, all': seq<Suggestion>,
                        tried: map<string, seq<string>>, tried': map<string, seq<string>>, h: nat, k: nat)
    requires all <= all' && Extends(tried, tried') && h < |hits| && k < |hits[h].entry.codes|
    requires PartialDone(hits, all, tried, h, k)
    ensures PartialDone(hits, all', tried', h, k)
  {
    var c := Normalize(hits[h].entry.codes[k]);
    if (|c| == 3 || |c| == 4) && !Suggested(all, c) {
      forall e | e in tried[c] ensures Suggested(all', e) {
        SuggestedGrow(all, all', e);
      }
    } else if |c| == 3 || |c| == 4 {
      SuggestedGrow(all, all', c);
    }
  }

  lemma HitDoneGrow(hits: seq<Hit>, biopsy: bool, all: seq<Suggestion>, all': seq<Suggestion>,
                    tried: map<string, seq<string>>, tried': map<string, seq<string>>, h: nat)
    requires all <= all' && Extends(tried, tried') && h < |hits| && HitDone(hits, biopsy, all, tried, h)
    ensures HitDone(hits, biopsy, all', tried', h)
  {
    var n := |hits[h].entry.codes|;
    DirectUpToGrow(hits, biopsy, all, all', h, n, n);
    PartialUpToGrow(hits, all, all', tried, tried', h, n, n);
  }

  /**
   * Growing the list from `all` to `all'` keeps the first `n` codes handled,
   * and code `n` handled in `all'` extends that to `n + 1`.
   */
  lemma DirectUpToGrow(hits: seq<Hit>, biopsy: bool, all: seq<Suggestion>, all': seq<Suggestion>, h: nat, n: nat, m: nat)
    requires all <= all' && h < |hits| && n <= m <= |hits[h].entry.codes| && DirectUpTo(hits, biopsy, all, h, n)
    requires m == n + 1 ==> DirectDone(hits, biopsy, all', h, n)
    requires m == n || m == n + 1
    ensures DirectUpTo(hits, biopsy, all', h, m)
  {
    forall k | 0 <= k < n ensures DirectDone(hits, biopsy, all', h, k) {
      DirectDoneGrow(hits, biopsy, all, all', h, k);
    }
  }

  lemma PartialUpToGrow(hits: seq<Hit>, all: seq<Suggestion>, all': seq<Suggestion>,
                        tried: map<string, seq<string>>, tried': map<string, seq<string>>, h: nat, n: nat, m: nat)
    requires all <= all' && Extends(tried, tried') && h < |hits| && n <= m <= |hits[h].entry.codes|
    requires PartialUpTo(hits, all, tried, h, n)
    requires m == n + 1 ==> PartialDone(hits, all', tried', h, n)
    requires m == n || m == n + 1
    ensures PartialUpTo(hits, all', tried', h, m)
  {
    forall k | 0 <= k < n ensures PartialDone(hits, all', tried', h, k) {
      PartialDoneGrow(hits, all, all', tried, tried', h, k);
    }
  }

  lemma HitsUpToGrow(hits: seq<Hit>, biopsy: bool, all: seq<Suggestion>, all': seq<Suggestion>,
                     tried: map<string, seq<string>>, tried': map<string, seq<string>>, n: nat)
    requires all <= all' && Extends(tried, tried') && n < |hits|
    requires HitsUpTo(hits, biopsy, all, tried, n) && HitDone(hits, biopsy, all', tried', n)
    ensures HitsUpTo(hits, biopsy, all', tried', n + 1)
  {
    forall h | 0 <= h < n ensures HitDone(hits, biopsy, all', tried', h) {
      HitDoneGrow(hits, biopsy, all, all', tried, tried', h);
    }
  }

  // ----- the suggestion list, step by step -----

  /** The loop's state: the suggestions so far and the set `seen`. */
  datatype Collected = Collected(all: seq<Suggestion>, seen: set<string>)

  /** `code.strip().upper()` for each code of an entry. */
  function NormCodes(codes: seq<string>): (r: seq<string>)
    ensures |r| == |codes| && forall i :: 0 <= i < |codes| ==> r[i] == Normalize(codes[i])
  {
    seq(|codes|, i requires 0 <= i < |codes| => Normalize(codes[i]))
  }

  /** The first inner loop's body for the normalised code `c` of `hit`: an unseen full code is suggested, rewritten for a biopsy. */
  function AfterDirect(hit: Hit, c: string, biopsy: bool, engine: LiteEngine, st: Collected): Collected {
    if |c| == 7 && c !in st.seen then
      var s := Suggestion(Rewrite(c, biopsy), Min(99, hit.score), IsValid(engine, c), MatchedWhy(hit), Evidence(hit));
      Collected(st.all + [s], st.seen + {s.code})
    else st
  }

  /** The first inner loop over the normalised codes `cs` of `hit`, in order. */
  function AfterDirects(hit: Hit, cs: seq<string>, biopsy: bool, engine: LiteEngine, st: Collected): Collected {
    if cs == [] then st
    else AfterDirect(hit, cs[|cs| - 1], biopsy, engine, AfterDirects(hit, cs[..|cs| - 1], biopsy, engine, st))
  }

  lemma DirectsSnoc(hit: Hit, cs: seq<string>, i: nat, biopsy: bool, engine: LiteEngine, st: Collected)
    requires i < |cs|
    ensures AfterDirects(hit, cs[..i + 1], biopsy, engine, st)
      == AfterDirect(hit, cs[i], biopsy, engine, AfterDirects(hit, cs[..i], biopsy, engine, st))
  {
    assert cs[..i + 1][..i] == cs[..i];
  }

  /** The body of `for e in expanded[:5]` for the partial code `c`: an unseen completion is suggested. */
  function AfterCompletion(hit: Hit, c: string, engine: LiteEngine, e: string, st: Collected): Collected {
    if e !in st.seen then
      Collected(st.all + [Suggestion(e, Min(85, hit.score - 5), IsValid(engine, e), PartialWhy(c), Evidence(hit))], st.seen + {e})
    else st
  }

  /** `for e in cands`, in order. */
  function AfterCompletions(hit: Hit, c: string, engine: LiteEngine, cands: seq<string>, st: Collected): Collected {
    if cands == [] then st
    else AfterCompletion(hit, c, engine, cands[|cands| - 1], AfterCompletions(hit, c, engine, cands[..|cands| - 1], st))
  }

  lemma CompletionsSnoc(hit: Hit, c: string, engine: LiteEngine, cands: seq<string>, i: nat, st: Collected)
    requires i < |cands|
    ensures AfterCompletions(hit, c, engine, cands[..i + 1], st)
      == AfterCompletion(hit, c, engine, cands[i], AfterCompletions(hit, c, engine, cands[..i], st))
  {
    assert cands[..i + 1][..i] == cands[..i];
  }

  /** `expanded[:5]` for the partial code `c`: the tables-lite defaults, filtered by approach. */
  function Completions(c: string, approach: string): seq<string> {
    Take(ApproachFilter(Defaults(c), approach), 5)
  }

  /** The second inner loop's body for the normalised code `c` of `hit`: an unseen three- or four-character code is completed. */
  function AfterPartial(hit: Hit, c: string, approach: string, engine: LiteEngine, st: Collected): Collected {
    if c in st.seen then st
    else if |c| == 3 || |c| == 4 then AfterCompletions(hit, c, engine, Completions(c, approach), st)
    else st
  }

  /** The second inner loop over the normalised codes `cs` of `hit`, in order. */
  function AfterPartials(hit: Hit, cs: seq<string>, approach: string, engine: LiteEngine, st: Collected): Collected {
    if cs == [] then st
    else AfterPartial(hit, cs[|cs| - 1], approach, engine, AfterPartials(hit, cs[..|cs| - 1], approach, engine, st))
  }

  lemma PartialsSnoc(hit: Hit, cs: seq<string>, i: nat, approach: string, engine: LiteEngine, st: Collected)
    requires i < |cs|
    ensures AfterPartials(hit, cs[..i + 1], approach, engine, st)
      == AfterPartial(hit, cs[i], approach, engine, AfterPartials(hit, cs[..i], approach, engine, st))
  {
    assert cs[..i + 1][..i] == cs[..i];
  }

  /** Both inner loops for one hit. */
  function AfterHit(hit: Hit, approach: string, biopsy: bool, engine: LiteEngine, st: Collected): Collected {
    var cs := NormCodes(hit.entry.codes);
    AfterPartials(hit, cs, approach, engine, AfterDirects(hit, cs, biopsy, engine, st))
  }

  /** The outer loop over the first `n` hits, from no suggestions. */
  function AfterHits(hits: seq<Hit>, n: nat, approach: string, biopsy: bool, engine: LiteEngine): Collected
    requires n <= |hits|
  {
    if n == 0 then Collected([], {})
    else AfterHit(hits[n - 1], approach, biopsy, engine, AfterHits(hits, n - 1, approach, biopsy, engine))
  }

  /** The unsorted suggestion list `suggest_codes` builds from its hits. */
  function AllOf(hits: seq<Hit>, approach: string, biopsy: bool, engine: LiteEngine): seq<Suggestion> {
    AfterHits(hits, |hits|, approach, biopsy, engine).all
  }

  /** The codes of a list of suggestions. */
  function CodesOf(all: seq<Suggestion>): set<string> {
    if all == [] then {} else CodesOf(all[..|all| - 1]) + {all[|all| - 1].code}
  }

  lemma {:induction false} CodesOfHas(all: seq<Suggestion>, i: nat)
    requires i < |all|
    ensures all[i].code in CodesOf(all)
  {
    if i < |all| - 1 {
      CodesOfHas(all[..|all| - 1], i);
    }
  }

  /** `seen` is exactly the set of suggested codes, and no code is suggested twice. */
  ghost predicate Tidy(st: Collected) {
    st.seen == CodesOf(st.all) && forall i, j :: 0 <= i < j < |st.all| ==> st.all[i].code != st.all[j].code
  }

  lemma TidyAdd(st: Collected, s: Suggestion)
    requires Tidy(st) && s.code !in st.seen
    ensures Tidy(Collected(st.all + [s], st.seen + {s.code}))
  {
    var all' := st.all + [s];
    assert all'[..|all'| - 1] == st.all;
    forall i, j | 0 <= i < j < |all'| ensures all'[i].code != all'[j].code {
      if j < |st.all| {
        assert all'[i] == st.all[i] && all'[j] == st.all[j];
      } else {
        CodesOfHas(st.all, i);
        assert all'[i] == st.all[i];
      }
    }
  }

  lemma {:induction false} TidyDirects(hit: Hit, cs: seq<string>, engine: LiteEngine, st: Collected)
    requires Tidy(st)
    ensures Tidy(AfterDirects(hit, cs, false, engine, st))
  {
    if cs != [] {
      var front := cs[..|cs| - 1];
      TidyDirects(hit, front, engine, st);
      TidyDirect(hit, cs[|cs| - 1], engine, AfterDirects(hit, front, false, engine, st));
    }
  }

  lemma TidyDirect(hit: Hit, c: string, engine: LiteEngine, st: Collected)
    requires Tidy(st)
    ensures Tidy(AfterDirect(hit, c, false, engine, st))
  {
    if |c| == 7 && c !in st.seen {
      TidyAdd(st, Suggestion(c, Min(99, hit.score), IsValid(engine, c), MatchedWhy(hit), Evidence(hit)));
    }
  }

  lemma {:induction false} TidyCompletions(hit: Hit, c: string, engine: LiteEngine, cands: seq<string>, st: Collected)
    requires Tidy(st)
    ensures Tidy(AfterCompletions(hit, c, engine, cands, st))
  {
    if cands != [] {
      var front := cands[..|cands| - 1];
      TidyCompletions(hit, c, engine, front, st);
      TidyCompletion(hit, c, engine, cands[|cands| - 1], AfterCompletions(hit, c, engine, front, st));
    }
  }

  lemma TidyCompletion(hit: Hit, c: string, engine: LiteEngine, e: string, st: Collected)
    requires Tidy(st)
    ensures Tidy(AfterCompletion(hit, c, engine, e, st))
  {
    if e !in st.seen {
      TidyAdd(st, Suggestion(e, Min(85, hit.score - 5), IsValid(engine, e), PartialWhy(c), Evidence(hit)));
    }
  }

  lemma {:induction false} TidyPartials(hit: Hit, cs: seq<string>, approach: string, engine: LiteEngine, st: Collected)
    requires Tidy(st)
    ensures Tidy(AfterPartials(hit, cs, approach, engine, st))
  {
    if cs != [] {
      var front, c := cs[..|cs| - 1], cs[|cs| - 1];
      TidyPartials(hit, front, approach, engine, st);
      var prev := AfterPartials(hit, front, approach, engine, st);
      if c !in prev.seen && (|c| == 3 || |c| == 4) {
        TidyCompletions(hit, c, engine, Completions(c, approach), prev);
      }
    }
  }

  lemma {:induction false} TidyHits(hits: seq<Hit>, n: nat, approach: string, engine: LiteEngine)
    requires n <= |hits|
    ensures Tidy(AfterHits(hits, n, approach, false, engine))
  {
    if n > 0 {
      TidyHits(hits, n - 1, approach, engine);
      var prev := AfterHits(hits, n - 1, approach, false, engine);
      var cs := NormCodes(hits[n - 1].entry.codes);
      TidyDirects(hits[n - 1], cs, engine, prev);
      TidyPartials(hits[n - 1], cs, approach, engine, AfterDirects(hits[n - 1], cs, false, engine, prev));
    }
  }

  /** Without the biopsy rewrite, every code is checked against `seen` before it is added, so no code is suggested twice. */
  lemma AllOfDistinct(hits: seq<Hit>, approach: string, engine: LiteEngine)
    ensures var all := AllOf(hits, approach, false, engine);
      forall i, j :: 0 <= i < j < |all| ==> all[i].code != all[j].code
  {
    TidyHits(hits, |hits|, approach, engine);
  }

  /**
   * The first hit that yields a code sets its suggestion: a later hit
   * with the same code and a lower score adds nothing.
   */
  lemma FirstHitWins(engine: LiteEngine, e0: Entry, e1: Entry)
    requires e0.codes == ["0DB10ZZ"] && e1.codes == ["0DB10ZZ"]
    ensures var h0 := Hit("A > b", 95, e0);
      AllOf([h0, Hit("A > c", 75, e1)], "", false, engine) == [Suggestion("0DB10ZZ", 95, false, MatchedWhy(h0), Evidence(h0))]
  {
    var c := "0DB10ZZ";
    assert AllCodeChars(c);
    NormalizeCode(c);
    var h0, h1 := Hit("A > b", 95, e0), Hit("A > c", 75, e1);
    var hits := [h0, h1];
    var st0 := Collected([], {});
    var st1 := Collected([Suggestion(c, 95, false, MatchedWhy(h0), Evidence(h0))], {c});
    assert NormCodes(e0.codes) == [c] && NormCodes(e1.codes) == [c];
    assert [c][..0] == [];
    assert AfterDirect(h0, c, false, engine, st0) == st1;
    assert AfterDirects(h0, [c], false, engine, st0) == st1;
    assert AfterPartials(h0, [c], "", engine, st1) == st1;
    assert AfterHit(h0, "", false, engine, st0) == st1;
    assert AfterHits(hits, 1, "", false, engine) == st1;
    assert AfterDirects(h1, [c], false, engine, st1) == st1;
    assert AfterPartials(h1, [c], "", engine, st1) == st1;
    assert AfterHit(h1, "", false, engine, st1) == st1;
  }

  /**
   * Under a biopsy the code checked against `seen` is the one before the
   * rewrite, so a code listed twice is suggested twice, rewritten.
   */
  lemma BiopsyRepeats(engine: LiteEngine, e: Entry)
    requires e.codes == ["0DB10ZZ", "0DB10ZZ"]
    ensures var h := Hit("A > b", 90, e);
      var s := Suggestion("0DB10ZX", 90, false, MatchedWhy(h), Evidence(h));
      AllOf([h], "", true, engine) == [s, s]
  {
    var c := "0DB10ZZ";
    assert AllCodeChars(c);
    NormalizeCode(c);
    var h := Hit("A > b", 90, e);
    var s := Suggestion("0DB10ZX", 90, false, MatchedWhy(h), Evidence(h));
    var st2 := Collected([s, s], {"0DB10ZX"});
    assert NormCodes(e.codes) == [c, c];
    BiopsyDirects(engine, h);
    assert [c, c][..1] == [c] && [c][..0] == [];
    assert AfterPartials(h, [c], "", engine, st2) == st2;
    assert AfterPartials(h, [c, c], "", engine, st2) == st2;
    assert AfterHits([h], 1, "", true, engine) == st2;
  }

  /** The first inner loop of `BiopsyRepeats`: both copies pass the `seen` check. */
  lemma BiopsyDirects(engine: LiteEngine, h: Hit)
    requires h.score == 90
    ensures var s := Suggestion("0DB10ZX", 90, false, MatchedWhy(h), Evidence(h));
      AfterDirects(h, ["0DB10ZZ", "0DB10ZZ"], true, engine, Collected([], {})) == Collected([s, s], {"0DB10ZX"})
  {
    var c, x := "0DB10ZZ", "0DB10ZX";
    var s := Suggestion(x, 90, false, MatchedWhy(h), Evidence(h));
    var st0, st1 := Collected([], {}), Collected([s], {x});
    assert Rewrite(c, true) == x;
    assert [c][..0] == [] && [c, c][..1] == [c];
    assert AfterDirect(h, c, true, engine, st0) == st1;
    assert AfterDirects(h, [c], true, engine, st0) == st1;
    assert AfterDirect(h, c, true, engine, st1) == Collected([s, s], {x});
  }

  /** The first inner loop's body for code `k` of hit `h`. */
  method DirectOne(hits: seq<Hit>, h: nat, k: nat, approach: string, biopsy: bool, engine: LiteEngine,
                   all: seq<Suggestion>, ghost partial: seq<bool>, seen: set<string>)
    returns (all': seq<Suggestion>, ghost partial': seq<bool>, seen': set<string>)
    requires h < |hits| && k < |hits[h].entry.codes| && Inv(hits, approach, biopsy, all, partial, seen)
    ensures Inv(hits, approach, biopsy, all', partial', seen') && all <= all' && partial <= partial'
    ensures DirectDone(hits, biopsy, all', h, k)
    ensures Collected(all', seen') == AfterDirect(hits[h], Normalize(hits[h].entry.codes[k]), biopsy, engine, Collected(all, seen))
  {
    var hit := hits[h];
    var c := Normalize(hit.entry.codes[k]);
    if c in seen {
      var i :| 0 <= i < |all| && all[i].code == c;
      assert all[i] in all;
    }
    all', partial', seen' := all, partial, seen;
    if |c| == 7 && c !in seen {
      var validated := IsValid(engine, c);
      var why := MatchedWhy(hit);
      var code := Rewrite(c, biopsy);
      var s := Suggestion(code, Min(99, hit.score), validated, why, Evidence(hit));
      assert DirectOk(s, hit, biopsy, c);
      InvAppend(hits, approach, biopsy, all, partial, seen, s, false);
      all', partial', seen' := all + [s], partial + [false], seen + {code};
      assert s in all';
    }
  }

  /** The body of `for e in expanded[:5]` for the partial code `c` of a hit. */
  method AddCompletion(hits: seq<Hit>, h: nat, k: nat, c: string, approach: string, biopsy: bool, engine: LiteEngine,
                       e: string, all: seq<Suggestion>, ghost partial: seq<bool>, seen: set<string>)
    returns (all': seq<Suggestion>, ghost partial': seq<bool>, seen': set<string>)
    requires h < |hits| && k < |hits[h].entry.codes| && c == Normalize(hits[h].entry.codes[k]) && (|c| == 3 || |c| == 4)
    requires e in Take(ApproachFilter(Defaults(c), approach), 5)
    requires Inv(hits, approach, biopsy, all, partial, seen)
    ensures Inv(hits, approach, biopsy, all', partial', seen') && all <= all' && partial <= partial'
    ensures Suggested(all', e)
    ensures Collected(all', seen') == AfterCompletion(hits[h], c, engine, e, Collected(all, seen))
  {
    var hit := hits[h];
    all', partial', seen' := all, partial, seen;
    if e in seen {
      var i :| 0 <= i < |all| && all[i].code == e;
      assert all[i] in all;
    }
    if e !in seen {
      var s := Suggestion(e, Min(85, hit.score - 5), IsValid(engine, e), PartialWhy(c), Evidence(hit));
      assert PartialOk(s, hit, approach, c);
      InvAppend(hits, approach, biopsy, all, partial, seen, s, true);
      all', partial', seen' := all + [s], partial + [true], seen + {e};
      assert s in all';
    }
  }

  /** The loop `for e in expanded[:5]` for the partial code `c` of a hit. */
  method AddCompletions(hits: seq<Hit>, h: nat, k: nat, c: string, approach: string, biopsy: bool, engine: LiteEngine,
                        cands: seq<string>, all: seq<Suggestion>, ghost partial: seq<bool>, seen: set<string>)
    returns (all': seq<Suggestion>, ghost partial': seq<bool>, seen': set<string>)
    requires h < |hits| && k < |hits[h].entry.codes| && c == Normalize(hits[h].entry.codes[k]) && (|c| == 3 || |c| == 4)
    requires cands == Take(ApproachFilter(Defaults(c), approach), 5)
    requires Inv(hits, approach, biopsy, all, partial, seen)
    ensures Inv(hits, approach, biopsy, all', partial', seen') && all <= all' && partial <= partial'
    ensures AllSuggested(all', cands)
    ensures Collected(all', seen') == AfterCompletions(hits[h], c, engine, cands, Collected(all, seen))
  {
    all', partial', seen' := all, partial, seen;
    for i := 0 to |cands|
      invariant Inv(hits, approach, biopsy, all', partial', seen') && all <= all' && partial <= partial'
      invariant AllSuggested(all', cands[..i])
      invariant Collected(all', seen') == AfterCompletions(hits[h], c, engine, cands[..i], Collected(all, seen))
    {
      all', partial', seen' := CompletionNext(hits, h, k, c, approach, biopsy, engine, cands, i, all, seen, all', partial', seen');
    }
    assert cands[..|cands|] == cands;
  }

  /** One pass of `for e in expanded[:5]`, with the loop's invariant carried from `i` to `i + 1`. */
  method CompletionNext(hits: seq<Hit>, h: nat, k: nat, c: string, approach: string, biopsy: bool, engine: LiteEngine,
                        cands: seq<string>, i: nat, ghost all0: seq<Suggestion>, ghost seen0: set<string>,
                        all: seq<Suggestion>, ghost partial: seq<bool>, seen: set<string>)
    returns (all': seq<Suggestion>, ghost partial': seq<bool>, seen': set<string>)
    requires h < |hits| && k < |hits[h].entry.codes| && c == Normalize(hits[h].entry.codes[k]) && (|c| == 3 || |c| == 4)
    requires cands == Take(ApproachFilter(Defaults(c), approach), 5) && i < |cands|
    requires Inv(hits, approach, biopsy, all, partial, seen) && AllSuggested(all, cands[..i])
    requires Collected(all, seen) == AfterCompletions(hits[h], c, engine, cands[..i], Collected(all0, seen0))
    ensures Inv(hits, approach, biopsy, all', partial', seen') && all <= all' && partial <= partial'
    ensures AllSuggested(all', cands[..i + 1])
    ensures Collected(all', seen') == AfterCompletions(hits[h], c, engine, cands[..i + 1], Collected(all0, seen0))
  {
    CompletionsSnoc(hits[h], c, engine, cands, i, Collected(all0, seen0));
    all', partial', seen' := AddCompletion(hits, h, k, c, approach, biopsy, engine, cands[i], all, partial, seen);
    AllSuggestedStep(all, all', cands, i);
  }

  /** The second inner loop's body for code `k` of hit `h`. */
  method PartialOne(hits: seq<Hit>, h: nat, k: nat, approach: string, biopsy: bool, engine: LiteEngine,
                    all: seq<Suggestion>, ghost partial: seq<bool>, seen: set<string>, ghost tried: map<string, seq<string>>)
    returns (all': seq<Suggestion>, ghost partial': seq<bool>, seen': set<string>, ghost tried': map<string, seq<string>>)
    requires h < |hits| && k < |hits[h].entry.codes| && Inv(hits, approach, biopsy, all, partial, seen)
    requires TriedOk(tried, approach)
    ensures Inv(hits, approach, biopsy, all', partial', seen') && all <= all' && partial <= partial'
    ensures TriedOk(tried', approach) && Extends(tried, tried')
    ensures PartialDone(hits, all', tried', h, k)
    ensures Collected(all', seen') == AfterPartial(hits[h], Normalize(hits[h].entry.codes[k]), approach, engine, Collected(all, seen))
  {
    var c := Normalize(hits[h].entry.codes[k]);
    all', partial', seen', tried' := all, partial, seen, tried;
    if c in seen {
      var i :| 0 <= i < |all| && all[i].code == c;
      assert all[i] in all;
      return;
    }
    if |c| == 3 || |c| == 4 {
      var expanded := ExpandFromPrefix(c);
      expanded := ApproachFilter(expanded, approach);
      var cands := Take(expanded, 5);
      all', partial', seen' := AddCompletions(hits, h, k, c, approach, biopsy, engine, cands, all, partial, seen);
      tried' := tried[c := cands];
      TriedStep(tried, c, approach, cands);
    }
  }

  /** Recording the completions walked for `c` keeps `tried` faithful and extends it. */
  lemma TriedStep(tried: map<string, seq<string>>, c: string, approach: string, cands: seq<string>)
    requires TriedOk(tried, approach) && cands == Take(ApproachFilter(Defaults(c), approach), 5)
    ensures TriedOk(tried[c := cands], approach) && Extends(tried, tried[c := cands])
  {
  }

  /** The first inner loop for hit `h`: every full code, in order. */
  method DirectLoop(hits: seq<Hit>, h: nat, approach: string, biopsy: bool, engine: LiteEngine,
                    all: seq<Suggestion>, ghost partial: seq<bool>, seen: set<string>)
    returns (all': seq<Suggestion>, ghost partial': seq<bool>, seen': set<string>)
    requires h < |hits| && Inv(hits, approach, biopsy, all, partial, seen)
    ensures Inv(hits, approach, biopsy, all', partial', seen') && all <= all' && partial <= partial'
    ensures DirectUpTo(hits, biopsy, all', h, |hits[h].entry.codes|)
    ensures Collected(all', seen') == AfterDirects(hits[h], NormCodes(hits[h].entry.codes), biopsy, engine, Collected(all, seen))
  {
    all', partial', seen' := all, partial, seen;
    ghost var cs := NormCodes(hits[h].entry.codes);
    for k := 0 to |hits[h].entry.codes|
      invariant Inv(hits, approach, biopsy, all', partial', seen') && all <= all' && partial <= partial'
      invariant DirectUpTo(hits, biopsy, all', h, k)
      invariant Collected(all', seen') == AfterDirects(hits[h], cs[..k], biopsy, engine, Collected(all, seen))
    {
      ghost var prev := all';
      DirectsSnoc(hits[h], cs, k, biopsy, engine, Collected(all, seen));
      all', partial', seen' := DirectOne(hits, h, k, approach, biopsy, engine, all', partial', seen');
      DirectUpToGrow(hits, biopsy, prev, all', h, k, k + 1);
    }
    assert cs[..|cs|] == cs;
  }

  /** The second inner loop for hit `h`: every partial code, in order. */
  method PartialLoop(hits: seq<Hit>, h: nat, approach: string, biopsy: bool, engine: LiteEngine,
                     all: seq<Suggestion>, ghost partial: seq<bool>, seen: set<string>, ghost tried: map<string, seq<string>>)
    returns (all': seq<Suggestion>, ghost partial': seq<bool>, seen': set<string>, ghost tried': map<string, seq<string>>)
    requires h < |hits| && Inv(hits, approach, biopsy, all, partial, seen) && TriedOk(tried, approach)
    requires DirectUpTo(hits, biopsy, all, h, |hits[h].entry.codes|)
    ensures Inv(hits, approach, biopsy, all', partial', seen') && all <= all' && partial <= partial'
    ensures TriedOk(tried', approach) && Extends(tried, tried')
    ensures HitDone(hits, biopsy, all', tried', h)
    ensures Collected(all', seen') == AfterPartials(hits[h], NormCodes(hits[h].entry.codes), approach, engine, Collected(all, seen))
  {
    all', partial', seen', tried' := all, partial, seen, tried;
    var n := |hits[h].entry.codes|;
    for k := 0 to n
      invariant Inv(hits, approach, biopsy, all', partial', seen') && all <= all' && partial <= partial'
      invariant TriedOk(tried', approach) && Extends(tried, tried')
      invariant DirectUpTo(hits, biopsy, all', h, n) && PartialUpTo(hits, all', tried', h, k)
      invariant Collected(all', seen') == AfterPartials(hits[h], NormCodes(hits[h].entry.codes)[..k], approach, engine, Collected(all, seen))
    {
      all', partial', seen', tried' := PartialNext(hits, h, k, approach, biopsy, engine, all, seen, tried, all', partial', seen', tried');
    }
    assert NormCodes(hits[h].entry.codes)[..n] == NormCodes(hits[h].entry.codes);
  }

  /** One pass of the second inner loop, with the loop's invariant carried from `k` to `k + 1`. */
  method PartialNext(hits: seq<Hit>, h: nat, k: nat, approach: string, biopsy: bool, engine: LiteEngine,
                     ghost all0: seq<Suggestion>, ghost seen0: set<string>, ghost tried0: map<string, seq<string>>,
                     all: seq<Suggestion>, ghost partial: seq<bool>, seen: set<string>, ghost tried: map<string, seq<string>>)
    returns (all': seq<Suggestion>, ghost partial': seq<bool>, seen': set<string>, ghost tried': map<string, seq<string>>)
    requires h < |hits| && k < |hits[h].entry.codes|
    requires Inv(hits, approach, biopsy, all, partial, seen) && TriedOk(tried, approach) && Extends(tried0, tried)
    requires DirectUpTo(hits, biopsy, all, h, |hits[h].entry.codes|) && PartialUpTo(hits, all, tried, h, k)
    requires Collected(all, seen) == AfterPartials(hits[h], NormCodes(hits[h].entry.codes)[..k], approach, engine, Collected(all0, seen0))
    ensures Inv(hits, approach, biopsy, all', partial', seen') && all <= all' && partial <= partial'
    ensures TriedOk(tried', approach) && Extends(tried0, tried')
    ensures DirectUpTo(hits, biopsy, all', h, |hits[h].entry.codes|) && PartialUpTo(hits, all', tried', h, k + 1)
    ensures Collected(all', seen') == AfterPartials(hits[h], NormCodes(hits[h].entry.codes)[..k + 1], approach, engine, Collected(all0, seen0))
  {
    var n := |hits[h].entry.codes|;
    PartialsSnoc(hits[h], NormCodes(hits[h].entry.codes), k, approach, engine, Collected(all0, seen0));
    all', partial', seen', tried' := PartialOne(hits, h, k, approach, biopsy, engine, all, partial, seen, tried);
    DirectUpToGrow(hits, biopsy, all, all', h, n, n);
    PartialUpToGrow(hits, all, all', tried, tried', h, k, k + 1);
  }

  /** The two inner loops for one hit. */
  method OneHit(hits: seq<Hit>, h: nat, approach: string, biopsy: bool, engine: LiteEngine,
                all: seq<Suggestion>, ghost partial: seq<bool>, seen: set<string>, ghost tried: map<string, seq<string>>)
    returns (all': seq<Suggestion>, ghost partial': seq<bool>, seen': set<string>, ghost tried': map<string, seq<string>>)
    requires h < |hits| && Inv(hits, approach, biopsy, all, partial, seen) && TriedOk(tried, approach)
    ensures Inv(hits, approach, biopsy, all', partial', seen') && all <= all' && partial <= partial'
    ensures TriedOk(tried', approach) && Extends(tried, tried')
    ensures HitDone(hits, biopsy, all', tried', h)
    ensures Collected(all', seen') == AfterHit(hits[h], approach, biopsy, engine, Collected(all, seen))
  {
    all', partial', seen' := DirectLoop(hits, h, approach, biopsy, engine, all, partial, seen);
    all', partial', seen', tried' := PartialLoop(hits, h, approach, biopsy, engine, all', partial', seen', tried);
  }

  /** `seen` is the set of suggested codes, and no suggestion is marked validated. */
  lemma InvFacts(hits: seq<Hit>, approach: string, biopsy: bool, all: seq<Suggestion>, partial: seq<bool>, seen: set<string>)
    requires Inv(hits, approach, biopsy, all, partial, seen)
    ensures seen == set s | s in all :: s.code
    ensures forall s :: s in all ==> !s.validated
  {
    forall x | x in seen ensures x in set s | s in all :: s.code {
      var i :| 0 <= i < |all| && all[i].code == x;
    }
    forall s | s in all ensures !s.validated {
      var i :| 0 <= i < |all| && all[i] == s;
      assert Justified(hits, approach, biopsy, all[i], partial[i]);
    }
  }

  /** The sort key `(-confidence, code)`. */
  predicate SuggestionLe(a: Suggestion, b: Suggestion) {
    a.confidence > b.confidence || (a.confidence == b.confidence && LexLe(a.code, b.code))
  }

  lemma SuggestionLeIsTotalPreorder()
    ensures TotalPreorder(SuggestionLe)
  {
    forall a: Suggestion, b: Suggestion ensures SuggestionLe(a, b) || SuggestionLe(b, a) {
      LexLeTotal(a.code, b.code);
    }
    forall a: Suggestion, b: Suggestion, c: Suggestion | SuggestionLe(a, b) && SuggestionLe(b, c) ensures SuggestionLe(a, c) {
      if a.confidence == b.confidence == c.confidence {
        LexLeTransitive(a.code, b.code, c.code);
      }
    }
  }

  /** `suggestions.sort(key=...)` then `suggestions[:30]`: ordered by the key, at most 30, all drawn from the list. */
  lemma RankedSpec(all: seq<Suggestion>)
    ensures var out := Take(Sort(all, SuggestionLe), 30);
      && |out| <= 30 && SortedBy(out, SuggestionLe)
      && (forall s :: s in out ==> s in all)
      && (|all| <= 30 ==> multiset(out) == multiset(all))
  {
    var sorted := Sort(all, SuggestionLe);
    SuggestionLeIsTotalPreorder();
    SortSorted(all, SuggestionLe);
    MultisetElements(all, sorted);
    var out := Take(sorted, 30);
    forall s | s in out ensures s in all {
      assert s in sorted;
    }
  }

  /**
   * `suggest_codes`: nothing without an index store; otherwise at most 30
   * suggestions, ordered by descending confidence then code, each drawn
   * from the unsorted list `all`, in which every suggestion is justified by
   * a hit, `validated` is false throughout, and no completion repeats a
   * code suggested before it.
   */
  method SuggestCodes(text: string, store: Option<Store>, extract: Extractor, engine: LiteEngine)
    returns (out: seq<Suggestion>, hits: seq<Hit>, all: seq<Suggestion>, ghost partial: seq<bool>,
             ghost tried: map<string, seq<string>>)
    ensures store.None? ==> out == []
    ensures |out| <= 30 && SortedBy(out, SuggestionLe)
    ensures forall s :: s in out ==> s in all
    ensures store.Some? ==> out == Take(Sort(all, SuggestionLe), 30)
    ensures store.Some? ==> Inv(hits, DetectApproach(text), IsBiopsy(text), all, partial, set s | s in all :: s.code)
    ensures TriedOk(tried, DetectApproach(text))
    ensures store.Some? ==> HitsUpTo(hits, IsBiopsy(text), all, tried, |hits|)
    ensures store.Some? ==> all == AllOf(hits, DetectApproach(text), IsBiopsy(text), engine)
    ensures forall s :: s in all ==> !s.validated
    ensures store.Some? && Strip(Query(text)) == "" ==> hits == []
    ensures store.Some? && Strip(Query(text)) != "" ==>
      hits == HitsOf(PathMap(store.value.entries), extract(Query(text), store.value.corpus, 30, 72))
  {
    if store.None? {
      return [], [], [], [], map[];
    }
    var query := Query(text);
    hits := Search(store.value, extract, query, 30, 72);
    var approach := DetectApproach(text);
    var biopsy := IsBiopsy(text);
    var seen;
    all, partial, seen, tried := HitsLoop(hits, approach, biopsy, engine);
    RankedSpec(all);
    out := Take(Sort(all, SuggestionLe), 30);
  }

  /** `for path, score, entry in hits`: the two inner loops for each hit, in order. */
  method HitsLoop(hits: seq<Hit>, approach: string, biopsy: bool, engine: LiteEngine)
    returns (all: seq<Suggestion>, ghost partial: seq<bool>, seen: set<string>, ghost tried: map<string, seq<string>>)
    ensures Inv(hits, approach, biopsy, all, partial, seen) && seen == set s | s in all :: s.code
    ensures TriedOk(tried, approach) && HitsUpTo(hits, biopsy, all, tried, |hits|)
    ensures all == AllOf(hits, approach, biopsy, engine)
    ensures forall s :: s in all ==> !s.validated
  {
    seen := {};
    all, partial, tried := [], [], map[];
    for h := 0 to |hits|
      invariant Inv(hits, approach, biopsy, all, partial, seen)
      invariant TriedOk(tried, approach) && HitsUpTo(hits, biopsy, all, tried, h)
      invariant Collected(all, seen) == AfterHits(hits, h, approach, biopsy, engine)
    {
      ghost var prev, prevTried := all, tried;
      all, partial, seen, tried := OneHit(hits, h, approach, biopsy, engine, all, partial, seen, tried);
      HitsUpToGrow(hits, biopsy, prev, all, prevTried, tried, h);
    }
    InvFacts(hits, approach, biopsy, all, partial, seen);
  }

  /**
   * A completion comes from the tables-lite defaults of its partial code:
   * it has seven characters, begins with that code, ends in "ZZ", and
   * carries the detected approach whenever some default does.
   */
  lemma PartialSpec(s: Suggestion, h: Hit, approach: string, c: string)
    requires PartialOk(s, h, approach, c) && Normalize(c) == c
    ensures |s.code| == 7 && c <= s.code && s.code[5..] == "ZZ" && CodeFormat(s.code)
    ensures s.confidence == Min(85, h.score - 5) && s.confidence <= 85
    ensures approach != "" && (exists e :: e in Defaults(c) && |e| == 7 && [e[4]] == approach) ==> [s.code[4]] == approach
  {
    var d := Defaults(c);
    DefaultsSpec(c);
    assert s.code in ApproachFilter(d, approach);
  }

  /**
   * A suggestion for a full code keeps the code, apart from the biopsy
   * rewrite of a trailing "Z" to "X", at confidence at most 99.
   */
  lemma DirectSpec(s: Suggestion, h: Hit, biopsy: bool, c: string)
    requires DirectOk(s, h, biopsy, c)
    ensures |s.code| == 7 && s.code[..6] == c[..6] && s.confidence <= 99 && !s.validated
    ensures biopsy && c[6] == 'Z' ==> s.code[6] == 'X'
    ensures !biopsy || c[6] != 'Z' ==> s.code == c
  {
  }
}
