/**
 * The code trie of pcs_tables_engine.py: `TrieNode` and `TablesTrie` with
 * `add_code`, `walk` and the bounded depth-first `expand`.
 *
 * Node objects live in an arena: `arena[i]` is a node, its `children`
 * map a character to the arena index of the child, and `keys` lists those
 * characters in the order the edges were created (the iteration order of
 * the source's dict). The root is `arena[0]`. Ghost state relates the
 * arena to the set of inserted codes: `paths[i]` is the string spelled
 * from the root to node `i`, `codes` the codes inserted so far and
 * `prefixes` every prefix of those codes (the empty one included).
 */
module PcsTrie {
  import opened Common
  import opened Text

  datatype TrieNode = TrieNode(keys: seq<char>, children: map<char, nat>, terminal: bool)

  const EmptyNode := TrieNode([], map[], false)

  /** The edge list and the edge map of a node agree and list no edge twice. */
  predicate KeysMatch(n: TrieNode) {
    NoDup(n.keys) && forall c :: c in n.children <==> c in n.keys
  }

  /** Every edge of the arena leads to a node of the arena. */
  predicate Closed(arena: seq<TrieNode>) {
    && |arena| >= 1
    && forall i, c :: 0 <= i < |arena| && c in arena[i].children ==> arena[i].children[c] < |arena|
  }

  /** Every prefix of every code in `codes`; the empty string always. */
  ghost function Prefixes(codes: set<string>): set<string> {
    {""} + set c, k | c in codes && 0 <= k <= |c| :: c[..k]
  }

  /** The prefixes `code[..0]` to `code[..i]`. */
  ghost function PrefixesUpTo(code: string, i: nat): set<string>
    requires i <= |code|
  {
    set k | 0 <= k <= i :: code[..k]
  }

  ghost predicate PrefixClosed(ps: set<string>) {
    forall p, k :: p in ps && 0 <= k <= |p| ==> p[..k] in ps
  }

  /**
   * The arena is a trie whose node paths are exactly `prefixes`: edges
   * extend the parent's path by their character, an edge exists exactly
   * where the extended path is in `prefixes`, no two nodes share a path,
   * the nodes whose path is an inserted code are the terminal ones, and
   * there is one node per prefix.
   */
  ghost predicate Shape(arena: seq<TrieNode>, paths: seq<string>, prefixes: set<string>, codes: set<string>) {
    && Closed(arena)
    && |paths| == |arena|
    && paths[0] == []
    && (forall i :: 0 <= i < |arena| ==> KeysMatch(arena[i]))
    && (forall i, c :: 0 <= i < |arena| && c in arena[i].children ==>
          paths[arena[i].children[c]] == paths[i] + [c])
    && (forall i, c :: 0 <= i < |arena| && paths[i] + [c] in prefixes ==> c in arena[i].children)
    && (forall i :: 0 <= i < |arena| ==> paths[i] in prefixes)
    && (forall i, j :: 0 <= i < |arena| && 0 <= j < |arena| && paths[i] == paths[j] ==> i == j)
    && (forall i :: 0 <= i < |arena| ==> (arena[i].terminal <==> paths[i] in codes))
    && |prefixes| == |arena|
  }

  /** `walk`: follows existing edges from the root; `None` when an edge is missing. */
  function Locate(arena: seq<TrieNode>, token: string): (r: Option<nat>)
    requires Closed(arena)
    ensures r.Some? ==> r.value < |arena|
    decreases |token|
  {
    if token == [] then Some(0)
    else
      var last := token[|token| - 1];
      match Locate(arena, token[..|token| - 1])
      case None => None
      case Some(i) => if last in arena[i].children then Some(arena[i].children[last]) else None
  }

  lemma PrefixesClosed(codes: set<string>)
    ensures PrefixClosed(Prefixes(codes))
    ensures forall c :: c in codes ==> c in Prefixes(codes)
  {
    forall c | c in codes ensures c in Prefixes(codes) { assert c[..|c|] == c; }
    forall p, k | p in Prefixes(codes) && 0 <= k <= |p| ensures p[..k] in Prefixes(codes) {
      if p != "" {
        var c, m :| c in codes && 0 <= m <= |c| && p == c[..m];
        assert p[..k] == c[..k];
      }
    }
  }

  /** A walk succeeds exactly on the prefixes of inserted codes, and ends at the node spelling the token. */
  lemma {:induction false} LocateSpec(arena: seq<TrieNode>, paths: seq<string>, prefixes: set<string>, codes: set<string>, token: string)
    requires Shape(arena, paths, prefixes, codes) && PrefixClosed(prefixes)
    ensures Locate(arena, token).Some? <==> token in prefixes
    ensures Locate(arena, token).Some? ==> paths[Locate(arena, token).value] == token
    decreases |token|
  {
    if token == [] {
      assert paths[0] in prefixes;
    } else {
      var init, last := token[..|token| - 1], token[|token| - 1];
      assert token == init + [last];
      LocateSpec(arena, paths, prefixes, codes, init);
      match Locate(arena, init)
      case None =>
      case Some(i) =>
        if last in arena[i].children {
          assert paths[arena[i].children[last]] == token;
        }
    }
  }

  /** The arena after adding an edge `ch` from node `n` to a new, empty node. */
  function Grow(arena: seq<TrieNode>, n: nat, ch: char): (a: seq<TrieNode>)
    requires n < |arena|
    ensures |a| == |arena| + 1
    ensures forall i :: 0 <= i < |arena| && i != n ==> a[i] == arena[i]
    ensures a[n].terminal == arena[n].terminal && a[|arena|] == EmptyNode
  {
    var added := |arena|;
    (arena + [EmptyNode])[n := arena[n].(keys := arena[n].keys + [ch], children := arena[n].children[ch := added])]
  }

  lemma GrowKeys(arena: seq<TrieNode>, n: nat, ch: char)
    requires Closed(arena) && (forall i :: 0 <= i < |arena| ==> KeysMatch(arena[i]))
    requires n < |arena| && ch !in arena[n].children
    ensures Closed(Grow(arena, n, ch))
    ensures forall i :: 0 <= i < |Grow(arena, n, ch)| ==> KeysMatch(Grow(arena, n, ch)[i])
  {
    var a := Grow(arena, n, ch);
    assert KeysMatch(a[n]) by {
      assert ch !in arena[n].keys;
      forall i, j | 0 <= i < j < |a[n].keys| ensures a[n].keys[i] != a[n].keys[j] {
        if j < |arena[n].keys| {
          assert a[n].keys[i] == arena[n].keys[i] && a[n].keys[j] == arena[n].keys[j];
        }
      }
    }
    forall i | 0 <= i < |a| ensures KeysMatch(a[i]) {
      if i != n && i < |arena| { assert a[i] == arena[i]; }
    }
  }

  lemma GrowEdges(arena: seq<TrieNode>, paths: seq<string>, n: nat, ch: char)
    requires Closed(arena) && |paths| == |arena| && n < |arena|
    requires forall i, c :: 0 <= i < |arena| && c in arena[i].children ==> paths[arena[i].children[c]] == paths[i] + [c]
    ensures forall i, c :: 0 <= i < |Grow(arena, n, ch)| && c in Grow(arena, n, ch)[i].children ==>
      (paths + [paths[n] + [ch]])[Grow(arena, n, ch)[i].children[c]] == (paths + [paths[n] + [ch]])[i] + [c]
  {
    var a, ps := Grow(arena, n, ch), paths + [paths[n] + [ch]];
    forall i, c | 0 <= i < |a| && c in a[i].children ensures ps[a[i].children[c]] == ps[i] + [c] {
      if i == n && c == ch {
      } else {
        assert i < |arena| && c in arena[i].children && a[i].children[c] == arena[i].children[c];
      }
    }
  }

  lemma GrowReach(arena: seq<TrieNode>, paths: seq<string>, prefixes: set<string>, n: nat, ch: char)
    requires Closed(arena) && |paths| == |arena| && n < |arena| && PrefixClosed(prefixes)
    requires forall i, c :: 0 <= i < |arena| && paths[i] + [c] in prefixes ==> c in arena[i].children
    requires forall i, j :: 0 <= i < |arena| && 0 <= j < |arena| && paths[i] == paths[j] ==> i == j
    requires paths[n] + [ch] !in prefixes
    ensures forall i, c :: 0 <= i < |Grow(arena, n, ch)| && (paths + [paths[n] + [ch]])[i] + [c] in prefixes + {paths[n] + [ch]} ==>
      c in Grow(arena, n, ch)[i].children
  {
    var a, ps, pre := Grow(arena, n, ch), paths + [paths[n] + [ch]], prefixes + {paths[n] + [ch]};
    var np := paths[n] + [ch];
    forall c ensures np + [c] !in prefixes {
      assert (np + [c])[..|np|] == np;
    }
    forall i, c | 0 <= i < |a| && ps[i] + [c] in pre ensures c in a[i].children {
      if i < |arena| {
        if ps[i] + [c] == np {
          assert |paths[i]| == |paths[n]|;
          assert paths[i] == (ps[i] + [c])[..|paths[i]|] && paths[n] == np[..|paths[n]|];
          assert c == ch by { assert (ps[i] + [c])[|paths[i]|] == np[|paths[n]|]; }
          assert i == n;
        } else {
          assert c in arena[i].children;
        }
      }
    }
  }

  lemma GrowShape(arena: seq<TrieNode>, paths: seq<string>, prefixes: set<string>, codes: set<string>, n: nat, ch: char)
    requires Shape(arena, paths, prefixes, codes)
    requires PrefixClosed(prefixes) && forall c :: c in codes ==> c in prefixes
    requires n < |arena| && ch !in arena[n].children
    ensures paths[n] + [ch] !in prefixes
    ensures Shape(Grow(arena, n, ch), paths + [paths[n] + [ch]], prefixes + {paths[n] + [ch]}, codes)
  {
    var a, ps, pre := Grow(arena, n, ch), paths + [paths[n] + [ch]], prefixes + {paths[n] + [ch]};
    var np := paths[n] + [ch];
    assert np !in prefixes;
    assert |pre| == |prefixes| + 1;
    GrowKeys(arena, n, ch);
    GrowEdges(arena, paths, n, ch);
    GrowReach(arena, paths, prefixes, n, ch);
    GrowPaths(arena, paths, prefixes, codes, n, ch);
  }

  lemma GrowPaths(arena: seq<TrieNode>, paths: seq<string>, prefixes: set<string>, codes: set<string>, n: nat, ch: char)
    requires |paths| == |arena| && n < |arena| && paths[n] + [ch] !in prefixes
    requires forall i :: 0 <= i < |arena| ==> paths[i] in prefixes
    requires forall i, j :: 0 <= i < |arena| && 0 <= j < |arena| && paths[i] == paths[j] ==> i == j
    requires forall i :: 0 <= i < |arena| ==> (arena[i].terminal <==> paths[i] in codes)
    requires forall c :: c in codes ==> c in prefixes
    ensures forall i, j :: (0 <= i < |arena| + 1 && 0 <= j < |arena| + 1 &&
      (paths + [paths[n] + [ch]])[i] == (paths + [paths[n] + [ch]])[j]) ==> i == j
    ensures forall i :: 0 <= i < |arena| + 1 ==>
      (Grow(arena, n, ch)[i].terminal <==> (paths + [paths[n] + [ch]])[i] in codes)
  {
    var a, ps := Grow(arena, n, ch), paths + [paths[n] + [ch]];
    var np := paths[n] + [ch];
    assert forall j :: 0 <= j < |arena| ==> ps[j] != np;
    forall i | 0 <= i < |a| ensures (a[i].terminal <==> ps[i] in codes) {
      if i < |arena| { assert a[i].terminal == arena[i].terminal; }
    }
  }

  /** The arena after marking node `n` terminal. */
  function Mark(arena: seq<TrieNode>, n: nat): (a: seq<TrieNode>)
    requires n < |arena|
  {
    arena[n := arena[n].(terminal := true)]
  }

  lemma MarkShape(arena: seq<TrieNode>, paths: seq<string>, prefixes: set<string>, codes: set<string>, n: nat)
    requires Shape(arena, paths, prefixes, codes) && n < |arena|
    ensures Shape(Mark(arena, n), paths, prefixes, codes + {paths[n]})
  {
    var a := Mark(arena, n);
    forall i | 0 <= i < |a| ensures (a[i].terminal <==> paths[i] in codes + {paths[n]}) {

    }
    forall i | 0 <= i < |a| ensures KeysMatch(a[i]) {
      assert a[i].keys == arena[i].keys && a[i].children == arena[i].children;
    }
  }

  lemma PrefixesInsert(codes: set<string>, code: string)
    ensures Prefixes(codes + {code}) == Prefixes(codes) + PrefixesUpTo(code, |code|)
    ensures Prefixes({code}) == PrefixesUpTo(code, |code|)
  {
    assert code[..0] == "";
    forall p | p in Prefixes(codes + {code}) ensures p in Prefixes(codes) + PrefixesUpTo(code, |code|) {
      if p != "" {
        var c, m :| c in codes + {code} && 0 <= m <= |c| && p == c[..m];
        if c == code { assert p in PrefixesUpTo(code, |code|); }
      }
    }
    forall p | p in PrefixesUpTo(code, |code|) ensures p in Prefixes({code}) {
      var m :| 0 <= m <= |code| && p == code[..m];
    }
  }

  lemma UpToClosed(codes: set<string>, code: string, i: nat)
    requires i <= |code|
    ensures PrefixClosed(Prefixes(codes) + PrefixesUpTo(code, i))
  {
    PrefixesClosed(codes);
    forall p, k | p in Prefixes(codes) + PrefixesUpTo(code, i) && 0 <= k <= |p|
      ensures p[..k] in Prefixes(codes) + PrefixesUpTo(code, i)
    {
      if p !in Prefixes(codes) {
        var m :| 0 <= m <= i && p == code[..m];
        assert p[..k] == code[..k];
      }
    }
  }

  lemma PrefixesOfMember(codes: set<string>, code: string, k: nat)
    requires code in codes && k <= |code|
    ensures code[..k] in Prefixes(codes)
  {
  }

  lemma UpToStep(code: string, i: nat)
    requires i < |code|
    ensures PrefixesUpTo(code, i + 1) == PrefixesUpTo(code, i) + {code[..i + 1]}
  {
  }

  /** A step of `add_code` that has to create the child for `code[i]`. */
  lemma DescendNew(a: seq<TrieNode>, ps: seq<string>, pre: set<string>, codes: set<string>, code: string, i: nat, n: nat)
    requires Shape(a, ps, pre, codes) && n < |a| && i < |code| && ps[n] == code[..i]
    requires pre == Prefixes(codes) + PrefixesUpTo(code, i)
    requires code[i] !in a[n].children
    ensures code !in codes && code[..i + 1] == ps[n] + [code[i]]
    ensures Shape(Grow(a, n, code[i]), ps + [code[..i + 1]], pre + {code[..i + 1]}, codes)
    ensures pre + {code[..i + 1]} == Prefixes(codes) + PrefixesUpTo(code, i + 1)
  {
    var ch := code[i];
    assert code[..i + 1] == ps[n] + [ch];
    assert code[..i + 1] !in Prefixes(codes);
    assert code !in codes by {
      forall k | i + 1 <= k <= |code| ensures code[..k] !in Prefixes(codes) {
        PrefixesClosed(codes);
        assert code[..k][..i + 1] == code[..i + 1];
      }
      assert code[..|code|] == code;
      PrefixesClosed(codes);
    }
    UpToClosed(codes, code, i);
    PrefixesClosed(codes);
    GrowShape(a, ps, pre, codes, n, ch);
    UpToStep(code, i);
  }

  /** A step of `add_code` that follows an existing edge. */
  lemma DescendOld(a: seq<TrieNode>, ps: seq<string>, pre: set<string>, codes: set<string>, code: string, i: nat, n: nat)
    requires Shape(a, ps, pre, codes) && n < |a| && i < |code| && ps[n] == code[..i]
    requires pre == Prefixes(codes) + PrefixesUpTo(code, i)
    requires code[i] in a[n].children
    ensures ps[a[n].children[code[i]]] == code[..i + 1]
    ensures pre == Prefixes(codes) + PrefixesUpTo(code, i + 1)
  {
    assert code[..i + 1] == ps[n] + [code[i]];
    UpToStep(code, i);
  }

  /** After the walk down `code`, marking its node gives the trie of `codes + {code}`. */
  lemma AddFinish(a: seq<TrieNode>, ps: seq<string>, pre: set<string>, codes: set<string>, code: string, n: nat)
    requires Shape(a, ps, pre, codes) && n < |a| && ps[n] == code
    requires pre == Prefixes(codes) + PrefixesUpTo(code, |code|)
    ensures Shape(Mark(a, n), ps, pre, codes + {code})
    ensures pre == Prefixes(codes + {code})
    ensures pre == Prefixes(codes) + Prefixes({code})
    ensures |Mark(a, n)| == |Prefixes(codes)| + |Prefixes({code}) - Prefixes(codes)|
    ensures code in codes ==> Mark(a, n) == a
  {
    MarkShape(a, ps, pre, codes, n);
    if code in codes {
      assert a[n].terminal;
      assert Mark(a, n) == a;
    }
    PrefixesInsert(codes, code);
    assert pre == Prefixes(codes) + (Prefixes({code}) - Prefixes(codes));
  }

  /**
   * The loop of `add_code`: follows `code` from the root, creating each
   * missing child, and returns the grown arena and the node for `code`.
   */
  method Descend(arena: seq<TrieNode>, ghost paths: seq<string>, ghost codes: set<string>, code: string)
      returns (a: seq<TrieNode>, n: nat, ghost ps: seq<string>, ghost pre: set<string>)
    requires Shape(arena, paths, Prefixes(codes), codes)
    ensures Shape(a, ps, pre, codes) && n < |a| && ps[n] == code
    ensures pre == Prefixes(codes) + PrefixesUpTo(code, |code|)
    ensures code in codes ==> a == arena && ps == paths
  {
    a, ps, pre := arena, paths, Prefixes(codes);
    n := 0;
    var i := 0;
    while i < |code|
      invariant 0 <= i <= |code|
      invariant Shape(a, ps, pre, codes) && n < |a| && ps[n] == code[..i]
      invariant pre == Prefixes(codes) + PrefixesUpTo(code, i)
      invariant code in codes ==> a == arena && ps == paths
    {
      var ch := code[i];
      if ch !in a[n].children {
        DescendNew(a, ps, pre, codes, code, i, n);
        a := Grow(a, n, ch);
        ps := ps + [code[..i + 1]];
        pre := pre + {code[..i + 1]};
      } else {
        DescendOld(a, ps, pre, codes, code, i, n);
      }
      n := a[n].children[ch];
      i := i + 1;
    }
    assert code[..i] == code;
  }

  /** `add_code` on the arena: the walk down `code`, then the terminal mark. */
  method InsertCode(arena: seq<TrieNode>, ghost paths: seq<string>, ghost codes: set<string>, code: string)
      returns (a: seq<TrieNode>, ghost ps: seq<string>, ghost pre: set<string>)
    requires Shape(arena, paths, Prefixes(codes), codes)
    ensures Shape(a, ps, pre, codes + {code}) && pre == Prefixes(codes + {code})
    ensures pre == Prefixes(codes) + Prefixes({code})
    ensures |a| == |Prefixes(codes)| + |Prefixes({code}) - Prefixes(codes)|
    ensures code in codes ==> a == arena
  {
    var n;
    a, n, ps, pre := Descend(arena, paths, codes, code);
    AddFinish(a, ps, pre, codes, code, n);
    a := Mark(a, n);
  }

  // ----- the depth-first expansion -----

  /** The stack entries pushed for the children of `node` at path `cur`, in edge order. */
  function Kids(cur: string, node: TrieNode): (s: seq<(string, nat)>)
    requires KeysMatch(node)
    ensures |s| == |node.keys|
  {
    seq(|node.keys|, j requires 0 <= j < |node.keys| => (cur + [node.keys[j]], node.children[node.keys[j]]))
  }

  ghost predicate Covered(stack: seq<(string, nat)>, s: string) {
    exists k :: 0 <= k < |stack| && stack[k].0 <= s
  }

  /** The prefixes still to be visited below some stack entry. */
  ghost function Pending(prefixes: set<string>, stack: seq<(string, nat)>): set<string> {
    set p | p in prefixes && Covered(stack, p)
  }

  /** A code the expansion of `prefix` must report: inserted, seven long, extending `prefix`. */
  ghost predicate Wanted(codes: set<string>, prefix: string, s: string) {
    s in codes && |s| == 7 && prefix <= s
  }

  /** Stack entries name arena nodes by their paths and lie under `prefix`. */
  ghost predicate EntriesOk(arena: seq<TrieNode>, paths: seq<string>, prefix: string, stack: seq<(string, nat)>)
    requires |paths| == |arena|
  {
    forall k :: 0 <= k < |stack| ==> stack[k].1 < |arena| && paths[stack[k].1] == stack[k].0 && prefix <= stack[k].0
  }

  /** Emitted codes are wanted and distinct. */
  ghost predicate OutOk(codes: set<string>, prefix: string, out: seq<string>) {
    (forall s :: s in out ==> Wanted(codes, prefix, s)) && NoDup(out)
  }

  /** No stack entry is a prefix of an emitted code. */
  ghost predicate Apart(stack: seq<(string, nat)>, out: seq<string>) {
    forall k, s :: 0 <= k < |stack| && s in out ==> !(stack[k].0 <= s)
  }

  /** No stack entry is a prefix of another. */
  ghost predicate Incomparable(stack: seq<(string, nat)>) {
    forall k1, k2 :: 0 <= k1 < |stack| && 0 <= k2 < |stack| && k1 != k2 ==> !(stack[k1].0 <= stack[k2].0)
  }

  /** Every wanted code is emitted or lies below a stack entry. */
  ghost predicate Complete(codes: set<string>, prefix: string, stack: seq<(string, nat)>, out: seq<string>) {
    forall s :: Wanted(codes, prefix, s) ==> s in out || Covered(stack, s)
  }

  /** The loop invariant of `expand`. */
  ghost predicate DfsInv(arena: seq<TrieNode>, paths: seq<string>, codes: set<string>, prefix: string,
                         stack: seq<(string, nat)>, out: seq<string>)
    requires |paths| == |arena|
  {
    && EntriesOk(arena, paths, prefix, stack)
    && OutOk(codes, prefix, out)
    && Apart(stack, out)
    && Incomparable(stack)
    && Complete(codes, prefix, stack, out)
  }

  /** `out` after popping the top entry: the entry's path is appended when it is a terminal seven-character code. */
  function PopOut(arena: seq<TrieNode>, stack: seq<(string, nat)>, out: seq<string>): seq<string>
    requires stack != [] && stack[|stack| - 1].1 < |arena|
  {
    var (cur, n) := stack[|stack| - 1];
    if arena[n].terminal && |cur| == 7 then out + [cur] else out
  }

  /** The stack after popping the top entry and pushing its children. */
  function PopStack(arena: seq<TrieNode>, stack: seq<(string, nat)>): seq<(string, nat)>
    requires stack != [] && stack[|stack| - 1].1 < |arena| && KeysMatch(arena[stack[|stack| - 1].1])
  {
    var (cur, n) := stack[|stack| - 1];
    stack[..|stack| - 1] + Kids(cur, arena[n])
  }

  ghost predicate CanPop(arena: seq<TrieNode>, stack: seq<(string, nat)>) {
    stack != [] && stack[|stack| - 1].1 < |arena| && KeysMatch(arena[stack[|stack| - 1].1])
  }

  lemma PopStackAt(arena: seq<TrieNode>, stack: seq<(string, nat)>, k: nat)
    requires CanPop(arena, stack) && k < |PopStack(arena, stack)|
    ensures k < |stack| - 1 ==> PopStack(arena, stack)[k] == stack[k]
    ensures k >= |stack| - 1 ==>
      var (cur, n) := stack[|stack| - 1];
      var ch := arena[n].keys[k - (|stack| - 1)];
      ch in arena[n].children && PopStack(arena, stack)[k] == (cur + [ch], arena[n].children[ch])
  {
  }

  lemma StepEntries(arena: seq<TrieNode>, paths: seq<string>, prefixes: set<string>, codes: set<string>, prefix: string,
                    stack: seq<(string, nat)>)
    requires Shape(arena, paths, prefixes, codes) && EntriesOk(arena, paths, prefix, stack) && stack != []
    ensures CanPop(arena, stack) && EntriesOk(arena, paths, prefix, PopStack(arena, stack))
  {
    var st := PopStack(arena, stack);
    forall k | 0 <= k < |st| ensures st[k].1 < |arena| && paths[st[k].1] == st[k].0 && prefix <= st[k].0 {
      PopStackAt(arena, stack, k);
    }
  }

  lemma StepOut(arena: seq<TrieNode>, paths: seq<string>, prefixes: set<string>, codes: set<string>, prefix: string,
                stack: seq<(string, nat)>, out: seq<string>)
    requires Shape(arena, paths, prefixes, codes) && EntriesOk(arena, paths, prefix, stack) && stack != []
    requires OutOk(codes, prefix, out) && Apart(stack, out)
    ensures stack[|stack| - 1].1 < |arena| && OutOk(codes, prefix, PopOut(arena, stack, out))
  {
    var (cur, n) := stack[|stack| - 1];
    var out' := PopOut(arena, stack, out);
    if arena[n].terminal && |cur| == 7 {
      assert paths[n] == cur && cur in codes;
      assert cur !in out;
      forall i, j | 0 <= i < j < |out'| ensures out'[i] != out'[j] {
        if j == |out| { assert out[i] in out; }
      }
    }
  }

  lemma StepApart(arena: seq<TrieNode>, stack: seq<(string, nat)>, out: seq<string>)
    requires CanPop(arena, stack) && Apart(stack, out) && Incomparable(stack)
    ensures Apart(PopStack(arena, stack), PopOut(arena, stack, out))
  {
    var (cur, n) := stack[|stack| - 1];
    var last := |stack| - 1;
    var st, out' := PopStack(arena, stack), PopOut(arena, stack, out);
    forall k, s | 0 <= k < |st| && s in out' ensures !(st[k].0 <= s) {
      PopStackAt(arena, stack, k);
      if k < last {
        if s == cur {
          assert !(stack[k].0 <= stack[last].0);
        }
      } else {
        var ch := arena[n].keys[k - last];
        assert !(cur <= s) || s == cur;
      }
    }
  }

  lemma StepIncomparable(arena: seq<TrieNode>, stack: seq<(string, nat)>)
    requires CanPop(arena, stack) && Incomparable(stack)
    ensures Incomparable(PopStack(arena, stack))
  {
    var (cur, n) := stack[|stack| - 1];
    var last := |stack| - 1;
    var st := PopStack(arena, stack);
    forall k1, k2 | 0 <= k1 < |st| && 0 <= k2 < |st| && k1 != k2 ensures !(st[k1].0 <= st[k2].0) {
      PopStackAt(arena, stack, k1);
      PopStackAt(arena, stack, k2);
      if k1 < last && k2 < last {
      } else if k1 < last {
        var ch := arena[n].keys[k2 - last];
        assert !(stack[k1].0 <= cur) && !(cur <= stack[k1].0);
      } else if k2 < last {
        var ch := arena[n].keys[k1 - last];
        assert !(cur <= stack[k2].0);
      } else {
        var c1, c2 := arena[n].keys[k1 - last], arena[n].keys[k2 - last];
        assert c1 != c2;
        assert (cur + [c1])[|cur|] != (cur + [c2])[|cur|];
      }
    }
  }

  lemma StepComplete(arena: seq<TrieNode>, paths: seq<string>, prefixes: set<string>, codes: set<string>, prefix: string,
                     stack: seq<(string, nat)>, out: seq<string>)
    requires Shape(arena, paths, prefixes, codes) && prefixes == Prefixes(codes)
    requires EntriesOk(arena, paths, prefix, stack) && stack != [] && Complete(codes, prefix, stack, out)
    ensures CanPop(arena, stack) && Complete(codes, prefix, PopStack(arena, stack), PopOut(arena, stack, out))
  {
    assert stack[|stack| - 1].1 < |arena|;
    forall s | Wanted(codes, prefix, s) ensures s in PopOut(arena, stack, out) || Covered(PopStack(arena, stack), s) {
      StepCompleteAt(arena, paths, codes, prefix, stack, out, s);
    }
  }

  /** A wanted code emitted or below the stack stays emitted or below the stack after one pop. */
  lemma StepCompleteAt(arena: seq<TrieNode>, paths: seq<string>, codes: set<string>, prefix: string,
                       stack: seq<(string, nat)>, out: seq<string>, s: string)
    requires Shape(arena, paths, Prefixes(codes), codes)
    requires EntriesOk(arena, paths, prefix, stack) && stack != []
    requires Wanted(codes, prefix, s) && (s in out || Covered(stack, s))
    ensures CanPop(arena, stack) && (s in PopOut(arena, stack, out) || Covered(PopStack(arena, stack), s))
  {
    var (cur, n) := stack[|stack| - 1];
    var last := |stack| - 1;
    assert n < |arena| && paths[n] == cur;
    if s !in out {
      var k :| 0 <= k < |stack| && stack[k].0 <= s;
      if k < last {
        PopStackAt(arena, stack, k);
      } else if s == cur {
        assert paths[n] in codes;
      } else {
        EdgeToward(arena, paths, codes, n, s);
        ChildCovers(arena, stack, s);
      }
    }
  }

  /** The node of a proper prefix of an inserted code has the edge for the code's next character. */
  lemma EdgeToward(arena: seq<TrieNode>, paths: seq<string>, codes: set<string>, n: nat, s: string)
    requires Shape(arena, paths, Prefixes(codes), codes) && n < |arena|
    requires s in codes && paths[n] < s
    ensures s[|paths[n]|] in arena[n].children
  {
    var cur := paths[n];
    assert s[..|cur| + 1] == cur + [s[|cur|]];
    PrefixesOfMember(codes, s, |cur| + 1);
  }

  /** A code strictly below the popped entry lies below one of the children pushed for it. */
  lemma ChildCovers(arena: seq<TrieNode>, stack: seq<(string, nat)>, s: string)
    requires CanPop(arena, stack)
    requires stack[|stack| - 1].0 < s && s[|stack[|stack| - 1].0|] in arena[stack[|stack| - 1].1].children
    ensures Covered(PopStack(arena, stack), s)
  {
    var (cur, n) := stack[|stack| - 1];
    var last := |stack| - 1;
    var ch := s[|cur|];
    assert ch in arena[n].keys;
    var j :| 0 <= j < |arena[n].keys| && arena[n].keys[j] == ch;
    PopStackAt(arena, stack, last + j);
    assert s[..|cur| + 1] == cur + [ch];
    assert PopStack(arena, stack)[last + j].0 <= s;
  }

  lemma StepProgress(arena: seq<TrieNode>, paths: seq<string>, prefixes: set<string>, codes: set<string>, prefix: string,
                     stack: seq<(string, nat)>)
    requires Shape(arena, paths, prefixes, codes) && EntriesOk(arena, paths, prefix, stack) && stack != []
    requires Incomparable(stack)
    ensures CanPop(arena, stack) && Pending(prefixes, PopStack(arena, stack)) < Pending(prefixes, stack)
  {
    var (cur, n) := stack[|stack| - 1];
    var last := |stack| - 1;
    var st := PopStack(arena, stack);
    assert cur in prefixes;
    assert cur in Pending(prefixes, stack) by { assert stack[last].0 <= cur; }
    assert cur !in Pending(prefixes, st) by {
      if Covered(st, cur) {
        var k :| 0 <= k < |st| && st[k].0 <= cur;
        PopStackAt(arena, stack, k);
      }
    }
    forall p | p in Pending(prefixes, st) ensures p in Pending(prefixes, stack) {
      var k :| 0 <= k < |st| && st[k].0 <= p;
      PopStackAt(arena, stack, k);
      if k >= last {
        assert stack[last].0 <= p;
      }
    }
  }

  /** One iteration of `expand` keeps its invariant and leaves fewer prefixes to visit. */
  lemma DfsStep(arena: seq<TrieNode>, paths: seq<string>, prefixes: set<string>, codes: set<string>, prefix: string,
                stack: seq<(string, nat)>, out: seq<string>)
    requires Shape(arena, paths, prefixes, codes) && prefixes == Prefixes(codes)
    requires DfsInv(arena, paths, codes, prefix, stack, out) && stack != []
    ensures CanPop(arena, stack)
    ensures DfsInv(arena, paths, codes, prefix, PopStack(arena, stack), PopOut(arena, stack, out))
    ensures Pending(prefixes, PopStack(arena, stack)) < Pending(prefixes, stack)
  {
    StepEntries(arena, paths, prefixes, codes, prefix, stack);
    StepOut(arena, paths, prefixes, codes, prefix, stack, out);
    StepApart(arena, stack, out);
    StepIncomparable(arena, stack);
    StepComplete(arena, paths, prefixes, codes, prefix, stack, out);
    StepProgress(arena, paths, prefixes, codes, prefix, stack);
  }

  /** One iteration of `expand`: pop the top entry, emit it if it is a terminal code, push its children. */
  method PopPush(arena: seq<TrieNode>, stack: seq<(string, nat)>, out: seq<string>)
      returns (stack': seq<(string, nat)>, out': seq<string>)
    requires CanPop(arena, stack)
    ensures stack' == PopStack(arena, stack) && out' == PopOut(arena, stack, out)
  {
    var (cur, n) := stack[|stack| - 1];
    stack' := stack[..|stack| - 1];
    out' := out;
    if arena[n].terminal && |cur| == 7 {
      out' := out' + [cur];
    }
    ghost var base := stack';
    var keys := arena[n].keys;
    for k := 0 to |keys|
      invariant stack' == base + Kids(cur, arena[n])[..k]
    {
      var ch := keys[k];
      stack' := stack' + [(cur + [ch], arena[n].children[ch])];
    }
    assert Kids(cur, arena[n])[..|keys|] == Kids(cur, arena[n]);
  }

  class TablesTrie {
    var arena: seq<TrieNode>
    /** The node counter of the source: one per node ever created, root included. */
    var nodes: nat
    ghost var paths: seq<string>
    ghost var codes: set<string>
    ghost var prefixes: set<string>

    ghost predicate Valid()
      reads this
    {
      && Shape(arena, paths, prefixes, codes)
      && nodes == |arena|
      && prefixes == Prefixes(codes)
    }

    constructor ()
      ensures Valid()
      ensures codes == {} && nodes == 1
    {
      arena := [EmptyNode];
      nodes := 1;
      paths := [""];
      codes := {};
      prefixes := {""};
    }

    /** The node `walk(token)` reaches, as a function of the trie. */
    function Find(token: string): (r: Option<nat>)
      reads this
      requires Valid()
      ensures r.Some? ==> r.value < |arena|
    {
      Locate(arena, token)
    }

    /** `walk` finds a node exactly for the prefixes of inserted codes; that node spells the token. */
    lemma FindSpec(token: string)
      requires Valid()
      ensures Find(token).Some? <==> token in prefixes
      ensures Find(token).Some? ==> paths[Find(token).value] == token
    {
      PrefixesClosed(codes);
      LocateSpec(arena, paths, prefixes, codes, token);
    }

    /** A node is terminal exactly when its path is an inserted code. */
    lemma TerminalSpec(token: string)
      requires Valid()
      ensures Find(token).Some? && arena[Find(token).value].terminal <==> token in codes
    {
      FindSpec(token);
      if token in codes {
        PrefixesOfMember(codes, token, |token|);
        assert token[..|token|] == token;
      }
    }

    /** The edge characters of node `n` are exactly the characters extending its path to another prefix. */
    lemma ChildrenSpec(n: nat)
      requires Valid() && n < |arena|
      ensures forall c :: c in arena[n].keys <==> paths[n] + [c] in prefixes
    {
      forall c ensures c in arena[n].keys <==> paths[n] + [c] in prefixes {
        if c in arena[n].keys {
          assert paths[arena[n].children[c]] == paths[n] + [c];
        }
      }
    }

    method AddCode(code: string)
      requires Valid()
      modifies this
      ensures Valid()
      ensures codes == old(codes) + {code}
      ensures prefixes == old(prefixes) + Prefixes({code})
      ensures nodes == old(nodes) + |Prefixes({code}) - old(prefixes)|
      ensures old(code in codes) ==> arena == old(arena) && nodes == old(nodes)
    {
      ghost var ps, pre;
      var a;
      a, ps, pre := InsertCode(arena, paths, codes, code);
      arena, nodes := a, |a|;
      paths, codes, prefixes := ps, codes + {code}, pre;
    }

    method Walk(token: string) returns (r: Option<nat>)
      requires Valid()
      ensures r == Find(token)
      ensures r.Some? <==> token in prefixes
      ensures r.Some? ==> r.value < |arena| && paths[r.value] == token
    {
      FindSpec(token);
      var node := 0;
      var i := 0;
      while i < |token|
        invariant 0 <= i <= |token|
        invariant Find(token[..i]) == Some(node)
      {
        var ch := token[i];
        assert token[..i + 1][..i] == token[..i];
        if ch !in arena[node].children {
          FindSpec(token[..i + 1]);
          PrefixesClosed(codes);
          return None;
        }
        node := arena[node].children[ch];
        i := i + 1;
      }
      assert token[..i] == token;
      return Some(node);
    }

    method Expand(prefix: string, limit: int) returns (r: seq<string>)
      requires Valid()
      ensures |r| <= (if limit > 0 then limit else 0)
      ensures StrictlyIncreasing(r)
      ensures forall s :: s in r ==> s in codes && |s| == 7 && prefix <= s
      ensures prefix !in prefixes ==> r == []
      ensures |r| < limit ==> forall s :: s in codes && |s| == 7 && prefix <= s ==> s in r
    {
      assert forall s :: s in codes && prefix <= s ==> prefix in prefixes by {
        forall s | s in codes && prefix <= s ensures prefix in prefixes {
          assert prefix == s[..|prefix|];
        }
      }
      var start := Walk(prefix);
      if start.None? {
        return [];
      }
      var out: seq<string> := [];
      var stack: seq<(string, nat)> := [(prefix, start.value)];
      assert forall s :: Wanted(codes, prefix, s) ==> Covered(stack, s) by {
        forall s | Wanted(codes, prefix, s) ensures Covered(stack, s) { assert stack[0].0 <= s; }
      }
      while stack != [] && |out| < limit
        invariant DfsInv(arena, paths, codes, prefix, stack, out)
        invariant |out| <= (if limit > 0 then limit else 0)
        decreases Pending(prefixes, stack)
      {
        DfsStep(arena, paths, prefixes, codes, prefix, stack, out);
        stack, out := PopPush(arena, stack, out);
      }
      r := SortStrings(out);
      SortStringsDistinct(out);
      MultisetElements(out, r);
    }
  }
}
