/**
 * The code-space engine of pcs_tables_engine.py: the row fold that builds
 * the trie from the tables reference, and the queries over it
 * (`is_valid`, `is_potential_prefix`, `expand`, `_label`, `explain`,
 * `nearest_explanations`).
 *
 * The XML stream is replaced by the events the loop reacts to: the start
 * and end of a `pcsRow`, the end of an `axis` (its `pos` attribute parsed
 * to an integer or absent, and its `label` descendants in document order)
 * and anything else.
 */
module PcsTables {
  import opened Common
  import opened Text
  import opened PcsTrie

  /** A `label` element: its `code` attribute, if any, and its text ("" when it has none). */
  datatype AxisLabel = AxisLabel(code: Option<string>, text: string)

  datatype Event =
    | StartRow
    | EndRow
    | AxisEnd(pos: Option<int>, labels: seq<AxisLabel>)
    | Other

  /** Axis position -> value -> label text. */
  type Labels = map<int, map<string, string>>

  /** `labels.get(pos, {}).get(c)` */
  function Lookup(labels: Labels, pos: int, c: string): Option<string> {
    if pos in labels && c in labels[pos] then Some(labels[pos][c]) else None
  }

  // ----- one axis -----

  /** The `code` attributes of an axis's labels, in order; labels without one are skipped. */
  function AxisValues(labs: seq<AxisLabel>): (r: seq<string>)
    ensures |r| <= |labs|
    ensures forall c :: c in r <==> exists k :: 0 <= k < |labs| && labs[k].code == Some(c)
  {
    if labs == [] then []
    else
      var last := labs[|labs| - 1];
      AxisValues(labs[..|labs| - 1]) + (if last.code.Some? then [last.code.value] else [])
  }

  /** The effect of one label on the label store: recorded when it has a code and non-empty text. */
  function RecordLabel(labels: Labels, pos: int, lab: AxisLabel): Labels {
    if lab.code.Some? && lab.text != "" then
      labels[pos := (if pos in labels then labels[pos] else map[])[lab.code.value := lab.text]]
    else labels
  }

  function RecordLabels(labels: Labels, pos: int, labs: seq<AxisLabel>): Labels {
    if labs == [] then labels
    else RecordLabel(RecordLabels(labels, pos, labs[..|labs| - 1]), pos, labs[|labs| - 1])
  }

  /** The text of the last label of `labs` that has code `c` and non-empty text. */
  function LastText(labs: seq<AxisLabel>, c: string): Option<string> {
    if labs == [] then None
    else
      var last := labs[|labs| - 1];
      if last.code == Some(c) && last.text != "" then Some(last.text) else LastText(labs[..|labs| - 1], c)
  }

  /** Labels are last-writer-wins per (position, value); other positions are untouched. */
  lemma {:induction false} RecordLabelsLastWins(labels: Labels, pos: int, labs: seq<AxisLabel>, q: int, c: string)
    ensures q != pos ==> Lookup(RecordLabels(labels, pos, labs), q, c) == Lookup(labels, q, c)
    ensures q == pos ==> (Lookup(RecordLabels(labels, pos, labs), q, c) ==
      (if LastText(labs, c).Some? then LastText(labs, c) else Lookup(labels, q, c)))
  {
    if labs != [] {
      RecordLabelsLastWins(labels, pos, labs[..|labs| - 1], q, c);
    }
  }

  // ----- one row -----

  /** `itertools.product` of the value lists, each combination joined into one string. */
  function Product(ls: seq<seq<string>>): (r: seq<string>)
    decreases |ls|
  {
    if ls == [] then [""] else Prefixed(ls[0], Product(ls[1..]))
  }

  /** Every `x + y` with `x` from `xs` and `y` from `ys`, `xs` outermost. */
  function Prefixed(xs: seq<string>, ys: seq<string>): (r: seq<string>)
    ensures forall s :: s in r <==> exists i, j :: 0 <= i < |xs| && 0 <= j < |ys| && s == xs[i] + ys[j]
  {
    if xs == [] then []
    else
      var head := seq(|ys|, j requires 0 <= j < |ys| => xs[0] + ys[j]);
      var tail := Prefixed(xs[1..], ys);
      assert forall s :: s in head + tail <==> exists i, j :: 0 <= i < |xs| && 0 <= j < |ys| && s == xs[i] + ys[j] by {
        forall s ensures s in head + tail <==> exists i, j :: 0 <= i < |xs| && 0 <= j < |ys| && s == xs[i] + ys[j] {
          if s in head {
            var j :| 0 <= j < |ys| && head[j] == s;
            assert s == xs[0] + ys[j];
          }
          if s in tail {
            var i, j :| 0 <= i < |xs[1..]| && 0 <= j < |ys| && s == xs[1..][i] + ys[j];
            assert s == xs[i + 1] + ys[j];
          }
          if exists i, j :: 0 <= i < |xs| && 0 <= j < |ys| && s == xs[i] + ys[j] {
            var i, j :| 0 <= i < |xs| && 0 <= j < |ys| && s == xs[i] + ys[j];
            if i == 0 { assert head[j] == s; } else { assert s == xs[1..][i - 1] + ys[j]; }
          }
        }
      }
      head + tail
  }

  predicate SingleChars(xs: seq<string>) {
    forall i :: 0 <= i < |xs| ==> |xs[i]| == 1
  }

  /**
   * When every value is one character, a string is a combination of the
   * rows' value lists exactly when it has one character per list, each
   * taken from that list.
   */
  lemma ProductSingleChars(ls: seq<seq<string>>, s: string)
    requires forall k :: 0 <= k < |ls| ==> SingleChars(ls[k])
    ensures s in Product(ls) <==> |s| == |ls| && forall k :: 0 <= k < |ls| ==> s[k..k + 1] in ls[k]
  {
    if s in Product(ls) {
      ProductSound(ls, s);
    }
    if |s| == |ls| && forall k :: 0 <= k < |ls| ==> s[k..k + 1] in ls[k] {
      ProductComplete(ls, s);
    }
  }

  lemma {:induction false} ProductSound(ls: seq<seq<string>>, s: string)
    requires forall k :: 0 <= k < |ls| ==> SingleChars(ls[k])
    requires s in Product(ls)
    ensures |s| == |ls| && forall k :: 0 <= k < |ls| ==> s[k..k + 1] in ls[k]
    decreases |ls|
  {
    if ls != [] {
      var rest := Product(ls[1..]);
      var i, j :| 0 <= i < |ls[0]| && 0 <= j < |rest| && s == ls[0][i] + rest[j];
      ProductSound(ls[1..], rest[j]);
      OneEachCons(ls, ls[0][i], rest[j]);
    }
  }

  /** A one-character value of the first list before a combination of the others is a combination of all. */
  lemma OneEachCons(ls: seq<seq<string>>, h: string, t: string)
    requires ls != [] && h in ls[0] && |h| == 1
    requires |t| == |ls| - 1 && forall k :: 0 <= k < |ls| - 1 ==> t[k..k + 1] in ls[1..][k]
    ensures |h + t| == |ls| && forall k :: 0 <= k < |ls| ==> (h + t)[k..k + 1] in ls[k]
  {
    var s := h + t;
    forall k | 0 <= k < |ls| ensures s[k..k + 1] in ls[k] {
      if k == 0 {
        assert s[0..1] == h;
      } else {
        assert s[k..k + 1] == t[k - 1..k];
        assert t[k - 1..k] in ls[1..][k - 1];
      }
    }
  }

  lemma {:induction false} ProductComplete(ls: seq<seq<string>>, s: string)
    requires forall k :: 0 <= k < |ls| ==> SingleChars(ls[k])
    requires |s| == |ls| && forall k :: 0 <= k < |ls| ==> s[k..k + 1] in ls[k]
    ensures s in Product(ls)
    decreases |ls|
  {
    if ls == [] {
      assert s == "";
    } else {
      var t := s[1..];
      forall k | 0 <= k < |ls[1..]| ensures t[k..k + 1] in ls[1..][k] {
        assert t[k..k + 1] == s[k + 1..k + 2];
        assert s[k + 1..(k + 1) + 1] in ls[k + 1];
      }
      ProductComplete(ls[1..], t);
      var rest := Product(ls[1..]);
      assert s[0..1] in ls[0];
      var i :| 0 <= i < |ls[0]| && ls[0][i] == s[0..1];
      var j :| 0 <= j < |rest| && rest[j] == t;
      assert s == ls[0][i] + rest[j];
    }
  }

  /** All seven axis positions are present. */
  predicate RowComplete(axes: map<int, seq<string>>) {
    forall p :: 1 <= p <= 7 ==> p in axes
  }

  function RowAxes(axes: map<int, seq<string>>): (ls: seq<seq<string>>)
    requires RowComplete(axes)
    ensures |ls| == 7 && forall k :: 0 <= k < 7 ==> ls[k] == axes[k + 1]
  {
    [axes[1], axes[2], axes[3], axes[4], axes[5], axes[6], axes[7]]
  }

  /** The strings of length 7 among `xs`. */
  function SevenOf(xs: seq<string>): set<string> {
    set s | s in xs && |s| == 7
  }

  /** The codes a row contributes: the seven-character combinations when the row is complete, none otherwise. */
  function RowCodes(axes: map<int, seq<string>>): (r: set<string>)
    ensures !RowComplete(axes) ==> r == {}
    ensures forall s :: s in r ==> |s| == 7
  {
    if RowComplete(axes) then SevenOf(Product(RowAxes(axes))) else {}
  }

  /** For single-character axes, a row contributes exactly the codes whose k-th character is a value of axis k + 1. */
  lemma RowCodesSingleChars(axes: map<int, seq<string>>, s: string)
    requires RowComplete(axes) && forall p :: 1 <= p <= 7 ==> SingleChars(axes[p])
    ensures s in RowCodes(axes) <==> |s| == 7 && forall p :: 1 <= p <= 7 ==> s[p - 1..p] in axes[p]
  {
    var ls := RowAxes(axes);
    ProductSingleChars(ls, s);
    if |s| == 7 {
      if forall p :: 1 <= p <= 7 ==> s[p - 1..p] in axes[p] {
        forall k | 0 <= k < 7 ensures s[k..k + 1] in ls[k] {
          var p := k + 1;
          assert s[p - 1..p] in axes[p];
        }
      }
      if forall k :: 0 <= k < 7 ==> s[k..k + 1] in ls[k] {
        forall p | 1 <= p <= 7 ensures s[p - 1..p] in axes[p] {
          var k := p - 1;
          assert s[k..k + 1] in ls[k];
        }
      }
    }
  }

  // ----- the whole stream -----

  /** The loop state of `from_bytes`: `in_row`, `axes`, `labels` and the codes added to the trie so far. */
  datatype Build = Build(inRow: bool, axes: map<int, seq<string>>, labels: Labels, codes: set<string>)

  const Start := Build(false, map[], map[], {})

  function Step(b: Build, e: Event): Build {
    match e
    case StartRow => b.(inRow := true, axes := map[])
    case EndRow => b.(inRow := false, axes := map[], codes := b.codes + RowCodes(b.axes))
    case AxisEnd(pos, labs) =>
      if b.inRow && pos.Some? then
        var values := AxisValues(labs);
        b.(axes := if values != [] then b.axes[pos.value := values] else b.axes,
           labels := RecordLabels(b.labels, pos.value, labs))
      else b
    case Other => b
  }

  function Run(events: seq<Event>): Build {
    if events == [] then Start else Step(Run(events[..|events| - 1]), events[|events| - 1])
  }

  /** A row's end adds its codes (none when incomplete) and keeps the labels; an axis outside a row changes nothing. */
  lemma StepEffects(b: Build, e: Event)
    ensures e.EndRow? ==> Step(b, e).codes == b.codes + RowCodes(b.axes) && Step(b, e).labels == b.labels
    ensures e.EndRow? && !RowComplete(b.axes) ==> Step(b, e).codes == b.codes
    ensures !e.EndRow? ==> Step(b, e).codes == b.codes
    ensures e.AxisEnd? && !b.inRow ==> Step(b, e) == b
    ensures e.AxisEnd? && b.inRow && e.pos.Some? && AxisValues(e.labels) != [] ==>
      Step(b, e).axes == b.axes[e.pos.value := AxisValues(e.labels)]
    ensures e.AxisEnd? && AxisValues(e.labels) == [] ==> Step(b, e).axes == b.axes
  {
  }

  /** Every code the fold adds has seven characters and comes from a complete row. */
  lemma {:induction false} RunCodes(events: seq<Event>, s: string)
    requires s in Run(events).codes
    ensures exists i :: FromRow(events, i, s)
  {
    var init := events[..|events| - 1];
    var b := Run(init);
    StepEffects(b, events[|events| - 1]);
    if s in b.codes {
      RunCodes(init, s);
      var i :| FromRow(init, i, s);
      FromRowExtend(events, i, s);
    } else {
      assert events[|events| - 1].EndRow? && s in RowCodes(b.axes);
      assert FromRow(events, |events| - 1, s);
    }
  }

  lemma FromRowExtend(events: seq<Event>, i: int, s: string)
    requires events != [] && FromRow(events[..|events| - 1], i, s)
    ensures FromRow(events, i, s)
  {
    assert events[..|events| - 1][..i] == events[..i];
  }

  /** Code `s` is one of those the row ending at event `i` contributes. */
  ghost predicate FromRow(events: seq<Event>, i: int, s: string) {
    0 <= i < |events| && events[i].EndRow? && s in RowCodes(Run(events[..i]).axes)
  }

  /** Every complete row's codes end up in the code set. */
  lemma {:induction false} RunCodesComplete(events: seq<Event>, i: nat)
    requires i < |events| && events[i].EndRow?
    ensures RowCodes(Run(events[..i]).axes) <= Run(events).codes
    decreases |events|
  {
    var init := events[..|events| - 1];
    var b, e := Run(init), events[|events| - 1];
    assert Run(events) == Step(b, e);
    StepEffects(b, e);
    assert b.codes <= Run(events).codes;
    if i < |events| - 1 {
      assert init[..i] == events[..i];
      RunCodesComplete(init, i);
    } else {
      assert init == events[..i];
    }
  }

  /** The code set only grows along the stream. */
  lemma {:induction false} RunCodesGrow(events: seq<Event>, i: nat)
    requires i <= |events|
    ensures Run(events[..i]).codes <= Run(events).codes
    decreases |events|
  {
    if i < |events| {
      var init := events[..|events| - 1];
      assert init[..i] == events[..i];
      RunCodesGrow(init, i);
      assert events[..|events|] == events;
    } else {
      assert events[..i] == events;
    }
  }

  // ----- the engine -----

  /** The source's message strings. */
  const NotLegal := "Not a legal 2025 PCS code."
  const NotInTables := "Prefix not in tables; try a shorter start."
  const DeadEnd := "Prefix is a dead end per tables."
  const NextAllowed := "Next allowed chars → "

  /**
   * What `expand(prefix, limit)` promises: ascending seven-character codes
   * of the tables that extend the prefix, at most `limit` of them, and all
   * of them when fewer than `limit` come back.
   */
  ghost predicate ExpansionOf(codes: set<string>, prefix: string, limit: int, r: seq<string>) {
    && |r| <= (if limit > 0 then limit else 0)
    && StrictlyIncreasing(r)
    && (forall s :: s in r ==> s in codes && |s| == 7 && prefix <= s)
    && (|r| < limit ==> forall s :: s in codes && |s| == 7 && prefix <= s ==> s in r)
  }

  class TablesEngine {
    const trie: TablesTrie
    const labels: Labels

    ghost predicate Valid()
      reads trie
    {
      trie.Valid()
    }

    constructor (trie: TablesTrie, labels: Labels)
      ensures this.trie == trie && this.labels == labels
    {
      this.trie := trie;
      this.labels := labels;
    }

    /** `is_valid`: the normalised code has seven characters and spells an inserted code. */
    function IsValid(code: string): (r: bool)
      reads trie
      requires Valid()
      ensures r <==> |Normalize(code)| == 7 && Normalize(code) in trie.codes
    {
      var c := Normalize(code);
      trie.TerminalSpec(c);
      |c| == 7 && trie.Find(c).Some? && trie.arena[trie.Find(c).value].terminal
    }

    /** `is_potential_prefix`: one to seven normalised characters on an existing path. */
    function IsPotentialPrefix(token: string): (r: bool)
      reads trie
      requires Valid()
      ensures r <==> 1 <= |Normalize(token)| <= 7 && Normalize(token) in trie.prefixes
    {
      var t := Normalize(token);
      trie.FindSpec(t);
      1 <= |t| <= 7 && trie.Find(t).Some?
    }

    /** Every valid code is also a potential prefix. */
    lemma ValidIsPotentialPrefix(code: string)
      requires Valid() && IsValid(code)
      ensures IsPotentialPrefix(code)
    {
      var c := Normalize(code);
      PrefixesOfMember(trie.codes, c, 7);
      assert c[..7] == c;
    }

    /** `expand`: the trie's bounded expansion of the normalised prefix. */
    method Expand(prefix: string, limit: int) returns (r: seq<string>)
      requires Valid()
      ensures |r| <= (if limit > 0 then limit else 0)
      ensures StrictlyIncreasing(r)
      ensures forall s :: s in r ==> s in trie.codes && |s| == 7 && Normalize(prefix) <= s
      ensures Normalize(prefix) !in trie.prefixes ==> r == []
      ensures |r| < limit ==> forall s :: s in trie.codes && |s| == 7 && Normalize(prefix) <= s ==> s in r
    {
      r := trie.Expand(Normalize(prefix), limit);
    }

      /** `_label`: the recorded label, or the value itself when none was recorded. */
    function Label(pos: int, c: string): (r: string)
      ensures Lookup(labels, pos, c).Some? ==> r == Lookup(labels, pos, c).value
      ensures Lookup(labels, pos, c).None? ==> r == c
    {
      if pos in labels && c in labels[pos] then labels[pos][c] else c
    }

    /** The parts of `explain` for a seven-character code: part k is "k+1:c = label" for its (k+1)-th character. */
    function ExplainParts(c: string): (parts: seq<string>)
      requires |c| == 7
      ensures |parts| == 7
      ensures forall k :: 0 <= k < 7 ==> parts[k] == NatToString(k + 1) + ":" + [c[k]] + " = " + Label(k + 1, [c[k]])
    {
      seq(7, k requires 0 <= k < 7 => NatToString(k + 1) + ":" + [c[k]] + " = " + Label(k + 1, [c[k]]))
    }

    /** `explain`: the fixed diagnostic for an invalid code, else the seven labelled positions joined by " | ". */
    function Explain(code: string): (r: string)
      reads trie
      requires Valid()
      ensures !IsValid(code) ==> r == NotLegal
      ensures IsValid(code) ==> |Normalize(code)| == 7 && r == Join(" | ", ExplainParts(Normalize(code)))
    {
      var c := Normalize(code);
      NormalizeIdempotent(code);
      if !IsValid(c) then NotLegal else Join(" | ", ExplainParts(c))
    }

    /** The characters that may follow the normalised token, in ascending order. */
    function NextChars(token: string): (r: seq<char>)
      reads trie
      requires Valid() && trie.Find(Normalize(token)).Some?
      ensures SortedBy(r, CharLe) && NoDup(r)
      ensures forall c :: c in r <==> Normalize(token) + [c] in trie.prefixes
    {
      var t := Normalize(token);
      var n := trie.Find(t).value;
      trie.FindSpec(t);
      trie.ChildrenSpec(n);
      var r := SortChars(trie.arena[n].keys);
      MultisetElements(trie.arena[n].keys, r);
      PermutationNoDup(trie.arena[n].keys, r);
      r
    }

    /** The parts of `nearest_explanations`: "pos:c=label" for each option, in order. */
    function NextParts(pos: nat, opts: seq<char>): (parts: seq<string>)
      ensures |parts| == |opts|
      ensures forall k :: 0 <= k < |opts| ==> parts[k] == NatToString(pos) + ":" + [opts[k]] + "=" + Label(pos, [opts[k]])
    {
      seq(|opts|, k requires 0 <= k < |opts| => NatToString(pos) + ":" + [opts[k]] + "=" + Label(pos, [opts[k]]))
    }

    /**
     * `nearest_explanations`: "not in tables" when the walk fails, "dead
     * end" when nothing may follow, otherwise the next characters in
     * ascending order, labelled for position `len(token) + 1`.
     */
    function NearestExplanations(token: string): (r: string)
      reads trie
      requires Valid()
      ensures Normalize(token) !in trie.prefixes ==> r == NotInTables
      ensures Normalize(token) in trie.prefixes && (forall c :: Normalize(token) + [c] !in trie.prefixes) ==> r == DeadEnd
      ensures Normalize(token) in trie.prefixes && (exists c :: Normalize(token) + [c] in trie.prefixes) ==>
        trie.Find(Normalize(token)).Some? &&
        r == NextAllowed + Join(", ", NextParts(|Normalize(token)| + 1, NextChars(token)))
    {
      var t := Normalize(token);
      trie.FindSpec(t);
      if trie.Find(t).None? then NotInTables
      else
        var opts := NextChars(token);
        if opts == [] then DeadEnd
        else
          assert opts[0] in opts;
          NextAllowed + Join(", ", NextParts(|t| + 1, opts))
    }
  }

  /** `from_bytes` builds the trie and labels of its reference stream; every inserted code has seven characters. */
  method FromEvents(events: seq<Event>) returns (e: TablesEngine)
    ensures fresh(e) && fresh(e.trie) && e.Valid()
    ensures e.trie.codes == Run(events).codes && e.labels == Run(events).labels
    ensures forall s :: s in e.trie.codes ==> |s| == 7
  {
    var trie := new TablesTrie();
    var inRow := false;
    var axes: map<int, seq<string>> := map[];
    var labels: Labels := map[];
    for i := 0 to |events|
      invariant fresh(trie) && trie.Valid()
      invariant Build(inRow, axes, labels, trie.codes) == Run(events[..i])
    {
      assert events[..i + 1][..i] == events[..i];
      match events[i]
      case StartRow =>
        inRow := true;
        axes := map[];
      case EndRow =>
        if RowComplete(axes) {
          AddRow(trie, Product(RowAxes(axes)));
        }
        inRow := false;
        axes := map[];
      case AxisEnd(pos, labs) =>
        if inRow && pos.Some? {
          var values;
          values, labels := ReadAxis(labs, labels, pos.value);
          if values != [] {
            axes := axes[pos.value := values];
          }
        }
      case Other =>
    }
    assert events[..|events|] == events;
    e := new TablesEngine(trie, labels);
    RunCodesSeven(events);
  }

  /** The label loop of an axis inside a row: its values, and the labels with this axis's texts recorded. */
  method ReadAxis(labs: seq<AxisLabel>, labels: Labels, pos: int) returns (values: seq<string>, labels': Labels)
    ensures values == AxisValues(labs) && labels' == RecordLabels(labels, pos, labs)
  {
    values, labels' := [], labels;
    for j := 0 to |labs|
      invariant values == AxisValues(labs[..j])
      invariant labels' == RecordLabels(labels, pos, labs[..j])
    {
      assert labs[..j + 1][..j] == labs[..j];
      var lab := labs[j];
      if lab.code.Some? {
        values := values + [lab.code.value];
        if lab.text != "" {
          var inner := if pos in labels' then labels'[pos] else map[];
          labels' := labels'[pos := inner[lab.code.value := lab.text]];
        }
      }
    }
    assert labs[..|labs|] == labs;
  }

  lemma SevenOfSnoc(combos: seq<string>, j: nat)
    requires j < |combos|
    ensures SevenOf(combos[..j + 1]) == SevenOf(combos[..j]) + (if |combos[j]| == 7 then {combos[j]} else {})
  {
    assert combos[..j + 1] == combos[..j] + [combos[j]];
  }

  /** The inner loop of a complete row: every seven-character combination is added to the trie. */
  method AddRow(trie: TablesTrie, combos: seq<string>)
    requires trie.Valid()
    modifies trie
    ensures trie.Valid() && trie.codes == old(trie.codes) + SevenOf(combos)
  {
    for j := 0 to |combos|
      invariant trie.Valid() && trie.codes == old(trie.codes) + SevenOf(combos[..j])
    {
      SevenOfSnoc(combos, j);
      if |combos[j]| == 7 {
        trie.AddCode(combos[j]);
      }
    }
    assert combos[..|combos|] == combos;
  }

  lemma {:induction false} RunCodesSeven(events: seq<Event>)
    ensures forall s :: s in Run(events).codes ==> |s| == 7
  {
    forall s | s in Run(events).codes ensures |s| == 7 {
      RunCodes(events, s);
      var i :| FromRow(events, i, s);
    }
  }

  // ----- the loader as written -----

  /** The outcome of `TablesEngine.from_bytes` as the source is written. */
  datatype LoadOutcome = Loaded(engine: Build) | NameErrorRaised

  /**
   * `from_bytes` as written: its first statement names the module `io`,
   * which is only imported, as `_io`, two lines further down, so the call
   * raises before reading any event.
   */
  function FromEventsAsWritten(events: seq<Event>): (r: LoadOutcome)
    ensures r == NameErrorRaised
  {
    NameErrorRaised
  }

  /** No reference stream, however well-formed, gets loaded by the code as written; the corrected loader yields `Run`. */
  lemma AsWrittenNeverLoads(events: seq<Event>)
    ensures FromEventsAsWritten(events) != Loaded(Run(events))
  {
  }

  // ----- label clearing as written -----

  /** A `label` element after `el.clear()`: no `code` attribute and no text. */
  const ClearedLabel := AxisLabel(None, "")

  /**
   * An event as the axis branch sees it when the source is written: the
   * generic end branch clears every `label` at its own end, and in the
   * post-order event stream that end comes before the end of its axis.
   */
  function Cleared(e: Event): (r: Event)
    ensures e.AxisEnd? <==> r.AxisEnd?
    ensures e.AxisEnd? ==> (r.pos == e.pos && |r.labels| == |e.labels| &&
      forall k :: 0 <= k < |r.labels| ==> r.labels[k] == ClearedLabel)
    ensures !e.AxisEnd? ==> r == e
  {
    match e
    case AxisEnd(pos, labs) => AxisEnd(pos, seq(|labs|, _ => ClearedLabel))
    case _ => e
  }

  function ClearedStream(events: seq<Event>): (r: seq<Event>)
    ensures |r| == |events| && forall i :: 0 <= i < |events| ==> r[i] == Cleared(events[i])
  {
    seq(|events|, i requires 0 <= i < |events| => Cleared(events[i]))
  }

  /** Cleared labels give an axis no values and record no label text. */
  lemma {:induction false} ClearedAxis(labels: Labels, pos: int, labs: seq<AxisLabel>)
    requires forall k :: 0 <= k < |labs| ==> labs[k] == ClearedLabel
    ensures AxisValues(labs) == [] && RecordLabels(labels, pos, labs) == labels
  {
    if labs != [] {
      ClearedAxis(labels, pos, labs[..|labs| - 1]);
    }
  }

  /**
   * With the `io` import repaired, the loader as written still reads only
   * cleared labels: no axis gets a value, so no row is complete, no code
   * reaches the trie and no label text is kept.
   */
  lemma {:induction false} ClearedLoadsNothing(events: seq<Event>)
    ensures Run(ClearedStream(events)).axes == map[]
    ensures Run(ClearedStream(events)).codes == {}
    ensures Run(ClearedStream(events)).labels == map[]
  {
    if events != [] {
      var init := events[..|events| - 1];
      var cs := ClearedStream(events);
      assert cs[..|cs| - 1] == ClearedStream(init);
      ClearedLoadsNothing(init);
      var e := cs[|cs| - 1];
      if e.AxisEnd? {
        ClearedAxis(map[], if e.pos.Some? then e.pos.value else 0, e.labels);
      }
      var none: map<int, seq<string>> := map[];
      assert !RowComplete(none) by {
        assert 1 !in none;
      }
    }
  }

  /** A stream with a complete row loads its codes when labels reach the axis intact, and none as written. */
  lemma ClearingLosesRow(events: seq<Event>, i: nat, s: string)
    requires i < |events| && events[i].EndRow? && s in RowCodes(Run(events[..i]).axes)
    ensures s in Run(events).codes && s !in Run(ClearedStream(events)).codes
  {
    RunCodesComplete(events, i);
    ClearedLoadsNothing(events);
  }
}
