/**
 * pcs_definitions.py: operation texts for the third character, harvested
 * from the end-events of a definitions file, and `describe_code`, which
 * spells out a seven-character code axis by axis.
 *
 * The XML is an abstract stream of end-events in document order. An
 * element's end-event comes after the end-events of all its children, so a
 * label inside an axis ends before that axis does.
 */
module PcsDefinitions {
  import opened Common
  import opened Text
  import opened PcsTables

  /** The end of one element: an `axis` with its `pos` attribute as parsed by `int`, a `label`, or anything else. */
  datatype End =
    | AxisClose(pos: Option<int>)
    | LabelClose(code: Option<string>, text: Option<string>)
    | OtherClose

  type Ops = map<string, string>

  /** The stored pair of a label, when its code and stripped text are both non-empty. */
  function Entry(code: Option<string>, text: Option<string>): Option<(string, string)> {
    var t := Strip(if text.Some? then text.value else "");
    if code.Some? && code.value != "" && t != "" then Some((code.value, t)) else None
  }

  // ----- the loop as written -----

  /** The state of the loop: `current_pos` and `ops`. */
  datatype State = State(pos: Option<int>, ops: Ops)

  function StepAsWritten(st: State, e: End): State {
    match e
      case AxisClose(p) => State(p, st.ops)
      case LabelClose(code, text) =>
        var en := Entry(code, text);
        if st.pos == Some(3) && en.Some? then State(st.pos, st.ops[en.value.0 := en.value.1]) else st
      case OtherClose => st
  }

  /** The state after the first `k` events. */
  function RunTo(es: seq<End>, k: nat): State
    requires k <= |es|
  {
    if k == 0 then State(None, map[]) else StepAsWritten(RunTo(es, k - 1), es[k - 1])
  }

  function RunAsWritten(es: seq<End>): State {
    RunTo(es, |es|)
  }

  /** `from_bytes` as written: a label counts when the axis that ENDED last before it had `pos` 3. */
  method FromEventsAsWritten(es: seq<End>) returns (ops: Ops)
    ensures ops == RunAsWritten(es).ops
  {
    var pos: Option<int> := None;
    ops := map[];
    for i := 0 to |es|
      invariant State(pos, ops) == RunTo(es, i)
    {
      match es[i] {
        case AxisClose(p) =>
          pos := p;
        case LabelClose(code, text) =>
          var en := Entry(code, text);
          if pos == Some(3) && en.Some? {
            ops := ops[en.value.0 := en.value.1];
          }
        case OtherClose =>
      }
    }
  }

  /** The axis whose end-event last precedes position `i`, if any. */
  function PosBefore(es: seq<End>, i: nat): Option<int>
    requires i <= |es|
  {
    if i == 0 then None
    else if es[i - 1].AxisClose? then es[i - 1].pos
    else PosBefore(es, i - 1)
  }

  /** Event `i` is a label the loop as written stores under `c`. */
  predicate StoredAsWritten(es: seq<End>, i: nat, c: string)
    requires i < |es|
  {
    es[i].LabelClose? && PosBefore(es, i) == Some(3) && Entry(es[i].code, es[i].text).Some?
    && Entry(es[i].code, es[i].text).value.0 == c
  }

  /** After `k` events, `current_pos` is the position of the last axis that ended. */
  lemma {:induction false} AsWrittenPos(es: seq<End>, k: nat)
    requires k <= |es|
    ensures RunTo(es, k).pos == PosBefore(es, k)
  {
    if k > 0 {
      AsWrittenPos(es, k - 1);
    }
  }

  /** Event `k - 1` is stored exactly when the axis that ended before it had `pos` 3. */
  lemma StoredStep(es: seq<End>, k: nat, c: string)
    requires 0 < k <= |es|
    ensures var e := es[k - 1];
      StoredAsWritten(es, k - 1, c) <==> (e.LabelClose? && RunTo(es, k - 1).pos == Some(3)
        && Entry(e.code, e.text).Some? && Entry(e.code, e.text).value.0 == c)
    ensures var e := es[k - 1];
      StoredAsWritten(es, k - 1, c) ==> c in RunTo(es, k).ops && RunTo(es, k).ops[c] == Entry(e.code, e.text).value.1
    ensures !StoredAsWritten(es, k - 1, c) ==>
      (c in RunTo(es, k).ops <==> c in RunTo(es, k - 1).ops)
      && (c in RunTo(es, k - 1).ops ==> RunTo(es, k).ops[c] == RunTo(es, k - 1).ops[c])
  {
    AsWrittenPos(es, k - 1);
  }

  /** After `k` events, a code is a key exactly when one of those events stored it. */
  lemma {:induction false} KeysTo(es: seq<End>, k: nat, c: string)
    requires k <= |es|
    ensures c in RunTo(es, k).ops <==> exists i :: 0 <= i < k && StoredAsWritten(es, i, c)
  {
    if k > 0 {
      KeysTo(es, k - 1, c);
      StoredStep(es, k, c);
      if c in RunTo(es, k).ops && !StoredAsWritten(es, k - 1, c) {
        var i :| 0 <= i < k - 1 && StoredAsWritten(es, i, c);
        assert 0 <= i < k && StoredAsWritten(es, i, c);
      }
      if exists i :: 0 <= i < k && StoredAsWritten(es, i, c) {
        var i :| 0 <= i < k && StoredAsWritten(es, i, c);
        if i < k - 1 {
          assert c in RunTo(es, k - 1).ops;
        }
      }
    }
  }

  /** A code is in `ops` exactly when some stored label carries it. */
  lemma AsWrittenKeys(es: seq<End>, c: string)
    ensures c in RunAsWritten(es).ops <==> exists i :: 0 <= i < |es| && StoredAsWritten(es, i, c)
  {
    KeysTo(es, |es|, c);
  }

  /** No label after event `i` and before event `k` is stored under `c`. */
  predicate NoStoreBetween(es: seq<End>, i: nat, k: nat, c: string)
    requires k <= |es|
  {
    forall j :: i < j < k ==> !StoredAsWritten(es, j, c)
  }

  /** No label after event `i` is stored under `c`. */
  predicate NoLaterStore(es: seq<End>, i: nat, c: string) {
    NoStoreBetween(es, i, |es|, c)
  }

  /** An event that stores nothing under `c` keeps the text of `c`. */
  lemma KeepStep(es: seq<End>, k: nat, c: string, v: string)
    requires 0 < k <= |es| && !StoredAsWritten(es, k - 1, c)
    requires c in RunTo(es, k - 1).ops && RunTo(es, k - 1).ops[c] == v
    ensures c in RunTo(es, k).ops && RunTo(es, k).ops[c] == v
  {
    StoredStep(es, k, c);
  }

  lemma {:induction false} LastWinsTo(es: seq<End>, k: nat, c: string, i: nat, v: string)
    requires i < k <= |es| && StoredAsWritten(es, i, c) && Entry(es[i].code, es[i].text).value.1 == v
    requires NoStoreBetween(es, i, k, c)
    ensures c in RunTo(es, k).ops && RunTo(es, k).ops[c] == v
  {
    if i < k - 1 {
      NoStoreShrink(es, i, k, c);
      LastWinsTo(es, k - 1, c, i, v);
      KeepStep(es, k, c, v);
    } else {
      StoredStep(es, k, c);
    }
  }

  lemma NoStoreShrink(es: seq<End>, i: nat, k: nat, c: string)
    requires i < k - 1 && k <= |es| && NoStoreBetween(es, i, k, c)
    ensures !StoredAsWritten(es, k - 1, c) && NoStoreBetween(es, i, k - 1, c)
  {
  }

  /** A code maps to the stripped text of the last stored label that carries it. */
  lemma AsWrittenLastWins(es: seq<End>, c: string, i: nat)
    requires i < |es| && StoredAsWritten(es, i, c) && NoLaterStore(es, i, c)
    ensures c in RunAsWritten(es).ops && RunAsWritten(es).ops[c] == Entry(es[i].code, es[i].text).value.1
  {
    LastWinsTo(es, |es|, c, i, Entry(es[i].code, es[i].text).value.1);
  }

  // ----- the intended harvest -----

  /** The loop with the labels of each axis kept until the axis itself ends. */
  datatype Harvest = Harvest(pending: seq<(string, string)>, ops: Ops)

  function RecordAll(ops: Ops, ps: seq<(string, string)>): Ops {
    if ps == [] then ops else RecordAll(ops, ps[..|ps| - 1])[ps[|ps| - 1].0 := ps[|ps| - 1].1]
  }

  function Step(h: Harvest, e: End): Harvest {
    match e
      case AxisClose(p) => Harvest([], if p == Some(3) then RecordAll(h.ops, h.pending) else h.ops)
      case LabelClose(code, text) =>
        var en := Entry(code, text);
        if en.Some? then Harvest(h.pending + [en.value], h.ops) else h
      case OtherClose => h
  }

  function Run(es: seq<End>): Harvest {
    if es == [] then Harvest([], map[]) else Step(Run(es[..|es| - 1]), es[|es| - 1])
  }

  /** The first axis end-event at or after position `i`, if any. */
  function AxisFrom(es: seq<End>, i: nat): (r: Option<nat>)
    requires i <= |es|
    ensures r.Some? ==> i <= r.value < |es| && es[r.value].AxisClose?
    decreases |es| - i
  {
    if i == |es| then None
    else if es[i].AxisClose? then Some(i)
    else AxisFrom(es, i + 1)
  }

  /** Event `i` is a label whose next axis end (the end of its enclosing axis) has `pos` 3, stored under `c`. */
  predicate Stored(es: seq<End>, i: nat, c: string)
    requires i < |es|
  {
    && es[i].LabelClose? && Entry(es[i].code, es[i].text).Some? && Entry(es[i].code, es[i].text).value.0 == c
    && var a := AxisFrom(es, i); a.Some? && es[a.value].pos == Some(3)
  }

  /** `from_bytes` with each label attributed to the axis that encloses it. */
  method FromEvents(es: seq<End>) returns (ops: Ops)
    ensures ops == Run(es).ops
  {
    var pending: seq<(string, string)> := [];
    ops := map[];
    for i := 0 to |es|
      invariant Harvest(pending, ops) == Run(es[..i])
    {
      assert es[..i + 1][..i] == es[..i];
      match es[i] {
        case AxisClose(p) =>
          if p == Some(3) {
            ops := RecordPending(ops, pending);
          }
          pending := [];
        case LabelClose(code, text) =>
          var en := Entry(code, text);
          if en.Some? {
            pending := pending + [en.value];
          }
        case OtherClose =>
      }
    }
    assert es[..|es|] == es;
  }

  /** Stores the pending labels in order, later ones overwriting earlier ones. */
  method RecordPending(ops: Ops, ps: seq<(string, string)>) returns (ops': Ops)
    ensures ops' == RecordAll(ops, ps)
  {
    ops' := ops;
    for k := 0 to |ps|
      invariant ops' == RecordAll(ops, ps[..k])
    {
      assert ps[..k + 1][..k] == ps[..k];
      ops' := ops'[ps[k].0 := ps[k].1];
    }
    assert ps[..|ps|] == ps;
  }

  /** Event `i` is a label with entry `p` and no axis end after it. */
  predicate PendingAt(es: seq<End>, i: nat, p: (string, string))
    requires i < |es|
  {
    es[i].LabelClose? && AxisFrom(es, i).None? && Entry(es[i].code, es[i].text) == Some(p)
  }

  /** A pending label stays pending when the added event is not an axis end. */
  lemma PendingExtend(es: seq<End>, i: nat, p: (string, string))
    requires i < |es| - 1 && PendingAt(es[..|es| - 1], i, p) && !es[|es| - 1].AxisClose?
    ensures PendingAt(es, i, p)
  {
    AxisFromPrefix(es, i);
    assert es[i] == es[..|es| - 1][i];
  }

  /** A stored label stays stored when an event is added. */
  lemma StoredExtend(es: seq<End>, i: nat, c: string)
    requires i < |es| - 1 && Stored(es[..|es| - 1], i, c)
    ensures Stored(es, i, c)
  {
    AxisFromPrefix(es, i);
    assert es[i] == es[..|es| - 1][i];
  }

  /** The pending labels are those with no axis end after them. */
  lemma {:induction false} RunPendingLabels(es: seq<End>)
    ensures forall p :: p in Run(es).pending ==> exists i :: 0 <= i < |es| && PendingAt(es, i, p)
  {
    if es != [] {
      var n := |es| - 1;
      var pre := es[..n];
      RunPendingLabels(pre);
      var h := Run(pre);
      if !es[n].AxisClose? {
        forall p | p in Run(es).pending ensures exists i :: 0 <= i < |es| && PendingAt(es, i, p) {
          if p in h.pending {
            var i :| 0 <= i < n && PendingAt(pre, i, p);
            PendingExtend(es, i, p);
          } else {
            assert PendingAt(es, n, p);
          }
        }
      }
    }
  }

  /** Every key of `ops` comes from a label whose enclosing axis has `pos` 3. */
  lemma {:induction false} RunStored(es: seq<End>)
    ensures forall c :: c in Run(es).ops ==> exists i :: 0 <= i < |es| && Stored(es, i, c)
  {
    if es != [] {
      var n := |es| - 1;
      var pre := es[..n];
      RunStored(pre);
      var h := Run(pre);
      forall c | c in Run(es).ops ensures exists i :: 0 <= i < |es| && Stored(es, i, c) {
        if c in h.ops {
          var i :| 0 <= i < n && Stored(pre, i, c);
          StoredExtend(es, i, c);
        } else {
          RunPendingAdded(es, c);
        }
      }
    }
  }

  /** Every label with no axis end after it is pending. */
  lemma {:induction false} RunPendingComplete(es: seq<End>)
    ensures forall i, p :: 0 <= i < |es| && PendingAt(es, i, p) ==> p in Run(es).pending
  {
    if es != [] {
      var n := |es| - 1;
      var pre := es[..n];
      RunPendingComplete(pre);
      forall i, p | 0 <= i < |es| && PendingAt(es, i, p) ensures p in Run(es).pending {
        if i < n {
          AxisFromPrefix(es, i);
          assert es[i] == pre[i];
          assert PendingAt(pre, i, p);
        }
      }
    }
  }

  /** Every label whose enclosing axis has `pos` 3 is stored: the converse of `RunStored`. */
  lemma {:induction false} RunStoredComplete(es: seq<End>)
    ensures forall i, c :: 0 <= i < |es| && Stored(es, i, c) ==> c in Run(es).ops
  {
    if es != [] {
      var n := |es| - 1;
      var pre := es[..n];
      RunStoredComplete(pre);
      var h := Run(pre);
      forall i, c | 0 <= i < |es| && Stored(es, i, c) ensures c in Run(es).ops {
        AxisFromPrefix(es, i);
        if i < n {
          assert es[i] == pre[i];
          if AxisFrom(pre, i).Some? {
            assert Stored(pre, i, c);
            if es[n].AxisClose? && es[n].pos == Some(3) {
              RecordAllKeys(h.ops, h.pending, c);
            }
          } else {
            var q := Entry(es[i].code, es[i].text).value;
            assert PendingAt(pre, i, q);
            RunPendingComplete(pre);
            RecordAllKeys(h.ops, h.pending, c);
          }
        }
      }
    }
  }

  /** A key added by the last event comes from a pending label closed by that axis. */
  lemma RunPendingAdded(es: seq<End>, c: string)
    requires es != [] && c in Run(es).ops && c !in Run(es[..|es| - 1]).ops
    ensures exists i :: 0 <= i < |es| && Stored(es, i, c)
  {
    var n := |es| - 1;
    var pre := es[..n];
    var h := Run(pre);
    assert es[n].AxisClose? && es[n].pos == Some(3);
    RecordAllKeys(h.ops, h.pending, c);
    var q :| q in h.pending && q.0 == c;
    RunPendingLabels(pre);
    var i :| 0 <= i < n && PendingAt(pre, i, q);
    AxisFromPrefix(es, i);
    assert es[i] == pre[i];
    assert Stored(es, i, c);
  }

  /** Looking for the next axis end in a longer stream finds the same one, or one in the added event. */
  lemma {:induction false} AxisFromPrefix(es: seq<End>, i: nat)
    requires i < |es|
    ensures AxisFrom(es[..|es| - 1], i).Some? ==> AxisFrom(es, i) == AxisFrom(es[..|es| - 1], i)
    ensures AxisFrom(es[..|es| - 1], i).None? ==> AxisFrom(es, i) == (if es[|es| - 1].AxisClose? then Some(|es| - 1) else None)
    decreases |es| - i
  {
    var pre := es[..|es| - 1];
    if i < |pre| {
      assert es[i] == pre[i];
      if !es[i].AxisClose? {
        AxisFromPrefix(es, i + 1);
      }
    }
  }

  lemma {:induction false} RecordAllKeys(ops: Ops, ps: seq<(string, string)>, c: string)
    ensures c in RecordAll(ops, ps) <==> c in ops || exists q :: q in ps && q.0 == c
  {
    if ps != [] {
      RecordAllKeys(ops, ps[..|ps| - 1], c);
      if exists q :: q in ps[..|ps| - 1] && q.0 == c {
        var q :| q in ps[..|ps| - 1] && q.0 == c;
        assert q in ps;
      }
      if exists q :: q in ps && q.0 == c {
        var q :| q in ps && q.0 == c;
        if q != ps[|ps| - 1] {
          var k :| 0 <= k < |ps| && ps[k] == q;
          assert ps[..|ps| - 1][k] == q;
        }
      }
    }
  }

  /**
   * With the labels of an operation axis first and the axis end after them,
   * the loop as written stores nothing (no axis has ended when the labels
   * do), while the harvest by enclosing axis stores the label.
   */
  lemma OperationLabelMissed()
    ensures var es := [LabelClose(Some("B"), Some("Excision")), AxisClose(Some(3))];
      && RunAsWritten(es).ops == map[]
      && Run(es).ops == map["B" := "Excision"]
  {
    var es := [LabelClose(Some("B"), Some("Excision")), AxisClose(Some(3))];
    TrimStartNoop("Excision", IsSpace);
    TrimEndNoop("Excision", IsSpace);
    assert Entry(Some("B"), Some("Excision")) == Some(("B", "Excision"));
    assert es[..1][..0] == [] && es[..1] == [es[0]];
    assert RunTo(es, 1).pos == None;
    assert Run(es[..1]).pending == [("B", "Excision")];
    assert [("B", "Excision")][..0] == [];
  }

  /** And a label of the axis that follows an operation axis is stored as an operation. */
  lemma NextAxisLabelTaken()
    ensures var es := [AxisClose(Some(3)), LabelClose(Some("0"), Some("Brain")), AxisClose(Some(4))];
      && RunAsWritten(es).ops == map["0" := "Brain"]
      && Run(es).ops == map[]
  {
    var es := [AxisClose(Some(3)), LabelClose(Some("0"), Some("Brain")), AxisClose(Some(4))];
    TrimStartNoop("Brain", IsSpace);
    TrimEndNoop("Brain", IsSpace);
    assert Entry(Some("0"), Some("Brain")) == Some(("0", "Brain"));
    assert es[..2][..1] == [es[0]] && es[..2][..1][..0] == [];
    assert es[..1] == [es[0]] && es[..1][..0] == [];
    assert RunTo(es, 1) == State(Some(3), map[]);
    assert RunTo(es, 2).ops == map["0" := "Brain"];
    assert Run(es[..1]).ops == map[];
    assert Run(es[..2]).ops == map[];
  }

  // ----- describe_code -----

  /** The axis names of the seven lines. */
  const AxisNames: seq<string> := ["Section", "Body System", "Operation", "Body Part", "Approach", "Device", "Qualifier"]

  const NeedsSeven: string := "Needs 7 characters."

  /** The operation line: the engine's label, followed by the definition when there is one that says something else. */
  function OperationLine(ops: Ops, engine: TablesEngine, c: char): string {
    var op := engine.Label(3, [c]);
    var more := if [c] in ops then ops[[c]] else "";
    if more != "" && more != op then "Operation " + [c] + ": " + op + " — " + more
    else "Operation " + [c] + ": " + op
  }

  /** Line `k` of the description of the seven-character code `c`. */
  function Line(ops: Ops, engine: TablesEngine, c: string, k: nat): string
    requires |c| == 7 && k < 7
  {
    if k == 2 then OperationLine(ops, engine, c[2])
    else AxisNames[k] + " " + [c[k]] + ": " + engine.Label(k + 1, [c[k]])
  }

  /** `describe_code` */
  function DescribeCode(ops: Ops, code: string, engine: TablesEngine): (r: string)
    ensures r == NeedsSeven <==> |Normalize(code)| != 7
  {
    var c := Normalize(code);
    if |c| != 7 then NeedsSeven
    else
      var lines := seq(7, k requires 0 <= k < 7 => Line(ops, engine, c, k));
      assert lines[0] == Line(ops, engine, c, 0);
      JoinNotNeedsSeven(lines);
      Join("\n", lines)
  }

  /** A join whose first part begins with 'S' is not the "Needs 7" message. */
  lemma JoinNotNeedsSeven(parts: seq<string>)
    requires parts != [] && parts[0] != [] && parts[0][0] == 'S'
    ensures Join("\n", parts) != NeedsSeven
  {
    assert parts[0] <= Join("\n", parts);
    assert Join("\n", parts)[0] == 'S';
  }

  /**
   * Line `k` names axis `k` and the code's character there, with the
   * engine's label for that position; only the operation line may add a
   * definition, and it does exactly when one exists and differs from the label.
   */
  lemma LineSpec(ops: Ops, engine: TablesEngine, c: string, k: nat)
    requires |c| == 7 && k < 7
    ensures AxisNames[k] + " " + [c[k]] + ": " + engine.Label(k + 1, [c[k]]) <= Line(ops, engine, c, k)
    ensures k != 2 ==> Line(ops, engine, c, k) == AxisNames[k] + " " + [c[k]] + ": " + engine.Label(k + 1, [c[k]])
    ensures k == 2 ==>
      var more := if [c[2]] in ops then ops[[c[2]]] else "";
      ((Line(ops, engine, c, k) != AxisNames[2] + " " + [c[2]] + ": " + engine.Label(3, [c[2]]))
        <==> (more != "" && more != engine.Label(3, [c[2]])))
  {
  }
}
