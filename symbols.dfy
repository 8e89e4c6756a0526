/** The alphabet collector: the table `symbol2state` from every non-blank,
    non-epsilon output label of the input lattice to the filter state that
    will stand for it, numbered 1, 2, 3, ... in the order the labels are first
    met when visiting the states in order and each state's arcs in order. */
module Symbols {
  import opened Fst

  /** The output labels of `arcs`, in arc order. */
  function ArcOLabels(arcs: seq<Arc>): seq<Label>
  {
    seq(|arcs|, i requires 0 <= i < |arcs| => arcs[i].olabel)
  }

  /** The output labels of all arcs, in the order the collector visits them. */
  function OutputLabels(states: seq<State>): seq<Label>
  {
    if states == [] then []
    else OutputLabels(states[..|states| - 1]) + ArcOLabels(states[|states| - 1].arcs)
  }

  /** A label that gets a filter state of its own. */
  predicate IsSymbol(o: Label, blank: Label)
  {
    o != blank && o != 0
  }

  /** One visited arc: a symbol not yet in the table gets the next number. */
  function Insert(m: map<Label, StateId>, o: Label, blank: Label): map<Label, StateId>
  {
    if IsSymbol(o, blank) && o !in m then m[o := |m| + 1] else m
  }

  /** The table after visiting `labels`. */
  function Numbering(labels: seq<Label>, blank: Label): map<Label, StateId>
  {
    if labels == [] then map[]
    else Insert(Numbering(labels[..|labels| - 1], blank), labels[|labels| - 1], blank)
  }

  /** The table the collector builds for `inp`. */
  function SymbolTable(inp: Lattice, blank: Label): map<Label, StateId>
  {
    Numbering(OutputLabels(inp.states), blank)
  }

  /** The symbols of `labels` in the order they are first met: the order in
      which the collector inserts them into the table. */
  function FirstSeen(labels: seq<Label>, blank: Label): seq<Label>
  {
    if labels == [] then []
    else
      var seen := FirstSeen(labels[..|labels| - 1], blank);
      var o := labels[|labels| - 1];
      if IsSymbol(o, blank) && o !in seen then seen + [o] else seen
  }

  /** `order` lists every key of `m` exactly once (the bound on the numbers
      of the listed keys is spelled out for the solver's sake). */
  ghost predicate IsEnumeration(order: seq<Label>, m: map<Label, StateId>)
  {
    && |order| == |m|
    && (forall i | 0 <= i < |order| :: order[i] in m && 1 <= m[order[i]] <= |m|)
    && (forall x | x in m :: x in order)
    && (forall i, j | 0 <= i < j < |order| :: order[i] != order[j])
  }

  /** Some label of the table is numbered `v`. */
  ghost predicate IsStateOf(m: map<Label, StateId>, v: nat)
  {
    exists x :: x in m && m[x] == v
  }

  /** The values are exactly 1..|m|, each used by one key. */
  ghost predicate IsNumbering(m: map<Label, StateId>)
  {
    && (forall x | x in m :: 1 <= m[x] <= |m|)
    && (forall v: nat | 1 <= v <= |m| :: IsStateOf(m, v))
    && (forall x, y | x in m && y in m && m[x] == m[y] :: x == y)
  }

  lemma NumberingSnoc(labels: seq<Label>, o: Label, blank: Label)
    ensures Numbering(labels + [o], blank) == Insert(Numbering(labels, blank), o, blank)
  {
    assert (labels + [o])[..|labels|] == labels;
  }

  /** The keys are exactly the symbols among `labels`. */
  lemma {:induction false} NumberingKeys(labels: seq<Label>, blank: Label)
    ensures forall x :: x in Numbering(labels, blank) <==> x in labels && IsSymbol(x, blank)
  {
    if labels != [] {
      var init := labels[..|labels| - 1];
      NumberingKeys(init, blank);
      assert labels == init + [labels[|labels| - 1]];
    }
  }

  /** Inserting a new key with value |m| + 1 keeps the values 1..|m| one-to-one. */
  lemma InsertKeepsNumbering(m: map<Label, StateId>, o: Label, blank: Label)
    requires IsNumbering(m)
    ensures IsNumbering(Insert(m, o, blank))
  {
    if IsSymbol(o, blank) && o !in m {
      var m' := m[o := |m| + 1];
      assert |m'| == |m| + 1;
      forall v: nat | 1 <= v <= |m'| ensures IsStateOf(m', v) {
        if v <= |m| {
          assert IsStateOf(m, v);
          var x :| x in m && m[x] == v;
          assert m'[x] == v;
        } else {
          assert m'[o] == v;
        }
      }
    }
  }

  lemma {:induction false} NumberingIsNumbering(labels: seq<Label>, blank: Label)
    ensures IsNumbering(Numbering(labels, blank))
  {
    if labels != [] {
      NumberingIsNumbering(labels[..|labels| - 1], blank);
      InsertKeepsNumbering(Numbering(labels[..|labels| - 1], blank), labels[|labels| - 1], blank);
    }
  }

  /** Visiting more labels never renumbers a label already in the table. */
  lemma {:induction false} NumberingExtends(labels: seq<Label>, more: seq<Label>, blank: Label)
    ensures forall x | x in Numbering(labels, blank) ::
      x in Numbering(labels + more, blank) && Numbering(labels + more, blank)[x] == Numbering(labels, blank)[x]
  {
    if more == [] {
      assert labels + more == labels;
    } else {
      var init := more[..|more| - 1];
      NumberingExtends(labels, init, blank);
      assert labels + more == (labels + init) + [more[|more| - 1]];
      NumberingSnoc(labels + init, more[|more| - 1], blank);
    }
  }

  /** Meeting a label again, or meeting blank or epsilon, leaves the table unchanged. */
  lemma NumberingRevisit(labels: seq<Label>, o: Label, blank: Label)
    requires o in labels || !IsSymbol(o, blank)
    ensures Numbering(labels + [o], blank) == Numbering(labels, blank)
  {
    NumberingSnoc(labels, o, blank);
    NumberingKeys(labels, blank);
  }

  /** Numbers follow first occurrence: a symbol met before the first occurrence
      of another symbol has the smaller number. */
  lemma {:induction false} NumberingFirstSeen(labels: seq<Label>, blank: Label)
    ensures forall i, j | 0 <= i < j < |labels| && IsSymbol(labels[i], blank) && IsSymbol(labels[j], blank)
                          && labels[j] !in labels[..j] ::
      labels[i] in Numbering(labels, blank) && labels[j] in Numbering(labels, blank)
      && Numbering(labels, blank)[labels[i]] < Numbering(labels, blank)[labels[j]]
  {
    if labels != [] {
      var n := |labels| - 1;
      var init := labels[..n];
      var o := labels[n];
      var m := Numbering(init, blank);
      var m' := Numbering(labels, blank);
      NumberingFirstSeen(init, blank);
      NumberingKeys(init, blank);
      NumberingKeys(labels, blank);
      NumberingIsNumbering(init, blank);
      assert labels == init + [o];
      NumberingExtends(init, [o], blank);
      forall i, j | 0 <= i < j < |labels| && IsSymbol(labels[i], blank) && IsSymbol(labels[j], blank)
                    && labels[j] !in labels[..j]
        ensures labels[i] in m' && labels[j] in m' && m'[labels[i]] < m'[labels[j]]
      {
        assert labels[i] in labels && labels[j] in labels;
        if j < n {
          assert init[i] == labels[i] && init[j] == labels[j] && init[..j] == labels[..j];
        } else {
          assert labels[..j] == init && init[i] == labels[i];
          assert m'[o] == |m| + 1;
        }
      }
    }
  }

  /** The i-th symbol first met is numbered i + 1, so the table's numbers
      record the first-seen order, and that order lists every key once. */
  lemma {:induction false} FirstSeenNumbers(labels: seq<Label>, blank: Label)
    ensures IsEnumeration(FirstSeen(labels, blank), Numbering(labels, blank))
    ensures forall i | 0 <= i < |FirstSeen(labels, blank)| ::
      Numbering(labels, blank)[FirstSeen(labels, blank)[i]] == i + 1
  {
    if labels != [] {
      var init := labels[..|labels| - 1];
      FirstSeenNumbers(init, blank);
      var f := FirstSeen(init, blank);
      var m := Numbering(init, blank);
      assert forall x :: x in f <==> x in m;
    }
  }

  /** Visiting one more label updates the table and the order together. */
  lemma VisitLabel(labels: seq<Label>, o: Label, blank: Label)
    ensures Numbering(labels + [o], blank) == Insert(Numbering(labels, blank), o, blank)
    ensures FirstSeen(labels + [o], blank) ==
      if IsSymbol(o, blank) && o !in Numbering(labels, blank) then FirstSeen(labels, blank) + [o]
      else FirstSeen(labels, blank)
  {
    assert (labels + [o])[..|labels|] == labels;
    FirstSeenKeys(labels, blank);
  }

  lemma FirstSeenKeys(labels: seq<Label>, blank: Label)
    ensures forall x :: x in Numbering(labels, blank) <==> x in FirstSeen(labels, blank)
  {
    FirstSeenNumbers(labels, blank);
  }

  /** Some arc of `inp` has output label `x`. */
  ghost predicate IsOutputLabel(inp: Lattice, x: Label)
  {
    exists q, a :: 0 <= q < |inp.states| && a in inp.states[q].arcs && a.olabel == x
  }

  /** The output labels of a lattice are the output labels of its arcs. */
  lemma {:induction false} OutputLabelsOfArcs(states: seq<State>)
    ensures forall x :: x in OutputLabels(states) <==>
      exists q, a :: 0 <= q < |states| && a in states[q].arcs && a.olabel == x
  {
    if states != [] {
      var n := |states| - 1;
      OutputLabelsOfArcs(states[..n]);
      forall x ensures x in OutputLabels(states) <==>
        exists q, a :: 0 <= q < |states| && a in states[q].arcs && a.olabel == x
      {
        if x in OutputLabels(states) {
          if x in OutputLabels(states[..n]) {
            var q, a :| 0 <= q < n && a in states[..n][q].arcs && a.olabel == x;
            assert states[q] == states[..n][q];
          } else {
            assert x in ArcOLabels(states[n].arcs);
            var i :| 0 <= i < |states[n].arcs| && ArcOLabels(states[n].arcs)[i] == x;
            assert states[n].arcs[i] in states[n].arcs;
          }
        } else {
          forall q, a | 0 <= q < |states| && a in states[q].arcs ensures a.olabel != x {
            if q < n {
              assert states[..n][q] == states[q];
            } else {
              var i :| 0 <= i < |states[n].arcs| && states[n].arcs[i] == a;
              assert ArcOLabels(states[n].arcs)[i] == a.olabel;
            }
          }
        }
      }
    }
  }

  /** The collector's table for a lattice: its keys are exactly the output
      labels of arcs that are neither blank nor epsilon, and it numbers them
      1..k one-to-one. */
  lemma SymbolTableFacts(inp: Lattice, blank: Label)
    ensures forall x :: x in SymbolTable(inp, blank) <==> IsSymbol(x, blank) && IsOutputLabel(inp, x)
    ensures IsNumbering(SymbolTable(inp, blank))
    ensures blank !in SymbolTable(inp, blank) && 0 !in SymbolTable(inp, blank)
  {
    NumberingKeys(OutputLabels(inp.states), blank);
    OutputLabelsOfArcs(inp.states);
    NumberingIsNumbering(OutputLabels(inp.states), blank);
  }

  /** A lattice without states, or whose arcs carry only blank and epsilon
      output labels, has an empty table. */
  lemma SymbolTableEmpty(inp: Lattice, blank: Label)
    requires forall q, a | 0 <= q < |inp.states| && a in inp.states[q].arcs :: !IsSymbol(a.olabel, blank)
    ensures SymbolTable(inp, blank) == map[]
  {
    SymbolTableFacts(inp, blank);
    var t := SymbolTable(inp, blank);
    assert forall x :: x !in t;
    assert t.Keys == {};
  }

  /** The collector (lattice-remove-ctc-blank.cc, lines 16-27): a nested loop
      over the states and their arcs that inserts each new symbol with the
      table's current size plus one. Beside the table it returns the keys in
      insertion order, which the builder uses to iterate over the table. */
  method CollectSymbols(inp: Lattice, blank: Label) returns (symbol2state: map<Label, StateId>, order: seq<Label>)
    ensures symbol2state == SymbolTable(inp, blank)
    ensures order == FirstSeen(OutputLabels(inp.states), blank)
  {
    symbol2state, order := map[], [];
    for s := 0 to |inp.states|
      invariant symbol2state == Numbering(OutputLabels(inp.states[..s]), blank)
      invariant order == FirstSeen(OutputLabels(inp.states[..s]), blank)
    {
      ghost var visited := OutputLabels(inp.states[..s]);
      symbol2state, order := CollectArcs(inp.states[s].arcs, blank, symbol2state, order, visited);
      assert inp.states[..s + 1][..s] == inp.states[..s];
      assert OutputLabels(inp.states[..s + 1]) == visited + ArcOLabels(inp.states[s].arcs);
    }
    assert inp.states[..|inp.states|] == inp.states;
  }

  /** The inner loop of the collector, over the arcs of one state. */
  method CollectArcs(arcs: seq<Arc>, blank: Label, m0: map<Label, StateId>, order0: seq<Label>, ghost visited: seq<Label>)
    returns (symbol2state: map<Label, StateId>, order: seq<Label>)
    requires m0 == Numbering(visited, blank) && order0 == FirstSeen(visited, blank)
    ensures symbol2state == Numbering(visited + ArcOLabels(arcs), blank)
    ensures order == FirstSeen(visited + ArcOLabels(arcs), blank)
  {
    symbol2state, order := m0, order0;
    ghost var labels := visited;
    for i := 0 to |arcs|
      invariant labels == visited + ArcOLabels(arcs[..i])
      invariant symbol2state == Numbering(labels, blank)
      invariant order == FirstSeen(labels, blank)
    {
      var o := arcs[i].olabel;
      VisitLabel(labels, o, blank);
      if o != blank && o != 0 && o !in symbol2state {
        symbol2state := symbol2state[o := |symbol2state| + 1];
        order := order + [o];
      }
      assert ArcOLabels(arcs[..i + 1]) == ArcOLabels(arcs[..i]) + [o];
      labels := labels + [o];
    }
    assert arcs[..|arcs|] == arcs;
  }
}
