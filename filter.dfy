/** The blank-removal filter `C` of lattice-remove-ctc-blank.cc, lines 29-50:
    state 0 is the blank state (the start), and state `symbol2state[s]` stands
    for "the last label read was `s`". Every state is final with weight One.
    Reading a blank returns to state 0 silently; reading `s` in state
    `symbol2state[s]` stays there silently; reading `s` anywhere else moves to
    `symbol2state[s]` and emits `s`. */
module Filter {
  import opened Fst
  import opened Symbols

  /** `blank:0` into state 0: the self-loop on state 0 and the return arc of every symbol state. */
  function BlankArc(blank: Label): Arc
  {
    Arc(blank, 0, One, 0)
  }

  /** `s:s` into the state of `s`: the first label of a run of `s` is emitted. */
  function EnterArc(m: map<Label, StateId>, s: Label): Arc
    requires s in m
  {
    Arc(s, s, One, m[s])
  }

  /** `s:0` self-loop on the state of `s`: repeats of `s` are swallowed. */
  function RepeatArc(m: map<Label, StateId>, s: Label): Arc
    requires s in m
  {
    Arc(s, 0, One, m[s])
  }

  /** No two arcs of the list read the same label. */
  ghost predicate DistinctILabels(arcs: seq<Arc>)
  {
    forall i, j | 0 <= i < j < |arcs| :: arcs[i].ilabel != arcs[j].ilabel
  }

  /** Exactly the arcs of state 0: the blank self-loop and one entering arc
      per symbol, each input label once. */
  ghost predicate IsHomeState(arcs: seq<Arc>, m: map<Label, StateId>, blank: Label)
  {
    && BlankArc(blank) in arcs
    && (forall s | s in m :: EnterArc(m, s) in arcs)
    && (forall a | a in arcs :: a == BlankArc(blank) || (a.ilabel in m && a == EnterArc(m, a.ilabel)))
    && |arcs| == |m| + 1
    && DistinctILabels(arcs)
  }

  /** Exactly the arcs of the state of `s`: the repeat self-loop, the blank
      arc back to state 0 and an entering arc for every other symbol, each
      input label once. */
  ghost predicate IsSymbolState(arcs: seq<Arc>, m: map<Label, StateId>, blank: Label, s: Label)
    requires s in m
  {
    && RepeatArc(m, s) in arcs
    && BlankArc(blank) in arcs
    && (forall s2 | s2 in m && s2 != s :: EnterArc(m, s2) in arcs)
    && (forall a | a in arcs ::
          a == RepeatArc(m, s) || a == BlankArc(blank) || (a.ilabel in m && a.ilabel != s && a == EnterArc(m, a.ilabel)))
    && |arcs| == |m| + 1
    && DistinctILabels(arcs)
  }

  /** |m| + 1 states, start state 0, every state final with weight One. */
  ghost predicate Skeleton(c: Lattice, m: map<Label, StateId>)
  {
    && |c.states| == |m| + 1
    && c.start == Some(0)
    && (forall q | 0 <= q < |c.states| :: c.states[q].final == One)
  }

  /** `c` is the filter for the table `m` and `blank`: |m| + 1 states, start
      state 0, every state final with weight One, and exactly the arcs above. */
  ghost predicate IsCtcFilter(c: Lattice, m: map<Label, StateId>, blank: Label)
  {
    && IsNumbering(m)
    && blank !in m
    && Skeleton(c, m)
    && IsHomeState(c.states[0].arcs, m, blank)
    && (forall s | s in m :: IsSymbolState(c.states[m[s]].arcs, m, blank, s))
  }

  /** State 0 once the symbols of `seen` have been handled. */
  ghost predicate HomeArcsSoFar(arcs: seq<Arc>, m: map<Label, StateId>, blank: Label, seen: seq<Label>)
    requires forall s | s in seen :: s in m
  {
    && BlankArc(blank) in arcs
    && (forall s | s in seen :: EnterArc(m, s) in arcs)
    && (forall a | a in arcs :: a == BlankArc(blank) || (a.ilabel in seen && a == EnterArc(m, a.ilabel)))
    && |arcs| == |seen| + 1
    && DistinctILabels(arcs)
  }

  /** The state of `s` once the arcs to the symbols of `seen` have been added. */
  ghost predicate SymbolArcsSoFar(arcs: seq<Arc>, m: map<Label, StateId>, blank: Label, s: Label, seen: seq<Label>)
    requires s in m && forall s2 | s2 in seen :: s2 in m
  {
    && RepeatArc(m, s) in arcs
    && BlankArc(blank) in arcs
    && (forall s2 | s2 in seen && s2 != s :: EnterArc(m, s2) in arcs)
    && (forall a | a in arcs ::
          a == RepeatArc(m, s) || a == BlankArc(blank) || (a.ilabel in seen && a.ilabel != s && a == EnterArc(m, a.ilabel)))
    && |arcs| == |seen| + 2 - (if s in seen then 1 else 0)
    && DistinctILabels(arcs)
  }

  lemma HomeArcsAdd(arcs: seq<Arc>, m: map<Label, StateId>, blank: Label, seen: seq<Label>, p: Label)
    requires (forall s | s in seen :: s in m) && p in m && p !in seen && blank !in m
    requires HomeArcsSoFar(arcs, m, blank, seen)
    ensures HomeArcsSoFar(arcs + [EnterArc(m, p)], m, blank, seen + [p])
  {
    var arcs' := arcs + [EnterArc(m, p)];
    forall i, j | 0 <= i < j < |arcs'| ensures arcs'[i].ilabel != arcs'[j].ilabel {
      if j == |arcs| {
        assert arcs[i] in arcs;
      }
    }
  }

  lemma SymbolArcsAdd(arcs: seq<Arc>, m: map<Label, StateId>, blank: Label, s: Label, seen: seq<Label>, p: Label)
    requires s in m && (forall s2 | s2 in seen :: s2 in m) && p in m && p !in seen && p != s && blank !in m
    requires SymbolArcsSoFar(arcs, m, blank, s, seen)
    ensures SymbolArcsSoFar(arcs + [EnterArc(m, p)], m, blank, s, seen + [p])
  {
    var arcs' := arcs + [EnterArc(m, p)];
    forall i, j | 0 <= i < j < |arcs'| ensures arcs'[i].ilabel != arcs'[j].ilabel {
      if j == |arcs| {
        assert arcs[i] in arcs;
      }
    }
  }

  lemma SymbolArcsSkip(arcs: seq<Arc>, m: map<Label, StateId>, blank: Label, s: Label, seen: seq<Label>)
    requires s in m && (forall s2 | s2 in seen :: s2 in m) && s !in seen
    requires SymbolArcsSoFar(arcs, m, blank, s, seen)
    ensures SymbolArcsSoFar(arcs, m, blank, s, seen + [s])
  {
  }

  lemma HomeArcsDone(arcs: seq<Arc>, m: map<Label, StateId>, blank: Label, order: seq<Label>)
    requires IsEnumeration(order, m) && HomeArcsSoFar(arcs, m, blank, order)
    ensures IsHomeState(arcs, m, blank)
  {
  }

  lemma SymbolArcsDone(arcs: seq<Arc>, m: map<Label, StateId>, blank: Label, s: Label, order: seq<Label>)
    requires s in m && IsEnumeration(order, m) && SymbolArcsSoFar(arcs, m, blank, s, order)
    ensures IsSymbolState(arcs, m, blank, s)
  {
  }

  /** The filter builder (lines 29-50). It adds |m| + 1 final states, makes
      state 0 the start, adds the blank self-loop and then the arcs of every
      symbol. `order` is the order in which the table is iterated: any
      enumeration of its keys, as the iteration order of `unordered_map` is
      unspecified. */
  method BuildFilter(symbol2state: map<Label, StateId>, blank: Label, order: seq<Label>) returns (c: Lattice)
    requires IsNumbering(symbol2state) && blank !in symbol2state && IsEnumeration(order, symbol2state)
    ensures IsCtcFilter(c, symbol2state, blank)
  {
    var m := symbol2state;
    c := Empty;
    for s := 0 to |m| + 1
      invariant |c.states| == s && c.start == None
      invariant forall q | 0 <= q < s :: c.states[q] == State(One, [])
    {
      var id := |c.states|;
      c := AddState(c);
      c := SetFinal(c, id, One);
    }
    c := SetStart(c, 0);
    c := AddArc(c, 0, BlankArc(blank));
    for i := 0 to |order|
      invariant Skeleton(c, m)
      invariant HomeArcsSoFar(c.states[0].arcs, m, blank, order[..i])
      invariant forall j | 0 <= j < i :: SymbolArcsSoFar(c.states[m[order[j]]].arcs, m, blank, order[j], order)
      invariant forall j | i <= j < |order| :: c.states[m[order[j]]].arcs == []
    {
      c := AddSymbol(c, m, blank, order, i);
    }
    assert order[..|order|] == order;
    HomeArcsDone(c.states[0].arcs, m, blank, order);
    forall s | s in m ensures IsSymbolState(c.states[m[s]].arcs, m, blank, s) {
      var j :| 0 <= j < |order| && order[j] == s;
      SymbolArcsDone(c.states[m[s]].arcs, m, blank, s, order);
    }
  }

  /** The body of the loop over `symbol2state` (lines 37-49) for its `i`-th key. */
  method AddSymbol(c0: Lattice, m: map<Label, StateId>, blank: Label, order: seq<Label>, i: nat) returns (c: Lattice)
    requires IsNumbering(m) && blank !in m && IsEnumeration(order, m) && i < |order|
    requires Skeleton(c0, m) && HomeArcsSoFar(c0.states[0].arcs, m, blank, order[..i])
    requires forall j | 0 <= j < i :: SymbolArcsSoFar(c0.states[m[order[j]]].arcs, m, blank, order[j], order)
    requires forall j | i <= j < |order| :: c0.states[m[order[j]]].arcs == []
    ensures Skeleton(c, m) && HomeArcsSoFar(c.states[0].arcs, m, blank, order[..i + 1])
    ensures forall j | 0 <= j < i + 1 :: SymbolArcsSoFar(c.states[m[order[j]]].arcs, m, blank, order[j], order)
    ensures forall j | i + 1 <= j < |order| :: c.states[m[order[j]]].arcs == []
  {
    var p := order[i];
    var q := m[p];
    assert order[..i + 1] == order[..i] + [p];
    HomeArcsAdd(c0.states[0].arcs, m, blank, order[..i], p);
    c := AddArc(c0, 0, EnterArc(m, p));
    c := AddArc(c, q, RepeatArc(m, p));
    c := AddArc(c, q, BlankArc(blank));
    assert c.states[q].arcs == [RepeatArc(m, p), BlankArc(blank)];
    c := AddOtherSymbols(c, m, blank, p, order);
    forall j | 0 <= j < i + 1 ensures SymbolArcsSoFar(c.states[m[order[j]]].arcs, m, blank, order[j], order) {
      if j != i {
        assert m[order[j]] != q && m[order[j]] != 0;
      }
    }
    forall j | i + 1 <= j < |order| ensures c.states[m[order[j]]].arcs == [] {
      assert m[order[j]] != q && m[order[j]] != 0;
    }
  }

  /** The inner loop (lines 44-49): from the state of `p`, an entering arc
      to the state of every other symbol, in the order of `order`. */
  method AddOtherSymbols(c0: Lattice, m: map<Label, StateId>, blank: Label, p: Label, order: seq<Label>) returns (c: Lattice)
    requires IsNumbering(m) && blank !in m && p in m && IsEnumeration(order, m) && Skeleton(c0, m)
    requires c0.states[m[p]].arcs == [RepeatArc(m, p), BlankArc(blank)]
    ensures Skeleton(c, m) && SymbolArcsSoFar(c.states[m[p]].arcs, m, blank, p, order)
    ensures forall j | 0 <= j < |c.states| && j != m[p] :: c.states[j] == c0.states[j]
  {
    c := c0;
    var q := m[p];
    for k := 0 to |order|
      invariant Skeleton(c, m)
      invariant SymbolArcsSoFar(c.states[q].arcs, m, blank, p, order[..k])
      invariant forall j | 0 <= j < |c.states| && j != q :: c.states[j] == c0.states[j]
    {
      var p2 := order[k];
      assert order[..k + 1] == order[..k] + [p2];
      if p != p2 {
        SymbolArcsAdd(c.states[q].arcs, m, blank, p, order[..k], p2);
        c := AddArc(c, q, EnterArc(m, p2));
      } else {
        SymbolArcsSkip(c.states[q].arcs, m, blank, p, order[..k]);
      }
    }
    assert order[..|order|] == order;
  }
}
