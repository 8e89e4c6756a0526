/** What the filter built by `Filter.BuildFilter` guarantees: which arcs it
    has and how many, that it is deterministic and complete on the blank and
    the collected symbols, and that running it emits the CTC collapse of the
    labels it reads. */
module FilterProperties {
  import opened Fst
  import opened Ctc
  import opened Symbols
  import opened Filter

  /** Every state of the filter other than 0 belongs to some symbol. */
  lemma SymbolOfState(m: map<Label, StateId>, q: StateId) returns (s: Label)
    requires IsNumbering(m) && 1 <= q <= |m|
    ensures s in m && m[s] == q
  {
    assert IsStateOf(m, q);
    s :| s in m && m[s] == q;
  }

  /** No filter arc introduces anything new: each has weight One, reads the
      blank or a collected symbol, writes epsilon or what it reads, and leads
      to one of the |m| + 1 states. */
  lemma FilterArcFacts(c: Lattice, m: map<Label, StateId>, blank: Label, q: StateId, a: Arc)
    requires IsCtcFilter(c, m, blank)
    requires q < |c.states| && a in c.states[q].arcs
    ensures a.weight == One
    ensures a.ilabel == blank || a.ilabel in m
    ensures a.olabel == 0 || a.olabel == a.ilabel
    ensures a.nextstate < |m| + 1
  {
    if q != 0 {
      var s := SymbolOfState(m, q);
      assert IsSymbolState(c.states[m[s]].arcs, m, blank, s);
    }
  }

  /** From every state, the blank and each collected symbol label exactly one
      arc, and no other label has an arc. */
  lemma FilterDeterministic(c: Lattice, m: map<Label, StateId>, blank: Label, q: StateId, x: Label)
    requires IsCtcFilter(c, m, blank) && q < |c.states|
    ensures (exists i :: 0 <= i < |c.states[q].arcs| && c.states[q].arcs[i].ilabel == x) <==> (x == blank || x in m)
    ensures forall i, j | 0 <= i < |c.states[q].arcs| && 0 <= j < |c.states[q].arcs|
                          && c.states[q].arcs[i].ilabel == x && c.states[q].arcs[j].ilabel == x :: i == j
  {
    var arcs := c.states[q].arcs;
    var s: Label := 0;
    if q != 0 {
      s := SymbolOfState(m, q);
      assert IsSymbolState(arcs, m, blank, s);
    }
    if x == blank || x in m {
      var a: Arc;
      if x == blank {
        a := BlankArc(blank);
      } else if q != 0 && x == s {
        a := RepeatArc(m, s);
      } else {
        a := EnterArc(m, x);
      }
      assert a in arcs && a.ilabel == x;
      var i :| 0 <= i < |arcs| && arcs[i] == a;
    }
    forall i | 0 <= i < |arcs| && arcs[i].ilabel == x ensures x == blank || x in m {
      assert arcs[i] in arcs;
    }
  }

  /** The first arc reading `x` from state 0. */
  lemma HomeStep(c: Lattice, m: map<Label, StateId>, blank: Label, x: Label)
    requires IsCtcFilter(c, m, blank) && (x == blank || x in m)
    ensures FindArc(c.states[0].arcs, x) == Some(if x == blank then BlankArc(blank) else EnterArc(m, x))
  {
    var arcs := c.states[0].arcs;
    var b := if x == blank then BlankArc(blank) else EnterArc(m, x);
    assert b in arcs && b.ilabel == x;
  }

  /** The first arc reading `x` from the state of `s`. */
  lemma SymbolStep(c: Lattice, m: map<Label, StateId>, blank: Label, s: Label, x: Label)
    requires IsCtcFilter(c, m, blank) && s in m && (x == blank || x in m)
    ensures FindArc(c.states[m[s]].arcs, x) ==
      Some(if x == blank then BlankArc(blank) else if x == s then RepeatArc(m, s) else EnterArc(m, x))
  {
    var arcs := c.states[m[s]].arcs;
    assert IsSymbolState(arcs, m, blank, s);
    var b := if x == blank then BlankArc(blank) else if x == s then RepeatArc(m, s) else EnterArc(m, x);
    assert b in arcs && b.ilabel == x;
  }

  /** The filter implements the CTC collapsing rule: read from the start
      state, any sequence over the blank and the collected symbols comes out
      as its collapse (and only so, the filter being deterministic). */
  lemma {:induction false} RunFromHome(c: Lattice, m: map<Label, StateId>, blank: Label, xs: seq<Label>)
    requires IsCtcFilter(c, m, blank) && 0 !in m
    requires forall x | x in xs :: x == blank || x in m
    ensures Transduce(c, 0, xs) == Some(Collapse(xs, blank))
    decreases |xs|
  {
    if xs != [] {
      var x, ys := xs[0], xs[1..];
      assert xs == [x] + ys;
      HomeStep(c, m, blank, x);
      if x == blank {
        RunFromHome(c, m, blank, ys);
        CollapseLeadingBlank(blank, ys);
        assert BlankArc(blank).nextstate == 0 && BlankArc(blank).olabel == 0;
        assert [] + Collapse(ys, blank) == Collapse(ys, blank);
      } else {
        RunFromSymbol(c, m, blank, x, ys);
      }
    }
  }

  /** Read from the state of `s`, a sequence comes out as the collapse of `s`
      followed by it, minus that leading `s`, which was emitted on entry. */
  lemma {:induction false} RunFromSymbol(c: Lattice, m: map<Label, StateId>, blank: Label, s: Label, ys: seq<Label>)
    requires IsCtcFilter(c, m, blank) && 0 !in m && s in m
    requires forall x | x in ys :: x == blank || x in m
    ensures Transduce(c, m[s], ys).Some?
    ensures [s] + Transduce(c, m[s], ys).value == Collapse([s] + ys, blank)
    decreases |ys|
  {
    assert m[s] < |c.states|;
    if ys == [] {
      assert c.states[m[s]].final == One;
      CollapseSingleton(s, blank);
      assert [s] + ys == [s];
    } else {
      var y, zs := ys[0], ys[1..];
      assert ys == [y] + zs;
      SymbolStep(c, m, blank, s, y);
      CollapseCons(s, ys, blank);
      if y == blank {
        RunFromHome(c, m, blank, zs);
        CollapseLeadingBlank(blank, zs);
      } else if y == s {
        RunFromSymbol(c, m, blank, s, zs);
      } else {
        RunFromSymbol(c, m, blank, y, zs);
      }
    }
  }

  lemma {:induction false} NumArcsUniform(states: seq<State>, n: nat)
    requires forall q | 0 <= q < |states| :: |states[q].arcs| == n
    ensures NumArcs(states) == |states| * n
  {
    if states != [] {
      NumArcsUniform(states[..|states| - 1], n);
    }
  }

  /** The filter has 1 + k * (k + 2) arcs for k collected symbols: the blank
      self-loop, and per symbol its entering arc, its repeat loop, its blank
      arc and k - 1 arcs to the other symbols. */
  lemma FilterArcCount(c: Lattice, m: map<Label, StateId>, blank: Label)
    requires IsCtcFilter(c, m, blank)
    ensures NumArcs(c.states) == 1 + |m| * (|m| + 2)
  {
    var k := |m|;
    forall q | 0 <= q < |c.states| ensures |c.states[q].arcs| == k + 1 {
      if q != 0 {
        var s := SymbolOfState(m, q);
        assert IsSymbolState(c.states[m[s]].arcs, m, blank, s);
      }
    }
    NumArcsUniform(c.states, k + 1);
    assert (k + 1) * (k + 1) == 1 + k * (k + 2);
  }

  /** With no symbol collected the filter is a single state with the blank self-loop. */
  lemma EmptyAlphabetFilter(c: Lattice, m: map<Label, StateId>, blank: Label)
    requires IsCtcFilter(c, m, blank) && m == map[]
    ensures |c.states| == 1 && c.start == Some(0) && c.states[0] == State(One, [BlankArc(blank)])
  {
    var arcs := c.states[0].arcs;
    assert |arcs| == 1;
    assert arcs[0] in arcs;
    assert arcs == [arcs[0]];
  }
}
