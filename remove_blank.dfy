/** The tool itself: `RemoveCTCBlankFromLattice` collects the symbols, builds
    the CTC filter and composes the input with it; the driver checks the blank
    symbol, then reads a table of lattices, rejects the first one that is not
    an acyclic acceptor and writes the composed lattice of every other one
    under its key. OpenFst's composition and its acyclicity test are code this
    model cannot see; both are parameters. */
module RemoveCtcBlank {
  import opened Fst
  import opened Ctc
  import opened Symbols
  import opened Filter
  import opened FilterProperties

  /** The fatal errors the tool reports. */
  datatype Error =
    | ReservedEpsilon
    | NotTables
    | NotAcceptor(key: string)
    | NotAcyclic(key: string)

  datatype Status = Done | Failed(error: Error)

  /** One key/lattice pair of a lattice table. */
  datatype Entry = Entry(key: string, lattice: Lattice)

  /** `kAcceptor`: every arc has equal input and output labels. */
  predicate IsAcceptor(lat: Lattice)
  {
    forall q, a | 0 <= q < |lat.states| && a in lat.states[q].arcs :: a.ilabel == a.olabel
  }

  /** `out` is `inp` composed with a CTC filter over the symbols of `inp`. */
  ghost predicate IsBlankRemoved(out: Lattice, inp: Lattice, blank: Label, compose: (Lattice, Lattice) -> Lattice)
  {
    exists f :: IsCtcFilter(f, SymbolTable(inp, blank), blank) && out == compose(inp, f)
  }

  /** `RemoveCTCBlankFromLattice`: the output is the composition of the input
      with the CTC filter over the input's own symbols. */
  method RemoveCtcBlankFromLattice(inp: Lattice, blank: Label, compose: (Lattice, Lattice) -> Lattice)
    returns (out: Lattice, ghost filter: Lattice)
    ensures IsCtcFilter(filter, SymbolTable(inp, blank), blank)
    ensures out == compose(inp, filter)
    ensures IsBlankRemoved(out, inp, blank, compose)
  {
    var symbol2state, order := CollectSymbols(inp, blank);
    SymbolTableFacts(inp, blank);
    FirstSeenNumbers(OutputLabels(inp.states), blank);
    var c := BuildFilter(symbol2state, blank, order);
    filter := c;
    out := compose(inp, c);
  }

  /** The filter built for `inp` turns every label sequence the input lattice
      can write, the blank included, into its CTC collapse; labels 0 are
      epsilons of the input and are not read. */
  lemma LatticeLabelsCollapse(inp: Lattice, blank: Label, c: Lattice, xs: seq<Label>)
    requires IsCtcFilter(c, SymbolTable(inp, blank), blank)
    requires forall x | x in xs :: x != 0 && IsOutputLabel(inp, x)
    ensures Transduce(c, 0, xs) == Some(Collapse(xs, blank))
  {
    var m := SymbolTable(inp, blank);
    SymbolTableFacts(inp, blank);
    forall x | x in xs ensures x == blank || x in m {
      assert IsOutputLabel(inp, x);
    }
    RunFromHome(c, m, blank, xs);
  }

  /** With blank 5, a lattice with one arc per label of [5, 3, 3, 5, 3, 5, 4]
      gives a filter that writes [3, 3, 4] for that sequence. */
  lemma WorkedExample(c: Lattice)
    requires IsCtcFilter(c, SymbolTable(ExampleLattice(), 5), 5)
    ensures Transduce(c, 0, [5, 3, 3, 5, 3, 5, 4]) == Some([3, 3, 4])
  {
    var inp := ExampleLattice();
    var xs: seq<Label> := [5, 3, 3, 5, 3, 5, 4];
    forall x | x in xs ensures x != 0 && IsOutputLabel(inp, x) {
      var k := if x == 5 then 0 else if x == 3 then 1 else 6;
      assert xs[k] == x;
      assert inp.states[k].arcs[0].olabel == x;
    }
    LatticeLabelsCollapse(inp, 5, c, xs);
    CollapseExample(xs);
  }

  /** A chain acceptor over [5, 3, 3, 5, 3, 5, 4]. */
  function ExampleLattice(): (r: Lattice)
    ensures IsAcceptor(r) && |r.states| == 8
  {
    var xs: seq<Label> := [5, 3, 3, 5, 3, 5, 4];
    Lattice(Some(0), seq(8, q requires 0 <= q < 8 =>
      if q < 7 then State(Zero, [Arc(xs[q], xs[q], One, q + 1)]) else State(One, [])))
  }

  /** An input lattice without output symbols gets the one-state filter. */
  lemma NoSymbolsFilter(inp: Lattice, blank: Label, c: Lattice)
    requires forall q, a | 0 <= q < |inp.states| && a in inp.states[q].arcs :: !IsSymbol(a.olabel, blank)
    requires IsCtcFilter(c, SymbolTable(inp, blank), blank)
    ensures |c.states| == 1 && c.states[0] == State(One, [BlankArc(blank)])
  {
    SymbolTableEmpty(inp, blank);
    EmptyAlphabetFilter(c, SymbolTable(inp, blank), blank);
  }

  /** The error the driver stops with on an entry that fails the checks; the
      acceptor test comes first. */
  function Rejection(e: Entry, isAcyclic: Lattice -> bool): (r: Option<Error>)
    ensures r == None <==> IsAcceptor(e.lattice) && isAcyclic(e.lattice)
    ensures r == Some(NotAcceptor(e.key)) <==> !IsAcceptor(e.lattice)
    ensures r == Some(NotAcyclic(e.key)) <==> IsAcceptor(e.lattice) && !isAcyclic(e.lattice)
  {
    if !IsAcceptor(e.lattice) then Some(NotAcceptor(e.key))
    else if !isAcyclic(e.lattice) then Some(NotAcyclic(e.key))
    else None
  }

  /** The program: `blank` is the parsed blank symbol, `tables` whether both
      arguments name tables, `entries` the input table in reading order. The
      written entries are the processed prefix of the input, each under its own
      key; the run ends early, with the error of the first rejected entry, and
      nothing after that entry is written. */
  method RemoveCtcBlankFromTable(blank: Label, tables: bool, entries: seq<Entry>,
                                 isAcyclic: Lattice -> bool, compose: (Lattice, Lattice) -> Lattice)
    returns (written: seq<Entry>, status: Status)
    ensures blank == 0 ==> written == [] && status == Failed(ReservedEpsilon)
    ensures blank != 0 && !tables ==> written == [] && status == Failed(NotTables)
    ensures |written| <= |entries|
    ensures blank != 0 && tables ==> (status == Done <==> |written| == |entries|)
    ensures blank != 0 && tables && status != Done ==>
      Rejection(entries[|written|], isAcyclic).Some? &&
      status == Failed(Rejection(entries[|written|], isAcyclic).value)
    ensures forall i | 0 <= i < |written| ::
      written[i].key == entries[i].key &&
      Rejection(entries[i], isAcyclic) == None &&
      IsBlankRemoved(written[i].lattice, entries[i].lattice, blank, compose)
  {
    if blank == 0 {
      return [], Failed(ReservedEpsilon);
    }
    if !tables {
      return [], Failed(NotTables);
    }
    written := [];
    var i := 0;
    while i < |entries|
      invariant 0 <= i <= |entries| && |written| == i
      invariant forall j | 0 <= j < i ::
        written[j].key == entries[j].key &&
        Rejection(entries[j], isAcyclic) == None &&
        IsBlankRemoved(written[j].lattice, entries[j].lattice, blank, compose)
    {
      var e := entries[i];
      var rejected := Rejection(e, isAcyclic);
      if rejected.Some? {
        return written, Failed(rejected.value);
      }
      var out, f := RemoveCtcBlankFromLattice(e.lattice, blank, compose);
      written := written + [Entry(e.key, out)];
      i := i + 1;
    }
    status := Done;
  }
}
