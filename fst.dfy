/** A value model of the part of OpenFst's `VectorFst<LatticeArc>` (Kaldi's
    `Lattice`) that the blank-removal tool uses: states with a final weight and
    an arc list, a start state, and the mutators AddState, SetFinal, SetStart
    and AddArc. Weights are Kaldi's `LatticeWeight`, a pair of costs, of which
    only `One` and `Zero` matter here. */
module Fst {

  /** Arc labels (int32 in Kaldi); 0 is epsilon. */
  type Label = int
  /** State ids; `None` as a start state plays the role of `kNoStateId`. */
  type StateId = nat

  datatype Option<T> = None | Some(value: T)

  /** `LatticeWeight`: `Zero` is the weight of a non-final state, `One` is (0, 0). */
  datatype Weight = Zero | Cost(graph: real, acoustic: real)

  const One: Weight := Cost(0.0, 0.0)

  datatype Arc = Arc(ilabel: Label, olabel: Label, weight: Weight, nextstate: StateId)

  datatype State = State(final: Weight, arcs: seq<Arc>)

  datatype Lattice = Lattice(start: Option<StateId>, states: seq<State>)

  /** A freshly constructed `Lattice`: no states, no start state. */
  const Empty: Lattice := Lattice(None, [])

  /** `AddState`: appends a non-final state without arcs; its id is the old number of states. */
  function AddState(f: Lattice): Lattice
  {
    f.(states := f.states + [State(Zero, [])])
  }

  function SetFinal(f: Lattice, s: StateId, w: Weight): Lattice
    requires s < |f.states|
  {
    f.(states := f.states[s := f.states[s].(final := w)])
  }

  function SetStart(f: Lattice, s: StateId): Lattice
  {
    f.(start := Some(s))
  }

  /** `AddArc(s, a)`: appends `a` to the arc list of state `s`. */
  function AddArc(f: Lattice, s: StateId, a: Arc): Lattice
    requires s < |f.states|
  {
    f.(states := f.states[s := f.states[s].(arcs := f.states[s].arcs + [a])])
  }

  /** Total number of arcs of a sequence of states. */
  function NumArcs(states: seq<State>): nat
  {
    if states == [] then 0 else NumArcs(states[..|states| - 1]) + |states[|states| - 1].arcs|
  }

  /** The first arc of `arcs` whose input label is `ilabel`, if any. */
  function FindArc(arcs: seq<Arc>, ilabel: Label): (r: Option<Arc>)
    ensures r.Some? ==> r.value in arcs && r.value.ilabel == ilabel
    ensures r.None? <==> forall a | a in arcs :: a.ilabel != ilabel
  {
    if arcs == [] then None
    else if arcs[0].ilabel == ilabel then Some(arcs[0])
    else FindArc(arcs[1..], ilabel)
  }

  /** Reads `input` from state `q` by following, at each step, the first arc
      whose input label is the next symbol, and collects the non-epsilon output
      labels. `None` when no arc matches or the walk ends in a non-final state.
      On a transducer that is deterministic on the symbols read this is its
      unique output for `input`. */
  function Transduce(f: Lattice, q: StateId, input: seq<Label>): Option<seq<Label>>
    decreases |input|
  {
    if q >= |f.states| then None
    else if input == [] then (if f.states[q].final != Zero then Some([]) else None)
    else
      match FindArc(f.states[q].arcs, input[0])
      case None => None
      case Some(a) =>
        match Transduce(f, a.nextstate, input[1..])
        case None => None
        case Some(rest) => Some((if a.olabel == 0 then [] else [a.olabel]) + rest)
  }
}
