# lattice-remove-ctc-blank, modelled in Dafny

Kaldi's `lattice-remove-ctc-blank` reads a table of lattices written by a
CTC-style decoder and removes the CTC blank symbol from their output labels.
For each lattice, `RemoveCTCBlankFromLattice` first collects the output
symbols other than the blank and epsilon (label 0). It numbers them 1, 2, 3,
... in the order they are first met. It then builds a filter transducer `C`
with one home state 0 and one state per symbol. The filter drops blanks and
emits a symbol only where a run of it begins. The result is the composition
of the input with `C`. Before that, the program refuses blank 0, and it
refuses any lattice that is not an acyclic acceptor.

The project has six modules:

- `Fst` (`fst.dfy`): a value model of the `VectorFst` operations the tool uses
  (`AddState`, `SetFinal`, `SetStart`, `AddArc`). It has arc lookup by input
  label and a deterministic walk, `Transduce`, that reads a label sequence
  and collects the non-epsilon output labels.
- `Ctc` (`ctc.dfy`): the collapsing rule as a reference function,
  `Collapse = RemoveBlanks(MergeRepeats(xs))`, independent of any automaton.
- `Symbols` (`symbols.dfy`): the collector. It is a method with the source's
  nested loop over states and arcs, proved equal to a left fold (`Numbering`)
  over the output labels in visiting order.
- `Filter` (`filter.dfy`): the builder. It is a method with the source's loops
  over `AddState`/`SetFinal` and the nested `AddArc` loops. It is proved to
  produce a lattice satisfying `IsCtcFilter`, which lists the exact arcs of
  every state.
- `FilterProperties` (`filter_properties.dfy`): what every `IsCtcFilter`
  lattice guarantees. It covers arc labels, weights and targets, determinism
  and completeness, the arc count, and the collapsing theorem.
- `RemoveCtcBlank` (`remove_blank.dfy`): the per-lattice operation and the
  table driver with its checks.

## Model

| member | source | states |
|---|---|---|
| Symbols.CollectSymbols | lattice-remove-ctc-blank.cc:16-27 | The nested loop over states and arcs builds exactly `SymbolTable(inp, blank)`, the table obtained by visiting the output labels in state-then-arc order. Beside it, the method returns the keys in insertion order, `FirstSeen`. |
| Symbols.CollectArcs | lattice-remove-ctc-blank.cc:19-26 | Visiting one state's arcs extends the table and the first-seen order exactly as appending their output labels to the visited sequence does. |
| Symbols.SymbolTableFacts | lattice-remove-ctc-blank.cc:17-27 | A label is a key iff it is neither blank nor 0 and is the output label of some arc of the input. The values are exactly 1..k, one key each. Neither blank nor 0 is a key. |
| Symbols.NumberingKeys | lattice-remove-ctc-blank.cc:23 | After visiting a label sequence, the keys are exactly the visited labels that are neither blank nor 0. |
| Symbols.NumberingIsNumbering | lattice-remove-ctc-blank.cc:23-24 | Inserting with `size() + 1` keeps the values exactly 1..k and pairwise distinct. |
| Symbols.NumberingRevisit | lattice-remove-ctc-blank.cc:23 | Meeting a label already in the table, or meeting the blank or 0, leaves the table unchanged. |
| Symbols.NumberingExtends | lattice-remove-ctc-blank.cc:23-24 | Visiting more labels never renumbers or removes an existing key. |
| Symbols.NumberingFirstSeen | lattice-remove-ctc-blank.cc:23-24 | Numbers follow first occurrence. A symbol met before the first occurrence of another symbol gets the smaller number. |
| Symbols.FirstSeenNumbers | lattice-remove-ctc-blank.cc:23-24 | The i-th symbol met for the first time is numbered i + 1. The first-seen order lists every key exactly once. |
| Symbols.SymbolTableEmpty | lattice-remove-ctc-blank.cc:16-27 | A lattice whose arcs carry only blank or 0 output labels has an empty table. An empty lattice is one such lattice. |
| Filter.BuildFilter | lattice-remove-ctc-blank.cc:29-50 | For ANY enumeration of the table's keys, the built lattice satisfies `IsCtcFilter`. That means k + 1 states, start 0, all final with `One`, and a `blank:0` loop on state 0 plus `0 -s:s-> q` for every symbol. Each symbol state `q` has exactly `q -s:0-> q`, `q -blank:0-> 0` and `q -s2:s2-> q2` for every other symbol `s2`, with nothing else and k + 1 arcs per state. |
| Filter.AddSymbol | lattice-remove-ctc-blank.cc:37-49 | One pass of the outer loop for the i-th key keeps the loop's invariant. State 0 then holds the blank loop and an enter arc for each of the first i + 1 keys and nothing else. The states of those keys hold their complete arc lists. The states of the later keys are still without arcs. |
| Filter.AddOtherSymbols | lattice-remove-ctc-blank.cc:44-49 | Starting from the repeat and blank arcs, the inner loop leaves the symbol's state with exactly those two arcs plus one enter arc for every other key, with distinct input labels. Every other state is unchanged. |
| FilterProperties.FilterArcFacts | lattice-remove-ctc-blank.cc:35-48 | Every filter arc has weight `One`. Its input label is the blank or a key, its output label is 0 or its own input label, and its destination is below k + 1. |
| FilterProperties.FilterDeterministic | lattice-remove-ctc-blank.cc:35-49 | From every state, a label has an outgoing arc iff it is the blank or a key. That arc is unique, which relies on blank not being a key. |
| FilterProperties.RunFromHome | lattice-remove-ctc-blank.cc:34-49 | Walking the filter from state 0 over any sequence drawn from the blank and the keys emits exactly `Collapse` of that sequence. |
| FilterProperties.RunFromSymbol | lattice-remove-ctc-blank.cc:39-49 | From the state of `s`, the walk emits the collapse of `[s] + ys` minus its leading `s`, which was already emitted on entry. |
| FilterProperties.FilterArcCount | lattice-remove-ctc-blank.cc:35-49 | The filter has 1 + k(k + 2) arcs. |
| FilterProperties.EmptyAlphabetFilter | lattice-remove-ctc-blank.cc:30-35 | With no symbols, the filter is the single final start state carrying the blank loop. |
| Ctc.CollapseLabels | lattice-remove-ctc-blank.cc:62 | A collapse contains no blank and only labels of its input. |
| Ctc.CollapseFixpoint | lattice-remove-ctc-blank.cc:62 | A sequence without blanks and without equal neighbours is its own collapse. |
| Ctc.CollapseNotIdempotent | lattice-remove-ctc-blank.cc:62 | With blank 5, `[3, 5, 3]` collapses to `[3, 3]` and then to `[3]`, so in general collapsing twice differs from collapsing once. |
| Ctc.CollapseExample | lattice-remove-ctc-blank.cc:62 | With blank 5, `[5, 3, 3, 5, 3, 5, 4]` collapses to `[3, 3, 4]`. |
| RemoveCtcBlank.RemoveCtcBlankFromLattice | lattice-remove-ctc-blank.cc:10-53 | The output is the composition of the input with a lattice that is a CTC filter (`IsCtcFilter`) over the input's own symbol table. |
| RemoveCtcBlank.LatticeLabelsCollapse | lattice-remove-ctc-blank.cc:16-52 | The filter built for a lattice turns every sequence of non-epsilon output labels of that lattice, blanks included, into its CTC collapse. |
| RemoveCtcBlank.WorkedExample | lattice-remove-ctc-blank.cc:62 | The filter of a chain acceptor over `[5, 3, 3, 5, 3, 5, 4]` with blank 5 writes `[3, 3, 4]` for that sequence. |
| RemoveCtcBlank.NoSymbolsFilter | lattice-remove-ctc-blank.cc:16-35 | A lattice without symbols other than blank and 0, including an empty lattice, gets the one-state filter. |
| RemoveCtcBlank.Rejection | lattice-remove-ctc-blank.cc:102-109 | An entry is accepted iff it is an acceptor and acyclic. A non-acceptor is reported as such even when it is also cyclic. |
| RemoveCtcBlank.RemoveCtcBlankFromTable | lattice-remove-ctc-blank.cc:88-116 | Blank 0 fails with nothing written, before any other check. Otherwise, if either argument is not a table, the run fails with nothing written. Otherwise the written entries are a prefix of the input with the same keys. Each written lattice is an acyclic acceptor's composition with its CTC filter. The run succeeds iff every entry is written, and on failure the error is that of the first entry not written. |

## Left out

- `fst::Compose` (line 52) is OpenFst's generic composition, which this model cannot see. It is a function parameter `compose`, and the model states only that the output is `compose(input, filter)`. What the composed lattice contains is stated at the level of the filter: `RunFromHome` and `LatticeLabelsCollapse`.
- The acyclicity test (lines 102-103, 107-109) is computed by OpenFst's `Properties`. It is a parameter `isAcyclic`. The acceptor test is modelled as a predicate over all arcs, `IsAcceptor`.
- `LatticeWeight` arithmetic: weights are a datatype with `Zero` and a pair of real costs, and only `One` (0, 0) is ever written. Weight preservation through composition is a property of composition and is not modelled.
- The idempotence of the whole tool on lattices without blanks or repeated neighbours is a property of the composed lattice, so it is likewise out of reach. At the level of label sequences it is `Ctc.CollapseFixpoint`.
- Table reading and writing, argument parsing, `ConvertStringToInteger`, usage messages, exceptions and exit codes (lines 57-87, 94-100, 112 and 118-123) are I/O. The table is a sequence of key/lattice entries, the written table is the returned sequence, and the parsed blank and the tables flag are parameters. A string that is not an integer is not modelled.
- `std::unordered_map` iteration order (lines 36 and 44) is unspecified. `Filter.BuildFilter` is proved for every enumeration of the keys, and so only the set of arcs per state is fixed, not their order. `RemoveCtcBlankFromLattice` passes the insertion order.
- Labels and state ids are unbounded integers. The int32 width of `Label` and `StateId` is not modelled. That covers the `size() + 1` value stored at line 24 and the k + 1 state ids returned at line 31. It matters only from 2^31 − 1 symbols on.
- The search through a state's arcs in `Fst.Transduce` stands for the deterministic reading of the filter. On a filter, `FilterDeterministic` shows that the first matching arc is the only one.
