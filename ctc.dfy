/** The CTC collapsing rule as a reference definition, independent of any
    automaton: merge every run of equal adjacent labels into one, then delete
    the blanks. A blank between two equal symbols therefore keeps both. */
module Ctc {
  import opened Fst

  /** Keeps a label only where it differs from the label that follows it. */
  function MergeRepeats(xs: seq<Label>): seq<Label>
  {
    if |xs| <= 1 then xs
    else (if xs[0] == xs[1] then [] else [xs[0]]) + MergeRepeats(xs[1..])
  }

  function RemoveBlanks(xs: seq<Label>, blank: Label): seq<Label>
  {
    if xs == [] then [] else (if xs[0] == blank then [] else [xs[0]]) + RemoveBlanks(xs[1..], blank)
  }

  /** The label sequence a CTC decoder means by `xs`. */
  function Collapse(xs: seq<Label>, blank: Label): seq<Label>
  {
    RemoveBlanks(MergeRepeats(xs), blank)
  }

  lemma {:induction false} RemoveBlanksAppend(xs: seq<Label>, ys: seq<Label>, blank: Label)
    ensures RemoveBlanks(xs + ys, blank) == RemoveBlanks(xs, blank) + RemoveBlanks(ys, blank)
  {
    if xs == [] {
      assert xs + ys == ys;
    } else {
      assert (xs + ys)[0] == xs[0] && (xs + ys)[1..] == xs[1..] + ys;
      RemoveBlanksAppend(xs[1..], ys, blank);
    }
  }

  /** Collapsing one more label in front of a non-empty sequence: the label
      is emitted unless it is a blank or repeats the label after it. */
  lemma CollapseCons(a: Label, ys: seq<Label>, blank: Label)
    requires ys != []
    ensures Collapse([a] + ys, blank) ==
            (if a == ys[0] || a == blank then [] else [a]) + Collapse(ys, blank)
  {
    var xs := [a] + ys;
    assert xs[1..] == ys;
    RemoveBlanksAppend(if a == ys[0] then [] else [a], MergeRepeats(ys), blank);
  }

  lemma CollapseSingleton(a: Label, blank: Label)
    ensures Collapse([a], blank) == if a == blank then [] else [a]
  {
    assert MergeRepeats([a]) == [a];
    assert [a][1..] == [];
    assert RemoveBlanks([a], blank) == (if a == blank then [] else [a]) + RemoveBlanks([], blank);
  }

  /** A leading blank never contributes to the collapse. */
  lemma CollapseLeadingBlank(blank: Label, ys: seq<Label>)
    ensures Collapse([blank] + ys, blank) == Collapse(ys, blank)
  {
    if ys == [] {
      CollapseSingleton(blank, blank);
    } else {
      CollapseCons(blank, ys, blank);
    }
  }

  /** The collapse contains no blank and only labels of its input. */
  lemma {:induction false} CollapseLabels(xs: seq<Label>, blank: Label)
    ensures blank !in Collapse(xs, blank)
    ensures forall x | x in Collapse(xs, blank) :: x in xs
  {
    if |xs| > 1 {
      CollapseLabels(xs[1..], blank);
      CollapseCons(xs[0], xs[1..], blank);
      assert xs == [xs[0]] + xs[1..];
    } else if |xs| == 1 {
      CollapseSingleton(xs[0], blank);
      assert xs == [xs[0]];
    }
  }

  /** A sequence without blanks and without equal neighbours is its own
      collapse: collapsing an already collapsed sequence changes nothing. */
  lemma {:induction false} CollapseFixpoint(xs: seq<Label>, blank: Label)
    requires blank !in xs
    requires forall i | 0 <= i < |xs| - 1 :: xs[i] != xs[i + 1]
    ensures Collapse(xs, blank) == xs
  {
    if |xs| > 1 {
      CollapseFixpoint(xs[1..], blank);
      CollapseCons(xs[0], xs[1..], blank);
      assert xs == [xs[0]] + xs[1..];
    } else if |xs| == 1 {
      CollapseSingleton(xs[0], blank);
      assert xs == [xs[0]];
    }
  }

  /** Collapsing twice is not collapsing once: a blank between two runs of
      the same symbol keeps both, and the second pass then merges them. */
  lemma CollapseNotIdempotent()
    ensures Collapse([3, 5, 3], 5) == [3, 3]
    ensures Collapse(Collapse([3, 5, 3], 5), 5) == [3]
  {
  }

  /** The worked example: blank 5, labels [5, 3, 3, 5, 3, 5, 4]. */
  lemma CollapseExample(xs: seq<Label>)
    requires xs == [5, 3, 3, 5, 3, 5, 4]
    ensures Collapse(xs, 5) == [3, 3, 4]
  {
    CollapseSingleton(xs[6], 5);
    assert xs[6..] == [xs[6]];
    assert xs[5..] == [xs[5]] + xs[6..];
    CollapseCons(xs[5], xs[6..], 5);
    assert xs[4..] == [xs[4]] + xs[5..];
    CollapseCons(xs[4], xs[5..], 5);
    assert xs[3..] == [xs[3]] + xs[4..];
    CollapseCons(xs[3], xs[4..], 5);
    assert xs[2..] == [xs[2]] + xs[3..];
    CollapseCons(xs[2], xs[3..], 5);
    assert xs[1..] == [xs[1]] + xs[2..];
    CollapseCons(xs[1], xs[2..], 5);
    assert xs[0..] == [xs[0]] + xs[1..];
    CollapseCons(xs[0], xs[1..], 5);
    assert xs[0..] == xs;
  }
}
