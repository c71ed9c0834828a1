/**
 Selectors made of parts joined by the descendant and the child combinator (sections
 8.1 and 8.2 of W3C Selectors Level 3): the main loop of Sizzle folds the parts from
 right to left and keeps only the nearest matching ancestor each time.
 */
module Selector {
  import opened Wrappers
  import opened Dom
  import opened MemoWalk

  type Test = nat -> bool

  /** The combinator behind a part. */
  datatype Comb = Descendant | Child

  /** A part, and how it relates to what is on its right. */
  datatype Step = Step(test: Test, comb: Comb)

  // ---------------------------------------------------------------------
  // The fold and what it is for

  function ParentOf(d: Document, n: nat): Option<nat>
    requires WellFormed(d) && n < |d|
  {
    Link(d, ParentNode, n)
  }

  /** The parent, if it passes. */
  function ChildOne(d: Document, test: Test, e: Entry): Entry
    requires WellFormed(d) && (e.Elem? ==> e.n < |d|)
  {
    if e.Elem? && ParentOf(d, e.n).Some? && test(ParentOf(d, e.n).value) then Elem(ParentOf(d, e.n).value) else False
  }

  /** One part: the parent, or the nearest strict ancestor, that passes. */
  function FoldOne(d: Document, step: Step, e: Entry): (r: Entry)
    requires WellFormed(d) && (e.Elem? ==> e.n < |d|)
    ensures r.Elem? ==> r.n < |d|
  {
    match step.comb
    case Descendant => Walk(d, ParentNode, step.test, false, false).Naive(e)
    case Child => ChildOne(d, step.test, e)
  }

  /** All parts, from the last one to the first. */
  function Fold(d: Document, steps: seq<Step>, e: Entry): (r: Entry)
    requires WellFormed(d) && (e.Elem? ==> e.n < |d|)
    ensures r.Elem? ==> r.n < |d|
    decreases |steps|
  {
    if steps == [] then e else Fold(d, steps[..|steps| - 1], FoldOne(d, steps[|steps| - 1], e))
  }

  /** What a combinator asks of the node on its left and the one on its right. */
  predicate Related(d: Document, comb: Comb, a: nat, n: nat)
    requires WellFormed(d)
  {
    match comb
    case Descendant => Above(d, ParentNode, a, n)
    case Child => n < |d| && ParentOf(d, n) == Some(a)
  }

  /** `chain` passes the parts in order, each node related to the next, and the last one to `c`. */
  predicate IsChain(d: Document, steps: seq<Step>, chain: seq<nat>, c: nat)
    requires WellFormed(d)
  {
    && |chain| == |steps|
    && forall i :: 0 <= i < |chain| ==> Fits(d, steps, chain, c, i)
  }

  predicate Fits(d: Document, steps: seq<Step>, chain: seq<nat>, c: nat, i: nat)
    requires WellFormed(d) && i < |chain| == |steps|
  {
    steps[i].test(chain[i]) && Related(d, steps[i].comb, chain[i], Next(chain, i, c))
  }

  function Next(chain: seq<nat>, i: nat, c: nat): nat {
    if i + 1 < |chain| then chain[i + 1] else c
  }

  lemma {:induction false} ChainFront(d: Document, steps: seq<Step>, chain: seq<nat>, c: nat)
    requires WellFormed(d) && IsChain(d, steps, chain, c) && steps != []
    ensures IsChain(d, steps[..|steps| - 1], chain[..|chain| - 1], chain[|chain| - 1])
  {
    var n := |chain| - 1;
    forall i | 0 <= i < n ensures Fits(d, steps[..n], chain[..n], chain[n], i) {
      assert Fits(d, steps, chain, c, i);
      assert Next(chain[..n], i, chain[n]) == Next(chain, i, c);
    }
  }

  lemma {:induction false} ChainExtend(d: Document, steps: seq<Step>, chain: seq<nat>, step: Step, m: nat, c: nat)
    requires WellFormed(d) && IsChain(d, steps, chain, m) && step.test(m) && Related(d, step.comb, m, c)
    ensures IsChain(d, steps + [step], chain + [m], c)
  {
    forall i | 0 <= i < |chain| + 1 ensures Fits(d, steps + [step], chain + [m], c, i) {
      if i < |chain| {
        assert Fits(d, steps, chain, m, i);
        assert Next(chain + [m], i, c) == Next(chain, i, m);
      }
    }
  }

  /** Where the last part asks for an ancestor only, a chain above `x` is one above anything below `x`. */
  lemma {:induction false} ChainLower(d: Document, steps: seq<Step>, chain: seq<nat>, x: nat, m: nat)
    requires WellFormed(d) && IsChain(d, steps, chain, x) && (x == m || Above(d, ParentNode, x, m))
    requires steps != [] ==> steps[|steps| - 1].comb == Descendant
    ensures IsChain(d, steps, chain, m)
  {
    forall i | 0 <= i < |chain| ensures Fits(d, steps, chain, m, i) {
      assert Fits(d, steps, chain, x, i);
      if i + 1 == |chain| && x != m {
        AboveTransitive(d, ParentNode, chain[i], x, m);
      }
    }
  }

  lemma RelatedIsAbove(d: Document, comb: Comb, a: nat, n: nat)
    requires WellFormed(d) && Related(d, comb, a, n)
    ensures Above(d, ParentNode, a, n)
  {
  }

  /** The fold finds a chain whenever it ends in a node, whatever the combinators. */
  lemma {:induction false} FoldIsSound(d: Document, steps: seq<Step>, c: nat) returns (chain: seq<nat>)
    requires WellFormed(d) && c < |d| && Fold(d, steps, Elem(c)).Elem?
    ensures IsChain(d, steps, chain, c)
    ensures Fold(d, steps, Elem(c)) == Elem(if chain == [] then c else chain[0])
    decreases |steps|
  {
    if steps == [] {
      chain := [];
    } else {
      var front, step := steps[..|steps| - 1], steps[|steps| - 1];
      var e := FoldOne(d, step, Elem(c));
      FoldFalse(d, front, e);
      var m := e.n;
      HitAboveIsNearest(d, ParentNode, step.test, c);
      chain := FoldIsSound(d, front, m);
      ChainExtend(d, front, chain, step, m, c);
      assert front + [step] == steps;
      chain := chain + [m];
    }
  }

  lemma {:induction false} FoldFalse(d: Document, steps: seq<Step>, e: Entry)
    requires WellFormed(d) && (e.Elem? ==> e.n < |d|)
    ensures !e.Elem? ==> !Fold(d, steps, e).Elem?
    ensures !e.True? ==> !Fold(d, steps, e).True?
    ensures !e.Null? ==> !Fold(d, steps, e).Null?
    decreases |steps|
  {
    if steps != [] {
      FoldFalse(d, steps[..|steps| - 1], FoldOne(d, steps[|steps| - 1], e));
    }
  }

  // ---------------------------------------------------------------------
  // When it is complete

  /** No child combinator stands to the left of a descendant combinator. */
  predicate Safe(combs: seq<Comb>) {
    forall i, j :: 0 <= i < j < |combs| ==> !(combs[i] == Child && combs[j] == Descendant)
  }

  function Combs(steps: seq<Step>): seq<Comb> {
    seq(|steps|, i requires 0 <= i < |steps| => steps[i].comb)
  }

  /**
   For such selectors, whenever there is a chain the fold ends in a node, though it never
   goes back on a choice; and no chain starts below the node that it ends in.
   */
  lemma {:induction false} FoldIsComplete(d: Document, steps: seq<Step>, c: nat, chain: seq<nat>)
    requires WellFormed(d) && c < |d| && IsChain(d, steps, chain, c) && Safe(Combs(steps))
    ensures var r := Fold(d, steps, Elem(c));
            r.Elem? && (chain != [] ==> chain[0] == r.n || Above(d, ParentNode, chain[0], r.n))
    decreases |steps|
  {
    if steps != [] {
      var n := |steps| - 1;
      var step, x := steps[n], chain[n];
      assert Fits(d, steps, chain, c, n);
      ChainFront(d, steps, chain, c);
      SafeFront(steps);
      if step.comb == Child {
        FoldIsComplete(d, steps[..n], x, chain[..n]);
      } else {
        HitAboveIsNearest(d, ParentNode, step.test, c);
        var m := HitAbove(d, ParentNode, step.test, c).value;
        ChainLower(d, steps[..n], chain[..n], x, m);
        FoldIsComplete(d, steps[..n], m, chain[..n]);
      }
    }
  }

  lemma {:induction false} SafeFront(steps: seq<Step>)
    requires steps != [] && Safe(Combs(steps))
    ensures var n := |steps| - 1;
            Safe(Combs(steps[..n])) && (steps[n].comb == Descendant && n > 0 ==> steps[n - 1].comb == Descendant)
  {
    var n := |steps| - 1;
    var combs := Combs(steps);
    assert forall i :: 0 <= i < n ==> Combs(steps[..n])[i] == combs[i];
    assert combs[n] == steps[n].comb;
    if n > 0 {
      assert combs[n - 1] == steps[n - 1].comb;
    }
  }

  /** Complete for every document, every choice of parts and every candidate. */
  ghost predicate Complete(combs: seq<Comb>) {
    forall d: Document, steps: seq<Step>, c: nat, chain: seq<nat> {:trigger IsChain(d, steps, chain, c)} ::
      WellFormed(d) && c < |d| && Combs(steps) == combs && IsChain(d, steps, chain, c) ==>
        Fold(d, steps, Elem(c)).Elem?
  }

  /** A name of its own for every number. */
  function Word(k: nat): (r: string)
    ensures |r| == k + 1 && forall i :: 0 <= i < |r| ==> r[i] == 'A'
  {
    seq(k + 1, _ => 'A')
  }

  /** The part that node `r` of the ladder passes: part `i + 1` has two nodes, one right above the other. */
  function PartOf(i: nat, r: nat): nat
    requires r > 0
  {
    if r <= i + 2 then r - 1 else r - 2
  }

  function LadderNode(i: nat, n: nat, r: nat): NodeInfo {
    NodeInfo(
      if r == 0 then DOCUMENT else ELEMENT, if r == 0 then "#document" else Word(PartOf(i, r)),
      if r == 0 then None else Some(r - 1), None, if r + 1 < n then [r + 1] else [])
  }

  /** A document that is a single line of elements. */
  function Ladder(i: nat, n: nat): (d: Document)
    ensures |d| == n && WellFormed(d)
  {
    seq(n, r requires 0 <= r < n => LadderNode(i, n, r))
  }

  /** The parts by name. */
  function Rungs(combs: seq<Comb>, i: nat): (steps: seq<Step>)
    ensures |steps| == |combs| && Combs(steps) == combs
  {
    var d := Ladder(i, |combs| + 3);
    var steps := seq(|combs|, k requires 0 <= k < |combs| => Step(NameTest(d, Word(k)), combs[k]));
    assert forall k :: 0 <= k < |combs| ==> Combs(steps)[k] == combs[k];
    steps
  }

  function RungOf(i: nat, k: nat): nat {
    if k <= i + 1 then k + 1 else k + 2
  }

  function LadderChain(combs: seq<Comb>, i: nat): seq<nat> {
    seq(|combs|, k requires 0 <= k < |combs| => RungOf(i, k))
  }

  lemma {:induction false} RungPasses(combs: seq<Comb>, i: nat, k: nat, r: nat)
    requires k < |combs| && 0 < r < |combs| + 3
    ensures Rungs(combs, i)[k].test(r) <==> PartOf(i, r) == k
  {
    assert Ladder(i, |combs| + 3)[r].nodeName == Word(PartOf(i, r));
  }

  lemma {:induction false} LadderAbove(i: nat, n: nat, a: nat, b: nat)
    requires a < b < n
    ensures Above(Ladder(i, n), ParentNode, a, b)
    decreases b
  {
    assert Link(Ladder(i, n), ParentNode, b) == Some(b - 1);
    if a < b - 1 {
      LadderAbove(i, n, a, b - 1);
    }
  }

  /** With a child combinator right before a descendant combinator, there is a chain on the ladder. */
  lemma {:induction false} LadderHasChain(combs: seq<Comb>, i: nat)
    requires i + 1 < |combs| && combs[i] == Child && combs[i + 1] == Descendant
    ensures IsChain(Ladder(i, |combs| + 3), Rungs(combs, i), LadderChain(combs, i), |combs| + 2)
  {
    var d, steps, c := Ladder(i, |combs| + 3), Rungs(combs, i), |combs| + 2;
    var chain := LadderChain(combs, i);
    forall k | 0 <= k < |combs| ensures Fits(d, steps, chain, c, k) {
      RungPasses(combs, i, k, RungOf(i, k));
      assert Next(chain, k, c) == RungOf(i, k + 1);
      LadderAbove(i, |d|, RungOf(i, k), RungOf(i, k + 1));
    }
  }

  /** But the fold takes the lower of the two nodes of part `i + 1`, and part `i` is not its parent. */
  lemma {:induction false} LadderFools(combs: seq<Comb>, i: nat, k: nat)
    requires i + 1 < k <= |combs| && combs[i] == Child && combs[i + 1] == Descendant
    ensures Fold(Ladder(i, |combs| + 3), Rungs(combs, i)[..k], Elem(k + 2)) == False
    decreases k
  {
    LadderStep(combs, i, k);
    if k > i + 2 {
      LadderFools(combs, i, k - 1);
    } else {
      LadderBase(combs, i);
    }
  }

  lemma {:induction false} LadderStep(combs: seq<Comb>, i: nat, k: nat)
    requires i + 1 < k <= |combs|
    ensures var d, steps := Ladder(i, |combs| + 3), Rungs(combs, i);
            Fold(d, steps[..k], Elem(k + 2)) == Fold(d, steps[..k - 1], Elem(k + 1))
  {
    RungPasses(combs, i, k - 1, k + 1);
    StepToParent(combs, i, k - 1, k + 2);
    FoldLast(Ladder(i, |combs| + 3), Rungs(combs, i), k, Elem(k + 2));
  }

  lemma {:induction false} LadderBase(combs: seq<Comb>, i: nat)
    requires i + 1 < |combs| && combs[i] == Child
    ensures Fold(Ladder(i, |combs| + 3), Rungs(combs, i)[..i + 1], Elem(i + 3)) == False
  {
    var d, steps := Ladder(i, |combs| + 3), Rungs(combs, i);
    StepMisses(combs, i);
    FoldLast(d, steps, i + 1, Elem(i + 3));
    FoldFalse(d, steps[..i], False);
  }

  lemma {:induction false} FoldLast(d: Document, steps: seq<Step>, k: nat, e: Entry)
    requires WellFormed(d) && 0 < k <= |steps| && (e.Elem? ==> e.n < |d|)
    ensures Fold(d, steps[..k], e) == Fold(d, steps[..k - 1], FoldOne(d, steps[k - 1], e))
  {
    assert steps[..k][..k - 1] == steps[..k - 1];
  }

  lemma {:induction false} StepMisses(combs: seq<Comb>, i: nat)
    requires i + 1 < |combs| && combs[i] == Child
    ensures FoldOne(Ladder(i, |combs| + 3), Rungs(combs, i)[i], Elem(i + 3)) == False
  {
    RungPasses(combs, i, i, i + 2);
    assert ParentOf(Ladder(i, |combs| + 3), i + 3) == Some(i + 2);
  }

  /** Either combinator takes a node to its parent where the parent passes. */
  lemma {:induction false} StepToParent(combs: seq<Comb>, i: nat, k: nat, r: nat)
    requires k < |combs| && 1 < r < |combs| + 3 && Rungs(combs, i)[k].test(r - 1)
    ensures FoldOne(Ladder(i, |combs| + 3), Rungs(combs, i)[k], Elem(r)) == Elem(r - 1)
  {
    assert ParentOf(Ladder(i, |combs| + 3), r) == Some(r - 1);
  }

  lemma {:induction false} AdjacentPair(combs: seq<Comb>, i: nat, j: nat) returns (k: nat)
    requires i < j < |combs| && combs[i] == Child && combs[j] == Descendant
    ensures k + 1 < |combs| && combs[k] == Child && combs[k + 1] == Descendant
    decreases j - i
  {
    if combs[i + 1] == Descendant {
      k := i;
    } else {
      k := AdjacentPair(combs, i + 1, j);
    }
  }

  /** The chain on the ladder, and the fold that misses it. */
  lemma {:induction false} FirstUnsafe(combs: seq<Comb>) returns (i: nat)
    requires !Safe(combs)
    ensures var d := Ladder(i, |combs| + 3);
            && IsChain(d, Rungs(combs, i), LadderChain(combs, i), |combs| + 2)
            && Fold(d, Rungs(combs, i), Elem(|combs| + 2)) == False
  {
    var j, k :| 0 <= j < k < |combs| && combs[j] == Child && combs[k] == Descendant;
    i := AdjacentPair(combs, j, k);
    LadderHasChain(combs, i);
    LadderFools(combs, i, |combs|);
    var steps := Rungs(combs, i);
    assert steps[..|combs|] == steps;
  }

  /** The fold is complete exactly for the selectors with no child combinator left of a descendant one. */
  lemma {:induction false} CompleteExactlyWhenSafe(combs: seq<Comb>)
    ensures Complete(combs) <==> Safe(combs)
  {
    if Safe(combs) {
      forall d: Document, steps: seq<Step>, c: nat, chain: seq<nat> {:trigger IsChain(d, steps, chain, c)}
        | WellFormed(d) && c < |d| && Combs(steps) == combs && IsChain(d, steps, chain, c)
        ensures Fold(d, steps, Elem(c)).Elem?
      {
        FoldIsComplete(d, steps, c, chain);
      }
    } else {
      var i := FirstUnsafe(combs);
      assert IsChain(Ladder(i, |combs| + 3), Rungs(combs, i), LadderChain(combs, i), |combs| + 2);
    }
  }
}
