/**
 The main loop of Sizzle on a selector whose parts are joined by descendant and child
 combinators, in place on its check set, on any tree.  A child step from a topmost node
 raises an error where the part is a name; any other part leaves a null entry there, at
 which the later loops over the check set stop.
 */
module SizzleLoop {
  import opened Wrappers
  import opened Dom
  import opened MemoWalk
  import opened Selector
  import opened SizzleParts

  // ---------------------------------------------------------------------
  // What a part makes of one entry

  /** An entry whose parent is null. */
  predicate IsTop(d: Document, e: Entry)
    requires WellFormed(d) && (e.Elem? ==> e.n < |d|)
  {
    e.True? || (e.Elem? && ParentOf(d, e.n).None?)
  }

  function ParentEntry(d: Document, e: Entry): (r: Entry)
    requires WellFormed(d) && (e.Elem? ==> e.n < |d|)
    ensures r.Elem? ==> r.n < |d|
  {
    if IsTop(d, e) then Null else if e.Elem? then Elem(ParentOf(d, e.n).value) else e
  }

  function Named(d: Document, name: string, e: Entry): Entry
    requires e.Elem? ==> e.n < |d|
  {
    if e.Elem? && d[e.n].nodeName != name then False else e
  }

  function Sifted(filter: Filter, part: string, e: Entry): Entry {
    if e.Elem? && !filter(part, e.n) then False else e
  }

  /** With a name, a step from a topmost node is an error (Trips), and the value here has no meaning. */
  function Act(d: Document, filter: Filter, isXML: bool, part: Part, e: Entry): (r: Entry)
    requires WellFormed(d) && (e.Elem? ==> e.n < |d|)
    ensures r.Elem? ==> r.n < |d|
  {
    match part.comb
    case Descendant => FoldOne(d, StepOf(d, filter, isXML, part), e)
    case Child =>
      if !IsWord(part.text) then Sifted(filter, part.text, ParentEntry(d, e))
      else if IsTop(d, e) then False
      else Named(d, WordName(part.text, isXML), ParentEntry(d, e))
  }

  /** All parts, from the last one to the first. */
  function ActAll(d: Document, filter: Filter, isXML: bool, parts: seq<Part>, e: Entry): (r: Entry)
    requires WellFormed(d) && (e.Elem? ==> e.n < |d|)
    ensures r.Elem? ==> r.n < |d|
    decreases |parts|
  {
    if parts == [] then e
    else
      var n := |parts| - 1;
      ActAll(d, filter, isXML, parts[..n], Act(d, filter, isXML, parts[n], e))
  }

  /** On its way the entry takes a child step to a name from a topmost node. */
  predicate Trips(d: Document, filter: Filter, isXML: bool, parts: seq<Part>, e: Entry)
    requires WellFormed(d) && (e.Elem? ==> e.n < |d|)
    decreases |parts|
  {
    && parts != []
    && var n := |parts| - 1;
       || TripsNow(d, parts[n], e)
       || Trips(d, filter, isXML, parts[..n], Act(d, filter, isXML, parts[n], e))
  }

  predicate TripsNow(d: Document, part: Part, e: Entry)
    requires WellFormed(d) && (e.Elem? ==> e.n < |d|)
  {
    part.comb == Child && IsWord(part.text) && IsTop(d, e)
  }

  /** On its way it takes another child step from a topmost node. */
  predicate Falls(d: Document, filter: Filter, isXML: bool, parts: seq<Part>, c: nat)
    requires WellFormed(d) && c < |d|
  {
    ActAll(d, filter, isXML, parts, Elem(c)).Null?
  }

  lemma {:induction false} NullStays(d: Document, filter: Filter, isXML: bool, parts: seq<Part>)
    requires WellFormed(d)
    ensures ActAll(d, filter, isXML, parts, Null) == Null
    decreases |parts|
  {
    if parts != [] {
      NullStays(d, filter, isXML, parts[..|parts| - 1]);
    }
  }

  // ---------------------------------------------------------------------
  // What it has to do with the fold

  /** The entry is what the fold has, or it is lost, one way or another. */
  predicate Agrees(d: Document, e: Entry, ideal: Entry) {
    || e == ideal
    || (ideal == False && (e.Null? || (e.Elem? && e.n < |d| && !IsElement(d, e.n) && d[e.n].parentNode.None?)))
  }

  lemma ActAgrees(d: Document, filter: Filter, isXML: bool, part: Part, e: Entry, ideal: Entry)
    requires WellFormed(d) && ProperTree(d) && (e.Elem? ==> e.n < |d|) && (ideal.Elem? ==> ideal.n < |d|)
    requires Agrees(d, e, ideal)
    ensures Agrees(d, Act(d, filter, isXML, part, e), FoldOne(d, StepOf(d, filter, isXML, part), ideal))
  {
    if part.comb == Child && e == ideal && e.Elem? && ParentOf(d, e.n).Some? {
      var p := ParentOf(d, e.n).value;
      assert d[e.n].parentNode == Some(p);
    }
  }

  lemma {:induction false} ActAllAgrees(d: Document, filter: Filter, isXML: bool, parts: seq<Part>,
                                        e: Entry, ideal: Entry)
    requires WellFormed(d) && ProperTree(d) && (e.Elem? ==> e.n < |d|) && (ideal.Elem? ==> ideal.n < |d|)
    requires Agrees(d, e, ideal)
    ensures Agrees(d, ActAll(d, filter, isXML, parts, e), Fold(d, StepsOf(d, filter, isXML, parts), ideal))
    decreases |parts|
  {
    if parts != [] {
      var n := |parts| - 1;
      var steps := StepsOf(d, filter, isXML, parts);
      ActAgrees(d, filter, isXML, parts[n], e, ideal);
      assert steps[..n] == StepsOf(d, filter, isXML, parts[..n]);
      ActAllAgrees(d, filter, isXML, parts[..n], Act(d, filter, isXML, parts[n], e), FoldOne(d, steps[n], ideal));
    }
  }

  /** So a candidate's entry is kept exactly when its fold is. */
  lemma {:induction false} KeptAlike(d: Document, filter: Filter, isXML: bool, parts: seq<Part>,
                                     context: Context, c: nat)
    requires WellFormed(d) && ProperTree(d) && c < |d|
    ensures Keeps(d, context, ActAll(d, filter, isXML, parts, Elem(c)))
            <==> Keeps(d, context, Fold(d, StepsOf(d, filter, isXML, parts), Elem(c)))
  {
    ActAllAgrees(d, filter, isXML, parts, Elem(c), Elem(c));
  }

  // ---------------------------------------------------------------------
  // What a part makes of a check set

  /** Where the loops that look for null stop. */
  function FirstNull(s: seq<Entry>): (r: nat)
    ensures r <= |s| && (forall k :: 0 <= k < r ==> !s[k].Null?) && (r < |s| ==> s[r].Null?)
  {
    if s == [] then 0 else if s[0].Null? then 0 else 1 + FirstNull(s[1..])
  }

  /** The error of a step to a name. */
  predicate Raises(d: Document, part: Part, s: seq<Entry>)
    requires WellFormed(d) && EntriesIn(d, s)
  {
    exists k :: 0 <= k < |s| && TripsNow(d, part, s[k])
  }

  function ParentsOf(d: Document, s: seq<Entry>): (r: seq<Entry>)
    requires WellFormed(d) && EntriesIn(d, s)
    ensures |r| == |s| && EntriesIn(d, r)
  {
    seq(|s|, k requires 0 <= k < |s| => ParentEntry(d, s[k]))
  }

  /** Sizzle.filter in place: what does not pass becomes false, up to the first null. */
  function SiftedUpToNull(filter: Filter, part: string, s: seq<Entry>): (r: seq<Entry>)
    ensures |r| == |s|
  {
    seq(|s|, k requires 0 <= k < |s| => if k < FirstNull(s) then Sifted(filter, part, s[k]) else s[k])
  }

  function StepSet(d: Document, filter: Filter, isXML: bool, part: Part, s: seq<Entry>): (r: seq<Entry>)
    requires WellFormed(d) && EntriesIn(d, s)
    ensures |r| == |s| && EntriesIn(d, r)
  {
    if part.comb == Child && !IsWord(part.text) then SiftedUpToNull(filter, part.text, ParentsOf(d, s))
    else seq(|s|, k requires 0 <= k < |s| => Act(d, filter, isXML, part, s[k]))
  }

  /** The loop over the parts; None is an error. */
  function RunSet(d: Document, filter: Filter, isXML: bool, parts: seq<Part>, s: seq<Entry>): (r: Option<seq<Entry>>)
    requires WellFormed(d) && EntriesIn(d, s)
    ensures r.Some? ==> |r.value| == |s| && EntriesIn(d, r.value)
    decreases |parts|
  {
    if parts == [] then Some(s)
    else
      var n := |parts| - 1;
      if Raises(d, parts[n], s) then None
      else RunSet(d, filter, isXML, parts[..n], StepSet(d, filter, isXML, parts[n], s))
  }

  /** Up to the first null, the entries go through a part one by one. */
  lemma {:induction false} StepActs(d: Document, filter: Filter, isXML: bool, part: Part, s: seq<Entry>)
    requires WellFormed(d) && EntriesIn(d, s) && !Raises(d, part, s)
    ensures var s' := StepSet(d, filter, isXML, part, s);
            && FirstNull(s') <= FirstNull(s)
            && forall k :: 0 <= k < |s| && k <= FirstNull(s') ==> s'[k] == Act(d, filter, isXML, part, s[k])
  {
    var s' := StepSet(d, filter, isXML, part, s);
    if FirstNull(s) < |s| {
      assert s'[FirstNull(s)].Null?;
    }
    if part.comb == Child && !IsWord(part.text) {
      var u := ParentsOf(d, s);
      assert forall k :: 0 <= k < |s| ==> (s'[k].Null? <==> u[k].Null?);
      assert FirstNull(s') == FirstNull(u);
    }
  }

  /**
   The child combinator by the fields of the document: a name is compared with the parent's
   name; any other part is asked of the parent, unless a null stands at or before it among
   the parents, and then the parent is taken as it is.
   */
  lemma {:induction false} ChildByFields(d: Document, filter: Filter, isXML: bool, text: string, s: seq<Entry>, k: nat)
    requires WellFormed(d) && EntriesIn(d, s) && k < |s| && s[k].Elem?
    ensures var p, r := d[s[k].n].parentNode, StepSet(d, filter, isXML, Part(text, Child), s)[k];
            var nullBefore := exists j :: 0 <= j <= k && (s[j].Null? || IsTop(d, s[j]));
            && (IsWord(text) && p.None? ==> Raises(d, Part(text, Child), s))
            && (IsWord(text) && p.Some? ==>
                  r == if d[p.value].nodeName == WordName(text, isXML) then Elem(p.value) else False)
            && (!IsWord(text) && p.None? ==> r == Null)
            && (!IsWord(text) && p.Some? && !nullBefore ==> r == if filter(text, p.value) then Elem(p.value) else False)
            && (!IsWord(text) && p.Some? && nullBefore ==> r == Elem(p.value))
  {
    if IsWord(text) && d[s[k].n].parentNode.None? {
      assert TripsNow(d, Part(text, Child), s[k]);
    }
    if !IsWord(text) {
      var u := ParentsOf(d, s);
      assert forall j :: 0 <= j <= k ==> (u[j].Null? <==> s[j].Null? || IsTop(d, s[j]));
      assert k < FirstNull(u) <==> !exists j :: 0 <= j <= k && (s[j].Null? || IsTop(d, s[j]));
    }
  }

  lemma {:induction false} RunActs(d: Document, filter: Filter, isXML: bool, parts: seq<Part>, s: seq<Entry>)
    requires WellFormed(d) && EntriesIn(d, s) && RunSet(d, filter, isXML, parts, s).Some?
    ensures var s' := RunSet(d, filter, isXML, parts, s).value;
            && FirstNull(s') <= FirstNull(s)
            && forall k :: 0 <= k < |s| && k <= FirstNull(s') ==> s'[k] == ActAll(d, filter, isXML, parts, s[k])
    decreases |parts|
  {
    if parts != [] {
      var n := |parts| - 1;
      StepActs(d, filter, isXML, parts[n], s);
      RunActs(d, filter, isXML, parts[..n], StepSet(d, filter, isXML, parts[n], s));
    }
  }

  // ---------------------------------------------------------------------
  // What comes out

  function Elems(candidates: seq<nat>): (r: seq<Entry>)
    ensures |r| == |candidates| && forall k :: 0 <= k < |r| ==> r[k] == Elem(candidates[k])
  {
    seq(|candidates|, k requires 0 <= k < |candidates| => Elem(candidates[k]))
  }

  /** The candidates whose entries are kept, in order. */
  function Collected(d: Document, context: Context, candidates: seq<nat>, s: seq<Entry>): seq<nat>
    requires WellFormed(d) && |candidates| == |s|
  {
    if candidates == [] then []
    else
      var n := |candidates| - 1;
      Collected(d, context, candidates[..n], s[..n]) + if Keeps(d, context, s[n]) then [candidates[n]] else []
  }

  /** The results for the candidates of the last part; the last loop stops at a null too. */
  function Outcome(d: Document, filter: Filter, isXML: bool, parts: seq<Part>, context: Context, candidates: seq<nat>)
    : Option<seq<nat>>
    requires WellFormed(d) && AllIn(d, candidates)
  {
    match RunSet(d, filter, isXML, parts, Elems(candidates))
    case None => None
    case Some(s) => Some(Collected(d, context, candidates[..FirstNull(s)], s[..FirstNull(s)]))
  }

  /** The first candidate that falls, or the end. */
  function FirstFallen(d: Document, filter: Filter, isXML: bool, parts: seq<Part>, candidates: seq<nat>): (r: nat)
    requires WellFormed(d) && AllIn(d, candidates)
    ensures r <= |candidates| && (forall k :: 0 <= k < r ==> !Falls(d, filter, isXML, parts, candidates[k]))
    ensures r < |candidates| ==> Falls(d, filter, isXML, parts, candidates[r])
  {
    if candidates == [] then 0
    else if Falls(d, filter, isXML, parts, candidates[0]) then 0
    else 1 + FirstFallen(d, filter, isXML, parts, candidates[1..])
  }

  lemma {:induction false} FallenIsNull(d: Document, filter: Filter, isXML: bool, parts: seq<Part>,
                                        candidates: seq<nat>)
    requires WellFormed(d) && AllIn(d, candidates) && RunSet(d, filter, isXML, parts, Elems(candidates)).Some?
    ensures FirstNull(RunSet(d, filter, isXML, parts, Elems(candidates)).value)
            == FirstFallen(d, filter, isXML, parts, candidates)
  {
    var s := RunSet(d, filter, isXML, parts, Elems(candidates)).value;
    RunActs(d, filter, isXML, parts, Elems(candidates));
    forall k | 0 <= k < |s| && k <= FirstNull(s)
      ensures s[k].Null? <==> Falls(d, filter, isXML, parts, candidates[k])
    {
      assert s[k] == ActAll(d, filter, isXML, parts, Elem(candidates[k]));
    }
  }

  lemma {:induction false} CollectedIsKept(d: Document, context: Context, steps: seq<Step>, candidates: seq<nat>,
                                           s: seq<Entry>)
    requires WellFormed(d) && AllIn(d, candidates) && |candidates| == |s|
    requires forall k :: 0 <= k < |s| ==>
               (Keeps(d, context, s[k]) <==> Keeps(d, context, Fold(d, steps, Elem(candidates[k]))))
    ensures Collected(d, context, candidates, s) == Kept(d, context, steps, candidates)
  {
    if candidates != [] {
      var n := |candidates| - 1;
      CollectedIsKept(d, context, steps, candidates[..n], s[..n]);
    }
  }

  /** Unless there is an error, what is kept by the fold comes out, up to the first candidate that falls. */
  lemma {:induction false} OutcomeIsKept(d: Document, filter: Filter, isXML: bool, parts: seq<Part>, context: Context,
                                         candidates: seq<nat>)
    requires WellFormed(d) && ProperTree(d) && AllIn(d, candidates)
    requires Outcome(d, filter, isXML, parts, context, candidates).Some?
    ensures Outcome(d, filter, isXML, parts, context, candidates).value
            == Kept(d, context, StepsOf(d, filter, isXML, parts),
                    candidates[..FirstFallen(d, filter, isXML, parts, candidates)])
  {
    var s := RunSet(d, filter, isXML, parts, Elems(candidates)).value;
    var n := FirstFallen(d, filter, isXML, parts, candidates);
    var steps := StepsOf(d, filter, isXML, parts);
    FallenIsNull(d, filter, isXML, parts, candidates);
    RunActs(d, filter, isXML, parts, Elems(candidates));
    forall k | 0 <= k < n
      ensures Keeps(d, context, s[k]) <==> Keeps(d, context, Fold(d, steps, Elem(candidates[k])))
    {
      KeptAlike(d, filter, isXML, parts, context, candidates[k]);
    }
    CollectedIsKept(d, context, steps, candidates[..n], s[..n]);
  }

  lemma {:induction false} SafeOutcome(d: Document, filter: Filter, isXML: bool, parts: seq<Part>, context: Context,
                                       candidates: seq<nat>)
    requires WellFormed(d) && ProperTree(d) && AllIn(d, candidates) && parts != [] && Safe(CombsOf(parts))
    requires Outcome(d, filter, isXML, parts, context, candidates).Some?
    ensures Outcome(d, filter, isXML, parts, context, candidates).value
            == Matching(d, context, StepsOf(d, filter, isXML, parts),
                        candidates[..FirstFallen(d, filter, isXML, parts, candidates)])
  {
    OutcomeIsKept(d, filter, isXML, parts, context, candidates);
    CombsOfSteps(d, filter, isXML, parts);
    KeptIsMatching(d, filter, isXML, parts, context, candidates[..FirstFallen(d, filter, isXML, parts, candidates)]);
  }

  lemma {:induction false} MatchingInTwo(d: Document, context: Context, steps: seq<Step>, a: seq<nat>, b: seq<nat>)
    requires WellFormed(d)
    ensures Matching(d, context, steps, a + b) == Matching(d, context, steps, a) + Matching(d, context, steps, b)
    decreases |b|
  {
    if b == [] {
      assert a + b == a;
    } else {
      var n := |b| - 1;
      assert (a + b)[..|a + b| - 1] == a + b[..n];
      MatchingInTwo(d, context, steps, a, b[..n]);
    }
  }

  lemma {:induction false} NoneMatches(d: Document, context: Context, steps: seq<Step>, q: seq<nat>)
    requires WellFormed(d)
    ensures Matching(d, context, steps, q) == [] <==> forall k :: 0 <= k < |q| ==> !HasChain(d, context, steps, q[k])
  {
    if q != [] {
      NoneMatches(d, context, steps, q[..|q| - 1]);
    }
  }

  /**
   For a selector with no child combinator left of a descendant one, on any tree: the
   outcome is right exactly when there is no error and no candidate that matches stands
   behind one that falls.
   */
  lemma {:induction false} RightOnTreeExactlyWhen(d: Document, filter: Filter, isXML: bool, parts: seq<Part>,
                                                  context: Context, candidates: seq<nat>)
    requires WellFormed(d) && ProperTree(d) && AllIn(d, candidates) && parts != [] && Safe(CombsOf(parts))
    ensures var steps := StepsOf(d, filter, isXML, parts);
            Outcome(d, filter, isXML, parts, context, candidates) == Some(Matching(d, context, steps, candidates))
            <==> Outcome(d, filter, isXML, parts, context, candidates).Some?
                 && forall j, k :: 0 <= j < k < |candidates| && Falls(d, filter, isXML, parts, candidates[j]) ==>
                      !HasChain(d, context, steps, candidates[k])
  {
    if Outcome(d, filter, isXML, parts, context, candidates).Some? {
      RightIfNoneBehind(d, filter, isXML, parts, context, candidates);
      NoneBehind(d, filter, isXML, parts, context, candidates);
    }
  }

  lemma {:induction false} RightIfNoneBehind(d: Document, filter: Filter, isXML: bool, parts: seq<Part>,
                                             context: Context, candidates: seq<nat>)
    requires WellFormed(d) && ProperTree(d) && AllIn(d, candidates) && parts != [] && Safe(CombsOf(parts))
    requires Outcome(d, filter, isXML, parts, context, candidates).Some?
    ensures var steps := StepsOf(d, filter, isXML, parts);
            Outcome(d, filter, isXML, parts, context, candidates).value == Matching(d, context, steps, candidates)
            <==> forall k :: FirstFallen(d, filter, isXML, parts, candidates) <= k < |candidates| ==>
                   !HasChain(d, context, steps, candidates[k])
  {
    var steps := StepsOf(d, filter, isXML, parts);
    var n := FirstFallen(d, filter, isXML, parts, candidates);
    SafeOutcome(d, filter, isXML, parts, context, candidates);
    PrefixIsAll(d, context, steps, candidates, n);
  }

  lemma {:induction false} PrefixIsAll(d: Document, context: Context, steps: seq<Step>, q: seq<nat>, n: nat)
    requires WellFormed(d) && n <= |q|
    ensures Matching(d, context, steps, q[..n]) == Matching(d, context, steps, q)
            <==> forall k :: n <= k < |q| ==> !HasChain(d, context, steps, q[k])
  {
    MatchingInTwo(d, context, steps, q[..n], q[n..]);
    assert q[..n] + q[n..] == q;
    NoneMatchesFrom(d, context, steps, q, n);
    SameLength(Matching(d, context, steps, q[..n]), Matching(d, context, steps, q[n..]));
  }

  lemma {:induction false} SameLength(a: seq<nat>, b: seq<nat>)
    ensures a == a + b <==> b == []
  {
    assert |a + b| == |a| + |b|;
    assert a + [] == a;
  }

  lemma {:induction false} NoneMatchesFrom(d: Document, context: Context, steps: seq<Step>, q: seq<nat>, n: nat)
    requires WellFormed(d) && n <= |q|
    ensures Matching(d, context, steps, q[n..]) == []
            <==> forall k :: n <= k < |q| ==> !HasChain(d, context, steps, q[k])
  {
    NoneMatches(d, context, steps, q[n..]);
    assert forall k :: n <= k < |q| ==> q[k] == q[n..][k - n];
    assert forall k :: 0 <= k < |q[n..]| ==> q[n..][k] == q[n + k];
  }

  lemma {:induction false} NoneBehind(d: Document, filter: Filter, isXML: bool, parts: seq<Part>,
                                      context: Context, candidates: seq<nat>)
    requires WellFormed(d) && ProperTree(d) && AllIn(d, candidates) && parts != [] && Safe(CombsOf(parts))
    ensures var steps := StepsOf(d, filter, isXML, parts);
            (forall k :: FirstFallen(d, filter, isXML, parts, candidates) <= k < |candidates| ==>
               !HasChain(d, context, steps, candidates[k]))
            <==> forall j, k :: 0 <= j < k < |candidates| && Falls(d, filter, isXML, parts, candidates[j]) ==>
                   !HasChain(d, context, steps, candidates[k])
  {
    var n := FirstFallen(d, filter, isXML, parts, candidates);
    if n < |candidates| {
      FallenIsNoMatch(d, filter, isXML, parts, context, candidates[n]);
    }
  }

  /** A candidate that falls does not match itself. */
  lemma {:induction false} FallenIsNoMatch(d: Document, filter: Filter, isXML: bool, parts: seq<Part>,
                                           context: Context, c: nat)
    requires WellFormed(d) && ProperTree(d) && c < |d| && parts != [] && Safe(CombsOf(parts))
    requires Falls(d, filter, isXML, parts, c)
    ensures !HasChain(d, context, StepsOf(d, filter, isXML, parts), c)
  {
    CombsOfSteps(d, filter, isXML, parts);
    KeptAlike(d, filter, isXML, parts, context, c);
    KeptExactlyWhen(d, filter, isXML, parts, context, c);
  }

  // ---------------------------------------------------------------------
  // When there is an error

  lemma {:induction false} TripRaises(d: Document, filter: Filter, isXML: bool, parts: seq<Part>, s: seq<Entry>, k: nat)
    requires WellFormed(d) && EntriesIn(d, s) && k < |s| && Trips(d, filter, isXML, parts, s[k])
    requires forall j :: 0 <= j < k ==> !ActAll(d, filter, isXML, parts, s[j]).Null?
    ensures RunSet(d, filter, isXML, parts, s).None?
    decreases |parts|
  {
    var n := |parts| - 1;
    if !Raises(d, parts[n], s) {
      var s' := StepSet(d, filter, isXML, parts[n], s);
      StepActs(d, filter, isXML, parts[n], s);
      if FirstNull(s') < k {
        NullStays(d, filter, isXML, parts[..n]);
      }
      TripRaises(d, filter, isXML, parts[..n], s', k);
    }
  }

  lemma {:induction false} NoNewNull(d: Document, filter: Filter, isXML: bool, parts: seq<Part>, s: seq<Entry>)
    requires WellFormed(d) && EntriesIn(d, s) && parts != [] && !Raises(d, parts[|parts| - 1], s)
    requires forall k :: 0 <= k < |s| ==> !ActAll(d, filter, isXML, parts, s[k]).Null?
    ensures var s' := StepSet(d, filter, isXML, parts[|parts| - 1], s);
            forall k :: 0 <= k < |s| ==> !s'[k].Null? && s'[k] == Act(d, filter, isXML, parts[|parts| - 1], s[k])
  {
    var n := |parts| - 1;
    var s' := StepSet(d, filter, isXML, parts[n], s);
    StepActs(d, filter, isXML, parts[n], s);
    NullStays(d, filter, isXML, parts[..n]);
    forall k | 0 <= k < |s| && k <= FirstNull(s') ensures !Act(d, filter, isXML, parts[n], s[k]).Null? {
      assert !ActAll(d, filter, isXML, parts, s[k]).Null?;
    }
  }

  lemma {:induction false} NoTripNoError(d: Document, filter: Filter, isXML: bool, parts: seq<Part>, s: seq<Entry>)
    requires WellFormed(d) && EntriesIn(d, s)
    requires forall k :: 0 <= k < |s| ==> !Trips(d, filter, isXML, parts, s[k])
    requires forall k :: 0 <= k < |s| ==> !ActAll(d, filter, isXML, parts, s[k]).Null?
    ensures RunSet(d, filter, isXML, parts, s).Some?
    decreases |parts|
  {
    if parts != [] {
      var n := |parts| - 1;
      forall k | 0 <= k < |s| ensures !TripsNow(d, parts[n], s[k]) {
        assert !Trips(d, filter, isXML, parts, s[k]);
      }
      var s' := StepSet(d, filter, isXML, parts[n], s);
      NoNewNull(d, filter, isXML, parts, s);
      forall k | 0 <= k < |s|
        ensures !Trips(d, filter, isXML, parts[..n], s'[k]) && !ActAll(d, filter, isXML, parts[..n], s'[k]).Null?
      {
        assert !Trips(d, filter, isXML, parts, s[k]);
      }
      NoTripNoError(d, filter, isXML, parts[..n], s');
    }
  }

  /**
   A candidate that trips, with none before it that falls, is an error; and without any that
   falls nothing else is.
   */
  lemma {:induction false} RaisesExactlyWhen(d: Document, filter: Filter, isXML: bool, parts: seq<Part>,
                                             context: Context, candidates: seq<nat>)
    requires WellFormed(d) && AllIn(d, candidates)
    ensures (exists k :: 0 <= k < |candidates| && k <= FirstFallen(d, filter, isXML, parts, candidates)
                         && Trips(d, filter, isXML, parts, Elem(candidates[k]))) ==>
              Outcome(d, filter, isXML, parts, context, candidates).None?
    ensures FirstFallen(d, filter, isXML, parts, candidates) == |candidates| ==>
              (Outcome(d, filter, isXML, parts, context, candidates).None?
               <==> exists k :: 0 <= k < |candidates| && Trips(d, filter, isXML, parts, Elem(candidates[k])))
  {
    var s := Elems(candidates);
    var n := FirstFallen(d, filter, isXML, parts, candidates);
    forall j | 0 <= j < n ensures !ActAll(d, filter, isXML, parts, s[j]).Null? {
      assert !Falls(d, filter, isXML, parts, candidates[j]);
    }
    if exists k :: 0 <= k < |candidates| && k <= n && Trips(d, filter, isXML, parts, Elem(candidates[k])) {
      var k :| 0 <= k < |candidates| && k <= n && Trips(d, filter, isXML, parts, Elem(candidates[k]));
      TripRaises(d, filter, isXML, parts, s, k);
    } else if n == |candidates| {
      forall k | 0 <= k < |s| ensures !Trips(d, filter, isXML, parts, s[k]) {
        assert !Trips(d, filter, isXML, parts, Elem(candidates[k]));
      }
      NoTripNoError(d, filter, isXML, parts, s);
    }
  }

  // ---------------------------------------------------------------------
  // For which selectors and trees the loop is right

  /** No candidate takes a child step from a topmost node. */
  predicate NoStepFromTop(d: Document, filter: Filter, isXML: bool, parts: seq<Part>, candidates: seq<nat>)
    requires WellFormed(d) && AllIn(d, candidates)
  {
    forall k :: 0 <= k < |candidates| ==>
      !Trips(d, filter, isXML, parts, Elem(candidates[k])) && !Falls(d, filter, isXML, parts, candidates[k])
  }

  lemma {:induction false} NoStepNoLoss(d: Document, filter: Filter, isXML: bool, parts: seq<Part>, context: Context,
                                        candidates: seq<nat>)
    requires WellFormed(d) && ProperTree(d) && AllIn(d, candidates)
    requires NoStepFromTop(d, filter, isXML, parts, candidates)
    ensures Outcome(d, filter, isXML, parts, context, candidates)
            == Some(Kept(d, context, StepsOf(d, filter, isXML, parts), candidates))
  {
    RaisesExactlyWhen(d, filter, isXML, parts, context, candidates);
    OutcomeIsKept(d, filter, isXML, parts, context, candidates);
    assert candidates[..FirstFallen(d, filter, isXML, parts, candidates)] == candidates;
  }

  /** Every element has a parent, as it does in a document. */
  predicate Attached(d: Document) {
    forall n :: 0 <= n < |d| && IsElement(d, n) ==> d[n].parentNode.Some?
  }

  /** The parts are names, or pass elements only. */
  ghost predicate PassElements(d: Document, filter: Filter, parts: seq<Part>) {
    forall i :: 0 <= i < |parts| ==> PassesElements(d, filter, parts[i].text)
  }

  ghost predicate PassesElements(d: Document, filter: Filter, part: string) {
    IsWord(part) || forall n: nat :: filter(part, n) ==> IsElement(d, n)
  }

  /** What is in a check set where such parts are joined in a document. */
  predicate InTree(d: Document, e: Entry) {
    e == False || (e.Elem? && IsElement(d, e.n))
  }

  lemma ActStaysInTree(d: Document, filter: Filter, isXML: bool, part: Part, e: Entry)
    requires WellFormed(d) && ProperTree(d) && Attached(d) && PassesElements(d, filter, part.text) && InTree(d, e)
    ensures InTree(d, Act(d, filter, isXML, part, e)) && !TripsNow(d, part, e)
  {
    if e.Elem? {
      HitAboveIsNearest(d, ParentNode, PartTest(d, filter, isXML, part.text), e.n);
      var r := Act(d, filter, isXML, part, e);
      if r.Elem? && part.comb == Descendant {
        HitIsElement(d, filter, isXML, part.text, r.n, e.n);
      }
      if r.Elem? && part.comb == Child && IsWord(part.text) {
        assert Above(d, ParentNode, r.n, e.n);
        HitIsElement(d, filter, isXML, part.text, r.n, e.n);
      }
    }
  }

  lemma {:induction false} InTreeAlways(d: Document, filter: Filter, isXML: bool, parts: seq<Part>, e: Entry)
    requires WellFormed(d) && ProperTree(d) && Attached(d) && PassElements(d, filter, parts) && InTree(d, e)
    ensures InTree(d, ActAll(d, filter, isXML, parts, e)) && !Trips(d, filter, isXML, parts, e)
    decreases |parts|
  {
    if parts != [] {
      var n := |parts| - 1;
      assert PassesElements(d, filter, parts[n].text);
      ActStaysInTree(d, filter, isXML, parts[n], e);
      InTreeAlways(d, filter, isXML, parts[..n], Act(d, filter, isXML, parts[n], e));
    }
  }

  /** In a document, parts that pass elements only never step from a topmost node. */
  lemma {:induction false} AttachedNeverSteps(d: Document, filter: Filter, isXML: bool, parts: seq<Part>,
                                              candidates: seq<nat>)
    requires WellFormed(d) && ProperTree(d) && Attached(d) && PassElements(d, filter, parts)
    requires AllIn(d, candidates) && forall k :: 0 <= k < |candidates| ==> IsElement(d, candidates[k])
    ensures NoStepFromTop(d, filter, isXML, parts, candidates)
  {
    forall k | 0 <= k < |candidates|
      ensures !Trips(d, filter, isXML, parts, Elem(candidates[k])) && !Falls(d, filter, isXML, parts, candidates[k])
    {
      InTreeAlways(d, filter, isXML, parts, Elem(candidates[k]));
    }
  }

  lemma {:induction false} DescendantNeverSteps(d: Document, filter: Filter, isXML: bool, parts: seq<Part>, e: Entry)
    requires WellFormed(d) && (e.Elem? ==> e.n < |d|) && !e.Null?
    requires forall i :: 0 <= i < |parts| ==> parts[i].comb == Descendant
    ensures !Trips(d, filter, isXML, parts, e) && !ActAll(d, filter, isXML, parts, e).Null?
    decreases |parts|
  {
    if parts != [] {
      var n := |parts| - 1;
      DescendantNeverSteps(d, filter, isXML, parts[..n], Act(d, filter, isXML, parts[n], e));
    }
  }

  /** The results are what the selector means. */
  ghost predicate Right(d: Document, filter: Filter, isXML: bool, parts: seq<Part>, context: Context,
                        candidates: seq<nat>)
    requires WellFormed(d) && AllIn(d, candidates)
  {
    Outcome(d, filter, isXML, parts, context, candidates)
    == Some(Matching(d, context, StepsOf(d, filter, isXML, parts), candidates))
  }

  ghost predicate RightUnlessFromTop(d: Document, filter: Filter, isXML: bool, parts: seq<Part>, context: Context,
                                     candidates: seq<nat>)
  {
    WellFormed(d) && ProperTree(d) && AllIn(d, candidates) && NoStepFromTop(d, filter, isXML, parts, candidates) ==>
      Right(d, filter, isXML, parts, context, candidates)
  }

  /** They are on every tree, for all parts joined in this way and all candidates that make no step from the top. */
  ghost predicate AlwaysRight(combs: seq<Comb>, filter: Filter, isXML: bool) {
    forall d, parts, context, candidates ::
      CombsOf(parts) == combs ==> RightUnlessFromTop(d, filter, isXML, parts, context, candidates)
  }

  /** The parts of the ladder, as a selector. */
  function LadderParts(combs: seq<Comb>): seq<Part> {
    seq(|combs|, k requires 0 <= k < |combs| => Part(Word(k), combs[k]))
  }

  lemma {:induction false} LadderSteps(combs: seq<Comb>, i: nat, filter: Filter, isXML: bool)
    ensures StepsOf(Ladder(i, |combs| + 3), filter, isXML, LadderParts(combs)) == Rungs(combs, i)
  {
    var d := Ladder(i, |combs| + 3);
    forall k | 0 <= k < |combs|
      ensures StepsOf(d, filter, isXML, LadderParts(combs))[k] == Rungs(combs, i)[k]
    {
      assert ToUpper(Word(k)) == Word(k);
    }
  }

  lemma LadderIsDocument(i: nat, n: nat)
    ensures ProperTree(Ladder(i, n)) && Attached(Ladder(i, n))
  {
    assert !IsWordChar("#document"[0]);
  }

  lemma {:induction false} LadderMissed(combs: seq<Comb>, i: nat, filter: Filter, isXML: bool)
    requires combs != [] && var d := Ladder(i, |combs| + 3);
             && IsChain(d, Rungs(combs, i), LadderChain(combs, i), |combs| + 2)
             && Fold(d, Rungs(combs, i), Elem(|combs| + 2)) == False
    ensures !RightUnlessFromTop(Ladder(i, |combs| + 3), filter, isXML, LadderParts(combs), WholeDocument, [|combs| + 2])
  {
    var d, c, parts := Ladder(i, |combs| + 3), |combs| + 2, LadderParts(combs);
    LadderMatches(combs, i);
    LadderSteps(combs, i, filter, isXML);
    LadderIsDocument(i, |combs| + 3);
    LadderNeverSteps(combs, i, filter, isXML);
    NoStepNoLoss(d, filter, isXML, parts, WholeDocument, [c]);
  }

  lemma {:induction false} LadderNeverSteps(combs: seq<Comb>, i: nat, filter: Filter, isXML: bool)
    ensures NoStepFromTop(Ladder(i, |combs| + 3), filter, isXML, LadderParts(combs), [|combs| + 2])
  {
    var d, c, parts := Ladder(i, |combs| + 3), |combs| + 2, LadderParts(combs);
    LadderIsDocument(i, |combs| + 3);
    assert PassElements(d, filter, parts);
    AttachedNeverSteps(d, filter, isXML, parts, [c]);
  }

  lemma {:induction false} LadderMatches(combs: seq<Comb>, i: nat)
    requires combs != [] && var d := Ladder(i, |combs| + 3);
             && IsChain(d, Rungs(combs, i), LadderChain(combs, i), |combs| + 2)
             && Fold(d, Rungs(combs, i), Elem(|combs| + 2)) == False
    ensures var d, c := Ladder(i, |combs| + 3), |combs| + 2;
            && Kept(d, WholeDocument, Rungs(combs, i), [c]) == []
            && Matching(d, WholeDocument, Rungs(combs, i), [c]) == [c]
  {
    var d, c := Ladder(i, |combs| + 3), |combs| + 2;
    KeptOne(d, WholeDocument, Rungs(combs, i), c);
    assert StartsInside(d, WholeDocument, LadderChain(combs, i));
  }

  lemma {:induction false} UnsafeIsWrong(combs: seq<Comb>, filter: Filter, isXML: bool)
    requires !Safe(combs)
    ensures !AlwaysRight(combs, filter, isXML)
  {
    var i := FirstUnsafe(combs);
    LadderMissed(combs, i, filter, isXML);
    assert CombsOf(LadderParts(combs)) == combs;
  }

  lemma {:induction false} SafeIsRight(d: Document, filter: Filter, isXML: bool, parts: seq<Part>, context: Context,
                                       candidates: seq<nat>)
    requires parts != [] && Safe(CombsOf(parts))
    ensures RightUnlessFromTop(d, filter, isXML, parts, context, candidates)
  {
    if WellFormed(d) && ProperTree(d) && AllIn(d, candidates) && NoStepFromTop(d, filter, isXML, parts, candidates) {
      NoStepNoLoss(d, filter, isXML, parts, context, candidates);
      CombsOfSteps(d, filter, isXML, parts);
      KeptIsMatching(d, filter, isXML, parts, context, candidates);
    }
  }

  /**
   Where no candidate steps from the top, the loop is right about every selector joined in
   some way, with tag names or any other parts, exactly when no child combinator stands left
   of a descendant one.
   */
  lemma {:induction false} RightExactlyWhenSafe(combs: seq<Comb>, filter: Filter, isXML: bool)
    requires combs != []
    ensures AlwaysRight(combs, filter, isXML) <==> Safe(combs)
  {
    if Safe(combs) {
      forall d, parts, context, candidates | CombsOf(parts) == combs
        ensures RightUnlessFromTop(d, filter, isXML, parts, context, candidates)
      {
        SafeIsRight(d, filter, isXML, parts, context, candidates);
      }
    } else {
      UnsafeIsWrong(combs, filter, isXML);
    }
  }

  ghost predicate RightOnTree(d: Document, filter: Filter, isXML: bool, parts: seq<Part>, context: Context,
                              candidates: seq<nat>)
  {
    WellFormed(d) && ProperTree(d) && AllIn(d, candidates) ==> Right(d, filter, isXML, parts, context, candidates)
  }

  /** The same on every tree without exception. */
  ghost predicate RightEverywhere(combs: seq<Comb>, filter: Filter, isXML: bool) {
    forall d, parts, context, candidates ::
      CombsOf(parts) == combs ==> RightOnTree(d, filter, isXML, parts, context, candidates)
  }

  lemma {:induction false} DescendantsAreRight(d: Document, filter: Filter, isXML: bool, parts: seq<Part>,
                                               context: Context, candidates: seq<nat>)
    requires parts != [] && forall i :: 0 <= i < |parts| ==> parts[i].comb == Descendant
    ensures RightOnTree(d, filter, isXML, parts, context, candidates)
  {
    if WellFormed(d) && ProperTree(d) && AllIn(d, candidates) {
      forall k | 0 <= k < |candidates|
        ensures !Trips(d, filter, isXML, parts, Elem(candidates[k])) && !Falls(d, filter, isXML, parts, candidates[k])
      {
        DescendantNeverSteps(d, filter, isXML, parts, Elem(candidates[k]));
      }
      SafeIsRight(d, filter, isXML, parts, context, candidates);
    }
  }

  const LONE: Document := [NodeInfo(ELEMENT, "A", None, None, [])]

  /** A child step to a name from an element without a parent. */
  lemma {:induction false} LoneRaises(combs: seq<Comb>, filter: Filter, isXML: bool)
    requires combs != [] && combs[|combs| - 1] == Child
    ensures !RightOnTree(LONE, filter, isXML, LadderParts(combs), WholeDocument, [0])
  {
    var parts := LadderParts(combs);
    assert WellFormed(LONE) && ProperTree(LONE) && AllIn(LONE, [0]);
    assert TripsNow(LONE, parts[|parts| - 1], Elem(0));
    TripRaises(LONE, filter, isXML, parts, Elems([0]), 0);
  }

  /** It is right on every tree, detached ones included, exactly for selectors without a child combinator. */
  lemma {:induction false} RightEverywhereExactlyWhen(combs: seq<Comb>, filter: Filter, isXML: bool)
    requires combs != []
    ensures RightEverywhere(combs, filter, isXML) <==> forall i :: 0 <= i < |combs| ==> combs[i] == Descendant
  {
    if forall i :: 0 <= i < |combs| ==> combs[i] == Descendant {
      forall d, parts: seq<Part>, context, candidates | CombsOf(parts) == combs
        ensures RightOnTree(d, filter, isXML, parts, context, candidates)
      {
        forall i | 0 <= i < |parts| ensures parts[i].comb == Descendant {
          assert parts[i].comb == CombsOf(parts)[i] == combs[i];
        }
        DescendantsAreRight(d, filter, isXML, parts, context, candidates);
      }
    } else {
      assert CombsOf(LadderParts(combs)) == combs;
      if combs[|combs| - 1] == Child {
        LoneRaises(combs, filter, isXML);
      } else {
        var i :| 0 <= i < |combs| && combs[i] != Descendant;
        assert combs[i] == Child && combs[|combs| - 1] == Descendant;
        EverywhereIsAlways(combs, filter, isXML);
        UnsafeIsWrong(combs, filter, isXML);
      }
    }
  }

  lemma {:induction false} EverywhereIsAlways(combs: seq<Comb>, filter: Filter, isXML: bool)
    ensures RightEverywhere(combs, filter, isXML) ==> AlwaysRight(combs, filter, isXML)
  {
    if RightEverywhere(combs, filter, isXML) {
      forall d, parts, context, candidates | CombsOf(parts) == combs
        ensures RightUnlessFromTop(d, filter, isXML, parts, context, candidates)
      {
        assert RightOnTree(d, filter, isXML, parts, context, candidates);
      }
    }
  }

  /** `a > b c` in a document in which an A holds a B, which holds another B, which holds a C. */
  const NESTED: Document := [
    NodeInfo(DOCUMENT, "#document", None, None, [1]),
    NodeInfo(ELEMENT, "A", Some(0), None, [2]),
    NodeInfo(ELEMENT, "B", Some(1), None, [3]),
    NodeInfo(ELEMENT, "B", Some(2), None, [4]),
    NodeInfo(ELEMENT, "C", Some(3), None, [])]

  const A_B: seq<Part> := [Part("a", Child), Part("b", Descendant)]

  lemma NestedFold(filter: Filter) returns (chain: seq<nat>)
    ensures WellFormed(NESTED)
    ensures Fold(NESTED, StepsOf(NESTED, filter, false, A_B), Elem(4)) == False
    ensures IsChain(NESTED, StepsOf(NESTED, filter, false, A_B), chain, 4)
  {
    var steps := StepsOf(NESTED, filter, false, A_B);
    assert ToUpper("a") == "A" && ToUpper("b") == "B";
    assert steps[0] == Step(NameTest(NESTED, "A"), Child) && steps[1] == Step(NameTest(NESTED, "B"), Descendant);
    assert FirstHit(NESTED, ParentNode, steps[1].test, Some(3)) == Some(3);
    assert FoldOne(NESTED, steps[1], Elem(4)) == Elem(3);
    assert FoldOne(NESTED, steps[0], Elem(3)) == False;
    assert steps[..1] == [steps[0]];
    assert Fold(NESTED, [], False) == False;
    chain := [1, 2];
    assert Above(NESTED, ParentNode, 2, 3);
    assert Fits(NESTED, steps, chain, 4, 0) && Fits(NESTED, steps, chain, 4, 1);
  }

  /** The inner B is the nearest, and its parent is no A, so the C is missed. */
  lemma MissedMatch(filter: Filter)
    ensures WellFormed(NESTED) && AllIn(NESTED, [4])
    ensures Outcome(NESTED, filter, false, A_B, WholeDocument, [4]) == Some([])
    ensures Matching(NESTED, WholeDocument, StepsOf(NESTED, filter, false, A_B), [4]) == [4]
  {
    var chain := NestedFold(filter);
    assert !IsWordChar("#document"[0]);
    AttachedNeverSteps(NESTED, filter, false, A_B, [4]);
    NoStepNoLoss(NESTED, filter, false, A_B, WholeDocument, [4]);
    assert StartsInside(NESTED, WholeDocument, chain);
    KeptOne(NESTED, WholeDocument, StepsOf(NESTED, filter, false, A_B), 4);
  }

  /** A UL that holds an LI. */
  const LIST: Document := [
    NodeInfo(DOCUMENT, "#document", None, None, [1]),
    NodeInfo(ELEMENT, "UL", Some(0), None, [2]),
    NodeInfo(ELEMENT, "LI", Some(1), None, [])]

  lemma ListFold(filter: Filter, isXML: bool, comb: Comb)
    ensures WellFormed(LIST)
    ensures Fold(LIST, StepsOf(LIST, filter, isXML, [Part("ul", comb)]), Elem(2)) == if isXML then False else Elem(1)
  {
    var steps := StepsOf(LIST, filter, isXML, [Part("ul", comb)]);
    UpperIs("ul", "UL");
    assert steps[0] == Step(NameTest(LIST, if isXML then "ul" else "UL"), comb);
    assert ParentOf(LIST, 2) == Some(1) && ParentOf(LIST, 1) == Some(0) && ParentOf(LIST, 0) == None;
    assert LIST[0].nodeName != "ul" && LIST[1].nodeName != "ul" by {
      assert "UL"[0] != "ul"[0] && |"#document"| != |"ul"|;
    }
    assert FirstHit(LIST, ParentNode, steps[0].test, Some(1))
           == if isXML then FirstHit(LIST, ParentNode, steps[0].test, Some(0)) else Some(1);
    assert FoldOne(LIST, steps[0], Elem(2)) == if isXML then False else Elem(1);
    assert steps[..0] == [];
  }

  /** `ul li` and `ul > li` find the LI in HTML, where names are compared in upper case, and not in XML. */
  lemma ListItems(filter: Filter, isXML: bool, comb: Comb)
    ensures WellFormed(LIST) && AllIn(LIST, [2])
    ensures Outcome(LIST, filter, isXML, [Part("ul", comb)], WholeDocument, [2]) == Some(if isXML then [] else [2])
  {
    var parts := [Part("ul", comb)];
    ListFold(filter, isXML, comb);
    assert !IsWordChar("#document"[0]);
    AttachedNeverSteps(LIST, filter, isXML, parts, [2]);
    NoStepNoLoss(LIST, filter, isXML, parts, WholeDocument, [2]);
    KeptOne(LIST, WholeDocument, StepsOf(LIST, filter, isXML, parts), 2);
  }

  /** `.a > .b > .c` below a detached element of class b, which holds a C, and behind it an A with a B with a C. */
  const DETACHED: Document := [
    NodeInfo(ELEMENT, "DIV", None, None, [1, 2]),
    NodeInfo(ELEMENT, "DIV", Some(0), None, []),
    NodeInfo(ELEMENT, "DIV", Some(0), Some(1), [3]),
    NodeInfo(ELEMENT, "DIV", Some(2), None, [4]),
    NodeInfo(ELEMENT, "DIV", Some(3), None, [])]

  const OF_CLASS: Filter :=
    (part: string, n: nat) => if part == ".a" then n == 2 else part == ".b" && (n == 0 || n == 3)
  const AA_BB: seq<Part> := [Part(".a", Child), Part(".b", Child)]

  lemma ClassesAreNoWords()
    ensures !IsWord(".a") && !IsWord(".b")
  {
    assert !IsWordChar(".a"[0]) && !IsWordChar(".b"[0]);
  }

  lemma DetachedSteps()
    ensures WellFormed(DETACHED)
    ensures StepSet(DETACHED, OF_CLASS, false, AA_BB[1], [Elem(1), Elem(4)]) == [Elem(0), Elem(3)]
    ensures StepSet(DETACHED, OF_CLASS, false, AA_BB[0], [Elem(0), Elem(3)]) == [Null, Elem(2)]
  {
    ClassesAreNoWords();
    assert ParentOf(DETACHED, 1) == Some(0) && ParentOf(DETACHED, 4) == Some(3);
    assert ParentsOf(DETACHED, [Elem(1), Elem(4)]) == [Elem(0), Elem(3)];
    assert SiftedUpToNull(OF_CLASS, ".b", [Elem(0), Elem(3)]) == [Elem(0), Elem(3)];
    assert ParentOf(DETACHED, 0) == None && ParentOf(DETACHED, 3) == Some(2);
    assert ParentsOf(DETACHED, [Elem(0), Elem(3)]) == [Null, Elem(2)];
    assert FirstNull([Null, Elem(2)]) == 0;
    assert SiftedUpToNull(OF_CLASS, ".a", [Null, Elem(2)]) == [Null, Elem(2)];
  }

  lemma DetachedRun()
    ensures WellFormed(DETACHED) && AllIn(DETACHED, [1, 4])
    ensures RunSet(DETACHED, OF_CLASS, false, AA_BB, Elems([1, 4])) == Some([Null, Elem(2)])
  {
    ClassesAreNoWords();
    DetachedSteps();
    assert Elems([1, 4]) == [Elem(1), Elem(4)];
    assert AA_BB[..1] == [AA_BB[0]] && AA_BB[..1][..0] == [];
    RunNames(AA_BB[0], [Elem(0), Elem(3)]);
    RunNames(AA_BB[1], [Elem(1), Elem(4)]);
    assert RunSet(DETACHED, OF_CLASS, false, [AA_BB[0]], [Elem(0), Elem(3)])
           == RunSet(DETACHED, OF_CLASS, false, [], [Null, Elem(2)]);
  }

  lemma {:induction false} RunNames(part: Part, s: seq<Entry>)
    requires WellFormed(DETACHED) && EntriesIn(DETACHED, s) && !IsWord(part.text)
    ensures !Raises(DETACHED, part, s)
  {
  }

  lemma DetachedChain() returns (chain: seq<nat>)
    ensures WellFormed(DETACHED)
    ensures IsChain(DETACHED, StepsOf(DETACHED, OF_CLASS, false, AA_BB), chain, 4)
    ensures StartsInside(DETACHED, Within(0), chain)
  {
    var steps := StepsOf(DETACHED, OF_CLASS, false, AA_BB);
    ClassesAreNoWords();
    assert IsElement(DETACHED, 2) && IsElement(DETACHED, 3) && OF_CLASS(".a", 2) && OF_CLASS(".b", 3);
    assert PartTest(DETACHED, OF_CLASS, false, ".a")(2) && PartTest(DETACHED, OF_CLASS, false, ".b")(3);
    assert steps[0] == Step(PartTest(DETACHED, OF_CLASS, false, ".a"), Child);
    assert steps[1] == Step(PartTest(DETACHED, OF_CLASS, false, ".b"), Child);
    assert ParentOf(DETACHED, 3) == Some(2) && ParentOf(DETACHED, 4) == Some(3);
    chain := [2, 3];
    assert Fits(DETACHED, steps, chain, 4, 0) && Fits(DETACHED, steps, chain, 4, 1);
    assert Above(DETACHED, ParentNode, 0, 2);
  }

  lemma DetachedFirst()
    ensures WellFormed(DETACHED)
    ensures !HasChain(DETACHED, Within(0), StepsOf(DETACHED, OF_CLASS, false, AA_BB), 1)
  {
    DetachedRun();
    RunActs(DETACHED, OF_CLASS, false, AA_BB, Elems([1, 4]));
    assert FirstNull([Null, Elem(2)]) == 0;
    assert Falls(DETACHED, OF_CLASS, false, AA_BB, 1);
    FallenIsNoMatch(DETACHED, OF_CLASS, false, AA_BB, Within(0), 1);
  }

  /** The first C steps off the tree, and the second one, which matches, is lost behind it without an error. */
  lemma LostBehindNull()
    ensures WellFormed(DETACHED) && AllIn(DETACHED, [1, 4])
    ensures Outcome(DETACHED, OF_CLASS, false, AA_BB, Within(0), [1, 4]) == Some([])
    ensures Matching(DETACHED, Within(0), StepsOf(DETACHED, OF_CLASS, false, AA_BB), [1, 4]) == [4]
  {
    var steps := StepsOf(DETACHED, OF_CLASS, false, AA_BB);
    DetachedRun();
    assert FirstNull([Null, Elem(2)]) == 0;
    var chain := DetachedChain();
    DetachedFirst();
    MatchingInTwo(DETACHED, Within(0), steps, [1], [4]);
    assert [1] + [4] == [1, 4];
    KeptOne(DETACHED, Within(0), steps, 1);
    KeptOne(DETACHED, Within(0), steps, 4);
  }

  // ---------------------------------------------------------------------
  // The loops

  /** The variable `done`, from which every call takes a name of its own. */
  class Counter {
    var done: nat

    constructor ()
      ensures done == 0
    {
      done := 0;
    }
  }

  ghost predicate NamesBelow(sizcache: map<nat, nat>, done: nat) {
    forall n :: n in sizcache ==> sizcache[n] < done
  }

  lemma NamesStayBelow(before: map<nat, nat>, after: map<nat, nat>, doneName: nat)
    requires NamesBelow(before, doneName) && OnlyName(before, after, doneName)
    ensures NamesBelow(after, doneName + 1)
  {
    forall n | n in after ensures after[n] < doneName + 1 {
      assert NameAt(before, after, doneName, n);
    }
  }

  /** Expr.relative[""] */
  method RelativeDescendant(d: Document, counter: Counter, ex: Expandos, filter: Filter, part: string,
                            checkSet: array<Entry>, isXML: bool)
    requires WellFormed(d) && EntriesIn(d, checkSet[..]) && NamesBelow(ex.sizcache, counter.done)
    modifies counter, checkSet, ex`sizcache, ex`sizset
    ensures NamesBelow(ex.sizcache, counter.done)
    ensures checkSet[..] == StepSet(d, filter, isXML, Part(part, Descendant), old(checkSet[..]))
  {
    var doneName := counter.done;
    counter.done := counter.done + 1;
    ghost var s := checkSet[..];
    ghost var w := Walk(d, ParentNode, PartTest(d, filter, isXML, part), false, isXML);
    if IsWord(part) {
      ghost var steps := DirNodeCheck(d, ex, ParentNode, WordName(part, isXML), doneName, checkSet, isXML);
    } else {
      ghost var steps := DirCheck(d, ex, ParentNode, Filtered((n: nat) => filter(part, n)), doneName, checkSet, isXML);
    }
    NamesStayBelow(old(ex.sizcache), ex.sizcache, doneName);
    assert w.AllNaive(s, checkSet[..], checkSet.Length);
    forall k | 0 <= k < checkSet.Length ensures checkSet[k] == Act(d, filter, isXML, Part(part, Descendant), s[k]) {
      assert checkSet[..][k] == w.Naive(s[k]);
    }
  }

  /** Expr.relative[">"]: a word is compared with the parent's name, any other part filters the parents in place */
  method RelativeChild(d: Document, filter: Filter, part: string, checkSet: array<Entry>, isXML: bool)
    returns (raised: bool)
    requires WellFormed(d) && EntriesIn(d, checkSet[..])
    modifies checkSet
    ensures raised <==> Raises(d, Part(part, Child), old(checkSet[..]))
    ensures !raised ==> checkSet[..] == StepSet(d, filter, isXML, Part(part, Child), old(checkSet[..]))
  {
    ghost var s := checkSet[..];
    var i := 0;
    while i < checkSet.Length
      invariant 0 <= i <= checkSet.Length
      invariant forall k :: i <= k < |s| ==> checkSet[k] == s[k]
      invariant forall k :: 0 <= k < i ==> !TripsNow(d, Part(part, Child), s[k])
      invariant forall k :: 0 <= k < i ==>
                  checkSet[k] == if IsWord(part) then Act(d, filter, isXML, Part(part, Child), s[k])
                                 else ParentEntry(d, s[k])
    {
      var elem := checkSet[i];
      if elem.True? || elem.Elem? {
        var parent := if elem.Elem? then d[elem.n].parentNode else None;
        if IsWord(part) {
          if parent.None? {
            // the name of null
            assert TripsNow(d, Part(part, Child), s[i]);
            return true;
          }
          checkSet[i] := if d[parent.value].nodeName == WordName(part, isXML) then Elem(parent.value) else False;
        } else {
          checkSet[i] := if parent.Some? then Elem(parent.value) else Null;
        }
      }
      i := i + 1;
    }
    if !IsWord(part) {
      assert checkSet[..] == ParentsOf(d, s);
      FilterInPlace(filter, part, checkSet);
    }
    return false;
  }

  /** Sizzle.filter in place: what does not pass becomes false, up to the first null */
  method FilterInPlace(filter: Filter, part: string, checkSet: array<Entry>)
    modifies checkSet
    ensures checkSet[..] == SiftedUpToNull(filter, part, old(checkSet[..]))
  {
    ghost var s := checkSet[..];
    var i := 0;
    while i < checkSet.Length && !checkSet[i].Null?
      invariant 0 <= i <= FirstNull(s)
      invariant forall k :: i <= k < |s| ==> checkSet[k] == s[k]
      invariant forall k :: 0 <= k < i ==> checkSet[k] == Sifted(filter, part, s[k])
    {
      if checkSet[i].Elem? && !filter(part, checkSet[i].n) {
        checkSet[i] := False;
      }
      i := i + 1;
    }
    assert i == FirstNull(s);
  }

  /** The loop over the parts, from the last one to the first. */
  method FoldParts(d: Document, counter: Counter, ex: Expandos, filter: Filter, parts: seq<Part>,
                   checkSet: array<Entry>, isXML: bool)
    returns (raised: bool)
    requires WellFormed(d) && EntriesIn(d, checkSet[..]) && NamesBelow(ex.sizcache, counter.done)
    modifies counter, checkSet, ex`sizcache, ex`sizset
    ensures NamesBelow(ex.sizcache, counter.done)
    ensures RunSet(d, filter, isXML, parts, old(checkSet[..])) == if raised then None else Some(checkSet[..])
  {
    ghost var s := checkSet[..];
    var i := |parts|;
    assert parts[..i] == parts;
    while i > 0
      invariant 0 <= i <= |parts|
      invariant NamesBelow(ex.sizcache, counter.done) && EntriesIn(d, checkSet[..])
      invariant RunSet(d, filter, isXML, parts[..i], checkSet[..]) == RunSet(d, filter, isXML, parts, s)
    {
      var part := parts[i - 1];
      assert parts[..i][..i - 1] == parts[..i - 1];
      match part.comb {
        case Descendant =>
          RelativeDescendant(d, counter, ex, filter, part.text, checkSet, isXML);
        case Child =>
          raised := RelativeChild(d, filter, part.text, checkSet, isXML);
          if raised {
            return;
          }
      }
      i := i - 1;
    }
    return false;
  }

  /** The loop that collects the results; it stops at a null too. */
  method CollectKept(d: Document, candidates: seq<nat>, context: Context, checkSet: array<Entry>)
    returns (results: seq<nat>)
    requires WellFormed(d) && |candidates| == checkSet.Length
    ensures var n := FirstNull(checkSet[..]);
            results == Collected(d, context, candidates[..n], checkSet[..n])
  {
    results := [];
    var k := 0;
    assert candidates[..0] == [];
    while k < |candidates| && !checkSet[k].Null?
      invariant 0 <= k <= FirstNull(checkSet[..])
      invariant results == Collected(d, context, candidates[..k], checkSet[..k])
    {
      if Keeps(d, context, checkSet[k]) {
        results := results + [candidates[k]];
      }
      assert candidates[..k + 1][..k] == candidates[..k] && checkSet[..k + 1][..k] == checkSet[..k];
      k := k + 1;
    }
    assert k == FirstNull(checkSet[..]);
  }

  /**
   The part of Sizzle after the last part has been looked up: `candidates` are the
   elements found for it, `parts` are the parts before it.  None is an error.
   */
  method Sizzle(d: Document, counter: Counter, ex: Expandos, filter: Filter, parts: seq<Part>,
                candidates: seq<nat>, context: Context, isXML: bool)
    returns (results: Option<seq<nat>>)
    requires WellFormed(d) && AllIn(d, candidates) && NamesBelow(ex.sizcache, counter.done)
    modifies counter, ex`sizcache, ex`sizset
    ensures NamesBelow(ex.sizcache, counter.done)
    ensures results == if parts == [] then Some(candidates) else Outcome(d, filter, isXML, parts, context, candidates)
    ensures parts != [] && ProperTree(d) && Safe(CombsOf(parts))
            && NoStepFromTop(d, filter, isXML, parts, candidates) ==>
              results == Some(Matching(d, context, StepsOf(d, filter, isXML, parts), candidates))
  {
    var prune := parts != [];
    if !prune {
      return Some(candidates);
    }
    var checkSet := new Entry[|candidates|](k requires 0 <= k < |candidates| => Elem(candidates[k]));
    assert checkSet[..] == Elems(candidates);
    var raised := FoldParts(d, counter, ex, filter, parts, checkSet, isXML);
    if raised {
      results := None;
    } else {
      var kept := CollectKept(d, candidates, context, checkSet);
      results := Some(kept);
    }
    if Safe(CombsOf(parts)) {
      SafeIsRight(d, filter, isXML, parts, context, candidates);
    }
  }

  /** `ul li` on the list, from a fresh state: the LI; in XML nothing. */
  method RunList(isXML: bool) returns (results: Option<seq<nat>>)
    ensures results == Some(if isXML then [] else [2])
  {
    var counter := new Counter();
    var ex := new Expandos();
    var nothing: Filter := (part: string, n: nat) => false;
    ListItems(nothing, isXML, Descendant);
    results := Sizzle(LIST, counter, ex, nothing, [Part("ul", Descendant)], [2], WholeDocument, isXML);
  }
}
