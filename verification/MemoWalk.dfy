/**
 The memoised walks of Sizzle, dirNodeCheck and dirCheck (jquery.js).  Both walk
 from each entry of a check set along one link to the first node that matches, and
 stamp what they pass so that later walks can stop early.  They differ only in the
 test, so both are calls of Scan here.
 */
module MemoWalk {
  import opened Wrappers
  import opened Dom

  /** What Sizzle writes on DOM nodes. */
  class Expandos {
    var sizcache: map<nat, nat>
    var sizset: map<nat, nat>
    var nodeIndex: map<nat, nat>

    constructor ()
      ensures sizcache == map[] && sizset == map[] && nodeIndex == map[]
    {
      sizcache, sizset, nodeIndex := map[], map[], map[];
    }
  }

  /** An entry of a check set; null is what the parent of a topmost node leaves. */
  datatype Entry = False | True | Null | Elem(n: nat)

  type CheckSet = seq<Entry>

  predicate EntriesIn(d: Document, s: CheckSet) {
    forall i :: 0 <= i < |s| && s[i].Elem? ==> s[i].n < |d|
  }

  predicate Stamped(sizcache: map<nat, nat>, doneName: nat, n: nat) {
    n in sizcache && sizcache[n] == doneName
  }

  /** `doneName` was never used on this document. */
  predicate FreshName(sizcache: map<nat, nat>, doneName: nat) {
    forall n :: n in sizcache ==> sizcache[n] != doneName
  }

  /** Only stamps of this name were added. */
  ghost predicate OnlyName(before: map<nat, nat>, after: map<nat, nat>, doneName: nat) {
    forall n: nat :: NameAt(before, after, doneName, n)
  }

  predicate NameAt(before: map<nat, nat>, after: map<nat, nat>, doneName: nat, n: nat) {
    n in after ==> after[n] == doneName || (n in before && after[n] == before[n])
  }

  lemma OnlyNameSelf(sc: map<nat, nat>, doneName: nat)
    ensures OnlyName(sc, sc, doneName)
  {
  }

  lemma OnlyNameStep(before: map<nat, nat>, after: map<nat, nat>, after': map<nat, nat>, doneName: nat, n: nat)
    requires OnlyName(before, after, doneName) && after' == after[n := doneName]
    ensures OnlyName(before, after', doneName)
  {
    forall x: nat ensures NameAt(before, after', doneName, x) {
      assert NameAt(before, after, doneName, x);
    }
  }

  lemma OnlyNameTransitive(a: map<nat, nat>, b: map<nat, nat>, c: map<nat, nat>, doneName: nat)
    requires OnlyName(a, b, doneName) && OnlyName(b, c, doneName)
    ensures OnlyName(a, c, doneName)
  {
    forall x: nat ensures NameAt(a, c, doneName, x) {
      assert NameAt(a, b, doneName, x) && NameAt(b, c, doneName, x);
    }
  }

  /** One call: the document, the link to follow, the test, and whether a match is recorded as `true`. */
  datatype Walk = Walk(d: Document, dir: Dir, test: nat -> bool, asTrue: bool, isXML: bool) {

    predicate Ok() {
      WellFormed(d)
    }

    /** Whether start elements are stamped as well. */
    predicate SibDir() {
      dir == PreviousSibling && !isXML
    }

    function Answer(hit: Option<nat>): Entry {
      if hit.None? then False else if asTrue then True else Elem(hit.value)
    }

    /** What a walk without any memory finds for an entry. */
    function Naive(e: Entry): Entry
      requires Ok() && (e.Elem? ==> e.n < |d|)
    {
      if e.Elem? then Answer(HitAbove(d, dir, test, e.n)) else if e.Null? then Null else False
    }

    /** The walk from `e`, run to its first match, comes past `n`. */
    predicate Visits(e: Entry, n: nat)
      requires Ok() && (e.Elem? ==> e.n < |d|)
    {
      && e.Elem? && n < |d|
      && ((SibDir() && n == e.n)
          || (Above(d, dir, n, e.n) && FirstHit(d, dir, test, Some(n)) == HitAbove(d, dir, test, e.n)))
    }

    /** The walks of the first `i` entries come past the element `n`. */
    ghost predicate Visited(s: CheckSet, i: nat, n: nat)
      requires Ok() && EntriesIn(d, s) && i <= |s|
    {
      IsElement(d, n) && exists k :: 0 <= k < i && Visits(s[k], n)
    }

    /**
     Entry `i` gets a stale answer in the sibling direction: its nearest match is
     itself an earlier start element, so that its stamp stands for the answer of that
     element, and no element in between was seen before to shield it.
     */
    ghost predicate Stale(s: CheckSet, i: nat)
      requires Ok() && EntriesIn(d, s) && i < |s|
    {
      && s[i].Elem?
      && var m := HitAbove(d, dir, test, s[i].n);
      && m.Some? && IsElement(d, m.value)
      && (exists j :: 0 <= j < i && s[j] == Elem(m.value))
      && (forall n :: Above(d, dir, n, s[i].n) && Above(d, dir, m.value, n) ==> !Visited(s, i, n))
      && Naive(Elem(m.value)) != Answer(m)
    }

    ghost predicate NoneStale(s: CheckSet, i: nat)
      requires Ok() && EntriesIn(d, s) && i <= |s|
    {
      forall k :: 0 <= k < i ==> !Stale(s, k)
    }

    predicate AllNaive(s: CheckSet, out: CheckSet, i: nat)
      requires Ok() && EntriesIn(d, s) && i <= |s| == |out|
    {
      forall k :: 0 <= k < i ==> out[k] == Naive(s[k])
    }

    // -------------------------------------------------------------------
    // The stamps

    /** The stamps after the first `i` entries: what they cover, and whose answer each one stands for. */
    ghost predicate Stamps(s: CheckSet, i: nat, sizcache: map<nat, nat>, sizset: map<nat, nat>, doneName: nat)
      requires Ok() && EntriesIn(d, s) && i <= |s|
    {
      && (forall n :: Stamped(sizcache, doneName, n) <==> !isXML && Visited(s, i, n))
      && (forall n :: Stamped(sizcache, doneName, n) ==> n in sizset && Records(s, i, sizset[n], n))
    }

    predicate StartedBefore(s: CheckSet, i: nat, n: nat)
      requires i <= |s|
    {
      exists j :: 0 <= j < i && s[j] == Elem(n)
    }

    /**
     The stamp of `n` after the first `i` entries stands for the answer of entry `k`: the
     last one that started at `n`, where start elements are stamped, and otherwise the
     first one whose walk came past `n`.
     */
    ghost predicate Records(s: CheckSet, i: nat, k: nat, n: nat)
      requires Ok() && EntriesIn(d, s) && i <= |s|
    {
      && k < i
      && if SibDir() && StartedBefore(s, i, n)
         then s[k] == Elem(n) && forall j :: k < j < i ==> s[j] != Elem(n)
         else Visits(s[k], n) && forall j :: 0 <= j < k ==> !Visits(s[j], n)
    }

    lemma {:induction false} RecordsStandsFor(s: CheckSet, i: nat, k: nat, n: nat)
      requires Ok() && EntriesIn(d, s) && i <= |s| && Records(s, i, k, n)
      ensures StandsFor(s[k], n)
    {
    }

    /** A later entry that starts elsewhere changes nothing. */
    lemma {:induction false} RecordsStay(s: CheckSet, i: nat, k: nat, n: nat)
      requires Ok() && EntriesIn(d, s) && i < |s| && Records(s, i, k, n) && (SibDir() ==> s[i] != Elem(n))
      ensures Records(s, i + 1, k, n)
    {
      if SibDir() {
        if StartedBefore(s, i + 1, n) {
          var j :| 0 <= j < i + 1 && s[j] == Elem(n);
          assert j < i;
        } else {
          assert forall j :: 0 <= j < i ==> s[j] != Elem(n);
        }
      }
    }

    lemma {:induction false} RecordsStart(s: CheckSet, i: nat)
      requires Ok() && EntriesIn(d, s) && i < |s| && s[i].Elem? && SibDir()
      ensures Records(s, i + 1, i, s[i].n)
    {
    }

    lemma {:induction false} RecordsFirst(s: CheckSet, i: nat, n: nat)
      requires Ok() && EntriesIn(d, s) && i < |s| && IsElement(d, n) && Visits(s[i], n) && !Visited(s, i, n)
      requires SibDir() ==> s[i] != Elem(n)
      ensures Records(s, i + 1, i, n)
    {
      if SibDir() && StartedBefore(s, i + 1, n) {
        var j :| 0 <= j < i + 1 && s[j] == Elem(n);
        assert Visits(s[j], n);
      }
    }

    /** The answer of `e` is the one to give at `n`, or `n` is the start element of `e`. */
    predicate StandsFor(e: Entry, n: nat)
      requires Ok() && (e.Elem? ==> e.n < |d|)
    {
      && e.Elem? && n < |d|
      && ((SibDir() && n == e.n) || FirstHit(d, dir, test, Some(n)) == HitAbove(d, dir, test, e.n))
    }

    /** Above `e`, and before the cursor of the walk that started there. */
    predicate Passed(e: nat, front: Option<nat>, n: nat)
      requires Ok()
    {
      Above(d, dir, n, e) && (front.None? || n > front.value)
    }

    /** The first hits from `n` and from above `e` agree exactly when no hit lies between. */
    lemma {:induction false} Segment(e: nat, n: nat)
      requires Ok() && Above(d, dir, n, e) && e < |d|
      ensures n < e
      ensures var m := HitAbove(d, dir, test, e);
              FirstHit(d, dir, test, Some(n)) == m <==> m.None? || n >= m.value
      decreases e
    {
      var o := Link(d, dir, e).value;
      if n != o {
        Segment(o, n);
      }
    }

    /** Above `e` the numbers give the order. */
    lemma SmallerIsAbove(e: nat, m: nat, n: nat)
      requires Ok() && Above(d, dir, n, e) && Above(d, dir, m, e) && m < n
      ensures Above(d, dir, m, n)
    {
      AboveLinear(d, dir, m, n, e);
    }

    /** A walk that comes past `c` comes past everything up to the hit from there. */
    lemma VisitsUpward(x: Entry, c: nat, n: nat)
      requires Ok() && (x.Elem? ==> x.n < |d|) && Visits(x, c) && Above(d, dir, n, c)
      requires FirstHit(d, dir, test, Some(n)) == FirstHit(d, dir, test, Some(c))
      ensures n < |d| && Visits(x, n)
    {
      assert !test(c);
      if c != x.n {
        AboveTransitive(d, dir, n, c, x.n);
      }
    }

    lemma {:induction false} VisitedUpward(s: CheckSet, i: nat, c: nat, n: nat)
      requires Ok() && EntriesIn(d, s) && i <= |s| && Visited(s, i, c) && Above(d, dir, n, c) && IsElement(d, n)
      requires FirstHit(d, dir, test, Some(n)) == FirstHit(d, dir, test, Some(c))
      ensures Visited(s, i, n)
    {
      var k :| 0 <= k < i && Visits(s[k], c);
      VisitsUpward(s[k], c, n);
    }

    // -------------------------------------------------------------------
    // One walk

    /** How the walk of entry `i` can end, seen from its last cursor. */
    ghost predicate WalkEnd(s: CheckSet, i: nat, front: Option<nat>, hit: bool)
      requires Ok() && EntriesIn(d, s) && i < |s| && s[i].Elem?
    {
      var e := s[i].n;
      if hit then
        // at a hit, with the cursor behind it
        && HitAbove(d, dir, test, e).Some?
        && front == Link(d, dir, HitAbove(d, dir, test, e).value)
      else if front.Some? then
        // at a stamped node
        && Above(d, dir, front.value, e) && front.value < |d|
        && FirstHit(d, dir, test, front) == HitAbove(d, dir, test, e)
        && Visited(s, i, front.value)
      else
        // at the end
        HitAbove(d, dir, test, e).None?
    }

    /** The walk has stamped what entry `i` adds to the visited elements. */
    lemma {:induction false} WalkCovers(s: CheckSet, i: nat, front: Option<nat>, hit: bool, n: nat)
      requires Ok() && EntriesIn(d, s) && i < |s| && s[i].Elem? && WalkEnd(s, i, front, hit)
      ensures Visited(s, i + 1, n) <==>
              Visited(s, i, n) || (IsElement(d, n) && ((SibDir() && n == s[i].n) || Passed(s[i].n, front, n)))
    {
      var e := s[i].n;
      if IsElement(d, n) && Above(d, dir, n, e) {
        Segment(e, n);
        if hit {
          PassedAtHit(e, front, n);
        } else if front.Some? {
          PassedAtStamp(s, i, front.value, n);
        }
      }
      assert Visited(s, i + 1, n) <==> Visited(s, i, n) || (IsElement(d, n) && Visits(s[i], n));
    }

    lemma PassedAtHit(e: nat, front: Option<nat>, n: nat)
      requires Ok() && e < |d| && Above(d, dir, n, e) && HitAbove(d, dir, test, e).Some?
      requires front == Link(d, dir, HitAbove(d, dir, test, e).value)
      ensures Passed(e, front, n) <==> n >= HitAbove(d, dir, test, e).value
    {
      var m := HitAbove(d, dir, test, e).value;
      HitAboveIsNearest(d, dir, test, e);
      if n < m {
        SmallerIsAbove(e, n, m);
      }
    }

    /** Beyond a stamped node, up to the hit, everything is visited already. */
    lemma {:induction false} PassedAtStamp(s: CheckSet, i: nat, c: nat, n: nat)
      requires Ok() && EntriesIn(d, s) && i < |s| && s[i].Elem? && IsElement(d, n)
      requires Above(d, dir, c, s[i].n) && Above(d, dir, n, s[i].n) && Visited(s, i, c)
      requires FirstHit(d, dir, test, Some(c)) == HitAbove(d, dir, test, s[i].n)
      ensures n > c ==> Visits(s[i], n)
      ensures n <= c && Visits(s[i], n) ==> Visited(s, i, n)
    {
      var e := s[i].n;
      Segment(e, n);
      Segment(e, c);
      if n < c && Visits(s[i], n) {
        SmallerIsAbove(e, n, c);
        VisitedUpward(s, i, c, n);
      }
    }

    /** Where no stamp was met the answer is not stale. */
    lemma {:induction false} UnstampedIsNotStale(s: CheckSet, i: nat, hit: bool)
      requires Ok() && EntriesIn(d, s) && i < |s| && s[i].Elem?
      requires var m := HitAbove(d, dir, test, s[i].n);
               if hit then m.Some? && !(SibDir() && Visited(s, i, m.value)) else m.None?
      ensures SibDir() ==> !Stale(s, i)
    {
    }

    /**
     Where the walk of entry `i` met the stamp of `c`, the recorded answer is the naive
     one exactly if it is not stale.
     */
    lemma {:induction false} StampedAnswer(s: CheckSet, out: CheckSet, i: nat, c: nat, k: nat)
      requires Ok() && EntriesIn(d, s) && i < |s| == |out| && s[i].Elem?
      requires Above(d, dir, c, s[i].n) && FirstHit(d, dir, test, Some(c)) == HitAbove(d, dir, test, s[i].n)
      requires Visited(s, i, c) && k < i && StandsFor(s[k], c) && AllNaive(s, out, i)
      requires SibDir() && (exists j :: 0 <= j < i && s[j] == Elem(c)) ==> s[k] == Elem(c)
      requires forall n: nat :: Above(d, dir, n, s[i].n) && n > c ==> !Visited(s, i, n)
      ensures !SibDir() ==> out[k] == Naive(s[i])
      ensures SibDir() ==> (out[k] == Naive(s[i]) <==> !Stale(s, i))
    {
      var e := s[i].n;
      var m := HitAbove(d, dir, test, e);
      if SibDir() && s[k].n == c && test(c) {
        assert m == Some(c);
      } else {
        assert out[k] == Naive(s[i]);
        if SibDir() && Stale(s, i) {
          HitAboveIsNearest(d, dir, test, e);
          Segment(e, c);
          if c != m.value {
            SmallerIsAbove(e, m.value, c);
          }
        }
      }
    }

    // -------------------------------------------------------------------
    // The stamps during one walk

    /** The stamps once entry `i`, which is `e`, has been stamped itself where start elements are. */
    ghost predicate Started(s: CheckSet, i: nat, sizcache: map<nat, nat>, sizset: map<nat, nat>, doneName: nat)
      requires Ok() && EntriesIn(d, s) && i < |s| && s[i].Elem?
    {
      && (forall n :: Stamped(sizcache, doneName, n) <==>
            !isXML && (Visited(s, i, n) || (SibDir() && n == s[i].n && IsElement(d, n))))
      && (forall n :: Stamped(sizcache, doneName, n) ==>
            n in sizset && if SibDir() && n == s[i].n then sizset[n] == i else Records(s, i, sizset[n], n))
    }

    /** What the walk has made of the stamp of `n` when its cursor is at `front`. */
    predicate GrownAt(s: CheckSet, i: nat, front: Option<nat>, doneName: nat,
                      sc0: map<nat, nat>, ss0: map<nat, nat>, sc: map<nat, nat>, ss: map<nat, nat>, n: nat)
      requires Ok() && EntriesIn(d, s) && i < |s| && s[i].Elem?
    {
      var passed := Passed(s[i].n, front, n);
      if Stamped(sc0, doneName, n) then
        Stamped(sc, doneName, n) && n in ss0 && n in ss && ss[n] == ss0[n] && !passed
      else
        && (Stamped(sc, doneName, n) <==> !isXML && IsElement(d, n) && passed)
        && (Stamped(sc, doneName, n) ==> n in ss && ss[n] == i)
    }

    ghost predicate Grown(s: CheckSet, i: nat, front: Option<nat>, doneName: nat,
                          sc0: map<nat, nat>, ss0: map<nat, nat>, sc: map<nat, nat>, ss: map<nat, nat>)
      requires Ok() && EntriesIn(d, s) && i < |s| && s[i].Elem?
    {
      forall n: nat :: GrownAt(s, i, front, doneName, sc0, ss0, sc, ss, n)
    }

    lemma {:induction false} StartStamp(s: CheckSet, i: nat, sc: map<nat, nat>, ss: map<nat, nat>, doneName: nat)
      requires Ok() && EntriesIn(d, s) && i < |s| && s[i].Elem? && Stamps(s, i, sc, ss, doneName)
      ensures var e := s[i].n;
              if SibDir() && IsElement(d, e) then Started(s, i, sc[e := doneName], ss[e := i], doneName)
              else Started(s, i, sc, ss, doneName)
    {
    }

    lemma {:induction false} WalkStampsAt(s: CheckSet, i: nat, front: Option<nat>, hit: bool, doneName: nat,
                                          sc0: map<nat, nat>, ss0: map<nat, nat>, sc: map<nat, nat>, ss: map<nat, nat>,
                                          n: nat)
      requires Ok() && EntriesIn(d, s) && i < |s| && s[i].Elem?
      requires Started(s, i, sc0, ss0, doneName) && Grown(s, i, front, doneName, sc0, ss0, sc, ss)
      requires WalkEnd(s, i, front, hit)
      ensures Stamped(sc, doneName, n) <==> !isXML && Visited(s, i + 1, n)
      ensures Stamped(sc, doneName, n) ==> n in ss && Records(s, i + 1, ss[n], n)
    {
      WalkCovers(s, i, front, hit, n);
      assert GrownAt(s, i, front, doneName, sc0, ss0, sc, ss, n);
      if Stamped(sc0, doneName, n) {
        if SibDir() && n == s[i].n {
          RecordsStart(s, i);
        } else {
          RecordsStay(s, i, ss[n], n);
        }
      } else if Stamped(sc, doneName, n) {
        assert !Visited(s, i, n);
        var k :| 0 <= k < i + 1 && Visits(s[k], n);
        assert k == i;
        RecordsFirst(s, i, n);
      }
    }

    lemma {:induction false} WalkStamps(s: CheckSet, i: nat, front: Option<nat>, hit: bool, doneName: nat,
                                        sc0: map<nat, nat>, ss0: map<nat, nat>, sc: map<nat, nat>, ss: map<nat, nat>)
      requires Ok() && EntriesIn(d, s) && i < |s| && s[i].Elem?
      requires Started(s, i, sc0, ss0, doneName) && Grown(s, i, front, doneName, sc0, ss0, sc, ss)
      requires WalkEnd(s, i, front, hit)
      ensures Stamps(s, i + 1, sc, ss, doneName)
    {
      forall n: nat
        ensures Stamped(sc, doneName, n) <==> !isXML && Visited(s, i + 1, n)
        ensures Stamped(sc, doneName, n) ==> n in ss && Records(s, i + 1, ss[n], n)
      {
        WalkStampsAt(s, i, front, hit, doneName, sc0, ss0, sc, ss, n);
      }
    }

    /** Moving the cursor past `n` passes `n` and nothing else. */
    lemma PassOne(e: nat, n: nat, x: nat)
      requires Ok() && Above(d, dir, n, e)
      ensures Passed(e, Link(d, dir, n), x) <==> Passed(e, Some(n), x) || x == n
    {
      if x < n && Above(d, dir, x, e) {
        SmallerIsAbove(e, x, n);
      }
    }

    /** One unstamped node is stamped, if it is an element, and passed. */
    lemma {:induction false} GrowStep(s: CheckSet, i: nat, n: nat, doneName: nat,
                                      sc0: map<nat, nat>, ss0: map<nat, nat>, sc: map<nat, nat>, ss: map<nat, nat>,
                                      sc': map<nat, nat>, ss': map<nat, nat>)
      requires Ok() && EntriesIn(d, s) && i < |s| && s[i].Elem? && Above(d, dir, n, s[i].n)
      requires Grown(s, i, Some(n), doneName, sc0, ss0, sc, ss) && !Stamped(sc, doneName, n)
      requires if IsElement(d, n) && !isXML then sc' == sc[n := doneName] && ss' == ss[n := i]
               else sc' == sc && ss' == ss
      ensures Grown(s, i, Link(d, dir, n), doneName, sc0, ss0, sc', ss') && !Stamped(sc0, doneName, n)
    {
      assert GrownAt(s, i, Some(n), doneName, sc0, ss0, sc, ss, n);
      forall x: nat ensures GrownAt(s, i, Link(d, dir, n), doneName, sc0, ss0, sc', ss', x) {
        assert GrownAt(s, i, Some(n), doneName, sc0, ss0, sc, ss, x);
        PassOne(s[i].n, n, x);
      }
    }

    lemma {:induction false} GrownStart(s: CheckSet, i: nat, doneName: nat, sc: map<nat, nat>, ss: map<nat, nat>)
      requires Ok() && EntriesIn(d, s) && i < |s| && s[i].Elem? && Started(s, i, sc, ss, doneName)
      ensures Grown(s, i, Link(d, dir, s[i].n), doneName, sc, ss, sc, ss)
    {
      var e := s[i].n;
      forall n: nat ensures GrownAt(s, i, Link(d, dir, e), doneName, sc, ss, sc, ss, n) {
        if Above(d, dir, n, e) && n != Link(d, dir, e).value {
          assert Above(d, dir, n, Link(d, dir, e).value);
        }
      }
    }

    /** An element that the walk of entry `i` is the first to come past. */
    ghost predicate NewlySeen(s: CheckSet, i: nat, n: nat)
      requires Ok() && EntriesIn(d, s) && i < |s|
    {
      IsElement(d, n) && Visits(s[i], n) && !Visited(s, i, n)
    }

    /** A stamp that the walk meets was made before it. */
    lemma {:induction false} MetStamp(s: CheckSet, i: nat, n: nat, doneName: nat,
                                      sc0: map<nat, nat>, ss0: map<nat, nat>, sc: map<nat, nat>, ss: map<nat, nat>)
      requires Ok() && EntriesIn(d, s) && i < |s| && s[i].Elem? && Above(d, dir, n, s[i].n)
      requires Started(s, i, sc0, ss0, doneName)
      requires Grown(s, i, Some(n), doneName, sc0, ss0, sc, ss) && Stamped(sc, doneName, n)
      ensures n in ss && Records(s, i, ss[n], n) && Visited(s, i, n)
      ensures forall x: nat :: Above(d, dir, x, s[i].n) && x > n ==> !Visited(s, i, x) || isXML
    {
      assert GrownAt(s, i, Some(n), doneName, sc0, ss0, sc, ss, n);
      forall x: nat | Above(d, dir, x, s[i].n) && x > n ensures !Visited(s, i, x) || isXML {
        assert GrownAt(s, i, Some(n), doneName, sc0, ss0, sc, ss, x);
      }
    }

    lemma {:induction false} NewStamp(s: CheckSet, i: nat, n: nat, doneName: nat,
                                      sc0: map<nat, nat>, ss0: map<nat, nat>, sc: map<nat, nat>, ss: map<nat, nat>)
      requires Ok() && EntriesIn(d, s) && i < |s| && s[i].Elem? && Started(s, i, sc0, ss0, doneName)
      requires Grown(s, i, Some(n), doneName, sc0, ss0, sc, ss) && !Stamped(sc, doneName, n)
      requires !isXML && IsElement(d, n) && Above(d, dir, n, s[i].n)
      requires FirstHit(d, dir, test, Some(n)) == HitAbove(d, dir, test, s[i].n)
      ensures NewlySeen(s, i, n)
    {
      assert GrownAt(s, i, Some(n), doneName, sc0, ss0, sc, ss, n);
    }

    // -------------------------------------------------------------------
    // Where every answer comes from

    /** The walk of entry `i` stops at the stamp of `c`, the first one that it meets on the way to its match. */
    ghost predicate Stops(s: CheckSet, i: nat, c: nat)
      requires Ok() && EntriesIn(d, s) && i < |s|
    {
      && !isXML && s[i].Elem? && Visited(s, i, c)
      && Above(d, dir, c, s[i].n) && FirstHit(d, dir, test, Some(c)) == HitAbove(d, dir, test, s[i].n)
      && forall n: nat :: Above(d, dir, n, s[i].n) && n > c ==> !Visited(s, i, n)
    }

    /** `x` is the answer recorded at that stamp, or the naive one if there is none. */
    ghost predicate ExplainedBy(s: CheckSet, out: CheckSet, i: nat, x: Entry)
      requires Ok() && EntriesIn(d, s) && i < |s| == |out|
    {
      if exists c :: Stops(s, i, c) then exists c, k: nat :: Stops(s, i, c) && Records(s, i, k, c) && x == out[k]
      else x == Naive(s[i])
    }

    ghost predicate Explained(s: CheckSet, out: CheckSet, n: nat)
      requires Ok() && EntriesIn(d, s) && n <= |s| == |out|
    {
      forall i {:trigger ExplainedBy(s, out, i, out[i])} :: 0 <= i < n ==> ExplainedBy(s, out, i, out[i])
    }

    // -------------------------------------------------------------------
    // The three ends of a walk

    /** What the walk of entry `i` leaves: the stamps, and the naive answer unless it is stale. */
    ghost predicate Finished(s: CheckSet, i: nat, out: CheckSet, found: Entry, doneName: nat,
                             sc: map<nat, nat>, ss: map<nat, nat>)
      requires Ok() && EntriesIn(d, s) && i < |s| == |out|
    {
      && Stamps(s, i + 1, sc, ss, doneName)
      && ExplainedBy(s, out, i, found)
      && (AllNaive(s, out, i) ==>
            if SibDir() then found == Naive(s[i]) <==> !Stale(s, i) else found == Naive(s[i]))
    }

    lemma {:induction false} StopsThere(s: CheckSet, i: nat, n: nat, doneName: nat,
                                        sc0: map<nat, nat>, ss0: map<nat, nat>, sc: map<nat, nat>, ss: map<nat, nat>)
      requires Ok() && EntriesIn(d, s) && i < |s| && s[i].Elem? && Started(s, i, sc0, ss0, doneName)
      requires Above(d, dir, n, s[i].n) && FirstHit(d, dir, test, Some(n)) == HitAbove(d, dir, test, s[i].n)
      requires Grown(s, i, Some(n), doneName, sc0, ss0, sc, ss) && Stamped(sc, doneName, n)
      ensures Stops(s, i, n)
    {
      MetStamp(s, i, n, doneName, sc0, ss0, sc, ss);
      assert GrownAt(s, i, Some(n), doneName, sc0, ss0, sc, ss, n);
    }

    /** Of what a walk has passed on the way to its match, nothing was seen before. */
    lemma {:induction false} PassedUnseen(s: CheckSet, i: nat, front: Option<nat>, doneName: nat, c: nat,
                                          sc0: map<nat, nat>, ss0: map<nat, nat>, sc: map<nat, nat>, ss: map<nat, nat>)
      requires Ok() && EntriesIn(d, s) && i < |s| && s[i].Elem? && Started(s, i, sc0, ss0, doneName)
      requires Grown(s, i, front, doneName, sc0, ss0, sc, ss)
      requires var m := HitAbove(d, dir, test, s[i].n);
               if m.Some? then front == Link(d, dir, m.value) else front.None?
      requires Above(d, dir, c, s[i].n) && FirstHit(d, dir, test, Some(c)) == HitAbove(d, dir, test, s[i].n)
      ensures isXML || !Visited(s, i, c)
    {
      Segment(s[i].n, c);
      assert GrownAt(s, i, front, doneName, sc0, ss0, sc, ss, c);
    }

    /** A walk that was not stopped met no stamp. */
    lemma {:induction false} StopsNowhere(s: CheckSet, i: nat, front: Option<nat>, doneName: nat,
                                          sc0: map<nat, nat>, ss0: map<nat, nat>, sc: map<nat, nat>, ss: map<nat, nat>)
      requires Ok() && EntriesIn(d, s) && i < |s| && s[i].Elem? && Started(s, i, sc0, ss0, doneName)
      requires Grown(s, i, front, doneName, sc0, ss0, sc, ss)
      requires var m := HitAbove(d, dir, test, s[i].n);
               if m.Some? then front == Link(d, dir, m.value) else front.None?
      ensures forall c :: !Stops(s, i, c)
    {
      forall c: nat | Above(d, dir, c, s[i].n) && FirstHit(d, dir, test, Some(c)) == HitAbove(d, dir, test, s[i].n)
        ensures !Stops(s, i, c)
      {
        PassedUnseen(s, i, front, doneName, c, sc0, ss0, sc, ss);
      }
    }

    lemma {:induction false} EndAtStamp(s: CheckSet, i: nat, out: CheckSet, n: nat, doneName: nat,
                                        sc0: map<nat, nat>, ss0: map<nat, nat>, sc: map<nat, nat>, ss: map<nat, nat>)
      requires Ok() && EntriesIn(d, s) && i < |s| == |out| && s[i].Elem? && Started(s, i, sc0, ss0, doneName)
      requires Above(d, dir, n, s[i].n) && FirstHit(d, dir, test, Some(n)) == HitAbove(d, dir, test, s[i].n)
      requires Grown(s, i, Some(n), doneName, sc0, ss0, sc, ss) && Stamped(sc, doneName, n)
      ensures n in ss && ss[n] < |out| && Finished(s, i, out, out[ss[n]], doneName, sc, ss)
    {
      MetStamp(s, i, n, doneName, sc0, ss0, sc, ss);
      StopsThere(s, i, n, doneName, sc0, ss0, sc, ss);
      RecordsStandsFor(s, i, ss[n], n);
      WalkStamps(s, i, Some(n), false, doneName, sc0, ss0, sc, ss);
      if AllNaive(s, out, i) {
        StampedAnswer(s, out, i, n, ss[n]);
      }
    }

    lemma {:induction false} EndAtHit(s: CheckSet, i: nat, out: CheckSet, n: nat, doneName: nat,
                                      sc0: map<nat, nat>, ss0: map<nat, nat>, sc: map<nat, nat>, ss: map<nat, nat>)
      requires Ok() && EntriesIn(d, s) && i < |s| == |out| && s[i].Elem? && Started(s, i, sc0, ss0, doneName)
      requires Above(d, dir, n, s[i].n) && HitAbove(d, dir, test, s[i].n) == Some(n)
      requires Grown(s, i, Link(d, dir, n), doneName, sc0, ss0, sc, ss) && !Stamped(sc0, doneName, n)
      ensures Finished(s, i, out, Answer(Some(n)), doneName, sc, ss)
    {
      UnstampedIsNotStale(s, i, true);
      StopsNowhere(s, i, Link(d, dir, n), doneName, sc0, ss0, sc, ss);
      WalkStamps(s, i, Link(d, dir, n), true, doneName, sc0, ss0, sc, ss);
    }

    lemma {:induction false} EndAtTop(s: CheckSet, i: nat, out: CheckSet, doneName: nat,
                                      sc0: map<nat, nat>, ss0: map<nat, nat>, sc: map<nat, nat>, ss: map<nat, nat>)
      requires Ok() && EntriesIn(d, s) && i < |s| == |out| && s[i].Elem? && Started(s, i, sc0, ss0, doneName)
      requires HitAbove(d, dir, test, s[i].n) == None
      requires Grown(s, i, None, doneName, sc0, ss0, sc, ss)
      ensures Finished(s, i, out, False, doneName, sc, ss)
    {
      UnstampedIsNotStale(s, i, false);
      StopsNowhere(s, i, None, doneName, sc0, ss0, sc, ss);
      WalkStamps(s, i, None, false, doneName, sc0, ss0, sc, ss);
    }

    /** The start of a walk, from the stamps of the walks before it. */
    lemma {:induction false} Begin(s: CheckSet, i: nat, sc: map<nat, nat>, ss: map<nat, nat>, doneName: nat,
                                   sc0: map<nat, nat>, ss0: map<nat, nat>)
      requires Ok() && EntriesIn(d, s) && i < |s| && s[i].Elem? && Stamps(s, i, sc, ss, doneName)
      requires var e := s[i].n;
               if SibDir() && IsElement(d, e) then sc0 == sc[e := doneName] && ss0 == ss[e := i]
               else sc0 == sc && ss0 == ss
      ensures Started(s, i, sc0, ss0, doneName)
      ensures Grown(s, i, Link(d, dir, s[i].n), doneName, sc0, ss0, sc0, ss0)
    {
      StartStamp(s, i, sc, ss, doneName);
      GrownStart(s, i, doneName, sc0, ss0);
    }
  }

  /** In the parent direction only the topmost node of a tree is not an element. */
  predicate RootsOnly(d: Document) {
    forall n :: 0 <= n < |d| ==>
      var p := d[n].parentNode;
      p.Some? && p.value < |d| && !IsElement(d, p.value) ==> d[p.value].parentNode.None?
  }

  lemma {:induction false} NonElementIsTop(d: Document, n: nat, e: nat)
    requires WellFormed(d) && RootsOnly(d) && Above(d, ParentNode, n, e) && !IsElement(d, n)
    ensures d[n].parentNode.None?
    decreases e
  {
    var p := d[e].parentNode.value;
    if p != n {
      NonElementIsTop(d, n, p);
    }
  }

  /** The walks whose length is bounded. */
  predicate Bounded(w: Walk) {
    w.dir == ParentNode && !w.isXML && RootsOnly(w.d)
  }

  lemma BoundedExactlyWhen(w: Walk)
    ensures Bounded(w) <==>
            && w.dir == ParentNode && !w.isXML
            && forall n :: 0 <= n < |w.d| ==>
                 var p := w.d[n].parentNode;
                 p.Some? && p.value < |w.d| && w.d[p.value].nodeType != 1 ==> w.d[p.value].parentNode.None?
  {
  }

  /** The account of a walk: who was seen first in it, and how many steps that took. */
  ghost predicate Account(w: Walk, s: CheckSet, i: nat, front: Option<nat>, newly: set<nat>, steps: nat)
    requires w.Ok() && EntriesIn(w.d, s) && i < |s|
  {
    && (forall n :: n in newly ==> w.NewlySeen(s, i, n) && (front.Some? ==> n > front.value))
    && (Bounded(w) ==> steps <= |newly| + if front.None? then 1 else 0)
  }

  /** The state of the walk of entry `i` with its cursor at `front`. */
  ghost predicate WalkInv(w: Walk, s: CheckSet, i: nat, front: Option<nat>, doneName: nat,
                          sc0: map<nat, nat>, ss0: map<nat, nat>, sc: map<nat, nat>, ss: map<nat, nat>)
    requires w.Ok() && EntriesIn(w.d, s) && i < |s| && s[i].Elem?
  {
    && w.Started(s, i, sc0, ss0, doneName)
    && (front.Some? ==> front.value < |w.d| && Above(w.d, w.dir, front.value, s[i].n))
    && FirstHit(w.d, w.dir, w.test, front) == HitAbove(w.d, w.dir, w.test, s[i].n)
    && w.Grown(s, i, front, doneName, sc0, ss0, sc, ss)
  }

  /** What one step of the walk does to the stamps. */
  predicate StampedOne(w: Walk, i: nat, n: nat, doneName: nat, sc: map<nat, nat>, ss: map<nat, nat>,
                       sc': map<nat, nat>, ss': map<nat, nat>)
  {
    if IsElement(w.d, n) && !w.isXML then sc' == sc[n := doneName] && ss' == ss[n := i] else sc' == sc && ss' == ss
  }

  lemma {:induction false} AccountStep(w: Walk, s: CheckSet, i: nat, n: nat, doneName: nat, newly: set<nat>, steps: nat,
                                       sc0: map<nat, nat>, ss0: map<nat, nat>, sc: map<nat, nat>, ss: map<nat, nat>)
    requires w.Ok() && EntriesIn(w.d, s) && i < |s| && s[i].Elem?
    requires WalkInv(w, s, i, Some(n), doneName, sc0, ss0, sc, ss) && !Stamped(sc, doneName, n)
    requires Account(w, s, i, Some(n), newly, steps)
    ensures Account(w, s, i, Link(w.d, w.dir, n),
                    if IsElement(w.d, n) && !w.isXML then newly + {n} else newly, steps + 1)
  {
    if IsElement(w.d, n) && !w.isXML {
      w.NewStamp(s, i, n, doneName, sc0, ss0, sc, ss);
    } else if Bounded(w) {
      NonElementIsTop(w.d, n, s[i].n);
    }
  }

  lemma {:induction false} AccountEnds(w: Walk, s: CheckSet, i: nat, front: Option<nat>, newly: set<nat>, steps: nat)
    requires w.Ok() && EntriesIn(w.d, s) && i < |s| && Account(w, s, i, front, newly, steps)
    ensures Account(w, s, i, None, newly, steps)
    ensures front.Some? ==> Account(w, s, i, None, newly, steps + 1)
  {
  }

  lemma {:induction false} WalkStep(w: Walk, s: CheckSet, i: nat, n: nat, doneName: nat,
                                    sc0: map<nat, nat>, ss0: map<nat, nat>, sc: map<nat, nat>, ss: map<nat, nat>,
                                    sc': map<nat, nat>, ss': map<nat, nat>)
    requires w.Ok() && EntriesIn(w.d, s) && i < |s| && s[i].Elem?
    requires WalkInv(w, s, i, Some(n), doneName, sc0, ss0, sc, ss) && !Stamped(sc, doneName, n) && !w.test(n)
    requires StampedOne(w, i, n, doneName, sc, ss, sc', ss')
    ensures WalkInv(w, s, i, Link(w.d, w.dir, n), doneName, sc0, ss0, sc', ss')
  {
    w.GrowStep(s, i, n, doneName, sc0, ss0, sc, ss, sc', ss');
    if Link(w.d, w.dir, n).Some? {
      AboveTransitive(w.d, w.dir, Link(w.d, w.dir, n).value, n, s[i].n);
    }
  }

  lemma {:induction false} WalkHit(w: Walk, s: CheckSet, i: nat, out: CheckSet, n: nat, doneName: nat,
                                   sc0: map<nat, nat>, ss0: map<nat, nat>, sc: map<nat, nat>, ss: map<nat, nat>,
                                   sc': map<nat, nat>, ss': map<nat, nat>)
    requires w.Ok() && EntriesIn(w.d, s) && i < |s| == |out| && s[i].Elem?
    requires WalkInv(w, s, i, Some(n), doneName, sc0, ss0, sc, ss) && !Stamped(sc, doneName, n) && w.test(n)
    requires StampedOne(w, i, n, doneName, sc, ss, sc', ss')
    ensures w.Finished(s, i, out, w.Answer(Some(n)), doneName, sc', ss')
  {
    w.GrowStep(s, i, n, doneName, sc0, ss0, sc, ss, sc', ss');
    w.EndAtHit(s, i, out, n, doneName, sc0, ss0, sc', ss');
  }

  /** The inner loop: from above entry `i` to a stamp, a hit or the top. */
  method Climb(w: Walk, ex: Expandos, doneName: nat, ghost s: CheckSet, i: nat, first: Option<nat>,
               checkSet: array<Entry>)
    returns (found: Entry, ghost steps: nat, ghost newly: set<nat>)
    requires w.Ok() && EntriesIn(w.d, s) && i < |s| == checkSet.Length && s[i].Elem?
    requires EntriesIn(w.d, checkSet[..]) && first == Link(w.d, w.dir, s[i].n)
    requires WalkInv(w, s, i, first, doneName, ex.sizcache, ex.sizset, ex.sizcache, ex.sizset)
    modifies ex`sizcache, ex`sizset
    ensures w.Finished(s, i, checkSet[..], found, doneName, ex.sizcache, ex.sizset)
    ensures Account(w, s, i, None, newly, steps)
    ensures OnlyName(old(ex.sizcache), ex.sizcache, doneName)
    ensures found.Elem? ==> found.n < |w.d|
  {
    ghost var sc0, ss0 := ex.sizcache, ex.sizset;
    OnlyNameSelf(sc0, doneName);
    var elem: Option<nat> := first;
    found, steps, newly := False, 0, {};
    while elem.Some?
      invariant WalkInv(w, s, i, elem, doneName, sc0, ss0, ex.sizcache, ex.sizset)
      invariant Account(w, s, i, elem, newly, steps)
      invariant found == False && OnlyName(sc0, ex.sizcache, doneName)
      decreases if elem.Some? then elem.value + 1 else 0
    {
      var n: nat := elem.value;
      ghost var sc, ss := ex.sizcache, ex.sizset;
      if Stamped(ex.sizcache, doneName, n) {
        w.EndAtStamp(s, i, checkSet[..], n, doneName, sc0, ss0, sc, ss);
        AccountEnds(w, s, i, elem, newly, steps);
        found := checkSet[ex.sizset[n]];
        steps := steps + 1;
        return;
      }
      AccountStep(w, s, i, n, doneName, newly, steps, sc0, ss0, sc, ss);
      steps := steps + 1;
      if IsElement(w.d, n) && !w.isXML {
        ex.sizcache := ex.sizcache[n := doneName];
        ex.sizset := ex.sizset[n := i];
        newly := newly + {n};
        OnlyNameStep(sc0, sc, ex.sizcache, doneName, n);
      }
      if w.test(n) {
        found := w.Answer(Some(n));
        WalkHit(w, s, i, checkSet[..], n, doneName, sc0, ss0, sc, ss, ex.sizcache, ex.sizset);
        AccountEnds(w, s, i, Link(w.d, w.dir, n), newly, steps);
        return;
      }
      WalkStep(w, s, i, n, doneName, sc0, ss0, sc, ss, ex.sizcache, ex.sizset);
      elem := Link(w.d, w.dir, n);
    }
    w.EndAtTop(s, i, checkSet[..], doneName, sc0, ss0, ex.sizcache, ex.sizset);
  }

  /**
   The walk of one entry.  It gives the naive answer, except in the sibling direction
   where the answer is stale; it takes one step more than the elements it stamps.
   */
  method WalkUp(w: Walk, ex: Expandos, doneName: nat, ghost s: CheckSet, i: nat, e: nat, checkSet: array<Entry>)
    returns (found: Entry, ghost steps: nat, ghost newly: set<nat>)
    requires w.Ok() && EntriesIn(w.d, s) && i < |s| == checkSet.Length && s[i] == Elem(e)
    requires EntriesIn(w.d, checkSet[..])
    requires w.Stamps(s, i, ex.sizcache, ex.sizset, doneName)
    modifies ex`sizcache, ex`sizset
    ensures w.Finished(s, i, checkSet[..], found, doneName, ex.sizcache, ex.sizset)
    ensures Account(w, s, i, None, newly, steps)
    ensures OnlyName(old(ex.sizcache), ex.sizcache, doneName)
    ensures found.Elem? ==> found.n < |w.d|
  {
    OnlyNameSelf(ex.sizcache, doneName);
    if w.SibDir() && IsElement(w.d, e) {
      ex.sizcache := ex.sizcache[e := doneName];
      ex.sizset := ex.sizset[e := i];
      OnlyNameStep(old(ex.sizcache), old(ex.sizcache), ex.sizcache, doneName, e);
    }
    ghost var sc0 := ex.sizcache;
    w.Begin(s, i, old(ex.sizcache), old(ex.sizset), doneName, sc0, ex.sizset);
    found, steps, newly := Climb(w, ex, doneName, s, i, Link(w.d, w.dir, e), checkSet);
    OnlyNameTransitive(old(ex.sizcache), sc0, ex.sizcache, doneName);
  }

  /** Entries that are not nodes add nothing. */
  lemma {:induction false} SkipEntry(w: Walk, s: CheckSet, i: nat, sc: map<nat, nat>, ss: map<nat, nat>, doneName: nat)
    requires w.Ok() && EntriesIn(w.d, s) && i < |s| && !s[i].Elem? && w.Stamps(s, i, sc, ss, doneName)
    ensures w.Stamps(s, i + 1, sc, ss, doneName) && !w.Stale(s, i)
  {
    forall n ensures w.Visited(s, i + 1, n) <==> w.Visited(s, i, n) {
    }
  }

  /** The elements above the entries of a check set. */
  ghost function Ancestors(w: Walk, s: CheckSet): set<nat>
    requires w.Ok()
  {
    set n: nat | n < |w.d| && IsElement(w.d, n) && IsAncestor(w, s, n)
  }

  ghost predicate IsAncestor(w: Walk, s: CheckSet, n: nat)
    requires w.Ok()
  {
    exists k :: 0 <= k < |s| && s[k].Elem? && Above(w.d, w.dir, n, s[k].n)
  }

  lemma {:induction false} SubsetIsSmaller(a: set<nat>, b: set<nat>)
    requires a <= b
    ensures |a| <= |b|
  {
    if a != {} {
      var x :| x in a;
      SubsetIsSmaller(a - {x}, b - {x});
    }
  }

  /** The elements seen so far, all of them above some entry. */
  ghost predicate SeenSoFar(w: Walk, s: CheckSet, i: nat, seen: set<nat>)
    requires w.Ok() && EntriesIn(w.d, s) && i <= |s|
  {
    forall n :: n in seen ==> w.Visited(s, i, n)
  }

  lemma {:induction false} SeeMore(w: Walk, s: CheckSet, i: nat, seen: set<nat>, newly: set<nat>)
    requires w.Ok() && EntriesIn(w.d, s) && i < |s| && SeenSoFar(w, s, i, seen)
    requires forall n :: n in newly ==> w.NewlySeen(s, i, n)
    ensures SeenSoFar(w, s, i + 1, seen + newly) && |seen + newly| == |seen| + |newly|
  {
    assert seen !! newly;
    forall n | n in seen + newly ensures w.Visited(s, i + 1, n) {
      if n in seen {
        var k :| 0 <= k < i && w.Visits(s[k], n);
      } else {
        assert w.NewlySeen(s, i, n);
      }
    }
  }

  lemma {:induction false} SeenAreAncestors(w: Walk, s: CheckSet, seen: set<nat>)
    requires w.Ok() && EntriesIn(w.d, s) && SeenSoFar(w, s, |s|, seen) && !w.SibDir()
    ensures |seen| <= |Ancestors(w, s)|
  {
    forall n | n in seen ensures n in Ancestors(w, s) {
      assert w.Visited(s, |s|, n);
      var k :| 0 <= k < |s| && w.Visits(s[k], n);
      assert IsAncestor(w, s, n);
    }
    SubsetIsSmaller(seen, Ancestors(w, s));
  }

  /** One more entry written. */
  lemma {:induction false} Extend(w: Walk, s: CheckSet, i: nat, out: CheckSet, out': CheckSet)
    requires w.Ok() && EntriesIn(w.d, s) && i < |s| == |out| == |out'|
    requires forall k :: 0 <= k < i ==> out'[k] == out[k]
    ensures w.AllNaive(s, out', i + 1) <==> w.AllNaive(s, out, i) && out'[i] == w.Naive(s[i])
    ensures w.NoneStale(s, i + 1) <==> w.NoneStale(s, i) && !w.Stale(s, i)
  {
  }

  lemma {:induction false} ExplainMore(w: Walk, s: CheckSet, i: nat, out: CheckSet, found: Entry)
    requires w.Ok() && EntriesIn(w.d, s) && i < |s| == |out|
    requires w.Explained(s, out, i) && w.ExplainedBy(s, out, i, found)
    ensures w.Explained(s, out[i := found], i + 1)
  {
    var out' := out[i := found];
    forall j | 0 <= j < i + 1 ensures w.ExplainedBy(s, out', j, out'[j]) {
      assert w.ExplainedBy(s, out, j, out'[j]);
      if exists c :: w.Stops(s, j, c) {
        var c, k: nat :| w.Stops(s, j, c) && w.Records(s, j, k, c) && out'[j] == out[k];
        assert out'[k] == out[k];
      }
    }
  }

  /** The state of a call after `i` entries. */
  ghost predicate ScanInv(w: Walk, s: CheckSet, i: nat, out: CheckSet,
                          sc: map<nat, nat>, ss: map<nat, nat>, doneName: nat)
    requires w.Ok() && EntriesIn(w.d, s) && i <= |s| == |out|
  {
    && EntriesIn(w.d, out)
    && (forall k :: i <= k < |s| ==> out[k] == s[k])
    && w.Stamps(s, i, sc, ss, doneName) && w.Explained(s, out, i)
    && (if w.SibDir() then w.AllNaive(s, out, i) <==> w.NoneStale(s, i) else w.AllNaive(s, out, i))
  }

  lemma {:induction false} WriteFound(w: Walk, s: CheckSet, i: nat, out: CheckSet, out': CheckSet, found: Entry,
                                      sc: map<nat, nat>, ss: map<nat, nat>, sc': map<nat, nat>, ss': map<nat, nat>,
                                      doneName: nat)
    requires w.Ok() && EntriesIn(w.d, s) && i < |s| == |out| && ScanInv(w, s, i, out, sc, ss, doneName)
    requires out' == out[i := found] && (found.Elem? ==> found.n < |w.d|)
    requires w.Finished(s, i, out, found, doneName, sc', ss')
    ensures ScanInv(w, s, i + 1, out', sc', ss', doneName)
  {
    Extend(w, s, i, out, out');
    ExplainMore(w, s, i, out, found);
  }

  lemma {:induction false} WriteSkipped(w: Walk, s: CheckSet, i: nat, out: CheckSet, out': CheckSet,
                                        sc: map<nat, nat>, ss: map<nat, nat>, doneName: nat)
    requires w.Ok() && EntriesIn(w.d, s) && i < |s| == |out| && ScanInv(w, s, i, out, sc, ss, doneName)
    requires !s[i].Elem? && out' == out[i := w.Naive(s[i])]
    ensures ScanInv(w, s, i + 1, out', sc, ss, doneName)
  {
    SkipEntry(w, s, i, sc, ss, doneName);
    Extend(w, s, i, out, out');
    ExplainMore(w, s, i, out, w.Naive(s[i]));
  }

  /** The body of the loop over the check set. */
  method ScanEntry(w: Walk, ex: Expandos, doneName: nat, checkSet: array<Entry>, i: nat, ghost s: CheckSet)
    returns (ghost steps: nat, ghost newly: set<nat>)
    requires w.Ok() && EntriesIn(w.d, s) && i < |s| == checkSet.Length
    requires ScanInv(w, s, i, checkSet[..], ex.sizcache, ex.sizset, doneName)
    modifies checkSet, ex`sizcache, ex`sizset
    ensures ScanInv(w, s, i + 1, checkSet[..], ex.sizcache, ex.sizset, doneName)
    ensures OnlyName(old(ex.sizcache), ex.sizcache, doneName)
    ensures forall n :: n in newly ==> w.NewlySeen(s, i, n)
    ensures Bounded(w) ==> steps <= |newly| + 1
  {
    ghost var out := checkSet[..];
    OnlyNameSelf(ex.sizcache, doneName);
    steps, newly := 0, {};
    assert Account(w, s, i, None, newly, steps);
    match checkSet[i]
    case Elem(e) =>
      var found: Entry;
      found, steps, newly := WalkUp(w, ex, doneName, s, i, e, checkSet);
      checkSet[i] := found;
      WriteFound(w, s, i, out, checkSet[..], found, old(ex.sizcache), old(ex.sizset), ex.sizcache, ex.sizset, doneName);
    case True =>
      checkSet[i] := False;
      WriteSkipped(w, s, i, out, checkSet[..], ex.sizcache, ex.sizset, doneName);
    case _ =>
      assert out == out[i := w.Naive(s[i])];
      WriteSkipped(w, s, i, out, out, ex.sizcache, ex.sizset, doneName);
  }

  /**
   One call of dirNodeCheck or dirCheck.  In the parent direction, and in any direction
   of an XML document, every entry becomes what an unmemoised walk finds.  In the sibling
   direction of an HTML document that holds exactly when no entry is stale.  In the parent
   direction of an HTML tree the steps of all the walks together are at most the elements
   above the entries plus one for each entry.
   */
  method Scan(w: Walk, ex: Expandos, doneName: nat, checkSet: array<Entry>) returns (ghost steps: nat)
    requires w.Ok() && EntriesIn(w.d, checkSet[..]) && FreshName(ex.sizcache, doneName)
    modifies checkSet, ex`sizcache, ex`sizset
    ensures !w.SibDir() ==> w.AllNaive(old(checkSet[..]), checkSet[..], checkSet.Length)
    ensures w.SibDir() ==>
              (w.AllNaive(old(checkSet[..]), checkSet[..], checkSet.Length)
               <==> w.NoneStale(old(checkSet[..]), checkSet.Length))
    ensures w.Explained(old(checkSet[..]), checkSet[..], checkSet.Length)
    ensures Bounded(w) ==> steps <= |Ancestors(w, old(checkSet[..]))| + checkSet.Length
    ensures EntriesIn(w.d, checkSet[..]) && OnlyName(old(ex.sizcache), ex.sizcache, doneName)
  {
    ghost var s := checkSet[..];
    ghost var seen: set<nat> := {};
    steps := 0;
    OnlyNameSelf(ex.sizcache, doneName);
    var i := 0;
    while i < checkSet.Length
      invariant 0 <= i <= checkSet.Length
      invariant ScanInv(w, s, i, checkSet[..], ex.sizcache, ex.sizset, doneName)
      invariant OnlyName(old(ex.sizcache), ex.sizcache, doneName)
      invariant SeenSoFar(w, s, i, seen)
      invariant Bounded(w) ==> steps <= |seen| + i
    {
      ghost var sc := ex.sizcache;
      ghost var more: nat, newly: set<nat>;
      more, newly := ScanEntry(w, ex, doneName, checkSet, i, s);
      OnlyNameTransitive(old(ex.sizcache), sc, ex.sizcache, doneName);
      SeeMore(w, s, i, seen, newly);
      steps, seen := steps + more, seen + newly;
      i := i + 1;
    }
    if Bounded(w) {
      SeenAreAncestors(w, s, seen);
    }
  }

  // ---------------------------------------------------------------------
  // What the answers are worth, entry by entry

  lemma {:induction false} ExplanationIsUnique(w: Walk, s: CheckSet, i: nat, c: nat, k: nat, c': nat, k': nat)
    requires w.Ok() && EntriesIn(w.d, s) && i < |s|
    requires w.Stops(s, i, c) && w.Records(s, i, k, c) && w.Stops(s, i, c') && w.Records(s, i, k', c')
    ensures c == c' && k == k'
  {
  }

  lemma {:induction false} SameExplanation(w: Walk, s: CheckSet, out: CheckSet, out': CheckSet, i: nat)
    requires w.Ok() && EntriesIn(w.d, s) && i < |s| == |out| == |out'|
    requires w.ExplainedBy(s, out, i, out[i]) && w.ExplainedBy(s, out', i, out'[i])
    requires forall j :: 0 <= j < i ==> out[j] == out'[j]
    ensures out[i] == out'[i]
  {
    if exists c :: w.Stops(s, i, c) {
      var c, k: nat :| w.Stops(s, i, c) && w.Records(s, i, k, c) && out[i] == out[k];
      var c', k': nat :| w.Stops(s, i, c') && w.Records(s, i, k', c') && out'[i] == out'[k'];
      ExplanationIsUnique(w, s, i, c, k, c', k');
    }
  }

  /** The explanations leave no choice: two results of a call on the same entries are the same. */
  lemma {:induction false} ExplainedIsUnique(w: Walk, s: CheckSet, out: CheckSet, out': CheckSet, n: nat)
    requires w.Ok() && EntriesIn(w.d, s) && n <= |s| == |out| == |out'|
    requires w.Explained(s, out, n) && w.Explained(s, out', n)
    ensures forall j :: 0 <= j < n ==> out[j] == out'[j]
  {
    if n > 0 {
      ExplainedIsUnique(w, s, out, out', n - 1);
      assert w.ExplainedBy(s, out, n - 1, out[n - 1]) && w.ExplainedBy(s, out', n - 1, out'[n - 1]);
      SameExplanation(w, s, out, out', n - 1);
    }
  }

  /** An answer is a hit above its entry, though maybe one beyond the nearest. */
  predicate IsHitOf(w: Walk, e: Entry, x: Entry)
    requires w.Ok() && (e.Elem? ==> e.n < |w.d|)
  {
    x.Elem? || x.True? ==>
      && e.Elem?
      && var m := HitAbove(w.d, w.dir, w.test, e.n);
         && m.Some?
         && if w.asTrue then x == True
            else x.Elem? && w.test(x.n) && (x.n == m.value || Above(w.d, w.dir, x.n, m.value))
  }

  lemma NaiveIsHit(w: Walk, e: Entry)
    requires w.Ok() && (e.Elem? ==> e.n < |w.d|)
    ensures IsHitOf(w, e, w.Naive(e))
  {
  }

  lemma HitOfRecorded(w: Walk, s: CheckSet, i: nat, c: nat, k: nat, x: Entry)
    requires w.Ok() && EntriesIn(w.d, s) && i < |s| && w.Stops(s, i, c) && w.Records(s, i, k, c)
    requires IsHitOf(w, s[k], x)
    ensures IsHitOf(w, s[i], x)
  {
    w.RecordsStandsFor(s, i, k, c);
    if x.Elem? && s[k].n == c && w.test(c) && !w.asTrue {
      var m := HitAbove(w.d, w.dir, w.test, c).value;
      HitAboveIsNearest(w.d, w.dir, w.test, c);
      if x.n != m {
        AboveTransitive(w.d, w.dir, x.n, m, c);
      }
    }
  }

  /** The memo invents nothing, in either direction: every answer that is a node or `true` is a hit. */
  lemma {:induction false} AnswersAreHits(w: Walk, s: CheckSet, out: CheckSet, i: nat)
    requires w.Ok() && EntriesIn(w.d, s) && i < |s| == |out| && w.Explained(s, out, i + 1)
    ensures IsHitOf(w, s[i], out[i])
    decreases i
  {
    assert w.ExplainedBy(s, out, i, out[i]);
    if exists c :: w.Stops(s, i, c) {
      var c, k: nat :| w.Stops(s, i, c) && w.Records(s, i, k, c) && out[i] == out[k];
      AnswersAreHits(w, s, out, k);
      HitOfRecorded(w, s, i, c, k, out[k]);
    } else {
      NaiveIsHit(w, s[i]);
    }
  }

  /** The stamp at which entry `i` stops is that of a start element which is itself the match. */
  predicate StopsAtStart(w: Walk, s: CheckSet, c: nat, k: nat)
    requires k < |s|
  {
    w.SibDir() && s[k] == Elem(c) && w.test(c)
  }

  lemma RecordedIsNaive(w: Walk, s: CheckSet, i: nat, c: nat, k: nat)
    requires w.Ok() && EntriesIn(w.d, s) && i < |s| && w.Stops(s, i, c) && w.Records(s, i, k, c)
    ensures !StopsAtStart(w, s, c, k) ==> w.Naive(s[k]) == w.Naive(s[i])
    ensures StopsAtStart(w, s, c, k) ==> w.Naive(s[i]) == w.Answer(Some(c))
  {
    w.RecordsStandsFor(s, i, k, c);
  }

  /**
   The entry is wrong: its walk stops at the stamp of a start element that is itself the
   match, or at a stamp that stands for a wrong entry.
   */
  ghost predicate Wrong(w: Walk, s: CheckSet, i: nat)
    requires w.Ok() && EntriesIn(w.d, s) && i < |s|
    decreases i
  {
    exists c, k: nat ::
      k < i && w.Stops(s, i, c) && w.Records(s, i, k, c) && (StopsAtStart(w, s, c, k) || Wrong(w, s, k))
  }

  /** A match that is recorded as `true` is a single node. */
  ghost predicate Unambiguous(w: Walk) {
    w.asTrue ==> forall x: nat, y: nat :: w.test(x) && w.test(y) ==> x == y
  }

  lemma StartIsWrong(w: Walk, s: CheckSet, out: CheckSet, i: nat, c: nat, k: nat)
    requires w.Ok() && EntriesIn(w.d, s) && i < |s| == |out| && w.Explained(s, out, |s|) && Unambiguous(w)
    requires w.Stops(s, i, c) && w.Records(s, i, k, c) && StopsAtStart(w, s, c, k)
    ensures out[k] != w.Naive(s[i])
  {
    RecordedIsNaive(w, s, i, c, k);
    AnswersAreHits(w, s, out, k);
    HitAboveIsNearest(w.d, w.dir, w.test, c);
  }

  /** Whatever was found, the wrong entries can be told from the check set alone. */
  lemma {:induction false} WrongExactlyWhen(w: Walk, s: CheckSet, out: CheckSet, i: nat)
    requires w.Ok() && EntriesIn(w.d, s) && i < |s| == |out| && w.Explained(s, out, |s|) && Unambiguous(w)
    ensures out[i] != w.Naive(s[i]) <==> Wrong(w, s, i)
    decreases i
  {
    assert w.ExplainedBy(s, out, i, out[i]);
    if exists c :: w.Stops(s, i, c) {
      var c, k: nat :| w.Stops(s, i, c) && w.Records(s, i, k, c) && out[i] == out[k];
      forall c', k': nat | w.Stops(s, i, c') && w.Records(s, i, k', c') ensures c == c' && k == k' {
        ExplanationIsUnique(w, s, i, c, k, c', k');
      }
      RecordedIsNaive(w, s, i, c, k);
      if StopsAtStart(w, s, c, k) {
        StartIsWrong(w, s, out, i, c, k);
      } else {
        WrongExactlyWhen(w, s, out, k);
      }
    }
  }

  // ---------------------------------------------------------------------
  // When the sibling direction is right

  /** If no start element matches itself, nothing is stale. */
  lemma {:induction false} NoMatchingStart(w: Walk, s: CheckSet)
    requires w.Ok() && EntriesIn(w.d, s)
    requires forall j :: 0 <= j < |s| && s[j].Elem? ==> !w.test(s[j].n)
    ensures w.NoneStale(s, |s|)
  {
    forall i | 0 <= i < |s| ensures !w.Stale(s, i) {
      if s[i].Elem? && HitAbove(w.d, w.dir, w.test, s[i].n).Some? {
        var m := HitAbove(w.d, w.dir, w.test, s[i].n).value;
        assert forall j :: 0 <= j < i ==> s[j] != Elem(m);
      }
    }
  }

  /**
   Two neighbouring elements that both match, in document order, as in `p ~ p` on two
   paragraphs in a row: the entry of the second is stale.
   */
  lemma {:induction false} NeighbouringMatchIsStale(w: Walk, s: CheckSet, j: nat, i: nat, m: nat, e: nat)
    requires w.Ok() && EntriesIn(w.d, s) && !w.asTrue
    requires j < i < |s| && s[j] == Elem(m) && s[i] == Elem(e)
    requires IsElement(w.d, m) && Link(w.d, w.dir, e) == Some(m) && w.test(m)
    ensures w.Stale(s, i)
  {
    assert HitAbove(w.d, w.dir, w.test, e) == Some(m);
    assert w.Naive(Elem(m)) != w.Answer(Some(m));
  }

  /** The last of the first `i` entries that started at `m`. */
  lemma {:induction false} LastStart(s: CheckSet, i: nat, m: nat, j: nat) returns (k: nat)
    requires j < i <= |s| && s[j] == Elem(m)
    ensures k < i && s[k] == Elem(m) && forall x :: k < x < i ==> s[x] != Elem(m)
  {
    if s[i - 1] == Elem(m) {
      k := i - 1;
    } else {
      k := LastStart(s, i - 1, m, j);
    }
  }

  /**
   So in an HTML document, in the sibling direction, that entry never gets its neighbour,
   whatever else is in the check set.
   */
  lemma {:induction false} NeighbourIsLost(d: Document, test: nat -> bool, s: CheckSet, out: CheckSet,
                                           j: nat, i: nat, m: nat, e: nat)
    requires WellFormed(d) && EntriesIn(d, s) && |s| == |out|
    requires j < i < |s| && s[j] == Elem(m) && s[i] == Elem(e)
    requires IsElement(d, m) && d[e].previousSibling == Some(m) && test(m)
    requires Walk(d, PreviousSibling, test, false, false).Explained(s, out, |s|)
    ensures out[i] != Elem(m) && Walk(d, PreviousSibling, test, false, false).Naive(Elem(e)) == Elem(m)
  {
    var w := Walk(d, PreviousSibling, test, false, false);
    var k := LastStart(s, i, m, j);
    assert w.Visits(s[j], m);
    assert forall n: nat :: Above(d, PreviousSibling, n, e) ==> n <= m by {
      forall n: nat | Above(d, PreviousSibling, n, e) ensures n <= m {
        assert n == m || Above(d, PreviousSibling, n, m);
      }
    }
    assert w.Stops(s, i, m) && w.StartedBefore(s, i, m) && w.Records(s, i, k, m);
    StartIsWrong(w, s, out, i, m, k);
    assert w.ExplainedBy(s, out, i, out[i]);
    var c', k': nat :| w.Stops(s, i, c') && w.Records(s, i, k', c') && out[i] == out[k'];
    ExplanationIsUnique(w, s, i, m, k, c', k');
  }

  // ---------------------------------------------------------------------
  // The two functions of the source

  /** dirNodeCheck: the test is on the node name */
  method DirNodeCheck(d: Document, ex: Expandos, dir: Dir, cur: string, doneName: nat, checkSet: array<Entry>,
                      isXML: bool)
    returns (ghost steps: nat)
    requires WellFormed(d) && EntriesIn(d, checkSet[..]) && FreshName(ex.sizcache, doneName)
    modifies checkSet, ex`sizcache, ex`sizset
    ensures var w := Walk(d, dir, NameTest(d, cur), false, isXML);
            && (!w.SibDir() ==> w.AllNaive(old(checkSet[..]), checkSet[..], checkSet.Length))
            && (w.SibDir() ==>
                  (w.AllNaive(old(checkSet[..]), checkSet[..], checkSet.Length)
                   <==> w.NoneStale(old(checkSet[..]), checkSet.Length)))
            && w.Explained(old(checkSet[..]), checkSet[..], checkSet.Length)
            && (Bounded(w) ==> steps <= |Ancestors(w, old(checkSet[..]))| + checkSet.Length)
    ensures EntriesIn(d, checkSet[..]) && OnlyName(old(ex.sizcache), ex.sizcache, doneName)
  {
    steps := Scan(Walk(d, dir, NameTest(d, cur), false, isXML), ex, doneName, checkSet);
  }

  function NameTest(d: Document, cur: string): nat -> bool {
    (n: nat) => n < |d| && d[n].nodeName == cur
  }

  /** `cur` of dirCheck: a part to filter by, with what Sizzle.filter says of each node, or a node. */
  datatype Cur = Filtered(passes: nat -> bool) | Node(n: nat)

  function CurTest(d: Document, cur: Cur): nat -> bool {
    (n: nat) => IsElement(d, n) && if cur.Node? then n == cur.n else cur.passes(n)
  }

  /** dirCheck: the test is a filter or identity, on elements only, and identity is recorded as `true` */
  method DirCheck(d: Document, ex: Expandos, dir: Dir, cur: Cur, doneName: nat, checkSet: array<Entry>, isXML: bool)
    returns (ghost steps: nat)
    requires WellFormed(d) && EntriesIn(d, checkSet[..]) && FreshName(ex.sizcache, doneName)
    modifies checkSet, ex`sizcache, ex`sizset
    ensures var w := Walk(d, dir, CurTest(d, cur), cur.Node?, isXML);
            && (!w.SibDir() ==> w.AllNaive(old(checkSet[..]), checkSet[..], checkSet.Length))
            && (w.SibDir() ==>
                  (w.AllNaive(old(checkSet[..]), checkSet[..], checkSet.Length)
                   <==> w.NoneStale(old(checkSet[..]), checkSet.Length)))
            && w.Explained(old(checkSet[..]), checkSet[..], checkSet.Length)
            && (Bounded(w) ==> steps <= |Ancestors(w, old(checkSet[..]))| + checkSet.Length)
    ensures EntriesIn(d, checkSet[..]) && OnlyName(old(ex.sizcache), ex.sizcache, doneName)
  {
    steps := Scan(Walk(d, dir, CurTest(d, cur), cur.Node?, isXML), ex, doneName, checkSet);
  }

  // ---------------------------------------------------------------------
  // The answers in terms of the document

  predicate FirstNamed(d: Document, path: seq<nat>, name: string)
    requires |path| > 1 && forall i :: 0 <= i < |path| ==> path[i] < |d|
  {
    && d[path[|path| - 1]].nodeName == name
    && forall i :: 0 < i < |path| - 1 ==> d[path[i]].nodeName != name
  }

  predicate FirstPassing(d: Document, path: seq<nat>, passes: nat -> bool)
    requires |path| > 1 && forall i :: 0 <= i < |path| ==> path[i] < |d|
  {
    && d[path[|path| - 1]].nodeType == 1 && passes(path[|path| - 1])
    && forall i :: 0 < i < |path| - 1 ==> d[path[i]].nodeType != 1 || !passes(path[i])
  }

  /**
   The test on names asks for the nearest preceding sibling of that name, or for the
   nearest ancestor.
   */
  lemma {:induction false} NamedHit(d: Document, dir: Dir, name: string, isXML: bool, n: nat, m: nat)
    requires WellFormed(d) && n < |d|
    ensures var found := Walk(d, dir, NameTest(d, name), false, isXML).Naive(Elem(n)) == Elem(m);
            && (dir == PreviousSibling ==>
                  (found <==> exists path :: SiblingPath(d, path) && Leads(path, n, m) && FirstNamed(d, path, name)))
            && (dir == ParentNode ==>
                  (found <==> exists path :: ParentPath(d, path) && Leads(path, n, m) && FirstNamed(d, path, name)))
  {
    var test := NameTest(d, name);
    HitExactlyWhen(d, dir, test, n, m);
    forall path | LinkPath(d, dir, path) && Leads(path, n, m)
      ensures FirstHitPath(test, path) <==> FirstNamed(d, path, name)
    {
      assert test(path[|path| - 1]) <==> d[path[|path| - 1]].nodeName == name;
    }
  }

  /** The test by filter asks for the nearest one that is an element and passes. */
  lemma {:induction false} PassingHit(d: Document, dir: Dir, passes: nat -> bool, isXML: bool, n: nat, m: nat)
    requires WellFormed(d) && n < |d|
    ensures var found := Walk(d, dir, CurTest(d, Filtered(passes)), false, isXML).Naive(Elem(n)) == Elem(m);
            && (dir == PreviousSibling ==>
                  (found <==>
                   exists path :: SiblingPath(d, path) && Leads(path, n, m) && FirstPassing(d, path, passes)))
            && (dir == ParentNode ==>
                  (found <==> exists path :: ParentPath(d, path) && Leads(path, n, m) && FirstPassing(d, path, passes)))
  {
    var test := CurTest(d, Filtered(passes));
    HitExactlyWhen(d, dir, test, n, m);
    forall path | LinkPath(d, dir, path) && Leads(path, n, m)
      ensures FirstHitPath(test, path) <==> FirstPassing(d, path, passes)
    {
      assert test(path[|path| - 1]) <==> d[path[|path| - 1]].nodeType == 1 && passes(path[|path| - 1]);
    }
  }

  /** The test by identity asks whether that element is an ancestor, or a preceding sibling. */
  lemma {:induction false} SameHit(d: Document, dir: Dir, node: nat, isXML: bool, n: nat)
    requires WellFormed(d) && n < |d| && node < |d|
    ensures var found := Walk(d, dir, CurTest(d, Node(node)), true, isXML).Naive(Elem(n)) == True;
            && (dir == PreviousSibling ==>
                  (found <==> d[node].nodeType == 1 && exists path :: SiblingPath(d, path) && Leads(path, n, node)))
            && (dir == ParentNode ==>
                  (found <==> d[node].nodeType == 1 && exists path :: ParentPath(d, path) && Leads(path, n, node)))
  {
    var test := CurTest(d, Node(node));
    HitAboveIsNearest(d, dir, test, n);
    AboveIsPath(d, dir, node, n);
    assert Node(node).n == node;
    assert test(node) <==> IsElement(d, node);
    assert test(node) <==> d[node].nodeType == 1;
    assert HitAbove(d, dir, test, n).Some? <==> d[node].nodeType == 1 && Above(d, dir, node, n);
    forall path | Leads(path, n, node)
      ensures LinkPath(d, dir, path) <==> if dir == ParentNode then ParentPath(d, path) else SiblingPath(d, path)
    {
    }
  }

  /** A body with two paragraphs in a row. */
  const PARAGRAPHS: Document := [
    NodeInfo(DOCUMENT, "#document", None, None, [1]),
    NodeInfo(ELEMENT, "BODY", Some(0), None, [2, 3]),
    NodeInfo(ELEMENT, "P", Some(1), None, []),
    NodeInfo(ELEMENT, "P", Some(1), Some(2), [])]

  lemma ParagraphWalks(isXML: bool)
    ensures WellFormed(PARAGRAPHS)
    ensures var w := Walk(PARAGRAPHS, PreviousSibling, NameTest(PARAGRAPHS, "P"), false, isXML);
            w.Naive(Elem(2)) == False && w.Naive(Elem(3)) == Elem(2)
  {
    assert Link(PARAGRAPHS, PreviousSibling, 2) == None && Link(PARAGRAPHS, PreviousSibling, 3) == Some(2);
  }

  /**
   `p ~ p`: alone, the second paragraph finds the first one.  Together they find nothing in
   an HTML document, and in an XML document the second one still finds the first.
   */
  method SiblingParagraphs(isXML: bool) returns (alone: Entry, both: seq<Entry>)
    ensures alone == Elem(2)
    ensures |both| == 2 && both[0] == False && (isXML ==> both[1] == Elem(2)) && (!isXML ==> both[1] != Elem(2))
  {
    ParagraphWalks(isXML);
    ghost var w := Walk(PARAGRAPHS, PreviousSibling, NameTest(PARAGRAPHS, "P"), false, isXML);
    var ex := new Expandos();
    var one := new Entry[1](_ => Elem(3));
    ghost var steps := DirNodeCheck(PARAGRAPHS, ex, PreviousSibling, "P", 0, one, isXML);
    alone := one[0];
    FirstIsNaive(w, [Elem(3)], one[..]);
    var two := new Entry[2](k => if k == 0 then Elem(2) else Elem(3));
    ghost var s := two[..];
    ex := new Expandos();
    steps := DirNodeCheck(PARAGRAPHS, ex, PreviousSibling, "P", 0, two, isXML);
    both := two[..];
    FirstIsNaive(w, s, both);
    if !isXML {
      NeighbourIsLost(PARAGRAPHS, w.test, s, both, 0, 1, 2, 3);
    }
  }

  /** The first entry of a check set is always right. */
  lemma FirstIsNaive(w: Walk, s: CheckSet, out: CheckSet)
    requires w.Ok() && EntriesIn(w.d, s) && |s| == |out| > 0 && w.Explained(s, out, |s|)
    ensures out[0] == w.Naive(s[0])
  {
    assert w.ExplainedBy(s, out, 0, out[0]);
  }
}
