/**
 :nth-child (section 6.6.5.2 of W3C Selectors Level 3) as filter.CHILD of Sizzle
 computes it: sibling indexes are counted once per parent and pass, and kept on the
 nodes for the siblings that are tested later.
 */
module NthChild {
  import opened Wrappers
  import opened Dom
  import opened MemoWalk

  /** The children lists and the parent links describe the same tree. */
  predicate ChildrenMatch(d: Document) {
    && (forall p :: 0 <= p < |d| ==> forall k :: 0 <= k < |d[p].childNodes| ==>
          d[p].childNodes[k] < |d| && d[d[p].childNodes[k]].parentNode == Some(p))
    && (forall p :: 0 <= p < |d| ==> Distinct(d[p].childNodes))
    && (forall n :: 0 <= n < |d| ==> IsListed(d, n))
  }

  predicate Distinct(s: seq<nat>) {
    forall i, j :: 0 <= i < j < |s| ==> s[i] != s[j]
  }

  predicate IsListed(d: Document, n: nat)
    requires n < |d|
  {
    var p := d[n].parentNode;
    p.Some? ==> p.value < |d| && n in d[p.value].childNodes
  }

  function CountElements(d: Document, nodes: seq<nat>): (r: nat)
    ensures r <= |nodes|
  {
    if nodes == [] then 0
    else CountElements(d, nodes[..|nodes| - 1]) + if IsElement(d, nodes[|nodes| - 1]) then 1 else 0
  }

  /** The places of `nodes` where there is an element. */
  ghost function ElementPlaces(d: Document, nodes: seq<nat>): set<int> {
    set j | 0 <= j < |nodes| && nodes[j] < |d| && d[nodes[j]].nodeType == 1
  }

  /** The count is the number of elements; text, comments and the like do not add to it. */
  lemma {:induction false} CountIsNumber(d: Document, nodes: seq<nat>)
    ensures CountElements(d, nodes) == |set j | 0 <= j < |nodes| && nodes[j] < |d| && d[nodes[j]].nodeType == 1|
  {
    if nodes != [] {
      var n := |nodes| - 1;
      CountIsNumber(d, nodes[..n]);
      var before := ElementPlaces(d, nodes[..n]);
      assert ElementPlaces(d, nodes) == if IsElement(d, nodes[n]) then before + {n} else before;
      assert n !in before;
    }
  }

  /** `k` is the 1-based index of `e` among the elements of its parent. */
  ghost predicate HasIndex(d: Document, e: nat, k: nat)
    requires e < |d|
  {
    && d[e].parentNode.Some? && d[e].parentNode.value < |d|
    && var kids := d[d[e].parentNode.value].childNodes;
       exists j :: 0 <= j < |kids| && kids[j] == e && k == CountElements(d, kids[..j]) + 1
  }

  lemma {:induction false} IndexIsUnique(d: Document, e: nat, k: nat, k': nat)
    requires ChildrenMatch(d) && e < |d| && HasIndex(d, e, k) && HasIndex(d, e, k')
    ensures k == k'
  {
    var p := d[e].parentNode.value;
    var kids := d[p].childNodes;
    assert Distinct(kids);
    var j :| 0 <= j < |kids| && kids[j] == e && k == CountElements(d, kids[..j]) + 1;
    var j' :| 0 <= j' < |kids| && kids[j'] == e && k' == CountElements(d, kids[..j']) + 1;
    assert j == j';
  }

  // ---------------------------------------------------------------------
  // The arithmetic

  /** The test on the difference: `%` and `/` of JavaScript on integers. */
  predicate Accepts(diff: int, first: int) {
    if first == 0 then diff == 0
    else diff % first == 0 && (diff == 0 || (diff > 0 <==> first > 0))
  }

  /** `index` is `first * n + last` for some n >= 0. */
  ghost predicate InProgression(index: int, first: int, last: int) {
    exists n: nat :: index == Term(first, n, last)
  }

  function Term(first: int, n: nat, last: int): int {
    first * n + last
  }

  lemma AcceptsExactlyProgression(index: int, first: int, last: int)
    ensures Accepts(index - last, first) <==> InProgression(index, first, last)
  {
    var diff := index - last;
    if first == 0 {
      assert Term(first, 0, last) == last;
    } else {
      if Accepts(diff, first) {
        var n := diff / first;
        assert diff == first * n;
        SignOfQuotient(diff, first, n);
        assert index == Term(first, n, last);
      }
      if InProgression(index, first, last) {
        var n: nat :| index == Term(first, n, last);
        MultipleHasNoRemainder(first, n);
        SignOfProduct(first, n);
      }
    }
  }

  /**
   The test accepts the least set of differences that has 0 and goes on from each one by
   `first`: every other one comes from one that is nearer to 0.
   */
  lemma AcceptsLeast(diff: int, first: int)
    ensures Accepts(0, first)
    ensures Accepts(diff, first) ==> Accepts(diff + first, first)
    ensures Accepts(diff, first) && diff != 0 ==>
              first != 0 && Accepts(diff - first, first)
              && if diff > 0 then 0 <= diff - first < diff else diff < diff - first <= 0
  {
    AcceptsExactlyProgression(0, first, 0);
    AcceptsExactlyProgression(diff, first, 0);
    AcceptsExactlyProgression(diff + first, first, 0);
    AcceptsExactlyProgression(diff - first, first, 0);
    assert 0 == Term(first, 0, 0);
    if Accepts(diff, first) {
      var n: nat :| diff == Term(first, n, 0);
      assert diff + first == Term(first, n + 1, 0);
      if diff != 0 {
        assert n > 0;
        assert diff - first == Term(first, n - 1, 0);
        SignOfProduct(first, n);
        SignOfProduct(first, n - 1);
      }
    }
  }

  lemma SignOfQuotient(diff: int, first: int, n: int)
    requires first != 0 && diff == first * n && (diff == 0 || (diff > 0 <==> first > 0))
    ensures n >= 0
  {
  }

  lemma SignOfProduct(first: int, n: nat)
    requires first != 0
    ensures first * n == 0 || (first * n > 0 <==> first > 0)
  {
    if n > 0 {
      if first > 0 {
        assert first * n > 0;
      } else {
        assert first * n < 0;
      }
    }
  }

  lemma MultipleHasNoRemainder(first: int, n: nat)
    requires first != 0
    ensures (first * n) % first == 0
  {
    var q, r := (first * n) / first, (first * n) % first;
    assert first * n == first * q + r;
    assert r == first * (n - q);
    if n != q {
      LargeMultiple(first, n - q);
    }
  }

  lemma LargeMultiple(first: int, m: int)
    requires first != 0 && m != 0
    ensures first * m >= (if first > 0 then first else -first) || first * m < 0
  {
  }

  // ---------------------------------------------------------------------
  // The filter with its cache

  /** The indexes kept on the children of every parent that carries the stamp of this pass are right. */
  ghost predicate PassInv(d: Document, sizcache: map<nat, nat>, nodeIndex: map<nat, nat>, doneName: nat) {
    forall e :: 0 <= e < |d| && IsElement(d, e) && d[e].parentNode.Some?
                && Stamped(sizcache, doneName, d[e].parentNode.value) ==>
      e in nodeIndex && HasIndex(d, e, nodeIndex[e])
  }

  /** With a fresh stamp nothing is known yet. */
  lemma FreshPass(d: Document, sizcache: map<nat, nat>, nodeIndex: map<nat, nat>, doneName: nat)
    requires FreshName(sizcache, doneName)
    ensures PassInv(d, sizcache, nodeIndex, doneName)
  {
  }

  predicate SameIndex(before: map<nat, nat>, after: map<nat, nat>, e: nat) {
    (e in after <==> e in before) && (e in after ==> after[e] == before[e])
  }

  /** The loop that counts the children of a parent. */
  method CountChildren(d: Document, ex: Expandos, parent: nat)
    requires ChildrenMatch(d) && parent < |d|
    modifies ex`nodeIndex
    ensures forall e :: e in d[parent].childNodes && IsElement(d, e) ==>
              e in ex.nodeIndex && HasIndex(d, e, ex.nodeIndex[e])
    ensures forall e :: e !in d[parent].childNodes ==> SameIndex(old(ex.nodeIndex), ex.nodeIndex, e)
  {
    var kids := d[parent].childNodes;
    assert Distinct(kids);
    var count := 0;
    var k := 0;
    while k < |kids|
      invariant 0 <= k <= |kids|
      invariant count == CountElements(d, kids[..k])
      invariant forall j :: 0 <= j < k && IsElement(d, kids[j]) ==>
                  kids[j] in ex.nodeIndex && ex.nodeIndex[kids[j]] == CountElements(d, kids[..j]) + 1
      invariant forall e :: e !in kids ==> SameIndex(old(ex.nodeIndex), ex.nodeIndex, e)
    {
      assert kids[..k + 1][..k] == kids[..k];
      if IsElement(d, kids[k]) {
        count := count + 1;
        ex.nodeIndex := ex.nodeIndex[kids[k] := count];
      }
      k := k + 1;
    }
    forall e | e in kids && IsElement(d, e) ensures e in ex.nodeIndex && HasIndex(d, e, ex.nodeIndex[e]) {
      var j :| 0 <= j < |kids| && kids[j] == e;
      assert d[kids[j]].parentNode == Some(parent);
    }
  }

  /** A node without a parent keeps the index, if any, that it got when it had one. */
  predicate TopsKeep(d: Document, before: map<nat, nat>, after: map<nat, nat>) {
    forall e :: 0 <= e < |d| && d[e].parentNode.None? ==> SameIndex(before, after, e)
  }

  /**
   What :nth-child asks of an element; one without a parent is judged by the index that
   it has kept from earlier, and without an index passes only when everything does.
   */
  ghost predicate IsNth(d: Document, kept: map<nat, nat>, e: nat, first: int, last: int)
    requires e < |d|
  {
    if d[e].parentNode.Some? then exists k: nat :: HasIndex(d, e, k) && InProgression(k, first, last)
    else (first == 1 && last == 0) || (e in kept && InProgression(kept[e], first, last))
  }

  lemma IsNthByIndex(d: Document, kept: map<nat, nat>, e: nat, k: nat, first: int, last: int)
    requires ChildrenMatch(d) && e < |d| && HasIndex(d, e, k)
    ensures IsNth(d, kept, e, first, last) <==> InProgression(k, first, last)
  {
    if IsNth(d, kept, e, first, last) {
      var k': nat :| HasIndex(d, e, k') && InProgression(k', first, last);
      IndexIsUnique(d, e, k, k');
    }
  }

  /**
   filter.CHILD for "nth" on an element: whatever was tested before in this pass, it is
   accepted exactly when its index is in the progression.
   */
  method NthFilter(d: Document, ex: Expandos, elem: nat, first: int, last: int, doneName: nat) returns (accepted: bool)
    requires ChildrenMatch(d) && elem < |d| && IsElement(d, elem)
    requires PassInv(d, ex.sizcache, ex.nodeIndex, doneName)
    modifies ex`sizcache, ex`nodeIndex
    ensures accepted <==> IsNth(d, old(ex.nodeIndex), elem, first, last)
    ensures PassInv(d, ex.sizcache, ex.nodeIndex, doneName) && TopsKeep(d, old(ex.nodeIndex), ex.nodeIndex)
  {
    if first == 1 && last == 0 {
      if d[elem].parentNode.Some? {
        assert IsListed(d, elem);
        ghost var k := IndexExists(d, elem);
        assert k == Term(1, k, 0);
      }
      return true;
    }
    if d[elem].parentNode.Some? {
      EnsureCounted(d, ex, elem, doneName);
      IsNthByIndex(d, old(ex.nodeIndex), elem, ex.nodeIndex[elem], first, last);
    }
    if elem !in ex.nodeIndex {
      // the difference is not a number, and no comparison with it holds
      return false;
    }
    var diff := ex.nodeIndex[elem] - last;
    accepted := Accepts(diff, first);
    AcceptsExactlyProgression(ex.nodeIndex[elem], first, last);
  }

  /** The children are counted if the stamp or the index is missing. */
  method EnsureCounted(d: Document, ex: Expandos, elem: nat, doneName: nat)
    requires ChildrenMatch(d) && elem < |d| && IsElement(d, elem) && d[elem].parentNode.Some?
    requires PassInv(d, ex.sizcache, ex.nodeIndex, doneName)
    modifies ex`sizcache, ex`nodeIndex
    ensures elem in ex.nodeIndex && HasIndex(d, elem, ex.nodeIndex[elem])
    ensures PassInv(d, ex.sizcache, ex.nodeIndex, doneName) && TopsKeep(d, old(ex.nodeIndex), ex.nodeIndex)
  {
    assert IsListed(d, elem);
    var parent: nat := d[elem].parentNode.value;
    if !Stamped(ex.sizcache, doneName, parent) || elem !in ex.nodeIndex || ex.nodeIndex[elem] == 0 {
      ghost var before, sc := ex.nodeIndex, ex.sizcache;
      CountChildren(d, ex, parent);
      forall e | 0 <= e < |d| && d[e].parentNode.None? ensures SameIndex(before, ex.nodeIndex, e) {
        assert e !in d[parent].childNodes;
      }
      ex.sizcache := ex.sizcache[parent := doneName];
      forall e | 0 <= e < |d| && IsElement(d, e) && d[e].parentNode.Some?
                 && Stamped(ex.sizcache, doneName, d[e].parentNode.value)
        ensures e in ex.nodeIndex && HasIndex(d, e, ex.nodeIndex[e])
      {
        assert IsListed(d, e);
        var p := d[e].parentNode.value;
        if p != parent {
          assert Stamped(sc, doneName, p);
          assert e !in d[parent].childNodes;
          assert SameIndex(before, ex.nodeIndex, e);
        }
      }
    }
  }

  lemma IndexExists(d: Document, e: nat) returns (k: nat)
    requires e < |d| && d[e].parentNode.Some? && IsListed(d, e)
    ensures HasIndex(d, e, k)
  {
    var kids := d[d[e].parentNode.value].childNodes;
    var j :| 0 <= j < |kids| && kids[j] == e;
    k := CountElements(d, kids[..j]) + 1;
  }

  // ---------------------------------------------------------------------
  // A pass

  /** The elements of `elems` that :nth-child is for, in order. */
  ghost function NthOf(d: Document, kept: map<nat, nat>, elems: seq<nat>, first: int, last: int): seq<nat>
    requires forall i :: 0 <= i < |elems| ==> elems[i] < |d|
  {
    if elems == [] then []
    else
      var n := |elems| - 1;
      NthOf(d, kept, elems[..n], first, last) + if IsNth(d, kept, elems[n], first, last) then [elems[n]] else []
  }

  /** Sizzle.filter with an nth-child part: one stamp for the whole pass. */
  method NthPass(d: Document, ex: Expandos, elems: seq<nat>, first: int, last: int, doneName: nat)
    returns (result: seq<nat>)
    requires ChildrenMatch(d) && FreshName(ex.sizcache, doneName)
    requires forall i :: 0 <= i < |elems| ==> elems[i] < |d| && IsElement(d, elems[i])
    modifies ex`sizcache, ex`nodeIndex
    ensures result == NthOf(d, old(ex.nodeIndex), elems, first, last)
  {
    FreshPass(d, ex.sizcache, ex.nodeIndex, doneName);
    result := [];
    var i := 0;
    assert elems[..0] == [];
    while i < |elems|
      invariant 0 <= i <= |elems|
      invariant result == NthOf(d, old(ex.nodeIndex), elems[..i], first, last)
      invariant PassInv(d, ex.sizcache, ex.nodeIndex, doneName) && TopsKeep(d, old(ex.nodeIndex), ex.nodeIndex)
    {
      ghost var kept := ex.nodeIndex;
      var found := NthFilter(d, ex, elems[i], first, last, doneName);
      assert SameIndex(old(ex.nodeIndex), kept, elems[i]) || d[elems[i]].parentNode.Some?;
      TopsKeepTransitive(d, old(ex.nodeIndex), kept, ex.nodeIndex);
      if found {
        result := result + [elems[i]];
      }
      assert elems[..i + 1][..i] == elems[..i];
      i := i + 1;
    }
    assert elems[..i] == elems;
  }

  lemma TopsKeepTransitive(d: Document, a: map<nat, nat>, b: map<nat, nat>, c: map<nat, nat>)
    requires TopsKeep(d, a, b) && TopsKeep(d, b, c)
    ensures TopsKeep(d, a, c)
  {
    forall e | 0 <= e < |d| && d[e].parentNode.None? ensures SameIndex(a, c, e) {
      assert SameIndex(a, b, e) && SameIndex(b, c, e);
    }
  }

  /** A list with white space in front of its only item. */
  const LIST: Document := [
    NodeInfo(ELEMENT, "UL", None, None, [1, 2]),
    NodeInfo(3, "#text", Some(0), None, []),
    NodeInfo(ELEMENT, "LI", Some(0), Some(1), [])]

  lemma ItemIsFirst()
    ensures ChildrenMatch(LIST) && HasIndex(LIST, 2, 1)
  {
    var kids := LIST[0].childNodes;
    assert kids == [1, 2];
    assert forall p :: 0 < p < |LIST| ==> LIST[p].childNodes == [];
    assert IsListed(LIST, 1) && IsListed(LIST, 2) by {
      assert kids[0] == 1 && kids[1] == 2;
    }
    assert kids[..1] == [1] && [1][..0] == [];
    assert CountElements(LIST, kids[..1]) == 0;
  }

  /** `:nth-child(1)` accepts it, and `:nth-child(2)` does not: the white space does not count. */
  method OnlyItem() returns (first: bool, second: bool)
    ensures first && !second
  {
    ItemIsFirst();
    var ex := new Expandos();
    FreshPass(LIST, ex.sizcache, ex.nodeIndex, 0);
    IsNthByIndex(LIST, ex.nodeIndex, 2, 1, 0, 1);
    assert 1 == Term(0, 0, 1);
    first := NthFilter(LIST, ex, 2, 0, 1, 0);
    IsNthByIndex(LIST, ex.nodeIndex, 2, 1, 0, 2);
    second := NthFilter(LIST, ex, 2, 0, 2, 0);
  }

  /**
   An element that has been taken out of its tree is judged by the index that it still has,
   and one that never had an index by none.
   */
  method TakenOut(ex: Expandos) returns (byIndex: bool, other: bool, every: bool, never: bool)
    modifies ex`nodeIndex, ex`sizcache
    ensures byIndex && !other && every && !never
  {
    var d := [NodeInfo(ELEMENT, "LI", None, None, []), NodeInfo(ELEMENT, "LI", None, None, [])];
    ex.sizcache, ex.nodeIndex := map[], map[0 := 3];
    FreshPass(d, ex.sizcache, ex.nodeIndex, 0);
    assert forall n :: 0 <= n < |d| ==> d[n].parentNode.None? && d[n].childNodes == [];
    assert 3 == Term(0, 0, 3);
    byIndex := NthFilter(d, ex, 0, 0, 3, 0);
    other := NthFilter(d, ex, 0, 0, 1, 0);
    every := NthFilter(d, ex, 1, 1, 0, 0);
    never := NthFilter(d, ex, 1, 1, 1, 0);
  }
}
