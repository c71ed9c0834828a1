/**
 The document that Sizzle walks: nodes with a type, a name and links that the
 walks only read.  Nodes are numbered in document order, so a parent and a
 preceding sibling have smaller numbers.
 */
module Dom {
  import opened Wrappers

  datatype NodeInfo = NodeInfo(
    nodeType: int,
    nodeName: string,
    parentNode: Option<nat>,
    previousSibling: Option<nat>,
    childNodes: seq<nat>)

  type Document = seq<NodeInfo>

  const ELEMENT: int := 1
  const DOCUMENT: int := 9

  predicate IsElement(d: Document, n: nat) {
    n < |d| && d[n].nodeType == ELEMENT
  }

  predicate SmallerLink(o: Option<nat>, n: nat) {
    o.Some? ==> o.value < n
  }

  predicate WellFormed(d: Document) {
    forall n :: 0 <= n < |d| ==> SmallerLink(d[n].parentNode, n) && SmallerLink(d[n].previousSibling, n)
  }

  datatype Dir = ParentNode | PreviousSibling

  /** elem[dir] */
  function Link(d: Document, dir: Dir, n: nat): (o: Option<nat>)
    requires WellFormed(d) && n < |d|
    ensures SmallerLink(o, n)
  {
    match dir
    case ParentNode => d[n].parentNode
    case PreviousSibling => d[n].previousSibling
  }

  /** `a` is reached from `n` by one or more links. */
  predicate Above(d: Document, dir: Dir, a: nat, n: nat): (r: bool)
    requires WellFormed(d)
    ensures r ==> a < n < |d|
    decreases n
  {
    n < |d| && Link(d, dir, n).Some? && (Link(d, dir, n).value == a || Above(d, dir, a, Link(d, dir, n).value))
  }

  lemma {:induction false} AboveTransitive(d: Document, dir: Dir, a: nat, b: nat, n: nat)
    requires WellFormed(d) && Above(d, dir, a, b) && Above(d, dir, b, n)
    ensures Above(d, dir, a, n)
    decreases n
  {
    var m := Link(d, dir, n).value;
    if m != b {
      AboveTransitive(d, dir, a, b, m);
    }
  }

  /** The nodes above one node form a chain. */
  lemma {:induction false} AboveLinear(d: Document, dir: Dir, a: nat, b: nat, n: nat)
    requires WellFormed(d) && Above(d, dir, a, n) && Above(d, dir, b, n)
    ensures a == b || Above(d, dir, a, b) || Above(d, dir, b, a)
    decreases n
  {
    var m := Link(d, dir, n).value;
    if m != a && m != b {
      AboveLinear(d, dir, a, b, m);
    }
  }

  /** The first node that passes `test` on the way from `o` on, `o` included. */
  function FirstHit(d: Document, dir: Dir, test: nat -> bool, o: Option<nat>): (r: Option<nat>)
    requires WellFormed(d) && (o.Some? ==> o.value < |d|)
    ensures r.Some? ==> o.Some? && r.value <= o.value && test(r.value)
    decreases if o.Some? then o.value + 1 else 0
  {
    if o.None? then None
    else if test(o.value) then o
    else FirstHit(d, dir, test, Link(d, dir, o.value))
  }

  /** The first hit strictly above `n`. */
  function HitAbove(d: Document, dir: Dir, test: nat -> bool, n: nat): Option<nat>
    requires WellFormed(d) && n < |d|
  {
    FirstHit(d, dir, test, Link(d, dir, n))
  }

  /** What "first hit above" means, without a walk. */
  lemma {:induction false} HitAboveIsNearest(d: Document, dir: Dir, test: nat -> bool, n: nat)
    requires WellFormed(d) && n < |d|
    ensures var r := HitAbove(d, dir, test, n);
            if r.Some?
            then Above(d, dir, r.value, n) && test(r.value)
                 && forall a :: Above(d, dir, a, n) && test(a) ==> a == r.value || Above(d, dir, a, r.value)
            else forall a :: Above(d, dir, a, n) ==> !test(a)
    decreases n
  {
    var o := Link(d, dir, n);
    if o.Some? && !test(o.value) {
      HitAboveIsNearest(d, dir, test, o.value);
    }
  }

  // ---------------------------------------------------------------------
  // In terms of the fields

  /** `path` goes from node to node along `parentNode`. */
  predicate ParentPath(d: Document, path: seq<nat>) {
    && (forall i :: 0 <= i < |path| ==> path[i] < |d|)
    && (forall i :: 0 <= i < |path| - 1 ==> d[path[i]].parentNode == Some(path[i + 1]))
  }

  /** `path` goes from node to node along `previousSibling`. */
  predicate SiblingPath(d: Document, path: seq<nat>) {
    && (forall i :: 0 <= i < |path| ==> path[i] < |d|)
    && (forall i :: 0 <= i < |path| - 1 ==> d[path[i]].previousSibling == Some(path[i + 1]))
  }

  predicate LinkPath(d: Document, dir: Dir, path: seq<nat>) {
    if dir == ParentNode then ParentPath(d, path) else SiblingPath(d, path)
  }

  /** A path of one or more links from `n` to `a`. */
  predicate Leads(path: seq<nat>, n: nat, a: nat) {
    |path| > 1 && path[0] == n && path[|path| - 1] == a
  }

  lemma {:induction false} PathShorter(d: Document, dir: Dir, path: seq<nat>)
    requires WellFormed(d) && LinkPath(d, dir, path) && |path| > 1
    ensures Link(d, dir, path[0]) == Some(path[1]) && LinkPath(d, dir, path[1..])
  {
  }

  lemma {:induction false} PathLonger(d: Document, dir: Dir, n: nat, path: seq<nat>)
    requires WellFormed(d) && LinkPath(d, dir, path) && path != [] && n < |d| && Link(d, dir, n) == Some(path[0])
    ensures LinkPath(d, dir, [n] + path)
  {
  }

  /** The walk to the first hit, node by node: no node before the last one passes. */
  lemma {:induction false} HitPath(d: Document, dir: Dir, test: nat -> bool, n: nat) returns (path: seq<nat>)
    requires WellFormed(d) && n < |d| && HitAbove(d, dir, test, n).Some?
    ensures LinkPath(d, dir, path) && Leads(path, n, HitAbove(d, dir, test, n).value)
    ensures forall i :: 0 < i < |path| - 1 ==> !test(path[i])
    decreases n
  {
    var m := Link(d, dir, n).value;
    if test(m) {
      path := [n, m];
    } else {
      var rest := HitPath(d, dir, test, m);
      PathLonger(d, dir, n, rest);
      path := [n] + rest;
    }
  }

  /** On a path whose last node is the first one to pass, it is the hit. */
  lemma {:induction false} HitOnPath(d: Document, dir: Dir, test: nat -> bool, path: seq<nat>)
    requires WellFormed(d) && LinkPath(d, dir, path) && |path| > 1
    requires forall i :: 0 < i < |path| - 1 ==> !test(path[i])
    ensures test(path[|path| - 1]) ==> HitAbove(d, dir, test, path[0]) == Some(path[|path| - 1])
    decreases |path|
  {
    PathShorter(d, dir, path);
    if |path| > 2 {
      HitOnPath(d, dir, test, path[1..]);
    }
  }

  /** What is above a node, for either link, is what a path along the field of that name leads to. */
  lemma {:induction false} AboveIsPath(d: Document, dir: Dir, a: nat, n: nat)
    requires WellFormed(d)
    ensures Above(d, dir, a, n) <==> exists path :: LinkPath(d, dir, path) && Leads(path, n, a)
  {
    if Above(d, dir, a, n) {
      var path := PathTo(d, dir, a, n);
    }
    if exists path :: LinkPath(d, dir, path) && Leads(path, n, a) {
      var path :| LinkPath(d, dir, path) && Leads(path, n, a);
      PathIsAbove(d, dir, path);
    }
  }

  lemma {:induction false} PathTo(d: Document, dir: Dir, a: nat, n: nat) returns (path: seq<nat>)
    requires WellFormed(d) && Above(d, dir, a, n)
    ensures LinkPath(d, dir, path) && Leads(path, n, a)
    decreases n
  {
    var m := Link(d, dir, n).value;
    if m == a {
      path := [n, a];
    } else {
      var rest := PathTo(d, dir, a, m);
      PathLonger(d, dir, n, rest);
      path := [n] + rest;
    }
  }

  lemma {:induction false} PathIsAbove(d: Document, dir: Dir, path: seq<nat>)
    requires WellFormed(d) && LinkPath(d, dir, path) && |path| > 1
    ensures Above(d, dir, path[|path| - 1], path[0])
    decreases |path|
  {
    PathShorter(d, dir, path);
    if |path| > 2 {
      PathIsAbove(d, dir, path[1..]);
    }
  }

  /** The last node passes, and none between the first and the last. */
  predicate FirstHitPath(test: nat -> bool, path: seq<nat>)
    requires |path| > 1
  {
    test(path[|path| - 1]) && forall i :: 0 < i < |path| - 1 ==> !test(path[i])
  }

  /** The hit is the first node on the path that passes. */
  lemma {:induction false} HitExactlyWhen(d: Document, dir: Dir, test: nat -> bool, n: nat, m: nat)
    requires WellFormed(d) && n < |d|
    ensures HitAbove(d, dir, test, n) == Some(m) <==>
            exists path :: LinkPath(d, dir, path) && Leads(path, n, m) && FirstHitPath(test, path)
  {
    if HitAbove(d, dir, test, n) == Some(m) {
      var path := HitPath(d, dir, test, n);
      assert FirstHitPath(test, path);
    }
    if exists path :: LinkPath(d, dir, path) && Leads(path, n, m) && FirstHitPath(test, path) {
      var path :| LinkPath(d, dir, path) && Leads(path, n, m) && FirstHitPath(test, path);
      HitOnPath(d, dir, test, path);
    }
  }
}
