/**
 The parts of a selector, joined by descendant and child combinators, what the selector
 means, and what is kept of it by the fold.
 */
module SizzleParts {
  import opened Wrappers
  import opened Dom
  import opened MemoWalk
  import opened Selector

  // ---------------------------------------------------------------------
  // Parts

  predicate IsWordChar(ch: char) {
    'a' <= ch <= 'z' || 'A' <= ch <= 'Z' || '0' <= ch <= '9' || ch == '_'
  }

  /** !part.match(/\W/) */
  predicate IsWord(part: string) {
    forall i :: 0 <= i < |part| ==> IsWordChar(part[i])
  }

  /** toUpperCase on a word */
  function ToUpper(part: string): (r: string)
    ensures |r| == |part|
    ensures IsWord(part) ==> IsWord(r)
  {
    seq(|part|, i requires 0 <= i < |part| =>
      if 'a' <= part[i] <= 'z' then (part[i] as int - 'a' as int + 'A' as int) as char else part[i])
  }

  /** The characters that \W does not match. */
  lemma WordCharsAre(ch: char)
    ensures IsWordChar(ch) <==>
            ch in "abcdefghijklmnopqrstuvwxyz" || ch in "ABCDEFGHIJKLMNOPQRSTUVWXYZ" || ch in "0123456789" || ch == '_'
  {
    SmallLetters(ch);
    Capitals(ch);
    Digits(ch);
  }

  lemma SmallLetters(ch: char)
    ensures 'a' <= ch <= 'z' <==> ch in "abcdefghijklmnopqrstuvwxyz"
  {
    if 'a' <= ch <= 'z' {
      assert "abcdefghijklmnopqrstuvwxyz"[ch as int - 'a' as int] == ch;
    }
  }

  lemma Capitals(ch: char)
    ensures 'A' <= ch <= 'Z' <==> ch in "ABCDEFGHIJKLMNOPQRSTUVWXYZ"
  {
    if 'A' <= ch <= 'Z' {
      assert "ABCDEFGHIJKLMNOPQRSTUVWXYZ"[ch as int - 'A' as int] == ch;
    }
  }

  lemma Digits(ch: char)
    ensures '0' <= ch <= '9' <==> ch in "0123456789"
  {
    if '0' <= ch <= '9' {
      assert "0123456789"[ch as int - '0' as int] == ch;
    }
  }

  /** The same letter in upper or lower case, or the same character. */
  predicate SameLetter(a: char, b: char) {
    || a == b
    || ('a' <= a <= 'z' && a as int - b as int == 'a' as int - 'A' as int)
    || ('a' <= b <= 'z' && b as int - a as int == 'a' as int - 'A' as int)
  }

  /** The same name in HTML. */
  predicate SameUpToCase(a: string, b: string) {
    |a| == |b| && forall i :: 0 <= i < |a| ==> SameLetter(a[i], b[i])
  }

  predicate NoSmallLetter(s: string) {
    forall i :: 0 <= i < |s| ==> !('a' <= s[i] <= 'z')
  }

  /** The upper-case form is the only string without small letters that is the same up to case. */
  lemma {:induction false} UpperIs(part: string, r: string)
    ensures r == ToUpper(part) <==> SameUpToCase(part, r) && NoSmallLetter(r)
  {
    var u := ToUpper(part);
    assert forall i :: 0 <= i < |part| ==> SameLetter(part[i], u[i]) && !('a' <= u[i] <= 'z');
    if SameUpToCase(part, r) && NoSmallLetter(r) {
      assert forall i :: 0 <= i < |part| ==> SameLetter(part[i], r[i]) && r[i] == u[i];
    }
  }

  /** Two words are compared as the same name exactly when they are equal, in XML, or equal up to case, in HTML. */
  lemma {:induction false} SameNameExactlyWhen(a: string, b: string, isXML: bool)
    ensures isXML ==> (WordName(a, isXML) == WordName(b, isXML) <==> a == b)
    ensures !isXML ==> (WordName(a, isXML) == WordName(b, isXML) <==> SameUpToCase(a, b))
    ensures isXML ==> WordName(a, isXML) == a
    ensures !isXML ==> SameUpToCase(a, WordName(a, isXML)) && NoSmallLetter(WordName(a, isXML))
  {
    UpperIs(a, ToUpper(a));
    UpperIs(b, ToUpper(b));
    if !isXML {
      if SameUpToCase(a, b) {
        SameUpper(a, b);
      }
      if ToUpper(a) == ToUpper(b) {
        SameThrough(a, ToUpper(a), b);
      }
    }
  }

  lemma {:induction false} SameUpper(a: string, b: string)
    requires SameUpToCase(a, b)
    ensures ToUpper(a) == ToUpper(b)
  {
    forall i | 0 <= i < |a| ensures ToUpper(a)[i] == ToUpper(b)[i] {
      assert SameLetter(a[i], b[i]);
    }
  }

  lemma {:induction false} SameThrough(a: string, u: string, b: string)
    requires SameUpToCase(a, u) && SameUpToCase(b, u) && NoSmallLetter(u)
    ensures SameUpToCase(a, b)
  {
    forall i | 0 <= i < |a| ensures SameLetter(a[i], b[i]) {
      assert SameLetter(a[i], u[i]) && SameLetter(b[i], u[i]);
    }
  }

  /** What Sizzle.filter(part, [elem]) says for each part and node. */
  type Filter = (string, nat) -> bool

  function WordName(part: string, isXML: bool): string {
    if isXML then part else ToUpper(part)
  }

  /** The test that Expr.relative[""] and Expr.relative[">"] make of a part. */
  function PartTest(d: Document, filter: Filter, isXML: bool, part: string): Test {
    if IsWord(part) then NameTest(d, WordName(part, isXML)) else CurTest(d, Filtered((n: nat) => filter(part, n)))
  }

  /** A part of the selector and the combinator behind it. */
  datatype Part = Part(text: string, comb: Comb)

  function StepOf(d: Document, filter: Filter, isXML: bool, part: Part): Step {
    Step(PartTest(d, filter, isXML, part.text), part.comb)
  }

  function StepsOf(d: Document, filter: Filter, isXML: bool, parts: seq<Part>): seq<Step> {
    seq(|parts|, i requires 0 <= i < |parts| => StepOf(d, filter, isXML, parts[i]))
  }

  /**
   A node that has children is an element, or it is topmost and has a name like
   "#document", which is no word.
   */
  predicate ProperTree(d: Document) {
    forall n :: 0 <= n < |d| ==>
      var p := d[n].parentNode;
      p.Some? && p.value < |d| && !IsElement(d, p.value) ==> !IsWord(d[p.value].nodeName) && d[p.value].parentNode.None?
  }

  lemma {:induction false} AboveIsParent(d: Document, a: nat, n: nat) returns (x: nat)
    requires WellFormed(d) && Above(d, ParentNode, a, n)
    ensures x < |d| && d[x].parentNode == Some(a)
    decreases n
  {
    var p := d[n].parentNode.value;
    if p == a {
      x := n;
    } else {
      x := AboveIsParent(d, a, p);
    }
  }

  /** So an ancestor that passes a part is an element. */
  lemma {:induction false} HitIsElement(d: Document, filter: Filter, isXML: bool, part: string, a: nat, n: nat)
    requires WellFormed(d) && ProperTree(d) && Above(d, ParentNode, a, n)
    requires PartTest(d, filter, isXML, part)(a)
    ensures IsElement(d, a)
  {
    var x := AboveIsParent(d, a, n);
    if IsWord(part) {
      assert IsWord(WordName(part, isXML));
      assert d[a].nodeName == WordName(part, isXML);
    }
  }

  // ---------------------------------------------------------------------
  // What is kept, and what is meant

  /** The node that the search is limited to: the document, or an element. */
  datatype Context = WholeDocument | Within(n: nat)

  /** The conditions under which the last loops of Sizzle keep a candidate. */
  predicate Keeps(d: Document, context: Context, e: Entry)
    requires WellFormed(d)
  {
    match context
    case WholeDocument => e.Elem? && IsElement(d, e.n)
    case Within(n) => e.True? || (e.Elem? && IsElement(d, e.n) && Above(d, ParentNode, n, e.n))
  }

  /** What the selector means for a candidate: some chain of ancestors passes the parts in order, inside the context. */
  ghost predicate HasChain(d: Document, context: Context, steps: seq<Step>, c: nat)
    requires WellFormed(d)
  {
    exists chain :: IsChain(d, steps, chain, c) && StartsInside(d, context, chain)
  }

  predicate StartsInside(d: Document, context: Context, chain: seq<nat>)
    requires WellFormed(d)
  {
    context.Within? && chain != [] ==> Above(d, ParentNode, context.n, chain[0])
  }

  /** Soundness: a candidate that is kept has such a chain, whatever the combinators. */
  lemma {:induction false} KeptHasChain(d: Document, context: Context, steps: seq<Step>, c: nat)
    requires WellFormed(d) && c < |d| && steps != [] && Keeps(d, context, Fold(d, steps, Elem(c)))
    ensures HasChain(d, context, steps, c)
  {
    FoldFalse(d, steps, Elem(c));
    var chain := FoldIsSound(d, steps, c);
    assert StartsInside(d, context, chain);
  }

  /**
   Where no child combinator stands left of a descendant one, the greedy fold is complete
   as well: a candidate is kept exactly when there is such a chain.
   */
  lemma {:induction false} KeptExactlyWhen(d: Document, filter: Filter, isXML: bool, parts: seq<Part>,
                                           context: Context, c: nat)
    requires WellFormed(d) && ProperTree(d) && c < |d| && parts != []
    requires Safe(Combs(StepsOf(d, filter, isXML, parts)))
    ensures var steps := StepsOf(d, filter, isXML, parts);
            Keeps(d, context, Fold(d, steps, Elem(c))) <==> HasChain(d, context, steps, c)
  {
    var steps := StepsOf(d, filter, isXML, parts);
    var r := Fold(d, steps, Elem(c));
    if Keeps(d, context, r) {
      KeptHasChain(d, context, steps, c);
    }
    if HasChain(d, context, steps, c) {
      var chain :| IsChain(d, steps, chain, c) && StartsInside(d, context, chain);
      FoldIsComplete(d, steps, c, chain);
      FoldEndsInElement(d, filter, isXML, parts, c);
      if context.Within? && chain[0] != r.n {
        AboveTransitive(d, ParentNode, context.n, chain[0], r.n);
      }
    }
  }

  lemma {:induction false} FoldEndsInElement(d: Document, filter: Filter, isXML: bool, parts: seq<Part>, c: nat)
    requires WellFormed(d) && ProperTree(d) && c < |d| && parts != []
    requires Fold(d, StepsOf(d, filter, isXML, parts), Elem(c)).Elem?
    ensures IsElement(d, Fold(d, StepsOf(d, filter, isXML, parts), Elem(c)).n)
  {
    var steps := StepsOf(d, filter, isXML, parts);
    var chain := FoldIsSound(d, steps, c);
    assert Fits(d, steps, chain, c, 0);
    RelatedIsAbove(d, steps[0].comb, chain[0], Next(chain, 0, c));
    HitIsElement(d, filter, isXML, parts[0].text, chain[0], Next(chain, 0, c));
  }

  /** The candidates whose fold is kept, in order. */
  function Kept(d: Document, context: Context, steps: seq<Step>, candidates: seq<nat>): seq<nat>
    requires WellFormed(d) && forall k :: 0 <= k < |candidates| ==> candidates[k] < |d|
  {
    if candidates == [] then []
    else
      var n := |candidates| - 1;
      if Keeps(d, context, Fold(d, steps, Elem(candidates[n])))
      then Kept(d, context, steps, candidates[..n]) + [candidates[n]]
      else Kept(d, context, steps, candidates[..n])
  }

  /** The candidates that the selector means, in order. */
  ghost function Matching(d: Document, context: Context, steps: seq<Step>, candidates: seq<nat>): seq<nat>
    requires WellFormed(d)
  {
    if candidates == [] then []
    else
      var n := |candidates| - 1;
      if HasChain(d, context, steps, candidates[n])
      then Matching(d, context, steps, candidates[..n]) + [candidates[n]]
      else Matching(d, context, steps, candidates[..n])
  }

  lemma {:induction false} KeptIsMatching(d: Document, filter: Filter, isXML: bool, parts: seq<Part>, context: Context,
                                          candidates: seq<nat>)
    requires WellFormed(d) && ProperTree(d) && parts != []
    requires forall k :: 0 <= k < |candidates| ==> candidates[k] < |d|
    requires Safe(Combs(StepsOf(d, filter, isXML, parts)))
    ensures var steps := StepsOf(d, filter, isXML, parts);
            Kept(d, context, steps, candidates) == Matching(d, context, steps, candidates)
  {
    if candidates != [] {
      var n := |candidates| - 1;
      KeptIsMatching(d, filter, isXML, parts, context, candidates[..n]);
      KeptExactlyWhen(d, filter, isXML, parts, context, candidates[n]);
    }
  }

  function CombsOf(parts: seq<Part>): seq<Comb> {
    seq(|parts|, i requires 0 <= i < |parts| => parts[i].comb)
  }

  lemma {:induction false} CombsOfSteps(d: Document, filter: Filter, isXML: bool, parts: seq<Part>)
    ensures Combs(StepsOf(d, filter, isXML, parts)) == CombsOf(parts)
  {
  }

  predicate AllIn(d: Document, candidates: seq<nat>) {
    forall k :: 0 <= k < |candidates| ==> candidates[k] < |d|
  }

  lemma KeptOne(d: Document, context: Context, steps: seq<Step>, c: nat)
    requires WellFormed(d) && c < |d|
    ensures Kept(d, context, steps, [c]) == if Keeps(d, context, Fold(d, steps, Elem(c))) then [c] else []
    ensures Matching(d, context, steps, [c]) == if HasChain(d, context, steps, c) then [c] else []
  {
    assert [c][..0] == [];
  }
}
