/**
 Several threads sharing one queue of queue.cc, at the grain of single C
 statements.  The heap is explicit: a cell that is not allocated must not be
 read or written.  Only the mutex keeps the statements of one critical section
 together, so everything below rests on it.
 */
module QueueThreads {
  import opened Wrappers
  import opened Deque

  type Addr = nat
  // void *: the queue never looks inside its items
  type Item = nat

  /** queue_node */
  datatype Cell = Cell(node: Item, next: Option<Addr>)

  /** The fields of `queue` that the mutex protects, and the cells. */
  datatype Shared = Shared(
    heap: map<Addr, Cell>,
    head: Option<Addr>,
    tail: Option<Addr>,
    num: int,
    totalIn: int,
    totalOut: int)

  /** The next statement of the critical section. */
  datatype Pc =
      // queue_put_safe
    | PutMalloc | PutNode | PutNext | PutLink | PutTail | PutHeadIfNull
      // queue_put_head_safe
    | FrontMalloc | FrontNode | FrontNext | FrontLink | FrontHead | FrontTailIfNull
      // the counters of both
    | CountIn | CountUp
      // __queue_get_safe
    | GetHead | GetNode | GetCompare | GetClearTail | GetClearHead | GetAdvance
    | GetFree | CountOut | CountDown | AuditStart | AuditLoop
      // pthread_mutex_unlock
    | Unlock

  /**
   The local variables of a critical section.  `alloc` is malloc's answer: null,
   or a free address with whatever the memory there holds.
   */
  datatype Frame = Frame(
    op: Op<Item>,
    alloc: Option<(Addr, Cell)>,
    pc: Pc,
    tmp: Option<Addr>,
    answer: Ret<Item>,
    count: int,
    expected: int)

  function Enter(op: Op<Item>, alloc: Option<(Addr, Cell)>): Frame {
    var pc := match op
      case Put(_, _) => PutMalloc
      case PutHead(_, _) => FrontMalloc
      case Get => GetHead;
    Frame(op, alloc, pc, None, if op.Get? then Item(None) else Code(1), 0, 0)
  }

  predicate Allocated(sh: Shared, p: Option<Addr>) {
    p.Some? && p.value in sh.heap
  }

  /** One statement; None when it uses a null or dangling pointer. */
  function MicroStep(sh: Shared, fr: Frame): Option<(Shared, Frame)> {
    match fr.pc
    case PutMalloc => Malloc(sh, fr, PutNode)
    case PutNode => SetNode(sh, fr, PutNext)
    case PutNext => SetNext(sh, fr, None, PutLink)
    case PutLink =>
      if sh.tail.None? then Some((sh, fr.(pc := PutTail)))
      else if !Allocated(sh, sh.tail) then None
      else
        var t := sh.tail.value;
        Some((sh.(heap := sh.heap[t := sh.heap[t].(next := fr.tmp)]), fr.(pc := PutTail)))
    case PutTail => Some((sh.(tail := fr.tmp), fr.(pc := PutHeadIfNull)))
    case PutHeadIfNull =>
      Some((if sh.head.None? then sh.(head := fr.tmp) else sh, fr.(pc := CountIn)))

    case FrontMalloc => Malloc(sh, fr, FrontNode)
    case FrontNode => SetNode(sh, fr, FrontNext)
    case FrontNext => SetNext(sh, fr, None, FrontLink)
    case FrontLink =>
      if sh.head.None? then Some((sh, fr.(pc := FrontHead))) else SetNext(sh, fr, sh.head, FrontHead)
    case FrontHead => Some((sh.(head := fr.tmp), fr.(pc := FrontTailIfNull)))
    case FrontTailIfNull =>
      Some((if sh.tail.None? then sh.(tail := fr.tmp) else sh, fr.(pc := CountIn)))

    case CountIn => Some((sh.(totalIn := sh.totalIn + 1), fr.(pc := CountUp)))
    case CountUp => Some((sh.(num := sh.num + 1), fr.(pc := Unlock)))

    case GetHead =>
      Some((sh, fr.(tmp := sh.head, pc := if sh.head.None? then Unlock else GetNode)))
    case GetNode =>
      if !Allocated(sh, fr.tmp) then None
      else Some((sh, fr.(answer := Item(Some(sh.heap[fr.tmp.value].node)), pc := GetCompare)))
    case GetCompare =>
      Some((sh, fr.(pc := if sh.head == sh.tail then GetClearTail else GetAdvance)))
    case GetClearTail => Some((sh.(tail := None), fr.(pc := GetClearHead)))
    case GetClearHead => Some((sh.(head := None), fr.(pc := GetFree)))
    case GetAdvance =>
      if !Allocated(sh, sh.head) then None
      else Some((sh.(head := sh.heap[sh.head.value].next), fr.(pc := GetFree)))
    case GetFree =>
      if !Allocated(sh, fr.tmp) then None
      else Some((sh.(heap := sh.heap - {fr.tmp.value}), fr.(pc := CountOut)))
    case CountOut => Some((sh.(totalOut := sh.totalOut + 1), fr.(pc := CountDown)))
    case CountDown => Some((sh.(num := sh.num - 1), fr.(pc := AuditStart)))
    case AuditStart =>
      Some((sh, fr.(tmp := sh.head, count := 0, expected := sh.totalIn - sh.totalOut, pc := AuditLoop)))
    case AuditLoop =>
      if fr.tmp.None? then Some((sh, fr.(pc := Unlock)))
      else if !Allocated(sh, fr.tmp) then None
      else Some((sh, fr.(tmp := sh.heap[fr.tmp.value].next, count := fr.count + 1)))
    case Unlock => None
  }

  function Malloc(sh: Shared, fr: Frame, next: Pc): Option<(Shared, Frame)> {
    match fr.alloc
    case None => Some((sh, fr.(answer := Code(0), pc := Unlock)))
    case Some((a, garbage)) =>
      Some((sh.(heap := sh.heap[a := garbage]), fr.(tmp := Some(a), pc := next)))
  }

  function SetNode(sh: Shared, fr: Frame, next: Pc): Option<(Shared, Frame)> {
    if !Allocated(sh, fr.tmp) || fr.op.Get? then None
    else
      var a := fr.tmp.value;
      Some((sh.(heap := sh.heap[a := sh.heap[a].(node := fr.op.x)]), fr.(pc := next)))
  }

  function SetNext(sh: Shared, fr: Frame, p: Option<Addr>, next: Pc): Option<(Shared, Frame)> {
    if !Allocated(sh, fr.tmp) then None
    else
      var a := fr.tmp.value;
      Some((sh.(heap := sh.heap[a := sh.heap[a].(next := p)]), fr.(pc := next)))
  }

  /** The critical section run on its own for at most `k` statements, up to the unlock. */
  function RunSolo(k: nat, sh: Shared, fr: Frame): Option<(Shared, Frame)> {
    if fr.pc == Unlock then Some((sh, fr))
    else if k == 0 then None
    else
      match MicroStep(sh, fr)
      case None => None
      case Some((sh', fr')) => RunSolo(k - 1, sh', fr')
  }

  // ---------------------------------------------------------------------
  // The list

  function NextOf(spine: seq<Addr>, i: nat): Option<Addr> {
    if i + 1 < |spine| then Some(spine[i + 1]) else None
  }

  /**
   The cells of `spine`, and no others, are allocated; they are linked from head
   to tail and carry `c`.
   */
  ghost predicate IsList(sh: Shared, spine: seq<Addr>, c: seq<Item>) {
    && |spine| == |c|
    && sh.num == |c| == sh.totalIn - sh.totalOut
    && sh.head == (if spine == [] then None else Some(spine[0]))
    && sh.tail == (if spine == [] then None else Some(spine[|spine| - 1]))
    && (forall i, j :: 0 <= i < j < |spine| ==> spine[i] != spine[j])
    && (forall a :: a in sh.heap <==> a in spine)
    && (forall i {:trigger NextOf(spine, i)} :: 0 <= i < |spine| ==> sh.heap[spine[i]] == Cell(c[i], NextOf(spine, i)))
  }

  ghost predicate Holds(sh: Shared, c: seq<Item>) {
    exists spine :: IsList(sh, spine, c)
  }

  // ---------------------------------------------------------------------
  // A critical section on its own

  /** `k` statements take the critical section to its unlock, with the list holding `c` and `r` returned. */
  ghost predicate Finishes(k: nat, sh: Shared, fr: Frame, c: seq<Item>, r: Ret<Item>) {
    var out := RunSolo(k, sh, fr);
    out.Some? && Holds(out.value.0, c) && out.value.1.answer == r
  }

  ghost predicate WillFinish(sh: Shared, fr: Frame, c: seq<Item>, r: Ret<Item>) {
    exists k: nat :: Finishes(k, sh, fr, c, r)
  }

  ghost predicate AllocFits(sh: Shared, op: Op<Item>, alloc: Option<(Addr, Cell)>) {
    && (alloc.Some? ==> alloc.value.0 !in sh.heap)
    && (alloc.Some? <==> !op.Get? && op.ok)
  }

  /** The queue after `put` has linked the cell at `a` behind the list. */
  function Appended(sh: Shared, a: Addr, x: Item): Shared
    requires sh.tail.Some? ==> sh.tail.value in sh.heap
  {
    var heap := sh.heap[a := Cell(x, None)];
    Shared(
      if sh.tail.None? then heap else heap[sh.tail.value := heap[sh.tail.value].(next := Some(a))],
      if sh.head.None? then Some(a) else sh.head, Some(a),
      sh.num + 1, sh.totalIn + 1, sh.totalOut)
  }

  lemma {:induction false} AppendedIsList(sh: Shared, spine: seq<Addr>, c: seq<Item>, a: Addr, x: Item)
    requires IsList(sh, spine, c) && a !in sh.heap
    ensures IsList(Appended(sh, a, x), spine + [a], c + [x])
  {
    var spine' := spine + [a];
    var sh' := Appended(sh, a, x);
    forall i {:trigger NextOf(spine', i)} | 0 <= i < |spine'|
      ensures sh'.heap[spine'[i]] == Cell((c + [x])[i], NextOf(spine', i))
    {
      if i < |spine| {
        assert spine[i] in sh.heap;
        assert sh.heap[spine[i]] == Cell(c[i], NextOf(spine, i));
      }
    }
  }

  /** One statement in front of a run. */
  lemma Before(k: nat, sh: Shared, fr: Frame, sh': Shared, fr': Frame)
    requires fr.pc != Unlock && MicroStep(sh, fr) == Some((sh', fr'))
    ensures RunSolo(k + 1, sh, fr) == RunSolo(k, sh', fr')
  {
  }

  /** malloc and the two initialising stores, the same for both kinds of put. */
  lemma FillRuns(k: nat, sh: Shared, op: Op<Item>, alloc: Option<(Addr, Cell)>)
    requires !op.Get? && alloc.Some?
    ensures RunSolo(k + 3, sh, Enter(op, alloc))
         == RunSolo(k, sh.(heap := sh.heap[alloc.value.0 := Cell(op.x, None)]),
                    Enter(op, alloc).(tmp := Some(alloc.value.0), pc := if op.Put? then PutLink else FrontLink))
  {
    var f0, a := Enter(op, alloc), alloc.value.0;
    var f1 := f0.(tmp := Some(a), pc := if op.Put? then PutNode else FrontNode);
    var f2 := f1.(pc := if op.Put? then PutNext else FrontNext);
    var f3 := f1.(pc := if op.Put? then PutLink else FrontLink);
    var s1 := sh.(heap := sh.heap[a := alloc.value.1]);
    var s2 := s1.(heap := s1.heap[a := s1.heap[a].(node := op.x)]);
    var s3 := s2.(heap := s2.heap[a := s2.heap[a].(next := None)]);
    assert s3.heap == sh.heap[a := Cell(op.x, None)];
    Before(k + 2, sh, f0, s1, f1);
    Before(k + 1, s1, f1, s2, f2);
    Before(k, s2, f2, s3, f3);
  }

  /** The two counters, the same for both kinds of put. */
  lemma CountersRun(k: nat, sh: Shared, fr: Frame)
    requires fr.pc == CountIn
    ensures RunSolo(k + 2, sh, fr)
         == Some((sh.(totalIn := sh.totalIn + 1, num := sh.num + 1), fr.(pc := Unlock)))
  {
    var s1 := sh.(totalIn := sh.totalIn + 1);
    Before(k + 1, sh, fr, s1, fr.(pc := CountUp));
    Before(k, s1, fr.(pc := CountUp), s1.(num := s1.num + 1), fr.(pc := Unlock));
  }

  /** The three stores that hang the new cell behind the list. */
  lemma LinkRuns(k: nat, sh: Shared, sh': Shared, fr: Frame)
    requires fr.pc == PutLink && (sh.tail.Some? ==> Allocated(sh, sh.tail))
    requires sh' == sh.(
               heap := if sh.tail.None? then sh.heap
                       else sh.heap[sh.tail.value := sh.heap[sh.tail.value].(next := fr.tmp)],
               tail := fr.tmp)
    ensures RunSolo(k + 3, sh, fr)
         == RunSolo(k, if sh.head.None? then sh'.(head := fr.tmp) else sh', fr.(pc := CountIn))
  {
    var s1 := sh.(heap := sh'.heap);
    Before(k + 2, sh, fr, s1, fr.(pc := PutTail));
    Before(k + 1, s1, fr.(pc := PutTail), sh', fr.(pc := PutHeadIfNull));
    Before(k, sh', fr.(pc := PutHeadIfNull),
           if sh.head.None? then sh'.(head := fr.tmp) else sh', fr.(pc := CountIn));
  }

  lemma PutRuns(sh: Shared, op: Op<Item>, alloc: Option<(Addr, Cell)>, k: nat)
    requires op.Put? && op.ok && AllocFits(sh, op, alloc)
    requires sh.tail.Some? ==> sh.tail.value in sh.heap
    ensures RunSolo(k + 6, sh, Enter(op, alloc))
         == RunSolo(k, Appended(sh, alloc.value.0, op.x).(num := sh.num, totalIn := sh.totalIn),
                    Enter(op, alloc).(tmp := Some(alloc.value.0), pc := CountIn))
  {
    var a := alloc.value.0;
    var fr := Enter(op, alloc).(tmp := Some(a), pc := PutLink);
    var s1 := sh.(heap := sh.heap[a := Cell(op.x, None)]);
    var s2 := sh.(heap := Appended(sh, a, op.x).heap, tail := Some(a));
    FillRuns(k + 3, sh, op, alloc);
    LinkRuns(k, s1, s2, fr);
  }

  /** The queue after `put_head` has linked the cell at `a` in front of the list. */
  function Prepended(sh: Shared, a: Addr, x: Item): Shared {
    var heap := sh.heap[a := Cell(x, None)];
    Shared(heap[a := heap[a].(next := sh.head)], Some(a), if sh.tail.None? then Some(a) else sh.tail,
           sh.num + 1, sh.totalIn + 1, sh.totalOut)
  }

  lemma {:induction false} PrependedIsList(sh: Shared, spine: seq<Addr>, c: seq<Item>, a: Addr, x: Item)
    requires IsList(sh, spine, c) && a !in sh.heap
    ensures IsList(Prepended(sh, a, x), [a] + spine, [x] + c)
  {
    var spine' := [a] + spine;
    var sh' := Prepended(sh, a, x);
    forall i {:trigger NextOf(spine', i)} | 0 <= i < |spine'|
      ensures sh'.heap[spine'[i]] == Cell(([x] + c)[i], NextOf(spine', i))
    {
      if i > 0 {
        assert spine[i - 1] in sh.heap;
        assert sh.heap[spine[i - 1]] == Cell(c[i - 1], NextOf(spine, i - 1));
      }
    }
  }

  /** The three stores that hang the new cell in front of the list. */
  lemma FrontLinkRuns(k: nat, sh: Shared, sh': Shared, fr: Frame)
    requires fr.pc == FrontLink && Allocated(sh, fr.tmp) && sh.heap[fr.tmp.value].next == None
    requires sh' == sh.(
               heap := sh.heap[fr.tmp.value := sh.heap[fr.tmp.value].(next := sh.head)],
               head := fr.tmp)
    ensures RunSolo(k + 3, sh, fr)
         == RunSolo(k, if sh.tail.None? then sh'.(tail := fr.tmp) else sh', fr.(pc := CountIn))
  {
    var s1 := sh.(heap := sh'.heap);
    assert sh.head.None? ==> s1.heap == sh.heap;
    Before(k + 2, sh, fr, s1, fr.(pc := FrontHead));
    Before(k + 1, s1, fr.(pc := FrontHead), sh', fr.(pc := FrontTailIfNull));
    Before(k, sh', fr.(pc := FrontTailIfNull),
           if sh.tail.None? then sh'.(tail := fr.tmp) else sh', fr.(pc := CountIn));
  }

  lemma PutHeadRuns(sh: Shared, op: Op<Item>, alloc: Option<(Addr, Cell)>, k: nat)
    requires op.PutHead? && op.ok && AllocFits(sh, op, alloc)
    ensures RunSolo(k + 6, sh, Enter(op, alloc))
         == RunSolo(k, Prepended(sh, alloc.value.0, op.x).(num := sh.num, totalIn := sh.totalIn),
                    Enter(op, alloc).(tmp := Some(alloc.value.0), pc := CountIn))
  {
    var a := alloc.value.0;
    var fr := Enter(op, alloc).(tmp := Some(a), pc := FrontLink);
    var s1 := sh.(heap := sh.heap[a := Cell(op.x, None)]);
    var s2 := sh.(heap := Prepended(sh, a, op.x).heap, head := Some(a));
    FillRuns(k + 3, sh, op, alloc);
    FrontLinkRuns(k, s1, s2, fr);
  }

  /** The queue after `get` has unlinked and freed the first cell. */
  function Removed(sh: Shared): Shared
    requires Allocated(sh, sh.head)
  {
    var a := sh.head.value;
    if sh.head == sh.tail then Shared(sh.heap - {a}, None, None, sh.num - 1, sh.totalIn, sh.totalOut + 1)
    else Shared(sh.heap - {a}, sh.heap[a].next, sh.tail, sh.num - 1, sh.totalIn, sh.totalOut + 1)
  }

  lemma {:induction false} RemovedIsList(sh: Shared, spine: seq<Addr>, c: seq<Item>)
    requires IsList(sh, spine, c) && c != []
    ensures Allocated(sh, sh.head) && IsList(Removed(sh), spine[1..], c[1..])
  {
    var spine' := spine[1..];
    assert spine[0] in sh.heap;
    var sh' := Removed(sh);
    assert sh.heap[spine[0]] == Cell(c[0], NextOf(spine, 0));
    forall a ensures a in sh'.heap <==> a in spine' {
      if a in spine' {
        assert a in spine;
      } else if a in spine {
        assert a == spine[0];
      }
    }
    forall i {:trigger NextOf(spine', i)} | 0 <= i < |spine'|
      ensures sh'.heap[spine'[i]] == Cell(c[1..][i], NextOf(spine', i))
    {
      assert spine[i + 1] in sh.heap;
      assert sh.heap[spine[i + 1]] == Cell(c[i + 1], NextOf(spine, i + 1));
    }
  }

  /**
   The audit loop of __queue_get_safe walks a list to its end: it terminates, uses
   no dangling pointer, and its count equals the difference of the counters.
   */
  lemma {:induction false} AuditRuns(sh: Shared, spine: seq<Addr>, c: seq<Item>, fr: Frame)
    requires IsList(sh, spine, c)
    requires fr.pc == AuditLoop && 0 <= fr.count <= |spine|
    requires fr.tmp == if fr.count < |spine| then Some(spine[fr.count]) else None
    ensures RunSolo(|spine| - fr.count + 1, sh, fr)
         == Some((sh, fr.(tmp := None, count := sh.totalIn - sh.totalOut, pc := Unlock)))
    decreases |spine| - fr.count
  {
    if fr.count == |spine| {
      Before(0, sh, fr, sh, fr.(pc := Unlock));
    } else {
      assert spine[fr.count] in sh.heap;
      assert sh.heap[spine[fr.count]] == Cell(c[fr.count], NextOf(spine, fr.count));
      var fr' := fr.(tmp := NextOf(spine, fr.count), count := fr.count + 1);
      Before(|spine| - fr.count, sh, fr, sh, fr');
      AuditRuns(sh, spine, c, fr');
    }
  }

  /** The free and the two counters. */
  lemma FreeRuns(k: nat, sh: Shared, sh': Shared, fr: Frame)
    requires fr.pc == GetFree && Allocated(sh, fr.tmp)
    requires sh' == sh.(heap := sh.heap - {fr.tmp.value}, totalOut := sh.totalOut + 1, num := sh.num - 1)
    ensures RunSolo(k + 3, sh, fr) == RunSolo(k, sh', fr.(pc := AuditStart))
  {
    var s1 := sh.(heap := sh.heap - {fr.tmp.value});
    var s2 := s1.(totalOut := s1.totalOut + 1);
    Before(k + 2, sh, fr, s1, fr.(pc := CountOut));
    Before(k + 1, s1, fr.(pc := CountOut), s2, fr.(pc := CountDown));
    Before(k, s2, fr.(pc := CountDown), sh', fr.(pc := AuditStart));
  }

  /** The whole audit: what it counted is what the counters say. */
  lemma {:induction false} WholeAuditRuns(sh: Shared, spine: seq<Addr>, c: seq<Item>, fr: Frame)
    requires fr.pc == AuditStart && IsList(sh, spine, c)
    ensures RunSolo(|spine| + 2, sh, fr)
         == Some((sh, fr.(tmp := None, count := sh.totalIn - sh.totalOut,
                          expected := sh.totalIn - sh.totalOut, pc := Unlock)))
  {
    var fr' := fr.(tmp := sh.head, count := 0, expected := sh.totalIn - sh.totalOut, pc := AuditLoop);
    Before(|spine| + 1, sh, fr, sh, fr');
    AuditRuns(sh, spine, c, fr');
  }

  /** From the lock to the comparison: the head is read. */
  lemma LoadRuns(k: nat, sh: Shared, x: Item)
    requires Allocated(sh, sh.head) && sh.heap[sh.head.value].node == x
    ensures RunSolo(k + 2, sh, Enter(Get, None))
         == RunSolo(k, sh, Enter(Get, None).(tmp := sh.head, answer := Item(Some(x)), pc := GetCompare))
  {
    var f0 := Enter(Get, None);
    var f1 := f0.(tmp := sh.head, pc := GetNode);
    Before(k, sh, f1, sh, f1.(answer := Item(Some(x)), pc := GetCompare));
    Before(k + 1, sh, f0, sh, f1);
  }

  /** From the comparison to the free: the only cell is unlinked. */
  lemma UnlinkOnlyRuns(k: nat, sh: Shared, fr: Frame)
    requires sh.head == sh.tail && fr.pc == GetCompare
    ensures RunSolo(k + 3, sh, fr) == RunSolo(k, sh.(head := None, tail := None), fr.(pc := GetFree))
  {
    var s1 := sh.(tail := None);
    Before(k, s1, fr.(pc := GetClearHead), s1.(head := None), fr.(pc := GetFree));
    Before(k + 1, sh, fr.(pc := GetClearTail), s1, fr.(pc := GetClearHead));
    Before(k + 2, sh, fr, sh, fr.(pc := GetClearTail));
  }

  /** From the comparison to the free: the first of several cells is unlinked. */
  lemma UnlinkFirstRuns(k: nat, sh: Shared, fr: Frame)
    requires Allocated(sh, sh.head) && sh.head != sh.tail && fr.pc == GetCompare
    ensures RunSolo(k + 2, sh, fr)
         == RunSolo(k, sh.(head := sh.heap[sh.head.value].next), fr.(pc := GetFree))
  {
    Before(k, sh, fr.(pc := GetAdvance), sh.(head := sh.heap[sh.head.value].next), fr.(pc := GetFree));
    Before(k + 1, sh, fr, sh, fr.(pc := GetAdvance));
  }

  lemma {:induction false} GetFinishes(sh: Shared, spine: seq<Addr>, c: seq<Item>)
    requires IsList(sh, spine, c) && c != []
    ensures WillFinish(sh, Enter(Get, None), c[1..], Item(Some(c[0])))
  {
    RemovedIsList(sh, spine, c);
    assert sh.heap[spine[0]] == Cell(c[0], NextOf(spine, 0));
    var s1 := sh.(head := Removed(sh).head, tail := Removed(sh).tail);
    var fr := Enter(Get, None).(tmp := sh.head, answer := Item(Some(c[0])), pc := GetCompare);
    var n := |spine[1..]| + 2;
    WholeAuditRuns(Removed(sh), spine[1..], c[1..], fr.(pc := AuditStart));
    FreeRuns(n, s1, Removed(sh), fr.(pc := GetFree));
    n := n + 3;
    if sh.head == sh.tail {
      UnlinkOnlyRuns(n, sh, fr);
      n := n + 3;
    } else {
      UnlinkFirstRuns(n, sh, fr);
      n := n + 2;
    }
    LoadRuns(n, sh, c[0]);
    assert Finishes(n + 2, sh, Enter(Get, None), c[1..], Item(Some(c[0])));
  }

  /** A put from the lock to the unlock. */
  lemma WholePutRuns(k: nat, sh: Shared, op: Op<Item>, alloc: Option<(Addr, Cell)>)
    requires op.Put? && op.ok && AllocFits(sh, op, alloc)
    requires sh.tail.Some? ==> sh.tail.value in sh.heap
    ensures RunSolo(k + 8, sh, Enter(op, alloc))
         == Some((Appended(sh, alloc.value.0, op.x), Enter(op, alloc).(tmp := Some(alloc.value.0), pc := Unlock)))
  {
    var sh' := Appended(sh, alloc.value.0, op.x).(num := sh.num, totalIn := sh.totalIn);
    PutRuns(sh, op, alloc, k + 2);
    CountersRun(k, sh', Enter(op, alloc).(tmp := Some(alloc.value.0), pc := CountIn));
  }

  /** A put_head from the lock to the unlock. */
  lemma WholePutHeadRuns(k: nat, sh: Shared, op: Op<Item>, alloc: Option<(Addr, Cell)>)
    requires op.PutHead? && op.ok && AllocFits(sh, op, alloc)
    ensures RunSolo(k + 8, sh, Enter(op, alloc))
         == Some((Prepended(sh, alloc.value.0, op.x), Enter(op, alloc).(tmp := Some(alloc.value.0), pc := Unlock)))
  {
    var sh' := Prepended(sh, alloc.value.0, op.x).(num := sh.num, totalIn := sh.totalIn);
    PutHeadRuns(sh, op, alloc, k + 2);
    CountersRun(k, sh', Enter(op, alloc).(tmp := Some(alloc.value.0), pc := CountIn));
  }

  lemma {:induction false} RunFinishes(k: nat, sh: Shared, fr: Frame, sh': Shared, fr': Frame,
                                       spine: seq<Addr>, c: seq<Item>)
    requires RunSolo(k, sh, fr) == Some((sh', fr')) && IsList(sh', spine, c)
    ensures WillFinish(sh, fr, c, fr'.answer)
  {
    assert Finishes(k, sh, fr, c, fr'.answer);
  }

  lemma {:induction false} PutFinishes(k: nat, sh: Shared, spine: seq<Addr>, c: seq<Item>,
                                       op: Op<Item>, alloc: Option<(Addr, Cell)>)
    requires IsList(sh, spine, c) && !op.Get? && op.ok && AllocFits(sh, op, alloc)
    ensures WillFinish(sh, Enter(op, alloc), Apply(c, op), Code(1))
  {
    var a, fr := alloc.value.0, Enter(op, alloc);
    var fr' := fr.(tmp := Some(a), pc := Unlock);
    if op.Put? {
      assert spine != [] ==> spine[|spine| - 1] in sh.heap;
      WholePutRuns(k, sh, op, alloc);
      AppendedIsList(sh, spine, c, a, op.x);
      RunFinishes(k + 8, sh, fr, Appended(sh, a, op.x), fr', spine + [a], c + [op.x]);
    } else {
      WholePutHeadRuns(k, sh, op, alloc);
      PrependedIsList(sh, spine, c, a, op.x);
      RunFinishes(k + 8, sh, fr, Prepended(sh, a, op.x), fr', [a] + spine, [op.x] + c);
    }
  }

  /** Run on its own, a critical section does to the list what the sequential operation does. */
  lemma {:induction false} SectionFinishes(sh: Shared, c: seq<Item>, op: Op<Item>, alloc: Option<(Addr, Cell)>)
    requires Holds(sh, c) && AllocFits(sh, op, alloc)
    ensures WillFinish(sh, Enter(op, alloc), Apply(c, op), Result(c, op))
  {
    var spine :| IsList(sh, spine, c);
    var f0 := Enter(op, alloc);
    if op.Get? && c != [] {
      GetFinishes(sh, spine, c);
    } else if op.Get? {
      Before(0, sh, f0, sh, f0.(pc := Unlock));
      assert Finishes(1, sh, f0, Apply(c, op), Result(c, op));
    } else if !op.ok {
      Before(0, sh, f0, sh, f0.(answer := Code(0), pc := Unlock));
      assert Finishes(1, sh, f0, Apply(c, op), Result(c, op));
    } else {
      PutFinishes(0, sh, spine, c, op, alloc);
    }
  }

  // ---------------------------------------------------------------------
  // The threads

  datatype ThreadState =
    | Idle
    | Wants(op: Op<Item>, blocking: bool)
    | Inside(fr: Frame)

  /** An operation in the order in which the mutex was taken, and what it returned. */
  datatype Call = Call(tid: nat, op: Op<Item>)
  datatype Reply = Reply(tid: nat, ret: Ret<Item>)
  // an operation that gave up because the mutex was taken
  datatype Refusal = Refusal(tid: nat, op: Op<Item>, ret: Ret<Item>)

  datatype System = System(
    sh: Shared,
    owner: Option<nat>,
    threads: map<nat, ThreadState>,
    crashed: bool,
    log: seq<Call>,
    replies: seq<Reply>,
    refused: seq<Refusal>)

  datatype Step =
    | Begin(tid: nat, op: Op<Item>, blocking: bool)
    | Lock(tid: nat, alloc: Option<(Addr, Cell)>)
    | Refuse(tid: nat)
    | Statement(tid: nat)
    | Release(tid: nat)

  predicate IsInit(s: System) {
    && s.sh == Shared(map[], None, None, 0, 0, 0)
    && s.owner.None? && !s.crashed
    && s.log == [] && s.replies == [] && s.refused == []
    && (forall t :: t in s.threads ==> s.threads[t] == Idle)
  }

  /**
   When a step can happen.  A thread inside its critical section can execute its
   next statement whoever owns the mutex: that it is the owner is proved, not assumed.
   */
  ghost predicate Enabled(s: System, step: Step) {
    && !s.crashed
    && step.tid in s.threads
    && var th := s.threads[step.tid];
    match step
    case Begin(_, _, _) => th.Idle?
    case Lock(_, alloc) => th.Wants? && s.owner.None? && AllocFits(s.sh, th.op, alloc)
    case Refuse(_) => th.Wants? && !th.blocking && s.owner.Some?
    case Statement(_) => th.Inside? && th.fr.pc != Unlock
    case Release(_) => th.Inside? && th.fr.pc == Unlock
  }

  ghost function Do(s: System, step: Step): System
    requires Enabled(s, step)
  {
    var t := step.tid;
    var th := s.threads[t];
    match step
    case Begin(_, op, blocking) => s.(threads := s.threads[t := Wants(op, blocking)])
    case Lock(_, alloc) =>
      s.(owner := Some(t), threads := s.threads[t := Inside(Enter(th.op, alloc))], log := s.log + [Call(t, th.op)])
    case Refuse(_) =>
      s.(threads := s.threads[t := Idle], refused := s.refused + [Refusal(t, th.op, BusyResult(th.op))])
    case Statement(_) =>
      (match MicroStep(s.sh, th.fr)
       case None => s.(crashed := true)
       case Some((sh', fr')) => s.(sh := sh', threads := s.threads[t := Inside(fr')]))
    case Release(_) =>
      s.(owner := None, threads := s.threads[t := Idle], replies := s.replies + [Reply(t, th.fr.answer)])
  }

  /** `states` is a run of the threads taking `steps`, interleaved in any way. */
  ghost predicate IsRun(states: seq<System>, steps: seq<Step>) {
    && |states| == |steps| + 1
    && IsInit(states[0])
    && forall i :: 0 <= i < |steps| ==> Enabled(states[i], steps[i]) && states[i + 1] == Do(states[i], steps[i])
  }

  function Ops(log: seq<Call>): seq<Op<Item>> {
    seq(|log|, i requires 0 <= i < |log| => log[i].op)
  }

  lemma {:induction false} OpsAppend(log: seq<Call>, c: Call)
    ensures Ops(log + [c]) == Ops(log) + [c.op]
    ensures Replay(Ops(log + [c])) == Apply(Replay(Ops(log)), c.op)
    ensures Answer(Ops(log + [c]), |log|) == Result(Replay(Ops(log)), c.op)
    ensures forall j :: 0 <= j < |log| ==> Answer(Ops(log + [c]), j) == Answer(Ops(log), j)
  {
    var ops := Ops(log + [c]);
    assert ops == Ops(log) + [c.op];
    assert ops[..|ops| - 1] == Ops(log);
    forall j | 0 <= j < |log| ensures Answer(ops, j) == Answer(Ops(log), j) {
      assert ops[..j] == Ops(log)[..j];
    }
  }

  ghost predicate RepliesAgree(log: seq<Call>, replies: seq<Reply>) {
    && |replies| <= |log|
    && forall j :: 0 <= j < |replies| ==> replies[j] == Reply(log[j].tid, Answer(Ops(log), j))
  }

  predicate RefusalsAreBusy(refused: seq<Refusal>) {
    forall j :: 0 <= j < |refused| ==> refused[j].ret == BusyResult(refused[j].op)
  }

  ghost predicate OwnerWillFinish(s: System)
    requires s.owner.Some? && s.owner.value in s.threads && s.threads[s.owner.value].Inside? && s.log != []
  {
    WillFinish(s.sh, s.threads[s.owner.value].fr, Replay(Ops(s.log)), Answer(Ops(s.log), |s.log| - 1))
  }

  /**
   Whoever owns the mutex would, if left alone, finish its section with the list
   and the answer of the sequential operation.  No other thread can disturb that,
   because no other thread is inside a section.
   */
  ghost predicate Inv(s: System) {
    && !s.crashed
    && (forall t :: t in s.threads && s.threads[t].Inside? ==> s.owner == Some(t))
    && RepliesAgree(s.log, s.replies) && RefusalsAreBusy(s.refused)
    && match s.owner
       case None => |s.log| == |s.replies| && Holds(s.sh, Replay(Ops(s.log)))
       case Some(t) =>
         && t in s.threads && s.threads[t].Inside?
         && |s.log| == |s.replies| + 1 && s.log[|s.log| - 1].tid == t
         && OwnerWillFinish(s)
  }

  lemma {:induction false} EmptyIsList(sh: Shared, c: seq<Item>)
    requires sh == Shared(map[], None, None, 0, 0, 0) && c == []
    ensures Holds(sh, c)
  {
    var spine: seq<Addr> := [];
    assert IsList(sh, spine, c);
  }

  lemma InitInv(s: System)
    requires IsInit(s)
    ensures Inv(s)
  {
    assert Ops(s.log) == [];
    EmptyIsList(s.sh, Replay(Ops(s.log)));
  }

  lemma LockInv(s: System, step: Step)
    requires Inv(s) && Enabled(s, step) && step.Lock?
    ensures Inv(Do(s, step))
  {
    var op := s.threads[step.tid].op;
    var c := Replay(Ops(s.log));
    SectionFinishes(s.sh, c, op, step.alloc);
    OpsAppend(s.log, Call(step.tid, op));
    var s' := Do(s, step);
    var k: nat :| Finishes(k, s.sh, Enter(op, step.alloc), Apply(c, op), Result(c, op));
    assert Finishes(k, s'.sh, s'.threads[step.tid].fr, Replay(Ops(s'.log)), Answer(Ops(s'.log), |s'.log| - 1));
  }

  lemma StatementInv(s: System, step: Step)
    requires Inv(s) && Enabled(s, step) && step.Statement?
    ensures Inv(Do(s, step))
  {
    var fr := s.threads[step.tid].fr;
    var c, r := Replay(Ops(s.log)), Answer(Ops(s.log), |s.log| - 1);
    var k: nat :| Finishes(k, s.sh, fr, c, r);
    var s' := Do(s, step);
    assert k > 0 && MicroStep(s.sh, fr).Some?;
    assert Finishes(k - 1, s'.sh, s'.threads[step.tid].fr, c, r);
  }

  lemma ReleaseInv(s: System, step: Step)
    requires Inv(s) && Enabled(s, step) && step.Release?
    ensures Inv(Do(s, step))
  {
    var fr := s.threads[step.tid].fr;
    var c, r := Replay(Ops(s.log)), Answer(Ops(s.log), |s.log| - 1);
    var k: nat :| Finishes(k, s.sh, fr, c, r);
    assert RunSolo(k, s.sh, fr) == Some((s.sh, fr));
  }

  lemma StepInv(s: System, step: Step)
    requires Inv(s) && Enabled(s, step)
    ensures Inv(Do(s, step))
  {
    match step
    case Begin(_, _, _) =>
      BeginInv(s, step);
    case Lock(_, _) => LockInv(s, step);
    case Refuse(_) => BeginInv(s, step);
    case Statement(_) => StatementInv(s, step);
    case Release(_) => ReleaseInv(s, step);
  }

  lemma BeginInv(s: System, step: Step)
    requires Inv(s) && Enabled(s, step) && (step.Begin? || step.Refuse?)
    ensures Inv(Do(s, step))
  {
    var s' := Do(s, step);
    if s.owner.Some? {
      var t := s.owner.value;
      var k: nat :| Finishes(k, s.sh, s.threads[t].fr, Replay(Ops(s.log)), Answer(Ops(s.log), |s.log| - 1));
      assert Finishes(k, s'.sh, s'.threads[t].fr, Replay(Ops(s'.log)), Answer(Ops(s'.log), |s'.log| - 1));
    }
  }

  lemma {:induction false} RunInv(states: seq<System>, steps: seq<Step>, i: nat)
    requires IsRun(states, steps) && i < |states|
    ensures Inv(states[i])
  {
    if i == 0 {
      InitInv(states[0]);
    } else {
      RunInv(states, steps, i - 1);
      StepInv(states[i - 1], steps[i - 1]);
    }
  }

  /**
   In every state of every interleaving: no statement used a dangling pointer; at
   most one thread is inside a critical section; every answer given so far is the
   one of the sequential queue run in the order of locking; an operation that gave up
   was told that the mutex is taken and is not among these; and when the mutex is free
   the cells form a list that holds exactly that queue's contents.
   */
  lemma {:induction false} Linearizable(states: seq<System>, steps: seq<Step>, i: nat)
    requires IsRun(states, steps) && i < |states|
    ensures var s := states[i];
            && !s.crashed
            && (forall t, u :: t in s.threads && u in s.threads && s.threads[t].Inside? && s.threads[u].Inside? ==>
                  t == u)
            && RepliesAgree(s.log, s.replies)
            && (forall j :: 0 <= j < |s.refused| ==>
                  s.refused[j].ret == if s.refused[j].op.Get? then Item(None) else Code(-1))
            && (s.owner.None? ==> |s.replies| == |s.log| && Holds(s.sh, Replay(Ops(s.log))))
  {
    RunInv(states, steps, i);
  }

  /**
   While the mutex is taken its owner can always go on, and within finitely many of
   its own statements it reaches the unlock with the right list and the right answer.
   */
  lemma {:induction false} OwnerReachesUnlock(states: seq<System>, steps: seq<Step>, i: nat) returns (k: nat)
    requires IsRun(states, steps) && i < |states| && states[i].owner.Some?
    ensures var s := states[i];
            && s.owner.value in s.threads && s.threads[s.owner.value].Inside? && s.log != []
            && Finishes(k, s.sh, s.threads[s.owner.value].fr, Replay(Ops(s.log)), Answer(Ops(s.log), |s.log| - 1))
  {
    RunInv(states, steps, i);
    var s := states[i];
    k :| Finishes(k, s.sh, s.threads[s.owner.value].fr, Replay(Ops(s.log)), Answer(Ops(s.log), |s.log| - 1));
  }

  /** There is always a free address. */
  lemma {:induction false} FreeAddress(used: set<Addr>) returns (a: Addr)
    ensures a !in used
  {
    a := Above(used);
  }

  lemma {:induction false} Above(used: set<Addr>) returns (a: Addr)
    ensures forall x :: x in used ==> x < a
  {
    if used == {} {
      a := 0;
    } else {
      var y :| y in used;
      var b := Above(used - {y});
      a := if b > y then b else y + 1;
      forall x | x in used ensures x < a {
        assert x == y || x in used - {y};
      }
    }
  }

  /** Whoever waits for a free mutex can take it, whatever the heap looks like. */
  lemma CanLock(s: System, t: nat) returns (step: Step)
    requires !s.crashed && t in s.threads && s.threads[t].Wants? && s.owner.None?
    ensures Enabled(s, step) && step.tid == t && step.Lock?
  {
    var op := s.threads[t].op;
    if op.Get? || !op.ok {
      step := Lock(t, None);
    } else {
      var a := FreeAddress(s.sh.heap.Keys);
      step := Lock(t, Some((a, Cell(0, None))));
    }
  }

  /**
   In every state of every interleaving, every thread can go on: it begins an operation,
   takes the mutex or gives up on it, or executes its next statement.  Only one that waits
   for the mutex has to wait for the owner, which can go on itself.
   */
  lemma NobodyIsStuck(states: seq<System>, steps: seq<Step>, i: nat, t: nat) returns (step: Step)
    requires IsRun(states, steps) && i < |states| && t in states[i].threads
    ensures var s := states[i];
            var th := s.threads[t];
            && Enabled(s, step)
            && (step.tid == t || (th.Wants? && th.blocking && s.owner == Some(step.tid) && step.tid in s.threads
                                  && s.threads[step.tid].Inside?))
            && (th.Idle? ==> step.Begin?) && (th.Inside? ==> step.Statement? || step.Release?)
            && (th.Wants? && s.owner.None? ==> step.Lock?)
            && (th.Wants? && s.owner.Some? && !th.blocking ==> step.Refuse?)
  {
    RunInv(states, steps, i);
    var s := states[i];
    match s.threads[t]
    case Idle => step := Begin(t, Get, true);
    case Wants(_, blocking) =>
      if s.owner.None? {
        step := CanLock(s, t);
      } else if !blocking {
        step := Refuse(t);
      } else {
        step := NextStatement(s, s.owner.value);
      }
    case Inside(_) => step := NextStatement(s, t);
  }

  lemma NextStatement(s: System, t: nat) returns (step: Step)
    requires !s.crashed && t in s.threads && s.threads[t].Inside?
    ensures Enabled(s, step) && step.tid == t && (step.Statement? || step.Release?)
  {
    step := if s.threads[t].fr.pc == Unlock then Release(t) else Statement(t);
  }

  /** A try-lock gives up only while another thread has the mutex, and blocking forms never do. */
  lemma RefusedOnlyWhenTaken(states: seq<System>, steps: seq<Step>, i: nat)
    requires IsRun(states, steps) && i < |steps| && steps[i].Refuse?
    ensures var s, t := states[i], steps[i].tid;
            && t in s.threads && s.threads[t].Wants? && !s.threads[t].blocking
            && s.owner.Some? && s.owner.value != t
            && states[i + 1].sh == s.sh && states[i + 1].log == s.log && states[i + 1].replies == s.replies
  {
    RunInv(states, steps, i);
    assert Enabled(states[i], steps[i]);
  }

  /** There are runs: any set of idle threads may start, and a step that is enabled makes a run longer. */
  lemma RunsGoOn(threads: set<nat>, states: seq<System>, steps: seq<Step>, step: Step)
    ensures var s := System(Shared(map[], None, None, 0, 0, 0), None, map t | t in threads :: Idle, false, [], [], []);
            IsRun([s], [])
    ensures IsRun(states, steps) && Enabled(states[|states| - 1], step) ==>
              IsRun(states + [Do(states[|states| - 1], step)], steps + [step])
  {
  }

  /** A thread that begins an operation asks for just that one. */
  lemma BeginAsks(s: System, t: nat, op: Op<Item>, blocking: bool)
    requires !s.crashed && t in s.threads && s.threads[t].Idle?
    ensures Enabled(s, Begin(t, op, blocking))
    ensures Do(s, Begin(t, op, blocking)) == s.(threads := s.threads[t := Wants(op, blocking)])
  {
  }
}
