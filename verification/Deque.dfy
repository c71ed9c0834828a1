/**
 The sequential queue that queue.cc implements: what each operation does to the
 contents and what it returns.  Both the heap list (module Queues) and the
 threads that share one (module QueueThreads) are proved against it.
 */
module Deque {
  import opened Wrappers

  /** `ok` says whether the allocation of the list cell succeeds. */
  datatype Op<T> =
    | Put(x: T, ok: bool)
    | PutHead(x: T, ok: bool)
    | Get

  datatype Ret<T> =
    | Code(code: int)
    | Item(item: Option<T>)

  function Apply<T>(s: seq<T>, op: Op<T>): seq<T> {
    match op
    case Put(x, ok) => if ok then s + [x] else s
    case PutHead(x, ok) => if ok then [x] + s else s
    case Get => if s == [] then s else s[1..]
  }

  function Result<T>(s: seq<T>, op: Op<T>): Ret<T> {
    match op
    case Put(_, ok) => Code(if ok then 1 else 0)
    case PutHead(_, ok) => Code(if ok then 1 else 0)
    case Get => Item(if s == [] then None else Some(s[0]))
  }

  /** What a try-lock variant returns when the mutex is taken. */
  function BusyResult<T>(op: Op<T>): Ret<T> {
    if op.Get? then Item(None) else Code(-1)
  }

  /** The contents after `ops`, run one after the other on an empty queue. */
  function Replay<T>(ops: seq<Op<T>>): seq<T> {
    if ops == [] then [] else Apply(Replay(ops[..|ops| - 1]), ops[|ops| - 1])
  }

  /** The answer the `j`-th operation of `ops` gets. */
  function Answer<T>(ops: seq<Op<T>>, j: nat): Ret<T>
    requires j < |ops|
  {
    Result(Replay(ops[..j]), ops[j])
  }

  /** What one operation adds to the items and takes from them. */
  function AddedBy<T>(op: Op<T>): seq<T> {
    if !op.Get? && op.ok then [op.x] else []
  }

  function TakenBy<T>(s: seq<T>, op: Op<T>): seq<T> {
    if op.Get? && s != [] then [s[0]] else []
  }

  /** The items that entered the queue, in order. */
  function Added<T>(ops: seq<Op<T>>): seq<T> {
    if ops == [] then []
    else
      Added(ops[..|ops| - 1]) + AddedBy(ops[|ops| - 1])
  }

  /** The items that left the queue, in order. */
  function Taken<T>(ops: seq<Op<T>>): seq<T> {
    if ops == [] then []
    else
      Taken(ops[..|ops| - 1]) + TakenBy(Replay(ops[..|ops| - 1]), ops[|ops| - 1])
  }

  lemma {:induction false} FifoStep<T>(s: seq<T>, op: Op<T>, taken: seq<T>)
    requires !op.PutHead?
    ensures taken + s + AddedBy(op) == taken + TakenBy(s, op) + Apply(s, op)
  {
    if op.Get? && s != [] {
      assert s == [s[0]] + s[1..];
    }
  }

  /** Without put_head the queue is first-in first-out: nothing is lost, repeated or reordered. */
  lemma {:induction false} FifoConservation<T>(ops: seq<Op<T>>)
    requires forall i :: 0 <= i < |ops| ==> !ops[i].PutHead?
    ensures Added(ops) == Taken(ops) + Replay(ops)
  {
    if ops != [] {
      var front, op := ops[..|ops| - 1], ops[|ops| - 1];
      FifoConservation(front);
      FifoStep(Replay(front), op, Taken(front));
    }
  }

  lemma {:induction false} DequeStep<T>(s: seq<T>, op: Op<T>)
    ensures multiset(s) + multiset(AddedBy(op)) == multiset(TakenBy(s, op)) + multiset(Apply(s, op))
  {
    if op.Get? && s != [] {
      assert s == [s[0]] + s[1..];
    }
  }

  lemma Regroup<T>(t: multiset<T>, s: multiset<T>, a: multiset<T>, t': multiset<T>, s': multiset<T>)
    requires s + a == t' + s'
    ensures (t + s) + a == (t + t') + s'
  {
    assert (t + s) + a == t + (s + a);
  }

  /** With put_head the order may change, but every item is still kept or taken exactly once. */
  lemma {:induction false} DequeConservation<T>(ops: seq<Op<T>>)
    ensures multiset(Added(ops)) == multiset(Taken(ops)) + multiset(Replay(ops))
  {
    if ops != [] {
      var front, op := ops[..|ops| - 1], ops[|ops| - 1];
      DequeConservation(front);
      var s := Replay(front);
      DequeStep(s, op);
      Regroup(multiset(Taken(front)), multiset(s), multiset(AddedBy(op)),
              multiset(TakenBy(s, op)), multiset(Apply(s, op)));
      assert multiset(Added(ops)) == multiset(Added(front)) + multiset(AddedBy(op));
      assert multiset(Taken(ops)) == multiset(Taken(front)) + multiset(TakenBy(s, op));
    }
  }
}
