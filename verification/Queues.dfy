/** The heap-allocated message queue of queue.cc, changed in place. */
module Queues {
  import opened Wrappers
  import opened Deque

  class QueueNode<T> {
    var node: T
    var next: QueueNode?<T>
    // the queue that the cell was allocated for
    ghost const owner: Queue<T>

    constructor (node: T, ghost owner: Queue<T>)
      ensures this.node == node && next == null && this.owner == owner
    {
      this.node := node;
      next := null;
      this.owner := owner;
    }
  }

  class Queue<T> {
    var head: QueueNode?<T>
    var tail: QueueNode?<T>
    var num: int
    var totalIn: int
    var totalOut: int
    // false once queue_destroy has released the memory
    var live: bool

    // the cells from head to tail, and the values they carry
    ghost var spine: seq<QueueNode<T>>
    ghost var contents: seq<T>

    /** What a put changes: the queue itself and the link of its last cell. */
    ghost function Footprint(): set<object>
      reads this
    {
      if tail == null then {this} else {this, tail}
    }

    ghost predicate Valid()
      reads this, spine
    {
      && |contents| == |spine|
      && num == |contents| == totalIn - totalOut
      && (head == null <==> tail == null)
      && (head == null <==> spine == [])
      && (spine != [] ==> head == spine[0] && tail == spine[|spine| - 1])
      && (forall i, j :: 0 <= i < j < |spine| ==> spine[i] != spine[j])
      && (forall i :: 0 <= i < |spine| ==> spine[i].owner == this && spine[i].node == contents[i])
      && (forall i {:trigger spine[i].next} :: 0 <= i < |spine| ==>
            spine[i].next == if i + 1 < |spine| then spine[i + 1] else null)
    }

    /** queue_create */
    constructor ()
      ensures Valid() && live && contents == [] && fresh(Footprint())
      ensures totalIn == totalOut == 0
    {
      head, tail := null, null;
      num, totalIn, totalOut := 0, 0, 0;
      live := true;
      spine, contents := [], [];
    }

    /** The memory of the queue is released; messages that are still in it are leaked. */
    method Destroy()
      requires Valid() && live
      modifies this
      ensures !live && Valid() && contents == old(contents) && Footprint() == old(Footprint())
    {
      live := false;
    }

    /** queue_put_safe: appends at the tail */
    method PutSafe(node: T, mallocOk: bool) returns (code: int)
      requires Valid() && live
      modifies Footprint()
      ensures Valid() && live && fresh(Footprint() - old(Footprint()))
      ensures contents == Apply(old(contents), Put(node, mallocOk))
      ensures Code(code) == Result(old(contents), Put(node, mallocOk))
      ensures totalOut == old(totalOut)
      ensures totalIn == old(totalIn) + code
    {
      code := 1;
      if mallocOk {
        var newNode := new QueueNode(node, this);
        if tail != null {
          tail.next := newNode;
        }
        tail := newNode;
        if head == null {
          head := newNode;
        }
        totalIn := totalIn + 1;
        num := num + 1;
        spine := spine + [newNode];
        contents := contents + [node];
      } else {
        code := 0;
      }
    }

    /** queue_put_head_safe: prepends at the head */
    method PutHeadSafe(msg: T, mallocOk: bool) returns (code: int)
      requires Valid() && live
      modifies this
      ensures Valid() && live && fresh(Footprint() - old(Footprint()))
      ensures contents == Apply(old(contents), PutHead(msg, mallocOk))
      ensures Code(code) == Result(old(contents), PutHead(msg, mallocOk))
      ensures totalOut == old(totalOut)
      ensures totalIn == old(totalIn) + code
    {
      code := 1;
      if mallocOk {
        var tmp := new QueueNode(msg, this);
        if head != null {
          tmp.next := head;
        }
        head := tmp;
        if tail == null {
          tail := tmp;
        }
        totalIn := totalIn + 1;
        num := num + 1;
        spine := [tmp] + spine;
        contents := [msg] + contents;
      } else {
        code := 0;
      }
    }

    /**
     __queue_get_safe: removes the head, then counts the cells that are left.
     `mismatch` is the outcome of the debugging comparison after the count; it is
     never true.
     */
    method GetSafe() returns (node: Option<T>, mismatch: bool)
      requires Valid() && live
      modifies this
      ensures Valid() && live && Footprint() <= old(Footprint())
      ensures contents == Apply(old(contents), Get)
      ensures Item(node) == Result(old(contents), Get)
      ensures totalOut == old(totalOut) + if node.Some? then 1 else 0
      ensures totalIn == old(totalIn)
      ensures !mismatch
    {
      node, mismatch := None, false;
      var tmp := head;
      if tmp != null {
        node := Some(tmp.node);
        if head == tail {
          assert |spine| == 1;
          tail := null;
          head := null;
        } else {
          head := head.next;
        }
        totalOut := totalOut + 1;
        num := num - 1;
        spine, contents := spine[1..], contents[1..];
        assert forall i :: 0 <= i < |spine| ==> spine[i] == old(spine)[i + 1];
        forall i | 0 <= i < |spine|
          ensures spine[i].next == if i + 1 < |spine| then spine[i + 1] else null
        {
          assert old(spine[i + 1].next) == old(if i + 2 < |spine| then spine[i + 2] else null);
        }

        var count := 0;
        tmp := head;
        while tmp != null
          invariant 0 <= count <= |spine|
          invariant tmp == if count < |spine| then spine[count] else null
          decreases |spine| - count
        {
          count := count + 1;
          tmp := tmp.next;
        }
        mismatch := totalIn - totalOut != count;
      }
    }
  }

  // The wrappers. `busy` is the outcome of pthread_mutex_trylock; a null queue or
  // a null item is answered before the mutex is touched.

  /** queue_destroy; a caller that wants its messages must have drained the queue */
  method QueueDestroy<T>(q: Queue?<T>)
    requires q != null ==> q.Valid() && q.live
    modifies q
    ensures q != null ==> q.Valid() && !q.live && q.contents == old(q.contents) && q.Footprint() == old(q.Footprint())
  {
    if q == null {
      return;
    }
    q.Destroy();
  }

  /** queue_put */
  method QueuePut<T>(q: Queue?<T>, node: Option<T>, mallocOk: bool) returns (code: int)
    requires q != null ==> q.Valid() && q.live
    modifies if q != null then q.Footprint() else {}
    ensures q != null ==> q.Valid() && q.live && fresh(q.Footprint() - old(q.Footprint()))
    ensures code == if q != null && node.Some? && mallocOk then 1 else 0
    ensures q != null ==> q.contents == if code == 1 then old(q.contents) + [node.value] else old(q.contents)
  {
    if q == null || node.None? {
      return 0;
    }
    code := q.PutSafe(node.value, mallocOk);
  }

  /** queue_put_nb */
  method QueuePutNb<T>(q: Queue?<T>, node: Option<T>, mallocOk: bool, busy: bool) returns (code: int)
    requires q != null ==> q.Valid() && q.live
    modifies if q != null then q.Footprint() else {}
    ensures q != null ==> q.Valid() && q.live && fresh(q.Footprint() - old(q.Footprint()))
    ensures code == if q == null || node.None? then 0 else if busy then -1 else if mallocOk then 1 else 0
    ensures q != null ==> q.contents == if code == 1 then old(q.contents) + [node.value] else old(q.contents)
  {
    if q == null || node.None? {
      return 0;
    }
    if busy {
      return -1;
    }
    code := q.PutSafe(node.value, mallocOk);
  }

  /** queue_put_head */
  method QueuePutHead<T>(q: Queue?<T>, node: Option<T>, mallocOk: bool) returns (code: int)
    requires q != null ==> q.Valid() && q.live
    modifies if q != null then q.Footprint() else {}
    ensures q != null ==> q.Valid() && q.live && fresh(q.Footprint() - old(q.Footprint()))
    ensures code == if q != null && node.Some? && mallocOk then 1 else 0
    ensures q != null ==> q.contents == if code == 1 then [node.value] + old(q.contents) else old(q.contents)
  {
    if q == null || node.None? {
      return 0;
    }
    code := q.PutHeadSafe(node.value, mallocOk);
  }

  /** queue_put_head_nb */
  method QueuePutHeadNb<T>(q: Queue?<T>, node: Option<T>, mallocOk: bool, busy: bool) returns (code: int)
    requires q != null ==> q.Valid() && q.live
    modifies if q != null then q.Footprint() else {}
    ensures q != null ==> q.Valid() && q.live && fresh(q.Footprint() - old(q.Footprint()))
    ensures code == if q == null || node.None? then 0 else if busy then -1 else if mallocOk then 1 else 0
    ensures q != null ==> q.contents == if code == 1 then [node.value] + old(q.contents) else old(q.contents)
  {
    if q == null || node.None? {
      return 0;
    }
    if busy {
      return -1;
    }
    code := q.PutHeadSafe(node.value, mallocOk);
  }

  /** queue_get */
  method QueueGet<T>(q: Queue?<T>) returns (node: Option<T>)
    requires q != null ==> q.Valid() && q.live
    modifies q
    ensures q != null ==> q.Valid() && q.live && q.Footprint() <= old(q.Footprint())
    ensures q == null ==> node == None
    ensures q != null && old(q.contents) == [] ==> node == None && q.contents == []
    ensures q != null && old(q.contents) != [] ==>
              node == Some(old(q.contents)[0]) && q.contents == old(q.contents)[1..]
  {
    if q == null {
      return None;
    }
    var mismatch;
    node, mismatch := q.GetSafe();
  }

  /** queue_get_nb: None means empty or busy, and the caller cannot tell which */
  method QueueGetNb<T>(q: Queue?<T>, busy: bool) returns (node: Option<T>)
    requires q != null ==> q.Valid() && q.live
    modifies q
    ensures q != null ==> q.Valid() && q.live && q.Footprint() <= old(q.Footprint())
    ensures q == null || busy ==> node == None
    ensures q != null && (busy || old(q.contents) == []) ==> node == None && q.contents == old(q.contents)
    ensures q != null && !busy && old(q.contents) != [] ==>
              node == Some(old(q.contents)[0]) && q.contents == old(q.contents)[1..]
  {
    if q == null || busy {
      return None;
    }
    var mismatch;
    node, mismatch := q.GetSafe();
  }
}
