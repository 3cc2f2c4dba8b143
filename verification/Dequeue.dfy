/** The queue every thread is fed through: a doubly linked list between two sentinels. Each
    operation runs under the spin lock, so it is atomic; whether the lock is had is up to the
    environment. */
module Dequeue {
  import opened Basics

  class DequeueNode<T(0)> {
    var data: T
    var next: DequeueNode?<T>
    var prev: DequeueNode?<T>

    constructor ()
      ensures next == null && prev == null
    {
      next, prev := null, null;
    }
  }

  /** Doubly linked, end to end: distinct nodes, each linked to its neighbours both ways. */
  ghost predicate Linked<T(0)>(nodes: seq<DequeueNode<T>>)
    reads nodes
  {
    && |nodes| >= 2
    && (forall i, j :: 0 <= i < j < |nodes| ==> nodes[i] != nodes[j])
    && (forall i :: 0 <= i < |nodes| - 1 ==> nodes[i].next == nodes[i + 1])
    && (forall i :: 0 < i < |nodes| ==> nodes[i].prev == nodes[i - 1])
    && nodes[0].prev == null && nodes[|nodes| - 1].next == null
  }

  /** The data between the sentinels, oldest (nearest the tail) first. */
  ghost function Items<T(0)>(nodes: seq<DequeueNode<T>>): (q: seq<T>)
    requires |nodes| >= 2
    reads nodes
    ensures |q| == |nodes| - 2
  {
    seq(|nodes| - 2, k requires 0 <= k < |nodes| - 2 reads nodes => nodes[|nodes| - 2 - k].data)
  }

  class ConcurrentDequeue<T(0)> {
    var head: DequeueNode<T>
    var tail: DequeueNode<T>
    /** From sentinel to sentinel; exactly the nodes allocated and not yet deleted. */
    ghost var nodes: seq<DequeueNode<T>>

    ghost predicate Valid()
      reads this, nodes
    {
      Linked(nodes) && nodes[0] == head && nodes[|nodes| - 1] == tail
    }

    ghost function Contents(): seq<T>
      requires Valid()
      reads this, nodes
    {
      Items(nodes)
    }

    constructor ()
      ensures Valid() && Contents() == [] && fresh(nodes)
    {
      var h := new DequeueNode<T>();
      var t := new DequeueNode<T>();
      head, tail := h, t;
      nodes := [h, t];
      new;
      head.next := tail;
      tail.prev := head;
    }

    method PushHead(data: T, locked: bool) returns (ok: bool)
      requires Valid()
      modifies this, nodes
      ensures Valid() && head == old(head) && tail == old(tail)
      ensures ok == locked
      ensures Contents() == if ok then old(Contents()) + [data] else old(Contents())
      ensures ok ==> |nodes| == |old(nodes)| + 1 && fresh(nodes[1]) && nodes == [head, nodes[1]] + old(nodes)[1..]
      ensures !ok ==> nodes == old(nodes)
    {
      var node := new DequeueNode<T>();
      node.data := data;
      if !locked {
        return false;
      }
      LinkFirst(node, nodes[1]);
      return true;
    }

    /** The four assignments under the lock. */
    method LinkFirst(node: DequeueNode<T>, ghost first: DequeueNode<T>)
      requires Valid() && node !in nodes && first == nodes[1]
      modifies this`nodes, node`next, node`prev, head`next, first`prev
      ensures Valid() && nodes == [head, node] + old(nodes)[1..]
    {
      ghost var was := nodes;
      assert head.next == was[1];
      node.next := head.next;
      head.next := node;
      node.next.prev := node;
      node.prev := head;
      nodes := [head, node] + was[1..];
      assert forall i :: 2 <= i < |nodes| ==> nodes[i] == was[i - 1];
    }

    /** `ret` is what was popped; the node it came from is deleted, and no other. */
    method PopTail(locked: bool) returns (ret: Option<T>, ghost deleted: seq<DequeueNode<T>>)
      requires Valid()
      modifies this, nodes
      ensures Valid() && head == old(head) && tail == old(tail)
      ensures ret == if locked && old(Contents()) != [] then Some(old(Contents())[0]) else None
      ensures Contents() == if ret.Some? then old(Contents())[1..] else old(Contents())
      ensures ret.Some? ==>
        deleted == [old(nodes)[|old(nodes)| - 2]] && nodes == old(nodes)[..|old(nodes)| - 2] + [tail]
      ensures ret.None? ==> deleted == [] && nodes == old(nodes)
    {
      ghost var was := nodes;
      assert tail.prev == was[|was| - 2];
      if !locked || tail.prev == head {
        return None, [];
      }
      var node := tail.prev;
      assert node.prev == was[|was| - 3];
      tail.prev := node.prev;
      tail.prev.next := tail;
      nodes := was[..|was| - 2] + [tail];
      assert Linked(nodes);
      ret, deleted := Some(node.data), [node];
    }

    /** The destructor deletes every node once, from head to tail. */
    method Destroy() returns (ghost deleted: seq<DequeueNode<T>>)
      requires Valid()
      modifies this, nodes
      ensures deleted == old(nodes)
    {
      deleted := [];
      ghost var k := 0;
      while head.next != null
        invariant k < |nodes| && nodes == old(nodes) && deleted == nodes[..k] && head == nodes[k]
        invariant forall i :: k <= i < |nodes| - 1 ==> nodes[i].next == nodes[i + 1]
        invariant nodes[|nodes| - 1].next == null
        invariant head.next == if k + 1 < |nodes| then nodes[k + 1] else null
        decreases |nodes| - k
      {
        var tmp := head;
        head := head.next;
        head.prev := null;
        deleted := deleted + [tmp];
        k := k + 1;
      }
      deleted := deleted + [head];
    }
  }

  // ---- Both ways round ------------------------------------------------------------------------------

  ghost function Forward<T(0)>(x: DequeueNode?<T>, k: nat, nodes: seq<DequeueNode<T>>): DequeueNode?<T>
    reads nodes
  {
    if k == 0 then x
    else if x == null || x !in nodes then null
    else Forward(x.next, k - 1, nodes)
  }

  ghost function Backward<T(0)>(x: DequeueNode?<T>, k: nat, nodes: seq<DequeueNode<T>>): DequeueNode?<T>
    reads nodes
  {
    if k == 0 then x
    else if x == null || x !in nodes then null
    else Backward(x.prev, k - 1, nodes)
  }

  lemma {:induction false} ForwardFrom<T(0)>(nodes: seq<DequeueNode<T>>, i: nat, k: nat)
    requires Linked(nodes) && i < |nodes|
    ensures Forward(nodes[i], k, nodes) == if i + k < |nodes| then nodes[i + k] else null
    decreases k
  {
    if k > 0 && i + 1 < |nodes| {
      ForwardFrom(nodes, i + 1, k - 1);
    }
  }

  lemma {:induction false} BackwardFrom<T(0)>(nodes: seq<DequeueNode<T>>, i: nat, k: nat)
    requires Linked(nodes) && i < |nodes|
    ensures Backward(nodes[i], k, nodes) == if k <= i then nodes[i - k] else null
    decreases k
  {
    if k > 0 && i > 0 {
      BackwardFrom(nodes, i - 1, k - 1);
    }
  }

  /** Walking from the head and walking from the tail visit the same nodes in opposite order, and
      both walks end. */
  lemma WalksMirror<T(0)>(d: ConcurrentDequeue<T>, k: nat)
    requires d.Valid()
    ensures k < |d.nodes| ==> Forward(d.head, k, d.nodes) == Backward(d.tail, |d.nodes| - 1 - k, d.nodes) != null
    ensures k >= |d.nodes| ==> Forward(d.head, k, d.nodes) == null && Backward(d.tail, k, d.nodes) == null
  {
    ForwardFrom(d.nodes, 0, k);
    BackwardFrom(d.nodes, |d.nodes| - 1, if k < |d.nodes| then |d.nodes| - 1 - k else k);
  }

  // ---- First in, first out ---------------------------------------------------------------------------

  datatype Op<T> = Push(data: T) | PopOp

  /** What the contracts of `PushHead` and `PopTail` make of a list of operations. */
  function After<T>(q: seq<T>, ops: seq<Op<T>>): seq<T>
    decreases |ops|
  {
    if ops == [] then q
    else match ops[0]
         case Push(data) => After(q + [data], ops[1..])
         case PopOp => After(if q == [] then q else q[1..], ops[1..])
  }

  function Pushed<T>(ops: seq<Op<T>>): seq<T> {
    if ops == [] then []
    else (match ops[0] case Push(data) => [data] case PopOp => []) + Pushed(ops[1..])
  }

  function Popped<T>(q: seq<T>, ops: seq<Op<T>>): seq<T>
    decreases |ops|
  {
    if ops == [] then []
    else match ops[0]
         case Push(data) => Popped(q + [data], ops[1..])
         case PopOp => if q == [] then Popped(q, ops[1..]) else [q[0]] + Popped(q[1..], ops[1..])
  }

  /** Pops return the pushes, in order, without loss or repetition: what came out, followed by what
      is left, is what was there, followed by what went in. */
  lemma {:induction false} Fifo<T>(q: seq<T>, ops: seq<Op<T>>)
    ensures Popped(q, ops) + After(q, ops) == q + Pushed(ops)
    decreases |ops|
  {
    if ops != [] {
      match ops[0]
      case Push(data) =>
        Fifo(q + [data], ops[1..]);
        assert q + ([data] + Pushed(ops[1..])) == q + [data] + Pushed(ops[1..]);
      case PopOp =>
        Fifo(if q == [] then q else q[1..], ops[1..]);
        if q != [] {
          assert q == [q[0]] + q[1..];
          assert [q[0]] + Popped(q[1..], ops[1..]) + After(q, ops)
              == [q[0]] + (Popped(q[1..], ops[1..]) + After(q, ops));
          assert [q[0]] + (q[1..] + Pushed(ops[1..])) == q + Pushed(ops);
        } else {
          assert Pushed(ops) == Pushed(ops[1..]);
        }
    }
  }
}
