/** The linked list behind the queue: heap nodes, a dummy at the tail, `next` links written late.

Every method is one atomic step of a push or of a pop, so any interleaving of threads is a sequence
of calls. `deletes` counts how often a node has been deleted; no method touches a node without first
establishing that it has not been. */
module LockFreeQueue {
  import opened Options
  import opened MpscQueue

  class Node<T> {
    var data: Option<T>    // None in the dummy and once the value has been moved out
    var next: Node?<T>
    ghost var deletes: nat

    ghost predicate Live()
      reads this`deletes
    {
      deletes == 0
    }

    constructor (data: Option<T>)
      ensures this.data == data && next == null && Live()
    {
      this.data, next, deletes := data, null, 0;
    }

    /** What `delete` does to the memory of the node. */
    ghost method Delete()
      requires Live()
      modifies this`deletes
      ensures deletes == 1
    {
      deletes := 1;
    }
  }

  class LockFreeQueue<T> {
    var head: Node<T>
    var tail: Node<T>
    ghost var q: Queue<T>
    ghost var nodes: seq<Node<T>>   // the first dummy, then the node of slot k at index k + 1
    ghost var Repr: set<object>

    ghost predicate Valid()
      reads this, Repr
      ensures Valid() ==> this in Repr
    {
      && this in Repr && (forall k :: 0 <= k < |nodes| ==> nodes[k] in Repr)
      && q.Valid()
      && |nodes| == |q.pushed| + 1
      && (forall i, j :: 0 <= i < j < |nodes| ==> nodes[i] != nodes[j])
      && head == nodes[|q.pushed|]
      && tail == nodes[q.popped]
      && head.next == null
      && (forall k {:trigger nodes[k].next} :: q.popped <= k < |q.pushed| ==>
            nodes[k].next == if k in q.unlinked then null else nodes[k + 1])
      && (forall k {:trigger nodes[k].data} :: q.popped < k < |nodes| ==> nodes[k].data == Some(q.pushed[k - 1]))
      && (forall k {:trigger nodes[k].deletes} :: 0 <= k < |nodes| ==> nodes[k].deletes == if k < q.popped then 1 else 0)
    }

    constructor ()
      ensures Valid() && fresh(Repr) && q == Empty()
    {
      var dummy := new Node<T>(None);
      head, tail := dummy, dummy;
      q, nodes, Repr := Empty(), [dummy], {this, dummy};
    }

    /** First atomic step of a push. The old head it returns may be written to later, by `LinkPrev`. */
    method ExchangeHead(node: Node<T>, ghost v: T) returns (prev: Node<T>)
      requires Valid()
      requires node !in nodes && node.Live() && node.next == null && node.data == Some(v)
      modifies this
      ensures Valid()
      ensures q == old(q).Exchange(v) && nodes == old(nodes) + [node] && Repr == old(Repr) + {node}
      ensures prev == nodes[|old(q).pushed|]
    {
      prev := head;
      head := node;
      q, nodes, Repr := q.Exchange(v), nodes + [node], Repr + {node};
    }

    /** A push up to and including the exchange, with the pointers its thread keeps for the link. */
    method BeginPush(v: T) returns (prev: Node<T>, node: Node<T>)
      requires Valid()
      modifies this
      ensures Valid() && fresh(node) && Repr == old(Repr) + {node}
      ensures q == old(q).Exchange(v) && nodes == old(nodes) + [node]
      ensures prev == nodes[|old(q).pushed|] && node == nodes[|old(q).pushed| + 1]
    {
      node := new Node(Some(v));
      prev := ExchangeHead(node, v);
    }

    /** Second atomic step of a push, however many steps of other threads came in between. */
    method LinkPrev(prev: Node<T>, node: Node<T>, ghost slot: nat)
      requires Valid()
      requires slot in q.unlinked && prev == nodes[slot] && node == nodes[slot + 1]
      modifies this`q, prev`next
      ensures Valid()
      ensures q == old(q).Link(slot)
    {
      assert prev.Live();
      prev.next := node;
      q := q.Link(slot);
    }

    /** First half of a pop: read the link of the dummy. */
    method PopLoad() returns (next: Node?<T>)
      requires Valid()
      ensures next != null <==> q.Poppable()
      ensures next != null ==> next == nodes[q.popped + 1]
    {
      assert tail.Live();
      next := tail.next;
    }

    /** Second half: move the value out, advance the tail and delete the old dummy. */
    method PopTake(next: Node<T>) returns (data: T)
      requires Valid()
      requires q.Poppable() && next == nodes[q.popped + 1]
      modifies this, tail, next
      ensures Valid()
      ensures q == old(q).Pop() && nodes == old(nodes) && head == old(head) && Repr == old(Repr)
      ensures data == old(q).pushed[old(q).popped]
      ensures old(tail).deletes == 1
    {
      assert next.Live() && tail.Live();
      data := next.data.value;
      next.data := None;
      var dummy := tail;
      tail := next;
      dummy.Delete();
      q := q.Pop();
    }

    method Push(v: T)
      requires Valid()
      modifies Repr
      ensures Valid() && fresh(Repr - old(Repr))
      ensures q == old(q).Exchange(v).Link(|old(q).pushed|)
    {
      var prev, node := BeginPush(v);
      LinkPrev(prev, node, |q.pushed| - 1);
    }

    method Pop() returns (data: Option<T>)
      requires Valid()
      modifies Repr
      ensures Valid() && nodes == old(nodes) && Repr == old(Repr)
      ensures data.Some? <==> old(q).Poppable()
      ensures data.Some? ==> q == old(q).Pop() && data.value == old(q).pushed[old(q).popped]
      ensures data.None? ==> q == old(q)
    {
      var next := PopLoad();
      if next == null {
        return None;
      }
      var v := PopTake(next);
      data := Some(v);
    }

    /** The destructor of a queue that no producer is inside of: every node ever allocated is
    deleted, and only once. */
    method Destroy()
      requires Valid() && q.unlinked == {}
      modifies Repr
      ensures nodes == old(nodes) && forall n :: n in nodes ==> n.deletes == 1
    {
      var data := Pop();
      while data.Some?
        invariant Valid() && nodes == old(nodes) && Repr == old(Repr) && q.unlinked == {}
        invariant data.None? ==> q.popped == |q.pushed|
        decreases |q.pushed| - q.popped + if data.Some? then 1 else 0
      {
        data := Pop();
      }
      tail.Delete();
    }
  }

  /** The queue together with the local variables of its threads: `held` maps a slot to the pointers
  its producer keeps between exchange and link, `loaded` is what the consumer keeps inside a pop. */
  class Threads<T> {
    const f: LockFreeQueue<T>
    var held: map<nat, (Node<T>, Node<T>)>
    var exchanges: nat
    var loaded: Node?<T>
    var out: seq<T>
    ghost var h: History<T>

    ghost predicate Valid()
      reads this, f, f.Repr
    {
      && f.Valid() && this !in f.Repr
      && f.q == h.q && out == h.out && |out| == h.q.popped && exchanges == |h.q.pushed|
      && held.Keys == f.q.unlinked
      && (forall k :: k in held ==> k < |f.q.pushed| && held[k] == (f.nodes[k], f.nodes[k + 1]))
      && (h.loaded <==> loaded != null)
      && (loaded != null ==> f.q.Poppable() && loaded == f.nodes[f.q.popped + 1])
    }

    constructor ()
      ensures Valid() && h == Start() && fresh(f.Repr)
    {
      f := new LockFreeQueue<T>();
      held, exchanges, loaded, out := map[], 0, null, [];
      h := Start();
    }

    method Exchange(p: nat, v: T)
      requires Valid()
      modifies this, f
      ensures Valid() && h == Step(old(h), ExchangeHead(p, v))
      ensures fresh(f.Repr - old(f.Repr))
    {
      var prev, node := f.BeginPush(v);
      held, exchanges := held[exchanges := (prev, node)], exchanges + 1;
      h := Step(h, ExchangeHead(p, v));
    }

    method Link(slot: nat)
      requires Valid()
      modifies this, f.Repr
      ensures Valid() && h == Step(old(h), LinkPrev(slot)) && f.Repr == old(f.Repr)
    {
      if slot in held {
        var pending := held[slot];
        assert pending == (f.nodes[slot], f.nodes[slot + 1]);
        f.LinkPrev(pending.0, pending.1, slot);
        held := held - {slot};
      }
      h := Step(h, LinkPrev(slot));
    }

    method Load()
      requires Valid()
      modifies this
      ensures Valid() && h == Step(old(h), PopLoad)
    {
      loaded := f.PopLoad();
      h := Step(h, PopLoad);
    }

    method Take()
      requires Valid()
      modifies this, f.Repr
      ensures Valid() && h == Step(old(h), PopTake) && f.Repr == old(f.Repr)
    {
      if loaded != null {
        var v := f.PopTake(loaded);
        out, loaded := out + [v], null;
      }
      h := Step(h, PopTake);
    }

    method Do(op: Op<T>)
      requires Valid()
      modifies this, f.Repr
      ensures Valid() && h == Step(old(h), op)
      ensures fresh(f.Repr - old(f.Repr))
    {
      match op
      case ExchangeHead(p, v) => Exchange(p, v);
      case LinkPrev(slot) => Link(slot);
      case PopLoad => Load();
      case PopTake => Take();
    }
  }

  /** The chain of a queue: each node that has not been deleted leads to the next one up to the head,
  over its link or over one that a producer holds and has still to write. */
  ghost predicate ChainWhole<T>(ts: Threads<T>)
    reads ts, ts.f, ts.f.nodes
  {
    var f, n := ts.f, |ts.out|;
    && n < |f.nodes| && f.nodes[n] == f.tail && f.nodes[|f.nodes| - 1] == f.head
    && (forall k :: 0 <= k < |f.nodes| ==> f.nodes[k].deletes == if k < n then 1 else 0)
    && forall k :: n <= k < |f.nodes| - 1 ==>
         if k in ts.held then ts.held[k] == (f.nodes[k], f.nodes[k + 1]) && f.nodes[k].next == null
         else f.nodes[k].next == f.nodes[k + 1]
  }

  /** Whatever a thread may dereference next has not been deleted. */
  ghost predicate HeldLive<T>(ts: Threads<T>)
    reads ts, ts.f, ts.f.tail, ts.loaded, set k | k in ts.held :: ts.held[k].0, set k | k in ts.held :: ts.held[k].1
  {
    && (forall k :: k in ts.held ==> ts.held[k].0.Live() && ts.held[k].1.Live())
    && ts.f.tail.Live()
    && (ts.loaded != null ==> ts.loaded.Live())
  }

  lemma ValidIsSafe<T>(ts: Threads<T>)
    requires ts.Valid()
    ensures ChainWhole(ts) && HeldLive(ts)
  {
    var f := ts.f;
    forall k | k in ts.held ensures ts.held[k].0.Live() && ts.held[k].1.Live() {
      assert f.nodes[k].deletes == 0 && f.nodes[k + 1].deletes == 0;
    }
  }

  /** Runs an arbitrary interleaving on the heap: the list computes exactly what the pointer-free
  queue does, so what the consumer got and what is left are the pushed values in exchange order. No
  thread is left with a pointer to a deleted node, and the nodes not deleted are the chain. */
  method RunSchedule<T>(ops: seq<Op<T>>) returns (ts: Threads<T>)
    ensures fresh(ts) && fresh(ts.f.Repr) && ts.Valid() && ts.h == Replay(ops)
    ensures ts.out + ts.f.q.Remaining() == Exchanges(ops)
    ensures HeldLive(ts) && ChainWhole(ts)
  {
    ts := new Threads<T>();
    for i := 0 to |ops|
      invariant fresh(ts) && fresh(ts.f.Repr)
      invariant ts.Valid() && ts.h == Replay(ops[..i])
    {
      assert ops[..i + 1][..i] == ops[..i];
      ts.Do(ops[i]);
    }
    assert ops[..|ops|] == ops;
    ReplayConserves(ops);
    ValidIsSafe(ts);
  }

  /** After any schedule that leaves no thread inside the queue, the destructor has deleted each node
  that was ever allocated, and each exactly once. */
  method RunAndDestroy<T>(ops: seq<Op<T>>) returns (ts: Threads<T>)
    ensures fresh(ts) && |ts.f.nodes| == |Exchanges(ops)| + 1
    ensures Replay(ops).q.unlinked == {} && !Replay(ops).loaded ==> forall n :: n in ts.f.nodes ==> n.deletes == 1
  {
    ts := RunSchedule(ops);
    ReplayConsistent(ops);
    if ts.held == map[] && ts.loaded == null {
      ts.f.Destroy();
    }
  }
}
