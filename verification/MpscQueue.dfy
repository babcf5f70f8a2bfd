/** What a multi-producer single-consumer queue does, step by step, without nodes or pointers.

A push is two atomic steps: the exchange of the head fixes its place in the order (its slot), and
the link makes it reachable for the consumer. A pop is two steps as well: the consumer loads the
link of the oldest slot, and only then takes the value. */
module MpscQueue {

  /** `pushed` is everything ever pushed, in head-exchange order; slots below `popped` are consumed;
  a slot in `unlinked` has been exchanged in but its predecessor does not point to it yet. */
  datatype Queue<T> = Queue(pushed: seq<T>, popped: nat, unlinked: set<nat>) {

    ghost predicate Valid() {
      && popped <= |pushed|
      && forall k :: k in unlinked ==> popped <= k < |pushed|
    }

    function Exchange(v: T): Queue<T> {
      Queue(pushed + [v], popped, unlinked + {|pushed|})
    }

    function Link(slot: nat): Queue<T> {
      this.(unlinked := unlinked - {slot})
    }

    predicate Poppable() {
      popped < |pushed| && popped !in unlinked
    }

    function Pop(): Queue<T>
      requires Poppable()
    {
      this.(popped := popped + 1)
    }

    function Remaining(): seq<T>
      requires popped <= |pushed|
    {
      pushed[popped..]
    }
  }

  function Empty<T>(): Queue<T> {
    Queue([], 0, {})
  }

  /** One atomic step of some thread. `ExchangeHead` by `producer`; `LinkPrev` by whoever owns `slot`;
  the two halves of a pop by the consumer. */
  datatype Op<T> =
    | ExchangeHead(producer: nat, value: T)
    | LinkPrev(slot: nat)
    | PopLoad
    | PopTake

  /** A queue together with what its threads know: `loaded` says that the consumer has seen a link and
  not yet taken the value, `out` is what the consumer took, `owners[k]` is the producer of slot k. */
  datatype History<T> = History(q: Queue<T>, loaded: bool, out: seq<T>, owners: seq<nat>)

  function Start<T>(): History<T> {
    History(Empty(), false, [], [])
  }

  /** A step that is not enabled (linking a slot twice, taking without having loaded) does nothing. */
  function Step<T>(h: History<T>, op: Op<T>): History<T> {
    match op
    case ExchangeHead(p, v) => h.(q := h.q.Exchange(v), owners := h.owners + [p])
    case LinkPrev(slot) => h.(q := h.q.Link(slot))
    case PopLoad => h.(loaded := h.q.Poppable())
    case PopTake =>
      if h.loaded && h.q.Poppable() then
        History(h.q.Pop(), false, h.out + [h.q.pushed[h.q.popped]], h.owners)
      else h
  }

  function Replay<T>(ops: seq<Op<T>>): History<T> {
    if ops == [] then Start() else Step(Replay(ops[..|ops| - 1]), ops[|ops| - 1])
  }

  /** The values of the exchanges in a schedule, in schedule order. */
  function Exchanges<T>(ops: seq<Op<T>>): seq<T> {
    if ops == [] then []
    else
      var last := ops[|ops| - 1];
      Exchanges(ops[..|ops| - 1]) + if last.ExchangeHead? then [last.value] else []
  }

  /** The values that one producer exchanged in, in its own program order. */
  function ExchangesOf<T>(ops: seq<Op<T>>, p: nat): seq<T> {
    if ops == [] then []
    else
      var last := ops[|ops| - 1];
      ExchangesOf(ops[..|ops| - 1], p) + if last.ExchangeHead? && last.producer == p then [last.value] else []
  }

  /** The subsequence of `values` at the positions owned by `p`. */
  function OwnedBy<T>(values: seq<T>, owners: seq<nat>, p: nat): seq<T>
    requires |values| <= |owners|
  {
    if values == [] then []
    else
      var n := |values| - 1;
      OwnedBy(values[..n], owners, p) + if owners[n] == p then [values[n]] else []
  }

  ghost predicate Consistent<T>(h: History<T>) {
    && h.q.Valid()
    && h.out == h.q.pushed[..h.q.popped]
    && |h.owners| == |h.q.pushed|
    && (h.loaded ==> h.q.Poppable())
  }

  /** In particular a link that the consumer has loaded stays usable whatever the producers do. */
  lemma StepKeepsConsistent<T>(h: History<T>, op: Op<T>)
    requires Consistent(h)
    ensures Consistent(Step(h, op))
    ensures Step(h, op).q.pushed == h.q.pushed + (if op.ExchangeHead? then [op.value] else [])
  {
    var h' := Step(h, op);
    match op
    case ExchangeHead(_, v) => assert h'.q.pushed[..h'.q.popped] == h.q.pushed[..h.q.popped];
    case LinkPrev(_) =>
    case PopLoad =>
    case PopTake =>
      if h.loaded {
        assert h'.q.pushed[..h'.q.popped] == h.out + [h.q.pushed[h.q.popped]];
      }
  }

  lemma {:induction false} ReplayConsistent<T>(ops: seq<Op<T>>)
    ensures Consistent(Replay(ops))
    ensures Replay(ops).q.pushed == Exchanges(ops)
  {
    if ops != [] {
      ReplayConsistent(ops[..|ops| - 1]);
      StepKeepsConsistent(Replay(ops[..|ops| - 1]), ops[|ops| - 1]);
    }
  }

  /** For every schedule: what was taken, followed by what is still queued, is exactly what was
  exchanged in, in exchange order. */
  lemma ReplayConserves<T>(ops: seq<Op<T>>)
    ensures Consistent(Replay(ops))
    ensures Replay(ops).out + Replay(ops).q.Remaining() == Exchanges(ops)
  {
    ReplayConsistent(ops);
  }

  lemma {:induction false} OwnedByFrame<T>(values: seq<T>, owners: seq<nat>, owners': seq<nat>, p: nat)
    requires |values| <= |owners| && |values| <= |owners'|
    requires forall i :: 0 <= i < |values| ==> owners[i] == owners'[i]
    ensures OwnedBy(values, owners, p) == OwnedBy(values, owners', p)
  {
    if values != [] {
      OwnedByFrame(values[..|values| - 1], owners, owners', p);
    }
  }

  lemma {:induction false} OwnedByPushed<T>(ops: seq<Op<T>>, p: nat)
    ensures |Replay(ops).owners| == |Replay(ops).q.pushed|
    ensures OwnedBy(Replay(ops).q.pushed, Replay(ops).owners, p) == ExchangesOf(ops, p)
  {
    if ops != [] {
      var h, last := Replay(ops[..|ops| - 1]), ops[|ops| - 1];
      OwnedByPushed(ops[..|ops| - 1], p);
      match last
      case ExchangeHead(p', v) =>
        assert (h.q.pushed + [v])[..|h.q.pushed|] == h.q.pushed;
        OwnedByFrame(h.q.pushed, h.owners, h.owners + [p'], p);
      case _ =>
    }
  }

  lemma {:induction false} OwnedByPrefix<T>(values: seq<T>, n: nat, owners: seq<nat>, p: nat)
    requires n <= |values| <= |owners|
    ensures OwnedBy(values[..n], owners, p) <= OwnedBy(values, owners, p)
  {
    if n == |values| {
      assert values[..n] == values;
    } else {
      OwnedByPrefix(values[..|values| - 1], n, owners, p);
      assert values[..|values| - 1][..n] == values[..n];
    }
  }

  /** Each producer's values come out in the order that producer pushed them, none lost and none
  doubled: the ones taken so far are a prefix of the ones it exchanged in. */
  lemma ProducerOrderKept<T>(ops: seq<Op<T>>, p: nat)
    ensures |Replay(ops).out| <= |Replay(ops).owners|
    ensures OwnedBy(Replay(ops).out, Replay(ops).owners, p) <= ExchangesOf(ops, p)
  {
    var h := Replay(ops);
    ReplayConserves(ops);
    OwnedByPushed(ops, p);
    OwnedByPrefix(h.q.pushed, h.q.popped, h.owners, p);
  }

  /** A load that finds nothing finds either an empty queue or an oldest push that has exchanged the
  head and not yet linked its predecessor; nothing else can hide a value from the consumer. */
  lemma LoadFailsOnlyWhenEmptyOrUnlinked<T>(ops: seq<Op<T>>)
    ensures var h := Replay(ops + [PopLoad]);
      !h.loaded <==> Exchanges(ops) == Replay(ops).out || |Replay(ops).out| in Replay(ops).q.unlinked
  {
    var h := Replay(ops);
    ReplayConserves(ops);
    assert (ops + [PopLoad])[..|ops|] == ops;
    assert h.out + h.q.Remaining() == Exchanges(ops);
    if h.q.popped == |h.q.pushed| {
      assert h.q.Remaining() == [];
    } else {
      assert |Exchanges(ops)| == |h.out| + |h.q.Remaining()| > |h.out|;
    }
  }
}
