/**
 * Kahn's algorithm as the three topological passes of the code base run it
 * (the eejx topology validator, the eejx load calculation and the ee_mvp
 * calculator): an in-degree table keyed in insertion order, a FIFO queue
 * seeded with the zero-in-degree keys, and children visited in edge order.
 * An edge is a (from, to) pair; every target is a key, a source need not be.
 */
module Kahn {

  type Edge = (string, string)

  predicate NoDup<T(==)>(s: seq<T>) {
    forall i, j :: 0 <= i < j < |s| ==> s[i] != s[j]
  }

  /** The distinct elements of `s` in order of first appearance (a Python dict's keys). */
  function Dedup(s: seq<string>): (r: seq<string>)
    ensures NoDup(r)
    ensures forall x :: x in r <==> x in s
    ensures |r| <= |s|
  {
    if s == [] then []
    else
      var d := Dedup(s[..|s| - 1]);
      if s[|s| - 1] in d then d else d + [s[|s| - 1]]
  }

  /** The targets of the edges leaving `n`, in edge order (`adjacency[n]`). */
  function Targets(es: seq<Edge>, n: string): seq<string> {
    if es == [] then []
    else Targets(es[..|es| - 1], n) + (if es[|es| - 1].0 == n then [es[|es| - 1].1] else [])
  }

  /** The number of edges into `k` whose source is not in `done`: the live in-degree. */
  function InCount(es: seq<Edge>, k: string, done: seq<string>): nat {
    if es == [] then 0
    else InCount(es[..|es| - 1], k, done) + (if es[|es| - 1].1 == k && es[|es| - 1].0 !in done then 1 else 0)
  }

  /** Every edge into `order[i]` starts at a node emitted before position `i`. */
  predicate ParentsFirst(es: seq<Edge>, order: seq<string>) {
    forall i, j :: 0 <= i < |order| && 0 <= j < |es| && es[j].1 == order[i] ==> es[j].0 in order[..i]
  }

  /** An adjacency map with a (possibly empty) list for every node. */
  function Children(adj: map<string, seq<string>>, n: string): seq<string> {
    if n in adj then adj[n] else []
  }

  lemma {:induction false} TargetsAppend(es: seq<Edge>, e: Edge, n: string)
    ensures Targets(es + [e], n) == Targets(es, n) + (if e.0 == n then [e.1] else [])
  {
    assert (es + [e])[..|es|] == es;
  }

  lemma {:induction false} InCountAppend(es: seq<Edge>, e: Edge, k: string, done: seq<string>)
    ensures InCount(es + [e], k, done) == InCount(es, k, done) + (if e.1 == k && e.0 !in done then 1 else 0)
  {
    assert (es + [e])[..|es|] == es;
  }

  /** Emitting `n` lowers the live in-degree of `k` by the number of `n -> k` edges. */
  lemma {:induction false} InCountEmit(es: seq<Edge>, k: string, done: seq<string>, n: string)
    requires n !in done
    ensures InCount(es, k, done) == InCount(es, k, done + [n]) + multiset(Targets(es, n))[k]
    decreases |es|
  {
    if es != [] {
      InCountEmit(es[..|es| - 1], k, done, n);
    }
  }

  /** A zero live in-degree means every parent is done. */
  lemma {:induction false} InCountZero(es: seq<Edge>, k: string, done: seq<string>)
    requires InCount(es, k, done) == 0
    ensures forall j :: 0 <= j < |es| && es[j].1 == k ==> es[j].0 in done
    decreases |es|
  {
    if es != [] {
      InCountZero(es[..|es| - 1], k, done);
    }
  }

  /** A positive live in-degree names a parent that is not done. */
  lemma {:induction false} InCountPositive(es: seq<Edge>, k: string, done: seq<string>)
    requires InCount(es, k, done) > 0
    ensures exists j :: 0 <= j < |es| && es[j].1 == k && es[j].0 !in done
    decreases |es|
  {
    var last := es[|es| - 1];
    if !(last.1 == k && last.0 !in done) {
      InCountPositive(es[..|es| - 1], k, done);
      var j :| 0 <= j < |es| - 1 && es[..|es| - 1][j].1 == k && es[..|es| - 1][j].0 !in done;
      assert es[j] == es[..|es| - 1][j];
    } else {
      assert es[|es| - 1].1 == k && es[|es| - 1].0 !in done;
    }
  }

  /** Live in-degree only shrinks as more nodes are done. */
  lemma {:induction false} InCountMonotone(es: seq<Edge>, k: string, done: seq<string>, more: seq<string>)
    requires forall x :: x in done ==> x in more
    ensures InCount(es, k, more) <= InCount(es, k, done)
    decreases |es|
  {
    if es != [] {
      InCountMonotone(es[..|es| - 1], k, done, more);
    }
  }

  lemma {:induction false} DistinctCard<T>(s: seq<T>)
    requires NoDup(s)
    ensures |set x | x in s| == |s|
    decreases |s|
  {
    if s != [] {
      var init := s[..|s| - 1];
      DistinctCard(init);
      assert (set x | x in s) == (set x | x in init) + {s[|s| - 1]};
    }
  }

  /** A duplicate-free sequence drawn from `keys` is no longer than `keys`. */
  lemma DistinctWithin<T>(s: seq<T>, keys: seq<T>)
    requires NoDup(s) && NoDup(keys)
    requires forall x :: x in s ==> x in keys
    ensures |s| <= |keys|
  {
    DistinctCard(s);
    DistinctCard(keys);
    var a := set x | x in s;
    var b := set x | x in keys;
    assert a <= b;
    SubsetCard(a, b);
  }

  lemma {:induction false} SubsetCard<T>(a: set<T>, b: set<T>)
    requires a <= b
    ensures |a| <= |b|
    decreases |a|
  {
    if a != {} {
      var x :| x in a;
      SubsetCard(a - {x}, b - {x});
    }
  }

  /** The keys whose in-degree is zero, in key order: the queue's seed. */
  function ZeroKeys(keys: seq<string>, indeg: map<string, int>): seq<string> {
    if keys == [] then []
    else
      var k := keys[|keys| - 1];
      ZeroKeys(keys[..|keys| - 1], indeg) + (if k in indeg && indeg[k] == 0 then [k] else [])
  }

  /** The in-degree table before any node is emitted. */
  function InitialIndegree(keys: seq<string>, es: seq<Edge>): map<string, int> {
    map k | k in keys :: InCount(es, k, [])
  }

  /**
   * The inner loop as a function: each child in turn loses one from its
   * in-degree and joins the back of the queue on reaching zero.
   */
  function ReleaseF(kids: seq<string>, indeg: map<string, int>, queue: seq<string>): (map<string, int>, seq<string>) {
    if kids == [] then (indeg, queue)
    else if kids[0] !in indeg then ReleaseF(kids[1..], indeg, queue)
    else
      var m := kids[0];
      var d := indeg[m := indeg[m] - 1];
      ReleaseF(kids[1..], d, if d[m] == 0 then queue + [m] else queue)
  }

  /**
   * The outer loop as a function, for at most `fuel` turns: the head of the
   * queue is emitted and its children are released in edge order.
   */
  function Run(es: seq<Edge>, indeg: map<string, int>, queue: seq<string>, order: seq<string>, fuel: nat): seq<string>
    decreases fuel
  {
    if queue == [] || fuel == 0 then order
    else
      var r := ReleaseF(Targets(es, queue[0]), indeg, queue[1..]);
      Run(es, r.0, r.1, order + [queue[0]], fuel - 1)
  }

  /**
   * The order Kahn's algorithm emits with a first-in first-out queue: seeded
   * with the zero-in-degree keys in key order, popping from the front and
   * appending released children at the back. No run takes more turns than
   * there are keys.
   */
  function FifoOrder(keys: seq<string>, es: seq<Edge>): seq<string> {
    var indeg := InitialIndegree(keys, es);
    Run(es, indeg, ZeroKeys(keys, indeg), [], |keys|)
  }

  /** One turn of `Run`. */
  lemma RunStep(es: seq<Edge>, indeg0: map<string, int>, queue0: seq<string>, order0: seq<string>, fuel: nat,
                indeg: map<string, int>, queue: seq<string>)
    requires queue0 != [] && fuel > 0
    requires (indeg, queue) == ReleaseF(Targets(es, queue0[0]), indeg0, queue0[1..])
    ensures Run(es, indeg0, queue0, order0, fuel) == Run(es, indeg, queue, order0 + [queue0[0]], fuel - 1)
  {
  }

  /** `adjacency`: the children lists of every source, in edge order. */
  method BuildAdjacency(es: seq<Edge>) returns (adj: map<string, seq<string>>)
    ensures forall n :: Children(adj, n) == Targets(es, n)
  {
    adj := map[];
    var i := 0;
    while i < |es|
      invariant 0 <= i <= |es|
      invariant forall n :: Children(adj, n) == Targets(es[..i], n)
    {
      var e := es[i];
      assert es[..i + 1] == es[..i] + [e];
      ghost var prev := adj;
      adj := adj[e.0 := Children(adj, e.0) + [e.1]];
      AdjacencyStep(es[..i], e, prev, adj);
      i := i + 1;
    }
    assert es[..i] == es;
  }

  /** Appending `e` to the list of its source keeps every children list equal to its targets. */
  lemma AdjacencyStep(es: seq<Edge>, e: Edge, prev: map<string, seq<string>>, adj: map<string, seq<string>>)
    requires forall n :: Children(prev, n) == Targets(es, n)
    requires adj == prev[e.0 := Children(prev, e.0) + [e.1]]
    ensures forall n :: Children(adj, n) == Targets(es + [e], n)
  {
    forall n
      ensures Children(adj, n) == Targets(es + [e], n)
    {
      TargetsAppend(es, e, n);
    }
  }

  /** `indegree`: one zero per key, then one increment per edge into it. */
  method BuildIndegree(keys: seq<string>, es: seq<Edge>) returns (indeg: map<string, int>)
    requires forall j :: 0 <= j < |es| ==> es[j].1 in keys
    ensures forall k :: k in indeg <==> k in keys
    ensures forall k :: k in keys ==> indeg[k] == InCount(es, k, [])
    ensures indeg == InitialIndegree(keys, es)
  {
    indeg := map k | k in keys :: 0;
    var i := 0;
    while i < |es|
      invariant 0 <= i <= |es|
      invariant forall k :: k in indeg <==> k in keys
      invariant forall k :: k in keys ==> indeg[k] == InCount(es[..i], k, [])
    {
      var e := es[i];
      assert es[..i + 1] == es[..i] + [e];
      ghost var prev := indeg;
      indeg := indeg[e.1 := indeg[e.1] + 1];
      IndegreeStep(keys, es[..i], e, prev, indeg);
      i := i + 1;
    }
    assert es[..i] == es;
    assert indeg.Keys == InitialIndegree(keys, es).Keys;
  }

  /** Counting `e` at its target keeps every in-degree equal to its edge count. */
  lemma IndegreeStep(keys: seq<string>, es: seq<Edge>, e: Edge, prev: map<string, int>, indeg: map<string, int>)
    requires e.1 in prev
    requires forall k :: k in keys ==> k in prev && prev[k] == InCount(es, k, [])
    requires indeg == prev[e.1 := prev[e.1] + 1]
    ensures forall k :: k in keys ==> k in indeg && indeg[k] == InCount(es + [e], k, [])
  {
    forall k | k in keys
      ensures indeg[k] == InCount(es + [e], k, [])
    {
      InCountAppend(es, e, k, []);
    }
  }

  lemma NoDupAppend(s: seq<string>, x: string)
    requires NoDup(s) && x !in s
    ensures NoDup(s + [x])
  {
  }

  /** In a duplicate-free `a + b`, nothing is in both `a` and `b`. */
  lemma NoDupApart(a: seq<string>, b: seq<string>, x: string)
    requires NoDup(a + b)
    ensures !(x in a && x in b)
  {
    forall i, j | 0 <= i < |a| && 0 <= j < |b|
      ensures a[i] != b[j]
    {
      assert (a + b)[i] == a[i] && (a + b)[|a| + j] == b[j];
    }
  }

  /** The queue's seed: the zero-in-degree keys, in key order. */
  method InitialQueue(keys: seq<string>, indeg: map<string, int>) returns (queue: seq<string>)
    requires NoDup(keys)
    requires forall k :: k in keys ==> k in indeg
    ensures NoDup(queue)
    ensures forall x :: x in queue <==> x in keys && indeg[x] == 0
    ensures queue == ZeroKeys(keys, indeg)
  {
    queue := [];
    var i := 0;
    while i < |keys|
      invariant 0 <= i <= |keys|
      invariant forall x :: x in queue <==> x in keys[..i] && indeg[x] == 0
      invariant NoDup(queue)
      invariant queue == ZeroKeys(keys[..i], indeg)
    {
      assert keys[..i + 1] == keys[..i] + [keys[i]];
      assert keys[..i + 1][..i] == keys[..i];
      if indeg[keys[i]] == 0 {
        queue := queue + [keys[i]];
      }
      i := i + 1;
    }
    assert keys[..i] == keys;
  }

  /** Appending a node whose parents are all emitted keeps parents first. */
  lemma ParentsFirstExtend(es: seq<Edge>, order: seq<string>, n: string)
    requires ParentsFirst(es, order)
    requires forall j :: 0 <= j < |es| && es[j].1 == n ==> es[j].0 in order
    ensures ParentsFirst(es, order + [n])
  {
    var o := order + [n];
    forall i, j | 0 <= i < |o| && 0 <= j < |es| && es[j].1 == o[i]
      ensures es[j].0 in o[..i]
    {
      if i < |order| {
        assert o[..i] == order[..i];
      } else {
        assert o[..i] == order;
      }
    }
  }

  /**
   * The inner loop: one decrement per child edge of the node just emitted,
   * queueing each child whose in-degree reaches zero.
   */
  method Release(es: seq<Edge>, keys: seq<string>, order: seq<string>, kids: seq<string>,
                 indeg0: map<string, int>, queue0: seq<string>)
    returns (indeg: map<string, int>, queue: seq<string>)
    requires forall k :: k in indeg0 <==> k in keys
    requires forall x :: x in kids ==> x in keys
    requires forall k :: k in keys ==> indeg0[k] == InCount(es, k, order) + multiset(kids)[k]
    requires forall k :: k in keys ==> (k in order || k in queue0 <==> indeg0[k] == 0)
    requires NoDup(order + queue0)
    requires forall x :: x in order + queue0 ==> x in keys
    ensures forall k :: k in indeg <==> k in keys
    ensures forall k :: k in keys ==> indeg[k] == InCount(es, k, order)
    ensures forall k :: k in keys ==> (k in order || k in queue <==> indeg[k] == 0)
    ensures NoDup(order + queue)
    ensures forall x :: x in order + queue ==> x in keys
    ensures (indeg, queue) == ReleaseF(kids, indeg0, queue0)
  {
    indeg, queue := indeg0, queue0;
    ghost var spec := ReleaseF(kids, indeg0, queue0);
    var c := 0;
    while c < |kids|
      invariant 0 <= c <= |kids|
      invariant forall k :: k in indeg <==> k in keys
      invariant forall k :: k in keys ==> indeg[k] == InCount(es, k, order) + multiset(kids[c..])[k]
      invariant forall k :: k in keys ==> (k in order || k in queue <==> indeg[k] == 0)
      invariant NoDup(order + queue)
      invariant forall x :: x in order + queue ==> x in keys
      invariant spec == ReleaseF(kids[c..], indeg, queue)
    {
      assert kids[c..][1..] == kids[c + 1..];
      indeg, queue := Advance(es, keys, order, kids[c..], indeg, queue, spec);
      c := c + 1;
    }
    assert kids[c..] == [];
  }

  /** `Decrement`, with the pass it makes matched against `ReleaseF`. */
  method Advance(es: seq<Edge>, keys: seq<string>, order: seq<string>, rest: seq<string>,
                 indeg0: map<string, int>, queue0: seq<string>, ghost spec: (map<string, int>, seq<string>))
    returns (indeg: map<string, int>, queue: seq<string>)
    requires rest != [] && rest[0] in keys
    requires forall k :: k in indeg0 <==> k in keys
    requires forall k :: k in keys ==> indeg0[k] == InCount(es, k, order) + multiset(rest)[k]
    requires forall k :: k in keys ==> (k in order || k in queue0 <==> indeg0[k] == 0)
    requires NoDup(order + queue0)
    requires forall x :: x in order + queue0 ==> x in keys
    requires spec == ReleaseF(rest, indeg0, queue0)
    ensures forall k :: k in indeg <==> k in keys
    ensures forall k :: k in keys ==> indeg[k] == InCount(es, k, order) + multiset(rest[1..])[k]
    ensures forall k :: k in keys ==> (k in order || k in queue <==> indeg[k] == 0)
    ensures NoDup(order + queue)
    ensures forall x :: x in order + queue ==> x in keys
    ensures spec == ReleaseF(rest[1..], indeg, queue)
  {
    indeg, queue := Decrement(es, keys, order, rest, indeg0, queue0);
    ReleaseHead(rest, indeg0, queue0, indeg, queue);
  }

  /** `ReleaseF` taken one child further, on a child that is a key. */
  lemma ReleaseHead(rest: seq<string>, indeg0: map<string, int>, queue0: seq<string>,
                    indeg: map<string, int>, queue: seq<string>)
    requires rest != [] && rest[0] in indeg0
    requires indeg == indeg0[rest[0] := indeg0[rest[0]] - 1]
    requires queue == if indeg[rest[0]] == 0 then queue0 + [rest[0]] else queue0
    ensures ReleaseF(rest, indeg0, queue0) == ReleaseF(rest[1..], indeg, queue)
  {
  }

  /** One pass of that loop: the next child loses one from its in-degree and is queued on reaching zero. */
  method Decrement(es: seq<Edge>, keys: seq<string>, order: seq<string>, rest: seq<string>,
                   indeg0: map<string, int>, queue0: seq<string>)
    returns (indeg: map<string, int>, queue: seq<string>)
    requires rest != [] && rest[0] in keys
    requires forall k :: k in indeg0 <==> k in keys
    requires forall k :: k in keys ==> indeg0[k] == InCount(es, k, order) + multiset(rest)[k]
    requires forall k :: k in keys ==> (k in order || k in queue0 <==> indeg0[k] == 0)
    requires NoDup(order + queue0)
    requires forall x :: x in order + queue0 ==> x in keys
    ensures forall k :: k in indeg <==> k in keys
    ensures forall k :: k in keys ==> indeg[k] == InCount(es, k, order) + multiset(rest[1..])[k]
    ensures forall k :: k in keys ==> (k in order || k in queue <==> indeg[k] == 0)
    ensures NoDup(order + queue)
    ensures forall x :: x in order + queue ==> x in keys
    ensures indeg == indeg0[rest[0] := indeg0[rest[0]] - 1]
    ensures queue == if indeg[rest[0]] == 0 then queue0 + [rest[0]] else queue0
  {
    var m := rest[0];
    assert rest == [m] + rest[1..];
    indeg, queue := indeg0[m := indeg0[m] - 1], queue0;
    if indeg[m] == 0 {
      NoDupAppend(order + queue, m);
      assert order + (queue + [m]) == order + queue + [m];
      queue := queue + [m];
    }
  }

  /**
   * The Kahn pass. The result holds no key twice, lists every node after all
   * its parents, and leaves a key out only when some parent of it is left out
   * too, so on a cycle every node is left out and the loop still ends.
   */
  method Order(keys: seq<string>, es: seq<Edge>) returns (order: seq<string>)
    requires NoDup(keys)
    requires forall j :: 0 <= j < |es| ==> es[j].1 in keys
    ensures NoDup(order)
    ensures forall x :: x in order ==> x in keys
    ensures ParentsFirst(es, order)
    ensures forall k :: k in keys && k !in order ==> InCount(es, k, order) > 0
    ensures order == FifoOrder(keys, es)
  {
    var adj := BuildAdjacency(es);
    var indeg := BuildIndegree(keys, es);
    var queue := InitialQueue(keys, indeg);
    DistinctWithin(queue, keys);
    order := Drain(es, keys, adj, indeg, queue, FifoOrder(keys, es));
  }

  /** The `while queue` loop of the Kahn pass, run from the seeded queue to the end. */
  method Drain(es: seq<Edge>, keys: seq<string>, adj: map<string, seq<string>>, indeg0: map<string, int>,
               queue0: seq<string>, ghost spec: seq<string>)
    returns (order: seq<string>)
    requires NoDup(keys) && forall j :: 0 <= j < |es| ==> es[j].1 in keys
    requires forall n :: Children(adj, n) == Targets(es, n)
    requires forall k :: k in indeg0 <==> k in keys
    requires forall k :: k in keys ==> indeg0[k] == InCount(es, k, [])
    requires forall k :: k in keys ==> (k in queue0 <==> indeg0[k] == 0)
    requires NoDup(queue0) && forall x :: x in queue0 ==> x in keys
    requires |queue0| <= |keys| && spec == Run(es, indeg0, queue0, [], |keys|)
    ensures NoDup(order)
    ensures forall x :: x in order ==> x in keys
    ensures ParentsFirst(es, order)
    ensures forall k :: k in keys && k !in order ==> InCount(es, k, order) > 0
    ensures order == spec
  {
    var indeg, queue := indeg0, queue0;
    order := [];
    assert order + queue == queue;
    ghost var fuel := |keys|;
    while queue != []
      invariant forall k :: k in indeg <==> k in keys
      invariant forall k :: k in keys ==> indeg[k] == InCount(es, k, order)
      invariant forall k :: k in keys ==> (k in order || k in queue <==> indeg[k] == 0)
      invariant NoDup(order + queue)
      invariant forall x :: x in order + queue ==> x in keys
      invariant ParentsFirst(es, order)
      invariant |order| + |queue| <= |keys| && fuel == |keys| - |order|
      invariant spec == Run(es, indeg, queue, order, fuel)
      decreases |keys| - |order|
    {
      indeg, queue, order, fuel := Step(es, keys, Children(adj, queue[0]), indeg, queue, order, spec, fuel);
    }
    assert order + queue == order;
  }

  /**
   * One turn of the Kahn loop: the head of the queue is emitted, and each of
   * its targets loses one from its in-degree and joins the queue on reaching
   * zero. The loop's invariants are kept and one more key is emitted.
   */
  method Pop(es: seq<Edge>, keys: seq<string>, kids: seq<string>, indeg0: map<string, int>, queue0: seq<string>,
             order0: seq<string>)
    returns (indeg: map<string, int>, queue: seq<string>, order: seq<string>)
    requires NoDup(keys) && forall j :: 0 <= j < |es| ==> es[j].1 in keys
    requires queue0 != [] && kids == Targets(es, queue0[0])
    requires forall k :: k in indeg0 <==> k in keys
    requires forall k :: k in keys ==> indeg0[k] == InCount(es, k, order0)
    requires forall k :: k in keys ==> (k in order0 || k in queue0 <==> indeg0[k] == 0)
    requires NoDup(order0 + queue0)
    requires forall x :: x in order0 + queue0 ==> x in keys
    requires ParentsFirst(es, order0)
    ensures forall k :: k in indeg <==> k in keys
    ensures forall k :: k in keys ==> indeg[k] == InCount(es, k, order)
    ensures forall k :: k in keys ==> (k in order || k in queue <==> indeg[k] == 0)
    ensures NoDup(order + queue)
    ensures forall x :: x in order + queue ==> x in keys
    ensures ParentsFirst(es, order)
    ensures order == order0 + [queue0[0]] && |order| + |queue| <= |keys|
    ensures (indeg, queue) == ReleaseF(kids, indeg0, queue0[1..])
  {
    var n := queue0[0];
    assert queue0 == [n] + queue0[1..];
    assert order0 + queue0 == (order0 + [n]) + queue0[1..];
    NoDupApart(order0 + [n], queue0[1..], n);
    NoDupApart(order0, queue0, n);
    InCountZero(es, n, order0);
    ParentsFirstExtend(es, order0, n);
    order := order0 + [n];
    EmitStep(es, keys, order0, n);
    indeg, queue := Release(es, keys, order, kids, indeg0, queue0[1..]);
    DistinctWithin(order + queue, keys);
  }

  /** `Pop`, with the turn it takes matched against the FIFO run it follows. */
  method Step(es: seq<Edge>, keys: seq<string>, kids: seq<string>, indeg0: map<string, int>, queue0: seq<string>,
              order0: seq<string>, ghost spec: seq<string>, ghost fuel0: nat)
    returns (indeg: map<string, int>, queue: seq<string>, order: seq<string>, ghost fuel: nat)
    requires NoDup(keys) && forall j :: 0 <= j < |es| ==> es[j].1 in keys
    requires queue0 != [] && kids == Targets(es, queue0[0])
    requires forall k :: k in indeg0 <==> k in keys
    requires forall k :: k in keys ==> indeg0[k] == InCount(es, k, order0)
    requires forall k :: k in keys ==> (k in order0 || k in queue0 <==> indeg0[k] == 0)
    requires NoDup(order0 + queue0)
    requires forall x :: x in order0 + queue0 ==> x in keys
    requires ParentsFirst(es, order0)
    requires fuel0 == |keys| - |order0| && spec == Run(es, indeg0, queue0, order0, fuel0)
    ensures forall k :: k in indeg <==> k in keys
    ensures forall k :: k in keys ==> indeg[k] == InCount(es, k, order)
    ensures forall k :: k in keys ==> (k in order || k in queue <==> indeg[k] == 0)
    ensures NoDup(order + queue)
    ensures forall x :: x in order + queue ==> x in keys
    ensures ParentsFirst(es, order)
    ensures order == order0 + [queue0[0]] && |order| + |queue| <= |keys|
    ensures fuel == |keys| - |order| && spec == Run(es, indeg, queue, order, fuel)
  {
    indeg, queue, order := Pop(es, keys, kids, indeg0, queue0, order0);
    RunStep(es, indeg0, queue0, order0, fuel0, indeg, queue);
    fuel := fuel0 - 1;
  }

  /** Emitting `n` takes one off the live in-degree of each of its targets, all of them keys. */
  lemma EmitStep(es: seq<Edge>, keys: seq<string>, done: seq<string>, n: string)
    requires forall j :: 0 <= j < |es| ==> es[j].1 in keys
    requires n !in done
    ensures forall k :: k in keys ==> InCount(es, k, done) == InCount(es, k, done + [n]) + multiset(Targets(es, n))[k]
    ensures forall x :: x in Targets(es, n) ==> x in keys
  {
    forall k | k in keys
      ensures InCount(es, k, done) == InCount(es, k, done + [n]) + multiset(Targets(es, n))[k]
    {
      InCountEmit(es, k, done, n);
    }
    forall x | x in Targets(es, n)
      ensures x in keys
    {
      TargetsIn(es, n, x);
    }
  }

  /** Every target listed for `n` comes from some edge `n -> m`. */
  lemma {:induction false} TargetsIn(es: seq<Edge>, n: string, m: string)
    requires m in Targets(es, n)
    ensures exists j :: 0 <= j < |es| && es[j] == (n, m)
    decreases |es|
  {
    var init := es[..|es| - 1];
    if m in Targets(init, n) {
      TargetsIn(init, n, m);
      var j :| 0 <= j < |init| && init[j] == (n, m);
      assert es[j] == init[j];
    } else {
      assert es[|es| - 1] == (n, m);
    }
  }
}

/** What a Kahn order promises, and what follows from it about cycles. */
module KahnFacts {
  import opened Kahn

  /** The contract of `Kahn.Order`, as one predicate. */
  predicate IsKahnOrder(keys: seq<string>, es: seq<Edge>, order: seq<string>) {
    && NoDup(order)
    && (forall x :: x in order ==> x in keys)
    && ParentsFirst(es, order)
    && Blocked(keys, es, order)
  }

  /**
   * Every key left out still has a live in-degree: some edge into it comes
   * from a node that is left out too (see `InCountPositive`).
   */
  predicate Blocked(keys: seq<string>, es: seq<Edge>, order: seq<string>) {
    forall k :: k in keys && k !in order ==> InCount(es, k, order) > 0
  }

  /** `rank` numbers the nodes so that every edge goes from a lower to a higher number. */
  predicate Ranked(keys: seq<string>, es: seq<Edge>, rank: map<string, nat>) {
    && (forall k :: k in keys ==> k in rank)
    && (forall j :: 0 <= j < |es| ==> es[j].0 in rank && es[j].1 in rank && rank[es[j].0] < rank[es[j].1])
  }

  /** `c` is a cycle: each node has an edge to the next, and the last one to the first. */
  predicate IsCycle(es: seq<Edge>, c: seq<string>) {
    && |c| > 0
    && (forall m :: 0 <= m < |c| - 1 ==> (c[m], c[m + 1]) in es)
    && (c[|c| - 1], c[0]) in es
  }

  function Pos(s: seq<string>, x: string): (r: nat)
    requires x in s
    ensures r < |s| && s[r] == x
  {
    if s[0] == x then 0 else 1 + Pos(s[1..], x)
  }

  lemma PosUnique(s: seq<string>, x: string, i: nat)
    requires NoDup(s) && i < |s| && s[i] == x
    ensures Pos(s, x) == i
  {
  }

  /** In a Kahn order, a parent sits strictly before its child. */
  lemma ParentBefore(keys: seq<string>, es: seq<Edge>, order: seq<string>, j: nat)
    requires IsKahnOrder(keys, es, order)
    requires j < |es| && es[j].1 in order
    ensures es[j].0 in order && Pos(order, es[j].0) < Pos(order, es[j].1)
  {
    var i := Pos(order, es[j].1);
    assert es[j].0 in order[..i];
    var p :| 0 <= p < i && order[..i][p] == es[j].0;
    PosUnique(order, es[j].0, p);
  }

  /** When every edge starts at a key and the edges can be ranked, the Kahn order holds every key. */
  lemma {:induction false} RankedAllEmitted(keys: seq<string>, es: seq<Edge>, order: seq<string>,
                                            rank: map<string, nat>, k: string)
    requires Blocked(keys, es, order) && Ranked(keys, es, rank)
    requires forall j :: 0 <= j < |es| ==> es[j].0 in keys
    requires k in keys
    ensures k in order
    decreases rank[k]
  {
    if k !in order {
      InCountPositive(es, k, order);
      var j :| 0 <= j < |es| && es[j].1 == k && es[j].0 !in order;
      var p := es[j].0;
      assert p in keys && rank[p] < rank[k];
      RankedAllEmitted(keys, es, order, rank, p);
      assert false;
    }
  }

  /** Conversely, when the order holds every key (and every edge starts at a key), positions rank the edges. */
  lemma AllEmittedRanked(keys: seq<string>, es: seq<Edge>, order: seq<string>)
    requires IsKahnOrder(keys, es, order)
    requires forall k :: k in keys ==> k in order
    requires forall j :: 0 <= j < |es| ==> es[j].0 in keys && es[j].1 in keys
    ensures Ranked(keys, es, map x | x in order :: Pos(order, x))
  {
    forall j | 0 <= j < |es|
      ensures Pos(order, es[j].0) < Pos(order, es[j].1)
    {
      ParentBefore(keys, es, order, j);
    }
  }

  /** Walking a cycle backwards from an emitted node reaches its first node at a lower position. */
  lemma {:induction false} CycleBack(keys: seq<string>, es: seq<Edge>, order: seq<string>, c: seq<string>, m: nat)
    requires IsKahnOrder(keys, es, order) && IsCycle(es, c)
    requires m < |c| && c[m] in order
    ensures c[0] in order && Pos(order, c[0]) + m <= Pos(order, c[m])
    decreases m
  {
    if m > 0 {
      var j :| 0 <= j < |es| && es[j] == (c[m - 1], c[m]);
      ParentBefore(keys, es, order, j);
      CycleBack(keys, es, order, c, m - 1);
    }
  }

  /** No node of a cycle is ever emitted. */
  lemma CycleLeftOut(keys: seq<string>, es: seq<Edge>, order: seq<string>, c: seq<string>)
    requires IsKahnOrder(keys, es, order) && IsCycle(es, c)
    ensures forall m :: 0 <= m < |c| ==> c[m] !in order
  {
    forall m | 0 <= m < |c|
      ensures c[m] !in order
    {
      if c[m] in order {
        CycleBack(keys, es, order, c, m);
        var last := |c| - 1;
        var j :| 0 <= j < |es| && es[j] == (c[last], c[0]);
        ParentBefore(keys, es, order, j);
        CycleBack(keys, es, order, c, last);
        assert false;
      }
    }
  }

  /** The edges admit a ranking: the graph has no cycle. */
  ghost predicate Acyclic(keys: seq<string>, es: seq<Edge>) {
    exists rank :: Ranked(keys, es, rank)
  }

  /** A duplicate-free sequence drawn from `keys` and as long as `keys` holds every key. */
  lemma FullLength(order: seq<string>, keys: seq<string>, k: string)
    requires NoDup(order) && NoDup(keys)
    requires forall x :: x in order ==> x in keys
    requires |order| == |keys| && k in keys
    ensures k in order
  {
    if k !in order {
      DistinctCard(order);
      DistinctCard(keys);
      var a := set x | x in order;
      var b := set x | x in keys;
      assert a <= b - {k};
      SubsetCard(a, b - {k});
      assert false;
    }
  }

  /**
   * The Kahn pass orders every key exactly when the graph is acyclic, so the
   * validator's `visited != len(node_ids)` test is a cycle test.
   */
  lemma EmitsAllIffAcyclic(keys: seq<string>, es: seq<Edge>, order: seq<string>)
    requires NoDup(keys) && IsKahnOrder(keys, es, order)
    requires forall j :: 0 <= j < |es| ==> es[j].0 in keys && es[j].1 in keys
    ensures |order| == |keys| <==> Acyclic(keys, es)
  {
    if |order| == |keys| {
      forall k | k in keys
        ensures k in order
      {
        FullLength(order, keys, k);
      }
      AllEmittedRanked(keys, es, order);
    } else if Acyclic(keys, es) {
      var rank :| Ranked(keys, es, rank);
      forall k | k in keys
        ensures k in order
      {
        RankedAllEmitted(keys, es, order, rank, k);
      }
      DistinctWithin(keys, order);
      DistinctWithin(order, keys);
    }
  }
}
