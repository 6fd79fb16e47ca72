/**
 * Available fault current by a Thevenin back-bone: every node with a voltage
 * and a utility fault current is seeded with the source impedance that fault
 * implies, and a breadth-first pass adds each edge's conductor impedance on
 * the way downstream, traversing each (from, to) pair at most once.
 */
module MvpScc {
  import opened Wrappers
  import opened Numerics
  import opened MvpModels
  import opened MvpNec

  /** One row of the short-circuit table. */
  datatype FaultRow = FaultRow(bus: string, availableFaultKA: real, zThOhm: real)

  /** The state of the breadth-first pass: the queue, the pairs already traversed and the impedance map. */
  datatype Bfs = Bfs(queue: seq<string>, seen: set<(string, string)>, z: map<string, Complex>)

  // ---------------------------------------------------------------- impedance

  /**
   * `_edge_impedance`: zero without a cable, a length or a size; otherwise the
   * run's resistance and reactance over `length / 1000 / max(1, qty)`.
   */
  function EdgeImpedance(tables: Tables, e: Edge): (r: Result<Complex, Error>)
    ensures e.cable.None? || !Truthy(e.cable.value.lengthFt) || e.cable.value.sizeAwg == [] ==> r == Ok(Complex(0.0, 0.0))
    ensures e.cable.Some? && Truthy(e.cable.value.lengthFt) && e.cable.value.sizeAwg != [] ==>
      (r.Ok? <==> ResistancePerKft(e.cable.value.conductor, e.cable.value.sizeAwg).Ok? &&
                  ReactancePerKft(e.cable.value.installation).Ok?)
    ensures r.Err? ==> r.error == TableLookupError
    ensures r.Ok? && e.cable.Some? && e.cable.value.lengthFt.Some? && e.cable.value.lengthFt.value >= 0.0 ==>
      r.value.re >= 0.0 && r.value.im >= 0.0
  {
    if e.cable.None? || !Truthy(e.cable.value.lengthFt) || e.cable.value.sizeAwg == [] then Ok(Complex(0.0, 0.0))
    else
      var c := e.cable.value;
      match ResistancePerKft(c.conductor, c.sizeAwg)
      case Err(err) => Err(err)
      case Ok(rKft) =>
        match ReactancePerKft(c.installation)
        case Err(err) => Err(err)
        case Ok(xKft) => Ok(Complex(Share(rKft, c.lengthFt.value, c.qtyPerPhase), Share(xKft, c.lengthFt.value, c.qtyPerPhase)))
  }

  /** A per-1000-ft value times `length / 1000 / max(1, qty)`. */
  function Share(perKft: real, lengthFt: real, qty: int): (r: real)
    ensures perKft >= 0.0 && lengthFt >= 0.0 ==> r >= 0.0
  {
    var factor := lengthFt / 1000.0 / (MaxInt(1, qty) as real);
    assert lengthFt >= 0.0 ==> factor >= 0.0;
    perKft * factor
  }

  /** The voltage `_initial_impedance` seeds with: line-to-line, then primary, then secondary. */
  function SeedVoltage(n: Node): real {
    FirstTruthy(n.voltageLL, n.priV, n.secV)
  }

  /** The voltage a fault row is reported at: line-to-line, then secondary, then primary. */
  function RowVoltage(n: Node): real {
    FirstTruthy(n.voltageLL, n.secV, n.priV)
  }

  /** The source impedance a fault of `faultKA` at `voltage` implies: V / (√3 · kA · 1000). */
  function SourceImpedance(voltage: real, faultKA: real): real
    requires faultKA != 0.0
  {
    voltage / (Sqrt3 * (faultKA * 1000.0))
  }

  /** A node's seed: its source impedance when it has both a voltage and a fault current. */
  function Seed(n: Node): (r: Option<Complex>)
    ensures r.Some? <==> SeedVoltage(n) != 0.0 && Truthy(n.availableFaultKA)
    ensures r.Some? ==> r.value == Complex(SourceImpedance(SeedVoltage(n), n.availableFaultKA.value), 0.0)
  {
    if SeedVoltage(n) == 0.0 || !Truthy(n.availableFaultKA) then None
    else Some(Complex(SourceImpedance(SeedVoltage(n), n.availableFaultKA.value), 0.0))
  }

  /**
   * The seed map and its key order (the order in which ids were first
   * seeded) over the nodes: a later node with the same id overwrites the
   * value but keeps the id's place.
   */
  function Seeds(nodes: seq<Node>): (r: (map<string, Complex>, seq<string>))
    ensures forall id :: id in r.0 <==> id in r.1
    ensures forall i, j :: 0 <= i < j < |r.1| ==> r.1[i] != r.1[j]
    decreases |nodes|
  {
    if nodes == [] then (map[], [])
    else
      var prev := Seeds(nodes[..|nodes| - 1]);
      var n := nodes[|nodes| - 1];
      match Seed(n)
      case None => prev
      case Some(z) => (prev.0[n.id := z], if n.id in prev.0 then prev.1 else prev.1 + [n.id])
  }

  /** Some node with this id has a seed. */
  predicate SeededId(nodes: seq<Node>, id: string) {
    exists i :: 0 <= i < |nodes| && nodes[i].id == id && Seed(nodes[i]).Some?
  }

  /** The seed map after one more node: its seed, if any, is written over the id. */
  lemma SeedsStep(nodes: seq<Node>)
    requires nodes != []
    ensures Seeds(nodes).0 ==
      var n := nodes[|nodes| - 1];
      if Seed(n).Some? then Seeds(nodes[..|nodes| - 1]).0[n.id := Seed(n).value] else Seeds(nodes[..|nodes| - 1]).0
  {
  }

  /** Some node with the id is seeded iff one before the last is, or the last one is. */
  lemma SeededIdStep(nodes: seq<Node>, id: string)
    requires nodes != []
    ensures SeededId(nodes, id) <==>
      SeededId(nodes[..|nodes| - 1], id) || (nodes[|nodes| - 1].id == id && Seed(nodes[|nodes| - 1]).Some?)
  {
    var init := nodes[..|nodes| - 1];
    if SeededId(init, id) {
      var i :| 0 <= i < |init| && init[i].id == id && Seed(init[i]).Some?;
      assert nodes[i] == init[i];
    }
    if SeededId(nodes, id) {
      var i :| 0 <= i < |nodes| && nodes[i].id == id && Seed(nodes[i]).Some?;
      if i < |init| {
        assert init[i] == nodes[i];
      }
    }
  }

  /** An id is in the seed map exactly when some node with that id has a voltage and a fault current. */
  lemma {:induction false} SeedsAreSeededNodes(nodes: seq<Node>, id: string)
    ensures id in Seeds(nodes).0 <==> SeededId(nodes, id)
    decreases |nodes|
  {
    if nodes != [] {
      SeedsAreSeededNodes(nodes[..|nodes| - 1], id);
      SeedsStep(nodes);
      SeededIdStep(nodes, id);
    }
  }

  /** The value seeded for an id is the seed of the last node with that id that has one. */
  lemma {:induction false} SeedsLastWins(nodes: seq<Node>, i: nat)
    requires i < |nodes| && Seed(nodes[i]).Some?
    requires forall j :: i < j < |nodes| && nodes[j].id == nodes[i].id ==> Seed(nodes[j]).None?
    ensures nodes[i].id in Seeds(nodes).0 && Seeds(nodes).0[nodes[i].id] == Seed(nodes[i]).value
    decreases |nodes|
  {
    var init := nodes[..|nodes| - 1];
    if i < |init| {
      assert init[i] == nodes[i];
      forall j | i < j < |init| && init[j].id == init[i].id
        ensures Seed(init[j]).None?
      {
        assert init[j] == nodes[j];
      }
      SeedsLastWins(init, i);
    }
  }

  /**
   * `_initial_impedance`: the loop over the nodes that seeds the impedance
   * map, keeping the order in which ids were first seeded.
   */
  method InitialImpedance(nodes: seq<Node>) returns (values: map<string, Complex>, order: seq<string>)
    ensures (values, order) == Seeds(nodes)
  {
    values, order := map[], [];
    var i := 0;
    while i < |nodes|
      invariant 0 <= i <= |nodes|
      invariant (values, order) == Seeds(nodes[..i])
    {
      assert nodes[..i + 1][..i] == nodes[..i];
      var n := nodes[i];
      var voltage := FirstTruthy(n.voltageLL, n.priV, n.secV);
      if voltage != 0.0 && Truthy(n.availableFaultKA) {
        if n.id !in values {
          order := order + [n.id];
        }
        values := values[n.id := Complex(SourceImpedance(voltage, n.availableFaultKA.value), 0.0)];
      }
      i := i + 1;
    }
    assert nodes[..i] == nodes;
  }

  // ------------------------------------------------------ breadth-first pass

  function PairOf(e: Edge): (string, string) {
    (e.fromId, e.toId)
  }

  /** The distinct (from, to) pairs of the edges. */
  function PairSet(edges: seq<Edge>): set<(string, string)> {
    set i | 0 <= i < |edges| :: PairOf(edges[i])
  }

  /** The edges leaving `p`, in edge order. */
  function ChildEdges(edges: seq<Edge>, p: string): (r: seq<Edge>)
    ensures forall k :: 0 <= k < |r| ==> r[k].fromId == p && r[k] in edges
    decreases |edges|
  {
    if edges == [] then []
    else
      var rest := ChildEdges(edges[..|edges| - 1], p);
      if edges[|edges| - 1].fromId == p then rest + [edges[|edges| - 1]] else rest
  }

  lemma PairInPairSet(edges: seq<Edge>, e: Edge)
    requires e in edges
    ensures PairOf(e) in PairSet(edges)
  {
    var i :| 0 <= i < |edges| && edges[i] == e;
  }

  /** The children of `p` in the map built from the edges, none when it has no entry. */
  function Kids(children: map<string, seq<Edge>>, p: string): seq<Edge> {
    if p in children then children[p] else []
  }

  /**
   * The loop that builds the children map: each edge is appended to the list
   * of its source, so the list of `p` holds the edges leaving `p` in edge order.
   */
  method BuildChildren(edges: seq<Edge>) returns (children: map<string, seq<Edge>>)
    ensures forall p :: Kids(children, p) == ChildEdges(edges, p)
  {
    children := map[];
    var i := 0;
    while i < |edges|
      invariant 0 <= i <= |edges|
      invariant forall p :: Kids(children, p) == ChildEdges(edges[..i], p)
    {
      assert edges[..i + 1][..i] == edges[..i];
      var e := edges[i];
      children := children[e.fromId := Kids(children, e.fromId) + [e]];
      i := i + 1;
    }
    assert edges[..i] == edges;
  }

  /** Traversing one child edge of a parent whose impedance is `pz`; an already traversed pair is skipped. */
  function Visit(tables: Tables, e: Edge, pz: Complex, s: Bfs): (r: Result<Bfs, Error>)
    ensures r.Err? ==> r.error == TableLookupError
    ensures PairOf(e) in s.seen ==> r == Ok(s)
    ensures PairOf(e) !in s.seen ==> (r.Ok? <==> EdgeImpedance(tables, e).Ok?)
    ensures PairOf(e) !in s.seen && r.Ok? ==>
      r.value == Bfs(s.queue + [e.toId], s.seen + {PairOf(e)}, s.z[e.toId := pz.Add(EdgeImpedance(tables, e).value)])
  {
    if PairOf(e) in s.seen then Ok(s)
    else
      match EdgeImpedance(tables, e)
      case Err(err) => Err(err)
      case Ok(ez) => Ok(Bfs(s.queue + [e.toId], s.seen + {PairOf(e)}, s.z[e.toId := pz.Add(ez)]))
  }

  /** Traversing the child edges in order, stopping at the first lookup error. */
  function ScanChildren(tables: Tables, kids: seq<Edge>, pz: Complex, s: Bfs): (r: Result<Bfs, Error>)
    ensures r.Err? ==> r.error == TableLookupError
    ensures r.Ok? ==> s.seen <= r.value.seen && |r.value.queue| == |s.queue| + |r.value.seen - s.seen|
    decreases |kids|
  {
    if kids == [] then Ok(s)
    else
      match ScanChildren(tables, kids[..|kids| - 1], pz, s)
      case Err(err) => Err(err)
      case Ok(s1) =>
        var r := Visit(tables, kids[|kids| - 1], pz, s1);
        assert r.Ok? && PairOf(kids[|kids| - 1]) !in s1.seen ==>
          r.value.seen - s.seen == (s1.seen - s.seen) + {PairOf(kids[|kids| - 1])};
        r
  }

  /** The scan only adds pairs of the scanned edges. */
  lemma {:induction false} ScanChildrenSeen(tables: Tables, kids: seq<Edge>, pz: Complex, s: Bfs, universe: set<(string, string)>)
    requires forall k :: 0 <= k < |kids| ==> PairOf(kids[k]) in universe
    ensures ScanChildren(tables, kids, pz, s).Ok? ==> ScanChildren(tables, kids, pz, s).value.seen <= s.seen + universe
    decreases |kids|
  {
    if kids != [] {
      ScanChildrenSeen(tables, kids[..|kids| - 1], pz, s, universe);
    }
  }

  /** One turn of the pass: pop the head of the queue and traverse its child edges if it has an impedance. */
  function Pop(tables: Tables, edges: seq<Edge>, s: Bfs): (r: Result<Bfs, Error>)
    requires s.queue != []
    ensures r.Err? ==> r.error == TableLookupError
  {
    var parent := s.queue[0];
    var rest := Bfs(s.queue[1..], s.seen, s.z);
    if parent !in s.z then Ok(rest)
    else ScanChildren(tables, ChildEdges(edges, parent), s.z[parent], rest)
  }

  /** A turn keeps the traversed pairs among the edges' pairs and either traverses a new pair or shortens the queue. */
  lemma PopProgress(tables: Tables, edges: seq<Edge>, s: Bfs)
    requires s.queue != [] && s.seen <= PairSet(edges) && Pop(tables, edges, s).Ok?
    ensures var next := Pop(tables, edges, s).value;
      next.seen <= PairSet(edges) &&
      (|PairSet(edges) - next.seen| < |PairSet(edges) - s.seen| ||
       (next.seen == s.seen && |next.queue| < |s.queue|))
  {
    var parent := s.queue[0];
    var rest := Bfs(s.queue[1..], s.seen, s.z);
    var next := Pop(tables, edges, s).value;
    if parent in s.z {
      var kids := ChildEdges(edges, parent);
      forall k | 0 <= k < |kids|
        ensures PairOf(kids[k]) in PairSet(edges)
      {
        PairInPairSet(edges, kids[k]);
      }
      ScanChildrenSeen(tables, kids, s.z[parent], rest, PairSet(edges));
    }
    if next.seen != s.seen {
      var x :| x in next.seen && x !in s.seen;
      var u := PairSet(edges);
      assert u - next.seen < u - s.seen by {
        assert x in u - s.seen && x !in u - next.seen;
      }
    }
  }

  /** The pass to its end: the impedance map once the queue is empty, or the first lookup error. */
  function BfsRun(tables: Tables, edges: seq<Edge>, s: Bfs): (r: Result<map<string, Complex>, Error>)
    requires s.seen <= PairSet(edges)
    ensures r.Err? ==> r.error == TableLookupError
    decreases |PairSet(edges) - s.seen|, |s.queue|
  {
    if s.queue == [] then Ok(s.z)
    else
      match Pop(tables, edges, s)
      case Err(err) => Err(err)
      case Ok(next) =>
        PopProgress(tables, edges, s);
        BfsRun(tables, edges, next)
  }

  /** The scan of one more child edge is a visit after the scan so far. */
  lemma ScanStep(tables: Tables, kids: seq<Edge>, pz: Complex, s: Bfs, j: nat)
    requires j < |kids|
    ensures ScanChildren(tables, kids[..j + 1], pz, s) ==
      match ScanChildren(tables, kids[..j], pz, s)
      case Err(err) => Err(err)
      case Ok(s1) => Visit(tables, kids[j], pz, s1)
  {
    assert kids[..j + 1][..j] == kids[..j];
  }

  /** A scan that fails on a prefix of the child edges fails on all of them. */
  lemma {:induction false} ScanErrPersists(tables: Tables, kids: seq<Edge>, pz: Complex, s: Bfs, n: nat)
    requires n <= |kids| && ScanChildren(tables, kids[..n], pz, s).Err?
    ensures ScanChildren(tables, kids, pz, s).Err?
    decreases |kids| - n
  {
    if n < |kids| {
      ScanStep(tables, kids, pz, s, n);
      ScanErrPersists(tables, kids, pz, s, n + 1);
    } else {
      assert kids[..n] == kids;
    }
  }

  /**
   * The breadth-first loop of `available_fault`: pop a bus, and for each of
   * its child edges whose (from, to) pair has not been traversed, mark it,
   * set the child's impedance to the parent's plus the edge's and enqueue the
   * child. Every push but the seeds traverses a new pair, so there are at most
   * as many pushes as seeds plus distinct pairs.
   */
  method Propagate(tables: Tables, edges: seq<Edge>, seeds: map<string, Complex>, order: seq<string>)
    returns (r: Result<map<string, Complex>, Error>, ghost pushes: nat)
    ensures r == BfsRun(tables, edges, Bfs(order, {}, seeds))
    ensures pushes <= |order| + |PairSet(edges)|
  {
    var children := BuildChildren(edges);
    var queue, seen, z := order, {}, seeds;
    pushes := |order|;
    while queue != []
      invariant seen <= PairSet(edges)
      invariant pushes == |order| + |seen|
      invariant BfsRun(tables, edges, Bfs(queue, seen, z)) == BfsRun(tables, edges, Bfs(order, {}, seeds))
      decreases |PairSet(edges) - seen|, |queue|
    {
      ghost var before := Bfs(queue, seen, z);
      var parent := queue[0];
      if parent in z {
        var next := ScanKids(tables, Kids(children, parent), z[parent], Bfs(queue[1..], seen, z));
        if next.Err? {
          return Err(next.error), pushes;
        }
        PopProgress(tables, edges, before);
        SeenGrows(seen, next.value.seen);
        pushes := pushes + |next.value.seen - seen|;
        queue, seen, z := next.value.queue, next.value.seen, next.value.z;
      } else {
        queue := queue[1..];
      }
    }
    r := Ok(z);
  }

  lemma SeenGrows(a: set<(string, string)>, b: set<(string, string)>)
    requires a <= b
    ensures |b| == |a| + |b - a|
  {
    assert b == a + (b - a);
  }

  /** The inner loop over one parent's child edges. */
  method ScanKids(tables: Tables, kids: seq<Edge>, pz: Complex, start: Bfs) returns (r: Result<Bfs, Error>)
    ensures r == ScanChildren(tables, kids, pz, start)
  {
    var queue, seen, z := start.queue, start.seen, start.z;
    var j := 0;
    while j < |kids|
      invariant 0 <= j <= |kids|
      invariant ScanChildren(tables, kids[..j], pz, start) == Ok(Bfs(queue, seen, z))
    {
      var e := kids[j];
      ScanStep(tables, kids, pz, start, j);
      if (e.fromId, e.toId) !in seen {
        var ez := EdgeImpedance(tables, e);
        if ez.Err? {
          ScanErrPersists(tables, kids, pz, start, j + 1);
          return Err(ez.error);
        }
        seen := seen + {(e.fromId, e.toId)};
        z := z[e.toId := pz.Add(ez.value)];
        queue := queue + [e.toId];
      }
      j := j + 1;
    }
    assert kids[..j] == kids;
    r := Ok(Bfs(queue, seen, z));
  }

  // ------------------------------------------------------------- fault rows

  /**
   * The row for a node: none when it has no impedance (or a zero one) or no
   * voltage, else the fault V / (√3 · |z|) / 1000 in kA and |z|.
   */
  function RowFor(n: Node, z: map<string, Complex>): (r: Option<FaultRow>)
    ensures r.Some? <==> n.id in z && !z[n.id].IsZero() && RowVoltage(n) != 0.0
    ensures r.Some? ==> r.value.bus == n.id && r.value.zThOhm == z[n.id].Magnitude() && r.value.zThOhm > 0.0
    ensures r.Some? ==> r.value.availableFaultKA == RowVoltage(n) / (Sqrt3 * r.value.zThOhm) / 1000.0
  {
    if n.id !in z || z[n.id].IsZero() then None
    else if RowVoltage(n) == 0.0 then None
    else
      var m := z[n.id].Magnitude();
      Some(FaultRow(n.id, RowVoltage(n) / (Sqrt3 * m) / 1000.0, m))
  }

  /**
   * Ohm's law on a fault row as `RowFor` builds it: the fault current, times
   * 1000 and √3·|z|, gives back the bus voltage.
   */
  lemma FaultRowOhmsLaw(row: FaultRow, voltage: real)
    requires row.zThOhm > 0.0 && row.availableFaultKA == voltage / (Sqrt3 * row.zThOhm) / 1000.0
    ensures row.availableFaultKA * 1000.0 * (Sqrt3 * row.zThOhm) == voltage
  {
    var d := Sqrt3 * row.zThOhm;
    assert row.availableFaultKA * 1000.0 == voltage / d;
  }

  /** The rows of the nodes, in node order. */
  function Rows(nodes: seq<Node>, z: map<string, Complex>): (r: seq<FaultRow>)
    ensures |r| <= |nodes|
    decreases |nodes|
  {
    if nodes == [] then []
    else
      var rest := Rows(nodes[..|nodes| - 1], z);
      match RowFor(nodes[|nodes| - 1], z)
      case None => rest
      case Some(row) => rest + [row]
  }

  /** Every node that has a row contributes it to the table. */
  lemma {:induction false} RowsContain(nodes: seq<Node>, z: map<string, Complex>, i: nat)
    requires i < |nodes| && RowFor(nodes[i], z).Some?
    ensures RowFor(nodes[i], z).value in Rows(nodes, z)
    decreases |nodes|
  {
    var init := nodes[..|nodes| - 1];
    if i < |init| {
      assert init[i] == nodes[i];
      RowsContain(init, z, i);
    }
  }

  /** The loop over the nodes that appends each row. */
  method FaultRows(nodes: seq<Node>, z: map<string, Complex>) returns (rows: seq<FaultRow>)
    ensures rows == Rows(nodes, z)
  {
    rows := [];
    var i := 0;
    while i < |nodes|
      invariant 0 <= i <= |nodes|
      invariant rows == Rows(nodes[..i], z)
    {
      assert nodes[..i + 1][..i] == nodes[..i];
      var n := nodes[i];
      if n.id in z && !z[n.id].IsZero() {
        var voltage := FirstTruthy(n.voltageLL, n.secV, n.priV);
        if voltage != 0.0 {
          var m := z[n.id].Magnitude();
          rows := rows + [FaultRow(n.id, voltage / (Sqrt3 * m) / 1000.0, m)];
        }
      }
      i := i + 1;
    }
    assert nodes[..i] == nodes;
  }

  /** The short-circuit table: seeds, the breadth-first pass, then one row per node that has a fault value. */
  function AvailableFaultSpec(tables: Tables, project: Project): (r: Result<seq<FaultRow>, Error>)
    ensures r.Err? ==> r.error == TableLookupError
  {
    var seeds := Seeds(project.nodes);
    match BfsRun(tables, project.edges, Bfs(seeds.1, {}, seeds.0))
    case Err(err) => Err(err)
    case Ok(z) => Ok(Rows(project.nodes, z))
  }

  /** `available_fault`. */
  method AvailableFault(tables: Tables, project: Project) returns (r: Result<seq<FaultRow>, Error>)
    ensures r == AvailableFaultSpec(tables, project)
  {
    var seeds, order := InitialImpedance(project.nodes);
    var z, pushes := Propagate(tables, project.edges, seeds, order);
    if z.Err? {
      return Err(z.error);
    }
    var rows := FaultRows(project.nodes, z.value);
    r := Ok(rows);
  }

  // ------------------------------------------------------- seeds kept as-is

  /** No edge ends at `id`. */
  predicate Unreached(edges: seq<Edge>, id: string) {
    forall k :: 0 <= k < |edges| ==> edges[k].toId != id
  }

  /** A scan over edges none of which ends at `id` leaves its impedance alone. */
  lemma {:induction false} ScanKeeps(tables: Tables, kids: seq<Edge>, pz: Complex, s: Bfs, id: string)
    requires Unreached(kids, id) && ScanChildren(tables, kids, pz, s).Ok?
    ensures var z := ScanChildren(tables, kids, pz, s).value.z;
      (id in z <==> id in s.z) && (id in s.z ==> z[id] == s.z[id])
    decreases |kids|
  {
    if kids != [] {
      ScanKeeps(tables, kids[..|kids| - 1], pz, s, id);
    }
  }

  /** The pass never changes the impedance of a bus no edge ends at. */
  lemma {:induction false} BfsKeepsUnreached(tables: Tables, edges: seq<Edge>, s: Bfs, id: string)
    requires s.seen <= PairSet(edges) && Unreached(edges, id) && BfsRun(tables, edges, s).Ok?
    ensures var z := BfsRun(tables, edges, s).value;
      (id in z <==> id in s.z) && (id in s.z ==> z[id] == s.z[id])
    decreases |PairSet(edges) - s.seen|, |s.queue|
  {
    if s.queue != [] {
      var next := Pop(tables, edges, s).value;
      PopProgress(tables, edges, s);
      var parent := s.queue[0];
      if parent in s.z {
        var kids := ChildEdges(edges, parent);
        forall k | 0 <= k < |kids|
          ensures kids[k].toId != id
        {
          var i :| 0 <= i < |edges| && edges[i] == kids[k];
        }
        ScanKeeps(tables, kids, s.z[parent], Bfs(s.queue[1..], s.seen, s.z), id);
      }
      BfsKeepsUnreached(tables, edges, next, id);
    }
  }

  /** The fault computed back from a seeded source impedance is the seeding fault. */
  lemma FaultOfSeed(voltage: real, faultKA: real)
    requires voltage > 0.0 && faultKA > 0.0
    ensures SourceImpedance(voltage, faultKA) > 0.0
    ensures voltage / (Sqrt3 * SourceImpedance(voltage, faultKA)) / 1000.0 == faultKA
  {
    var c := Sqrt3;
    var d := c * (faultKA * 1000.0);
    var zs := voltage / d;
    assert zs * d == voltage;
    assert c * zs == voltage / (faultKA * 1000.0);
    assert voltage / (c * zs) == faultKA * 1000.0;
  }

  /**
   * A bus with a positive line-to-line voltage and a positive utility fault,
   * whose id no other node shares and no edge ends at, reports exactly its
   * input fault current.
   */
  lemma SeedReportsInputFault(tables: Tables, project: Project, i: nat)
    requires i < |project.nodes|
    requires var n := project.nodes[i];
      n.voltageLL.Some? && n.voltageLL.value > 0.0 && n.availableFaultKA.Some? && n.availableFaultKA.value > 0.0
    requires forall j :: 0 <= j < |project.nodes| && j != i ==> project.nodes[j].id != project.nodes[i].id
    requires Unreached(project.edges, project.nodes[i].id)
    requires AvailableFaultSpec(tables, project).Ok?
    ensures var n := project.nodes[i];
      FaultRow(n.id, n.availableFaultKA.value, SourceImpedance(n.voltageLL.value, n.availableFaultKA.value))
        in AvailableFaultSpec(tables, project).value
  {
    var nodes := project.nodes;
    var n := nodes[i];
    var v, ka := n.voltageLL.value, n.availableFaultKA.value;
    var seeds := Seeds(nodes);
    SeedsLastWins(nodes, i);
    BfsKeepsUnreached(tables, project.edges, Bfs(seeds.1, {}, seeds.0), n.id);
    var z := BfsRun(tables, project.edges, Bfs(seeds.1, {}, seeds.0)).value;
    RowOfSeed(n, z);
    RowsContain(nodes, z, i);
  }

  /** A bus still holding its own seed reports the seeding fault. */
  lemma RowOfSeed(n: Node, z: map<string, Complex>)
    requires n.voltageLL.Some? && n.voltageLL.value > 0.0 && n.availableFaultKA.Some? && n.availableFaultKA.value > 0.0
    requires n.id in z && z[n.id] == Seed(n).value
    ensures RowFor(n, z) == Some(FaultRow(n.id, n.availableFaultKA.value,
                                          SourceImpedance(n.voltageLL.value, n.availableFaultKA.value)))
  {
    var v, ka := n.voltageLL.value, n.availableFaultKA.value;
    FaultOfSeed(v, ka);
    assert z[n.id] == Complex(SourceImpedance(v, ka), 0.0);
  }
}
