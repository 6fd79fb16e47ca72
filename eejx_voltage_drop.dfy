/**
 * The eejx voltage-drop analysis: a drop and a percentage for every edge,
 * from a placeholder resistance table, a fixed reactance and a fixed power
 * factor, and for every node the worst accumulated drop along the paths that
 * reach it.
 */
module EejxVoltageDrop {
  import opened Wrappers
  import opened Text
  import opened Numerics
  import opened EejxSchema
  import Kahn
  import KahnFacts
  import EejxValidate
  import EejxLoadCalc

  /** Copper resistance in ohms per 1000 ft. */
  const CuResistance: map<string, real> := map[
    "#14" := 3.14, "#12" := 1.98, "#10" := 1.24, "#8" := 0.778, "#6" := 0.491, "#4" := 0.308,
    "#3" := 0.245, "#2" := 0.194, "#1" := 0.154, "1/0" := 0.122, "2/0" := 0.097, "3/0" := 0.077,
    "4/0" := 0.061, "250" := 0.052, "300" := 0.043, "350" := 0.037, "400" := 0.033, "500" := 0.028]

  /** Aluminium resistance in ohms per 1000 ft. */
  const AlResistance: map<string, real> := map[
    "#12" := 3.19, "#10" := 1.99, "#8" := 1.26, "#6" := 0.791, "#4" := 0.497, "#3" := 0.395,
    "#2" := 0.313, "#1" := 0.249, "1/0" := 0.197, "2/0" := 0.156, "3/0" := 0.124, "4/0" := 0.098,
    "250" := 0.082, "300" := 0.069, "350" := 0.059, "400" := 0.051, "500" := 0.041]

  /** `RESISTANCE_OHMS_PER_1000FT`, one table per material. */
  const ResistanceTables: map<Conductor, map<string, real>> := map[Cu := CuResistance, Al := AlResistance]

  /** The placeholder reactance in ohms per 1000 ft. */
  const Reactance: real := 0.08

  /** The power factor every drop is computed at. */
  const Pf: real := 0.95

  /** sin θ for cos θ = `Pf`: `math.sqrt(1 - 0.95 ** 2)` as the double it evaluates to. */
  const SinTheta: real := 0.31224989991991997

  /** `_normalize_size`: a '#' gauge, a '/' gauge or a plain number; anything else has no entry. */
  function NormalizeSize(size: string): Option<string> {
    var s := CleanSize(size);
    if StartsWith(s, "#") || '/' in s then Some(s)
    else if IsDigits(s) then Some(s)
    else None
  }

  /**
   * A size is accepted exactly when its cleaned form is '#'-prefixed, holds a
   * '/', or is all digits; the accepted form is upper-case and stripped, and
   * the validator's normalisation accepts it too, with the same result.
   */
  lemma NormalizeSizeAccepts(size: string)
    ensures NormalizeSize(size).Some? <==>
      StartsWith(CleanSize(size), "#") || '/' in CleanSize(size) || IsDigits(CleanSize(size))
    ensures NormalizeSize(size).Some? ==>
      var r := NormalizeSize(size).value; IsUpper(r) && Strip(r) == r
    ensures NormalizeSize(size).Some? ==> EejxValidate.NormalizeConductorSize(size) == NormalizeSize(size)
  {
    var s := CleanSize(size);
    CleanSizeIsClean(size);
    if IsDigits(s) {
      DigitsEndInDigits(s, "MM2", 0);
    }
  }

  /** Per-edge drop and percentage; `None` where the edge cannot be computed. */
  datatype EdgeDrop = EdgeDrop(vDrop: Option<real>, pct: Option<real>)

  /** The downstream node's current from the load calculation. */
  function EdgeCurrent(e: Edge, loads: map<string, EejxLoadCalc.LoadRow>): Option<real> {
    if e.dst in loads then loads[e.dst].iA else None
  }

  /** `_phase_count`: the first node with the id decides; three phases by default. */
  function PhaseCountAt(nodes: seq<Node>, id: string): nat {
    match First(nodes, id)
    case None => 3
    case Some(n) => if NonEmpty(n.phases) then |n.phases.value| else 3
  }

  /** `_voltage_for_node`: the first node with the id decides. */
  function VoltageAt(nodes: seq<Node>, id: string): Option<real> {
    match First(nodes, id)
    case None => None
    case Some(n) => n.voltageLL
  }

  /** The voltage the percentage is taken of: line-to-neutral for one phase, else line-to-line. */
  function Nominal(nodes: seq<Node>, id: string): Option<real> {
    var v := VoltageAt(nodes, id);
    if PhaseCountAt(nodes, id) == 1 && Truthy(v) then Some(OverSqrt3(v.value)) else v
  }

  /** The table resistance for a cable, if its size normalises and the table lists it. */
  function TableResistance(cable: Cable, tables: map<Conductor, map<string, real>>): Option<real> {
    match NormalizeSize(cable.sizeAwg)
    case None => None
    case Some(size) =>
      if cable.conductor !in tables || tables[cable.conductor] == map[] then None
      else if size !in tables[cable.conductor] then None
      else Some(tables[cable.conductor][size])
  }

  /** r·cos θ + x·sin θ for the cable's whole length, parallel sets sharing the resistance. */
  function Impedance(cable: Cable, resistance: real, lengthFt: real): real {
    var lengthKft := lengthFt / 1000.0;
    var rTotal := resistance / (MaxInt(cable.qtyPerPhase, 1) as real) * lengthKft;
    var xTotal := Reactance * lengthKft;
    rTotal * Pf + xTotal * SinTheta
  }

  /** Two conductors' drop for one phase, √3 times the drop for three. */
  function PhaseFactor(nodes: seq<Node>, id: string): real {
    if PhaseCountAt(nodes, id) == 1 then 2.0 else Sqrt3 // `math.sqrt(3)`
  }

  /** The `v_drop` of one edge: phase factor × current × impedance, when all three are known. */
  function EdgeVDrop(nodes: seq<Node>, e: Edge, loads: map<string, EejxLoadCalc.LoadRow>,
                     tables: map<Conductor, map<string, real>>): Option<real> {
    if e.cable.None? || e.cable.value.lengthFt.None? then None
    else
      var cable := e.cable.value;
      match TableResistance(cable, tables)
      case None => None
      case Some(resistance) =>
        match EdgeCurrent(e, loads)
        case None => None
        case Some(current) =>
          Some(DropAcross(nodes, e, resistance, current))
  }

  /** Phase factor × current × impedance of the edge's cable. */
  function DropAcross(nodes: seq<Node>, e: Edge, resistance: real, current: real): real
    requires e.cable.Some? && e.cable.value.lengthFt.Some?
  {
    PhaseFactor(nodes, e.dst) * (current * Impedance(e.cable.value, resistance, e.cable.value.lengthFt.value))
  }

  /** The `per_edge` entry of one edge: its drop, with the drop in percent of a truthy nominal voltage. */
  function EdgeResult(nodes: seq<Node>, e: Edge, loads: map<string, EejxLoadCalc.LoadRow>,
                      tables: map<Conductor, map<string, real>>): EdgeDrop {
    Entry(EdgeVDrop(nodes, e, loads, tables), Nominal(nodes, e.dst))
  }

  /** A drop and its percentage of the nominal voltage, when the drop is known and the voltage truthy. */
  function Entry(drop: Option<real>, nominal: Option<real>): EdgeDrop {
    EdgeDrop(drop, if drop.Some? && Truthy(nominal) then Some(Percent(drop.value, nominal.value)) else None)
  }

  /** `drop / nominal * 100`. */
  function Percent(drop: real, nominal: real): real
    requires nominal != 0.0
  {
    drop / nominal * 100.0
  }

  lemma PercentOf(drop: real, nominal: real)
    requires nominal != 0.0
    ensures Percent(drop, nominal) * nominal == drop * 100.0
  {
  }

  /**
   * An edge has no drop exactly when it has no cable or length, its size has
   * no table entry, or the downstream current is unknown.
   */
  lemma EdgeDropKnown(nodes: seq<Node>, e: Edge, loads: map<string, EejxLoadCalc.LoadRow>,
                      tables: map<Conductor, map<string, real>>)
    ensures EdgeResult(nodes, e, loads, tables).vDrop.None? <==>
      || e.cable.None? || e.cable.value.lengthFt.None?
      || TableResistance(e.cable.value, tables).None?
      || EdgeCurrent(e, loads).None?
  {
  }

  /**
   * Without a drop there is no percentage; with one the percentage is present
   * exactly when the nominal voltage is non-zero, and is then the drop in
   * percent of it.
   */
  lemma EntryPercent(drop: Option<real>, nominal: Option<real>)
    ensures Entry(drop, nominal).vDrop == drop
    ensures drop.None? ==> Entry(drop, nominal).pct.None?
    ensures drop.Some? ==> (Entry(drop, nominal).pct.Some? <==> Truthy(nominal))
    ensures Entry(drop, nominal).pct.Some? ==> Entry(drop, nominal).pct.value * nominal.value == drop.value * 100.0
  {
    if drop.Some? && Truthy(nominal) {
      PercentOf(drop.value, nominal.value);
    }
  }

  /** A known drop is the drop across the edge's cable at its resistance and current. */
  lemma EdgeVDropValue(nodes: seq<Node>, e: Edge, loads: map<string, EejxLoadCalc.LoadRow>,
                       tables: map<Conductor, map<string, real>>)
    requires EdgeVDrop(nodes, e, loads, tables).Some?
    ensures e.cable.Some? && e.cable.value.lengthFt.Some?
    ensures TableResistance(e.cable.value, tables).Some? && EdgeCurrent(e, loads).Some?
    ensures EdgeVDrop(nodes, e, loads, tables).value
      == DropAcross(nodes, e, TableResistance(e.cable.value, tables).value, EdgeCurrent(e, loads).value)
  {
  }

  /** Non-negative current, resistance and length give a non-negative drop. */
  lemma DropNonNegative(nodes: seq<Node>, e: Edge, loads: map<string, EejxLoadCalc.LoadRow>,
                        tables: map<Conductor, map<string, real>>)
    requires EdgeVDrop(nodes, e, loads, tables).Some?
    requires EdgeCurrent(e, loads).value >= 0.0 && e.cable.value.lengthFt.value >= 0.0
    requires TableResistance(e.cable.value, tables).value >= 0.0
    ensures EdgeVDrop(nodes, e, loads, tables).value >= 0.0
  {
    EdgeVDropValue(nodes, e, loads, tables);
    DropAcrossNonNegative(nodes, e, TableResistance(e.cable.value, tables).value, EdgeCurrent(e, loads).value);
  }

  lemma DropAcrossNonNegative(nodes: seq<Node>, e: Edge, resistance: real, current: real)
    requires e.cable.Some? && e.cable.value.lengthFt.Some?
    requires resistance >= 0.0 && current >= 0.0 && e.cable.value.lengthFt.value >= 0.0
    ensures DropAcross(nodes, e, resistance, current) >= 0.0
  {
    var cable := e.cable.value;
    ImpedanceNonNegative(cable, resistance, cable.lengthFt.value);
    NonNegativeProduct(PhaseFactor(nodes, e.dst), current, Impedance(cable, resistance, cable.lengthFt.value));
  }

  lemma ImpedanceNonNegative(cable: Cable, resistance: real, lengthFt: real)
    requires resistance >= 0.0 && lengthFt >= 0.0
    ensures Impedance(cable, resistance, lengthFt) >= 0.0
  {
    var lengthKft := lengthFt / 1000.0;
    var q := MaxInt(cable.qtyPerPhase, 1) as real;
    assert resistance / q >= 0.0;
    NonNegativeProduct(1.0, resistance / q, lengthKft);
    NonNegativeProduct(Pf, 1.0, resistance / q * lengthKft);
  }

  lemma NonNegativeProduct(a: real, b: real, c: real)
    requires a >= 0.0 && b >= 0.0 && c >= 0.0
    ensures a * (b * c) >= 0.0
  {
  }

  /** `per_edge`: one entry per edge index. */
  method PerEdge(nodes: seq<Node>, edges: seq<Edge>, loads: map<string, EejxLoadCalc.LoadRow>,
                 tables: map<Conductor, map<string, real>>) returns (perEdge: seq<EdgeDrop>)
    ensures |perEdge| == |edges|
    ensures forall i :: 0 <= i < |edges| ==> perEdge[i] == EdgeResult(nodes, edges[i], loads, tables)
  {
    perEdge := [];
    var i := 0;
    while i < |edges|
      invariant 0 <= i <= |edges|
      invariant |perEdge| == i
      invariant forall j :: 0 <= j < i ==> perEdge[j] == EdgeResult(nodes, edges[j], loads, tables)
    {
      var r := EdgeResult(nodes, edges[i], loads, tables);
      perEdge := perEdge + [r];
      i := i + 1;
    }
  }

  // ---------------------------------------------------------------------------
  // Accumulated drop along paths

  /** An accumulated drop and percentage. */
  datatype Drop = Drop(v: real, pct: real)

  /** `x or 0.0`. */
  function OrZero(x: Option<real>): real {
    if x.Some? then x.value else 0.0
  }

  /** Every edge, unknown endpoints included, runs from a lower to a higher rank. */
  ghost predicate RankedEdges(edges: seq<Edge>, rank: map<string, nat>) {
    KahnFacts.Ranked([], EejxLoadCalc.Pairs(edges), rank)
  }

  function Depth(rank: map<string, nat>, n: string): nat {
    if n in rank then rank[n] else 0
  }

  lemma SourceShallower(edges: seq<Edge>, rank: map<string, nat>, j: nat)
    requires RankedEdges(edges, rank) && j < |edges|
    ensures Depth(rank, edges[j].src) < Depth(rank, edges[j].dst)
  {
    assert EejxLoadCalc.Pairs(edges)[j] == (edges[j].src, edges[j].dst);
  }

  /** The edges `Incoming` lists all enter `n`. */
  lemma IncomingInto(edges: seq<Edge>, n: string)
    ensures var idxs := EejxValidate.Incoming(edges, n);
      forall k :: 0 <= k < |idxs| ==> idxs[k] < |edges| && edges[idxs[k]].dst == n
  {
    var idxs := EejxValidate.Incoming(edges, n);
    forall k | 0 <= k < |idxs|
      ensures idxs[k] < |edges| && edges[idxs[k]].dst == n
    {
      assert idxs[k] in idxs;
    }
  }

  /** `Incoming` lists edge indices in increasing order. */
  lemma {:induction false} IncomingOrdered(edges: seq<Edge>, n: string, a: nat, b: nat)
    requires a < |EejxValidate.Incoming(edges, n)| && b < |EejxValidate.Incoming(edges, n)|
    requires EejxValidate.Incoming(edges, n)[a] < EejxValidate.Incoming(edges, n)[b]
    ensures a < b
    decreases |edges|
  {
    var idxs := EejxValidate.Incoming(edges, n);
    var init := EejxValidate.Incoming(edges[..|edges| - 1], n);
    assert idxs == init + (if edges[|edges| - 1].dst == n then [|edges| - 1] else []);
    if a < |init| && b < |init| {
      assert idxs[a] == init[a] && idxs[b] == init[b];
      IncomingOrdered(edges[..|edges| - 1], n, a, b);
    }
  }

  /**
   * Scanning the first `upto` paths in order from (0, 0), a path replaces the
   * best so far only when its drop is strictly larger.
   */
  function FirstMax(paths: seq<Drop>, upto: nat): Drop
    requires upto <= |paths|
  {
    if upto == 0 then Drop(0.0, 0.0) else Better(FirstMax(paths, upto - 1), paths[upto - 1])
  }

  /** `path` if it drops strictly more than `best`, else `best`. */
  function Better(best: Drop, path: Drop): Drop {
    if path.v > best.v then path else best
  }

  lemma FirstMaxStep(paths: seq<Drop>, i: nat, best: Drop, path: Drop)
    requires i < |paths| && best == FirstMax(paths, i) && path == paths[i]
    ensures FirstMax(paths, i + 1) == if path.v > best.v then path else best
  {
  }

  /**
   * The scan keeps the first path of largest drop: the result is at least 0
   * and at least every path's drop; it is (0, 0) or one of the paths, drop
   * and percentage together, and every earlier path drops less.
   */
  lemma {:induction false} FirstMaxIsFirstMax(paths: seq<Drop>, upto: nat)
    requires upto <= |paths|
    ensures FirstMax(paths, upto).v >= 0.0
    ensures forall k :: 0 <= k < upto ==> paths[k].v <= FirstMax(paths, upto).v
    ensures || FirstMax(paths, upto) == Drop(0.0, 0.0)
            || exists k :: 0 <= k < upto && FirstMax(paths, upto) == paths[k]
                 && forall m :: 0 <= m < k ==> paths[m].v < paths[k].v
  {
    if upto > 0 {
      FirstMaxIsFirstMax(paths, upto - 1);
    }
  }

  /** The worst path into `n`: the paths through its incoming edges, scanned by `FirstMax`. */
  ghost function PathDrop(edges: seq<Edge>, perEdge: seq<EdgeDrop>, rank: map<string, nat>, n: string): Drop
    requires |perEdge| == |edges| && RankedEdges(edges, rank)
    decreases Depth(rank, n), 2
  {
    var paths := Paths(edges, perEdge, rank, n);
    FirstMax(paths, |paths|)
  }

  lemma PathDropIs(edges: seq<Edge>, perEdge: seq<EdgeDrop>, rank: map<string, nat>, n: string)
    requires |perEdge| == |edges| && RankedEdges(edges, rank)
    ensures PathDrop(edges, perEdge, rank, n)
      == FirstMax(Paths(edges, perEdge, rank, n), |EejxValidate.Incoming(edges, n)|)
  {
  }

  /** The paths through the edges into `n`, in edge order. */
  ghost function Paths(edges: seq<Edge>, perEdge: seq<EdgeDrop>, rank: map<string, nat>, n: string): (r: seq<Drop>)
    requires |perEdge| == |edges| && RankedEdges(edges, rank)
    ensures |r| == |EejxValidate.Incoming(edges, n)|
    decreases Depth(rank, n), 1
  {
    var idxs := EejxValidate.Incoming(edges, n);
    IncomingInto(edges, n);
    seq(|idxs|, k requires 0 <= k < |idxs| => Through(edges, perEdge, rank, idxs[k]))
  }

  lemma PathsAt(edges: seq<Edge>, perEdge: seq<EdgeDrop>, rank: map<string, nat>, n: string, k: nat)
    requires |perEdge| == |edges| && RankedEdges(edges, rank) && k < |EejxValidate.Incoming(edges, n)|
    ensures EejxValidate.Incoming(edges, n)[k] < |edges|
    ensures Paths(edges, perEdge, rank, n)[k] == Through(edges, perEdge, rank, EejxValidate.Incoming(edges, n)[k])
  {
  }

  lemma PathsThrough(edges: seq<Edge>, perEdge: seq<EdgeDrop>, rank: map<string, nat>, n: string)
    requires |perEdge| == |edges| && RankedEdges(edges, rank)
    ensures var idxs := EejxValidate.Incoming(edges, n);
      forall k :: 0 <= k < |idxs| ==> Paths(edges, perEdge, rank, n)[k] == Through(edges, perEdge, rank, idxs[k])
  {
    var idxs := EejxValidate.Incoming(edges, n);
    forall k | 0 <= k < |idxs|
      ensures Paths(edges, perEdge, rank, n)[k] == Through(edges, perEdge, rank, idxs[k])
    {
      PathsAt(edges, perEdge, rank, n, k);
    }
  }

  /** The path through edge `j`: the drop accumulated at its source plus its own. */
  ghost function Through(edges: seq<Edge>, perEdge: seq<EdgeDrop>, rank: map<string, nat>, j: nat): Drop
    requires |perEdge| == |edges| && RankedEdges(edges, rank) && j < |edges|
    decreases Depth(rank, edges[j].dst), 0
  {
    SourceShallower(edges, rank, j);
    var up := PathDrop(edges, perEdge, rank, edges[j].src);
    Drop(up.v + OrZero(perEdge[j].vDrop), up.pct + OrZero(perEdge[j].pct))
  }

  /**
   * A node no edge enters starts at 0/0; otherwise its drop is 0/0 or the path
   * through one of its edges, at least every such path, and no earlier edge's
   * path drops as much. No accumulated drop is negative.
   */
  lemma PathDropIsWorst(edges: seq<Edge>, perEdge: seq<EdgeDrop>, rank: map<string, nat>, n: string)
    requires |perEdge| == |edges| && RankedEdges(edges, rank)
    ensures (forall j :: 0 <= j < |edges| ==> edges[j].dst != n) ==> PathDrop(edges, perEdge, rank, n) == Drop(0.0, 0.0)
    ensures PathDrop(edges, perEdge, rank, n).v >= 0.0
    ensures forall j :: 0 <= j < |edges| && edges[j].dst == n ==>
      Through(edges, perEdge, rank, j).v <= PathDrop(edges, perEdge, rank, n).v
    ensures || PathDrop(edges, perEdge, rank, n) == Drop(0.0, 0.0)
            || exists j :: 0 <= j < |edges| && edges[j].dst == n
                 && PathDrop(edges, perEdge, rank, n) == Through(edges, perEdge, rank, j)
                 && forall i :: 0 <= i < j && edges[i].dst == n ==> Through(edges, perEdge, rank, i).v < Through(edges, perEdge, rank, j).v
  {
    var idxs := EejxValidate.Incoming(edges, n);
    var paths := Paths(edges, perEdge, rank, n);
    IncomingInto(edges, n);
    FirstMaxIsFirstMax(paths, |paths|);
    forall j | 0 <= j < |edges| && edges[j].dst == n
      ensures Through(edges, perEdge, rank, j).v <= PathDrop(edges, perEdge, rank, n).v
    {
      assert j in idxs;
      var k :| 0 <= k < |idxs| && idxs[k] == j;
      PathsAt(edges, perEdge, rank, n, k);
    }
    if PathDrop(edges, perEdge, rank, n) != Drop(0.0, 0.0) {
      var k :| 0 <= k < |paths| && PathDrop(edges, perEdge, rank, n) == paths[k]
                 && forall m :: 0 <= m < k ==> paths[m].v < paths[k].v;
      var j := idxs[k];
      PathsAt(edges, perEdge, rank, n, k);
      forall i | 0 <= i < j && edges[i].dst == n
        ensures Through(edges, perEdge, rank, i).v < Through(edges, perEdge, rank, j).v
      {
        assert i in idxs;
        var m :| 0 <= m < |idxs| && idxs[m] == i;
        IncomingOrdered(edges, n, m, k);
        PathsAt(edges, perEdge, rank, n, m);
      }
    }
  }

  /** The accumulated drops do not depend on which ranking witnesses the graph's acyclicity. */
  lemma {:induction false} PathDropRankFree(edges: seq<Edge>, perEdge: seq<EdgeDrop>,
                                            rank: map<string, nat>, rank2: map<string, nat>, n: string)
    requires |perEdge| == |edges| && RankedEdges(edges, rank) && RankedEdges(edges, rank2)
    ensures PathDrop(edges, perEdge, rank, n) == PathDrop(edges, perEdge, rank2, n)
    decreases Depth(rank, n)
  {
    var idxs := EejxValidate.Incoming(edges, n);
    IncomingInto(edges, n);
    var paths := Paths(edges, perEdge, rank, n);
    var paths2 := Paths(edges, perEdge, rank2, n);
    forall k | 0 <= k < |idxs|
      ensures paths[k] == paths2[k]
    {
      var j := idxs[k];
      SourceShallower(edges, rank, j);
      PathDropRankFree(edges, perEdge, rank, rank2, edges[j].src);
      PathsAt(edges, perEdge, rank, n, k);
      PathsAt(edges, perEdge, rank2, n, k);
    }
    assert paths == paths2;
  }

  lemma ThroughIs(edges: seq<Edge>, perEdge: seq<EdgeDrop>, rank: map<string, nat>, j: nat, up: Drop)
    requires |perEdge| == |edges| && RankedEdges(edges, rank) && j < |edges|
    requires up == PathDrop(edges, perEdge, rank, edges[j].src)
    ensures Through(edges, perEdge, rank, j) == Drop(up.v + OrZero(perEdge[j].vDrop), up.pct + OrZero(perEdge[j].pct))
  {
  }

  /** Every memoised value is the node's accumulated drop. */
  ghost predicate MemoOk(edges: seq<Edge>, perEdge: seq<EdgeDrop>, rank: map<string, nat>, memo: map<string, Drop>)
    requires |perEdge| == |edges| && RankedEdges(edges, rank)
  {
    forall k :: k in memo ==> memo[k] == PathDrop(edges, perEdge, rank, k)
  }

  /** Recording a node's accumulated drop keeps the memo right. */
  lemma MemoAdd(edges: seq<Edge>, perEdge: seq<EdgeDrop>, rank: map<string, nat>, memo: map<string, Drop>,
                n: string, d: Drop)
    requires |perEdge| == |edges| && RankedEdges(edges, rank)
    requires MemoOk(edges, perEdge, rank, memo) && d == PathDrop(edges, perEdge, rank, n)
    ensures MemoOk(edges, perEdge, rank, memo[n := d])
  {
  }

  /** `accumulate`: the memoised depth-first worst path into `n`. */
  method Accumulate(edges: seq<Edge>, perEdge: seq<EdgeDrop>, incoming: map<string, seq<nat>>, n: string,
                    memo0: map<string, Drop>, ghost rank: map<string, nat>) returns (d: Drop, memo: map<string, Drop>)
    requires |perEdge| == |edges| && RankedEdges(edges, rank)
    requires forall id :: EejxValidate.IndicesOf(incoming, id) == EejxValidate.Incoming(edges, id)
    requires MemoOk(edges, perEdge, rank, memo0)
    ensures MemoOk(edges, perEdge, rank, memo)
    ensures d == PathDrop(edges, perEdge, rank, n)
    ensures n in memo
    decreases Depth(rank, n), 3
  {
    if n in memo0 {
      return memo0[n], memo0;
    }
    var edgesIn := EejxValidate.IndicesOf(incoming, n);
    if edgesIn == [] {
      d, memo := Drop(0.0, 0.0), memo0;
    } else {
      IncomingInto(edges, n);
      PathsThrough(edges, perEdge, rank, n);
      d, memo := Scan(edges, perEdge, incoming, n, edgesIn, memo0, rank, Paths(edges, perEdge, rank, n));
      PathDropIs(edges, perEdge, rank, n);
    }
    MemoAdd(edges, perEdge, rank, memo, n, d);
    memo := memo[n := d];
  }

  /** The loop of `accumulate`: the first strictly largest of `paths`, the paths through the edges into `n`. */
  method Scan(edges: seq<Edge>, perEdge: seq<EdgeDrop>, incoming: map<string, seq<nat>>, n: string,
              edgesIn: seq<nat>, memo0: map<string, Drop>, ghost rank: map<string, nat>, ghost paths: seq<Drop>)
    returns (d: Drop, memo: map<string, Drop>)
    requires |perEdge| == |edges| && RankedEdges(edges, rank)
    requires forall id :: EejxValidate.IndicesOf(incoming, id) == EejxValidate.Incoming(edges, id)
    requires forall k :: 0 <= k < |edgesIn| ==> edgesIn[k] < |edges| && edges[edgesIn[k]].dst == n
    requires PathsAre(edges, perEdge, rank, edgesIn, paths)
    requires MemoOk(edges, perEdge, rank, memo0)
    ensures MemoOk(edges, perEdge, rank, memo)
    ensures d == FirstMax(paths, |paths|)
    decreases Depth(rank, n), 2
  {
    memo := memo0;
    var best := Drop(0.0, 0.0);  // `max_drop`, `max_pct`
    var i := 0;
    while i < |edgesIn|
      invariant 0 <= i <= |edgesIn|
      invariant MemoOk(edges, perEdge, rank, memo)
      invariant best == FirstMax(paths, i)
    {
      best, memo := Step(edges, perEdge, incoming, n, edgesIn, i, best, memo, rank, paths);
      i := i + 1;
    }
    d := best;
  }

  /** One turn of the loop of `accumulate`: follow edge `edgesIn[i]` and keep the larger of the two totals. */
  method Step(edges: seq<Edge>, perEdge: seq<EdgeDrop>, incoming: map<string, seq<nat>>, n: string,
              edgesIn: seq<nat>, i: nat, best0: Drop, memo0: map<string, Drop>, ghost rank: map<string, nat>,
              ghost paths: seq<Drop>)
    returns (best: Drop, memo: map<string, Drop>)
    requires |perEdge| == |edges| && RankedEdges(edges, rank)
    requires forall id :: EejxValidate.IndicesOf(incoming, id) == EejxValidate.Incoming(edges, id)
    requires forall k :: 0 <= k < |edgesIn| ==> edgesIn[k] < |edges| && edges[edgesIn[k]].dst == n
    requires PathsAre(edges, perEdge, rank, edgesIn, paths)
    requires i < |edgesIn| && best0 == FirstMax(paths, i)
    requires MemoOk(edges, perEdge, rank, memo0)
    ensures MemoOk(edges, perEdge, rank, memo)
    ensures best == FirstMax(paths, i + 1)
    decreases Depth(rank, n), 1
  {
    var total;
    total, memo := FollowEdge(edges, perEdge, incoming, edgesIn[i], memo0, rank, paths[i]);
    FirstMaxStep(paths, i, best0, total);
    best := best0;
    if total.v > best.v {
      best := total;
    }
  }

  /** `paths` lists, edge by edge, the totals through the edges `edgesIn`. */
  ghost predicate PathsAre(edges: seq<Edge>, perEdge: seq<EdgeDrop>, rank: map<string, nat>, edgesIn: seq<nat>, paths: seq<Drop>)
    requires |perEdge| == |edges| && RankedEdges(edges, rank)
    requires forall k :: 0 <= k < |edgesIn| ==> edgesIn[k] < |edges|
  {
    |paths| == |edgesIn| &&
    forall k :: 0 <= k < |edgesIn| ==> paths[k] == Through(edges, perEdge, rank, edgesIn[k])
  }

  /** The body of the loop of `accumulate`: the upstream total through edge `j` plus the edge's own drop. */
  method FollowEdge(edges: seq<Edge>, perEdge: seq<EdgeDrop>, incoming: map<string, seq<nat>>, j: nat,
                    memo0: map<string, Drop>, ghost rank: map<string, nat>, ghost path: Drop)
    returns (total: Drop, memo: map<string, Drop>)
    requires |perEdge| == |edges| && RankedEdges(edges, rank) && j < |edges|
    requires forall id :: EejxValidate.IndicesOf(incoming, id) == EejxValidate.Incoming(edges, id)
    requires MemoOk(edges, perEdge, rank, memo0)
    requires path == Through(edges, perEdge, rank, j)
    ensures MemoOk(edges, perEdge, rank, memo)
    ensures total == path
    decreases Depth(rank, edges[j].dst), 0
  {
    SourceShallower(edges, rank, j);
    var up;
    up, memo := Accumulate(edges, perEdge, incoming, edges[j].src, memo0, rank);
    total := Drop(up.v + OrZero(perEdge[j].vDrop), up.pct + OrZero(perEdge[j].pct));
    ThroughIs(edges, perEdge, rank, j, up);
  }

  /**
   * `run_voltage_drop` on a graph whose edges admit a ranking (on a cycle the
   * recursion of `accumulate` never ends): the per-edge results, and for every
   * node id the worst accumulated drop into it.
   */
  method RunVoltageDrop(g: ProjectGraph, loads: map<string, EejxLoadCalc.LoadRow>, ghost rank: map<string, nat>)
    returns (perEdge: seq<EdgeDrop>, perPath: map<string, Drop>)
    requires RankedEdges(g.edges, rank)
    ensures |perEdge| == |g.edges|
    ensures forall i :: 0 <= i < |g.edges| ==> perEdge[i] == EdgeResult(g.nodes, g.edges[i], loads, ResistanceTables)
    ensures forall id :: id in perPath <==> id in Ids(g.nodes)
    ensures forall id :: id in perPath ==> perPath[id] == PathDrop(g.edges, perEdge, rank, id)
  {
    perEdge := PerEdge(g.nodes, g.edges, loads, ResistanceTables);
    perPath := PerPath(g.nodes, g.edges, perEdge, rank);
  }

  /** The `per_path` loop: every node's accumulated drop, through one shared memo. */
  method PerPath(nodes: seq<Node>, edges: seq<Edge>, perEdge: seq<EdgeDrop>, ghost rank: map<string, nat>)
    returns (perPath: map<string, Drop>)
    requires |perEdge| == |edges| && RankedEdges(edges, rank)
    ensures forall id :: id in perPath <==> id in Ids(nodes)
    ensures forall id :: id in perPath ==> perPath[id] == PathDrop(edges, perEdge, rank, id)
  {
    var incoming := EejxValidate.IncomingMap(edges);
    var memo: map<string, Drop> := map[];
    perPath := map[];
    var i := 0;
    while i < |nodes|
      invariant 0 <= i <= |nodes|
      invariant MemoOk(edges, perEdge, rank, memo)
      invariant forall id :: id in perPath <==> id in Ids(nodes[..i])
      invariant forall id :: id in perPath ==> perPath[id] == PathDrop(edges, perEdge, rank, id)
    {
      var id := nodes[i].id;
      if id !in memo {
        var d;
        d, memo := Accumulate(edges, perEdge, incoming, id, memo, rank);
        MemoAdd(edges, perEdge, rank, memo, id, d);
        memo := memo[id := d];
      }
      perPath := perPath[id := memo[id]];
      assert Ids(nodes[..i + 1]) == Ids(nodes[..i]) + [id];
      i := i + 1;
    }
    assert nodes[..i] == nodes;
  }
}
