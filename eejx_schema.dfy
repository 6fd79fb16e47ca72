/**
 * The eejx project graph: nodes of an electrical distribution system joined
 * by directed feeder edges, the panel schedules that list loads on panels,
 * and the analysis flags. Optional fields are `Option`s; a node's `load`
 * dictionary keeps only the four keys the analyses read.
 */
module EejxSchema {
  import opened Wrappers

  datatype OcpdKind = Breaker | Fuse | Switch

  /** An overcurrent protective device on an edge. */
  datatype Ocpd = Ocpd(kind: OcpdKind, ratingA: Option<real>)

  datatype Conductor = Cu | Al

  datatype Cable = Cable(conductor: Conductor, sizeAwg: string, qtyPerPhase: int,
                         egcAwg: Option<string>, lengthFt: Option<real>)

  datatype NodeType = UtilityService | XfmrDry | XfmrOil | Switchboard | Mst | Panel | Disconnect | Mcc | Load

  /** The keys of a node's `load` dictionary that the analyses read; a missing key is `None`. */
  datatype NodeLoad = NodeLoad(kVA: Option<real>, kW: Option<real>, pf: Option<real>, continuous: Option<bool>)

  datatype Node = Node(id: string, kind: NodeType, voltageLL: Option<real>, phases: Option<string>,
                       ratingA: Option<real>, mlo: Option<bool>, load: Option<NodeLoad>)

  /** A feeder from `src` (the `from` field) to `dst` (the `to` field). */
  datatype Edge = Edge(src: string, dst: string, ocpd: Option<Ocpd>, cable: Option<Cable>)

  datatype PanelEntry = PanelEntry(ckt: string, desc: string, kVA: Option<real>, kW: Option<real>,
                                   continuous: Option<bool>)

  datatype PanelSchedule = PanelSchedule(panelId: string, entries: seq<PanelEntry>)

  datatype AnalysisFlags = AnalysisFlags(load: bool, voltageDrop: bool, shortCircuit: bool)

  /** The flags' defaults: load and voltage drop on, short circuit off. */
  const DefaultFlags := AnalysisFlags(true, true, false)

  datatype ShortCircuitCtx = ShortCircuitCtx(serviceFaultKA: Option<real>)

  datatype ProjectGraph = ProjectGraph(flags: AnalysisFlags, nodes: seq<Node>, edges: seq<Edge>,
                                       schedules: seq<PanelSchedule>, shortCircuit: Option<ShortCircuitCtx>)

  /** Python truthiness of an optional float: present and non-zero. */
  predicate Truthy(x: Option<real>) {
    x.Some? && x.value != 0.0
  }

  /** Python truthiness of an optional string: present and non-empty. */
  predicate NonEmpty(x: Option<string>) {
    x.Some? && x.value != ""
  }

  function Ids(nodes: seq<Node>): (r: seq<string>)
    ensures |r| == |nodes|
    ensures forall i :: 0 <= i < |nodes| ==> r[i] == nodes[i].id
  {
    seq(|nodes|, i requires 0 <= i < |nodes| => nodes[i].id)
  }

  /** The position of the last node with this id, if any. */
  function LastIndex(nodes: seq<Node>, id: string): (r: Option<nat>)
    ensures r.None? ==> forall j :: 0 <= j < |nodes| ==> nodes[j].id != id
    ensures r.Some? ==> r.value < |nodes| && nodes[r.value].id == id
    ensures r.Some? ==> forall j :: r.value < j < |nodes| ==> nodes[j].id != id
  {
    if nodes == [] then None
    else if nodes[|nodes| - 1].id == id then Some(|nodes| - 1)
    else LastIndex(nodes[..|nodes| - 1], id)
  }

  /**
   * `{node.id: node for node in nodes}.get(id)`: a later node with the same
   * id replaces an earlier one.
   */
  function Lookup(nodes: seq<Node>, id: string): (r: Option<Node>)
    ensures r.None? <==> id !in Ids(nodes)
    ensures r.Some? ==> r.value in nodes && r.value.id == id
    ensures r.Some? ==> exists i :: 0 <= i < |nodes| && nodes[i] == r.value &&
                                    forall j :: i < j < |nodes| ==> nodes[j].id != id
  {
    match LastIndex(nodes, id)
    case None => None
    case Some(i) => Some(nodes[i])
  }

  /** The position of the first node with this id at or after `i`, if any. */
  function FirstIndex(nodes: seq<Node>, id: string, i: nat): (r: Option<nat>)
    requires i <= |nodes|
    ensures r.None? ==> forall j :: i <= j < |nodes| ==> nodes[j].id != id
    ensures r.Some? ==> i <= r.value < |nodes| && nodes[r.value].id == id
    ensures r.Some? ==> forall j :: i <= j < r.value ==> nodes[j].id != id
    decreases |nodes| - i
  {
    if i == |nodes| then None
    else if nodes[i].id == id then Some(i)
    else FirstIndex(nodes, id, i + 1)
  }

  /** The first node with this id, as a `for` loop that returns on the first match finds it. */
  function First(nodes: seq<Node>, id: string): (r: Option<Node>)
    ensures r.None? <==> id !in Ids(nodes)
    ensures r.Some? ==> r.value in nodes && r.value.id == id
    ensures r.Some? ==> exists i :: 0 <= i < |nodes| && nodes[i] == r.value &&
                                    forall j :: 0 <= j < i ==> nodes[j].id != id
  {
    match FirstIndex(nodes, id, 0)
    case None => None
    case Some(i) => Some(nodes[i])
  }

  /** The edges a topological pass sees: those whose two endpoints are node ids, as (from, to) pairs. */
  function KnownEdges(ids: seq<string>, edges: seq<Edge>): (r: seq<(string, string)>)
    ensures forall j :: 0 <= j < |r| ==> r[j].0 in ids && r[j].1 in ids
    ensures forall e :: e in edges && e.src in ids && e.dst in ids ==> (e.src, e.dst) in r
    ensures forall p :: p in r ==> exists e :: e in edges && p == (e.src, e.dst)
  {
    if edges == [] then []
    else
      var init := KnownEdges(ids, edges[..|edges| - 1]);
      var e := edges[|edges| - 1];
      assert forall x :: x in edges ==> x in edges[..|edges| - 1] || x == e;
      if e.src in ids && e.dst in ids then init + [(e.src, e.dst)] else init
  }

}
