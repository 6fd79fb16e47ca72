/**
 * The ee_mvp project records: overcurrent devices, cables, edges, nodes and
 * panel schedules, with Python's `or` on optional numbers spelled out.
 */
module MvpModels {
  import opened Wrappers

  /** An overcurrent protective device. */
  datatype Ocpd = Ocpd(kind: string, ratingA: real, interruptingKA: Option<real>)

  /** A conductor run: its material, size, count per phase and installation details. */
  datatype Cable = Cable(
    conductor: string,
    sizeAwg: string,
    qtyPerPhase: int,
    installation: string,
    insulation: string,
    tempRatingC: int,
    conduitTradeSizeIn: Option<real>,
    egcAwg: Option<string>,
    lengthFt: Option<real>,
    neutralCountsAsCcc: bool,
    rooftopHeightIn: Option<real>,
    ambientC: Option<real>,
    isBranch: bool,
    isFeeder: bool,
    isTap: bool,
    tapRule: Option<string>,
    tapTerminationHasOcpd: Option<bool>)

  datatype Edge = Edge(fromId: string, toId: string, ocpd: Option<Ocpd>, cable: Option<Cable>)

  datatype Node = Node(
    id: string,
    kind: string,
    voltageLL: Option<real>,
    phases: Option<string>,
    ratingA: Option<real>,
    mlo: Option<bool>,
    kVA: Option<real>,
    priV: Option<real>,
    secV: Option<real>,
    zPct: Option<real>,
    xrRatio: Option<real>,
    availableFaultKA: Option<real>,
    sccrKA: Option<real>)

  datatype PanelEntry = PanelEntry(ckt: string, desc: string, kVA: real, cont: bool, phases: string,
                                   pf: Option<real>, category: Option<string>, location: Option<string>)

  datatype PanelSchedule = PanelSchedule(panelId: string, entries: seq<PanelEntry>)

  /** The parts of a project the analyses read. */
  datatype Project = Project(name: string, nodes: seq<Node>, edges: seq<Edge>, panelSchedules: seq<PanelSchedule>)

  /** Python truthiness of an optional float: present and non-zero. */
  predicate Truthy(x: Option<real>) {
    x.Some? && x.value != 0.0
  }

  /** `x or 0.0`. */
  function OrZero(x: Option<real>): (r: real)
    ensures Truthy(x) ==> r == x.value
    ensures !Truthy(x) ==> r == 0.0
  {
    if Truthy(x) then x.value else 0.0
  }

  /** `a or b or c or 0.0`: the first truthy value, else zero. */
  function FirstTruthy(a: Option<real>, b: Option<real>, c: Option<real>): (r: real)
    ensures Truthy(a) ==> r == a.value
    ensures !Truthy(a) && Truthy(b) ==> r == b.value
    ensures !Truthy(a) && !Truthy(b) ==> r == OrZero(c)
  {
    if Truthy(a) then a.value else if Truthy(b) then b.value else OrZero(c)
  }

  /** The (from, to) pairs of the edges, in edge order. */
  function Pairs(edges: seq<Edge>): (r: seq<(string, string)>)
    ensures |r| == |edges|
    ensures forall j :: 0 <= j < |edges| ==> r[j] == (edges[j].fromId, edges[j].toId)
  {
    seq(|edges|, j requires 0 <= j < |edges| => (edges[j].fromId, edges[j].toId))
  }

  function NodeIds(nodes: seq<Node>): (r: seq<string>)
    ensures |r| == |nodes|
    ensures forall i :: 0 <= i < |nodes| ==> r[i] == nodes[i].id
  {
    seq(|nodes|, i requires 0 <= i < |nodes| => nodes[i].id)
  }
}
