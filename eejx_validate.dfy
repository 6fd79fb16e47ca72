/**
 * The eejx rule validators. Each walks the graph and appends severity-tagged
 * issues; `ValidateProject` runs the five in a fixed order. An issue keeps its
 * severity, code and path; the human-readable message is not modelled.
 */
module EejxValidate {
  import opened Wrappers
  import opened Text
  import opened Numerics
  import opened EejxSchema
  import Kahn
  import KahnFacts

  datatype Severity = Error | Warning {
    function Name(): string {
      match this
      case Error => "ERROR"
      case Warning => "WARNING"
    }
  }

  datatype Code =
    | TopologyUnknownFrom | TopologyUnknownTo | TopologyCycle
    | VoltageMismatch | PhaseIncompatible
    | MissingOcpd | MloRequiresOcpd
    | AmpacityLtOcpd
    | ShortCircuitInputMissing | LoadInputIncomplete
  {
    function Name(): string {
      match this
      case TopologyUnknownFrom => "TOPOLOGY_UNKNOWN_FROM"
      case TopologyUnknownTo => "TOPOLOGY_UNKNOWN_TO"
      case TopologyCycle => "TOPOLOGY_CYCLE"
      case VoltageMismatch => "VOLTAGE_MISMATCH"
      case PhaseIncompatible => "PHASE_INCOMPATIBLE"
      case MissingOcpd => "MISSING_OCPD"
      case MloRequiresOcpd => "MLO_REQUIRES_OCPD"
      case AmpacityLtOcpd => "AMPACITY_LT_OCPD"
      case ShortCircuitInputMissing => "SHORT_CIRCUIT_INPUT_MISSING"
      case LoadInputIncomplete => "LOAD_INPUT_INCOMPLETE"
    }
  }

  /** Where an issue points; `Render` gives the path string of the report. */
  datatype Path =
    | EdgeFrom(idx: nat) | EdgeTo(idx: nat) | EdgeAt(idx: nat) | EdgeOcpd(idx: nat) | EdgeCableSize(idx: nat)
    | Edges | ServiceFault | PanelSchedules
  {
    function Render(): string {
      match this
      case EdgeFrom(i) => "edges[" + NatToString(i) + "].from"
      case EdgeTo(i) => "edges[" + NatToString(i) + "].to"
      case EdgeAt(i) => "edges[" + NatToString(i) + "]"
      case EdgeOcpd(i) => "edges[" + NatToString(i) + "].ocpd"
      case EdgeCableSize(i) => "edges[" + NatToString(i) + "].cable.size_awg"
      case Edges => "edges"
      case ServiceFault => "short_circuit.service_available_fault_kA"
      case PanelSchedules => "panel_schedules"
    }
  }

  datatype Issue = Issue(severity: Severity, code: Code, path: Path)

  // ---------------------------------------------------------------- topology

  /** The dangling-reference issues of edge `i`: its `from`, then its `to`. */
  function EdgeRefIssues(ids: seq<string>, i: nat, e: Edge): seq<Issue> {
    (if e.src !in ids then [Issue(Error, TopologyUnknownFrom, EdgeFrom(i))] else [])
    + (if e.dst !in ids then [Issue(Error, TopologyUnknownTo, EdgeTo(i))] else [])
  }

  function RefIssues(ids: seq<string>, edges: seq<Edge>): seq<Issue> {
    if edges == [] then []
    else RefIssues(ids, edges[..|edges| - 1]) + EdgeRefIssues(ids, |edges| - 1, edges[|edges| - 1])
  }

  /** Dangling references: an issue per unknown endpoint and nothing else. */
  lemma RefIssuesExact(ids: seq<string>, edges: seq<Edge>, x: Issue)
    ensures x in RefIssues(ids, edges) <==>
      || (exists i :: 0 <= i < |edges| && x == Issue(Error, TopologyUnknownFrom, EdgeFrom(i)) && edges[i].src !in ids)
      || (exists i :: 0 <= i < |edges| && x == Issue(Error, TopologyUnknownTo, EdgeTo(i)) && edges[i].dst !in ids)
  {
    if x in RefIssues(ids, edges) {
      RefIssuesOnly(ids, edges, x);
      var i :| 0 <= i < |edges| && (x == Issue(Error, TopologyUnknownFrom, EdgeFrom(i)) || x == Issue(Error, TopologyUnknownTo, EdgeTo(i)));
      RefIssuesAt(ids, edges, i);
    }
    if exists i :: 0 <= i < |edges| && x == Issue(Error, TopologyUnknownFrom, EdgeFrom(i)) && edges[i].src !in ids {
      var i :| 0 <= i < |edges| && x == Issue(Error, TopologyUnknownFrom, EdgeFrom(i)) && edges[i].src !in ids;
      RefIssuesAt(ids, edges, i);
    }
    if exists i :: 0 <= i < |edges| && x == Issue(Error, TopologyUnknownTo, EdgeTo(i)) && edges[i].dst !in ids {
      var i :| 0 <= i < |edges| && x == Issue(Error, TopologyUnknownTo, EdgeTo(i)) && edges[i].dst !in ids;
      RefIssuesAt(ids, edges, i);
    }
  }

  /** Edge `i` has an unknown-`from` issue exactly when its source is unknown, and likewise for `to`. */
  lemma {:induction false} RefIssuesAt(ids: seq<string>, edges: seq<Edge>, i: nat)
    requires i < |edges|
    ensures Issue(Error, TopologyUnknownFrom, EdgeFrom(i)) in RefIssues(ids, edges) <==> edges[i].src !in ids
    ensures Issue(Error, TopologyUnknownTo, EdgeTo(i)) in RefIssues(ids, edges) <==> edges[i].dst !in ids
    decreases |edges|
  {
    var n := |edges| - 1;
    var init := edges[..n];
    assert RefIssues(ids, edges) == RefIssues(ids, init) + EdgeRefIssues(ids, n, edges[n]);
    if i < n {
      RefIssuesAt(ids, init, i);
      assert init[i] == edges[i];
    } else {
      RefIssuesBelow(ids, init, Issue(Error, TopologyUnknownFrom, EdgeFrom(i)));
      RefIssuesBelow(ids, init, Issue(Error, TopologyUnknownTo, EdgeTo(i)));
    }
  }

  /** Every issue of the first `|edges|` edges points below `|edges|`. */
  lemma {:induction false} RefIssuesBelow(ids: seq<string>, edges: seq<Edge>, x: Issue)
    ensures x in RefIssues(ids, edges) ==> (x.path.EdgeFrom? || x.path.EdgeTo?) && x.path.idx < |edges|
    decreases |edges|
  {
    if edges != [] {
      RefIssuesBelow(ids, edges[..|edges| - 1], x);
    }
  }

  /** Every dangling-reference issue is the `from` or the `to` issue of some edge. */
  lemma RefIssuesOnly(ids: seq<string>, edges: seq<Edge>, x: Issue)
    requires x in RefIssues(ids, edges)
    ensures exists i :: (0 <= i < |edges| &&
      (x == Issue(Error, TopologyUnknownFrom, EdgeFrom(i)) || x == Issue(Error, TopologyUnknownTo, EdgeTo(i))))
  {
    RefIssuesShape(ids, edges, x);
    RefIssuesBelow(ids, edges, x);
    var i := x.path.idx;
    assert x == Issue(Error, TopologyUnknownFrom, EdgeFrom(i)) || x == Issue(Error, TopologyUnknownTo, EdgeTo(i));
  }

  /** A dangling-reference issue is an error, coded by the endpoint it points at. */
  lemma {:induction false} RefIssuesShape(ids: seq<string>, edges: seq<Edge>, x: Issue)
    requires x in RefIssues(ids, edges)
    ensures x.severity == Error
    ensures x.path.EdgeFrom? ==> x.code == TopologyUnknownFrom
    ensures x.path.EdgeTo? ==> x.code == TopologyUnknownTo
    decreases |edges|
  {
    var init := edges[..|edges| - 1];
    if x in RefIssues(ids, init) {
      RefIssuesShape(ids, init, x);
    }
  }

  /** The topology issues: the dangling references, then one cycle error when the known edges have a cycle. */
  ghost function TopologyIssues(g: ProjectGraph): seq<Issue> {
    var ids := Ids(g.nodes);
    RefIssues(ids, g.edges)
    + (if KahnFacts.Acyclic(Kahn.Dedup(ids), KnownEdges(ids, g.edges)) then [] else [Issue(Error, TopologyCycle, Edges)])
  }

  method Topology(g: ProjectGraph) returns (issues: seq<Issue>)
    ensures issues == TopologyIssues(g)
  {
    var ids := Ids(g.nodes);
    issues := [];
    var i := 0;
    while i < |g.edges|
      invariant 0 <= i <= |g.edges|
      invariant issues == RefIssues(ids, g.edges[..i])
    {
      var e := g.edges[i];
      assert g.edges[..i + 1][..i] == g.edges[..i];
      if e.src !in ids {
        issues := issues + [Issue(Error, TopologyUnknownFrom, EdgeFrom(i))];
      }
      if e.dst !in ids {
        issues := issues + [Issue(Error, TopologyUnknownTo, EdgeTo(i))];
      }
      i := i + 1;
    }
    assert g.edges[..i] == g.edges;
    var keys := Kahn.Dedup(ids);
    var es := KnownEdges(ids, g.edges);
    var order := Kahn.Order(keys, es);
    KahnFacts.EmitsAllIffAcyclic(keys, es, order);
    var visited := |order|;
    if visited != |keys| {
      issues := issues + [Issue(Error, TopologyCycle, Edges)];
    }
  }

  /** Two panels feeding each other yield exactly one issue, the cycle error. */
  lemma TwoNodeLoop(g: ProjectGraph)
    requires |g.nodes| == 2 && g.nodes[0].id == "A" && g.nodes[1].id == "B"
    requires |g.edges| == 2 && g.edges[0].src == "A" && g.edges[0].dst == "B"
    requires g.edges[1].src == "B" && g.edges[1].dst == "A"
    ensures TopologyIssues(g) == [Issue(Error, TopologyCycle, Edges)]
  {
    var ids := Ids(g.nodes);
    assert ids == ["A", "B"];
    assert RefIssues(ids, g.edges[..1]) == [];
    assert g.edges[..1][..0] == [];
    var es := KnownEdges(ids, g.edges);
    assert ("A", "B") in es && ("B", "A") in es by {
      assert g.edges[0] in g.edges && g.edges[1] in g.edges;
    }
  }

  // ------------------------------------------------------- voltage and phase

  /** `math.isclose(a, b, rel_tol=0.05, abs_tol=1e-3)`, on reals. */
  predicate IsClose(a: real, b: real) {
    Abs(a - b) <= Max(0.05 * Max(Abs(a), Abs(b)), 0.001)
  }

  /** `set(down).issubset(set(up))`. */
  predicate PhasesWithin(down: string, up: string) {
    forall c :: c in down ==> c in up
  }

  predicate VoltageMismatchAt(up: Node, down: Node) {
    Truthy(up.voltageLL) && Truthy(down.voltageLL) && !IsClose(up.voltageLL.value, down.voltageLL.value)
  }

  predicate PhaseMismatchAt(up: Node, down: Node) {
    NonEmpty(up.phases) && NonEmpty(down.phases) && !PhasesWithin(down.phases.value, up.phases.value)
  }

  function EdgeVoltagePhaseIssues(nodes: seq<Node>, i: nat, e: Edge): seq<Issue> {
    match (Lookup(nodes, e.src), Lookup(nodes, e.dst))
    case (Some(up), Some(down)) =>
      (if VoltageMismatchAt(up, down) then [Issue(Warning, VoltageMismatch, EdgeAt(i))] else [])
      + (if PhaseMismatchAt(up, down) then [Issue(Error, PhaseIncompatible, EdgeAt(i))] else [])
    case _ => []
  }

  function VoltagePhaseIssues(nodes: seq<Node>, edges: seq<Edge>): seq<Issue> {
    if edges == [] then []
    else VoltagePhaseIssues(nodes, edges[..|edges| - 1]) + EdgeVoltagePhaseIssues(nodes, |edges| - 1, edges[|edges| - 1])
  }

  /**
   * A voltage warning on edge `i` exactly when both ends exist, both voltages
   * are non-zero and they differ beyond the tolerance; a phase error exactly
   * when both phase strings are non-empty and the downstream letters are not
   * all upstream.
   */
  lemma {:induction false} VoltagePhaseExact(nodes: seq<Node>, edges: seq<Edge>, i: nat)
    requires i < |edges|
    ensures Issue(Warning, VoltageMismatch, EdgeAt(i)) in VoltagePhaseIssues(nodes, edges) <==>
      Lookup(nodes, edges[i].src).Some? && Lookup(nodes, edges[i].dst).Some?
      && VoltageMismatchAt(Lookup(nodes, edges[i].src).value, Lookup(nodes, edges[i].dst).value)
    ensures Issue(Error, PhaseIncompatible, EdgeAt(i)) in VoltagePhaseIssues(nodes, edges) <==>
      Lookup(nodes, edges[i].src).Some? && Lookup(nodes, edges[i].dst).Some?
      && PhaseMismatchAt(Lookup(nodes, edges[i].src).value, Lookup(nodes, edges[i].dst).value)
    decreases |edges|
  {
    var n := |edges| - 1;
    var init := edges[..n];
    if i < n {
      VoltagePhaseExact(nodes, init, i);
      assert init[i] == edges[i];
      NotAtOtherEdge(nodes, n, edges[n], Issue(Warning, VoltageMismatch, EdgeAt(i)));
      NotAtOtherEdge(nodes, n, edges[n], Issue(Error, PhaseIncompatible, EdgeAt(i)));
    } else {
      NoIssueBeyond(nodes, init, Issue(Warning, VoltageMismatch, EdgeAt(i)));
      NoIssueBeyond(nodes, init, Issue(Error, PhaseIncompatible, EdgeAt(i)));
    }
  }

  lemma NotAtOtherEdge(nodes: seq<Node>, n: nat, e: Edge, x: Issue)
    requires x.path.EdgeAt? && x.path.idx != n
    ensures x !in EdgeVoltagePhaseIssues(nodes, n, e)
  {
  }

  /** Every issue of the first `|edges|` edges points below `|edges|`. */
  lemma {:induction false} NoIssueBeyond(nodes: seq<Node>, edges: seq<Edge>, x: Issue)
    requires x.path.EdgeAt? && x.path.idx >= |edges|
    ensures x !in VoltagePhaseIssues(nodes, edges)
    decreases |edges|
  {
    if edges != [] {
      NoIssueBeyond(nodes, edges[..|edges| - 1], x);
    }
  }

  method VoltagePhase(g: ProjectGraph) returns (issues: seq<Issue>)
    ensures issues == VoltagePhaseIssues(g.nodes, g.edges)
  {
    issues := [];
    var i := 0;
    while i < |g.edges|
      invariant 0 <= i <= |g.edges|
      invariant issues == VoltagePhaseIssues(g.nodes, g.edges[..i])
    {
      VoltagePhaseStep(g.nodes, g.edges, i);
      var found := EdgeVoltagePhase(g.nodes, i, g.edges[i]);
      issues := issues + found;
      i := i + 1;
    }
    assert g.edges[..i] == g.edges;
  }

  lemma VoltagePhaseStep(nodes: seq<Node>, edges: seq<Edge>, i: nat)
    requires i < |edges|
    ensures VoltagePhaseIssues(nodes, edges[..i + 1]) ==
      VoltagePhaseIssues(nodes, edges[..i]) + EdgeVoltagePhaseIssues(nodes, i, edges[i])
  {
    assert edges[..i + 1][..i] == edges[..i];
  }

  /** The body of that loop for edge `i`: the voltage warning, then the phase error, when both ends exist. */
  method EdgeVoltagePhase(nodes: seq<Node>, i: nat, e: Edge) returns (found: seq<Issue>)
    ensures found == EdgeVoltagePhaseIssues(nodes, i, e)
  {
    found := [];
    var upstream := Lookup(nodes, e.src);
    var downstream := Lookup(nodes, e.dst);
    if upstream.Some? && downstream.Some? {
      var up, down := upstream.value, downstream.value;
      if Truthy(up.voltageLL) && Truthy(down.voltageLL) {
        if !IsClose(up.voltageLL.value, down.voltageLL.value) {
          found := found + [Issue(Warning, VoltageMismatch, EdgeAt(i))];
        }
      }
      if NonEmpty(up.phases) && NonEmpty(down.phases) {
        if !PhasesWithin(down.phases.value, up.phases.value) {
          found := found + [Issue(Error, PhaseIncompatible, EdgeAt(i))];
        }
      }
    }
  }

  // ------------------------------------------------------- panel protection

  /** The issue for a feeder `idx` without an OCPD into panel `node`: an error for an MLO panel, else a warning. */
  function ProtectionIssue(node: Node, idx: nat): (x: Issue)
    ensures x.path == EdgeOcpd(idx)
    ensures node.mlo == Some(true) <==> x.severity == Error && x.code == MloRequiresOcpd
    ensures node.mlo != Some(true) <==> x.severity == Warning && x.code == MissingOcpd
  {
    match node.mlo
    case Some(false) => Issue(Warning, MissingOcpd, EdgeOcpd(idx))
    case None => Issue(Warning, MissingOcpd, EdgeOcpd(idx))
    case Some(true) => Issue(Error, MloRequiresOcpd, EdgeOcpd(idx))
  }

  /** `incoming_edges[id]`: the indices of the edges into `id`, in edge order. */
  function Incoming(edges: seq<Edge>, id: string): (r: seq<nat>)
    ensures forall idx: nat :: idx in r <==> idx < |edges| && edges[idx].dst == id
    ensures forall j :: 0 <= j < |r| ==> r[j] < |edges|
  {
    if edges == [] then []
    else Incoming(edges[..|edges| - 1], id) + (if edges[|edges| - 1].dst == id then [|edges| - 1] else [])
  }

  function UnprotectedIssues(node: Node, edges: seq<Edge>, idxs: seq<nat>): seq<Issue>
    requires forall j :: 0 <= j < |idxs| ==> idxs[j] < |edges|
  {
    if idxs == [] then []
    else
      var idx := idxs[|idxs| - 1];
      UnprotectedIssues(node, edges, idxs[..|idxs| - 1])
      + (if edges[idx].ocpd.None? then [ProtectionIssue(node, idx)] else [])
  }

  function PanelIssues(nodes: seq<Node>, edges: seq<Edge>): seq<Issue> {
    if nodes == [] then []
    else
      var node := nodes[|nodes| - 1];
      PanelIssues(nodes[..|nodes| - 1], edges)
      + (if node.kind == Panel then UnprotectedIssues(node, edges, Incoming(edges, node.id)) else [])
  }

  lemma {:induction false} UnprotectedExact(node: Node, edges: seq<Edge>, idxs: seq<nat>, x: Issue)
    requires forall j :: 0 <= j < |idxs| ==> idxs[j] < |edges|
    ensures x in UnprotectedIssues(node, edges, idxs) <==>
      exists idx :: idx in idxs && edges[idx].ocpd.None? && x == ProtectionIssue(node, idx)
    decreases |idxs|
  {
    if idxs != [] {
      var init := idxs[..|idxs| - 1];
      UnprotectedExact(node, edges, init, x);
      assert forall idx :: idx in idxs <==> idx in init || idx == idxs[|idxs| - 1];
    }
  }

  /**
   * Panel protection: an issue exactly for each panel node and each edge into
   * it that carries no OCPD; edges with an OCPD and non-panel nodes are never
   * flagged.
   */
  lemma {:induction false} PanelIssuesExact(nodes: seq<Node>, edges: seq<Edge>, x: Issue)
    ensures x in PanelIssues(nodes, edges) <==>
      exists node: Node, idx: nat :: node in nodes && node.kind == Panel && idx < |edges| && edges[idx].dst == node.id
                          && edges[idx].ocpd.None? && x == ProtectionIssue(node, idx)
    decreases |nodes|
  {
    if nodes != [] {
      var init := nodes[..|nodes| - 1];
      var last := nodes[|nodes| - 1];
      PanelIssuesExact(init, edges, x);
      UnprotectedExact(last, edges, Incoming(edges, last.id), x);
      assert forall n :: n in nodes <==> n in init || n == last;
    }
  }

  /** `incoming_edges.get(id, [])`. */
  function IndicesOf(incoming: map<string, seq<nat>>, id: string): seq<nat> {
    if id in incoming then incoming[id] else []
  }

  /** `incoming_edges`: for each target, the indices of the edges into it. */
  method IncomingMap(edges: seq<Edge>) returns (incoming: map<string, seq<nat>>)
    ensures forall id :: IndicesOf(incoming, id) == Incoming(edges, id)
  {
    incoming := map[];
    var i := 0;
    while i < |edges|
      invariant 0 <= i <= |edges|
      invariant forall id :: IndicesOf(incoming, id) == Incoming(edges[..i], id)
    {
      var e := edges[i];
      forall id
        ensures Incoming(edges[..i + 1], id) == Incoming(edges[..i], id) + (if e.dst == id then [i] else [])
      {
        assert edges[..i + 1][..i] == edges[..i];
      }
      incoming := incoming[e.dst := IndicesOf(incoming, e.dst) + [i]];
      i := i + 1;
    }
    assert edges[..i] == edges;
  }

  /** The issues for one panel's feeders, in edge order. */
  method CheckFeeders(node: Node, edges: seq<Edge>, idxs: seq<nat>) returns (issues: seq<Issue>)
    requires forall j :: 0 <= j < |idxs| ==> idxs[j] < |edges|
    ensures issues == UnprotectedIssues(node, edges, idxs)
  {
    issues := [];
    var c := 0;
    while c < |idxs|
      invariant 0 <= c <= |idxs|
      invariant issues == UnprotectedIssues(node, edges, idxs[..c])
    {
      assert idxs[..c + 1][..c] == idxs[..c];
      var idx := idxs[c];
      if edges[idx].ocpd.None? {
        if node.mlo == Some(false) || node.mlo == None {
          issues := issues + [Issue(Warning, MissingOcpd, EdgeOcpd(idx))];
        } else {
          issues := issues + [Issue(Error, MloRequiresOcpd, EdgeOcpd(idx))];
        }
      }
      c := c + 1;
    }
    assert idxs[..c] == idxs;
  }

  /** `PanelProtectionValidator`: the loop over the nodes, checking the feeders of each panel. */
  method PanelProtection(g: ProjectGraph) returns (issues: seq<Issue>)
    ensures issues == PanelIssues(g.nodes, g.edges)
  {
    var incoming := IncomingMap(g.edges);
    issues := [];
    var k := 0;
    while k < |g.nodes|
      invariant 0 <= k <= |g.nodes|
      invariant issues == PanelIssues(g.nodes[..k], g.edges)
    {
      issues := CheckNode(g.nodes, g.edges, k, IndicesOf(incoming, g.nodes[k].id), issues);
      k := k + 1;
    }
    assert g.nodes[..k] == g.nodes;
  }

  /** One pass of that loop: a panel's unprotected feeders are appended, any other node adds nothing. */
  method CheckNode(nodes: seq<Node>, edges: seq<Edge>, k: nat, idxs: seq<nat>, before: seq<Issue>)
    returns (after: seq<Issue>)
    requires k < |nodes| && idxs == Incoming(edges, nodes[k].id) && before == PanelIssues(nodes[..k], edges)
    ensures after == PanelIssues(nodes[..k + 1], edges)
  {
    PanelIssuesStep(nodes, edges, k);
    after := before;
    if nodes[k].kind == Panel {
      var found := CheckFeeders(nodes[k], edges, idxs);
      after := after + found;
    }
  }

  /** The issues of one more node: a panel's unprotected feeders after those of the nodes before it. */
  lemma PanelIssuesStep(nodes: seq<Node>, edges: seq<Edge>, k: nat)
    requires k < |nodes|
    ensures PanelIssues(nodes[..k + 1], edges) == PanelIssues(nodes[..k], edges)
      + (if nodes[k].kind == Panel then UnprotectedIssues(nodes[k], edges, Incoming(edges, nodes[k].id)) else [])
  {
    assert nodes[..k + 1][..k] == nodes[..k];
  }

  // ---------------------------------------------------------------- ampacity

  /** The validator's placeholder ampacity table, in amperes, per conductor material. */
  const CuAmpacity: map<string, int> := map[
    "#14" := 20, "#12" := 25, "#10" := 35, "#8" := 50, "#6" := 65, "#4" := 85, "#3" := 100, "#2" := 115,
    "#1" := 130, "1/0" := 150, "2/0" := 175, "3/0" := 200, "4/0" := 230, "250" := 255, "300" := 285,
    "350" := 310, "400" := 335, "500" := 380]
  const AlAmpacity: map<string, int> := map[
    "#12" := 20, "#10" := 30, "#8" := 40, "#6" := 50, "#4" := 65, "#3" := 75, "#2" := 90, "#1" := 100,
    "1/0" := 120, "2/0" := 135, "3/0" := 155, "4/0" := 180, "250" := 205, "300" := 230, "350" := 250,
    "400" := 270, "500" := 310]

  /** `AMPACITY_TABLE`: one table per conductor material. */
  const AmpacityTables: map<Conductor, map<string, int>> := map[Cu := CuAmpacity, Al := AlAmpacity]

  /**
   * `_normalize_conductor_size`: strip, upper-case, drop "KCMIL", strip again;
   * a metric size (ending "MM2", not '#'-prefixed and without '/') has no entry.
   */
  function NormalizeConductorSize(size: string): Option<string> {
    var s := CleanSize(size);
    if StartsWith(s, "#") then Some(s)
    else if '/' in s then Some(s)
    else if EndsWith(s, "MM2") then None
    else Some(s)
  }

  /**
   * A normalised size is upper-case with no surrounding white space, and a
   * size is refused only when it ends in "MM2" with neither a '#' prefix nor a '/'.
   */
  lemma NormalizedIsClean(size: string)
    ensures NormalizeConductorSize(size).Some? ==>
      var r := NormalizeConductorSize(size).value; IsUpper(r) && Strip(r) == r
    ensures NormalizeConductorSize(size).None? <==>
      var s := CleanSize(size);
      !StartsWith(s, "#") && '/' !in s && EndsWith(s, "MM2")
  {
    CleanSizeIsClean(size);
  }

  /**
   * The table ampacity of a cable times its parallel sets, when the material
   * has a non-empty table and the normalised size an entry in it.
   */
  function EffectiveAmpacity(cable: Cable, tables: map<Conductor, map<string, int>>): (r: Option<int>)
    ensures r.Some? ==> NormalizeConductorSize(cable.sizeAwg).Some? && cable.conductor in tables
  {
    match NormalizeConductorSize(cable.sizeAwg)
    case None => None
    case Some(size) =>
      if cable.conductor !in tables || tables[cable.conductor] == map[] then None
      else if size !in tables[cable.conductor] then None
      else Some(tables[cable.conductor][size] * MaxInt(cable.qtyPerPhase, 1))
  }

  /** The OCPD rating exceeds what the cable carries. */
  predicate AmpacityShort(e: Edge, tables: map<Conductor, map<string, int>>) {
    && e.ocpd.Some? && e.ocpd.value.ratingA.Some?
    && e.cable.Some?
    && EffectiveAmpacity(e.cable.value, tables).Some?
    && e.ocpd.value.ratingA.value > EffectiveAmpacity(e.cable.value, tables).value as real
  }

  function AmpacityIssues(edges: seq<Edge>, tables: map<Conductor, map<string, int>>): seq<Issue> {
    if edges == [] then []
    else
      AmpacityIssues(edges[..|edges| - 1], tables)
      + (if AmpacityShort(edges[|edges| - 1], tables) then [Issue(Warning, AmpacityLtOcpd, EdgeCableSize(|edges| - 1))] else [])
  }

  /** The issues of the first `i + 1` edges: those of the first `i`, then edge `i`'s warning if it has one. */
  lemma AmpacityPrefixStep(edges: seq<Edge>, tables: map<Conductor, map<string, int>>, i: nat)
    requires i < |edges|
    ensures AmpacityIssues(edges[..i + 1], tables) == AmpacityIssues(edges[..i], tables)
      + (if AmpacityShort(edges[i], tables) then [Issue(Warning, AmpacityLtOcpd, EdgeCableSize(i))] else [])
  {
    assert edges[..i + 1][..i] == edges[..i];
  }

  /** An issue is raised over one more edge iff it was raised before, or it is the new edge's warning. */
  lemma AmpacityStep(edges: seq<Edge>, tables: map<Conductor, map<string, int>>, x: Issue)
    requires edges != []
    ensures x in AmpacityIssues(edges, tables) <==>
      x in AmpacityIssues(edges[..|edges| - 1], tables)
      || (AmpacityShort(edges[|edges| - 1], tables) && x == Issue(Warning, AmpacityLtOcpd, EdgeCableSize(|edges| - 1)))
  {
  }

  /** A warning on edge `i` exactly when its rating exceeds the table ampacity times the parallel sets. */
  lemma {:induction false} AmpacityExact(edges: seq<Edge>, tables: map<Conductor, map<string, int>>, i: nat)
    requires i < |edges|
    ensures Issue(Warning, AmpacityLtOcpd, EdgeCableSize(i)) in AmpacityIssues(edges, tables) <==> AmpacityShort(edges[i], tables)
    decreases |edges|
  {
    var n := |edges| - 1;
    var x := Issue(Warning, AmpacityLtOcpd, EdgeCableSize(i));
    AmpacityStep(edges, tables, x);
    if i < n {
      AmpacityExact(edges[..n], tables, i);
      assert edges[..n][i] == edges[i];
    } else {
      AmpacityOnly(edges[..n], tables, x);
    }
  }

  /** Every ampacity issue is a warning on the cable size of an edge of the list. */
  lemma {:induction false} AmpacityOnly(edges: seq<Edge>, tables: map<Conductor, map<string, int>>, x: Issue)
    ensures x in AmpacityIssues(edges, tables) ==>
      x.severity == Warning && x.code == AmpacityLtOcpd && x.path.EdgeCableSize? && x.path.idx < |edges|
    decreases |edges|
  {
    if edges != [] {
      AmpacityOnly(edges[..|edges| - 1], tables, x);
    }
  }

  /** The ampacity check against given tables. */
  method AmpacityAgainst(edges: seq<Edge>, tables: map<Conductor, map<string, int>>) returns (issues: seq<Issue>)
    ensures issues == AmpacityIssues(edges, tables)
  {
    issues := [];
    var i := 0;
    while i < |edges|
      invariant 0 <= i <= |edges|
      invariant issues == AmpacityIssues(edges[..i], tables)
    {
      var e := edges[i];
      AmpacityPrefixStep(edges, tables, i);
      i := i + 1;
      if e.ocpd.None? || e.ocpd.value.ratingA.None? {
        continue;
      }
      if e.cable.None? {
        continue;
      }
      var normalized := NormalizeConductorSize(e.cable.value.sizeAwg);
      if normalized.None? {
        continue;
      }
      if e.cable.value.conductor !in tables || tables[e.cable.value.conductor] == map[] {
        continue;
      }
      var table := tables[e.cable.value.conductor];
      if normalized.value !in table {
        continue;
      }
      var effective := table[normalized.value] * MaxInt(e.cable.value.qtyPerPhase, 1);
      if e.ocpd.value.ratingA.value > effective as real {
        issues := issues + [Issue(Warning, AmpacityLtOcpd, EdgeCableSize(i - 1))];
      }
    }
    assert edges[..i] == edges;
  }

  method Ampacity(g: ProjectGraph) returns (issues: seq<Issue>)
    ensures issues == AmpacityIssues(g.edges, AmpacityTables)
  {
    issues := AmpacityAgainst(g.edges, AmpacityTables);
  }

  // ---------------------------------------------------------------- coverage

  predicate ServiceFaultMissing(g: ProjectGraph) {
    g.shortCircuit.None? || g.shortCircuit.value.serviceFaultKA.None?
  }

  /** Some schedule lists at least one entry. */
  predicate ScheduleGiven(schedules: seq<PanelSchedule>) {
    exists i :: 0 <= i < |schedules| && schedules[i].entries != []
  }

  /** Some node carries a non-zero kVA or kW. */
  predicate NodeLoadGiven(nodes: seq<Node>) {
    exists i :: 0 <= i < |nodes| && nodes[i].load.Some? && (Truthy(nodes[i].load.value.kVA) || Truthy(nodes[i].load.value.kW))
  }

  /**
   * Coverage: an error when short-circuit analysis is on and the service fault
   * is missing; a warning when load analysis is on and neither a schedule entry
   * nor a node load is given.
   */
  function CoverageIssues(g: ProjectGraph): seq<Issue> {
    (if g.flags.shortCircuit && ServiceFaultMissing(g) then [Issue(Error, ShortCircuitInputMissing, ServiceFault)] else [])
    + (if g.flags.load && !ScheduleGiven(g.schedules) && !NodeLoadGiven(g.nodes)
       then [Issue(Warning, LoadInputIncomplete, PanelSchedules)] else [])
  }

  method Coverage(g: ProjectGraph) returns (issues: seq<Issue>)
    ensures issues == CoverageIssues(g)
  {
    issues := [];
    if g.flags.shortCircuit {
      if g.shortCircuit.None? || g.shortCircuit.value.serviceFaultKA.None? {
        issues := issues + [Issue(Error, ShortCircuitInputMissing, ServiceFault)];
      }
    }
    if g.flags.load {
      var panelsWithEntries := false;
      var i := 0;
      while i < |g.schedules|
        invariant 0 <= i <= |g.schedules|
        invariant panelsWithEntries <==> exists j :: 0 <= j < i && g.schedules[j].entries != []
      {
        if g.schedules[i].entries != [] {
          panelsWithEntries := true;
        }
        i := i + 1;
      }
      var loadsPresent := false;
      i := 0;
      while i < |g.nodes|
        invariant 0 <= i <= |g.nodes|
        invariant loadsPresent <==> exists j :: 0 <= j < i && g.nodes[j].load.Some?
                                               && (Truthy(g.nodes[j].load.value.kVA) || Truthy(g.nodes[j].load.value.kW))
      {
        var load := g.nodes[i].load;
        if load.Some? && (Truthy(load.value.kVA) || Truthy(load.value.kW)) {
          loadsPresent := true;
        }
        i := i + 1;
      }
      if !panelsWithEntries && !loadsPresent {
        issues := issues + [Issue(Warning, LoadInputIncomplete, PanelSchedules)];
      }
    }
  }

  // ----------------------------------------------------------------- project

  /** All five validators' issues, concatenated in their fixed order. */
  ghost function ProjectIssues(g: ProjectGraph): seq<Issue> {
    TopologyIssues(g) + VoltagePhaseIssues(g.nodes, g.edges) + PanelIssues(g.nodes, g.edges)
    + AmpacityIssues(g.edges, AmpacityTables) + CoverageIssues(g)
  }

  method ValidateProject(g: ProjectGraph) returns (issues: seq<Issue>)
    ensures issues == ProjectIssues(g)
  {
    var topology := Topology(g);
    var voltagePhase := VoltagePhase(g);
    var protection := PanelProtection(g);
    var ampacity := Ampacity(g);
    var coverage := Coverage(g);
    issues := topology + voltagePhase + protection + ampacity + coverage;
  }

  /** The project report holds a cycle error exactly when the known edges have a cycle. */
  lemma CycleReported(g: ProjectGraph)
    ensures Issue(Error, TopologyCycle, Edges) in ProjectIssues(g)
            <==> !KahnFacts.Acyclic(Kahn.Dedup(Ids(g.nodes)), KnownEdges(Ids(g.nodes), g.edges))
  {
    var x := Issue(Error, TopologyCycle, Edges);
    RefIssuesExact(Ids(g.nodes), g.edges, x);
    OnlyTopologyCycles(g, x);
  }

  /** No validator but the topology one reports a cycle. */
  lemma OnlyTopologyCycles(g: ProjectGraph, x: Issue)
    requires x.code == TopologyCycle
    ensures x !in VoltagePhaseIssues(g.nodes, g.edges) + PanelIssues(g.nodes, g.edges) + AmpacityIssues(g.edges, AmpacityTables) + CoverageIssues(g)
  {
    PanelIssuesExact(g.nodes, g.edges, x);
    AmpacityOnly(g.edges, AmpacityTables, x);
    VoltagePhaseCodes(g.nodes, g.edges, x);
  }

  lemma {:induction false} VoltagePhaseCodes(nodes: seq<Node>, edges: seq<Edge>, x: Issue)
    ensures x in VoltagePhaseIssues(nodes, edges) ==> x.code == VoltageMismatch || x.code == PhaseIncompatible
    decreases |edges|
  {
    if edges != [] {
      VoltagePhaseCodes(nodes, edges[..|edges| - 1], x);
    }
  }
}
