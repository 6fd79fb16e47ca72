/**
 * The ee_mvp calculator: the configuration defaults, the parent and child
 * lists of the project graph, the Kahn order, the schedule totals, the panel
 * roll-up, the per-edge checks and the cumulative voltage-drop totals.
 */
module MvpRun {
  import opened Wrappers
  import opened MvpModels
  import opened MvpNec
  import opened MvpVd
  import opened MvpTaps
  import Kahn
  import KahnFacts

  // Configuration

  /** `DEFAULT_CONFIG`. */
  const DefaultConfig: map<string, real> :=
    map["pf" := 0.9, "vd_branch_pct" := 3.0, "vd_feeder_pct" := 3.0, "vd_total_pct" := 5.0]

  /**
   * `load_config`: the defaults with the given settings laid over them key by
   * key; a key the settings do not name keeps its default.
   */
  function LoadConfig(config: Option<map<string, real>>): (r: map<string, real>)
    ensures forall k :: k in DefaultConfig ==> k in r
    ensures config.Some? ==> forall k :: k in config.value ==> k in r && r[k] == config.value[k]
    ensures forall k :: k in r && (config.None? || k !in config.value) ==> k in DefaultConfig && r[k] == DefaultConfig[k]
  {
    if config.Some? && |config.value| > 0 then DefaultConfig + config.value else DefaultConfig
  }

  /** `config.get(key, default)`. */
  function Setting(config: map<string, real>, key: string, default: real): real {
    if key in config then config[key] else default
  }

  /** A loaded configuration names every setting the calculator reads, so none of its fallbacks is used. */
  lemma LoadedSettings(config: Option<map<string, real>>, key: string, default: real)
    requires key in DefaultConfig
    ensures Setting(LoadConfig(config), key, default) ==
      if config.Some? && key in config.value then config.value[key] else DefaultConfig[key]
  {
  }

  /** `m.get(k, 0.0)`. */
  function Get(m: map<string, real>, k: string): real {
    if k in m then m[k] else 0.0
  }

  // Graph lists and schedules

  /** The sources of the edges into `n`, one per edge, in edge order: `parents[n]`. */
  function ParentIds(es: seq<Kahn.Edge>, n: string): seq<string> {
    if es == [] then []
    else ParentIds(es[..|es| - 1], n) + (if es[|es| - 1].1 == n then [es[|es| - 1].0] else [])
  }

  /** The number of entries of `xs` equal to `x`. */
  function Count(xs: seq<string>, x: string): (r: nat)
    ensures r == 0 <==> x !in xs
  {
    if xs == [] then 0
    else
      var init := xs[..|xs| - 1];
      assert xs == init + [xs[|xs| - 1]];
      Count(init, x) + (if xs[|xs| - 1] == x then 1 else 0)
  }

  /** The number of edges from `u` to `c`. */
  function PairCount(es: seq<Kahn.Edge>, u: string, c: string): (r: nat)
    ensures r == 0 <==> (u, c) !in es
  {
    if es == [] then 0
    else
      var init := es[..|es| - 1];
      assert es == init + [es[|es| - 1]];
      PairCount(init, u, c) + (if es[|es| - 1] == (u, c) then 1 else 0)
  }

  lemma CountAppend(xs: seq<string>, y: string, x: string)
    ensures Count(xs + [y], x) == Count(xs, x) + (if y == x then 1 else 0)
  {
    assert (xs + [y])[..|xs|] == xs;
  }

  /** A source appears in `parents[n]` once for each edge from it to `n`. */
  lemma {:induction false} ParentCount(es: seq<Kahn.Edge>, n: string, p: string)
    ensures Count(ParentIds(es, n), p) == PairCount(es, p, n)
  {
    if es != [] {
      var init := es[..|es| - 1];
      ParentCount(init, n, p);
      if es[|es| - 1].1 == n {
        CountAppend(ParentIds(init, n), es[|es| - 1].0, p);
      } else {
        assert ParentIds(es, n) == ParentIds(init, n) + [];
        assert ParentIds(init, n) + [] == ParentIds(init, n);
      }
    }
  }

  lemma ListsStep(es: seq<Kahn.Edge>, i: nat, n: string)
    requires i < |es|
    ensures ParentIds(es[..i + 1], n) == ParentIds(es[..i], n) + (if es[i].1 == n then [es[i].0] else [])
    ensures Kahn.Targets(es[..i + 1], n) == Kahn.Targets(es[..i], n) + (if es[i].0 == n then [es[i].1] else [])
  {
    assert es[..i + 1][..i] == es[..i];
  }

  /** The targets of the edges out of `n` appear in `children[n]` once for each edge. */
  lemma {:induction false} ChildCount(es: seq<Kahn.Edge>, n: string, c: string)
    ensures Count(Kahn.Targets(es, n), c) == PairCount(es, n, c)
  {
    if es != [] {
      var init := es[..|es| - 1];
      ChildCount(init, n, c);
      if es[|es| - 1].0 == n {
        CountAppend(Kahn.Targets(init, n), es[|es| - 1].1, c);
      } else {
        assert Kahn.Targets(es, n) == Kahn.Targets(init, n) + [];
        assert Kahn.Targets(init, n) + [] == Kahn.Targets(init, n);
      }
    }
  }

  /** The index of the last schedule for `panel`, if there is one. */
  function LastSchedule(schedules: seq<PanelSchedule>, panel: string): (r: Option<nat>)
    ensures r.Some? ==> (r.value < |schedules| && schedules[r.value].panelId == panel &&
      forall j :: r.value < j < |schedules| ==> schedules[j].panelId != panel)
    ensures r.None? ==> forall j :: 0 <= j < |schedules| ==> schedules[j].panelId != panel
  {
    if schedules == [] then None
    else if schedules[|schedules| - 1].panelId == panel then Some(|schedules| - 1)
    else LastSchedule(schedules[..|schedules| - 1], panel)
  }

  /** The schedule index `{sched.panel_id: sched ...}`: a later schedule of a panel replaces an earlier one. */
  function ScheduleMap(schedules: seq<PanelSchedule>): (r: map<string, PanelSchedule>)
    ensures forall p :: p in r <==> LastSchedule(schedules, p).Some?
    ensures forall p :: p in r ==> r[p] == schedules[LastSchedule(schedules, p).value]
  {
    if schedules == [] then map[]
    else ScheduleMap(schedules[..|schedules| - 1])[schedules[|schedules| - 1].panelId := schedules[|schedules| - 1]]
  }

  /** The edge targets, in edge order. */
  function TargetIds(edges: seq<Edge>): (r: seq<string>)
    ensures |r| == |edges|
    ensures forall j :: 0 <= j < |edges| ==> r[j] == edges[j].toId
  {
    seq(|edges|, j requires 0 <= j < |edges| => edges[j].toId)
  }

  /**
   * The keys of the in-degree table in insertion order: the node ids, then
   * the edge targets that are not node ids, each once.
   */
  function OrderKeys(p: Project): (r: seq<string>)
    ensures Kahn.NoDup(r)
    ensures forall j :: 0 <= j < |p.edges| ==> p.edges[j].toId in r
    ensures forall i :: 0 <= i < |p.nodes| ==> p.nodes[i].id in r
    ensures forall x :: x in r ==> x in NodeIds(p.nodes) || x in TargetIds(p.edges)
  {
    var r := Kahn.Dedup(NodeIds(p.nodes) + TargetIds(p.edges));
    assert forall j :: 0 <= j < |p.edges| ==> p.edges[j].toId in NodeIds(p.nodes) + TargetIds(p.edges) by {
      forall j | 0 <= j < |p.edges|
        ensures p.edges[j].toId in NodeIds(p.nodes) + TargetIds(p.edges)
      {
        assert (NodeIds(p.nodes) + TargetIds(p.edges))[|p.nodes| + j] == p.edges[j].toId;
      }
    }
    assert forall i :: 0 <= i < |p.nodes| ==> p.nodes[i].id in NodeIds(p.nodes) + TargetIds(p.edges) by {
      forall i | 0 <= i < |p.nodes|
        ensures p.nodes[i].id in NodeIds(p.nodes) + TargetIds(p.edges)
      {
        assert (NodeIds(p.nodes) + TargetIds(p.edges))[i] == p.nodes[i].id;
      }
    }
    r
  }

  /** Every edge starts at a key of the in-degree table. */
  predicate SourcesKnown(p: Project) {
    forall j :: 0 <= j < |p.edges| ==> p.edges[j].fromId in OrderKeys(p)
  }

  // Schedule totals

  /** The kVA of the continuous entries. */
  function ContinuousKva(entries: seq<PanelEntry>): real {
    if entries == [] then 0.0
    else ContinuousKva(entries[..|entries| - 1]) + (if entries[|entries| - 1].cont then entries[|entries| - 1].kVA else 0.0)
  }

  /** The kVA of the non-continuous entries. */
  function NoncontinuousKva(entries: seq<PanelEntry>): real {
    if entries == [] then 0.0
    else NoncontinuousKva(entries[..|entries| - 1]) + (if entries[|entries| - 1].cont then 0.0 else entries[|entries| - 1].kVA)
  }

  /** The kVA of all entries. */
  function TotalKva(entries: seq<PanelEntry>): real {
    if entries == [] then 0.0 else TotalKva(entries[..|entries| - 1]) + entries[|entries| - 1].kVA
  }

  /** The continuous and non-continuous totals partition the schedule's kVA. */
  lemma {:induction false} KvaPartition(entries: seq<PanelEntry>)
    ensures ContinuousKva(entries) + NoncontinuousKva(entries) == TotalKva(entries)
  {
    if entries != [] {
      KvaPartition(entries[..|entries| - 1]);
    }
  }

  /** Both totals are non-negative when every entry is. */
  lemma {:induction false} KvaNonNegative(entries: seq<PanelEntry>)
    requires forall i :: 0 <= i < |entries| ==> entries[i].kVA >= 0.0
    ensures ContinuousKva(entries) >= 0.0 && NoncontinuousKva(entries) >= 0.0
  {
    if entries != [] {
      KvaNonNegative(entries[..|entries| - 1]);
    }
  }

  /** Design kVA: continuous load at 125 % plus the non-continuous load. */
  function DesignKva(cont: real, noncont: real): real {
    cont * 1.25 + noncont
  }

  /** For non-negative entries the design kVA lies between the schedule's kVA and 125 % of it. */
  lemma DesignBounds(entries: seq<PanelEntry>)
    requires forall i :: 0 <= i < |entries| ==> entries[i].kVA >= 0.0
    ensures TotalKva(entries) <= DesignKva(ContinuousKva(entries), NoncontinuousKva(entries)) <= 1.25 * TotalKva(entries)
  {
    KvaPartition(entries);
    KvaNonNegative(entries);
  }

  /** The schedule of panel `id`, or an empty one. */
  function ScheduleOf(schedule: map<string, PanelSchedule>, id: string): PanelSchedule {
    if id in schedule then schedule[id] else PanelSchedule(id, [])
  }

  /** The design kVA of panel `id`'s own schedule. */
  function DesignOf(schedule: map<string, PanelSchedule>, id: string): real {
    var entries := ScheduleOf(schedule, id).entries;
    DesignKva(ContinuousKva(entries), NoncontinuousKva(entries))
  }

  /** The roll-up's starting map: each node id with its own design kVA. */
  function DesignLoads(nodes: seq<Node>, schedule: map<string, PanelSchedule>): (r: map<string, real>)
    ensures forall id :: id in r <==> id in NodeIds(nodes)
    ensures forall id :: id in r ==> r[id] == DesignOf(schedule, id)
  {
    map id | id in NodeIds(nodes) :: DesignOf(schedule, id)
  }

  // The roll-up

  /** `n` copies of `x` added up. */
  function Rep(n: nat, x: real): real {
    if n == 0 then 0.0 else Rep(n - 1, x) + x
  }

  /** Adding `load` once more to `x` counts one more occurrence of `x`. */
  lemma FeedStep(ps: seq<string>, x: string, load: real, roll0: map<string, real>, prev: map<string, real>,
                 roll: map<string, real>)
    requires forall u :: Get(prev, u) == Get(roll0, u) + Rep(Count(ps, u), load)
    requires roll == prev[x := Get(prev, x) + load]
    ensures forall u :: Get(roll, u) == Get(roll0, u) + Rep(Count(ps + [x], u), load)
  {
    forall u
      ensures Get(roll, u) == Get(roll0, u) + Rep(Count(ps + [x], u), load)
    {
      CountAppend(ps, x, u);
    }
  }

  /** The totals of the targets of `u`'s edges that lie in `done`, one term per edge. */
  function EdgeLoad(es: seq<Kahn.Edge>, u: string, done: seq<string>, roll: map<string, real>): real {
    if es == [] then 0.0
    else
      var e := es[|es| - 1];
      EdgeLoad(es[..|es| - 1], u, done, roll) + (if e.0 == u && e.1 in done then Get(roll, e.1) else 0.0)
  }

  /** The totals of the nodes in the list `kids`, each entry counted. */
  function KidsTotal(kids: seq<string>, roll: map<string, real>): real {
    if kids == [] then 0.0 else KidsTotal(kids[..|kids| - 1], roll) + Get(roll, kids[|kids| - 1])
  }

  /**
   * The roll-up equation over the nodes in `done`: every total is the node's
   * own load plus the totals of its children in `done`, once per edge.
   */
  ghost predicate RolledUp(base: map<string, real>, es: seq<Kahn.Edge>, done: seq<string>, roll: map<string, real>) {
    forall u :: Get(roll, u) == Get(base, u) + EdgeLoad(es, u, done, roll)
  }

  lemma {:induction false} EdgeLoadNone(es: seq<Kahn.Edge>, u: string, roll: map<string, real>)
    ensures EdgeLoad(es, u, [], roll) == 0.0
  {
    if es != [] {
      EdgeLoadNone(es[..|es| - 1], u, roll);
    }
  }

  lemma {:induction false} EdgeLoadFrame(es: seq<Kahn.Edge>, u: string, done: seq<string>, a: map<string, real>,
                                         b: map<string, real>)
    requires forall c :: c in done ==> Get(a, c) == Get(b, c)
    ensures EdgeLoad(es, u, done, a) == EdgeLoad(es, u, done, b)
  {
    if es != [] {
      EdgeLoadFrame(es[..|es| - 1], u, done, a, b);
    }
  }

  /** Adding a node to `done` adds its total once for each edge from `u` to it. */
  lemma {:induction false} EdgeLoadAdd(es: seq<Kahn.Edge>, u: string, c: string, done: seq<string>,
                                       roll: map<string, real>)
    requires c !in done
    ensures EdgeLoad(es, u, [c] + done, roll) == EdgeLoad(es, u, done, roll) + Rep(PairCount(es, u, c), Get(roll, c))
  {
    if es != [] {
      var init := es[..|es| - 1];
      EdgeLoadAdd(init, u, c, done, roll);
      assert es == init + [es[|es| - 1]];
    }
  }

  /** Once every edge's target is in `done`, the sum runs over the whole child list of `u`. */
  lemma {:induction false} EdgeLoadAll(es: seq<Kahn.Edge>, u: string, done: seq<string>, roll: map<string, real>)
    requires forall j :: 0 <= j < |es| ==> es[j].1 in done
    ensures EdgeLoad(es, u, done, roll) == KidsTotal(Kahn.Targets(es, u), roll)
  {
    if es != [] {
      var init := es[..|es| - 1];
      var e := es[|es| - 1];
      EdgeLoadAll(init, u, done, roll);
      if e.0 == u {
        assert (Kahn.Targets(init, u) + [e.1])[..|Kahn.Targets(init, u)|] == Kahn.Targets(init, u);
      } else {
        assert Kahn.Targets(es, u) == Kahn.Targets(init, u);
      }
    }
  }

  /** In a Kahn order no emitted node is a parent of an earlier or the same node. */
  lemma NotParentOfEarlier(es: seq<Kahn.Edge>, order: seq<string>, k: nat, d: string)
    requires Kahn.NoDup(order) && Kahn.ParentsFirst(es, order)
    requires k < |order| && d in order[k..]
    ensures (d, order[k]) !in es
  {
    if (d, order[k]) in es {
      assert (d, order[k]) in es;
      var j :| 0 <= j < |es| && es[j] == (d, order[k]);
      assert false;
    }
  }

  /** The roll-up equation over every emitted node becomes the full one when every edge target is emitted. */
  lemma RolledUpAll(base: map<string, real>, es: seq<Kahn.Edge>, order: seq<string>, roll: map<string, real>)
    requires RolledUp(base, es, order, roll)
    requires forall j :: 0 <= j < |es| ==> es[j].1 in order
    ensures forall u :: Get(roll, u) == Get(base, u) + KidsTotal(Kahn.Targets(es, u), roll)
  {
    forall u
      ensures Get(roll, u) == Get(base, u) + KidsTotal(Kahn.Targets(es, u), roll)
    {
      EdgeLoadAll(es, u, order, roll);
    }
  }

  /** Once the order holds every key, each node's total is its own load plus its child list's totals. */
  lemma CompleteRollUp(p: Project, order: seq<string>, base: map<string, real>, roll: map<string, real>)
    requires KahnFacts.IsKahnOrder(OrderKeys(p), Pairs(p.edges), order) && |order| == |OrderKeys(p)|
    requires RolledUp(base, Pairs(p.edges), order, roll)
    ensures forall u :: Get(roll, u) == Get(base, u) + KidsTotal(Kahn.Targets(Pairs(p.edges), u), roll)
  {
    var keys := OrderKeys(p);
    var es := Pairs(p.edges);
    forall j | 0 <= j < |es|
      ensures es[j].1 in order
    {
      KahnFacts.FullLength(order, keys, es[j].1);
    }
    RolledUpAll(base, es, order, roll);
  }

  // Panel summary rows

  /** The first half of a summary row: the node's fields and its own schedule's totals. */
  datatype PanelRow = PanelRow(bus: string, kind: string, vLL: real, ratingA: Option<real>,
                               kVACont: real, kVANoncont: real, kVADesign: real)

  /** A summary row: the panel row with the rolled-up kVA, the design current and the utilisation. */
  datatype SummaryRow = SummaryRow(row: PanelRow, kVATotal: real, iDesignA: real, utilizationPct: real)

  /**
   * The design current of `totalKva` at line-to-line `voltage`, kVA·1000 / (√3·V); zero at zero volts.
   * √3 is `Numerics.Sqrt3` written out as a literal, so that the product with `r` stays linear.
   */
  function DesignCurrent(totalKva: real, voltage: real): (r: real)
    ensures voltage == 0.0 ==> r == 0.0
    ensures voltage != 0.0 ==> r * (1.7320508075688772 * voltage) == totalKva * 1000.0
    ensures totalKva >= 0.0 && voltage > 0.0 ==> r >= 0.0
  {
    if voltage != 0.0 then totalKva * 1000.0 / (1.7320508075688772 * voltage) else 0.0
  }

  /** The utilisation in percent of `rating`; zero when there is no rating. */
  function Utilization(current: real, rating: real): (r: real)
    ensures rating == 0.0 ==> r == 0.0
    ensures rating != 0.0 ==> r * rating == current * 100.0
  {
    if rating != 0.0 then current / rating * 100.0 else 0.0
  }

  /** The summary row of `row` once its rolled-up kVA is known. */
  function SummaryFor(row: PanelRow, total: real): (r: SummaryRow)
    ensures r.row == row && r.kVATotal == total
    ensures r.iDesignA == DesignCurrent(total, row.vLL)
    ensures r.utilizationPct == Utilization(r.iDesignA, OrZero(row.ratingA))
  {
    var current := DesignCurrent(total, row.vLL);
    SummaryRow(row, total, current, Utilization(current, OrZero(row.ratingA)))
  }

  /** The current recorded for each bus by the rows, a later row of a bus replacing an earlier one. */
  function BusCurrents(rows: seq<SummaryRow>): (r: map<string, real>)
    ensures forall b :: b in r <==> exists i :: 0 <= i < |rows| && rows[i].row.bus == b
  {
    if rows == [] then map[]
    else BusCurrents(rows[..|rows| - 1])[rows[|rows| - 1].row.bus := rows[|rows| - 1].iDesignA]
  }

  /** Updating the right side of a merge updates the merge. */
  lemma MergeUpdate(a: map<string, real>, b: map<string, real>, k: string, v: real)
    ensures a + b[k := v] == (a + b)[k := v]
  {
  }

  // Cumulative voltage drop

  /** The last node of `done` with an edge into `c`. */
  function LastParent(done: seq<string>, es: seq<Kahn.Edge>, c: string): (r: Option<string>)
    ensures r.Some? ==> r.value in done && (r.value, c) in es
    ensures r.None? ==> forall x :: x in done ==> (x, c) !in es
  {
    if done == [] then None
    else if (done[|done| - 1], c) in es then Some(done[|done| - 1])
    else LastParent(done[..|done| - 1], es, c)
  }

  /** `vd_map.get((p, c), 0.0)`. */
  function DropOf(vdMap: map<(string, string), real>, p: string, c: string): real {
    if (p, c) in vdMap then vdMap[(p, c)] else 0.0
  }

  /**
   * The totals after visiting `done`: a node with a parent in `done` holds
   * the total of the last such parent plus that edge's drop; any other node
   * holds zero.
   */
  ghost predicate Accumulated(es: seq<Kahn.Edge>, done: seq<string>, vdMap: map<(string, string), real>,
                              totals: map<string, real>) {
    forall c :: Get(totals, c) ==
      match LastParent(done, es, c)
      case None => 0.0
      case Some(p) => Get(totals, p) + DropOf(vdMap, p, c)
  }

  /** The nodes `order[..k]` reaches and the keys `totals` has after visiting them. */
  ghost predicate Reached(es: seq<Kahn.Edge>, done: seq<string>, ids: seq<string>, totals: map<string, real>) {
    forall c :: c in totals <==> c in ids || LastParent(done, es, c).Some?
  }

  /** Visiting `order[k]` makes it the last parent of exactly its children. */
  lemma LastParentNext(es: seq<Kahn.Edge>, order: seq<string>, k: nat, c: string)
    requires k < |order|
    ensures LastParent(order[..k + 1], es, c) ==
      if c in Kahn.Targets(es, order[k]) then Some(order[k]) else LastParent(order[..k], es, c)
  {
    assert order[..k + 1][..k] == order[..k];
    ChildCount(es, order[k], c);
  }

  /** The keys after one pass of the totals' inner loop. */
  lemma LastParentStep(es: seq<Kahn.Edge>, order: seq<string>, k: nat, ids: seq<string>,
                       t0: map<string, real>, totals: map<string, real>)
    requires k < |order| && Reached(es, order[..k], ids, t0)
    requires forall c :: c in totals <==> c in t0 || c in Kahn.Targets(es, order[k])
    ensures Reached(es, order[..k + 1], ids, totals)
  {
    forall c
      ensures c in totals <==> c in ids || LastParent(order[..k + 1], es, c).Some?
    {
      LastParentNext(es, order, k, c);
    }
  }

  /**
   * One pass of the totals' inner loop keeps them accumulated: the children
   * of `order[k]` take its total plus the edge's drop, and no other node's
   * last parent changes, nor the total of any of those parents.
   */
  lemma AccumulateStep(es: seq<Kahn.Edge>, order: seq<string>, k: nat, vdMap: map<(string, string), real>,
                       t0: map<string, real>, totals: map<string, real>)
    requires Kahn.NoDup(order) && Kahn.ParentsFirst(es, order) && k < |order|
    requires Accumulated(es, order[..k], vdMap, t0)
    requires order[k] in t0 && order[k] !in Kahn.Targets(es, order[k])
    requires forall c :: c in Kahn.Targets(es, order[k]) ==> Get(totals, c) == t0[order[k]] + DropOf(vdMap, order[k], c)
    requires forall c :: c !in Kahn.Targets(es, order[k]) ==> Get(totals, c) == Get(t0, c)
    ensures Accumulated(es, order[..k + 1], vdMap, totals)
  {
    forall c
      ensures Get(totals, c) ==
        match LastParent(order[..k + 1], es, c)
        case None => 0.0
        case Some(q) => Get(totals, q) + DropOf(vdMap, q, c)
    {
      AccumulateAt(es, order, k, vdMap, t0, totals, c);
    }
  }

  /** `AccumulateStep` at one node `c`. */
  lemma AccumulateAt(es: seq<Kahn.Edge>, order: seq<string>, k: nat, vdMap: map<(string, string), real>,
                     t0: map<string, real>, totals: map<string, real>, c: string)
    requires Kahn.NoDup(order) && Kahn.ParentsFirst(es, order) && k < |order|
    requires Accumulated(es, order[..k], vdMap, t0)
    requires order[k] in t0 && order[k] !in Kahn.Targets(es, order[k])
    requires forall c :: c in Kahn.Targets(es, order[k]) ==> Get(totals, c) == t0[order[k]] + DropOf(vdMap, order[k], c)
    requires forall c :: c !in Kahn.Targets(es, order[k]) ==> Get(totals, c) == Get(t0, c)
    ensures Get(totals, c) ==
      match LastParent(order[..k + 1], es, c)
      case None => 0.0
      case Some(q) => Get(totals, q) + DropOf(vdMap, q, c)
  {
    var p := order[k];
    var kids := Kahn.Targets(es, p);
    LastParentNext(es, order, k, c);
    if c in kids {
      assert Get(totals, p) == Get(t0, p) == t0[p];
    } else {
      var last := LastParent(order[..k], es, c);
      assert Get(totals, c) == Get(t0, c);
      if last.Some? {
        NotChildOfLater(es, order, k, last.value);
        ChildCount(es, p, last.value);
        assert Get(totals, last.value) == Get(t0, last.value);
      }
    }
  }

  /** One row of the voltage-drop totals. */
  datatype VdTotalRow = VdTotalRow(bus: string, totalVdPct: real, vdTotalOk: bool)

  /** The rows of the nodes with a non-zero voltage, in node order. */
  function VdRecords(nodes: seq<Node>, totals: map<string, real>, limit: real): (r: seq<VdTotalRow>)
    ensures |r| <= |nodes|
    ensures forall k :: 0 <= k < |r| ==>
      r[k].totalVdPct == Get(totals, r[k].bus) && (r[k].vdTotalOk <==> r[k].totalVdPct <= limit)
  {
    if nodes == [] then []
    else
      var n := nodes[|nodes| - 1];
      VdRecords(nodes[..|nodes| - 1], totals, limit) +
        (if Calculator.NodeVoltage(n) != 0.0 then [VdTotalRow(n.id, Get(totals, n.id), Get(totals, n.id) <= limit)] else [])
  }

  /** Every node with a non-zero voltage has its row. */
  lemma {:induction false} VdRecordsComplete(nodes: seq<Node>, totals: map<string, real>, limit: real, i: nat)
    requires i < |nodes| && Calculator.NodeVoltage(nodes[i]) != 0.0
    ensures VdTotalRow(nodes[i].id, Get(totals, nodes[i].id), Get(totals, nodes[i].id) <= limit) in VdRecords(nodes, totals, limit)
  {
    var init := nodes[..|nodes| - 1];
    if i < |init| {
      VdRecordsComplete(init, totals, limit, i);
      assert init[i] == nodes[i];
    }
  }

  /** Every row belongs to a node with a non-zero voltage. */
  lemma {:induction false} VdRecordsSound(nodes: seq<Node>, totals: map<string, real>, limit: real, k: nat)
    requires k < |VdRecords(nodes, totals, limit)|
    ensures var bus := VdRecords(nodes, totals, limit)[k].bus;
      exists i :: 0 <= i < |nodes| && nodes[i].id == bus && Calculator.NodeVoltage(nodes[i]) != 0.0
  {
    var init := nodes[..|nodes| - 1];
    var rows := VdRecords(init, totals, limit);
    if k < |rows| {
      VdRecordsSound(init, totals, limit, k);
      var i :| 0 <= i < |init| && init[i].id == rows[k].bus && Calculator.NodeVoltage(init[i]) != 0.0;
      assert nodes[i] == init[i];
    } else {
      assert VdRecords(nodes, totals, limit)[k].bus == nodes[|nodes| - 1].id;
    }
  }

  /** The drop recorded for each (from, to) pair by the edge rows, a later row replacing an earlier one. */
  function VdMap(rows: seq<EdgeRow>): map<(string, string), real> {
    if rows == [] then map[]
    else VdMap(rows[..|rows| - 1])[(rows[|rows| - 1].fromId, rows[|rows| - 1].toId) := rows[|rows| - 1].vdPct]
  }

  // Edge checks

  /** One row of the edge checks. */
  datatype EdgeRow = EdgeRow(fromId: string, toId: string, sizeAwg: string, qtyPerPhase: int, lengthFt: real,
                             ampacityA: real, loadA: real, ampacityMarginA: real, vdPct: real, vdOk: bool,
                             egcAwg: string, minConduitIn: real)

  /** An edge the checks cover: it has a cable, and the cable has a size. */
  predicate Checked(e: Edge) {
    e.cable.Some? && e.cable.value.sizeAwg != ""
  }

  /** The covered edges, in edge order. */
  function CheckedEdges(edges: seq<Edge>): (r: seq<Edge>)
    ensures forall k :: 0 <= k < |r| ==> Checked(r[k])
    ensures |r| <= |edges|
  {
    if edges == [] then []
    else CheckedEdges(edges[..|edges| - 1]) + (if Checked(edges[|edges| - 1]) then [edges[|edges| - 1]] else [])
  }

  /** The voltage of the first node with id `id`, or zero when no node has it. */
  function TargetVoltage(nodes: seq<Node>, id: string): (r: real)
    ensures (forall i :: 0 <= i < |nodes| ==> nodes[i].id != id) ==> r == 0.0
    ensures forall i :: 0 <= i < |nodes| && nodes[i].id == id && (forall j :: 0 <= j < i ==> nodes[j].id != id) ==>
      r == Calculator.NodeVoltage(nodes[i])
  {
    if nodes == [] then 0.0
    else if nodes[0].id == id then Calculator.NodeVoltage(nodes[0])
    else
      var r := TargetVoltage(nodes[1..], id);
      assert forall i :: 1 <= i < |nodes| ==> nodes[1..][i - 1] == nodes[i];
      r
  }

  /** The cable's percent voltage drop at `load`: zero unless both its length and `voltage` are non-zero. */
  function CableDrop(c: Cable, load: real, voltage: real, pf: real): (r: Result<real, Error>)
    ensures OrZero(c.lengthFt) == 0.0 || voltage == 0.0 ==> r == Ok(0.0)
    ensures OrZero(c.lengthFt) != 0.0 && voltage != 0.0 ==>
      (r.Ok? <==> ConductorImpedance(c.conductor, c.sizeAwg, OrZero(c.lengthFt), c.installation, c.qtyPerPhase).Ok?)
    ensures r.Ok? && load >= 0.0 && OrZero(c.lengthFt) >= 0.0 ==> r.value >= 0.0
  {
    var length := OrZero(c.lengthFt);
    if length != 0.0 && voltage != 0.0 then
      VoltageDropPercent(load, voltage, c.conductor, c.sizeAwg, length, c.installation, c.qtyPerPhase, pf)
    else Ok(0.0)
  }

  /** The cable's adjusted ampacity in the 90 °C column with 90 °C terminals. */
  function Ampacity90(tables: Tables, c: Cable): Result<real, Error> {
    AmpacityAdjusted(tables, c.sizeAwg, c.conductor, c.insulation, 90, c.ambientC, c.rooftopHeightIn,
                     CurrentCarrying(c), Some(90), c.qtyPerPhase)
  }

  /** The rating the grounding conductor is sized for: the device's, else 125 % of the load. */
  function OcpdRating(e: Edge, load: real): (r: real)
    ensures e.ocpd.Some? ==> r == e.ocpd.value.ratingA
    ensures e.ocpd.None? ==> r == 1.25 * load
  {
    if e.ocpd.Some? then e.ocpd.value.ratingA else load * 1.25
  }

  /** How far the conductor was upsized: the 90 °C ampacity over the adjusted one, 1.0 when that is zero. */
  function UpsizingFactor(base: real, ampacity: real): (r: real)
    ensures ampacity == 0.0 ==> r == 1.0
    ensures ampacity != 0.0 ==> r * ampacity == base
  {
    if ampacity != 0.0 then base / ampacity else 1.0
  }

  /** The conductors in the raceway: three per set for the phases and one per set for the ground. */
  function ConduitFill(c: Cable, egc: string): seq<(string, int)> {
    [(c.sizeAwg, c.qtyPerPhase * 3), (egc, c.qtyPerPhase)]
  }

  /** What the check of an edge finds before it sizes the raceway. */
  datatype Sizing = Sizing(ampacity: real, vd: real, egc: string)

  /**
   * The adjusted ampacity, the voltage drop and the upsized grounding
   * conductor of a covered edge, or the first lookup error among them.
   */
  function EdgeSizing(tables: Tables, nodes: seq<Node>, currents: map<string, real>, config: map<string, real>, e: Edge)
    : (r: Result<Sizing, Error>)
    requires Checked(e)
  {
    var c := e.cable.value;
    var load := CurrentAtBus(currents, e.toId);
    match CableAmpacity(tables, c)
    case Err(err) => Err(err)
    case Ok(ampacity) =>
      match CableDrop(c, load, TargetVoltage(nodes, e.toId), Setting(config, "pf", 0.9))
      case Err(err) => Err(err)
      case Ok(vd) =>
        match Ampacity90(tables, c)
        case Err(err) => Err(err)
        case Ok(base) =>
          match UpsizedEquipmentGround(tables, OcpdRating(e, load), UpsizingFactor(base, ampacity), c.conductor)
          case Err(err) => Err(err)
          case Ok(egc) => Ok(Sizing(ampacity, vd, egc))
  }

  /** The sizing of an edge succeeds exactly when each of its four lookups does. */
  lemma EdgeSizingOk(tables: Tables, nodes: seq<Node>, currents: map<string, real>, config: map<string, real>, e: Edge)
    requires Checked(e)
    ensures var c := e.cable.value;
      var load := CurrentAtBus(currents, e.toId);
      EdgeSizing(tables, nodes, currents, config, e).Ok? <==>
        && CableAmpacity(tables, c).Ok?
        && CableDrop(c, load, TargetVoltage(nodes, e.toId), Setting(config, "pf", 0.9)).Ok?
        && Ampacity90(tables, c).Ok?
        && UpsizedEquipmentGround(tables, OcpdRating(e, load),
             UpsizingFactor(Ampacity90(tables, c).value, CableAmpacity(tables, c).value), c.conductor).Ok?
  {
  }

  /** Every lookup of the check of `e` succeeds, the raceway table included. */
  predicate EdgePasses(tables: Tables, nodes: seq<Node>, currents: map<string, real>, config: map<string, real>, e: Edge)
    requires Checked(e)
  {
    var s := EdgeSizing(tables, nodes, currents, config, e);
    s.Ok? && RequiredArea(tables, ConduitFill(e.cable.value, s.value.egc)).Ok? && |tables.emtArea| > 0
  }

  /**
   * `row` is the check of `e`: the cable's fields, the load current at its
   * target, the margin of the ampacity over it, the drop and whether it is
   * within the branch or feeder limit, the grounding conductor, and the
   * smallest raceway holding the conductors at 40 % fill (the largest when
   * none does).
   */
  predicate RowFor(tables: Tables, nodes: seq<Node>, currents: map<string, real>, config: map<string, real>, e: Edge,
                   row: EdgeRow)
    requires Checked(e)
  {
    var c := e.cable.value;
    var load := CurrentAtBus(currents, e.toId);
    var s := EdgeSizing(tables, nodes, currents, config, e);
    var limit := if c.isBranch then Setting(config, "vd_branch_pct", 3.0) else Setting(config, "vd_feeder_pct", 3.0);
    && s.Ok?
    && row.fromId == e.fromId && row.toId == e.toId && row.sizeAwg == c.sizeAwg && row.qtyPerPhase == c.qtyPerPhase
    && row.lengthFt == OrZero(c.lengthFt) && row.loadA == load
    && row.ampacityA == s.value.ampacity && row.ampacityMarginA == row.ampacityA - row.loadA
    && row.vdPct == s.value.vd && (row.vdOk <==> row.vdPct <= limit)
    && row.egcAwg == s.value.egc
    && RequiredArea(tables, ConduitFill(c, row.egcAwg)).Ok?
    && row.minConduitIn in tables.emtArea
    && (SmallestFit(tables, RequiredArea(tables, ConduitFill(c, row.egcAwg)).value, 0.4, row.minConduitIn) ||
        LargestOfNone(tables, RequiredArea(tables, ConduitFill(c, row.egcAwg)).value, 0.4, row.minConduitIn))
  }

  /** Every covered edge among `edges` passes. */
  predicate AllPass(tables: Tables, nodes: seq<Node>, currents: map<string, real>, config: map<string, real>,
                    edges: seq<Edge>) {
    forall j :: 0 <= j < |edges| && Checked(edges[j]) ==> EdgePasses(tables, nodes, currents, config, edges[j])
  }

  /** `rows` are the checks of the covered edges `checked`, one for one. */
  predicate RowsFor(tables: Tables, nodes: seq<Node>, currents: map<string, real>, config: map<string, real>,
                    checked: seq<Edge>, rows: seq<EdgeRow>) {
    |rows| == |checked| &&
    forall k :: 0 <= k < |rows| ==> Checked(checked[k]) && RowFor(tables, nodes, currents, config, checked[k], rows[k])
  }

  lemma AllPassAppend(tables: Tables, nodes: seq<Node>, currents: map<string, real>, config: map<string, real>,
                      edges: seq<Edge>, e: Edge)
    requires AllPass(tables, nodes, currents, config, edges)
    requires Checked(e) ==> EdgePasses(tables, nodes, currents, config, e)
    ensures AllPass(tables, nodes, currents, config, edges + [e])
  {
    forall j | 0 <= j < |edges + [e]| && Checked((edges + [e])[j])
      ensures EdgePasses(tables, nodes, currents, config, (edges + [e])[j])
    {
      if j < |edges| {
        assert (edges + [e])[j] == edges[j];
      }
    }
  }

  lemma FailingEdge(tables: Tables, nodes: seq<Node>, currents: map<string, real>, config: map<string, real>,
                    edges: seq<Edge>, i: nat)
    requires i < |edges| && Checked(edges[i]) && !EdgePasses(tables, nodes, currents, config, edges[i])
    ensures !AllPass(tables, nodes, currents, config, edges)
  {
  }

  lemma AllPassPrefix(tables: Tables, nodes: seq<Node>, currents: map<string, real>, config: map<string, real>,
                      edges: seq<Edge>, n: nat)
    requires n <= |edges| && !AllPass(tables, nodes, currents, config, edges[..n])
    ensures !AllPass(tables, nodes, currents, config, edges)
  {
    var j :| 0 <= j < n && Checked(edges[..n][j]) && !EdgePasses(tables, nodes, currents, config, edges[..n][j]);
    assert edges[..n][j] == edges[j];
  }

  lemma RowsForAppend(tables: Tables, nodes: seq<Node>, currents: map<string, real>, config: map<string, real>,
                      checked: seq<Edge>, rows: seq<EdgeRow>, e: Edge, row: EdgeRow)
    requires RowsFor(tables, nodes, currents, config, checked, rows)
    requires Checked(e) && RowFor(tables, nodes, currents, config, e, row)
    ensures RowsFor(tables, nodes, currents, config, checked + [e], rows + [row])
  {
    forall k | 0 <= k < |rows + [row]|
      ensures Checked((checked + [e])[k]) && RowFor(tables, nodes, currents, config, (checked + [e])[k], (rows + [row])[k])
    {
      if k < |rows| {
        assert (checked + [e])[k] == checked[k] && (rows + [row])[k] == rows[k];
      }
    }
  }

  /** The panel row of node `n`: its fields and its own schedule's totals. */
  function PanelRowFor(n: Node, schedule: map<string, PanelSchedule>): (r: PanelRow)
    ensures r.bus == n.id && r.vLL == Calculator.NodeVoltage(n) && r.ratingA == n.ratingA
    ensures r.kVADesign == DesignOf(schedule, n.id)
  {
    var entries := ScheduleOf(schedule, n.id).entries;
    var cont := ContinuousKva(entries);
    var noncont := NoncontinuousKva(entries);
    PanelRow(n.id, n.kind, Calculator.NodeVoltage(n), n.ratingA, cont, noncont, DesignKva(cont, noncont))
  }

  /** `rows` holds the panel row of each of `nodes`, in order. */
  /** `roll` has a key per node id and holds the design kVA of the first `i` ids. */
  ghost predicate DesignSoFar(roll: map<string, real>, ids: seq<string>, i: nat, schedule: map<string, PanelSchedule>)
    requires i <= |ids|
  {
    roll.Keys == (set id | id in ids) && forall id :: id in ids[..i] ==> roll[id] == DesignOf(schedule, id)
  }

  lemma DesignSoFarStep(prev: map<string, real>, ids: seq<string>, i: nat, schedule: map<string, PanelSchedule>,
                        roll: map<string, real>)
    requires i < |ids| && DesignSoFar(prev, ids, i, schedule)
    requires roll == prev[ids[i] := DesignOf(schedule, ids[i])]
    ensures DesignSoFar(roll, ids, i + 1, schedule)
  {
    assert ids[..i + 1] == ids[..i] + [ids[i]];
  }

  lemma DesignSoFarDone(roll: map<string, real>, nodes: seq<Node>, schedule: map<string, PanelSchedule>)
    requires DesignSoFar(roll, NodeIds(nodes), |NodeIds(nodes)|, schedule)
    ensures roll == DesignLoads(nodes, schedule)
  {
    var ids := NodeIds(nodes);
    assert ids[..|ids|] == ids;
    var want := DesignLoads(nodes, schedule);
    assert roll.Keys == want.Keys;
  }

  predicate RowsOfNodes(rows: seq<PanelRow>, nodes: seq<Node>, schedule: map<string, PanelSchedule>) {
    |rows| == |nodes| && forall k :: 0 <= k < |rows| ==> rows[k] == PanelRowFor(nodes[k], schedule)
  }

  lemma RowsOfNodesAppend(rows: seq<PanelRow>, nodes: seq<Node>, i: nat, schedule: map<string, PanelSchedule>, row: PanelRow)
    requires i < |nodes| && RowsOfNodes(rows, nodes[..i], schedule) && row == PanelRowFor(nodes[i], schedule)
    ensures RowsOfNodes(rows + [row], nodes[..i + 1], schedule)
  {
  }

  /** A node sits in `order[..k]` only before an emitted node it points to, so it is never a child of a later one. */
  lemma NotChildOfLater(es: seq<Kahn.Edge>, order: seq<string>, k: nat, q: string)
    requires Kahn.NoDup(order) && Kahn.ParentsFirst(es, order)
    requires k < |order| && q in order[..k]
    ensures (order[k], q) !in es
  {
    if (order[k], q) in es {
      assert false;
    }
  }

  class Calculator {
    const project: Project
    const config: map<string, real>
    var parents: map<string, seq<string>>
    var children: map<string, seq<string>>
    var schedule: map<string, PanelSchedule>
    var currents: map<string, real>

    /** The lists hold one entry per edge, in edge order, and the index holds each panel's last schedule. */
    ghost predicate Valid()
      reads this`parents, this`children, this`schedule
    {
      var es := Pairs(project.edges);
      && (forall n :: Kahn.Children(parents, n) == ParentIds(es, n))
      && (forall n :: Kahn.Children(children, n) == Kahn.Targets(es, n))
      && schedule == ScheduleMap(project.panelSchedules)
    }

    /** `__init__`: the parent and child lists, edge by edge, the schedule index and no currents yet. */
    constructor (project: Project, config: map<string, real>)
      ensures this.project == project && this.config == config
      ensures Valid() && currents == map[]
    {
      var ps, cs := BuildLists(Pairs(project.edges));
      this.project := project;
      this.config := config;
      parents := ps;
      children := cs;
      schedule := ScheduleMap(project.panelSchedules);
      currents := map[];
    }

    /** The loop of `__init__`: each edge appends its source to its target's parent list and its target to its source's child list. */
    static method BuildLists(es: seq<Kahn.Edge>) returns (ps: map<string, seq<string>>, cs: map<string, seq<string>>)
      ensures forall n :: Kahn.Children(ps, n) == ParentIds(es, n)
      ensures forall n :: Kahn.Children(cs, n) == Kahn.Targets(es, n)
    {
      ps := map[];
      cs := map[];
      var i := 0;
      while i < |es|
        invariant 0 <= i <= |es|
        invariant forall n :: Kahn.Children(ps, n) == ParentIds(es[..i], n)
        invariant forall n :: Kahn.Children(cs, n) == Kahn.Targets(es[..i], n)
      {
        var e := es[i];
        ghost var ps0, cs0 := ps, cs;
        ps := ps[e.1 := Kahn.Children(ps, e.1) + [e.0]];
        cs := cs[e.0 := Kahn.Children(cs, e.0) + [e.1]];
        forall n
          ensures Kahn.Children(ps, n) == ParentIds(es[..i + 1], n)
          ensures Kahn.Children(cs, n) == Kahn.Targets(es[..i + 1], n)
        {
          ListsStep(es, i, n);
          assert Kahn.Children(ps, n) == Kahn.Children(ps0, n) + (if e.1 == n then [e.0] else []);
          assert Kahn.Children(cs, n) == Kahn.Children(cs0, n) + (if e.0 == n then [e.1] else []);
        }
        i := i + 1;
      }
      assert es[..i] == es;
    }

    /**
     * `_topological_order`: Kahn's algorithm with a list queue over the
     * in-degree keys, each edge counted once in its target's in-degree and
     * once in its source's child list. Each key is emitted at most once and
     * after all its parents; a key left out keeps an unemitted parent. When
     * every edge starts at a key, all keys are emitted exactly when the graph
     * has no cycle.
     */
    method TopologicalOrder() returns (order: seq<string>)
      requires Valid()
      ensures KahnFacts.IsKahnOrder(OrderKeys(project), Pairs(project.edges), order)
      ensures SourcesKnown(project) ==>
        (|order| == |OrderKeys(project)| <==> KahnFacts.Acyclic(OrderKeys(project), Pairs(project.edges)))
      ensures order == Kahn.FifoOrder(OrderKeys(project), Pairs(project.edges))
    {
      var keys := OrderKeys(project);
      var es := Pairs(project.edges);
      order := Kahn.Order(keys, es);
      if SourcesKnown(project) {
        KahnFacts.EmitsAllIffAcyclic(keys, es, order);
      }
    }

    /** `_schedule_totals`: the schedule's continuous and non-continuous kVA. */
    static method ScheduleTotals(schedule: PanelSchedule) returns (cont: real, noncont: real)
      ensures cont == ContinuousKva(schedule.entries) && noncont == NoncontinuousKva(schedule.entries)
    {
      cont := 0.0;
      noncont := 0.0;
      var i := 0;
      while i < |schedule.entries|
        invariant 0 <= i <= |schedule.entries|
        invariant cont == ContinuousKva(schedule.entries[..i]) && noncont == NoncontinuousKva(schedule.entries[..i])
      {
        var entry := schedule.entries[i];
        assert schedule.entries[..i + 1][..i] == schedule.entries[..i];
        if entry.cont {
          cont := cont + entry.kVA;
        } else {
          noncont := noncont + entry.kVA;
        }
        i := i + 1;
      }
      assert schedule.entries[..i] == schedule.entries;
    }

    /** `_node_voltage`: the first non-zero of the line-to-line, secondary and primary voltages, else zero. */
    static function NodeVoltage(n: Node): (r: real)
      ensures Truthy(n.voltageLL) ==> r == n.voltageLL.value
      ensures !Truthy(n.voltageLL) && Truthy(n.secV) ==> r == n.secV.value
      ensures !Truthy(n.voltageLL) && !Truthy(n.secV) && Truthy(n.priV) ==> r == n.priV.value
      ensures r != 0.0 <==> Truthy(n.voltageLL) || Truthy(n.secV) || Truthy(n.priV)
    {
      FirstTruthy(n.voltageLL, n.secV, n.priV)
    }

    /** The first loop of `panel_summary`: each node's panel row, and the map of each node id to its own design kVA. */
    method DesignRows() returns (rows: seq<PanelRow>, roll: map<string, real>)
      requires Valid()
      ensures |rows| == |project.nodes|
      ensures forall i :: 0 <= i < |rows| ==> rows[i] == PanelRowFor(project.nodes[i], schedule)
      ensures roll == DesignLoads(project.nodes, schedule)
    {
      var nodes := project.nodes;
      var ids := NodeIds(nodes);
      roll := map id | id in ids :: 0.0;
      rows := [];
      var i := 0;
      while i < |nodes|
        invariant 0 <= i <= |nodes|
        invariant |rows| == i
        invariant RowsOfNodes(rows, nodes[..i], schedule)
        invariant DesignSoFar(roll, ids, i, schedule)
      {
        var n := nodes[i];
        var row := DesignRow(n);
        ghost var prev := roll;
        roll := roll[n.id := row.kVADesign];
        DesignSoFarStep(prev, ids, i, schedule, roll);
        RowsOfNodesAppend(rows, nodes, i, schedule, row);
        rows := rows + [row];
        i := i + 1;
      }
      assert nodes[..i] == nodes;
      DesignSoFarDone(roll, nodes, schedule);
    }

    /** The body of that loop for one node: its schedule (an empty one when it has none) and the schedule's totals. */
    method DesignRow(n: Node) returns (row: PanelRow)
      ensures row == PanelRowFor(n, schedule)
    {
      var cont, noncont := ScheduleTotals(ScheduleOf(schedule, n.id));
      var design := cont * 1.25 + noncont;
      row := PanelRow(n.id, n.kind, NodeVoltage(n), n.ratingA, cont, noncont, design);
    }

    /** One pass of the roll-up's inner loop: `load` is added to the total of each entry of `ps`. */
    static method Feed(ps: seq<string>, load: real, roll0: map<string, real>) returns (roll: map<string, real>)
      ensures roll0.Keys <= roll.Keys
      ensures forall u :: Get(roll, u) == Get(roll0, u) + Rep(Count(ps, u), load)
    {
      roll := roll0;
      var j := 0;
      while j < |ps|
        invariant 0 <= j <= |ps|
        invariant roll0.Keys <= roll.Keys
        invariant forall u :: Get(roll, u) == Get(roll0, u) + Rep(Count(ps[..j], u), load)
      {
        var x := ps[j];
        assert ps[..j + 1] == ps[..j] + [x];
        ghost var prev := roll;
        roll := roll[x := Get(roll, x) + load];
        FeedStep(ps[..j], x, load, roll0, prev, roll);
        j := j + 1;
      }
      assert ps[..j] == ps;
    }

    /**
     * The roll-up loop of `panel_summary`: visiting `order` from its end,
     * each node's total is added to its parents, once per edge. Over a Kahn
     * order every total ends as the node's own load plus the totals of its
     * emitted children, once per edge.
     */
    method RollUp(base: map<string, real>, order: seq<string>) returns (roll: map<string, real>)
      requires Valid()
      requires Kahn.NoDup(order) && Kahn.ParentsFirst(Pairs(project.edges), order)
      ensures base.Keys <= roll.Keys
      ensures RolledUp(base, Pairs(project.edges), order, roll)
    {
      var es := Pairs(project.edges);
      roll := base;
      var k := |order|;
      forall u {
        EdgeLoadNone(es, u, roll);
      }
      assert order[k..] == [];
      while k > 0
        invariant 0 <= k <= |order|
        invariant base.Keys <= roll.Keys
        invariant RolledUp(base, es, order[k..], roll)
      {
        k := k - 1;
        var c := order[k];
        ghost var done := order[k + 1..];
        assert order[k..] == [c] + done;
        var load := Get(roll, c);
        var prev := roll;
        roll := Feed(Kahn.Children(parents, c), load, prev);
        forall d | d in [c] + done
          ensures Get(roll, d) == Get(prev, d)
        {
          NotParentOfEarlier(es, order, k, d);
          ParentCount(es, c, d);
        }
        forall u
          ensures Get(roll, u) == Get(base, u) + EdgeLoad(es, u, [c] + done, roll)
        {
          ParentCount(es, c, u);
          EdgeLoadAdd(es, u, c, done, roll);
          EdgeLoadFrame(es, u, done, roll, prev);
        }
      }
    }

    /** The last loop of `panel_summary`: each row's total, design current and utilisation, recording its bus current. */
    method Summarize(rows: seq<PanelRow>, roll: map<string, real>) returns (summary: seq<SummaryRow>)
      requires forall i :: 0 <= i < |rows| ==> rows[i].bus in roll
      modifies this`currents
      ensures |summary| == |rows|
      ensures forall i :: 0 <= i < |rows| ==> summary[i] == SummaryFor(rows[i], roll[rows[i].bus])
      ensures currents == old(currents) + BusCurrents(summary)
    {
      summary := [];
      var i := 0;
      while i < |rows|
        invariant 0 <= i <= |rows|
        invariant |summary| == i
        invariant forall k :: 0 <= k < i ==> summary[k] == SummaryFor(rows[k], roll[rows[k].bus])
        invariant currents == old(currents) + BusCurrents(summary)
      {
        var row := rows[i];
        var total := roll[row.bus];
        var current := DesignCurrent(total, row.vLL);
        currents := currents[row.bus := current];
        var next := SummaryRow(row, total, current, Utilization(current, OrZero(row.ratingA)));
        assert (summary + [next])[..i] == summary;
        ghost var before := BusCurrents(summary);
        assert BusCurrents(summary + [next]) == before[row.bus := current];
        MergeUpdate(old(currents), before, row.bus, current);
        summary := summary + [next];
        i := i + 1;
      }
    }

    /**
     * The first three steps of `panel_summary`: one row per node with its own
     * schedule's totals, then the design loads rolled up along the Kahn order.
     * When every edge starts at a key and the graph has no cycle, each node's
     * total is its own design kVA plus the totals of its child list, a
     * duplicate edge counting again.
     */
    method PanelTotals() returns (rows: seq<PanelRow>, roll: map<string, real>, ghost order: seq<string>)
      requires Valid()
      ensures |rows| == |project.nodes|
      ensures forall i :: 0 <= i < |rows| ==> rows[i] == PanelRowFor(project.nodes[i], schedule)
      ensures forall i :: 0 <= i < |rows| ==> rows[i].bus in roll
      ensures KahnFacts.IsKahnOrder(OrderKeys(project), Pairs(project.edges), order)
      ensures RolledUp(DesignLoads(project.nodes, schedule), Pairs(project.edges), order, roll)
      ensures SourcesKnown(project) && KahnFacts.Acyclic(OrderKeys(project), Pairs(project.edges)) ==>
        forall u :: Get(roll, u) ==
          Get(DesignLoads(project.nodes, schedule), u) + KidsTotal(Kahn.Targets(Pairs(project.edges), u), roll)
    {
      var base;
      rows, base := DesignRows();
      var ord := TopologicalOrder();
      roll := RollUp(base, ord);
      order := ord;
      if SourcesKnown(project) && KahnFacts.Acyclic(OrderKeys(project), Pairs(project.edges)) {
        CompleteRollUp(project, order, base, roll);
      }
    }

    /**
     * `panel_summary`: the rows and totals of `PanelTotals`, each with its
     * design current and utilisation, recording each bus's current.
     */
    method PanelSummary() returns (summary: seq<SummaryRow>, ghost order: seq<string>, ghost roll: map<string, real>)
      requires Valid()
      modifies this`currents
      ensures Valid()
      ensures KahnFacts.IsKahnOrder(OrderKeys(project), Pairs(project.edges), order)
      ensures RolledUp(DesignLoads(project.nodes, schedule), Pairs(project.edges), order, roll)
      ensures |summary| == |project.nodes|
      ensures forall i :: 0 <= i < |summary| ==>
        summary[i] == SummaryFor(PanelRowFor(project.nodes[i], schedule), Get(roll, project.nodes[i].id))
      ensures currents == old(currents) + BusCurrents(summary)
    {
      var rows, rolled, ord := PanelTotals();
      summary := Summarize(rows, rolled);
      order, roll := ord, rolled;
    }

    /** The check of one covered edge, or the first lookup error it meets. */
    method CheckEdge(tables: Tables, e: Edge) returns (r: Result<EdgeRow, Error>)
      requires Checked(e)
      ensures r.Ok? <==> EdgePasses(tables, project.nodes, currents, config, e)
      ensures r.Ok? ==> RowFor(tables, project.nodes, currents, config, e, r.value)
    {
      var c := e.cable.value;
      var pf := Setting(config, "pf", 0.9);
      var limit := if c.isBranch then Setting(config, "vd_branch_pct", 3.0) else Setting(config, "vd_feeder_pct", 3.0);
      var load := CurrentAtBus(currents, e.toId);
      var ampacity := CableAmpacity(tables, c);
      if ampacity.Err? {
        return Err(ampacity.error);
      }
      var length := OrZero(c.lengthFt);
      var drop := CableDrop(c, load, TargetVoltage(project.nodes, e.toId), pf);
      if drop.Err? {
        return Err(drop.error);
      }
      var vd := drop.value;
      var rating := OcpdRating(e, load);
      var base := Ampacity90(tables, c);
      if base.Err? {
        return Err(base.error);
      }
      var egc := UpsizedEquipmentGround(tables, rating, UpsizingFactor(base.value, ampacity.value), c.conductor);
      if egc.Err? {
        return Err(egc.error);
      }
      assert EdgeSizing(tables, project.nodes, currents, config, e) == Ok(Sizing(ampacity.value, vd, egc.value));
      var conduit := MinimumRacewaySize(tables, ConduitFill(c, egc.value), 0.4);
      if conduit.Err? {
        return Err(conduit.error);
      }
      r := Ok(EdgeRow(e.fromId, e.toId, c.sizeAwg, c.qtyPerPhase, length, ampacity.value, load,
                      ampacity.value - load, vd, vd <= limit, egc.value, conduit.value));
    }

    /**
     * `edge_checks`: one row per covered edge, in edge order, or the first
     * lookup error. It succeeds exactly when every covered edge's lookups do.
     */
    method EdgeChecks(tables: Tables) returns (r: Result<seq<EdgeRow>, Error>)
      ensures r.Ok? <==> AllPass(tables, project.nodes, currents, config, project.edges)
      ensures r.Ok? ==> RowsFor(tables, project.nodes, currents, config, CheckedEdges(project.edges), r.value)
    {
      var edges := project.edges;
      var rows: seq<EdgeRow> := [];
      var i := 0;
      while i < |edges|
        invariant 0 <= i <= |edges|
        invariant AllPass(tables, project.nodes, currents, config, edges[..i])
        invariant RowsFor(tables, project.nodes, currents, config, CheckedEdges(edges[..i]), rows)
      {
        assert edges[..i + 1] == edges[..i] + [edges[i]];
        var next := CheckNext(tables, edges[..i], rows, edges[i]);
        if next.Err? {
          AllPassPrefix(tables, project.nodes, currents, config, edges, i + 1);
          return Err(next.error);
        }
        rows := next.value;
        i := i + 1;
      }
      assert edges[..i] == edges;
      r := Ok(rows);
    }

    /** One step of `edge_checks`: the check of `e` appended when it is covered, or its lookup error. */
    method CheckNext(tables: Tables, ghost done: seq<Edge>, rows: seq<EdgeRow>, e: Edge) returns (r: Result<seq<EdgeRow>, Error>)
      requires AllPass(tables, project.nodes, currents, config, done)
      requires RowsFor(tables, project.nodes, currents, config, CheckedEdges(done), rows)
      ensures r.Ok? <==> AllPass(tables, project.nodes, currents, config, done + [e])
      ensures r.Ok? ==> RowsFor(tables, project.nodes, currents, config, CheckedEdges(done + [e]), r.value)
    {
      assert (done + [e])[..|done|] == done;
      if !Checked(e) {
        AllPassAppend(tables, project.nodes, currents, config, done, e);
        return Ok(rows);
      }
      var row := CheckEdge(tables, e);
      if row.Err? {
        FailingEdge(tables, project.nodes, currents, config, done + [e], |done|);
        return Err(row.error);
      }
      AllPassAppend(tables, project.nodes, currents, config, done, e);
      RowsForAppend(tables, project.nodes, currents, config, CheckedEdges(done), rows, e, row.value);
      r := Ok(rows + [row.value]);
    }

    /** The loop filling `vd_map` from the edge rows. */
    static method BuildVdMap(rows: seq<EdgeRow>) returns (vdMap: map<(string, string), real>)
      ensures vdMap == VdMap(rows)
    {
      vdMap := map[];
      var i := 0;
      while i < |rows|
        invariant 0 <= i <= |rows|
        invariant vdMap == VdMap(rows[..i])
      {
        assert rows[..i + 1][..i] == rows[..i];
        vdMap := vdMap[(rows[i].fromId, rows[i].toId) := rows[i].vdPct];
        i := i + 1;
      }
      assert rows[..i] == rows;
    }

    /** One pass of the totals' inner loop: each child of `p` gets `p`'s total plus that edge's drop. */
    static method Advance(p: string, kids: seq<string>, vdMap: map<(string, string), real>, totals0: map<string, real>)
      returns (totals: map<string, real>)
      requires p in totals0 && p !in kids
      ensures forall c :: c in totals <==> c in totals0 || c in kids
      ensures forall c :: c in kids ==> totals[c] == totals0[p] + DropOf(vdMap, p, c)
      ensures forall c :: c !in kids ==> Get(totals, c) == Get(totals0, c)
    {
      totals := totals0;
      var j := 0;
      while j < |kids|
        invariant 0 <= j <= |kids|
        invariant p in totals && totals[p] == totals0[p]
        invariant forall c :: c in totals <==> c in totals0 || c in kids[..j]
        invariant forall c :: c in kids[..j] ==> totals[c] == totals0[p] + DropOf(vdMap, p, c)
        invariant forall c :: c !in kids[..j] ==> Get(totals, c) == Get(totals0, c)
      {
        var child := kids[j];
        assert kids[..j + 1] == kids[..j] + [child];
        totals := totals[child := totals[p] + DropOf(vdMap, p, child)];
        j := j + 1;
      }
      assert kids[..j] == kids;
    }

    /**
     * The forward loop of `total_voltage_drop`: visiting `order`, each child
     * gets its parent's total plus that edge's drop, so the last parent
     * visited decides. Looking up the parent's own total never fails.
     */
    method Accumulate(vdMap: map<(string, string), real>, order: seq<string>) returns (totals: map<string, real>)
      requires Valid()
      requires KahnFacts.IsKahnOrder(OrderKeys(project), Pairs(project.edges), order)
      ensures Accumulated(Pairs(project.edges), order, vdMap, totals)
    {
      var es := Pairs(project.edges);
      var ids := NodeIds(project.nodes);
      totals := map id | id in ids :: 0.0;
      var k := 0;
      while k < |order|
        invariant 0 <= k <= |order|
        invariant Reached(es, order[..k], ids, totals)
        invariant Accumulated(es, order[..k], vdMap, totals)
      {
        var p := order[k];
        KeyPresent(order, k);
        var kids := Kahn.Children(children, p);
        ChildCount(es, p, p);
        NotParentOfEarlier(es, order, k, p);
        ghost var t0 := totals;
        totals := Advance(p, kids, vdMap, totals);
        LastParentStep(es, order, k, ids, t0, totals);
        AccumulateStep(es, order, k, vdMap, t0, totals);
        k := k + 1;
      }
      assert order[..k] == order;
    }

    /** The node at `order[k]` is a node id or has a parent before it, so it has a total. */
    lemma KeyPresent(order: seq<string>, k: nat)
      requires KahnFacts.IsKahnOrder(OrderKeys(project), Pairs(project.edges), order)
      requires k < |order|
      ensures order[k] in NodeIds(project.nodes) || LastParent(order[..k], Pairs(project.edges), order[k]).Some?
    {
      var p := order[k];
      if p !in NodeIds(project.nodes) {
        var es := Pairs(project.edges);
        assert p in TargetIds(project.edges);
        var j :| 0 <= j < |project.edges| && TargetIds(project.edges)[j] == p;
        assert es[j].1 == p;
        assert es[j].0 in order[..k];
      }
    }

    /**
     * `total_voltage_drop`: the cumulative drop of every node with a
     * non-zero voltage, and whether it is within the total limit. Along the
     * Kahn order each child takes its last visited parent's total plus that
     * edge's drop (zero when no row gives one); a node with no visited parent
     * keeps zero.
     */
    method TotalVoltageDrop(rows: seq<EdgeRow>) returns (records: seq<VdTotalRow>, ghost order: seq<string>,
                                                        ghost totals: map<string, real>)
      requires Valid()
      ensures KahnFacts.IsKahnOrder(OrderKeys(project), Pairs(project.edges), order)
      ensures order == Kahn.FifoOrder(OrderKeys(project), Pairs(project.edges))
      ensures Accumulated(Pairs(project.edges), order, VdMap(rows), totals)
      ensures records == VdRecords(project.nodes, totals, Setting(config, "vd_total_pct", 5.0))
    {
      var vdMap := BuildVdMap(rows);
      var ord := TopologicalOrder();
      var t := Accumulate(vdMap, ord);
      records := TotalRows(project.nodes, t, Setting(config, "vd_total_pct", 5.0));
      order, totals := ord, t;
    }

    /** The record loop of `total_voltage_drop`: one row per node with a voltage, flagged against the limit. */
    static method TotalRows(nodes: seq<Node>, t: map<string, real>, limit: real) returns (records: seq<VdTotalRow>)
      ensures records == VdRecords(nodes, t, limit)
    {
      records := [];
      var i := 0;
      while i < |nodes|
        invariant 0 <= i <= |nodes|
        invariant records == VdRecords(nodes[..i], t, limit)
      {
        assert nodes[..i + 1][..i] == nodes[..i];
        var n := nodes[i];
        var voltage := NodeVoltage(n);
        if voltage != 0.0 {
          var total := Get(t, n.id);
          records := records + [VdTotalRow(n.id, total, total <= limit)];
        }
        i := i + 1;
      }
      assert nodes[..i] == nodes;
    }
  }
}
