/**
 * The eejx load calculation: every node's own load, the panel-schedule
 * entries credited to the child they name or else to the panel itself, the
 * roll-up of each load into the nodes that feed it, and the resulting
 * current and ampacity margin per node.
 */
module EejxLoadCalc {
  import opened Wrappers
  import opened Text
  import opened Numerics
  import opened EejxSchema
  import Kahn
  import KahnFacts

  /** The factor a continuous load is carried at. */
  const ContinuousFactor: real := 1.25

  /** The floor put under the power factor when kW is converted to kVA. */
  const PfFloor: real := 0.000001

  function Scaled(value: real, continuous: bool): real {
    if continuous then value * ContinuousFactor else value
  }

  /** `pf or 1.0`: a missing or zero power factor counts as unity. */
  function EffectivePf(pf: Option<real>): real {
    if Truthy(pf) then pf.value else 1.0
  }

  /** A node's own load in kVA (`_node_base_load_kva`). */
  function NodeBaseLoad(node: Node): real {
    match node.load
    case None => 0.0
    case Some(l) =>
      var base :=
        if l.kVA.Some? then l.kVA.value
        else if l.kW.Some? then l.kW.value / Max(EffectivePf(l.pf), PfFloor)
        else 0.0;
      Scaled(base, l.continuous == Some(true))
  }

  /** Given kVA, neither kW nor the power factor matters. */
  lemma KvaPreferred(node: Node, l: NodeLoad, kW: Option<real>, pf: Option<real>)
    requires node.load == Some(l) && l.kVA.Some?
    ensures NodeBaseLoad(node.(load := Some(l.(kW := kW, pf := pf)))) == NodeBaseLoad(node)
    ensures NodeBaseLoad(node.(load := Some(l.(continuous := None)))) == l.kVA.value
  {
  }

  /** Without kVA, kW over the power factor: the apparent power times pf gives back kW. */
  lemma KwOverPf(node: Node, l: NodeLoad, kW: real, pf: real)
    requires node.load == Some(l.(kVA := None, kW := Some(kW), pf := Some(pf), continuous := None))
    requires pf >= PfFloor
    ensures NodeBaseLoad(node) * pf == kW
  {
  }

  /** A missing and a zero power factor both count as 1.0. */
  lemma FalsyPfIsUnity(node: Node, l: NodeLoad)
    requires node.load == Some(l)
    ensures NodeBaseLoad(node.(load := Some(l.(pf := None))))
         == NodeBaseLoad(node.(load := Some(l.(pf := Some(0.0)))))
    ensures NodeBaseLoad(node.(load := Some(l.(pf := None))))
         == NodeBaseLoad(node.(load := Some(l.(pf := Some(1.0)))))
  {
  }

  /** A continuous load is carried at 125 % of the same load when not continuous. */
  lemma ContinuousScales(node: Node, l: NodeLoad)
    requires node.load == Some(l)
    ensures NodeBaseLoad(node.(load := Some(l.(continuous := Some(true)))))
         == ContinuousFactor * NodeBaseLoad(node.(load := Some(l.(continuous := None))))
    ensures NodeBaseLoad(node.(load := Some(l.(continuous := Some(false)))))
         == NodeBaseLoad(node.(load := Some(l.(continuous := None))))
  {
  }

  /** No load dictionary, no load; non-negative inputs give a non-negative load. */
  lemma BaseLoadSign(node: Node)
    ensures node.load.None? ==> NodeBaseLoad(node) == 0.0
    ensures (node.load.Some? && node.load.value.kVA.Some? ==> node.load.value.kVA.value >= 0.0)
         && (node.load.Some? && node.load.value.kW.Some? ==> node.load.value.kW.value >= 0.0)
        ==> NodeBaseLoad(node) >= 0.0
  {
  }

  /** A schedule entry's load in kVA (`_entry_kva`): kW is taken as kVA, with no power factor. */
  function EntryKva(e: PanelEntry): real {
    var value := if e.kVA.Some? then e.kVA.value else if e.kW.Some? then e.kW.value else 0.0;
    Scaled(value, e.continuous == Some(true))
  }

  /** An entry with kW only is worth that many kVA, whatever a node would do with a power factor. */
  lemma EntryKwAsKva(e: PanelEntry, kW: real)
    requires e.kVA.None? && e.kW == Some(kW) && e.continuous != Some(true)
    ensures EntryKva(e) == kW
    ensures EntryKva(e.(continuous := Some(true))) == ContinuousFactor * kW
  {
  }

  /** The number of phases: the length of the phase string, three when it is missing or empty. */
  function PhaseCount(node: Node): (r: nat)
    ensures !NonEmpty(node.phases) ==> r == 3
    ensures NonEmpty(node.phases) ==> r == |node.phases.value| && r > 0
  {
    if !NonEmpty(node.phases) then 3 else |node.phases.value|
  }

  /** The voltage a current is computed from: line-to-neutral for one phase, else line-to-line. */
  function VoltageForCurrent(node: Node): Option<real> {
    if Truthy(node.voltageLL) then
      if PhaseCount(node) == 1 then Some(node.voltageLL.value / Sqrt3) else Some(node.voltageLL.value)
    else None
  }

  /** The current a node draws at `kva`, if its voltage is known and positive. */
  function Current(node: Option<Node>, kva: real): Option<real> {
    match node
    case None => None
    case Some(n) =>
      match VoltageForCurrent(n)
      case None => None
      case Some(v) =>
        if v > 0.0 then Some(if PhaseCount(n) == 1 then kva * 1000.0 / v else kva * 1000.0 / (Sqrt3 * v))
        else None
  }

  /** One row of the result: connected kVA, no kW total, current and margin. */
  datatype LoadRow = LoadRow(kVATotal: real, kWTotal: Option<real>, iA: Option<real>, marginA: Option<real>)

  function Row(node: Option<Node>, kva: real): LoadRow {
    var current := Current(node, kva);
    var rating := if node.Some? then node.value.ratingA else None;
    LoadRow(kva, None, current,
            if current.Some? && rating.Some? then Some(rating.value - current.value) else None)
  }

  /**
   * The current formulas: known exactly when the voltage is positive;
   * kVA·1000·√3/V for one phase (kVA over the line-to-neutral voltage) and
   * kVA·1000/(√3·V) otherwise, three phases when none are given.
   */
  lemma CurrentFormulas(node: Node, kva: real)
    ensures Current(Some(node), kva).Some? <==> node.voltageLL.Some? && node.voltageLL.value > 0.0
    ensures node.voltageLL.Some? && node.voltageLL.value > 0.0 && PhaseCount(node) == 1 ==>
      Current(Some(node), kva) == Some(kva * 1000.0 * Sqrt3 / node.voltageLL.value)
    ensures node.voltageLL.Some? && node.voltageLL.value > 0.0 && PhaseCount(node) != 1 ==>
      Current(Some(node), kva) == Some(kva * 1000.0 / (Sqrt3 * node.voltageLL.value))
    ensures !NonEmpty(node.phases) && node.voltageLL.Some? && node.voltageLL.value > 0.0 ==>
      Current(Some(node), kva) == Some(kva * 1000.0 / (Sqrt3 * node.voltageLL.value))
  {
    if node.voltageLL.Some? && node.voltageLL.value > 0.0 && PhaseCount(node) == 1 {
      var v := node.voltageLL.value;
      assert v / Sqrt3 > 0.0;
      assert (kva * 1000.0) / (v / Sqrt3) == kva * 1000.0 * Sqrt3 / v;
    }
  }

  /** A margin exists exactly when current and rating do, and then margin plus current is the rating. */
  lemma MarginFormula(node: Option<Node>, kva: real)
    ensures Row(node, kva).kVATotal == kva && Row(node, kva).kWTotal.None?
    ensures Row(node, kva).marginA.Some? <==> Row(node, kva).iA.Some? && node.Some? && node.value.ratingA.Some?
    ensures Row(node, kva).marginA.Some? ==> Row(node, kva).marginA.value + Row(node, kva).iA.value == node.value.ratingA.value
  {
  }

  // ---------------------------------------------------------------------------
  // Panel schedules

  /** The child `child` is named by the entry: its upper-cased id is non-empty and in the upper-cased desc or ckt. */
  predicate Names(child: string, e: PanelEntry) {
    var token := Upper(child);
    token != [] && (Contains(Upper(e.desc), token) || Contains(Upper(e.ckt), token))
  }

  /** The position of the first child the entry names. */
  function MatchChild(children: seq<string>, e: PanelEntry): (r: Option<nat>)
    ensures r.Some? ==> r.value < |children| && Names(children[r.value], e)
    ensures r.Some? ==> forall j :: 0 <= j < r.value ==> !Names(children[j], e)
    ensures r.None? ==> forall j :: 0 <= j < |children| ==> !Names(children[j], e)
  {
    if children == [] then None
    else if Names(children[0], e) then Some(0)
    else match MatchChild(children[1..], e)
      case None => None
      case Some(j) => Some(j + 1)
  }

  /** Where one schedule entry's load goes. */
  datatype Credit = Credit(to: string, kVA: real, internal: bool)

  /** The first child the entry names gets the load; failing that, the panel's own internal load. */
  function Route(children: seq<string>, panel: string, e: PanelEntry, value: real): Credit {
    match MatchChild(children, e)
    case Some(j) => Credit(children[j], value, false)
    case None => Credit(panel, value, true)
  }

  /** The credits of one panel's entries, in order; an entry worth 0 kVA is skipped. */
  function EntryCredits(children: seq<string>, panel: string, entries: seq<PanelEntry>): seq<Credit> {
    if entries == [] then []
    else
      var e := entries[|entries| - 1];
      EntryCredits(children, panel, entries[..|entries| - 1])
        + (if EntryKva(e) == 0.0 then [] else [Route(children, panel, e, EntryKva(e))])
  }

  /** The credits of all schedules, in order; a panel's children are the targets of its edges. */
  function Credits(es: seq<Kahn.Edge>, schedules: seq<PanelSchedule>): seq<Credit> {
    if schedules == [] then []
    else
      var s := schedules[|schedules| - 1];
      Credits(es, schedules[..|schedules| - 1]) + EntryCredits(Kahn.Targets(es, s.panelId), s.panelId, s.entries)
  }

  /** The kVA credited to `k`, either as a named child or as a panel's internal load. */
  function Total(cs: seq<Credit>, k: string, internal: bool): real {
    if cs == [] then 0.0
    else
      var c := cs[|cs| - 1];
      Total(cs[..|cs| - 1], k, internal) + (if c.to == k && c.internal == internal then c.kVA else 0.0)
  }

  /** Some credit of the given kind goes to `k`. */
  predicate Credited(cs: seq<Credit>, k: string, internal: bool) {
    cs != [] && (Credited(cs[..|cs| - 1], k, internal) || (cs[|cs| - 1].to == k && cs[|cs| - 1].internal == internal))
  }

  lemma {:induction false} CreditedIn(cs: seq<Credit>, k: string, internal: bool)
    ensures Credited(cs, k, internal) <==> exists c :: c in cs && c.to == k && c.internal == internal
  {
    if cs != [] {
      CreditedIn(cs[..|cs| - 1], k, internal);
      assert forall c :: c in cs <==> c in cs[..|cs| - 1] || c == cs[|cs| - 1];
    }
  }

  function Get(m: map<string, real>, k: string): real {
    if k in m then m[k] else 0.0
  }

  lemma TotalAppend(cs: seq<Credit>, c: Credit, k: string, internal: bool)
    ensures Total(cs + [c], k, internal) == Total(cs, k, internal) + (if c.to == k && c.internal == internal then c.kVA else 0.0)
  {
    assert (cs + [c])[..|cs|] == cs;
  }

  lemma {:induction false} TotalUncredited(cs: seq<Credit>, k: string, internal: bool)
    requires !Credited(cs, k, internal)
    ensures Total(cs, k, internal) == 0.0
  {
    if cs != [] {
      TotalUncredited(cs[..|cs| - 1], k, internal);
    }
  }

  /** The sum of all credits. */
  function SumCredits(cs: seq<Credit>): real {
    if cs == [] then 0.0 else SumCredits(cs[..|cs| - 1]) + cs[|cs| - 1].kVA
  }

  /** The sum of all non-zero entry loads of the schedules. */
  function SumEntries(entries: seq<PanelEntry>): real {
    if entries == [] then 0.0 else SumEntries(entries[..|entries| - 1]) + EntryKva(entries[|entries| - 1])
  }

  function SumSchedules(schedules: seq<PanelSchedule>): real {
    if schedules == [] then 0.0
    else SumSchedules(schedules[..|schedules| - 1]) + SumEntries(schedules[|schedules| - 1].entries)
  }

  lemma {:induction false} SumCreditsConcat(a: seq<Credit>, b: seq<Credit>)
    ensures SumCredits(a + b) == SumCredits(a) + SumCredits(b)
    decreases |b|
  {
    if b == [] {
      assert a + b == a;
    } else {
      assert (a + b)[..|a + b| - 1] == a + b[..|b| - 1];
      SumCreditsConcat(a, b[..|b| - 1]);
    }
  }

  lemma {:induction false} EntryCreditsSum(children: seq<string>, panel: string, entries: seq<PanelEntry>)
    ensures SumCredits(EntryCredits(children, panel, entries)) == SumEntries(entries)
  {
    if entries != [] {
      var e := entries[|entries| - 1];
      EntryCreditsSum(children, panel, entries[..|entries| - 1]);
      SumCreditsConcat(EntryCredits(children, panel, entries[..|entries| - 1]),
                       if EntryKva(e) == 0.0 then [] else [Route(children, panel, e, EntryKva(e))]);
    }
  }

  /** Conservation: the credits add up to exactly the schedules' entry loads, each entry counted once. */
  lemma {:induction false} CreditsConserve(es: seq<Kahn.Edge>, schedules: seq<PanelSchedule>)
    ensures SumCredits(Credits(es, schedules)) == SumSchedules(schedules)
  {
    if schedules != [] {
      var s := schedules[|schedules| - 1];
      CreditsConserve(es, schedules[..|schedules| - 1]);
      EntryCreditsSum(Kahn.Targets(es, s.panelId), s.panelId, s.entries);
      SumCreditsConcat(Credits(es, schedules[..|schedules| - 1]),
                       EntryCredits(Kahn.Targets(es, s.panelId), s.panelId, s.entries));
    }
  }

  /** Each credit goes to a child of its panel that the entry names, or to the panel itself. */
  lemma {:induction false} CreditsRouted(children: seq<string>, panel: string, entries: seq<PanelEntry>, c: Credit)
    requires c in EntryCredits(children, panel, entries)
    ensures c.kVA != 0.0
    ensures !c.internal ==> c.to in children && exists e :: e in entries && Names(c.to, e)
    ensures c.internal ==> c.to == panel
  {
    var init := EntryCredits(children, panel, entries[..|entries| - 1]);
    var e := entries[|entries| - 1];
    if c in init {
      CreditsRouted(children, panel, entries[..|entries| - 1], c);
      assert forall x :: x in entries[..|entries| - 1] ==> x in entries;
    } else {
      assert c == Route(children, panel, e, EntryKva(e));
    }
  }

  /** The node loads keyed by id; a later node with the same id wins. */
  function OwnLoads(nodes: seq<Node>): map<string, real> {
    map id | id in Ids(nodes) :: NodeBaseLoad(Lookup(nodes, id).value)
  }

  /** The (from, to) pair of every edge, unknown endpoints included. */
  function Pairs(edges: seq<Edge>): (r: seq<Kahn.Edge>)
    ensures |r| == |edges|
    ensures forall i :: 0 <= i < |edges| ==> r[i] == (edges[i].src, edges[i].dst)
  {
    seq(|edges|, i requires 0 <= i < |edges| => (edges[i].src, edges[i].dst))
  }

  function CreditTargets(cs: seq<Credit>): set<string> {
    set c | c in cs :: c.to
  }

  /** `base_loads` once every schedule entry is allocated and the panels' internal loads merged in. */
  function Allocated(g: ProjectGraph): map<string, real> {
    var own := OwnLoads(g.nodes);
    var cs := Credits(Pairs(g.edges), g.schedules);
    map k | k in own.Keys + CreditTargets(cs) :: Get(own, k) + Total(cs, k, false) + Total(cs, k, true)
  }

  /**
   * `m` holds, for every key that `start` has or that some credit of the
   * given kind names, the start value plus the credits of that kind.
   */
  ghost predicate Ledger(start: map<string, real>, cs: seq<Credit>, internal: bool, m: map<string, real>) {
    && (forall k :: k in m <==> k in start || Credited(cs, k, internal))
    && (forall k :: k in m ==> m[k] == Get(start, k) + Total(cs, k, internal))
  }

  /** The state after some credits: named children in `loads`, panels' own entries in `internal`. */
  ghost predicate AllocInv(own: map<string, real>, cs: seq<Credit>, loads: map<string, real>, internal: map<string, real>) {
    Ledger(own, cs, false, loads) && Ledger(map[], cs, true, internal)
  }

  /** A credit of the ledger's kind is added to its target; one of the other kind changes nothing. */
  lemma LedgerStep(start: map<string, real>, cs: seq<Credit>, internal: bool, m: map<string, real>, c: Credit)
    requires Ledger(start, cs, internal, m)
    ensures c.internal == internal ==> Ledger(start, cs + [c], internal, m[c.to := Get(m, c.to) + c.kVA])
    ensures c.internal != internal ==> Ledger(start, cs + [c], internal, m)
  {
    assert (cs + [c])[..|cs|] == cs;
    forall k
      ensures Total(cs + [c], k, internal) == Total(cs, k, internal) + (if c.to == k && c.internal == internal then c.kVA else 0.0)
    {
      TotalAppend(cs, c, k, internal);
    }
    if c.to !in m {
      TotalUncredited(cs, c.to, internal);
    }
  }

  /** The children loop of one schedule entry: the first child the entry names. */
  method FindChild(children: seq<string>, e: PanelEntry) returns (hit: Option<nat>)
    ensures hit == MatchChild(children, e)
  {
    var desc := Upper(e.desc);
    var ckt := Upper(e.ckt);
    var j := 0;
    while j < |children|
      invariant 0 <= j <= |children|
      invariant forall m :: 0 <= m < j ==> !Names(children[m], e)
    {
      var token := Upper(children[j]);
      if token != [] && (Contains(desc, token) || Contains(ckt, token)) {
        return Some(j);
      }
      j := j + 1;
    }
    return None;
  }

  lemma EntryCreditsStep(cs: seq<Credit>, children: seq<string>, panel: string, entries: seq<PanelEntry>, i: nat)
    requires i < |entries|
    ensures cs + EntryCredits(children, panel, entries[..i + 1])
         == cs + EntryCredits(children, panel, entries[..i])
            + (if EntryKva(entries[i]) == 0.0 then [] else [Route(children, panel, entries[i], EntryKva(entries[i]))])
  {
    assert entries[..i + 1][..i] == entries[..i];
  }

  /** Adds one credit to the map of its kind. */
  method Book(own: map<string, real>, ghost done: seq<Credit>, c: Credit,
              loads0: map<string, real>, internal0: map<string, real>)
    returns (loads: map<string, real>, internal: map<string, real>)
    requires AllocInv(own, done, loads0, internal0)
    ensures AllocInv(own, done + [c], loads, internal)
  {
    LedgerStep(own, done, false, loads0, c);
    LedgerStep(map[], done, true, internal0, c);
    loads, internal := loads0, internal0;
    if c.internal {
      internal := internal[c.to := Get(internal, c.to) + c.kVA];
    } else {
      loads := loads[c.to := Get(loads, c.to) + c.kVA];
    }
  }

  /** The entries loop of one panel's schedule. */
  method DistributeEntries(own: map<string, real>, ghost cs: seq<Credit>, children: seq<string>, panel: string,
                           entries: seq<PanelEntry>, loads0: map<string, real>, internal0: map<string, real>)
    returns (loads: map<string, real>, internal: map<string, real>)
    requires AllocInv(own, cs, loads0, internal0)
    ensures AllocInv(own, cs + EntryCredits(children, panel, entries), loads, internal)
  {
    loads, internal := loads0, internal0;
    var i := 0;
    ghost var done := cs;
    assert cs + EntryCredits(children, panel, entries[..0]) == cs;
    while i < |entries|
      invariant 0 <= i <= |entries|
      invariant done == cs + EntryCredits(children, panel, entries[..i])
      invariant AllocInv(own, done, loads, internal)
    {
      loads, internal, done := BookEntry(own, cs, children, panel, entries, i, done, loads, internal);
      i := i + 1;
    }
    assert entries[..i] == entries;
  }

  /** One pass of that loop: a non-zero entry is credited to the first child it names, or else to its panel. */
  method BookEntry(own: map<string, real>, ghost cs: seq<Credit>, children: seq<string>, panel: string,
                   entries: seq<PanelEntry>, i: nat, ghost done: seq<Credit>, loads0: map<string, real>,
                   internal0: map<string, real>)
    returns (loads: map<string, real>, internal: map<string, real>, ghost done': seq<Credit>)
    requires i < |entries| && done == cs + EntryCredits(children, panel, entries[..i])
    requires AllocInv(own, done, loads0, internal0)
    ensures done' == cs + EntryCredits(children, panel, entries[..i + 1])
    ensures AllocInv(own, done', loads, internal)
  {
    loads, internal, done' := loads0, internal0, done;
    var e := entries[i];
    var value := EntryKva(e);
    EntryCreditsStep(cs, children, panel, entries, i);
    if value != 0.0 {
      var hit := FindChild(children, e);
      var c := match hit
        case Some(j) => Credit(children[j], value, false)
        case None => Credit(panel, value, true);
      assert c == Route(children, panel, e, value);
      loads, internal := Book(own, done, c, loads, internal);
      done' := done + [c];
    } else {
      assert done + [] == done;
    }
  }

  /**
   * The schedules loop: each non-zero entry goes to the first child it
   * names (`base_loads`) or else to its panel (`panel_internal_loads`).
   */
  method Distribute(own: map<string, real>, es: seq<Kahn.Edge>, adj: map<string, seq<string>>,
                    schedules: seq<PanelSchedule>) returns (loads: map<string, real>, internal: map<string, real>)
    requires forall n :: Kahn.Children(adj, n) == Kahn.Targets(es, n)
    ensures AllocInv(own, Credits(es, schedules), loads, internal)
  {
    loads := own;
    internal := map[];
    var s := 0;
    while s < |schedules|
      invariant 0 <= s <= |schedules|
      invariant AllocInv(own, Credits(es, schedules[..s]), loads, internal)
    {
      var sc := schedules[s];
      var children := Kahn.Children(adj, sc.panelId);
      loads, internal := DistributeEntries(own, Credits(es, schedules[..s]), children, sc.panelId, sc.entries,
                                           loads, internal);
      assert schedules[..s + 1][..s] == schedules[..s];
      s := s + 1;
    }
    assert schedules[..s] == schedules;
  }

  /** Adds each panel's internal load to its entry in `loads`. */
  method Merge(loads: map<string, real>, internal: map<string, real>) returns (merged: map<string, real>)
    ensures merged.Keys == loads.Keys + internal.Keys
    ensures forall k :: k in merged ==> merged[k] == Get(loads, k) + Get(internal, k)
  {
    var rest := internal.Keys;
    merged := loads;
    while rest != {}
      invariant rest <= internal.Keys
      invariant merged.Keys == loads.Keys + (internal.Keys - rest)
      invariant forall k :: k in merged ==> merged[k] == Get(loads, k) + (if k in rest then 0.0 else Get(internal, k))
      decreases rest
    {
      var p :| p in rest;
      merged := merged[p := Get(merged, p) + internal[p]];
      rest := rest - {p};
    }
  }

  /** Allocates every non-zero schedule entry, then merges the panels' internal loads. */
  method Allocate(own: map<string, real>, es: seq<Kahn.Edge>, adj: map<string, seq<string>>,
                  schedules: seq<PanelSchedule>) returns (loads: map<string, real>)
    requires forall n :: Kahn.Children(adj, n) == Kahn.Targets(es, n)
    ensures forall k :: k in loads <==> k in own || k in CreditTargets(Credits(es, schedules))
    ensures forall k :: k in loads ==>
      loads[k] == Get(own, k) + Total(Credits(es, schedules), k, false) + Total(Credits(es, schedules), k, true)
  {
    var named, internal := Distribute(own, es, adj, schedules);
    loads := Merge(named, internal);
    ghost var cs := Credits(es, schedules);
    forall k
      ensures k in loads <==> k in own || k in CreditTargets(cs)
    {
      CreditedIn(cs, k, false);
      CreditedIn(cs, k, true);
      if k in CreditTargets(cs) {
        var c :| c in cs && c.to == k;
        assert Credited(cs, k, c.internal);
      }
    }
    forall k | k in loads
      ensures loads[k] == Get(own, k) + Total(cs, k, false) + Total(cs, k, true)
    {
      if k !in named {
        TotalUncredited(cs, k, false);
      }
      if k !in internal {
        TotalUncredited(cs, k, true);
      }
    }
  }

  // ---------------------------------------------------------------------------
  // Topological order and roll-up

  /** `_topological_order`: Kahn's algorithm over the node ids and the edges between known nodes. */
  method TopologicalOrder(nodes: seq<Node>, edges: seq<Edge>) returns (order: seq<string>)
    ensures KahnFacts.IsKahnOrder(Kahn.Dedup(Ids(nodes)), KnownEdges(Ids(nodes), edges), order)
    ensures |order| == |Kahn.Dedup(Ids(nodes))|
        <==> KahnFacts.Acyclic(Kahn.Dedup(Ids(nodes)), KnownEdges(Ids(nodes), edges))
    ensures order == Kahn.FifoOrder(Kahn.Dedup(Ids(nodes)), KnownEdges(Ids(nodes), edges))
  {
    var ids := Ids(nodes);
    var keys := Kahn.Dedup(ids);
    var es := KnownEdges(ids, edges);
    order := Kahn.Order(keys, es);
    KahnFacts.EmitsAllIffAcyclic(keys, es, order);
  }

  /** No edge runs from a node of `order` to itself or to an earlier one. */
  predicate Downward(es: seq<Kahn.Edge>, order: seq<string>) {
    forall i, j :: 0 <= i <= j < |order| ==> order[i] !in Kahn.Targets(es, order[j])
  }

  /** Some node of `done` is a child of `p`. */
  predicate Fed(es: seq<Kahn.Edge>, p: string, done: seq<string>) {
    exists c :: c in done && c in Kahn.Targets(es, p)
  }

  /** The aggregated loads of those `kids` that are in `within`. */
  function KidSum(kids: seq<string>, within: seq<string>, agg: map<string, real>): real {
    if kids == [] then 0.0
    else
      var c := kids[|kids| - 1];
      KidSum(kids[..|kids| - 1], within, agg) + (if c in within then Get(agg, c) else 0.0)
  }

  lemma {:induction false} KidSumFrame(kids: seq<string>, within: seq<string>, w2: seq<string>,
                                       a: map<string, real>, b: map<string, real>)
    requires forall c :: c in within ==> Get(a, c) == Get(b, c)
    requires forall c :: c in within <==> c in w2
    ensures KidSum(kids, within, a) == KidSum(kids, w2, b)
  {
    if kids != [] {
      KidSumFrame(kids[..|kids| - 1], within, w2, a, b);
    }
  }

  lemma {:induction false} KidSumNone(kids: seq<string>, agg: map<string, real>)
    ensures KidSum(kids, [], agg) == 0.0
  {
    if kids != [] {
      KidSumNone(kids[..|kids| - 1], agg);
    }
  }

  lemma {:induction false} KidSumAdd(kids: seq<string>, within: seq<string>, n: string, agg: map<string, real>)
    requires Kahn.NoDup(kids) && n !in within
    ensures KidSum(kids, [n] + within, agg) == KidSum(kids, within, agg) + (if n in kids then Get(agg, n) else 0.0)
  {
    if kids != [] {
      var init := kids[..|kids| - 1];
      assert Kahn.NoDup(init);
      KidSumAdd(init, within, n, agg);
      assert kids[|kids| - 1] == n ==> n !in init;
      assert forall x :: x in kids <==> x in init || x == kids[|kids| - 1];
    }
  }

  /** The roll-up invariant: every node's total is its own load plus its distinct children's totals. */
  ghost predicate Fix(base: map<string, real>, es: seq<Kahn.Edge>, done: seq<string>, agg: map<string, real>) {
    forall p :: Get(agg, p) == Get(base, p) + KidSum(Kahn.Dedup(Kahn.Targets(es, p)), done, agg)
  }

  /** What the inner loop has added to `p` once it has seen `parents`. */
  function Fed1(es: seq<Kahn.Edge>, p: string, parents: seq<string>, n: string, agg0: map<string, real>): real {
    if p in parents && n in Kahn.Targets(es, p) then Get(agg0, n) else 0.0
  }

  /**
   * The inner loop as a function: the parents in turn, each that lists `n`
   * among its children gaining `n`'s current total (which a self-loop may
   * already have raised).
   */
  function FeedOf(es: seq<Kahn.Edge>, parents: seq<string>, n: string, agg: map<string, real>): map<string, real> {
    if parents == [] then agg
    else FeedStep(es, parents[|parents| - 1], n, FeedOf(es, parents[..|parents| - 1], n, agg))
  }

  /** One parent's turn in the inner loop: `p` gains `n`'s current total when it lists `n`. */
  function FeedStep(es: seq<Kahn.Edge>, p: string, n: string, agg: map<string, real>): map<string, real> {
    if n in Kahn.Targets(es, p) then agg[p := Get(agg, p) + Get(agg, n)] else agg
  }

  /** The roll-up as a function, for any order: `order` visited from its end, each node fed to its parents. */
  function RolledAlong(base: map<string, real>, es: seq<Kahn.Edge>, parents: seq<string>, order: seq<string>): map<string, real> {
    if order == [] then base
    else FeedOf(es, parents, order[0], RolledAlong(base, es, parents, order[1..]))
  }

  /** `FeedOf` over one more parent is one more update of what it gave before. */
  lemma FeedOfStep(es: seq<Kahn.Edge>, parents: seq<string>, j: nat, n: string, agg0: map<string, real>)
    requires j < |parents|
    ensures FeedOf(es, parents[..j + 1], n, agg0) == FeedStep(es, parents[j], n, FeedOf(es, parents[..j], n, agg0))
  {
    assert parents[..j + 1][..j] == parents[..j];
  }

  /** One pass of the roll-up's inner loop: `n`'s total is added to each parent listing it. */
  method Feed(es: seq<Kahn.Edge>, adj: map<string, seq<string>>, parents: seq<string>, n: string,
              agg0: map<string, real>) returns (agg: map<string, real>)
    requires forall p :: Kahn.Children(adj, p) == Kahn.Targets(es, p)
    requires Kahn.NoDup(parents)
    requires forall p :: p !in parents ==> Kahn.Targets(es, p) == []
    ensures agg == FeedOf(es, parents, n, agg0)
    ensures forall p :: p in agg <==> p in agg0 || n in Kahn.Targets(es, p)
    ensures n !in Kahn.Targets(es, n) ==>
              forall p :: Get(agg, p) == Get(agg0, p) + (if n in Kahn.Targets(es, p) then Get(agg0, n) else 0.0)
  {
    agg := agg0;
    var j := 0;
    while j < |parents|
      invariant 0 <= j <= |parents|
      invariant agg == FeedOf(es, parents[..j], n, agg0)
    {
      FeedOfStep(es, parents, j, n, agg0);
      agg := FeedParent(es, adj, parents[j], n, agg);
      j := j + 1;
    }
    assert parents[..j] == parents;
    FeedOfFacts(es, parents, n, agg0);
  }

  /** What a pass over all the parents gives, in the terms `Feed` promises. */
  lemma FeedOfFacts(es: seq<Kahn.Edge>, parents: seq<string>, n: string, agg0: map<string, real>)
    requires Kahn.NoDup(parents)
    requires forall p :: p !in parents ==> Kahn.Targets(es, p) == []
    ensures var agg := FeedOf(es, parents, n, agg0);
            forall p :: p in agg <==> p in agg0 || n in Kahn.Targets(es, p)
    ensures var agg := FeedOf(es, parents, n, agg0);
            n !in Kahn.Targets(es, n) ==>
              forall p :: Get(agg, p) == Get(agg0, p) + (if n in Kahn.Targets(es, p) then Get(agg0, n) else 0.0)
  {
    FeedOfKeys(es, parents, n, agg0);
    if n !in Kahn.Targets(es, n) {
      FeedOfAdds(es, parents, n, agg0);
    }
  }

  /** One parent's turn: when `p` lists `n` among its children, `p`'s total grows by `n`'s. */
  method FeedParent(es: seq<Kahn.Edge>, adj: map<string, seq<string>>, p: string, n: string,
                    agg0: map<string, real>) returns (agg: map<string, real>)
    requires Kahn.Children(adj, p) == Kahn.Targets(es, p)
    ensures agg == FeedStep(es, p, n, agg0)
  {
    agg := agg0;
    if n in Kahn.Children(adj, p) {
      agg := agg[p := Get(agg, p) + Get(agg, n)];
    }
  }

  /** A pass over `parents` gives a total to exactly the keys already there and the parents listing `n`. */
  lemma {:induction false} FeedOfKeys(es: seq<Kahn.Edge>, parents: seq<string>, n: string, agg0: map<string, real>)
    ensures forall p :: p in FeedOf(es, parents, n, agg0) <==> p in agg0 || (p in parents && n in Kahn.Targets(es, p))
  {
    if parents != [] {
      var init := parents[..|parents| - 1];
      FeedOfKeys(es, init, n, agg0);
      assert forall x :: x in parents <==> x in init || x == parents[|parents| - 1];
    }
  }

  /**
   * Without a self-loop on `n`, and with each parent listed once, a pass adds
   * `n`'s starting total exactly once to every parent listing it.
   */
  lemma {:induction false} FeedOfAdds(es: seq<Kahn.Edge>, parents: seq<string>, n: string, agg0: map<string, real>)
    requires Kahn.NoDup(parents)
    requires n !in Kahn.Targets(es, n)
    ensures forall p :: Get(FeedOf(es, parents, n, agg0), p) == Get(agg0, p) + Fed1(es, p, parents, n, agg0)
  {
    if parents != [] {
      var init := parents[..|parents| - 1];
      var q := parents[|parents| - 1];
      FeedOfAdds(es, init, n, agg0);
      assert q !in init;
      assert forall x :: x in parents <==> x in init || x == q;
    }
  }

  /**
   * The roll-up: visiting `order` from its end, each node's total is added
   * to every parent that lists it.
   */
  method RollUp(base: map<string, real>, es: seq<Kahn.Edge>, adj: map<string, seq<string>>,
                parents: seq<string>, order: seq<string>) returns (agg: map<string, real>)
    requires forall p :: Kahn.Children(adj, p) == Kahn.Targets(es, p)
    requires Kahn.NoDup(parents)
    requires forall p :: p !in parents ==> Kahn.Targets(es, p) == []
    ensures agg == RolledAlong(base, es, parents, order)
    ensures forall p :: p in agg <==> p in base || Fed(es, p, order)
    ensures Downward(es, order) && Kahn.NoDup(order) ==> Fix(base, es, order, agg)
  {
    agg := base;
    var idx := |order|;
    while idx > 0
      invariant 0 <= idx <= |order|
      invariant agg == RolledAlong(base, es, parents, order[idx..])
    {
      agg := Feed(es, adj, parents, order[idx - 1], agg);
      assert order[idx - 1..][1..] == order[idx..];
      idx := idx - 1;
    }
    assert order[0..] == order;
    RolledKeys(base, es, parents, order);
    if Downward(es, order) && Kahn.NoDup(order) {
      RolledFix(base, es, parents, order);
    }
  }

  /** After the roll-up, the nodes with a total are those with a load and those fed by a node of `order`. */
  lemma {:induction false} RolledKeys(base: map<string, real>, es: seq<Kahn.Edge>, parents: seq<string>, order: seq<string>)
    requires forall p :: p !in parents ==> Kahn.Targets(es, p) == []
    ensures forall p :: p in RolledAlong(base, es, parents, order) <==> p in base || Fed(es, p, order)
  {
    if order != [] {
      var rest := order[1..];
      RolledKeys(base, es, parents, rest);
      FeedOfKeys(es, parents, order[0], RolledAlong(base, es, parents, rest));
      assert forall x :: x in order <==> x == order[0] || x in rest;
    }
  }

  /**
   * When no edge of `order` runs upward and no node repeats, the roll-up
   * leaves every total equal to the node's own load plus its distinct
   * children's totals.
   */
  lemma {:induction false} RolledFix(base: map<string, real>, es: seq<Kahn.Edge>, parents: seq<string>, order: seq<string>)
    requires Kahn.NoDup(parents)
    requires forall p :: p !in parents ==> Kahn.Targets(es, p) == []
    requires Downward(es, order) && Kahn.NoDup(order)
    ensures Fix(base, es, order, RolledAlong(base, es, parents, order))
  {
    if order == [] {
      forall p {
        KidSumNone(Kahn.Dedup(Kahn.Targets(es, p)), base);
      }
    } else {
      var n := order[0];
      var done := order[1..];
      assert Downward(es, done);
      assert Kahn.NoDup(done);
      RolledFix(base, es, parents, done);
      var prev := RolledAlong(base, es, parents, done);
      var agg := RolledAlong(base, es, parents, order);
      assert order == [n] + done;
      assert n !in Kahn.Targets(es, n);
      FeedOfAdds(es, parents, n, prev);
      forall c | c in done
        ensures Get(agg, c) == Get(prev, c)
      {
        var m :| 0 <= m < |done| && done[m] == c;
        assert order[m + 1] == c;
      }
      forall p
        ensures Get(agg, p) == Get(base, p) + KidSum(Kahn.Dedup(Kahn.Targets(es, p)), order, agg)
      {
        var kids := Kahn.Dedup(Kahn.Targets(es, p));
        assert n !in done;
        KidSumAdd(kids, done, n, agg);
        KidSumFrame(kids, done, done, agg, prev);
      }
    }
  }

  /** The sources of the edges, each once, in order of first appearance: the keys of `adjacency`. */
  function Sources(es: seq<Kahn.Edge>): (r: seq<string>)
    ensures Kahn.NoDup(r)
    ensures forall p :: p !in r ==> Kahn.Targets(es, p) == []
  {
    var r := Kahn.Dedup(seq(|es|, i requires 0 <= i < |es| => es[i].0));
    assert forall p :: p !in r ==> Kahn.Targets(es, p) == [] by {
      forall p | Kahn.Targets(es, p) != []
        ensures p in r
      {
        var m := Kahn.Targets(es, p)[0];
        Kahn.TargetsIn(es, p, m);
        var j :| 0 <= j < |es| && es[j] == (p, m);
        assert seq(|es|, i requires 0 <= i < |es| => es[i].0)[j] == p;
      }
    }
    r
  }

  /** On a Kahn order of the known edges, no edge runs upward. */
  lemma KahnOrderDownward(ids: seq<string>, edges: seq<Edge>, order: seq<string>)
    requires KahnFacts.IsKahnOrder(Kahn.Dedup(ids), KnownEdges(ids, edges), order)
    ensures Downward(Pairs(edges), order)
  {
    var es := Pairs(edges);
    var known := KnownEdges(ids, edges);
    forall i, j | 0 <= i <= j < |order|
      ensures order[i] !in Kahn.Targets(es, order[j])
    {
      if order[i] in Kahn.Targets(es, order[j]) {
        Kahn.TargetsIn(es, order[j], order[i]);
        var m :| 0 <= m < |es| && es[m] == (order[j], order[i]);
        assert edges[m] in edges;
        var k :| 0 <= k < |known| && known[k] == (order[j], order[i]);
        KahnFacts.PosUnique(order, order[i], i);
        KahnFacts.PosUnique(order, order[j], j);
        KahnFacts.ParentBefore(Kahn.Dedup(ids), known, order, k);
      }
    }
  }

  /** A node's results row for each key of `agg`. */
  method Rows(nodes: seq<Node>, agg: map<string, real>) returns (results: map<string, LoadRow>)
    ensures results.Keys == agg.Keys
    ensures forall p :: p in results ==> results[p] == Row(Lookup(nodes, p), agg[p])
    ensures Totals(results) == agg
  {
    results := map[];
    var rest := agg.Keys;
    while rest != {}
      invariant rest <= agg.Keys
      invariant results.Keys == agg.Keys - rest
      invariant forall p :: p in results ==> results[p] == Row(Lookup(nodes, p), agg[p])
      decreases rest
    {
      var p :| p in rest;
      results := results[p := Row(Lookup(nodes, p), agg[p])];
      rest := rest - {p};
    }
    SameEntries(Totals(results), agg);
  }

  function Totals(results: map<string, LoadRow>): map<string, real> {
    map p | p in results :: results[p].kVATotal
  }

  /**
   * `run_load_calc`. Every row carries the node's current and margin for its
   * total. A row exists for each node, each credited target and each parent
   * of a visited node. On an acyclic graph every parent of a node is visited
   * and every total is the node's allocated load plus the totals of its
   * distinct children.
   */
  method RunLoadCalc(g: ProjectGraph) returns (results: map<string, LoadRow>)
    ensures forall p :: p in results ==> results[p] == Row(Lookup(g.nodes, p), results[p].kVATotal)
    ensures forall p :: p in Allocated(g) ==> p in results
    ensures forall p :: p in results ==> p in Allocated(g) || Fed(Pairs(g.edges), p, Ids(g.nodes))
    ensures KahnFacts.Acyclic(Kahn.Dedup(Ids(g.nodes)), KnownEdges(Ids(g.nodes), g.edges)) ==>
      forall p :: Fed(Pairs(g.edges), p, Ids(g.nodes)) ==> p in results
    ensures KahnFacts.Acyclic(Kahn.Dedup(Ids(g.nodes)), KnownEdges(Ids(g.nodes), g.edges)) ==>
      Fix(Allocated(g), Pairs(g.edges), Ids(g.nodes), Totals(results))
    ensures Totals(results) == RolledAlong(Allocated(g), Pairs(g.edges), Sources(Pairs(g.edges)), AggregateOrder(g))
  {
    var es := Pairs(g.edges);
    var adj := Kahn.BuildAdjacency(es);
    var loads := Allocate(OwnLoads(g.nodes), es, adj, g.schedules);
    AllocatedIs(g, loads);
    var agg := Aggregate(g, es, adj, loads);
    results := Rows(g.nodes, agg);
  }

  lemma AllocatedIs(g: ProjectGraph, loads: map<string, real>)
    requires forall k :: k in loads <==> k in OwnLoads(g.nodes) || k in CreditTargets(Credits(Pairs(g.edges), g.schedules))
    requires forall k :: k in loads ==>
      loads[k] == Get(OwnLoads(g.nodes), k) + Total(Credits(Pairs(g.edges), g.schedules), k, false) + Total(Credits(Pairs(g.edges), g.schedules), k, true)
    ensures loads == Allocated(g)
  {
    var own := OwnLoads(g.nodes);
    var cs := Credits(Pairs(g.edges), g.schedules);
    var want := Allocated(g);
    assert forall k :: k in want <==> k in own || k in CreditTargets(cs);
    assert loads.Keys == want.Keys;
    SameEntries(loads, want);
  }

  /** Two maps with the same keys and the same value at each key are equal. */
  lemma SameEntries(a: map<string, real>, b: map<string, real>)
    requires a.Keys == b.Keys && forall k :: k in a ==> a[k] == b[k]
    ensures a == b
  {
  }

  /**
   * The order the roll-up walks: Kahn's order over the node ids, or the
   * node list itself when Kahn's order comes back empty.
   */
  function AggregateOrder(g: ProjectGraph): seq<string> {
    var kahn := Kahn.FifoOrder(Kahn.Dedup(Ids(g.nodes)), KnownEdges(Ids(g.nodes), g.edges));
    if kahn == [] then Ids(g.nodes) else kahn
  }

  /** The order (Kahn's, or the node list when that is empty) and the roll-up along it. */
  method Aggregate(g: ProjectGraph, es: seq<Kahn.Edge>, adj: map<string, seq<string>>, loads: map<string, real>)
    returns (agg: map<string, real>)
    requires es == Pairs(g.edges)
    requires forall n :: Kahn.Children(adj, n) == Kahn.Targets(es, n)
    ensures forall p :: p in loads ==> p in agg
    ensures forall p :: p in agg ==> p in loads || Fed(es, p, Ids(g.nodes))
    ensures KahnFacts.Acyclic(Kahn.Dedup(Ids(g.nodes)), KnownEdges(Ids(g.nodes), g.edges)) ==>
      (forall p :: Fed(es, p, Ids(g.nodes)) ==> p in agg) && Fix(loads, es, Ids(g.nodes), agg)
    ensures agg == RolledAlong(loads, es, Sources(es), AggregateOrder(g))
  {
    var order := TopologicalOrder(g.nodes, g.edges);
    ghost var ids := Ids(g.nodes);
    ghost var acyclic := KahnFacts.Acyclic(Kahn.Dedup(ids), KnownEdges(ids, g.edges));
    if acyclic {
      KahnOrderDownward(ids, g.edges, order);
      forall k | k in ids
        ensures k in order
      {
        KahnFacts.FullLength(order, Kahn.Dedup(ids), k);
      }
    }
    if order == [] {
      order := Ids(g.nodes);
    }
    assert order == AggregateOrder(g);
    assert forall x :: x in order ==> x in ids;
    agg := RollUp(loads, es, adj, Sources(es), order);
    forall p | Fed(es, p, order)
      ensures Fed(es, p, ids)
    {
      var c :| c in order && c in Kahn.Targets(es, p);
    }
    if acyclic {
      forall p | Fed(es, p, ids)
        ensures Fed(es, p, order)
      {
        var c :| c in ids && c in Kahn.Targets(es, p);
      }
      forall p
        ensures Get(agg, p) == Get(loads, p) + KidSum(Kahn.Dedup(Kahn.Targets(es, p)), ids, agg)
      {
        KidSumFrame(Kahn.Dedup(Kahn.Targets(es, p)), order, ids, agg, agg);
      }
    }
  }
}
