# Electrical network analysis toolkits, modelled in Dafny

The repository holds two toolkits that analyse an electrical distribution
network. The network is a directed graph: its nodes are services,
switchboards, panels and loads, and its edges are feeders (a cable and
optionally an overcurrent protective device, the OCPD). A small build
backend for packaging sits beside them.

- **eejx** takes a project graph through:
  - a rule validator that emits severity-tagged issues;
  - a load calculation that rolls panel-schedule loads up the tree;
  - a per-edge and worst-case-path voltage drop;
  - a short-circuit stub.
- **ee_mvp** pairs an NEC formula library with a calculator. The library
  covers ampacity correction, bundling, grounding-conductor sizing, raceway
  fill, resistance and reactance, and percent voltage drop. The calculator
  covers:
  - a Kahn topological order;
  - schedule totals;
  - the roll-up of design loads;
  - per-edge checks;
  - cumulative voltage drop;
  - feeder-tap rules;
  - a fault-current propagation over the graph.
- **The build backend** includes:
  - a dist-info naming rule;
  - an inline-array splitter for TOML;
  - a key/value reader;
  - renderers for the wheel METADATA file and the entry_points file.

## How the model is laid out

Each module has its own file:

| file | module | models |
|---|---|---|
| `common.dfy` | `Wrappers`, `Text`, `Numerics` | Shared helpers: Option/Result, the Python string operations used (strip, upper, replace, find) and real-number helpers. |
| `kahn.dfy` | `Kahn`, `KahnFacts` | The Kahn queue algorithm that three source files use, and what its output means. |
| `eejx_schema.dfy` | `EejxSchema` | The eejx graph records. |
| `eejx_validate.dfy` | `EejxValidate` | The five validators and `validate_project`. |
| `eejx_load_calc.dfy` | `EejxLoadCalc` | `run_load_calc`. |
| `eejx_voltage_drop.dfy` | `EejxVoltageDrop` | `run_voltage_drop`, including the memoised path recursion. |
| `eejx_short_circuit.dfy` | `EejxShortCircuit` | The short-circuit stub. |
| `mvp_models.dfy` | `MvpModels` | The ee_mvp records, and the CSV tables as one opaque value. |
| `mvp_nec.dfy` | `MvpNec` | The NEC formula library. |
| `mvp_vd.dfy` | `MvpVd` | Run impedance and percent voltage drop. |
| `mvp_taps.dfy` | `MvpTaps` | The 10-foot and 25-foot feeder-tap rules. |
| `mvp_scc.dfy` | `MvpScc` | Thevenin-impedance propagation over the graph. |
| `mvp_run.dfy` | `MvpRun` | `load_config` and the `_Calculator` class. |
| `build_backend.dfy` | `BuildBackend` | The build backend's string handling. |

**State and specifications.** Code that changes state step by step is a
method, with loops and invariants. The calculator is a class whose fields
are its dictionaries. Most methods are proved equal to a specification
function, and lemmas state what that function means; the others state
their result or new state outright.

**Numbers.** Python floats are Dafny `real`s. `math.sqrt(3)` is the
literal double 1.7320508075688772. Other square roots are a bisection
that is proved non-negative. A Python exception is a `Result` failure
carrying the error's name.

## Model

| member | source | states |
|---|---|---|
| EejxSchema.Lookup | eejx/validate/core.py:99-103 | `{node.id: node}.get(id)`: absent exactly when no node has the id; otherwise the last node of the list with that id, since no later node carries it. |
| EejxSchema.First | eejx/analysis/voltage_drop.py:72-85 | The `for` loops of `_voltage_for_node` and `_phase_count`: absent exactly when no node has the id; otherwise the first node of the list with that id, since no earlier node carries it. |
| EejxSchema.KnownEdges | eejx/validate/core.py:67-70 | The edges a topological pass counts: both endpoints are node ids, every such edge is kept, and nothing else is. |
| EejxValidate.RefIssuesExact | eejx/validate/core.py:45-63 | An issue is a dangling-reference issue iff it is the `TOPOLOGY_UNKNOWN_FROM` error at `edges[i].from` for an edge with an unknown source, or the `TOPOLOGY_UNKNOWN_TO` error at `edges[i].to` for an unknown target. |
| EejxValidate.RefIssuesAt | eejx/validate/core.py:45-63 | Edge `i` gets its unknown-from error iff its source is not a node id, and its unknown-to error iff its target is not. |
| EejxValidate.RefIssuesBelow | eejx/validate/core.py:45-63 | Every dangling-reference issue points at `edges[i].from` or `edges[i].to` for an index `i` inside the edge list. |
| EejxValidate.RefIssuesOnly | eejx/validate/core.py:45-63 | Every dangling-reference issue is the from-issue or the to-issue of some edge. |
| EejxValidate.RefIssuesShape | eejx/validate/core.py:45-63 | Dangling-reference issues are errors, coded by the endpoint they name. |
| EejxValidate.Topology | eejx/validate/core.py:41-91 | The topology validator: the dangling-reference issues in edge order, then one `TOPOLOGY_CYCLE` error iff Kahn's pass over the known edges leaves nodes unvisited. |
| EejxValidate.TwoNodeLoop | eejx/validate/core.py:65-90 | A→B, B→A gives exactly one issue, the cycle error. |
| EejxValidate.VoltagePhaseExact | eejx/validate/core.py:101-138 | Edge `i` gets a `VOLTAGE_MISMATCH` warning iff both ends exist, both voltages are non-zero and they are not close within 5 % or 1e-3. It gets a `PHASE_INCOMPATIBLE` error iff both ends exist, both phase strings are non-empty and some downstream letter is not upstream. |
| EejxValidate.NoIssueBeyond | eejx/validate/core.py:101-138 | No voltage/phase issue points past the edge list. |
| EejxValidate.VoltagePhaseCodes | eejx/validate/core.py:113-138 | The voltage/phase validator only emits `VOLTAGE_MISMATCH` and `PHASE_INCOMPATIBLE`. |
| EejxValidate.VoltagePhase | eejx/validate/core.py:97-139 | The validator's loop computes the voltage/phase issues of all edges in edge order. |
| EejxValidate.EdgeVoltagePhase | eejx/validate/core.py:102-138 | One edge: nothing when an end is missing, else the voltage warning then the phase error. |
| EejxValidate.ProtectionIssue | eejx/validate/core.py:156-180 | An unprotected feeder into an MLO panel is a `MLO_REQUIRES_OCPD` error; into a panel whose `mlo` is False or None, a `MISSING_OCPD` warning; both point at `edges[idx].ocpd`. |
| EejxValidate.Incoming | eejx/validate/core.py:149-151 | The indices of the edges into a node: exactly those whose `to` is that node. |
| EejxValidate.UnprotectedExact | eejx/validate/core.py:157-180 | For one panel, an issue is raised exactly for each incoming edge without an OCPD. |
| EejxValidate.PanelIssuesExact | eejx/validate/core.py:153-180 | An issue is raised iff it belongs to a `panel` node and an edge into it that carries no OCPD; other node types and protected edges are never flagged. |
| EejxValidate.IncomingMap | eejx/validate/core.py:149-151 | The `incoming_edges` dictionary built in one pass gives, for every id, the indices of its incoming edges in edge order. |
| EejxValidate.CheckFeeders | eejx/validate/core.py:157-180 | The loop over one panel's incoming edges appends one issue per edge without an OCPD. |
| EejxValidate.PanelProtection | eejx/validate/core.py:145-181 | The validator computes the panel issues, node by node in node order. |
| EejxValidate.CheckNode | eejx/validate/core.py:153-180 | One pass of the node loop: a panel appends the issues of its unprotected feeders, and any other node adds nothing. |
| EejxValidate.PanelIssuesStep | eejx/validate/core.py:153-180 | The issues of one more node are those of the nodes before it, then that node's feeder issues when it is a panel. |
| EejxValidate.NormalizedIsClean | eejx/validate/core.py:227-235 | A normalised size is upper-case with no surrounding white space. A size is refused iff it ends in "MM2" with neither a '#' prefix nor a '/'. |
| EejxValidate.EffectiveAmpacity | eejx/validate/core.py:248-258 | An effective ampacity exists only when the size normalises and the material has a table. |
| EejxValidate.AmpacityExact | eejx/validate/core.py:243-269 | Edge `i` gets an `AMPACITY_LT_OCPD` warning iff it has an OCPD rating and a cable whose size has a table entry, and the rating exceeds that ampacity times max(qty_per_phase, 1). |
| EejxValidate.AmpacityOnly | eejx/validate/core.py:259-269 | Every ampacity issue is a warning at `edges[i].cable.size_awg` for an edge of the list. |
| EejxValidate.AmpacityStep | eejx/validate/core.py:243-269 | One more edge adds exactly that edge's warning, if any, to the issues raised so far. |
| EejxValidate.AmpacityAgainst | eejx/validate/core.py:241-270 | The validator's loop computes the ampacity issues of all edges, in order. |
| EejxValidate.Ampacity | eejx/validate/core.py:184-224 | The validator runs against the Cu and Al tables of the source. |
| EejxValidate.Coverage | eejx/validate/core.py:276-304 | An error when short-circuit analysis is on and the service fault is missing. A warning when load analysis is on and no schedule lists an entry and no node carries a non-zero kVA or kW. |
| EejxValidate.ValidateProject | eejx/validate/core.py:307-322 | The report concatenates the topology, voltage/phase, panel-protection, ampacity and coverage issues in that order. |
| EejxValidate.CycleReported | eejx/validate/core.py:82-90 | The project report holds the cycle error iff the graph of known edges is not acyclic. |
| EejxValidate.OnlyTopologyCycles | eejx/validate/core.py:307-322 | No validator but the topology one reports a cycle. |
| Kahn.Dedup | eejx/validate/core.py:66 | The keys of a dictionary built from a list: no duplicates, the same members, no longer than the list. |
| Kahn.BuildAdjacency | eejx/validate/core.py:65-69 | `adjacency[n]` lists the targets of the edges from `n`, in edge order, for every `n`. |
| Kahn.BuildIndegree | eejx/validate/core.py:66-70 | `indegree` has exactly the node ids as keys, and each holds the number of counted edges into it (`InitialIndegree`). |
| Kahn.InitialQueue | eejx/validate/core.py:72 | The queue starts with exactly the zero-in-degree keys, each once, in key order (`ZeroKeys`). |
| Kahn.Release | eejx/validate/core.py:77-80 | Decrementing the children of the node just emitted keeps each in-degree equal to the number of edges from nodes not yet emitted, and queues exactly the nodes that reach zero. The resulting table and queue are `ReleaseF`'s: children taken in edge order, each appended at the back of the queue. |
| Kahn.Advance | eejx/validate/core.py:77-81 | One decrement keeps the live in-degree invariants and takes `ReleaseF` one child further. |
| Kahn.Decrement | eejx/validate/core.py:78-81 | One decrement: the next child's in-degree falls by one and it is queued on reaching zero, keeping every live in-degree equal to its unemitted parents plus the children still to go. The new table and queue are stated in full. |
| Kahn.Pop | eejx/validate/core.py:74-81 | One turn of the Kahn loop emits the head of the queue and keeps the loop's invariants: no key twice, parents first, and zero in-degree exactly for the emitted and queued keys. |
| Kahn.Step | eejx/validate/core.py:74-81 | One turn of the Kahn loop keeps its invariants and is exactly one turn of the FIFO run `Run`. |
| Kahn.Drain | eejx/validate/core.py:73-81 | The `while queue` loop, from the seeded queue, emits exactly the FIFO run `Run`. The emitted order never repeats a key, lists parents first, and leaves a key out only while it has a parent left out. |
| Kahn.Order | eejx/validate/core.py:65-81 | The Kahn pass never emits a node twice, only emits keys, emits every node after all its parents, and leaves a key out only while some edge into it comes from a node also left out. It needs no acyclicity to end. The result is exactly `FifoOrder`: the queue is seeded with the zero-in-degree keys in key order, popped from the front, and each released child joins the back, children taken in edge order. |
| Kahn.InCountEmit | eejx/validate/core.py:77-78 | Emitting `n` lowers the live in-degree of `k` by the number of `n → k` edges. |
| Kahn.InCountZero | eejx/validate/core.py:79 | A zero live in-degree means every parent has been emitted. |
| Kahn.InCountPositive | eejx/validate/core.py:79 | A positive live in-degree names an edge from a parent not yet emitted. |
| Kahn.DistinctWithin | eejx/validate/core.py:76 | A duplicate-free selection of the keys is no longer than the keys, so `visited` never exceeds the number of distinct node ids. |
| KahnFacts.ParentBefore | eejx/analysis/load_calc.py:42-60 | In the Kahn order a parent sits strictly before its child. |
| KahnFacts.RankedAllEmitted | eejx/validate/core.py:82 | When the edges can be ranked (no cycle), the Kahn pass emits every key. |
| KahnFacts.AllEmittedRanked | eejx/validate/core.py:82 | When the Kahn pass emits every key, its positions rank the edges. |
| KahnFacts.CycleLeftOut | eejx/analysis/load_calc.py:42-60 | No node on a cycle is ever emitted. |
| KahnFacts.EmitsAllIffAcyclic | eejx/validate/core.py:82-90 | The pass emits as many nodes as there are distinct ids iff the graph is acyclic, so `visited != len(node_ids)` is exactly a cycle test. |
| EejxLoadCalc.KvaPreferred | eejx/analysis/load_calc.py:13-27 | A node with kVA has that load whatever its kW and power factor, times 1.25 only when continuous. |
| EejxLoadCalc.KwOverPf | eejx/analysis/load_calc.py:21-24 | Without kVA the load is kW over the power factor: the load times pf gives back kW. |
| EejxLoadCalc.FalsyPfIsUnity | eejx/analysis/load_calc.py:18 | A missing and a zero power factor both count as 1.0. |
| EejxLoadCalc.ContinuousScales | eejx/analysis/load_calc.py:19-26 | A continuous load is 1.25 times the same load when not continuous; a false flag changes nothing. |
| EejxLoadCalc.BaseLoadSign | eejx/analysis/load_calc.py:14-15 | No load dictionary gives 0; non-negative kVA and kW give a non-negative load. |
| EejxLoadCalc.EntryKwAsKva | eejx/analysis/load_calc.py:30-39 | A schedule entry with only kW is worth that many kVA, with no power-factor division, and 1.25 times that when continuous. |
| EejxLoadCalc.PhaseCount | eejx/analysis/load_calc.py:63-66 | The phase count is the length of the phase string, or 3 when that is missing or empty. |
| EejxLoadCalc.CurrentFormulas | eejx/analysis/load_calc.py:69-74 | A current exists iff the voltage is present and positive. It is kVA·1000/(V/√3) for one phase and kVA·1000/(√3·V) otherwise, with three phases assumed when none are given. |
| EejxLoadCalc.MarginFormula | eejx/analysis/load_calc.py:131-140 | A row's margin exists iff its current and the node's rating do, and then margin + current = rating; kW_total is always None. |
| EejxLoadCalc.MatchChild | eejx/analysis/load_calc.py:95-102 | The first child, in list order, whose non-empty upper-cased id is in the upper-cased desc or ckt, and no earlier child matches; None when no child matches. |
| EejxLoadCalc.FindChild | eejx/analysis/load_calc.py:97-102 | The children loop stops at exactly that first matching child. |
| EejxLoadCalc.CreditsConserve | eejx/analysis/load_calc.py:87-104 | Allocation conserves load: the credits sum to the schedules' entry loads, each entry counted once. |
| EejxLoadCalc.CreditsRouted | eejx/analysis/load_calc.py:90-104 | Each credit is non-zero. It goes to a child of the panel that the entry names, or to the panel itself as internal load. |
| EejxLoadCalc.Book | eejx/analysis/load_calc.py:100-104 | Booking one credit keeps `base_loads` and `panel_internal_loads` equal to the start values plus the credits booked so far. |
| EejxLoadCalc.DistributeEntries | eejx/analysis/load_calc.py:90-104 | The entries loop of one schedule books exactly that schedule's credits. |
| EejxLoadCalc.BookEntry | eejx/analysis/load_calc.py:91-104 | One entry: a non-zero entry books exactly its credit, to the first child it names or else to its panel, and a zero entry books nothing. |
| EejxLoadCalc.Distribute | eejx/analysis/load_calc.py:87-104 | The schedules loop books exactly the credits of all schedules, the children being the targets of the panel's edges. |
| EejxLoadCalc.Merge | eejx/analysis/load_calc.py:106-107 | Merging the internal loads: keys of either map, each value the sum of the two. |
| EejxLoadCalc.Allocate | eejx/analysis/load_calc.py:84-107 | `base_loads` after allocation: a key per node or credited target, holding the node's own load plus every credit it received. |
| EejxLoadCalc.AllocatedIs | eejx/analysis/load_calc.py:84-107 | That map is the allocation `Allocated` names. |
| EejxLoadCalc.TopologicalOrder | eejx/analysis/load_calc.py:42-60 | `_topological_order` is a Kahn order over the known edges, and it holds every node iff the graph is acyclic. It is exactly the FIFO order `Kahn.FifoOrder`. |
| EejxLoadCalc.Feed | eejx/analysis/load_calc.py:115-117 | One visit of the inner loop is exactly `FeedOf` over the parents in `adjacency` order. The visited node's total reaches every parent listing it and no other key. Without a self-loop each such parent gains the node's starting total exactly once. |
| EejxLoadCalc.FeedParent | eejx/analysis/load_calc.py:116-117 | One parent's turn: it gains the node's current total iff its child list holds the node. |
| EejxLoadCalc.FeedOfStep | eejx/analysis/load_calc.py:115-117 | The pass over one more parent is that parent's turn applied to the pass so far. |
| EejxLoadCalc.FeedOfKeys | eejx/analysis/load_calc.py:115-117 | After a pass, a key has a total iff it had one before or is a parent listing the node. |
| EejxLoadCalc.FeedOfAdds | eejx/analysis/load_calc.py:115-117 | With each parent listed once and no self-loop, a pass adds the node's starting total once to each parent listing it and changes nothing else. |
| EejxLoadCalc.FeedOfFacts | eejx/analysis/load_calc.py:115-117 | Those two facts in `Feed`'s terms: the keys reached and, without a self-loop, the totals added. |
| EejxLoadCalc.RollUp | eejx/analysis/load_calc.py:113-117 | The reverse-order roll-up over any order is exactly `RolledAlong`, self-loops, repeats and cycles included. The nodes with totals are the loaded nodes and the parents of nodes in the order. With no upward edge and no repeated node, every total is the node's own load plus the totals of its distinct children; a duplicate edge counts once. |
| EejxLoadCalc.RolledKeys | eejx/analysis/load_calc.py:113-117 | For any order, the roll-up gives a total exactly to the loaded nodes and the parents of nodes in the order. |
| EejxLoadCalc.RolledFix | eejx/analysis/load_calc.py:113-117 | With no upward edge and no repeated node in the order, every total is the node's own load plus its distinct children's totals. |
| EejxLoadCalc.Sources | eejx/analysis/load_calc.py:80-82 | The keys of `adjacency`: each source once, and no other node has children. |
| EejxLoadCalc.KahnOrderDownward | eejx/analysis/load_calc.py:109-114 | On a Kahn order no edge runs upward, which the roll-up needs. |
| EejxLoadCalc.Rows | eejx/analysis/load_calc.py:119-140 | A results row for exactly the aggregated keys, each computed from the node and its total; the rows' totals are the aggregated map. |
| EejxLoadCalc.RunLoadCalc | eejx/analysis/load_calc.py:77-141 | Each row carries its node's current and margin for its total. The rows cover every allocated key and nothing but those and the parents of nodes. On an acyclic graph every total is the allocated load plus the distinct children's totals. On every graph, cyclic ones included, the totals are exactly the roll-up `RolledAlong` of the allocated loads along `AggregateOrder`: Kahn's order, or the node list when that order is empty. |
| EejxLoadCalc.Aggregate | eejx/analysis/load_calc.py:109-117 | The totals are exactly the roll-up along `AggregateOrder`, which is Kahn's FIFO order or, when that is empty, the node list. On an acyclic graph the roll-up satisfies the total equation for every node. |
| EejxVoltageDrop.NormalizeSizeAccepts | eejx/analysis/voltage_drop.py:56-62 | A size is accepted iff its cleaned form is '#'-prefixed, holds a '/' or is all ASCII digits. The accepted form is upper-case and stripped, and the validator's normalisation gives the same result. |
| EejxVoltageDrop.EdgeDropKnown | eejx/analysis/voltage_drop.py:100-118 | An edge has no drop iff it has no cable or no length, its size has no table entry (unnormalisable size, unknown material or missing size) or the downstream current is unknown. |
| EejxVoltageDrop.EdgeVDropValue | eejx/analysis/voltage_drop.py:119-134 | A known drop is the phase factor (2 for one phase, √3 otherwise) times the current times (R/max(qty,1)·L/1000·0.95 + 0.08·L/1000·sin θ). |
| EejxVoltageDrop.EntryPercent | eejx/analysis/voltage_drop.py:127-137 | Without a drop there is no percentage. With one, the percentage exists iff the nominal voltage is truthy, and then pct·nominal = drop·100. |
| EejxVoltageDrop.PercentOf | eejx/analysis/voltage_drop.py:136 | `drop / nominal * 100` times the nominal is 100 times the drop. |
| EejxVoltageDrop.DropNonNegative | eejx/analysis/voltage_drop.py:119-134 | Non-negative current, length and resistance give a non-negative drop. |
| EejxVoltageDrop.PerEdge | eejx/analysis/voltage_drop.py:97-137 | `per_edge` has exactly one entry per edge index, each that edge's result. |
| EejxVoltageDrop.FirstMaxIsFirstMax | eejx/analysis/voltage_drop.py:155-167 | The scan from (0, 0) that replaces only on a strictly larger drop ends at least 0 and at least every path's drop. The result is (0, 0) or one path, drop and percentage together, with every earlier path dropping strictly less. |
| EejxVoltageDrop.PathDropIsWorst | eejx/analysis/voltage_drop.py:148-168 | A node no edge enters gets 0/0. Otherwise its value is at least the path through every incoming edge and is 0/0 or the path through the first incoming edge of largest drop; it is never negative. |
| EejxVoltageDrop.PathDropRankFree | eejx/analysis/voltage_drop.py:148-168 | The accumulated drops do not depend on the ranking that witnesses acyclicity. |
| EejxVoltageDrop.ThroughIs | eejx/analysis/voltage_drop.py:158-164 | The path through an edge is the upstream accumulated value plus the edge's drop and percentage, None counting as 0. |
| EejxVoltageDrop.Accumulate | eejx/analysis/voltage_drop.py:148-169 | The memoised recursion returns the node's worst path drop, records it, and keeps every memo entry correct. |
| EejxVoltageDrop.Scan | eejx/analysis/voltage_drop.py:155-167 | The loop over incoming edges yields the first strictly largest path. |
| EejxVoltageDrop.Step | eejx/analysis/voltage_drop.py:157-167 | One turn of that loop keeps the best path so far. |
| EejxVoltageDrop.FollowEdge | eejx/analysis/voltage_drop.py:158-164 | Following one edge yields the total through it. |
| EejxVoltageDrop.PerPath | eejx/analysis/voltage_drop.py:171-174 | `per_path` has an entry for exactly the node ids, each its worst accumulated drop. |
| EejxVoltageDrop.RunVoltageDrop | eejx/analysis/voltage_drop.py:88-176 | On acyclic input, the per-edge results for every edge index and the per-path results for every node id. |
| EejxShortCircuit.RunShortCircuitStub | eejx/analysis/short_circuit.py:9-20 | No short-circuit context or no service fault gives an empty `per_node`. Otherwise exactly the node ids map to the service fault, tagged "stub". |
| EejxShortCircuit.StubDependsOnIdsAndFault | eejx/analysis/short_circuit.py:15-20 | Every row is tagged "stub", and the result depends on the node ids and the fault value only, never on the edges. |
| MvpModels.OrZero | ee_mvp/run.py:131 | Python's `x or 0.0` on an optional number: the value when it is truthy (present and non-zero), else 0. |
| MvpModels.FirstTruthy | ee_mvp/scc.py:30 | `a or b or c`: the first truthy value among the three, else 0. |
| MvpNec.NormalizeMaterial | ee_mvp/nec.py:96-102 | "CU" exactly when the stripped, upper-cased name starts with "CU"; "AL" exactly when it starts with "AL" and not "CU"; otherwise a `TableLookupError`. |
| MvpNec.NormalizeMaterialIdempotent | ee_mvp/nec.py:96-102 | A normalised material normalises to itself. |
| MvpNec.NormalizeInsulation | ee_mvp/nec.py:105-113 | The stripped, upper-cased name with its spaces removed, replaced by its alias target when it is one of the four aliases. |
| MvpNec.NormalizeInsulationIdempotent | ee_mvp/nec.py:105-113 | Normalising an insulation name twice gives the same as normalising it once. |
| MvpNec.TemperatureColumn | ee_mvp/nec.py:116-119 | Always 60, 75 or 90. No rating gives 75; 90 exactly when the rating is at least 90; 60 exactly when it is below 75. |
| MvpNec.TemperatureColumnMonotone | ee_mvp/nec.py:116-119 | A higher rated temperature never selects a lower column. |
| MvpNec.TerminalTemperatureLimit | ee_mvp/nec.py:168-171 | The terminal limit is the temperature column of the terminal rating (75 when there is none). |
| MvpNec.AmpacityBaseLookup | ee_mvp/nec.py:122-136 | An unknown material fails. Otherwise it is the size's entry in the (material, insulation, column) table when that table is present and not empty. For aluminium with no such table, the "XHHW-2" table of the same column is used. A missing table or size is a `TableLookupError`. |
| MvpNec.AmbientCorrectionFactor | ee_mvp/nec.py:139-155 | The factor lies in (0, 1]. |
| MvpNec.FirstFactorBounds | ee_mvp/nec.py:150-155 | The factor found by the first-fit scan lies between the curve's last factor and 1. |
| MvpNec.AmbientCorrectionMonotone | ee_mvp/nec.py:139-155 | For the same rating and rooftop height, a higher ambient temperature never gets a larger correction factor. |
| MvpNec.ConductorCorrectionFactor | ee_mvp/nec.py:158-165 | 1.0 up to 3 conductors, 0.8 up to 6, 0.7 up to 9, else 0.5. |
| MvpNec.BundlingMonotone | ee_mvp/nec.py:158-165 | More current-carrying conductors never get a larger factor, and the factor lies in (0, 1]. |
| MvpNec.AmpacityAdjusted | ee_mvp/nec.py:174-190 | It succeeds exactly when both the base lookup and the terminal-column lookup succeed. The result is at most the terminal ampacity times max(1, sets), and it is non-negative when the table entries are. |
| MvpNec.CapAndScale | ee_mvp/nec.py:189-190 | Derating, the cap and the sets multiplier: it succeeds iff both lookups do, is bounded by terminal × sets and keeps the sign. |
| MvpNec.Derated | ee_mvp/nec.py:189 | With both factors in (0, 1], a non-negative base is derated to a value between 0 and the base. |
| MvpNec.DeratedBounds | ee_mvp/nec.py:189 | A non-negative base times two factors in (0, 1] stays between 0 and the base. |
| MvpNec.TimesSets | ee_mvp/nec.py:189-190 | An ampacity already capped at the terminal value, times at least one set, is at most terminal × sets and is non-negative when the ampacity is. |
| MvpNec.ResistancePerKft | ee_mvp/nec.py:193-198 | Succeeds iff the material normalises and its resistance table has the size. The value is that table entry, which is positive; any failure is a `TableLookupError`. |
| MvpNec.ReactancePerKft | ee_mvp/nec.py:201-206 | Succeeds iff the stripped, upper-cased installation is EMT, PVC or RMC. The value is its positive table entry; any failure is a `TableLookupError`. |
| MvpNec.CopperResistanceFalls | ee_mvp/nec.py:59-74 | Along the copper table from #3 to 600 kcmil, each larger size has strictly less resistance. |
| MvpNec.ConductorAreaSqIn | ee_mvp/nec.py:209-215 | Succeeds iff the size has an outside diameter, and then the result is π·(od/2)². |
| MvpNec.EmtAreaSqIn | ee_mvp/nec.py:218-222 | Succeeds iff the trade size is in the EMT table, and then the result is its area. |
| MvpNec.RequiredArea | ee_mvp/nec.py:226-228 | The summed conductor area succeeds exactly when every conductor's size has a diameter; a failure is a `TableLookupError`. |
| MvpNec.SumConductorArea | ee_mvp/nec.py:226-228 | The summing loop yields exactly `RequiredArea` of the conductors. |
| MvpNec.AddArea | ee_mvp/nec.py:227-228 | One summing step succeeds iff the running total did and the size has a diameter; an earlier error is passed on. |
| MvpNec.RequiredAreaPrefixErr | ee_mvp/nec.py:227-228 | An unknown size among the first conductors fails the whole sum. |
| MvpNec.MinimumRacewaySize | ee_mvp/nec.py:225-232 | Fails iff a conductor size has no diameter or the EMT table is empty. Otherwise the result is the smallest trade size whose area times the fill fraction holds the conductors; when none does, it is the largest trade size. |
| MvpNec.PickTradeSize | ee_mvp/nec.py:229-232 | The scan over the ascending trade sizes fails only on an empty table (`max` of nothing). Otherwise it returns the smallest fitting size, or the largest size when none fits. |
| MvpNec.ScanSizes | ee_mvp/nec.py:229-232 | Over any strictly ascending list of exactly the trade sizes: fails iff the table is empty (a `ValueError`), else returns the first size that fits, which is the smallest fitting size, or, when none fits, the largest size. |
| MvpNec.FirstFitIsSmallest | ee_mvp/nec.py:229-231 | The first fitting size in ascending order fits, and no smaller size does. |
| MvpNec.NoFitIsLargest | ee_mvp/nec.py:232 | When no size fits, the last of the ascending sizes is the largest trade size. |
| MvpNec.Ascending | ee_mvp/nec.py:229 | `sorted(table)`: exactly the table's keys, strictly ascending. |
| MvpNec.FirstFit | ee_mvp/nec.py:239-241 | The index of the first row whose OCPD limit is at least the rating; absent exactly when no row from the start position qualifies. |
| MvpNec.GroundRow | ee_mvp/nec.py:239-242 | Absent exactly when the table is empty; otherwise a row of the table. |
| MvpNec.EquipmentGroundSizeRow | ee_mvp/nec.py:235-242 | An unknown material fails and an empty table is an `IndexError`. Otherwise the size comes from the first copper or aluminium row whose limit is at least the rating; when no row qualifies, it comes from the last row. |
| MvpNec.GroundRowMonotone | ee_mvp/nec.py:239-242 | A larger OCPD rating never selects an earlier row of the EGC table. |
| MvpNec.IndexIn | ee_mvp/nec.py:271 | `order.index(x)`: absent iff `x` is not in the list; otherwise the first position holding `x`. |
| MvpNec.Bump | ee_mvp/nec.py:274 | The step count is at most two. |
| MvpNec.UpsizedEquipmentGround | ee_mvp/nec.py:245-246 | Succeeds iff the base EGC lookup succeeds, and passes on its error otherwise. |
| MvpNec.UpsizedEquipmentGroundSteps | ee_mvp/nec.py:245-275 | A factor up to 1.05, or a base size off the ladder, keeps the base size. Otherwise the result is the size 1 step up the ladder for a factor below 1.35, and 2 steps up from 1.35, stopping at "600". |
| MvpNec.ClampPf | ee_mvp/nec.py:281 | The clamped power factor lies in [0, 1] and equals the input when that already does. |
| MvpNec.PercentVoltageDrop | ee_mvp/nec.py:278-283 | Zero when the line voltage is not positive. Non-negative for a positive voltage with non-negative current, resistance and reactance. |
| MvpNec.SinPhi | ee_mvp/nec.py:282 | sin φ is non-negative. |
| MvpNec.ImpedanceIncreasing | ee_mvp/nec.py:283 | For a positive power factor, R·pf + X·sin φ rises strictly with R. |
| MvpNec.NonNegativeDrop | ee_mvp/nec.py:283 | With non-negative current, resistance and reactance, the scaled drop is non-negative. |
| MvpNec.ScaledIncreasing | ee_mvp/nec.py:283 | For a positive current and voltage, the percent drop rises strictly with the impedance term. |
| MvpNec.PercentDropIncreasingInResistance | ee_mvp/nec.py:278-283 | For a positive current and voltage and a power factor in (0, 1], the percent voltage drop rises strictly with the resistance. |
| MvpVd.PerRun | ee_mvp/vd.py:18-21 | A per-1000-ft value over the run, split across max(1, qty) sets, is non-negative for non-negative inputs and zero for a zero length. |
| MvpVd.PerRunNonNegative | ee_mvp/vd.py:19-21 | Non-negative per-kft value and length, shared by at least one set, give a non-negative value. |
| MvpVd.ConductorImpedance | ee_mvp/vd.py:10-22 | Succeeds iff both the resistance and the reactance lookups do, and any failure is a `TableLookupError`. For a non-negative length both parts are non-negative; a zero length gives (0, 0). |
| MvpVd.PerRunAdditive | ee_mvp/vd.py:19-21 | The value of a run is the sum of the values of two runs making up its length. |
| MvpVd.ImpedanceLinearInLength | ee_mvp/vd.py:10-22 | The resistance and the reactance of a run of length l1 + l2 are the sums of those of runs of l1 and l2. |
| MvpVd.PerRunIncreasing | ee_mvp/vd.py:19-21 | Over a positive length, a strictly larger per-kft value gives a strictly larger run value. |
| MvpVd.MoreSetsLessImpedance | ee_mvp/vd.py:18-21 | More parallel sets never raise a run's resistance or reactance. |
| MvpVd.VoltageDropPercent | ee_mvp/vd.py:25-36 | Succeeds iff the impedance lookup does, and is then the percent drop on that impedance. It is zero when the voltage is not positive, and non-negative for a non-negative current and length. |
| MvpVd.VoltageDropFallsWithSize | ee_mvp/vd.py:25-36 | For a positive current, voltage and length and a power factor in (0, 1], each step up the copper sizes from #3 strictly lowers the percent drop. |
| MvpTaps.CurrentAtBus | ee_mvp/taps.py:13-14 | The bus's load current, or 0 when the bus has none. |
| MvpTaps.TapRowFor | ee_mvp/taps.py:23-52 | Succeeds iff the cable's adjusted ampacity can be looked up. The row then carries the edge's ends, length, ampacity and load. `passes_10ft` is length ≤ 10 ft, ampacity ≥ load and an OCPD at the tap's termination. `passes_25ft` is a non-zero source OCPD, length ≤ 25 ft and ampacity ≥ rating/3. `passes` is their disjunction. |
| MvpTaps.TapEdges | ee_mvp/taps.py:19-22 | The kept edges are all tap edges, and there are no more of them than edges. |
| MvpTaps.TapEdgesAppend | ee_mvp/taps.py:19-22 | Selecting tap edges distributes over concatenation, so edge order is kept. |
| MvpTaps.TapEdgesMembers | ee_mvp/taps.py:19-22 | An edge is selected exactly when it is an edge of the project whose cable is a tap. |
| MvpTaps.AddTapRow | ee_mvp/taps.py:19-52 | One loop step: an earlier error persists, a non-tap edge adds nothing, and a tap edge appends its row or fails with its lookup error. |
| MvpTaps.TapRowsStep | ee_mvp/taps.py:19-52 | The table for one more edge is the step applied to the table so far. |
| MvpTaps.TapRowsAreRowsOfTapEdges | ee_mvp/taps.py:17-53 | The table succeeds exactly when every tap edge's ampacity can be looked up. It then has one row per tap edge, in edge order, and each row is that edge's `TapRowFor`. |
| MvpTaps.AppendTapRow | ee_mvp/taps.py:41-52 | Appending a tap edge's row keeps the table equal to the rows of the tap edges seen so far. |
| MvpTaps.AllRowsOkPrefix | ee_mvp/taps.py:19-52 | When every row of a list of tap edges can be built, so can every row of its prefix and the row of its last edge. |
| MvpTaps.RowsOfAppend | ee_mvp/taps.py:41-52 | The rows of a list of tap edges, plus the row of one more tap edge, are the rows of the longer list. |
| MvpTaps.CheckFeederTaps | ee_mvp/taps.py:17-53 | The loop over the project's edges returns exactly `TapRows` of the edges. |
| MvpTaps.TapRowsErrPersists | ee_mvp/taps.py:23-33 | Once a lookup fails on a prefix of the edges, the whole table fails with that same error. |
| MvpScc.EdgeImpedance | ee_mvp/scc.py:17-24 | Zero without a cable, a length or a size. Otherwise it succeeds iff both table lookups do, and the value is non-negative in both parts for a non-negative length. |
| MvpScc.Share | ee_mvp/scc.py:20-23 | A non-negative per-kft value over a non-negative length, shared by max(1, qty) sets, is non-negative. |
| MvpScc.Seed | ee_mvp/scc.py:30-36 | A node is seeded iff its first truthy voltage (line-to-line, primary, secondary) is non-zero and it has a truthy fault current. The seed is V / (√3 · kA · 1000) with no reactance. |
| MvpScc.Seeds | ee_mvp/scc.py:27-37 | The map's keys are exactly the ids in the key order, and the key order has no repeats. |
| MvpScc.SeedsStep | ee_mvp/scc.py:29-36 | One more node overwrites its id with its seed, if it has one, and otherwise leaves the map alone. |
| MvpScc.SeededIdStep | ee_mvp/scc.py:29-36 | An id is seeded by a list of nodes iff it is seeded before the last node, or the last node has that id and a seed. |
| MvpScc.SeedsAreSeededNodes | ee_mvp/scc.py:27-37 | An id is in the seed map exactly when some node with that id has both a voltage and a fault current. |
| MvpScc.SeedsLastWins | ee_mvp/scc.py:36 | The value seeded for an id is the seed of the last node with that id that has one. |
| MvpScc.InitialImpedance | ee_mvp/scc.py:27-37 | The loop over the nodes builds exactly `Seeds`: the map and its insertion order. |
| MvpScc.ChildEdges | ee_mvp/scc.py:44-45 | Every listed child edge is an edge of the project that leaves the parent. |
| MvpScc.BuildChildren | ee_mvp/scc.py:43-45 | The built children map lists, for every bus, exactly the edges leaving it, in edge order; a bus with no entry has none. |
| MvpScc.Visit | ee_mvp/scc.py:53-59 | An already traversed (from, to) pair leaves the state alone. Otherwise the step succeeds iff the edge's impedance can be computed. It then marks the pair, sets the child's impedance to the parent's plus the edge's, and enqueues the child. |
| MvpScc.ScanChildren | ee_mvp/scc.py:53-59 | Scanning a parent's child edges only adds traversed pairs, and enqueues exactly one bus per newly traversed pair. |
| MvpScc.ScanChildrenSeen | ee_mvp/scc.py:54-57 | The scan marks only pairs of the scanned edges. |
| MvpScc.Pop | ee_mvp/scc.py:49-59 | One turn of the queue loop fails only with a `TableLookupError` from an edge impedance. |
| MvpScc.PopProgress | ee_mvp/scc.py:48-59 | Each turn of the queue loop keeps the traversed pairs among the edges' pairs. It either traverses a new pair or shortens the queue, so the loop ends. |
| MvpScc.BfsRun | ee_mvp/scc.py:46-59 | The breadth-first pass terminates, and its only failure is a `TableLookupError` from an edge impedance. |
| MvpScc.ScanStep | ee_mvp/scc.py:53-59 | The scan of one more child edge is a visit after the scan so far, unless the scan has already failed. |
| MvpScc.ScanErrPersists | ee_mvp/scc.py:58 | A lookup failure on a prefix of a parent's child edges fails the whole scan. |
| MvpScc.Propagate | ee_mvp/scc.py:46-59 | The queue loop yields exactly `BfsRun` from the seeds in their insertion order. It makes at most as many pushes as seeds plus distinct (from, to) pairs. |
| MvpScc.ScanKids | ee_mvp/scc.py:53-59 | The inner loop over one parent's child edges yields exactly `ScanChildren`. |
| MvpScc.RowFor | ee_mvp/scc.py:61-69 | A node has a row iff it has a non-zero impedance and a truthy voltage (line-to-line, secondary, primary). The row is for that bus, its Thevenin impedance is \|z\| > 0, and its fault current in kA is V / (√3·\|z\|) / 1000, for every bus with a row, not only seeded ones. |
| MvpScc.FaultRowOhmsLaw | ee_mvp/scc.py:68-69 | On any row `RowFor` returns, the fault current times 1000 times √3·\|z\| gives back the bus voltage. |
| MvpScc.Rows | ee_mvp/scc.py:60-69 | There are no more rows than nodes. |
| MvpScc.RowsContain | ee_mvp/scc.py:61-69 | Every node that has a row contributes it to the table. |
| MvpScc.FaultRows | ee_mvp/scc.py:60-69 | The loop over the nodes yields exactly `Rows`. |
| MvpScc.AvailableFaultSpec | ee_mvp/scc.py:40-70 | The whole table fails only with a `TableLookupError`. |
| MvpScc.AvailableFault | ee_mvp/scc.py:40-70 | `available_fault` computes exactly the table of `AvailableFaultSpec`: the seeds, then the pass, then the rows. |
| MvpScc.ScanKeeps | ee_mvp/scc.py:58 | Scanning edges none of which ends at a bus leaves that bus's impedance alone. |
| MvpScc.BfsKeepsUnreached | ee_mvp/scc.py:46-59 | The pass never changes the impedance of a bus that no edge ends at. |
| MvpScc.FaultOfSeed | ee_mvp/scc.py:34-35 | Round trip: the fault computed back from a seeded source impedance is the seeding fault current. |
| MvpScc.RowOfSeed | ee_mvp/scc.py:61-69 | A bus whose impedance is still its own seed reports exactly its input fault current. |
| MvpScc.SeedReportsInputFault | ee_mvp/scc.py:27-70 | A bus reports exactly its input fault current when it has a positive line-to-line voltage and a positive utility fault, no other node shares its id, and no edge ends at it. |
| MvpRun.LoadConfig | ee_mvp/run.py:25-37 | Every default key is present. Every given setting is present with its given value, and any other key keeps its default. |
| MvpRun.LoadedSettings | ee_mvp/run.py:33-37 | Reading a default key from a loaded configuration gives the given setting when there is one, and the default otherwise. |
| MvpRun.Count | ee_mvp/run.py:64-68 | An element is counted zero times exactly when it is absent. |
| MvpRun.PairCount | ee_mvp/run.py:66-68 | A (from, to) pair is counted zero times exactly when no edge has it. |
| MvpRun.CountAppend | ee_mvp/run.py:67-68 | Appending an entry adds one to its count and leaves every other count alone. |
| MvpRun.ParentCount | ee_mvp/run.py:66-67 | `parents[n]` lists a source once for each edge from it to `n`. |
| MvpRun.ListsStep | ee_mvp/run.py:66-68 | One more edge appends its source to its target's parent list and its target to its source's child list, and changes no other list. |
| MvpRun.ChildCount | ee_mvp/run.py:66-68 | `children[n]` lists a target once for each edge from `n` to it. |
| MvpRun.LastSchedule | ee_mvp/run.py:69 | The position of the last schedule for a panel; absent exactly when the panel has no schedule. |
| MvpRun.ScheduleMap | ee_mvp/run.py:69 | A panel is indexed iff it has a schedule, and its entry is its last schedule. |
| MvpRun.TargetIds | ee_mvp/run.py:74-75 | The edge targets, one per edge, in edge order. |
| MvpRun.OrderKeys | ee_mvp/run.py:73-76 | The in-degree keys have no repeats. They hold every node id and every edge target, and nothing else. |
| MvpRun.KvaPartition | ee_mvp/run.py:87-96 | The continuous and non-continuous totals add up to the schedule's total kVA. |
| MvpRun.KvaNonNegative | ee_mvp/run.py:87-96 | Both totals are non-negative when every entry is. |
| MvpRun.DesignBounds | ee_mvp/run.py:107-108 | For non-negative entries, the design kVA (125 % continuous plus non-continuous) lies between the schedule's kVA and 125 % of it. |
| MvpRun.DesignLoads | ee_mvp/run.py:103-109 | The starting map has exactly the node ids, each with its own schedule's design kVA (the last node of an id wins, as all share it). |
| MvpRun.FeedStep | ee_mvp/run.py:123-124 | Adding the load to one more parent entry counts that parent once more. |
| MvpRun.EdgeLoadNone | ee_mvp/run.py:121-124 | Before any node is visited, no child load has been added. |
| MvpRun.EdgeLoadFrame | ee_mvp/run.py:121-124 | A parent's collected child load depends only on the totals of the visited children. |
| MvpRun.EdgeLoadAdd | ee_mvp/run.py:121-124 | Visiting one more child adds its total to a parent once per edge between them. |
| MvpRun.EdgeLoadAll | ee_mvp/run.py:121-124 | Once every edge target is visited, a parent's collected load is the sum over its whole child list. |
| MvpRun.NotParentOfEarlier | ee_mvp/run.py:72-85 | In the Kahn order, no node is a parent of an earlier node or of itself. |
| MvpRun.RolledUpAll | ee_mvp/run.py:121-124 | When every edge target has been emitted, the roll-up equation holds for every node. |
| MvpRun.CompleteRollUp | ee_mvp/run.py:121-124 | When the order emits every key, each node's total is its own load plus the totals of its child list, once per edge. |
| MvpRun.DesignCurrent | ee_mvp/run.py:128-129 | Zero at zero volts. Otherwise current × √3 × V = kVA × 1000, and the current is non-negative for a non-negative load and a positive voltage. |
| MvpRun.Utilization | ee_mvp/run.py:131-132 | Zero without a rating. Otherwise utilisation × rating = current × 100. |
| MvpRun.SummaryFor | ee_mvp/run.py:126-133 | The summary row keeps the panel row and the rolled-up total, with that total's design current and the utilisation of the rating (0 when there is none). |
| MvpRun.BusCurrents | ee_mvp/run.py:130 | A bus gets a recorded current exactly when some summary row is for it. |
| MvpRun.MergeUpdate | ee_mvp/run.py:130 | Recording one more current in the new entries records it in the whole current map. |
| MvpRun.LastParent | ee_mvp/run.py:216-218 | When present, the last visited node with an edge into the child; when absent, no visited node has such an edge. |
| MvpRun.LastParentNext | ee_mvp/run.py:216-218 | Visiting the next node makes it the last parent of exactly its children. |
| MvpRun.LastParentStep | ee_mvp/run.py:216-218 | After one more visit, the totals have a key for every node id and every child of a visited node. |
| MvpRun.AccumulateStep | ee_mvp/run.py:216-218 | One pass of the inner loop keeps every total equal to its last visited parent's total plus that edge's drop (0 without a parent). |
| MvpRun.AccumulateAt | ee_mvp/run.py:216-218 | The same, at one node. |
| MvpRun.VdRecords | ee_mvp/run.py:219-226 | At most one record per node. Each record carries its bus's accumulated total, and `vd_total_ok` holds exactly when that total is within the limit. |
| MvpRun.VdRecordsComplete | ee_mvp/run.py:221-226 | Every node with a non-zero voltage has its record. |
| MvpRun.VdRecordsSound | ee_mvp/run.py:221-226 | Every record belongs to a node with a non-zero voltage. |
| MvpRun.CheckedEdges | ee_mvp/run.py:141-144 | The covered edges all have a sized cable, and there are no more of them than edges. |
| MvpRun.TargetVoltage | ee_mvp/run.py:159-162 | The voltage of the first node with the target id, or 0 when no node has it. |
| MvpRun.CableDrop | ee_mvp/run.py:158-174 | Zero unless both the length and the voltage are non-zero. Otherwise it succeeds iff the cable's impedance lookup does, and it is non-negative for a non-negative load and length. |
| MvpRun.OcpdRating | ee_mvp/run.py:177 | The device's rating when the edge has one, else 125 % of the load current. |
| MvpRun.UpsizingFactor | ee_mvp/run.py:189 | 1.0 for a zero ampacity. Otherwise factor × ampacity = the 90 °C ampacity. |
| MvpRun.EdgeSizingOk | ee_mvp/run.py:145-190 | The sizing of a covered edge succeeds exactly when its adjusted ampacity, its voltage drop, its 90 °C ampacity and its upsized grounding conductor can all be looked up. |
| MvpRun.AllPassAppend | ee_mvp/run.py:141-207 | The edges all pass when those before do and the next covered edge passes. |
| MvpRun.FailingEdge | ee_mvp/run.py:141-207 | A covered edge whose lookups fail makes the whole check fail. |
| MvpRun.AllPassPrefix | ee_mvp/run.py:141-207 | A failure among the first edges is a failure of all of them. |
| MvpRun.RowsForAppend | ee_mvp/run.py:192-207 | Appending one covered edge's row keeps the rows matching the covered edges. |
| MvpRun.PanelRowFor | ee_mvp/run.py:105-120 | The panel row is for the node's bus, with its voltage and rating and its own schedule's design kVA. |
| MvpRun.DesignSoFarStep | ee_mvp/run.py:105-109 | One more node records its own design kVA. |
| MvpRun.DesignSoFarDone | ee_mvp/run.py:103-109 | After the loop, the map is exactly `DesignLoads`. |
| MvpRun.RowsOfNodesAppend | ee_mvp/run.py:110-120 | Appending the next node's row keeps the rows matching the nodes. |
| MvpRun.NotChildOfLater | ee_mvp/run.py:72-85 | In the Kahn order, an earlier node is never a child of a later one. |
| MvpRun.Calculator.constructor | ee_mvp/run.py:61-70 | Keeps the project and the configuration. The parent and child lists hold one entry per edge, the schedule index holds each panel's last schedule, and there are no currents yet. |
| MvpRun.Calculator.BuildLists | ee_mvp/run.py:66-68 | `parents[n]` is the sources of the edges into `n`, and `children[n]` the targets of the edges out of `n`, each in edge order. |
| MvpRun.Calculator.TopologicalOrder | ee_mvp/run.py:72-85 | The output is a Kahn order of the in-degree keys: each key at most once, after all its parents, and a key left out has a parent left out. When every edge starts at a key, every key is emitted exactly when the graph has no cycle. It is exactly the FIFO order `Kahn.FifoOrder`. |
| MvpRun.Calculator.ScheduleTotals | ee_mvp/run.py:87-96 | The loop yields the kVA of the continuous and of the non-continuous entries. |
| MvpRun.Calculator.NodeVoltage | ee_mvp/run.py:98-100 | The first truthy value among line-to-line, secondary and primary voltage; non-zero exactly when one of them is truthy. |
| MvpRun.Calculator.DesignRows | ee_mvp/run.py:103-120 | One panel row per node, in node order, each with its own schedule's totals; the roll-up starts from `DesignLoads`. |
| MvpRun.Calculator.DesignRow | ee_mvp/run.py:106-120 | The node's row with the totals of its schedule (an empty schedule when it has none). |
| MvpRun.Calculator.Feed | ee_mvp/run.py:123-124 | Each parent's total grows by the load once per occurrence in the parent list; every earlier key stays. |
| MvpRun.Calculator.RollUp | ee_mvp/run.py:121-124 | Over a Kahn order, visited in reverse, every visited node's total ends as its own load plus the totals of its visited children, once per edge. |
| MvpRun.Calculator.Summarize | ee_mvp/run.py:125-134 | One summary row per panel row, each with its rolled-up total, design current and utilisation. Each bus's current is recorded in `currents`, and nothing else in it changes. |
| MvpRun.Calculator.PanelTotals | ee_mvp/run.py:103-124 | The rows of every node and the rolled-up totals. When every edge starts at a key and the graph has no cycle, every node's total is its own design kVA plus its child list's totals, a duplicate edge counting twice. |
| MvpRun.Calculator.PanelSummary | ee_mvp/run.py:102-134 | One summary row per node, in node order, over the rolled-up totals along a Kahn order. The currents map gains exactly each bus's design current. |
| MvpRun.Calculator.CheckEdge | ee_mvp/run.py:142-207 | Succeeds exactly when the edge's lookups succeed. The row then holds the cable's fields, the load, the margin, the drop and whether it is within the branch or feeder limit, the upsized EGC, and the smallest 40 %-fill raceway (the largest when none fits). |
| MvpRun.Calculator.EdgeChecks | ee_mvp/run.py:136-208 | One row per covered edge, in edge order, each its check. It succeeds exactly when every covered edge's lookups succeed. |
| MvpRun.Calculator.CheckNext | ee_mvp/run.py:141-207 | One loop step keeps the rows equal to the checks of the covered edges so far, or fails exactly when the new edge's lookups fail. |
| MvpRun.Calculator.BuildVdMap | ee_mvp/run.py:212-214 | The loop fills exactly the map from each row's (from, to) to its drop, a later row winning. |
| MvpRun.Calculator.Advance | ee_mvp/run.py:217-218 | Each child gets the parent's total plus that edge's drop (0 without a row); every other total is unchanged. |
| MvpRun.Calculator.Accumulate | ee_mvp/run.py:215-218 | Over a Kahn order, each node's total is its last visited parent's total plus that edge's drop (0 without a parent). |
| MvpRun.Calculator.KeyPresent | ee_mvp/run.py:218 | `totals[node_id]` never fails: every emitted node is a node id or has a visited parent. |
| MvpRun.Calculator.TotalVoltageDrop | ee_mvp/run.py:210-227 | The records are those of the nodes with a non-zero voltage, over totals accumulated along a Kahn order, each compared with the total limit. That order is exactly the FIFO order `Kahn.FifoOrder`, so which parent's total a child ends up with is fixed. |
| MvpRun.Calculator.TotalRows | ee_mvp/run.py:219-226 | The record loop yields exactly `VdRecords`: one row per node with a non-zero voltage, in node order, whose total is looked up with 0 as default and flagged against the limit. |
| BuildBackend.ProjectMetadata.NormalizedName | build_backend.py:28-30 | Same length as the name, with every '-' turned into '_' and every other character kept. |
| BuildBackend.ParseDistInfoDir | build_backend.py:32-34 | Reading a directory name back: when it parses, the name part has no '-' and the directory is `name-version.dist-info`. |
| BuildBackend.DistInfoDirRoundTrip | build_backend.py:28-34 | The normalised name has no '-', and the `.dist-info` directory name reads back as exactly (normalised name, version). |
| BuildBackend.Unquote | build_backend.py:128-129 | `item[1:-1]` of a quoted item is its inside; a lone '"' gives the empty string. |
| BuildBackend.ScanAt | build_backend.py:111-125 | An escape is only ever pending inside a string. |
| BuildBackend.PiecesSnoc | build_backend.py:113-132 | Reading one more character steps the string and escape flags. A ',' outside a string opens a new piece; any other character joins the open piece. |
| BuildBackend.Kept | build_backend.py:127-135 | An item is kept exactly when some comma-separated piece, stripped, starts and ends with '"'; the item is that piece without its quotes. There are never more items than pieces. |
| BuildBackend.SplitInlineList | build_backend.py:108-136 | The loop yields exactly the kept items of the comma-separated pieces: each piece stripped, and kept without its quotes only when it starts and ends with '"'. |
| BuildBackend.ReadChar | build_backend.py:113-132 | One character of the loop: an escaped character, a backslash inside a string, a quote or any other character joins the open piece, and a , outside a string closes the item. The flags, the pieces and the kept items all advance by one character. |
| BuildBackend.FinishItem | build_backend.py:127-130 | Closing a piece appends it, stripped and unquoted, exactly when it is quoted. |
| BuildBackend.ScanStep | build_backend.py:114-125 | Reading character `i` takes the flags one step. |
| BuildBackend.JoinsPiece | build_backend.py:114-125 | A character that is not a separator joins the open piece. |
| BuildBackend.EndsPiece | build_backend.py:126-131 | A ',' outside a string closes the open piece and opens an empty one. |
| BuildBackend.PiecesJoinAt | build_backend.py:113-132 | Putting the separator commas back between the pieces read so far gives back the text read so far: no character is lost. |
| BuildBackend.PiecesJoin | build_backend.py:113-132 | Joining the pieces with ',' gives back the whole text. |
| BuildBackend.QuoteFreePieces | build_backend.py:122-131 | In a text with no '"', every ',' separates, so no piece holds a comma. |
| BuildBackend.InlineListRoundTrip | build_backend.py:108-136 | Splitting a written inline array `"a", "b", …` gives back exactly its strings, commas inside them included, when none holds '"' or '\\'. |
| BuildBackend.ParseKvShape | build_backend.py:141-149 | A parsed key holds no '=' and no '#', and a parsed value holds no '#'. |
| BuildBackend.ExtractKvPairs | build_backend.py:139-150 | The dictionary is the fold of the block's lines, each parsed line written over the earlier ones. |
| BuildBackend.CollectLines | build_backend.py:141-149 | The loop over the lines yields exactly the fold of the parsed lines. |
| BuildBackend.CollectLine | build_backend.py:142-149 | One pass parses line `i` and writes its entry, when it is an assignment, over the dictionary. |
| BuildBackend.CollectStep | build_backend.py:148-149 | One more parsed line writes its entry, if any, over the dictionary. |
| BuildBackend.CollectPresent | build_backend.py:139-150 | A key is in the dictionary iff some line assigns it a quoted value. |
| BuildBackend.CollectLastWins | build_backend.py:139-150 | A present key holds the value of the last line that assigns it. |
| BuildBackend.KvLineRoundTrip | build_backend.py:141-149 | A written `key = "value"` line parses back as exactly (key, value). |
| BuildBackend.CommentedOut | build_backend.py:142-146 | A line whose first '=' comes after a '#' makes no entry. |
| BuildBackend.TerminatedReadsBack | build_backend.py:279 | Lines without a line break of their own come back from the newline-terminated text one by one. |
| BuildBackend.DistLines | build_backend.py:277-278 | One `Requires-Dist:` line per dependency, in order. |
| BuildBackend.RenderMetadata | build_backend.py:269-279 | METADATA is the five header lines, then one `Requires-Dist:` line per dependency, each ended by a newline. |
| BuildBackend.MetadataReadsBack | build_backend.py:269-279 | With no line break in any field, METADATA splits back into 5 + \|dependencies\| lines: the header, then each dependency's line in order. |
| BuildBackend.Insert | build_backend.py:297 | Inserting a new name into a strictly sorted list keeps it strictly sorted, adds exactly that name and nothing else. |
| BuildBackend.SortedUnique | build_backend.py:297 | Two strictly sorted lists of the same names are the same list, so the sorted order is fixed by the names alone. |
| BuildBackend.SortedNames | build_backend.py:297 | The script names, strictly sorted in Python's string order, each exactly once. |
| BuildBackend.ScriptLines | build_backend.py:297-298 | One `name = target` line per name, in the given order. |
| BuildBackend.RenderEntryPoints | build_backend.py:293-299 | Empty without scripts. Otherwise a `[console_scripts]` line, then one `name = target` line per script in sorted name order (the order the scripts alone fix), each ended by a newline. |

## Left out

- Input and output are not modelled. That covers `_ensure_project`, `load_project` and `load_project_file`, the pydantic record models, `load_project_graph`, `analyze` and its CSV and JSON writers (`_write_csv`, `_write_meta`), `_rounded`, `_attach_rows_attr` and the command-line and export modules. The model starts from records already in memory.
- The CSV files behind `_ampacity_table`, `_conductor_od_table`, `_emt_area_table` and `_egc_table` are not read. They are one `Tables` value passed in, and nothing is assumed about their contents beyond what each contract names. The LRU caching around them is not modelled.
- Python floats are exact reals, so rounding, overflow, NaN and infinities are not modelled. `math.sqrt(3)` is the literal 1.7320508075688772, `math.pi` a literal, and `abs` of a complex number and `sin φ` a bisection square root.
- MvpNec.PercentVoltageDrop: sin φ is a non-negative approximation of `sqrt(1 - pf²)`, not the exact root, so the contract states the sign and monotonicity and not the value.
- MvpScc.RowFor: |z| is the bisection approximation of the modulus, not an exact `abs(z)`. The fault value of every row is stated as V / (√3·|z|) / 1000 over that approximation.
- pandas DataFrames are sequences of row records, and dictionaries returned by the eejx analyses are maps. The column names and order are not modelled.
- Raised exceptions are `Result` failures carrying the exception class, not its message text. The `message` and `provenance` strings of eejx issues are not modelled either: an issue is its code, severity and path.
- eejx `per_edge` is keyed by the edge's index rather than by the string `edge_{i}` built from it.
- EejxVoltageDrop.RunVoltageDrop requires a rank on the nodes that every edge climbs, that is, an acyclic edge list. That is stronger than the source needs. `accumulate` only recurses from node ids into their upstream edges, so only a cycle upstream of some node id makes the memoised recursion never return (a `RecursionError` in Python). A cycle among edge endpoints that no node id reaches upstream ends normally in the source, yet the rank requirement still excludes it. The model covers neither case.
- `DEFAULT_CONFIG` cannot be mutated in the model: Dafny maps are values, so `load_config` returning a fresh merged map is all there is to state.
- One Kahn method serves the three copies of the algorithm (the eejx validator, the eejx load calculation and `_Calculator._topological_order`). Each caller passes its own key order and edge list. The calculator's copy builds its adjacency from the edge list, which `Valid()` ties to the `parents` and `children` fields.
- BuildBackend.RenderEntryPoints: the sorted name order is a ghost out-parameter, pinned down by `SortedUnique` as the only strictly sorted order of the script names.
- The rest of the build backend is not modelled: `_read_project_metadata`, `_extract_table`, `_extract_string`, `_extract_list`, the PEP 517 hooks `prepare_metadata_for_build_wheel`, `get_requires_for_build_wheel`, `build_wheel` and `build_sdist`, `_package_files`, `_render_wheel_file` and the SHA-256 hashing of `_render_record`. These are file-system walks, archive writing and hashing.
- EejxVoltageDrop.NormalizeSizeAccepts: `str.isdigit` is modelled on the ASCII digits '0'–'9' (`Text.IsDigits`), while Python also accepts other Unicode digits such as "²". So a size made only of such digits normalises to `None` in the model but to itself in `_normalize_size`. No output of the voltage-drop analysis differs, because every key of the resistance tables is ASCII, and both paths give an edge without a drop (`V_drop` and `pct` `None`).
- EejxSchema.NodeLoad types the untyped JSON values of `node.load` as optional numbers (`kVA`, `kW`, `pf`) and an optional boolean (`continuous`). In Python, `bool(load.get("continuous"))` and `load.get("pf") or 1.0` accept any JSON value there (a string, a list, a non-zero number for the flag); the model covers only values of those types.
- `str.upper()` is modelled on ASCII letters only; Unicode case mapping is not modelled. `str.strip()` drops every character Python's `str.isspace` accepts, including the Unicode spaces (`Text.IsSpace`).
- The sample-project expectations of the test suite (concrete kVA, current and fault values) are not restated. They depend on float arithmetic over a fixture file.
