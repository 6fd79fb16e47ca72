/**
 * The eejx short-circuit stub: the service's available fault current is
 * handed unchanged to every node, with no impedance reduction.
 */
module EejxShortCircuit {
  import opened Wrappers
  import opened EejxSchema

  /** One `per_node` entry: `I_sc_kA` and the `method` tag. */
  datatype FaultRow = FaultRow(iScKA: real, tag: string)

  /** The tag every stub row carries. */
  const StubMethod: string := "stub"

  /** `run_short_circuit_stub`: the `per_node` map. */
  function RunShortCircuitStub(g: ProjectGraph): (r: map<string, FaultRow>)
    ensures g.shortCircuit.None? || g.shortCircuit.value.serviceFaultKA.None? ==> r == map[]
    ensures g.shortCircuit.Some? && g.shortCircuit.value.serviceFaultKA.Some? ==>
      (forall id :: id in r <==> exists i :: 0 <= i < |g.nodes| && g.nodes[i].id == id) &&
      (forall id :: id in r ==> r[id] == FaultRow(g.shortCircuit.value.serviceFaultKA.value, StubMethod))
  {
    if g.shortCircuit.None? || g.shortCircuit.value.serviceFaultKA.None? then map[]
    else
      var fault := g.shortCircuit.value.serviceFaultKA.value;
      map id | id in Ids(g.nodes) :: FaultRow(fault, StubMethod)
  }

  /**
   * Every row carries the stub tag, and the result is fixed by the node ids
   * and the fault value alone: neither the edges, the flags, the schedules nor
   * any other node attribute changes it.
   */
  lemma {:induction false} StubDependsOnIdsAndFault(g: ProjectGraph, h: ProjectGraph)
    requires Ids(g.nodes) == Ids(h.nodes) && g.shortCircuit == h.shortCircuit
    ensures RunShortCircuitStub(g) == RunShortCircuitStub(h)
    ensures forall id :: id in RunShortCircuitStub(g) ==> RunShortCircuitStub(g)[id].tag == StubMethod
  {
    var r, q := RunShortCircuitStub(g), RunShortCircuitStub(h);
    forall id
      ensures id in r <==> id in q
    {
      if id in r {
        var i :| 0 <= i < |g.nodes| && g.nodes[i].id == id;
        assert Ids(g.nodes)[i] == id;
        assert h.nodes[i].id == id;
      }
      if id in q {
        var i :| 0 <= i < |h.nodes| && h.nodes[i].id == id;
        assert Ids(h.nodes)[i] == id;
        assert g.nodes[i].id == id;
      }
    }
  }
}
