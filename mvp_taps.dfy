/**
 * The feeder-tap rules of NEC 240.21(B)(1) and 240.21(B)(2): the 10-foot and
 * 25-foot tap checks run over every edge whose cable is marked as a tap.
 */
module MvpTaps {
  import opened Wrappers
  import opened MvpModels
  import opened MvpNec

  /** One row of the tap table. */
  datatype TapRow = TapRow(
    fromId: string,
    toId: string,
    lengthFt: real,
    ampacityA: real,
    loadA: real,
    passes10ft: bool,
    passes25ft: bool,
    passes: bool)

  /** `_current_at_bus`: the bus's load current, zero when it has none. */
  function CurrentAtBus(currents: map<string, real>, bus: string): (r: real)
    ensures bus in currents ==> r == currents[bus]
    ensures bus !in currents ==> r == 0.0
  {
    if bus in currents then currents[bus] else 0.0
  }

  /** An edge with a cable that is marked as a tap. */
  predicate IsTap(e: Edge) {
    e.cable.Some? && e.cable.value.isTap
  }

  /** Current-carrying conductors: four per set when the neutral counts, three otherwise. */
  function CurrentCarrying(c: Cable): int {
    c.qtyPerPhase * (if c.neutralCountsAsCcc then 4 else 3)
  }

  /** A cable's adjusted ampacity, with its own rating as the terminal rating and its sets in parallel. */
  function CableAmpacity(tables: Tables, c: Cable): Result<real, Error> {
    AmpacityAdjusted(tables, c.sizeAwg, c.conductor, c.insulation, c.tempRatingC, c.ambientC, c.rooftopHeightIn,
                     CurrentCarrying(c), Some(c.tempRatingC), c.qtyPerPhase)
  }

  /**
   * The row for one tap edge: the 10-foot rule needs a length of at most
   * 10 ft, an ampacity at least the load and an overcurrent device at the
   * tap's termination; the 25-foot rule needs a source device with a
   * non-zero rating, a length of at most 25 ft and an ampacity of at least a
   * third of that rating. Either rule passing passes the tap.
   */
  function TapRowFor(tables: Tables, e: Edge, currents: map<string, real>): (r: Result<TapRow, Error>)
    requires IsTap(e)
    ensures r.Ok? <==> CableAmpacity(tables, e.cable.value).Ok?
    ensures r.Ok? ==> FollowsTapRules(tables, e, currents, r.value)
  {
    var c := e.cable.value;
    match CableAmpacity(tables, c)
    case Err(err) => Err(err)
    case Ok(ampacity) =>
      var length := OrZero(c.lengthFt);
      var load := CurrentAtBus(currents, e.toId);
      var tenFt := length <= 10.0 && ampacity >= load && c.tapTerminationHasOcpd == Some(true);
      var twentyFiveFt := e.ocpd.Some? && e.ocpd.value.ratingA != 0.0 && length <= 25.0 &&
                          ampacity >= e.ocpd.value.ratingA / 3.0;
      Ok(TapRow(e.fromId, e.toId, length, ampacity, load, tenFt, twentyFiveFt, tenFt || twentyFiveFt))
  }

  /** The row's fields and verdicts as NEC 240.21(B)(1) and (B)(2) are applied to the edge. */
  predicate FollowsTapRules(tables: Tables, e: Edge, currents: map<string, real>, row: TapRow)
    requires IsTap(e)
  {
    var c := e.cable.value;
    && row.fromId == e.fromId && row.toId == e.toId
    && CableAmpacity(tables, c).Ok? && row.ampacityA == CableAmpacity(tables, c).value
    && row.lengthFt == OrZero(c.lengthFt) && row.loadA == CurrentAtBus(currents, e.toId)
    && (row.passes10ft <==> row.lengthFt <= 10.0 && row.ampacityA >= row.loadA && c.tapTerminationHasOcpd == Some(true))
    && (row.passes25ft <==>
         e.ocpd.Some? && e.ocpd.value.ratingA != 0.0 && row.lengthFt <= 25.0 && row.ampacityA >= e.ocpd.value.ratingA / 3.0)
    && (row.passes <==> row.passes10ft || row.passes25ft)
  }

  /** The tap edges, in edge order. */
  function TapEdges(edges: seq<Edge>): (r: seq<Edge>)
    ensures |r| <= |edges|
    ensures forall k :: 0 <= k < |r| ==> IsTap(r[k])
    decreases |edges|
  {
    if edges == [] then []
    else
      var rest := TapEdges(edges[..|edges| - 1]);
      if IsTap(edges[|edges| - 1]) then rest + [edges[|edges| - 1]] else rest
  }

  /** Taking the tap edges keeps their order: it distributes over concatenation. */
  lemma {:induction false} TapEdgesAppend(a: seq<Edge>, b: seq<Edge>)
    ensures TapEdges(a + b) == TapEdges(a) + TapEdges(b)
    decreases |b|
  {
    if b == [] {
      assert a + b == a;
    } else {
      var b' := b[..|b| - 1];
      assert (a + b)[..|a + b| - 1] == a + b';
      assert (a + b)[|a + b| - 1] == b[|b| - 1];
      TapEdgesAppend(a, b');
    }
  }

  /** An edge is among the tap edges exactly when it is a tap edge of the input. */
  lemma {:induction false} TapEdgesMembers(edges: seq<Edge>, e: Edge)
    ensures e in TapEdges(edges) <==> e in edges && IsTap(e)
    decreases |edges|
  {
    if edges != [] {
      var init := edges[..|edges| - 1];
      TapEdgesMembers(init, e);
      assert edges == init + [edges[|edges| - 1]];
    }
  }

  /** The rows of the tap edges so far, or the first lookup error among them. */
  function TapRows(tables: Tables, edges: seq<Edge>, currents: map<string, real>): (r: Result<seq<TapRow>, Error>)
    decreases |edges|
  {
    if edges == [] then Ok([])
    else
      AddTapRow(tables, TapRows(tables, edges[..|edges| - 1], currents), edges[|edges| - 1], currents)
  }

  /** One step of the table: a tap edge's row is appended, a non-tap edge adds nothing. */
  function AddTapRow(tables: Tables, prev: Result<seq<TapRow>, Error>, e: Edge, currents: map<string, real>)
    : (r: Result<seq<TapRow>, Error>)
    ensures prev.Err? ==> r == prev
    ensures prev.Ok? && !IsTap(e) ==> r == prev
    ensures prev.Ok? && IsTap(e) ==> (r.Ok? <==> TapRowFor(tables, e, currents).Ok?)
    ensures prev.Ok? && IsTap(e) && r.Ok? ==> r.value == prev.value + [TapRowFor(tables, e, currents).value]
  {
    match prev
    case Err(err) => Err(err)
    case Ok(rows) =>
      if !IsTap(e) then Ok(rows)
      else
        match TapRowFor(tables, e, currents)
        case Err(err) => Err(err)
        case Ok(row) => Ok(rows + [row])
  }

  /** The table of one more edge is the step applied to the table so far. */
  lemma TapRowsStep(tables: Tables, edges: seq<Edge>, currents: map<string, real>, i: nat)
    requires i < |edges|
    ensures TapRows(tables, edges[..i + 1], currents) == AddTapRow(tables, TapRows(tables, edges[..i], currents), edges[i], currents)
  {
    assert edges[..i + 1][..i] == edges[..i];
  }

  /** Every tap edge's row can be built. */
  predicate AllRowsOk(tables: Tables, taps: seq<Edge>, currents: map<string, real>)
    requires forall k :: 0 <= k < |taps| ==> IsTap(taps[k])
  {
    forall k :: 0 <= k < |taps| ==> TapRowFor(tables, taps[k], currents).Ok?
  }

  /** `rows` are the rows of `taps`, one for one. */
  predicate RowsOf(tables: Tables, taps: seq<Edge>, currents: map<string, real>, rows: seq<TapRow>)
    requires forall k :: 0 <= k < |taps| ==> IsTap(taps[k])
  {
    |rows| == |taps| && forall k :: 0 <= k < |rows| ==>
      TapRowFor(tables, taps[k], currents).Ok? && rows[k] == TapRowFor(tables, taps[k], currents).value
  }

  /**
   * The table has one row per tap edge, in edge order, each the row for that
   * edge; it fails exactly when some tap edge's ampacity lookup fails.
   */
  lemma {:induction false} TapRowsAreRowsOfTapEdges(tables: Tables, edges: seq<Edge>, currents: map<string, real>)
    ensures TapRows(tables, edges, currents).Ok? <==> AllRowsOk(tables, TapEdges(edges), currents)
    ensures TapRows(tables, edges, currents).Ok? ==>
      RowsOf(tables, TapEdges(edges), currents, TapRows(tables, edges, currents).value)
    decreases |edges|
  {
    if edges != [] {
      var init := edges[..|edges| - 1];
      var e := edges[|edges| - 1];
      TapRowsAreRowsOfTapEdges(tables, init, currents);
      if IsTap(e) {
        assert TapEdges(edges) == TapEdges(init) + [e];
        AppendTapRow(tables, TapEdges(init), e, currents, TapRows(tables, init, currents));
      }
    }
  }

  /** Appending a tap edge's row keeps the table equal to the rows of the tap edges. */
  lemma AppendTapRow(tables: Tables, t0: seq<Edge>, e: Edge, currents: map<string, real>, prev: Result<seq<TapRow>, Error>)
    requires IsTap(e) && forall k :: 0 <= k < |t0| ==> IsTap(t0[k])
    requires prev.Ok? <==> AllRowsOk(tables, t0, currents)
    requires prev.Ok? ==> RowsOf(tables, t0, currents, prev.value)
    ensures AddTapRow(tables, prev, e, currents).Ok? <==> AllRowsOk(tables, t0 + [e], currents)
    ensures AddTapRow(tables, prev, e, currents).Ok? ==>
      RowsOf(tables, t0 + [e], currents, AddTapRow(tables, prev, e, currents).value)
  {
    if AllRowsOk(tables, t0 + [e], currents) {
      AllRowsOkPrefix(tables, t0, e, currents);
      RowsOfAppend(tables, t0, e, currents, prev.value);
    } else {
      var taps := t0 + [e];
      var k :| 0 <= k < |taps| && !TapRowFor(tables, taps[k], currents).Ok?;
      if k < |t0| {
        assert taps[k] == t0[k];
      } else {
        assert taps[k] == e;
      }
    }
  }

  lemma AllRowsOkPrefix(tables: Tables, t0: seq<Edge>, e: Edge, currents: map<string, real>)
    requires IsTap(e) && forall k :: 0 <= k < |t0| ==> IsTap(t0[k])
    requires AllRowsOk(tables, t0 + [e], currents)
    ensures AllRowsOk(tables, t0, currents) && TapRowFor(tables, e, currents).Ok?
  {
    var taps := t0 + [e];
    assert taps[|t0|] == e;
    forall k | 0 <= k < |t0|
      ensures TapRowFor(tables, t0[k], currents).Ok?
    {
      assert taps[k] == t0[k];
    }
  }

  lemma RowsOfAppend(tables: Tables, t0: seq<Edge>, e: Edge, currents: map<string, real>, rows: seq<TapRow>)
    requires IsTap(e) && forall k :: 0 <= k < |t0| ==> IsTap(t0[k])
    requires RowsOf(tables, t0, currents, rows) && TapRowFor(tables, e, currents).Ok?
    ensures RowsOf(tables, t0 + [e], currents, rows + [TapRowFor(tables, e, currents).value])
  {
    var taps := t0 + [e];
    var all := rows + [TapRowFor(tables, e, currents).value];
    forall k | 0 <= k < |taps|
      ensures TapRowFor(tables, taps[k], currents).Ok? && all[k] == TapRowFor(tables, taps[k], currents).value
    {
      if k < |t0| {
        assert taps[k] == t0[k];
      }
    }
  }

  /**
   * `check_feeder_taps`: the loop over the edges that appends one row per
   * tap edge; an ampacity lookup failure ends it with that error.
   */
  method CheckFeederTaps(tables: Tables, project: Project, currents: map<string, real>) returns (r: Result<seq<TapRow>, Error>)
    ensures r == TapRows(tables, project.edges, currents)
  {
    var edges := project.edges;
    var rows: seq<TapRow> := [];
    var i := 0;
    while i < |edges|
      invariant 0 <= i <= |edges|
      invariant TapRows(tables, edges[..i], currents) == Ok(rows)
    {
      TapRowsStep(tables, edges, currents, i);
      var e := edges[i];
      if IsTap(e) {
        var row := TapRowFor(tables, e, currents);
        if row.Err? {
          TapRowsErrPersists(tables, edges, currents, i + 1);
          return Err(row.error);
        }
        rows := rows + [row.value];
      }
      i := i + 1;
    }
    assert edges[..i] == edges;
    r := Ok(rows);
  }

  /** Once a prefix fails, every longer prefix fails with the same error. */
  lemma {:induction false} TapRowsErrPersists(tables: Tables, edges: seq<Edge>, currents: map<string, real>, n: nat)
    requires n <= |edges| && TapRows(tables, edges[..n], currents).Err?
    ensures TapRows(tables, edges, currents) == TapRows(tables, edges[..n], currents)
    decreases |edges| - n
  {
    if n < |edges| {
      TapRowsStep(tables, edges, currents, n);
      TapRowsErrPersists(tables, edges, currents, n + 1);
    } else {
      assert edges[..n] == edges;
    }
  }
}
