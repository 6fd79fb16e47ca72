/**
 * Run impedance and percent voltage drop of a conductor run, built on the
 * per-1000-ft resistance and reactance tables of the NEC formula library.
 */
module MvpVd {
  import opened Wrappers
  import opened Numerics
  import opened MvpNec

  /** A per-1000-ft value over a run of `lengthFt`, shared by `qty` parallel sets (at least one). */
  function PerRun(perKft: real, lengthFt: real, qty: int): (r: real)
    ensures perKft >= 0.0 && lengthFt >= 0.0 ==> r >= 0.0
    ensures lengthFt == 0.0 ==> r == 0.0
  {
    var sets := MaxInt(1, qty) as real;
    PerRunNonNegative(perKft, lengthFt, sets);
    perKft * (lengthFt / 1000.0) / sets
  }

  lemma PerRunNonNegative(perKft: real, lengthFt: real, sets: real)
    requires sets >= 1.0
    ensures perKft >= 0.0 && lengthFt >= 0.0 ==> perKft * (lengthFt / 1000.0) / sets >= 0.0
  {
    if perKft >= 0.0 && lengthFt >= 0.0 {
      assert perKft * (lengthFt / 1000.0) >= 0.0;
    }
  }

  /**
   * `conductor_impedance`: the run's total (resistance, reactance). Either
   * table lookup failing fails the whole; the resistance lookup is tried first.
   */
  function ConductorImpedance(material: string, sizeAwg: string, lengthFt: real, installation: string, qtyPerPhase: int)
    : (r: Result<(real, real), Error>)
    ensures r.Ok? <==> ResistancePerKft(material, sizeAwg).Ok? && ReactancePerKft(installation).Ok?
    ensures r.Err? ==> r.error == TableLookupError
    ensures r.Ok? && lengthFt >= 0.0 ==> r.value.0 >= 0.0 && r.value.1 >= 0.0
    ensures r.Ok? && lengthFt == 0.0 ==> r.value == (0.0, 0.0)
  {
    match ResistancePerKft(material, sizeAwg)
    case Err(e) => Err(e)
    case Ok(rKft) =>
      match ReactancePerKft(installation)
      case Err(e) => Err(e)
      case Ok(xKft) => Ok((PerRun(rKft, lengthFt, qtyPerPhase), PerRun(xKft, lengthFt, qtyPerPhase)))
  }

  /** A run's impedance is the sum of the impedances of two runs making up its length. */
  lemma {:induction false} PerRunAdditive(perKft: real, l1: real, l2: real, qty: int)
    ensures PerRun(perKft, l1 + l2, qty) == PerRun(perKft, l1, qty) + PerRun(perKft, l2, qty)
  {
    var sets := MaxInt(1, qty) as real;
    assert perKft * ((l1 + l2) / 1000.0) == perKft * (l1 / 1000.0) + perKft * (l2 / 1000.0);
    assert (perKft * (l1 / 1000.0) + perKft * (l2 / 1000.0)) / sets
        == perKft * (l1 / 1000.0) / sets + perKft * (l2 / 1000.0) / sets;
  }

  /** Both parts of the impedance are linear in the length. */
  lemma ImpedanceLinearInLength(material: string, sizeAwg: string, l1: real, l2: real, installation: string, qty: int)
    requires ConductorImpedance(material, sizeAwg, l1, installation, qty).Ok?
    ensures var a := ConductorImpedance(material, sizeAwg, l1, installation, qty).value;
      var b := ConductorImpedance(material, sizeAwg, l2, installation, qty).value;
      var c := ConductorImpedance(material, sizeAwg, l1 + l2, installation, qty).value;
      c.0 == a.0 + b.0 && c.1 == a.1 + b.1
  {
    PerRunAdditive(ResistancePerKft(material, sizeAwg).value, l1, l2, qty);
    PerRunAdditive(ReactancePerKft(installation).value, l1, l2, qty);
  }

  /** A smaller per-1000-ft value gives a strictly smaller run value over a positive length. */
  lemma PerRunIncreasing(k1: real, k2: real, lengthFt: real, qty: int)
    requires k1 < k2 && lengthFt > 0.0
    ensures PerRun(k1, lengthFt, qty) < PerRun(k2, lengthFt, qty)
  {
    var f := lengthFt / 1000.0;
    var sets := MaxInt(1, qty) as real;
    assert k1 * f < k2 * f;
    assert k1 * f / sets < k2 * f / sets;
  }

  /** More parallel sets never raise a non-negative run value. */
  lemma MoreSetsLessImpedance(perKft: real, lengthFt: real, q1: int, q2: int)
    requires perKft >= 0.0 && lengthFt >= 0.0 && 1 <= q1 <= q2
    ensures PerRun(perKft, lengthFt, q2) <= PerRun(perKft, lengthFt, q1)
  {
    var v := perKft * (lengthFt / 1000.0);
    assert v >= 0.0;
    assert v / (q2 as real) <= v / (q1 as real);
  }

  /**
   * `voltage_drop_percent`: the percent drop of `percent_voltage_drop` on the
   * run's impedance, so zero when the voltage is not positive and never
   * negative for a non-negative current and length.
   */
  function VoltageDropPercent(currentA: real, voltageLL: real, material: string, sizeAwg: string, lengthFt: real,
                              installation: string, qtyPerPhase: int, pf: real): (r: Result<real, Error>)
    ensures var z := ConductorImpedance(material, sizeAwg, lengthFt, installation, qtyPerPhase);
      (r.Ok? <==> z.Ok?) &&
      (r.Ok? ==> r.value == PercentVoltageDrop(currentA, voltageLL, z.value.0, z.value.1, pf))
    ensures r.Err? ==> r.error == TableLookupError
    ensures r.Ok? && voltageLL <= 0.0 ==> r.value == 0.0
    ensures r.Ok? && currentA >= 0.0 && lengthFt >= 0.0 ==> r.value >= 0.0
  {
    match ConductorImpedance(material, sizeAwg, lengthFt, installation, qtyPerPhase)
    case Err(e) => Err(e)
    case Ok(z) => Ok(PercentVoltageDrop(currentA, voltageLL, z.0, z.1, pf))
  }

  /**
   * For a positive current, voltage and length and a power factor in (0, 1],
   * each step up the copper size list from #3 strictly lowers the percent drop.
   */
  lemma VoltageDropFallsWithSize(i: nat, currentA: real, voltageLL: real, lengthFt: real, installation: string,
                                 qty: int, pf: real)
    requires i + 1 < |CopperSizes| && ReactancePerKft(installation).Ok?
    requires currentA > 0.0 && voltageLL > 0.0 && lengthFt > 0.0 && 0.0 < pf <= 1.0
    ensures VoltageDropPercent(currentA, voltageLL, "Cu", CopperSizes[i + 1], lengthFt, installation, qty, pf).Ok?
    ensures VoltageDropPercent(currentA, voltageLL, "Cu", CopperSizes[i], lengthFt, installation, qty, pf).Ok?
    ensures VoltageDropPercent(currentA, voltageLL, "Cu", CopperSizes[i + 1], lengthFt, installation, qty, pf).value
          < VoltageDropPercent(currentA, voltageLL, "Cu", CopperSizes[i], lengthFt, installation, qty, pf).value
  {
    CopperResistanceFalls(i);
    var small := ResistancePerKft("Cu", CopperSizes[i + 1]).value;
    var large := ResistancePerKft("Cu", CopperSizes[i]).value;
    var x := PerRun(ReactancePerKft(installation).value, lengthFt, qty);
    PerRunIncreasing(small, large, lengthFt, qty);
    PercentDropIncreasingInResistance(currentA, voltageLL, PerRun(small, lengthFt, qty), PerRun(large, lengthFt, qty), x, pf);
  }
}
