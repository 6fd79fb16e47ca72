/**
 * The ee_mvp formula library: conductor material and insulation names, the
 * temperature column of the ampacity table, ambient and bundling corrections,
 * terminal-limited ampacity, resistance and reactance per 1000 ft, raceway
 * fill, equipment grounding conductor sizing and the percent voltage drop.
 *
 * The CSV-backed tables (ampacity, conductor outside diameter, EMT area and
 * grounding conductor rows) are not fixed here: they are the `Tables`
 * parameter. The resistance and reactance tables are written out.
 */
module MvpNec {
  import opened Wrappers
  import opened Text
  import opened Numerics

  /** The exceptions the library raises: `TableLookupError`, and `ValueError` from `max` of an empty table. */
  datatype Error = TableLookupError | ValueError | IndexError

  /** (material, insulation, temperature column), the key of one ampacity column. */
  type AmpacityKey = (string, string, int)

  /**
   * The tables read from CSV files: ampacity columns by key and size, outside
   * diameter by size, EMT area by trade size, and the grounding conductor rows
   * (OCPD limit, size) for copper and for aluminium, in file order.
   */
  datatype Tables = Tables(
    ampacity: map<AmpacityKey, map<string, real>>,
    conductorOd: map<string, real>,
    emtArea: map<real, real>,
    egcCu: seq<(int, string)>,
    egcAl: seq<(int, string)>)

  /** `_OHMS_PER_KFT_R`. */
  const OhmsPerKftR: map<string, map<string, real>> := map[
    "CU" := map[
      "#3" := 0.197, "#2" := 0.1563, "#1" := 0.1249, "1/0" := 0.099, "2/0" := 0.0785, "3/0" := 0.0624,
      "4/0" := 0.0495, "250" := 0.041, "300" := 0.0345, "350" := 0.0298, "400" := 0.026, "500" := 0.0209,
      "600" := 0.0174],
    "AL" := map[
      "1/0" := 0.158, "2/0" := 0.125, "3/0" := 0.099, "4/0" := 0.078, "250" := 0.067, "300" := 0.056,
      "350" := 0.048, "400" := 0.043, "500" := 0.034, "600" := 0.029]]

  /** `_INSTALLATION_X_PER_KFT`. */
  const InstallationXPerKft: map<string, real> := map["EMT" := 0.085, "PVC" := 0.065, "RMC" := 0.09]

  // ---------------------------------------------------------------- names

  /** `_normalize_material`: "CU" or "AL" by prefix of the stripped, upper-cased name. */
  function NormalizeMaterial(material: string): (r: Result<string, Error>)
    ensures r == Ok("CU") <==> StartsWith(Upper(Strip(material)), "CU")
    ensures r == Ok("AL") <==> !StartsWith(Upper(Strip(material)), "CU") && StartsWith(Upper(Strip(material)), "AL")
    ensures r.Ok? ==> r.value == "CU" || r.value == "AL"
    ensures r.Err? ==> r.error == TableLookupError
  {
    var mat := Upper(Strip(material));
    if StartsWith(mat, "CU") then Ok("CU")
    else if StartsWith(mat, "AL") then Ok("AL")
    else Err(TableLookupError)
  }

  /** A normalised material name normalises to itself. */
  lemma NormalizeMaterialIdempotent(material: string)
    requires NormalizeMaterial(material).Ok?
    ensures NormalizeMaterial(NormalizeMaterial(material).value) == NormalizeMaterial(material)
  {
    var m := NormalizeMaterial(material).value;
    StripStripped(m);
    assert Upper(Strip(m)) == m;
  }

  /** The insulation aliases. */
  const InsulationAliases: map<string, string> :=
    map["THHN/THWN-2" := "THHN", "THWN-2" := "THHN", "XHHW2" := "XHHW-2", "THHN2" := "THHN"]

  /** Stripped, upper-cased, spaces removed. */
  function CleanInsulation(insulation: string): string {
    Replace(Upper(Strip(insulation)), " ", "")
  }

  /** `_normalize_insulation`: the cleaned name, or its alias when it has one. */
  function NormalizeInsulation(insulation: string): (r: string)
    ensures CleanInsulation(insulation) in InsulationAliases ==> r == InsulationAliases[CleanInsulation(insulation)]
    ensures CleanInsulation(insulation) !in InsulationAliases ==> r == CleanInsulation(insulation)
  {
    var text := CleanInsulation(insulation);
    if text in InsulationAliases then InsulationAliases[text] else text
  }

  /** Upper case, no space and no white space at either end. */
  predicate CleanName(s: string) {
    IsUpper(s) && ' ' !in s && (s == [] || (!IsSpace(s[0]) && !IsSpace(s[|s| - 1])))
  }

  /** `Without` keeps the first and last characters when they are not the one removed. */
  lemma {:induction false} WithoutEnds(s: string, a: char)
    requires |s| > 0 && s[0] != a && s[|s| - 1] != a
    ensures |Without(s, a)| > 0 && Without(s, a)[0] == s[0]
    ensures Without(s, a)[|Without(s, a)| - 1] == s[|s| - 1]
    decreases |s|
  {
    if |s| > 1 {
      if s[|s| - 1] != s[1] || s[1] != a {
        WithoutLast(s[1..], a);
      }
    }
  }

  /** The last character of `s`, when it is kept, is the last character of `Without(s, a)`. */
  lemma {:induction false} WithoutLast(s: string, a: char)
    requires |s| > 0 && s[|s| - 1] != a
    ensures |Without(s, a)| > 0 && Without(s, a)[|Without(s, a)| - 1] == s[|s| - 1]
    decreases |s|
  {
    if |s| > 1 {
      WithoutLast(s[1..], a);
    }
  }

  /** `Without` is the identity on a string that lacks the character. */
  lemma {:induction false} WithoutAbsent(s: string, a: char)
    requires a !in s
    ensures Without(s, a) == s
    decreases |s|
  {
    if s != [] {
      WithoutAbsent(s[1..], a);
    }
  }

  /** `Without` keeps upper case. */
  lemma {:induction false} WithoutUpper(s: string, a: char)
    requires IsUpper(s)
    ensures IsUpper(Without(s, a))
    decreases |s|
  {
    if s != [] {
      WithoutUpper(s[1..], a);
    }
  }

  /** Cleaning gives a clean name, and a clean name is left alone. */
  lemma CleanInsulationClean(insulation: string)
    ensures CleanName(CleanInsulation(insulation))
    ensures CleanName(insulation) ==> CleanInsulation(insulation) == insulation
  {
    CleanInsulationIsClean(insulation);
    if CleanName(insulation) {
      CleanNameUnchanged(insulation);
    }
  }

  lemma CleanInsulationIsClean(insulation: string)
    ensures CleanName(CleanInsulation(insulation))
  {
    var k := StripSlice(insulation);
    var u := Upper(Strip(insulation));
    UpperIsUpper(Strip(insulation));
    DeleteChar(u, ' ');
    WithoutUpper(u, ' ');
    if |u| > 0 {
      WithoutEnds(u, ' ');
    }
  }

  lemma CleanNameUnchanged(insulation: string)
    requires CleanName(insulation)
    ensures CleanInsulation(insulation) == insulation
  {
    StripStripped(insulation);
    assert Upper(insulation) == insulation;
    DeleteChar(insulation, ' ');
    WithoutAbsent(insulation, ' ');
  }

  /** Every alias target is a clean name that is not itself an alias. */
  lemma AliasTargetsClean(key: string)
    requires key in InsulationAliases
    ensures CleanName(InsulationAliases[key]) && InsulationAliases[key] !in InsulationAliases
  {
    var r := InsulationAliases[key];
    assert r == "THHN" || r == "XHHW-2";
  }

  /** `_normalize_insulation` is idempotent. */
  lemma NormalizeInsulationIdempotent(insulation: string)
    ensures NormalizeInsulation(NormalizeInsulation(insulation)) == NormalizeInsulation(insulation)
  {
    var text := CleanInsulation(insulation);
    CleanInsulationClean(insulation);
    var r := NormalizeInsulation(insulation);
    if text in InsulationAliases {
      AliasTargetsClean(text);
      CleanInsulationClean(r);
    } else {
      CleanInsulationClean(text);
    }
  }

  // ---------------------------------------------------------- temperature

  /** `_temperature_column`. */
  function TemperatureColumn(tempC: Option<int>): (r: int)
    ensures r == 60 || r == 75 || r == 90
    ensures tempC.None? ==> r == 75
    ensures tempC.Some? ==> (r == 90 <==> tempC.value >= 90) && (r == 60 <==> tempC.value < 75)
  {
    match tempC
    case None => 75
    case Some(t) => if t >= 90 then 90 else if t >= 75 then 75 else 60
  }

  /** The column never falls as the rated temperature rises. */
  lemma {:induction false} TemperatureColumnMonotone(a: int, b: int)
    requires a <= b
    ensures TemperatureColumn(Some(a)) <= TemperatureColumn(Some(b))
  {
  }

  /** `terminal_temperature_limit`: 75 by default, else the temperature column. */
  function TerminalTemperatureLimit(tempC: Option<int>): (r: int)
    ensures r == TemperatureColumn(tempC)
  {
    match tempC
    case None => 75
    case Some(_) => TemperatureColumn(tempC)
  }

  // -------------------------------------------------------------- ampacity

  /** Python truthiness of a looked-up column: present and non-empty. */
  predicate Filled(t: Option<map<string, real>>) {
    t.Some? && |t.value| > 0
  }

  function Column(tables: Tables, key: AmpacityKey): Option<map<string, real>> {
    if key in tables.ampacity then Some(tables.ampacity[key]) else None
  }

  /**
   * `ampacity_base`: the entry for `size` in the column of (material,
   * insulation, temperature column); for aluminium with no such column the
   * "XHHW-2" column of the same temperature is used instead.
   */
  function AmpacityBase(tables: Tables, size: string, material: string, insulation: string, tempC: Option<int>)
    : (r: Result<real, Error>)
  {
    match NormalizeMaterial(material)
    case Err(e) => Err(e)
    case Ok(mat) =>
      var key := (mat, NormalizeInsulation(insulation), TemperatureColumn(tempC));
      var first := Column(tables, key);
      var table := if !Filled(first) && mat == "AL" then Column(tables, (mat, "XHHW-2", key.2)) else first;
      if !Filled(table) || size !in table.value then Err(TableLookupError) else Ok(table.value[size])
  }

  /**
   * The lookup `AmpacityBase` makes: the size's entry in the column of
   * (material, insulation, temperature column) when that column exists and is
   * not empty; for aluminium, else in the "XHHW-2" column of the same
   * temperature; an error when the material, the column or the size is missing.
   */
  lemma AmpacityBaseLookup(tables: Tables, size: string, material: string, insulation: string, tempC: Option<int>)
    ensures var r := AmpacityBase(tables, size, material, insulation, tempC);
      NormalizeMaterial(material).Err? ==> r == Err(TableLookupError)
    ensures var r := AmpacityBase(tables, size, material, insulation, tempC);
      NormalizeMaterial(material).Ok? ==>
      var mat := NormalizeMaterial(material).value;
      var key := (mat, NormalizeInsulation(insulation), TemperatureColumn(tempC));
      var alt := (mat, "XHHW-2", TemperatureColumn(tempC));
      (Filled(Column(tables, key)) ==>
         r == if size in tables.ampacity[key] then Ok(tables.ampacity[key][size]) else Err(TableLookupError)) &&
      (!Filled(Column(tables, key)) && mat == "AL" && Filled(Column(tables, alt)) ==>
         r == if size in tables.ampacity[alt] then Ok(tables.ampacity[alt][size]) else Err(TableLookupError)) &&
      (!Filled(Column(tables, key)) && (mat == "CU" || !Filled(Column(tables, alt))) ==> r == Err(TableLookupError))
  {
  }

  /** The reference curve (ambient limit, factor) for a conductor temperature rating. */
  function AmbientCurve(tempC: int): seq<(real, real)> {
    if tempC <= 60 then [(30.0, 1.0), (35.0, 0.88), (40.0, 0.82), (45.0, 0.71)]
    else if tempC <= 75 then [(30.0, 1.0), (35.0, 0.94), (40.0, 0.88), (45.0, 0.82)]
    else [(30.0, 1.0), (35.0, 0.96), (40.0, 0.91), (45.0, 0.87)]
  }

  /** Ambient 30 °C by default, 17 °C more on a rooftop run no higher than 12 in. */
  function EffectiveAmbient(ambientC: Option<real>, rooftopHeightIn: Option<real>): real {
    var ambient := if ambientC.None? then 30.0 else ambientC.value;
    if rooftopHeightIn.Some? && rooftopHeightIn.value <= 12.0 then ambient + 17.0 else ambient
  }

  /** The curve's limits rise and its factors fall, all within (0, 1]. */
  predicate Curve(ref: seq<(real, real)>) {
    && |ref| > 0
    && (forall i :: 0 <= i < |ref| ==> 0.0 < ref[i].1 <= 1.0)
    && (forall i, j :: 0 <= i < j < |ref| ==> ref[i].0 <= ref[j].0 && ref[j].1 <= ref[i].1)
  }

  /** The factor of the first entry whose limit is at least `ambient`, else `fallback`. */
  function FirstFactor(ref: seq<(real, real)>, ambient: real, fallback: real): real
    decreases |ref|
  {
    if ref == [] then fallback
    else if ambient <= ref[0].0 then ref[0].1
    else FirstFactor(ref[1..], ambient, fallback)
  }

  /** `ambient_correction_factor`. */
  function AmbientCorrectionFactor(tempC: int, ambientC: Option<real>, rooftopHeightIn: Option<real>): (r: real)
    ensures 0.0 < r <= 1.0
  {
    var ref := AmbientCurve(tempC);
    FirstFactorBounds(ref, EffectiveAmbient(ambientC, rooftopHeightIn));
    FirstFactor(ref, EffectiveAmbient(ambientC, rooftopHeightIn), ref[|ref| - 1].1)
  }

  lemma CurvesAreCurves(tempC: int)
    ensures Curve(AmbientCurve(tempC))
  {
  }

  /** The chosen factor is one of the curve's factors, and no smaller than the last. */
  lemma {:induction false} FirstFactorBounds(ref: seq<(real, real)>, ambient: real)
    requires Curve(ref)
    ensures var f := FirstFactor(ref, ambient, ref[|ref| - 1].1);
      0.0 < f <= 1.0 && ref[|ref| - 1].1 <= f
    decreases |ref|
  {
    if |ref| > 1 && ambient > ref[0].0 {
      assert Curve(ref[1..]) by {
        forall i, j | 0 <= i < j < |ref[1..]|
          ensures ref[1..][i].0 <= ref[1..][j].0 && ref[1..][j].1 <= ref[1..][i].1
        {
          assert ref[1..][i] == ref[i + 1] && ref[1..][j] == ref[j + 1];
        }
      }
      FirstFactorBounds(ref[1..], ambient);
      assert ref[1..][|ref[1..]| - 1] == ref[|ref| - 1];
    }
  }

  /** On a curve, a higher ambient never gets a larger factor. */
  lemma {:induction false} FirstFactorMonotone(ref: seq<(real, real)>, a: real, b: real, fallback: real)
    requires Curve(ref) && a <= b && fallback <= ref[|ref| - 1].1
    ensures FirstFactor(ref, b, fallback) <= FirstFactor(ref, a, fallback)
    decreases |ref|
  {
    if a <= ref[0].0 {
      FirstFactorBelow(ref, b, fallback);
    } else if |ref| > 1 {
      assert Curve(ref[1..]) by {
        forall i, j | 0 <= i < j < |ref[1..]|
          ensures ref[1..][i].0 <= ref[1..][j].0 && ref[1..][j].1 <= ref[1..][i].1
        {
          assert ref[1..][i] == ref[i + 1] && ref[1..][j] == ref[j + 1];
        }
      }
      assert ref[1..][|ref[1..]| - 1] == ref[|ref| - 1];
      FirstFactorMonotone(ref[1..], a, b, fallback);
    }
  }

  /** Whatever the ambient, the factor is at most the curve's first factor. */
  lemma {:induction false} FirstFactorBelow(ref: seq<(real, real)>, ambient: real, fallback: real)
    requires Curve(ref) && fallback <= ref[|ref| - 1].1
    ensures FirstFactor(ref, ambient, fallback) <= ref[0].1
    decreases |ref|
  {
    if ambient > ref[0].0 && |ref| > 1 {
      assert Curve(ref[1..]) by {
        forall i, j | 0 <= i < j < |ref[1..]|
          ensures ref[1..][i].0 <= ref[1..][j].0 && ref[1..][j].1 <= ref[1..][i].1
        {
          assert ref[1..][i] == ref[i + 1] && ref[1..][j] == ref[j + 1];
        }
      }
      assert ref[1..][|ref[1..]| - 1] == ref[|ref| - 1];
      FirstFactorBelow(ref[1..], ambient, fallback);
    }
  }

  /** The ambient correction never rises as the ambient temperature rises (same rating, same rooftop height). */
  lemma AmbientCorrectionMonotone(tempC: int, a: real, b: real, rooftopHeightIn: Option<real>)
    requires a <= b
    ensures AmbientCorrectionFactor(tempC, Some(b), rooftopHeightIn) <= AmbientCorrectionFactor(tempC, Some(a), rooftopHeightIn)
  {
    var ref := AmbientCurve(tempC);
    CurvesAreCurves(tempC);
    FirstFactorMonotone(ref, EffectiveAmbient(Some(a), rooftopHeightIn), EffectiveAmbient(Some(b), rooftopHeightIn),
                        ref[|ref| - 1].1);
  }

  /** `conductor_correction_factor`: the bundling factor for `ccc` current-carrying conductors. */
  function ConductorCorrectionFactor(ccc: int): (r: real)
    ensures ccc <= 3 ==> r == 1.0
    ensures 3 < ccc <= 6 ==> r == 0.8
    ensures 6 < ccc <= 9 ==> r == 0.7
    ensures 9 < ccc ==> r == 0.5
  {
    if ccc <= 3 then 1.0 else if ccc <= 6 then 0.8 else if ccc <= 9 then 0.7 else 0.5
  }

  /** More conductors in a raceway never get a larger factor, and the factor lies in (0, 1]. */
  lemma BundlingMonotone(a: int, b: int)
    requires a <= b
    ensures ConductorCorrectionFactor(b) <= ConductorCorrectionFactor(a)
    ensures 0.0 < ConductorCorrectionFactor(b) <= 1.0
  {
  }

  /**
   * `ampacity_adjusted`: the corrected base ampacity, capped at the ampacity
   * of the terminal's temperature column, times the number of parallel sets
   * (at least one). Either lookup failing fails the whole.
   */
  function AmpacityAdjusted(tables: Tables, size: string, material: string, insulation: string, tempC: int,
                            ambientC: Option<real>, rooftopHeightIn: Option<real>, ccc: int,
                            termTempC: Option<int>, parallelSets: int): (r: Result<real, Error>)
    ensures var base := AmpacityBase(tables, size, material, insulation, Some(tempC));
      var terminal := AmpacityBase(tables, size, material, insulation, Some(TerminalTemperatureLimit(termTempC)));
      (r.Ok? <==> base.Ok? && terminal.Ok?) &&
      (r.Ok? ==> r.value <= terminal.value * (MaxInt(1, parallelSets) as real)) &&
      (r.Ok? && base.value >= 0.0 && terminal.value >= 0.0 ==> r.value >= 0.0)
  {
    CapAndScale(AmpacityBase(tables, size, material, insulation, Some(tempC)),
                AmpacityBase(tables, size, material, insulation, Some(TerminalTemperatureLimit(termTempC))),
                AmbientCorrectionFactor(tempC, ambientC, rooftopHeightIn),
                ConductorCorrectionFactor(ccc),
                MaxInt(1, parallelSets))
  }

  /**
   * The derating, the cap at the terminal ampacity and the parallel sets,
   * applied once both lookups have succeeded (the base lookup's error first).
   */
  function CapAndScale(base: Result<real, Error>, terminal: Result<real, Error>, amb: real, bundling: real, sets: int)
    : (r: Result<real, Error>)
    requires 0.0 < amb <= 1.0 && 0.0 < bundling <= 1.0 && sets >= 1
    ensures r.Ok? <==> base.Ok? && terminal.Ok?
    ensures r.Ok? ==> r.value <= terminal.value * (sets as real)
    ensures r.Ok? && base.value >= 0.0 && terminal.value >= 0.0 ==> r.value >= 0.0
  {
    match base
    case Err(e) => Err(e)
    case Ok(b) =>
      match terminal
      case Err(e) => Err(e)
      case Ok(t) => Ok(TimesSets(Min(Derated(b, amb, bundling), t), t, sets))
  }

  /** `base * amb * bundling`: with both factors in (0, 1] the derated value is no larger and keeps its sign. */
  function Derated(base: real, amb: real, bundling: real): (r: real)
    requires 0.0 < amb <= 1.0 && 0.0 < bundling <= 1.0
    ensures base >= 0.0 ==> 0.0 <= r <= base
  {
    DeratedBounds(base, amb, bundling);
    base * amb * bundling
  }

  lemma DeratedBounds(base: real, amb: real, bundling: real)
    requires 0.0 < amb <= 1.0 && 0.0 < bundling <= 1.0
    ensures base >= 0.0 ==> 0.0 <= base * amb * bundling <= base
  {
    if base >= 0.0 {
      assert 0.0 <= base * amb <= base;
      assert 0.0 <= base * amb * bundling <= base * amb;
    }
  }

  /** The capped ampacity times the parallel sets: bounded by the terminal ampacity times the sets. */
  function TimesSets(adjusted: real, terminal: real, sets: int): (r: real)
    requires adjusted <= terminal && sets >= 1
    ensures r <= terminal * (sets as real)
    ensures adjusted >= 0.0 ==> r >= 0.0
  {
    adjusted * (sets as real)
  }

  // -------------------------------------------------- resistance, reactance

  /** `resistance_per_kft`: ohms per 1000 ft for a material and size. */
  function ResistancePerKft(material: string, size: string): (r: Result<real, Error>)
    ensures r.Ok? <==> NormalizeMaterial(material).Ok? && size in OhmsPerKftR[NormalizeMaterial(material).value]
    ensures r.Ok? ==> r.value == OhmsPerKftR[NormalizeMaterial(material).value][size] && r.value > 0.0
    ensures r.Err? ==> r.error == TableLookupError
  {
    match NormalizeMaterial(material)
    case Err(e) => Err(e)
    case Ok(mat) =>
      var table := OhmsPerKftR[mat];
      if size in table then ResistancePositive(mat, size); Ok(table[size]) else Err(TableLookupError)
  }

  /** Every resistance in the table is positive. */
  lemma ResistancePositive(mat: string, size: string)
    requires mat in OhmsPerKftR && size in OhmsPerKftR[mat]
    ensures OhmsPerKftR[mat][size] > 0.0
  {
  }

  /** `reactance_per_kft`: ohms per 1000 ft for an installation method. */
  function ReactancePerKft(installation: string): (r: Result<real, Error>)
    ensures r.Ok? <==> Upper(Strip(installation)) in InstallationXPerKft
    ensures r.Ok? ==> r.value == InstallationXPerKft[Upper(Strip(installation))] && r.value > 0.0
    ensures r.Err? ==> r.error == TableLookupError
  {
    var inst := Upper(Strip(installation));
    if inst in InstallationXPerKft then Ok(InstallationXPerKft[inst]) else Err(TableLookupError)
  }

  /** The copper sizes from #3 to 600 in ascending order. */
  const CopperSizes: seq<string> :=
    ["#3", "#2", "#1", "1/0", "2/0", "3/0", "4/0", "250", "300", "350", "400", "500", "600"]

  /** Copper resistance falls strictly with each size step up from #3. */
  lemma CopperResistanceFalls(i: nat)
    requires i + 1 < |CopperSizes|
    ensures ResistancePerKft("Cu", CopperSizes[i + 1]).Ok? && ResistancePerKft("Cu", CopperSizes[i]).Ok?
    ensures ResistancePerKft("Cu", CopperSizes[i + 1]).value < ResistancePerKft("Cu", CopperSizes[i]).value
  {
    assert NormalizeMaterial("Cu") == Ok("CU") by {
      StripStripped("Cu");
    }
    CopperTableFalls(i);
  }

  /** The copper column of the resistance table, read down `CopperSizes`, falls strictly. */
  lemma CopperTableFalls(i: nat)
    requires i + 1 < |CopperSizes|
    ensures CopperSizes[i] in OhmsPerKftR["CU"] && CopperSizes[i + 1] in OhmsPerKftR["CU"]
    ensures OhmsPerKftR["CU"][CopperSizes[i + 1]] < OhmsPerKftR["CU"][CopperSizes[i]]
  {
  }

  // ---------------------------------------------------------- raceway fill

  /** `conductor_area_sq_in`: the area of a circle of the conductor's outside diameter. */
  function ConductorAreaSqIn(tables: Tables, size: string): (r: Result<real, Error>)
    ensures r.Ok? <==> size in tables.conductorOd
    ensures r.Err? ==> r.error == TableLookupError
    ensures r.Ok? ==> r.value == Pi * (tables.conductorOd[size] / 2.0) * (tables.conductorOd[size] / 2.0)
  {
    if size !in tables.conductorOd then Err(TableLookupError)
    else
      var radius := tables.conductorOd[size] / 2.0;
      Ok(Pi * radius * radius)
  }

  /** `emt_area_sq_in`. */
  function EmtAreaSqIn(tables: Tables, tradeSize: real): (r: Result<real, Error>)
    ensures r.Ok? <==> tradeSize in tables.emtArea
    ensures r.Ok? ==> r.value == tables.emtArea[tradeSize]
  {
    if tradeSize in tables.emtArea then Ok(tables.emtArea[tradeSize]) else Err(TableLookupError)
  }

  /**
   * The total conductor area of `conductors`, added up left to right, or the
   * lookup error of the first size with no diameter.
   */
  function RequiredArea(tables: Tables, conductors: seq<(string, int)>): (r: Result<real, Error>)
    ensures r.Ok? <==> forall i :: 0 <= i < |conductors| ==> conductors[i].0 in tables.conductorOd
    ensures r.Err? ==> r.error == TableLookupError
    decreases |conductors|
  {
    if conductors == [] then Ok(0.0)
    else AddArea(tables, RequiredArea(tables, conductors[..|conductors| - 1]), conductors[|conductors| - 1])
  }

  /** One step of the sum: the running total plus one conductor's area times its count. */
  function AddArea(tables: Tables, prev: Result<real, Error>, item: (string, int)): (r: Result<real, Error>)
    ensures r.Ok? <==> prev.Ok? && item.0 in tables.conductorOd
    ensures r.Err? && prev.Err? ==> r.error == prev.error
    ensures r.Err? && prev.Ok? ==> r.error == TableLookupError
  {
    match prev
    case Err(e) => Err(e)
    case Ok(sum) =>
      match ConductorAreaSqIn(tables, item.0)
      case Err(e) => Err(e)
      case Ok(area) => Ok(sum + Contribution(area, item.1))
  }

  /** One conductor size's share of the fill: its area times how many of it there are. */
  function Contribution(area: real, count: int): real {
    area * (count as real)
  }

  /** A set of reals with no member is empty. */
  lemma NoMemberEmpty(s: set<real>)
    requires forall x: real :: x !in s
    ensures s == {}
  {
    var e: set<real> := {};
    assert forall x: real :: x in s <==> x in e;
    assert s == e;
  }
  /** A set of reals that is not empty has a member. */
  lemma SomeMember(s: set<real>)
    requires s != {}
    ensures exists x :: x in s
  {
    if forall x: real :: x !in s {
      NoMemberEmpty(s);
      assert false;
    }
  }
  /** The least element of a set of reals that is not empty. */
  lemma {:induction false} HasLeast(s: set<real>) returns (k: real)
    requires s != {}
    ensures k in s && forall j :: j in s ==> k <= j
    decreases |s|
  {
    SomeMember(s);
    var x: real :| x in s;
    var t := s - {x};
    assert |t| == |s| - 1;
    if |t| == 0 {
      assert t == {};
      LeastOfRest(s, x, x);
      k := x;
    } else {
      var m := HasLeast(t);
      if x < m {
        LeastOfRest(s, x, x);
        k := x;
      } else {
        LeastOfRest(s, x, m);
        k := m;
      }
    }
  }

  /** A set of reals that is not empty has a least element. */
  lemma LeastExists(s: set<real>)
    requires s != {}
    ensures exists k :: k in s && forall j :: j in s ==> k <= j
  {
    var k := HasLeast(s);
  }

  /** `k` is least in `s` when it is least among the others and no larger than `x`. */
  lemma LeastOfRest(s: set<real>, x: real, k: real)
    requires x in s && k in s && k <= x && forall j :: j in s - {x} ==> k <= j
    ensures forall j :: j in s ==> k <= j
  {
    forall j | j in s
      ensures k <= j
    {
      if j != x {
        assert j in s - {x};
      }
    }
  }

  /** The least element. */
  function Least(s: set<real>): (k: real)
    requires s != {}
    ensures k in s && forall j :: j in s ==> k <= j
  {
    LeastExists(s);
    var k :| k in s && forall j :: j in s ==> k <= j; k
  }
  /** The elements of `s` in ascending order (the keys of `sorted(table.items())`). */
  function Ascending(s: set<real>): (r: seq<real>)
    ensures |r| == |s|
    ensures forall k :: k in r <==> k in s
    ensures forall i, j :: 0 <= i < j < |r| ==> r[i] < r[j]
    decreases |s|
  {
    if s == {} then []
    else
      var k := Least(s);
      var t := s - {k};
      assert |t| == |s| - 1;
      var rest := Ascending(t);
      AscendingCons(k, rest, s, t);
      [k] + rest
  }
  /** Putting the least element in front of the ascending rest keeps the order. */
  lemma AscendingCons(k: real, rest: seq<real>, s: set<real>, t: set<real>)
    requires k in s && t == s - {k} && (forall j :: j in s ==> k <= j)
    requires forall x :: x in rest <==> x in t
    requires forall i, j :: 0 <= i < j < |rest| ==> rest[i] < rest[j]
    ensures forall x :: x in [k] + rest <==> x in s
    ensures forall i, j :: 0 <= i < j < |[k] + rest| ==> ([k] + rest)[i] < ([k] + rest)[j]
  {
    forall i, j | 0 <= i < j < |[k] + rest|
      ensures ([k] + rest)[i] < ([k] + rest)[j]
    {
      assert ([k] + rest)[j] == rest[j - 1];
      assert rest[j - 1] in t;
      if i > 0 {
        assert ([k] + rest)[i] == rest[i - 1];
      }
    }
  }

  /** A trade size whose area at the fill fraction holds `need`. */
  predicate Fits(tables: Tables, need: real, fill: real, t: real)
    requires t in tables.emtArea
  {
    need <= tables.emtArea[t] * fill
  }

  /** `t` fits and no smaller trade size does. */
  predicate SmallestFit(tables: Tables, need: real, fill: real, t: real)
    requires t in tables.emtArea
  {
    Fits(tables, need, fill, t) && forall u :: u in tables.emtArea && u < t ==> !Fits(tables, need, fill, u)
  }

  /** No trade size fits and `t` is the largest one. */
  predicate LargestOfNone(tables: Tables, need: real, fill: real, t: real)
    requires t in tables.emtArea
  {
    (forall u :: u in tables.emtArea ==> !Fits(tables, need, fill, u)) &&
    forall u :: u in tables.emtArea ==> u <= t
  }

  /**
   * `minimum_raceway_size`: the smallest trade size whose fill-fraction area
   * holds the conductors, or the largest trade size when none does. It fails
   * only on a size with no diameter or on an empty EMT table.
   */
  method MinimumRacewaySize(tables: Tables, conductors: seq<(string, int)>, fill: real) returns (r: Result<real, Error>)
    ensures r.Err? <==> RequiredArea(tables, conductors).Err? || |tables.emtArea| == 0
    ensures r.Ok? ==> (r.value in tables.emtArea &&
      (SmallestFit(tables, RequiredArea(tables, conductors).value, fill, r.value) ||
        LargestOfNone(tables, RequiredArea(tables, conductors).value, fill, r.value)))
  {
    var total := SumConductorArea(tables, conductors);
    if total.Err? {
      return Err(total.error);
    }
    r := PickTradeSize(tables, total.value, fill);
  }

  /** The scan over the trade sizes in ascending order for the first one that holds `need`. */
  method PickTradeSize(tables: Tables, need: real, fill: real) returns (r: Result<real, Error>)
    ensures r.Err? <==> |tables.emtArea| == 0
    ensures r.Err? ==> r.error == ValueError
    ensures r.Ok? ==> (r.value in tables.emtArea &&
      (SmallestFit(tables, need, fill, r.value) || LargestOfNone(tables, need, fill, r.value)))
  {
    var sizes := Ascending(tables.emtArea.Keys);
    r := ScanSizes(tables, need, fill, sizes);
  }

  /** The loop of the scan, over any ascending list of exactly the trade sizes. */
  method ScanSizes(tables: Tables, need: real, fill: real, sizes: seq<real>) returns (r: Result<real, Error>)
    requires |sizes| == |tables.emtArea.Keys|
    requires forall t :: t in sizes <==> t in tables.emtArea.Keys
    requires forall i, j :: 0 <= i < j < |sizes| ==> sizes[i] < sizes[j]
    ensures r.Err? <==> |tables.emtArea| == 0
    ensures r.Err? ==> r.error == ValueError
    ensures r.Ok? ==> (r.value in tables.emtArea &&
      (SmallestFit(tables, need, fill, r.value) || LargestOfNone(tables, need, fill, r.value)))
  {
    var k := 0;
    while k < |sizes|
      invariant 0 <= k <= |sizes|
      invariant forall j :: 0 <= j < k ==> !Fits(tables, need, fill, sizes[j])
    {
      if Fits(tables, need, fill, sizes[k]) {
        FirstFitIsSmallest(tables, need, fill, sizes, k);
        return Ok(sizes[k]);
      }
      k := k + 1;
    }
    if sizes == [] {
      return Err(ValueError);
    }
    NoFitIsLargest(tables, need, fill, sizes);
    r := Ok(sizes[|sizes| - 1]);
  }

  /** The first size in ascending order that fits is the smallest that fits. */
  lemma FirstFitIsSmallest(tables: Tables, need: real, fill: real, sizes: seq<real>, k: nat)
    requires forall t :: t in sizes <==> t in tables.emtArea
    requires forall i, j :: 0 <= i < j < |sizes| ==> sizes[i] < sizes[j]
    requires k < |sizes|
    requires forall j :: 0 <= j < k ==> !Fits(tables, need, fill, sizes[j])
    requires Fits(tables, need, fill, sizes[k])
    ensures SmallestFit(tables, need, fill, sizes[k])
  {
    forall t | t in tables.emtArea && t < sizes[k]
      ensures !Fits(tables, need, fill, t)
    {
      var j :| 0 <= j < |sizes| && sizes[j] == t;
      assert j < k;
    }
  }

  /** When no size in the ascending list fits, the last one is the largest of all and none fits. */
  lemma NoFitIsLargest(tables: Tables, need: real, fill: real, sizes: seq<real>)
    requires forall t :: t in sizes <==> t in tables.emtArea
    requires forall i, j :: 0 <= i < j < |sizes| ==> sizes[i] < sizes[j]
    requires |sizes| > 0
    requires forall j :: 0 <= j < |sizes| ==> !Fits(tables, need, fill, sizes[j])
    ensures LargestOfNone(tables, need, fill, sizes[|sizes| - 1])
  {
    forall t | t in tables.emtArea
      ensures !Fits(tables, need, fill, t) && t <= sizes[|sizes| - 1]
    {
      var j :| 0 <= j < |sizes| && sizes[j] == t;
    }
  }

  /** The loop that sums each conductor's area times its count, stopping at the first unknown size. */
  method SumConductorArea(tables: Tables, conductors: seq<(string, int)>) returns (r: Result<real, Error>)
    ensures r == RequiredArea(tables, conductors)
  {
    var required := 0.0;
    var i := 0;
    while i < |conductors|
      invariant 0 <= i <= |conductors|
      invariant RequiredArea(tables, conductors[..i]) == Ok(required)
    {
      var area := ConductorAreaSqIn(tables, conductors[i].0);
      RequiredAreaStep(tables, conductors, i);
      if area.Err? {
        RequiredAreaPrefixErr(tables, conductors, i + 1);
        return Err(area.error);
      }
      required := required + Contribution(area.value, conductors[i].1);
      i := i + 1;
    }
    assert conductors[..i] == conductors;
    r := Ok(required);
  }

  /** One more conductor: its area times its count is added, or its lookup error is the result. */
  lemma RequiredAreaStep(tables: Tables, conductors: seq<(string, int)>, i: nat)
    requires i < |conductors|
    ensures RequiredArea(tables, conductors[..i + 1]) ==
      AddArea(tables, RequiredArea(tables, conductors[..i]), conductors[i])
  {
    var c := conductors[..i + 1];
    assert c[..|c| - 1] == conductors[..i];
  }

  /** A lookup failure in a prefix fails the whole sum. */
  lemma {:induction false} RequiredAreaPrefixErr(tables: Tables, conductors: seq<(string, int)>, n: nat)
    requires n <= |conductors| && RequiredArea(tables, conductors[..n]).Err?
    ensures RequiredArea(tables, conductors).Err?
  {
    var i :| 0 <= i < n && conductors[..n][i].0 !in tables.conductorOd;
    assert conductors[i].0 !in tables.conductorOd;
  }

  // ------------------------------------------------ grounding conductor

  /** The first row whose OCPD limit is at least `rating`. */
  function FirstFit(rows: seq<(int, string)>, rating: real, from: nat): (r: Option<nat>)
    requires from <= |rows|
    ensures r.Some? ==> from <= r.value < |rows| && rating <= rows[r.value].0 as real
    ensures r.Some? ==> forall j :: from <= j < r.value ==> rows[j].0 as real < rating
    ensures r.None? ==> forall j :: from <= j < |rows| ==> rows[j].0 as real < rating
    decreases |rows| - from
  {
    if from == |rows| then None
    else if rating <= rows[from].0 as real then Some(from)
    else FirstFit(rows, rating, from + 1)
  }

  /** The row `equipment_ground_size` picks: the first fitting one, else the last. */
  function GroundRow(rows: seq<(int, string)>, rating: real): (r: Option<nat>)
    ensures r.None? <==> rows == []
    ensures r.Some? ==> r.value < |rows|
  {
    match FirstFit(rows, rating, 0)
    case Some(i) => Some(i)
    case None => if rows == [] then None else Some(|rows| - 1)
  }

  /**
   * `equipment_ground_size`: the size on the first row (copper or aluminium)
   * whose OCPD limit is at least the rating, else the size on the last row.
   */
  function EquipmentGroundSize(tables: Tables, ocpdRatingA: real, material: string): (r: Result<string, Error>)
  {
    match NormalizeMaterial(material)
    case Err(e) => Err(e)
    case Ok(mat) =>
      var rows := if mat == "CU" then tables.egcCu else tables.egcAl;
      match GroundRow(rows, ocpdRatingA)
      case None => Err(IndexError)
      case Some(i) => Ok(rows[i].1)
  }

  /**
   * The row `EquipmentGroundSize` picks: the first one whose OCPD limit is
   * at least the rating, else the last; an error on an unknown material or an
   * empty table.
   */
  lemma EquipmentGroundSizeRow(tables: Tables, ocpdRatingA: real, material: string)
    ensures var r := EquipmentGroundSize(tables, ocpdRatingA, material);
      NormalizeMaterial(material).Err? ==> r == Err(TableLookupError)
    ensures var r := EquipmentGroundSize(tables, ocpdRatingA, material);
      NormalizeMaterial(material).Ok? ==>
      var rows := if NormalizeMaterial(material).value == "CU" then tables.egcCu else tables.egcAl;
      (rows == [] ==> r == Err(IndexError)) &&
      (rows != [] ==> r.Ok? && exists i :: (0 <= i < |rows| && r.value == rows[i].1 &&
         (forall j :: 0 <= j < i ==> rows[j].0 as real < ocpdRatingA) &&
         (ocpdRatingA <= rows[i].0 as real || i == |rows| - 1)))
  {
    var r := EquipmentGroundSize(tables, ocpdRatingA, material);
    if NormalizeMaterial(material).Ok? {
      var rows := if NormalizeMaterial(material).value == "CU" then tables.egcCu else tables.egcAl;
      if rows != [] {
        var i := GroundRow(rows, ocpdRatingA).value;
        assert r.value == rows[i].1;
      }
    }
  }

  /** A larger rating never picks an earlier row. */
  lemma {:induction false} GroundRowMonotone(rows: seq<(int, string)>, a: real, b: real)
    requires a <= b && rows != []
    ensures GroundRow(rows, a).value <= GroundRow(rows, b).value
  {
    var fa, fb := FirstFit(rows, a, 0), FirstFit(rows, b, 0);
    if fb.Some? {
      assert a <= rows[fb.value].0 as real;
    }
  }

  /** The size ladder the upsizing steps along. */
  const GroundOrder: seq<string> := [
    "#14", "#12", "#10", "#8", "#6", "#4", "#3", "#2", "#1", "1/0", "2/0", "3/0", "4/0",
    "250", "300", "350", "400", "500", "600"]

  /** `order.index(x)`: the first position of `x`. */
  function IndexIn(s: seq<string>, x: string): (r: Option<nat>)
    ensures r.None? <==> x !in s
    ensures r.Some? ==> r.value < |s| && s[r.value] == x && x !in s[..r.value]
  {
    if s == [] then None
    else if s[0] == x then Some(0)
    else
      match IndexIn(s[1..], x)
      case None => None
      case Some(i) =>
        assert s[..i + 1] == [s[0]] + s[1..][..i];
        Some(i + 1)
  }

  /** How many steps an upsizing factor moves: none up to 1.05, one below 1.35, else two. */
  function Bump(factor: real): (n: nat)
    ensures n <= 2
  {
    if factor <= 1.05 then 0 else if factor < 1.35 then 1 else 2
  }

  /**
   * `upsized_equipment_ground`: the base size moved up the ladder by the
   * upsizing factor's step count, stopping at "600"; a base size off the
   * ladder is kept.
   */
  function UpsizedEquipmentGround(tables: Tables, ocpdRatingA: real, factor: real, material: string)
    : (r: Result<string, Error>)
    ensures var base := EquipmentGroundSize(tables, ocpdRatingA, material);
      (r.Ok? <==> base.Ok?) && (base.Err? ==> r == base)
  {
    match EquipmentGroundSize(tables, ocpdRatingA, material)
    case Err(e) => Err(e)
    case Ok(base) =>
      if factor <= 1.05 then Ok(base)
      else
        match IndexIn(GroundOrder, base)
        case None => Ok(base)
        case Some(idx) =>
          var k := MinInt(idx + Bump(factor), |GroundOrder| - 1);
          Ok(GroundOrder[k])
  }

  /**
   * The upsizing `UpsizedEquipmentGround` makes: none up to a factor of 1.05
   * or for a base size off the ladder; otherwise the base size's position
   * moved up by the factor's step count, stopping at the last size.
   */
  lemma UpsizedEquipmentGroundSteps(tables: Tables, ocpdRatingA: real, factor: real, material: string)
    ensures var base := EquipmentGroundSize(tables, ocpdRatingA, material);
      var r := UpsizedEquipmentGround(tables, ocpdRatingA, factor, material);
      (base.Ok? && (factor <= 1.05 || base.value !in GroundOrder) ==> r == base) &&
      (base.Ok? && factor > 1.05 && base.value in GroundOrder ==>
         var i := IndexIn(GroundOrder, base.value).value;
         var steps := if factor < 1.35 then 1 else 2;
         (i + steps < |GroundOrder| ==> r == Ok(GroundOrder[i + steps])) &&
         (i + steps >= |GroundOrder| ==> r == Ok(GroundOrder[|GroundOrder| - 1])))
  {
  }

  // ------------------------------------------------------- voltage drop

  /** `max(0, min(1, pf))`. */
  function ClampPf(pf: real): (p: real)
    ensures 0.0 <= p <= 1.0
    ensures 0.0 <= pf <= 1.0 ==> p == pf
  {
    Max(0.0, Min(1.0, pf))
  }

  /**
   * `percent_voltage_drop`: √3·I·(R·pf + X·sin φ)/V in percent, with the power
   * factor clamped to [0, 1] and zero when the voltage is not positive.
   */
  function PercentVoltageDrop(currentA: real, voltageLL: real, resistance: real, reactance: real, pf: real): (r: real)
    ensures voltageLL <= 0.0 ==> r == 0.0
    ensures voltageLL > 0.0 && currentA >= 0.0 && resistance >= 0.0 && reactance >= 0.0 ==> r >= 0.0
  {
    if voltageLL <= 0.0 then 0.0
    else
      var p := ClampPf(pf);
      var z := Impedance(resistance, reactance, p);
      NonNegativeDrop(currentA, voltageLL, z, resistance, reactance, p, SinPhi(p));
      Scaled(currentA, z, voltageLL)
  }

  /** `R·pf + X·sin φ`, the impedance seen along the current. */
  function Impedance(resistance: real, reactance: real, p: real): real {
    resistance * p + reactance * SinPhi(p)
  }

  /** The impedance term rises strictly with the resistance for a positive power factor. */
  lemma ImpedanceIncreasing(r1: real, r2: real, reactance: real, p: real)
    requires r1 < r2 && p > 0.0
    ensures Impedance(r1, reactance, p) < Impedance(r2, reactance, p)
  {
    var x := reactance * SinPhi(p);
    assert r1 * p < r2 * p;
    assert Impedance(r1, reactance, p) == r1 * p + x;
    assert Impedance(r2, reactance, p) == r2 * p + x;
  }

  /** `sqrt(max(0, 1 - pf * pf))`. */
  function SinPhi(p: real): (s: real)
    ensures 0.0 <= s
  {
    Sqrt(Max(0.0, 1.0 - p * p))
  }

  /** `(sqrt(3) * I * z / V) * 100`. */
  function Scaled(currentA: real, z: real, voltageLL: real): real
    requires voltageLL > 0.0
  {
    (Sqrt3 * currentA * z / voltageLL) * 100.0
  }

  lemma NonNegativeDrop(currentA: real, voltageLL: real, z: real, resistance: real, reactance: real, p: real, sinPhi: real)
    requires voltageLL > 0.0 && 0.0 <= p && sinPhi == SinPhi(p) && z == Impedance(resistance, reactance, p)
    ensures currentA >= 0.0 && resistance >= 0.0 && reactance >= 0.0 ==> Scaled(currentA, z, voltageLL) >= 0.0
  {
    if currentA >= 0.0 && resistance >= 0.0 && reactance >= 0.0 {
      assert resistance * p >= 0.0 && reactance * sinPhi >= 0.0;
      assert Sqrt3 * currentA * z >= 0.0;
    }
  }

  /** `Scaled` rises strictly with the impedance term for a positive current. */
  lemma ScaledIncreasing(currentA: real, z1: real, z2: real, voltageLL: real)
    requires voltageLL > 0.0 && currentA > 0.0 && z1 < z2
    ensures Scaled(currentA, z1, voltageLL) < Scaled(currentA, z2, voltageLL)
  {
    var c := Sqrt3 * currentA;
    assert c > 0.0;
    assert c * z1 < c * z2;
    assert c * z1 / voltageLL < c * z2 / voltageLL;
  }

  /**
   * For a positive current and voltage and a power factor in (0, 1], the
   * percent drop rises strictly with the resistance.
   */
  lemma PercentDropIncreasingInResistance(currentA: real, voltageLL: real, r1: real, r2: real, reactance: real, pf: real)
    requires currentA > 0.0 && voltageLL > 0.0 && 0.0 < pf <= 1.0 && r1 < r2
    ensures PercentVoltageDrop(currentA, voltageLL, r1, reactance, pf) < PercentVoltageDrop(currentA, voltageLL, r2, reactance, pf)
  {
    assert ClampPf(pf) == pf;
    ImpedanceIncreasing(r1, r2, reactance, pf);
    ScaledIncreasing(currentA, Impedance(r1, reactance, pf), Impedance(r2, reactance, pf), voltageLL);
  }
}
