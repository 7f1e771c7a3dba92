/** The region to federal state to transmission system operator (TSO)
    classifier of mesqual-study-01/non_versioned/_tmp/control_areas.py.
    Geometry (polygon containment and intersection areas) is an input: for
    every region and state polygon the model is given whether the state
    contains the region and which percentage of the region's area the two
    share. */
module ControlAreas {
  import opened Wrappers

  /** The four German TSOs, the values of the `TSO` column. */
  datatype Tso = TenneT | TransnetBW | FiftyHertz | Amprion

  /** The label the script writes for each TSO. */
  function Label(t: Tso): (s: string)
  {
    match t
    case TenneT => "TenneT"
    case TransnetBW => "TransnetBW"
    case FiftyHertz => "50Hertz"
    case Amprion => "amprion"
  }

  /** The `bld` (federal state) column: the integer 0 written when the file
      is read, until a state polygon is found for the region. */
  datatype StateCell = Unassigned | State(name: string)

  /** One row of the region table. `tso` is absent until the rule chain runs. */
  datatype Region = Region(featureId: string, name: string, bld: StateCell, tso: Option<Tso>)

  /** One row of the state table: its `GEN` (name) column. */
  datatype FederalState = FederalState(gen: string)

  /** The geometric relation of one region to one state polygon: whether the
      state contains the region, and `100 * intersection area / region area`. */
  datatype Overlay = Overlay(contains: bool, sharePercent: real)

  // ---------------------------------------------------------------------------
  // The TSO rule chain (`get_regions_with_TSO`)
  // ---------------------------------------------------------------------------

  const BadenWuerttemberg: string := "Baden-Württemberg"

  /** Names of districts operated by TransnetBW. */
  const TransnetBWNames: seq<string> := [
    "Landkreis Konstanz",
    "Landkreis Ravensburg",
    "Alb-Donau-Kreis",
    "Ulm",
    "Landkreis Biberach",
    "Landkreis Reutlingen",
    "Landkreis Heidenheim",
    "Ostalbkreis",
    "Landkreis Schwäbisch Hall",
    "Bodenseekreis"
  ]

  /** Federal states operated by 50Hertz. */
  const FiftyHertzStates: seq<string> := [
    "Berlin",
    "Brandenburg",
    "Mecklenburg-Vorpommern",
    "Hamburg",
    "Sachsen-Anhalt",
    "Thüringen",
    "Sachsen"
  ]

  /** Federal states operated by amprion. */
  const AmprionStates: seq<string> := [
    "Rheinland-Pfalz",
    "Saarland",
    "Nordrhein-Westfalen"
  ]

  /** Names of districts operated by amprion. */
  const AmprionNames: seq<string> := [
    "Landkreis Donau-Ries",
    "Landkreis Dillingen an der Donau",
    "Landkreis Aichach-Friedberg",
    "Augsburg",
    "Landkreis Günzburg",
    "Landkreis Neu-Ulm",
    "Landkreis Unterallgeu",
    "Memmingen",
    "Kaufbeuren",
    "Landkreis Ostallgäu",
    "Landkreis Oberallgru",
    "Landkreis Lindau",
    "Kempten (Allgpu)",
    "Hochtaunuskreis",
    "Rheingau-Taunus-Kreis",
    "Main-Taunus-Kreis",
    "Wiesbaden",
    "Frankfurt am Main",
    "Landkreis Offenbach",
    "Offenbach am Main",
    "Kreis Grok-Gerau",
    "Darmstadt",
    "Landkreis Darmstadt-Dieburg",
    "Odenwaldkreis",
    "Landkreis Augsburg",
    "Kreis Bergstrare"
  ]

  /** Names of districts operated by TenneT. */
  const TenneTNames: seq<string> := [
    "Kreis Lippe",
    "Kreis Minden-Lübbecke",
    "Kreis Höxter",
    "Landkreis Diepholz",
    "Landkreis Nienburg/Weser",
    "Landkreis Schaumburg",
    "Landkreis Hameln-Pyrmont",
    "Landkreis Holzminden",
    "Landkreis Emsland",
    "Landkreis Osnabrück",
    "Osnabrück",
    "Landkreis Grafschaft Bentheim",
    "Kreis Höxter"
  ]

  /** One assignment to the `TSO` column: the TSO it
      writes and the rows it writes it to. */
  datatype Rule =
    | SetAll(tso: Tso)                              // unconditional assignment
    | IfStateIn(states: seq<string>, tso: Tso)      // condition on the `bld` column
    | IfNameIn(names: seq<string>, tso: Tso)        // condition on the `name` column

  /** The seven statements of `get_regions_with_TSO`, in program order. */
  const Chain: seq<Rule> := [
    SetAll(TenneT),
    IfStateIn([BadenWuerttemberg], TransnetBW),
    IfNameIn(TransnetBWNames, TransnetBW),
    IfStateIn(FiftyHertzStates, FiftyHertz),
    IfStateIn(AmprionStates, Amprion),
    IfNameIn(AmprionNames, Amprion),
    IfNameIn(TenneTNames, TenneT)
  ]

  /** Whether a rule's condition holds for a row. A `bld` still holding 0
      equals no state name. */
  predicate Matches(rule: Rule, r: Region)
  {
    match rule
    case SetAll(_) => true
    case IfStateIn(states, _) => r.bld.State? && r.bld.name in states
    case IfNameIn(names, _) => r.name in names
  }

  /** One rule applied to one row: the row's TSO is overwritten when the
      condition holds and kept otherwise. */
  function ApplyRule(rule: Rule, r: Region): (r': Region)
  {
    if Matches(rule, r) then r.(tso := Some(rule.tso)) else r
  }

  /** The rules applied to one row in order, later ones overwriting earlier ones. */
  function ApplyRules(rules: seq<Rule>, r: Region): (r': Region)
  {
    if rules == [] then r else ApplyRule(rules[|rules| - 1], ApplyRules(rules[..|rules| - 1], r))
  }

  /** A direct statement of the TSO each row ends with, independent of the
      chain: the last rule whose condition holds decides. */
  function ExpectedTso(bld: StateCell, name: string): Tso
  {
    if name in TenneTNames then TenneT
    else if name in AmprionNames then Amprion
    else if bld.State? && bld.name in AmprionStates then Amprion
    else if bld.State? && bld.name in FiftyHertzStates then FiftyHertz
    else if name in TransnetBWNames then TransnetBW
    else if bld == State(BadenWuerttemberg) then TransnetBW
    else TenneT
  }

  /** Running the seven statements sets exactly the TSO of the direct
      statement and leaves every other column as it was. */
  lemma {:induction false} ChainIsExpected(r: Region)
    ensures ApplyRules(Chain, r) == r.(tso := Some(ExpectedTso(r.bld, r.name)))
  {
    var t := r;
    assert Chain[..0] == [];
    t := ApplyRule(Chain[0], t);
    assert ApplyRules(Chain[..1], r) == t;
    t := ApplyRule(Chain[1], t);
    assert ApplyRules(Chain[..2], r) == t by { assert Chain[..2][..1] == Chain[..1]; }
    t := ApplyRule(Chain[2], t);
    assert ApplyRules(Chain[..3], r) == t by { assert Chain[..3][..2] == Chain[..2]; }
    t := ApplyRule(Chain[3], t);
    assert ApplyRules(Chain[..4], r) == t by { assert Chain[..4][..3] == Chain[..3]; }
    t := ApplyRule(Chain[4], t);
    assert ApplyRules(Chain[..5], r) == t by { assert Chain[..5][..4] == Chain[..4]; }
    t := ApplyRule(Chain[5], t);
    assert ApplyRules(Chain[..6], r) == t by { assert Chain[..6][..5] == Chain[..5]; }
    t := ApplyRule(Chain[6], t);
    assert ApplyRules(Chain, r) == t by { assert Chain[..6] == Chain[..|Chain| - 1]; }
  }

  /** The TSO a row ends with after the chain. */
  function ChainTso(r: Region): Tso
  {
    ChainIsExpected(r);
    ApplyRules(Chain, r).tso.value
  }

  /** A name on the final TenneT list is TenneT whatever its state, e.g.
      'Kreis Lippe' although North Rhine-Westphalia maps to amprion. */
  lemma TenneTListWins(r: Region)
    requires r.name in TenneTNames
    ensures ChainTso(r) == TenneT
  {
    ChainIsExpected(r);
  }

  lemma LippeIsTenneT(r: Region)
    requires r.name == "Kreis Lippe" && r.bld == State("Nordrhein-Westfalen")
    ensures ChainTso(r) == TenneT
    ensures ChainTso(r.(name := "Kreis Soest")) == Amprion
  {
    ChainIsExpected(r);
    ChainIsExpected(r.(name := "Kreis Soest"));
  }

  /** A row that no rule's condition picks keeps the default 'TenneT'. */
  lemma DefaultIsTenneT(r: Region)
    requires forall k :: 1 <= k < |Chain| ==> !Matches(Chain[k], r)
    ensures ChainTso(r) == TenneT
  {
    ChainIsExpected(r);
    assert !Matches(Chain[1], r) && !Matches(Chain[2], r) && !Matches(Chain[3], r);
    assert !Matches(Chain[4], r) && !Matches(Chain[5], r) && !Matches(Chain[6], r);
  }

  /** A Baden-Württemberg region on no later list goes to TransnetBW. */
  lemma BadenWuerttembergIsTransnetBW(r: Region)
    requires r.bld == State(BadenWuerttemberg)
    requires r.name !in AmprionNames && r.name !in TenneTNames
    ensures ChainTso(r) == TransnetBW
  {
    ChainIsExpected(r);
  }

  /** A region in one of the seven eastern states and on no amprion or
      TenneT name list goes to 50Hertz. */
  lemma EasternStatesAreFiftyHertz(r: Region)
    requires r.bld.State? && r.bld.name in FiftyHertzStates
    requires r.name !in AmprionNames && r.name !in TenneTNames
    ensures ChainTso(r) == FiftyHertz
  {
    ChainIsExpected(r);
  }

  /** The chain reads only a row's name and state: rows that agree on both
      get the same TSO, and running the chain on its own output changes
      nothing (the first statement resets the column). */
  lemma ChainIdempotent(r: Region, s: Region)
    requires r.name == s.name && r.bld == s.bld
    ensures ChainTso(r) == ChainTso(s)
    ensures ApplyRules(Chain, ApplyRules(Chain, r)) == ApplyRules(Chain, r)
  {
    ChainIsExpected(r);
    ChainIsExpected(s);
    ChainIsExpected(ApplyRules(Chain, r));
  }

  /** One statement of the chain over the whole table. */
  method ApplyRuleToColumn(regions: array<Region>, rule: Rule)
    modifies regions
    ensures forall i :: 0 <= i < regions.Length ==> regions[i] == ApplyRule(rule, old(regions[i]))
  {
    for i := 0 to regions.Length
      invariant forall k :: 0 <= k < i ==> regions[k] == ApplyRule(rule, old(regions[k]))
      invariant forall k :: i <= k < regions.Length ==> regions[k] == old(regions[k])
    {
      regions[i] := ApplyRule(rule, regions[i]);
    }
  }

  /** `get_regions_with_TSO`: the seven statements in order. Every region
      ends with a TSO, the one `ExpectedTso` states, and nothing else changes. */
  method GetRegionsWithTso(regions: array<Region>)
    modifies regions
    ensures forall i :: 0 <= i < regions.Length ==>
      regions[i] == old(regions[i]).(tso := Some(ExpectedTso(old(regions[i]).bld, old(regions[i]).name)))
  {
    for k := 0 to |Chain|
      invariant forall i :: 0 <= i < regions.Length ==> regions[i] == ApplyRules(Chain[..k], old(regions[i]))
    {
      ApplyRuleToColumn(regions, Chain[k]);
      assert Chain[..k + 1][..k] == Chain[..k];
    }
    assert Chain[..|Chain|] == Chain;
    forall i | 0 <= i < regions.Length
      ensures regions[i] == old(regions[i]).(tso := Some(ExpectedTso(old(regions[i]).bld, old(regions[i]).name)))
    {
      ChainIsExpected(old(regions[i]));
    }
  }

  // ---------------------------------------------------------------------------
  // Mapping regions to federal states (the `__main__` loop)
  // ---------------------------------------------------------------------------

  /** The loop body's test: the state polygon contains the region, or covers
      more than 10% of its area. */
  predicate Qualifies(o: Overlay)
  {
    o.contains || o.sharePercent > 10.0
  }

  /** The state a region ends with after the inner loop over the state
      polygons `states`, starting from `init`: each qualifying polygon
      overwrites the previous value. */
  function LastQualifying(states: seq<FederalState>, row: seq<Overlay>, init: StateCell): StateCell
    requires |row| == |states|
  {
    if states == [] then init
    else
      var n := |states| - 1;
      if Qualifies(row[n]) then State(states[n].gen) else LastQualifying(states[..n], row[..n], init)
  }

  /** With no qualifying polygon the region keeps its initial value. */
  lemma {:induction false} NoneQualifies(states: seq<FederalState>, row: seq<Overlay>, init: StateCell)
    requires |row| == |states|
    requires forall j :: 0 <= j < |row| ==> !Qualifies(row[j])
    ensures LastQualifying(states, row, init) == init
  {
    if states != [] {
      var n := |states| - 1;
      assert forall j :: 0 <= j < n ==> row[..n][j] == row[j];
      NoneQualifies(states[..n], row[..n], init);
    }
  }

  /** The region gets the name of the LAST polygon, in file order, that
      qualifies. */
  lemma {:induction false} LastQualifyingIsLast(states: seq<FederalState>, row: seq<Overlay>, init: StateCell, j: nat)
    requires |row| == |states| && j < |row| && Qualifies(row[j])
    requires forall k :: j < k < |row| ==> !Qualifies(row[k])
    ensures LastQualifying(states, row, init) == State(states[j].gen)
  {
    var n := |states| - 1;
    if j < n {
      assert !Qualifies(row[n]);
      assert forall k :: j < k < n ==> row[..n][k] == row[k];
      LastQualifyingIsLast(states[..n], row[..n], init, j);
    }
  }

  /** Lines 122-129: every region is compared with every state polygon. */
  method MapRegionsToStates(regions: array<Region>, states: seq<FederalState>, overlay: seq<seq<Overlay>>)
    requires |overlay| == regions.Length
    requires forall i :: 0 <= i < |overlay| ==> |overlay[i]| == |states|
    modifies regions
    ensures forall i :: 0 <= i < regions.Length ==>
      regions[i] == old(regions[i]).(bld := LastQualifying(states, overlay[i], old(regions[i]).bld))
  {
    for i := 0 to regions.Length
      invariant forall k :: 0 <= k < i ==>
        regions[k] == old(regions[k]).(bld := LastQualifying(states, overlay[k], old(regions[k]).bld))
      invariant forall k :: i <= k < regions.Length ==> regions[k] == old(regions[k])
    {
      for j := 0 to |states|
        invariant regions[i] == old(regions[i]).(bld := LastQualifying(states[..j], overlay[i][..j], old(regions[i]).bld))
        invariant forall k :: 0 <= k < i ==>
          regions[k] == old(regions[k]).(bld := LastQualifying(states, overlay[k], old(regions[k]).bld))
        invariant forall k :: i < k < regions.Length ==> regions[k] == old(regions[k])
      {
        assert states[..j + 1][..j] == states[..j] && overlay[i][..j + 1][..j] == overlay[i][..j];
        if overlay[i][j].contains {
          regions[i] := regions[i].(bld := State(states[j].gen));
        } else if overlay[i][j].sharePercent > 10.0 {
          regions[i] := regions[i].(bld := State(states[j].gen));
        }
      }
      assert states[..|states|] == states && overlay[i][..|states|] == overlay[i];
    }
  }

  /** Lines 130-131: rows 401 and 402 are overwritten by hand. */
  method PatchBerlinHamburg(regions: array<Region>)
    requires regions.Length > 402
    modifies regions
    ensures regions[401] == old(regions[401]).(bld := State("Berlin"))
    ensures regions[402] == old(regions[402]).(bld := State("Hamburg"))
    ensures forall i :: 0 <= i < regions.Length && i != 401 && i != 402 ==> regions[i] == old(regions[i])
  {
    regions[401] := regions[401].(bld := State("Berlin"));
    regions[402] := regions[402].(bld := State("Hamburg"));
  }

  // ---------------------------------------------------------------------------
  // The whole script
  // ---------------------------------------------------------------------------

  const RegionFile: string := "/Users/helgeesch/Downloads/7530196/GER_NUTS3_TSOs.shp"
  const StateFile: string := "/Users/helgeesch/Downloads/vg2500_12-31.gk3.shape/vg2500/VG2500_LAN.shp"

  /** The state column the script ends with for row `i`. */
  function FinalState(i: nat, states: seq<FederalState>, row: seq<Overlay>): StateCell
    requires |row| == |states|
  {
    if i == 401 then State("Berlin")
    else if i == 402 then State("Hamburg")
    else LastQualifying(states, row, Unassigned)
  }

  /** The table the script writes out: every row with its final state and TSO. */
  function Prepared(rows: seq<Region>, states: seq<FederalState>, overlay: seq<seq<Overlay>>): (r: seq<Region>)
    requires |overlay| == |rows|
    requires forall i :: 0 <= i < |overlay| ==> |overlay[i]| == |states|
    ensures |r| == |rows|
  {
    seq(|rows|, i requires 0 <= i < |rows| =>
      var bld := FinalState(i, states, overlay[i]);
      rows[i].(bld := bld, tso := Some(ExpectedTso(bld, rows[i].name))))
  }

  /** The `__main__` block up to writing the shapefile. A missing input file
      (`None`) raises `NameError` naming it, the region file being checked
      first; otherwise the state column is reset to 0, filled by the loop,
      patched, and the TSO chain runs. */
  method PrepareControlAreas(regionFile: Option<seq<Region>>, stateFile: Option<seq<FederalState>>,
                             overlay: seq<seq<Overlay>>)
    returns (res: Result<seq<Region>>)
    requires regionFile.Some? && stateFile.Some? ==>
      |regionFile.value| > 402 && |overlay| == |regionFile.value| &&
      forall i :: 0 <= i < |overlay| ==> |overlay[i]| == |stateFile.value|
    ensures regionFile.None? ==> res == Failure(NameError(RegionFile))
    ensures regionFile.Some? && stateFile.None? ==> res == Failure(NameError(StateFile))
    ensures regionFile.Some? && stateFile.Some? ==>
      res == Success(Prepared(regionFile.value, stateFile.value, overlay))
  {
    if regionFile.None? {
      return Failure(NameError(RegionFile));
    }
    var rows := regionFile.value;
    var regions := new Region[|rows|](i requires 0 <= i < |rows| => rows[i].(bld := Unassigned));
    if stateFile.None? {
      return Failure(NameError(StateFile));
    }
    var states := stateFile.value;
    MapRegionsToStates(regions, states, overlay);
    PatchBerlinHamburg(regions);
    GetRegionsWithTso(regions);
    res := Success(regions[..]);
    assert regions[..] == Prepared(rows, states, overlay);
  }

  /** After the script every region has one of the four TSOs, the TSO that
      its final state and name call for, and keeps its id and name. */
  lemma PreparedRows(rows: seq<Region>, states: seq<FederalState>, overlay: seq<seq<Overlay>>, i: nat)
    requires |overlay| == |rows| && i < |rows|
    requires forall k :: 0 <= k < |overlay| ==> |overlay[k]| == |states|
    ensures var r := Prepared(rows, states, overlay)[i];
      && r.tso.Some? && Label(r.tso.value) in ["TenneT", "TransnetBW", "50Hertz", "amprion"]
      && r.tso.value == ChainTso(r)
      && r.featureId == rows[i].featureId && r.name == rows[i].name
      && (i == 401 ==> r.bld == State("Berlin"))
      && (i == 402 ==> r.bld == State("Hamburg"))
  {
    var r := Prepared(rows, states, overlay)[i];
    ChainIsExpected(r);
  }
}
