/** The logic of the net-position and price map of study 02
    (mesqual-study-02/scripts/b_post_processing/d_netpos_price_map.py): the
    text colour chosen for an area colour, the generators chosen for a KPI,
    the named KPI groups drawn per dataset, the borders drawn as
    non-physical interconnectors, and the KPI setup of the study. Colormaps,
    geometry and folium rendering are not part of this model; the area
    colour is an input. */
module NetposPriceMap {
  import opened Wrappers
  import opened Seqs
  import opened Strings

  // ---------------------------------------------------------------------------
  // Text colour (`text_color` in `_create_area_text_generator`)
  // ---------------------------------------------------------------------------

  /** The value of one hexadecimal digit, either case. */
  function HexDigit(c: char): (d: Option<nat>)
    ensures d.Some? ==> d.value < 16
    ensures d.Some? <==> ('0' <= c <= '9' || 'a' <= c <= 'f' || 'A' <= c <= 'F')
  {
    if '0' <= c <= '9' then Some(c as int - '0' as int)
    else if 'a' <= c <= 'f' then Some(c as int - 'a' as int + 10)
    else if 'A' <= c <= 'F' then Some(c as int - 'A' as int + 10)
    else None
  }

  predicate AllHex(s: string)
  {
    forall i :: 0 <= i < |s| ==> HexDigit(s[i]).Some?
  }

  function Pow16(n: nat): (p: nat)
    ensures p >= 1
  {
    if n == 0 then 1 else 16 * Pow16(n - 1)
  }

  /** The number a string of hexadecimal digits denotes. */
  function HexValue(s: string): (v: nat)
    requires AllHex(s)
    ensures v < Pow16(|s|)
  {
    if |s| == 0 then 0
    else
      var init := s[..|s| - 1];
      var hi := HexValue(init);
      var lo := HexDigit(s[|s| - 1]).value;
      assert hi * 16 + lo < Pow16(|s|) by {
        assert hi + 1 <= Pow16(|init|);
        assert (hi + 1) * 16 <= Pow16(|init|) * 16;
      }
      hi * 16 + lo
  }

  /** `int(s, 16)` on what the colour slices can be: a non-empty run of
      hexadecimal digits parses; anything else raises `ValueError`. */
  function ParseHex(s: string): (r: Result<nat>)
    ensures r.Success? <==> |s| > 0 && AllHex(s)
    ensures r.Success? ==> r.value < Pow16(|s|)
    ensures r.Failure? ==> r.error.ValueError?
  {
    if |s| > 0 && AllHex(s) then Success(HexValue(s))
    else Failure(ValueError("invalid literal for int() with base 16: '" + s + "'"))
  }

  /** Two digits of either case read as a base-16 number: the first is
      worth sixteen times its digit. */
  lemma ParseHexPair(c1: char, c2: char)
    requires HexDigit(c1).Some? && HexDigit(c2).Some?
    ensures ParseHex([c1, c2]) == Success(16 * HexDigit(c1).value + HexDigit(c2).value)
  {
    var s := [c1, c2];
    assert s[..1] == [c1] && [c1][..0] == [];
    assert AllHex(s) by {
      assert forall k :: 0 <= k < 2 ==> s[k] == c1 || s[k] == c2;
    }
    assert HexValue([c1]) == HexDigit(c1).value by {
      assert AllHex([]);
      assert HexValue([]) == 0;
    }
    assert HexValue(s) == 16 * HexValue([c1]) + HexDigit(c2).value;
  }

  /** Python's slice `s[i:j]` for 0 <= i <= j: clipped at the end of `s`. */
  function Slice(s: string, i: nat, j: nat): (t: string)
    requires i <= j
    ensures |t| <= j - i
    ensures j <= |s| ==> t == s[i..j]
  {
    var lo := if i <= |s| then i else |s|;
    var hi := if j <= |s| then j else |s|;
    s[lo..hi]
  }

  /** One colour channel: the pair of characters at `offset`. */
  function Channel(color: string, offset: nat): (r: Result<nat>)
    ensures r.Success? ==> r.value < 256
  {
    ParseHex(Slice(color, offset, offset + 2))
  }

  const DarkText: string := "#F2F2F2"
  const LightText: string := "#194D6C"

  /** `is_dark`, on exact reals. */
  predicate IsDark(r: nat, g: nat, b: nat)
  {
    0.299 * r as real + 0.587 * g as real + 0.114 * b as real < 150.0
  }

  /** The luminance test in integers: scaling by 1000 keeps it exact. */
  lemma IsDarkInIntegers(r: nat, g: nat, b: nat)
    ensures IsDark(r, g, b) <==> 299 * r + 587 * g + 114 * b < 150000
  {
    var x := 0.299 * r as real + 0.587 * g as real + 0.114 * b as real;
    assert 1000.0 * x == (299 * r + 587 * g + 114 * b) as real;
  }

  /** `text_color`: the colour of the text drawn on an area of colour
      `color` ('#RRGGBB'): light text on a dark area, dark text on a light
      one. A channel that does not parse raises. */
  function TextColor(color: string): (r: Result<string>)
    ensures r.Success? <==> Channel(color, 1).Success? && Channel(color, 3).Success? && Channel(color, 5).Success?
    ensures r.Success? ==> (r.value == DarkText || r.value == LightText)
    ensures r.Success? ==>
              (r.value == DarkText <==>
                 299 * Channel(color, 1).value + 587 * Channel(color, 3).value + 114 * Channel(color, 5).value < 150000)
    ensures r.Failure? ==> r.error.ValueError?
  {
    match Channel(color, 1)
    case Failure(e) => Failure(e)
    case Success(red) =>
      match Channel(color, 3)
      case Failure(e) => Failure(e)
      case Success(green) =>
        match Channel(color, 5)
        case Failure(e) => Failure(e)
        case Success(blue) =>
          IsDarkInIntegers(red, green, blue);
          Success(if IsDark(red, green, blue) then DarkText else LightText)
  }

  /** On any colour of seven characters whose last six are hex digits, in
      either case, the text colour follows the luminance of the three
      digit pairs. */
  lemma TextColorOfDigits(color: string)
    requires |color| == 7
    requires forall k :: 1 <= k < 7 ==> HexDigit(color[k]).Some?
    ensures var r := 16 * HexDigit(color[1]).value + HexDigit(color[2]).value;
            var g := 16 * HexDigit(color[3]).value + HexDigit(color[4]).value;
            var b := 16 * HexDigit(color[5]).value + HexDigit(color[6]).value;
            TextColor(color) == Success(if 299 * r + 587 * g + 114 * b < 150000 then DarkText else LightText)
  {
    assert color[1..3] == [color[1], color[2]];
    assert color[3..5] == [color[3], color[4]];
    assert color[5..7] == [color[5], color[6]];
    ParseHexPair(color[1], color[2]);
    ParseHexPair(color[3], color[4]);
    ParseHexPair(color[5], color[6]);
  }

  /** The upper-case digit of a value below 16. */
  function HexChar(d: nat): (c: char)
    requires d < 16
    ensures HexDigit(c) == Some(d)
  {
    if d < 10 then ('0' as int + d) as char else ('A' as int + d - 10) as char
  }

  /** A channel value written as two upper-case hex digits. */
  function Hex2(n: nat): (s: string)
    requires n < 256
    ensures |s| == 2 && AllHex(s)
  {
    [HexChar(n / 16), HexChar(n % 16)]
  }

  /** Writing a channel in hex and parsing it back gives the channel. */
  lemma Hex2RoundTrip(n: nat)
    requires n < 256
    ensures ParseHex(Hex2(n)) == Success(n)
  {
    var s := Hex2(n);
    assert s[..1] == [HexChar(n / 16)];
    assert HexValue(s[..1]) == n / 16 by {
      assert s[..1][..0] == [];
    }
  }

  /** The '#RRGGBB' colour of three channels. */
  function Rgb(r: nat, g: nat, b: nat): (c: string)
    requires r < 256 && g < 256 && b < 256
    ensures |c| == 7 && c[0] == '#'
  {
    "#" + Hex2(r) + Hex2(g) + Hex2(b)
  }

  /** On a well-formed colour the text colour follows the luminance of the
      colour's own channels. */
  lemma TextColorOfRgb(r: nat, g: nat, b: nat)
    requires r < 256 && g < 256 && b < 256
    ensures TextColor(Rgb(r, g, b)) == Success(if 299 * r + 587 * g + 114 * b < 150000 then DarkText else LightText)
  {
    var c := Rgb(r, g, b);
    assert c[1..3] == Hex2(r) && c[3..5] == Hex2(g) && c[5..7] == Hex2(b);
    Hex2RoundTrip(r);
    Hex2RoundTrip(g);
    Hex2RoundTrip(b);
  }

  /** A colour no brighter, channel by channel, than a dark colour is dark. */
  lemma DarkerStaysDark(r: nat, g: nat, b: nat, r': nat, g': nat, b': nat)
    requires r <= r' && g <= g' && b <= b'
    requires IsDark(r', g', b')
    ensures IsDark(r, g, b)
  {
    IsDarkInIntegers(r, g, b);
    IsDarkInIntegers(r', g', b');
  }

  /** The colormaps' NaN colour '#A2A2A2' is light: it gets the dark blue text. */
  lemma FallbackColorGetsBlueText()
    ensures TextColor("#A2A2A2") == Success(LightText)
  {
    assert Hex2(162) == "A2";
    assert Rgb(162, 162, 162) == "#A2A2A2";
    TextColorOfRgb(162, 162, 162);
  }

  // ---------------------------------------------------------------------------
  // Generators per KPI (`get_generators_for_kpi`)
  // ---------------------------------------------------------------------------

  const PriceFlag: string := "countries_t." + "vol_weighted_marginal_price"
  const NetPositionFlag: string := "countries_t." + "net_position"
  const FlowFlag: string := "country_borders_t." + "net_flow"

  /** The three generator lists of the map. */
  datatype Generators = PriceGenerators | NetPositionGenerators | FlowGenerators

  function GeneratorsForKpi(flag: string): (r: Result<Generators>)
    ensures r == Success(PriceGenerators) <==> Contains(flag, "vol_weighted_marginal_price")
    ensures r == Success(NetPositionGenerators) <==>
              !Contains(flag, "vol_weighted_marginal_price") && Contains(flag, "net_position")
    ensures r == Success(FlowGenerators) <==>
              !Contains(flag, "vol_weighted_marginal_price") && !Contains(flag, "net_position") && Contains(flag, "net_flow")
    ensures r.Failure? ==> r.error == NotImplementedError(flag)
  {
    if Contains(flag, "vol_weighted_marginal_price") then Success(PriceGenerators)
    else if Contains(flag, "net_position") then Success(NetPositionGenerators)
    else if Contains(flag, "net_flow") then Success(FlowGenerators)
    else Failure(NotImplementedError(flag))
  }

  /** A string shorter than a pattern cannot contain it. */
  lemma ShorterNotContains(s: string, sub: string)
    requires |s| < |sub|
    ensures !Contains(s, sub)
  {
  }

  /** A string lacking one character of a pattern cannot contain it. */
  lemma MissingCharNotContains(s: string, sub: string, k: nat)
    requires k < |sub| && sub[k] !in s
    ensures !Contains(s, sub)
  {
  }

  /** The price flag gets the price generators. */
  lemma PriceFlagHasPriceGenerators()
    ensures GeneratorsForKpi(PriceFlag) == Success(PriceGenerators)
  {
    ContainsSuffix("countries_t.", "vol_weighted_marginal_price");
  }

  /** The net-position flag, too short to hold the price pattern, gets the
      net-position generators. */
  lemma NetPositionFlagHasNetPositionGenerators()
    ensures GeneratorsForKpi(NetPositionFlag) == Success(NetPositionGenerators)
  {
    ContainsSuffix("countries_t.", "net_position");
    ShorterNotContains(NetPositionFlag, "vol_weighted_marginal_price");
  }

  /** The border flow flag holds no 'p', so neither earlier pattern: it gets
      the flow generators. */
  lemma FlowFlagHasFlowGenerators()
    ensures GeneratorsForKpi(FlowFlag) == Success(FlowGenerators)
  {
    ContainsSuffix("country_borders_t.", "net_flow");
    ShorterNotContains(FlowFlag, "vol_weighted_marginal_price");
    FlowFlagLacksNetPosition();
  }

  lemma FlowFlagLacksNetPosition()
    ensures !Contains(FlowFlag, "net_position")
  {
    assert 'p' !in FlowFlag;
    MissingCharNotContains(FlowFlag, "net_position", 4);
  }

  // ---------------------------------------------------------------------------
  // KPI groups per dataset (`create_kpi_groups_with_names`)
  // ---------------------------------------------------------------------------

  /** A computed KPI: its flag, aggregation and object. */
  datatype Kpi = Kpi(flag: string, aggregation: string, objectName: string)

  /** A scenario dataset with its KPI collection. */
  datatype Dataset = Dataset(name: string, kpis: seq<Kpi>)

  /** A named group of KPIs drawn as one map layer. */
  datatype Group = Group(name: string, kpis: seq<Kpi>)

  /** `kpi_col.filter(flag=...)`. */
  function WithFlag(kpis: seq<Kpi>, flag: string): (r: seq<Kpi>)
    ensures forall k :: k in r <==> k in kpis && k.flag == flag
  {
    Filter(kpis, (k: Kpi) => k.flag == flag)
  }

  /** The aggregation named in the groups: the first price KPI's, or 'mean'. */
  function Aggregation(d: Dataset): (agg: string)
    ensures WithFlag(d.kpis, PriceFlag) == [] ==> agg == "mean"
    ensures WithFlag(d.kpis, PriceFlag) != [] ==>
              exists i :: (0 <= i < |d.kpis| && d.kpis[i].flag == PriceFlag && d.kpis[i].aggregation == agg
                           && forall j :: 0 <= j < i ==> d.kpis[j].flag != PriceFlag)
  {
    var prices := WithFlag(d.kpis, PriceFlag);
    if |prices| > 0 then
      FilterHead(d.kpis, (k: Kpi) => k.flag == PriceFlag);
      prices[0].aggregation
    else "mean"
  }

  function PriceGroup(d: Dataset): Group
  {
    Group("Prices - " + d.name + " [" + Aggregation(d) + "]", WithFlag(d.kpis, PriceFlag) + WithFlag(d.kpis, FlowFlag))
  }

  function NetPositionGroup(d: Dataset): Group
  {
    Group("Net Positions - " + d.name + " [" + Aggregation(d) + "]", WithFlag(d.kpis, NetPositionFlag) + WithFlag(d.kpis, FlowFlag))
  }

  /** `g` is a group drawn for `d`: the price group when `d` has price
      KPIs, the net-position group when it has net-position KPIs. */
  predicate GroupOf(d: Dataset, g: Group)
  {
    (g == PriceGroup(d) && WithFlag(d.kpis, PriceFlag) != [])
    || (g == NetPositionGroup(d) && WithFlag(d.kpis, NetPositionFlag) != [])
  }

  /** The groups one dataset contributes: a price group when it has price
      KPIs, then a net-position group when it has net-position KPIs. */
  function DatasetGroups(d: Dataset): (gs: seq<Group>)
    ensures |gs| <= 2
    ensures forall g :: g in gs <==> GroupOf(d, g)
    ensures |gs| == 2 ==> gs == [PriceGroup(d), NetPositionGroup(d)]
  {
    PriceAndNetPositionDiffer(d);
    (if WithFlag(d.kpis, PriceFlag) != [] then [PriceGroup(d)] else [])
      + (if WithFlag(d.kpis, NetPositionFlag) != [] then [NetPositionGroup(d)] else [])
  }

  /** A price group and a net-position group never share a name. */
  lemma PriceAndNetPositionDiffer(d: Dataset)
    ensures PriceGroup(d).name != NetPositionGroup(d).name
    ensures PriceGroup(d) != NetPositionGroup(d)
  {
    assert PriceGroup(d).name[0] == 'P';
    assert NetPositionGroup(d).name[0] == 'N';
  }

  /** The groups of the datasets, in the order the loop appends them. */
  function AllGroups(ds: seq<Dataset>): (gs: seq<Group>)
    ensures |gs| <= 2 * |ds|
    ensures forall g :: g in gs <==> exists d :: d in ds && GroupOf(d, g)
  {
    FlatMapLength(ds, DatasetGroups, 2);
    forall g ensures g in FlatMap(ds, DatasetGroups) <==> exists d :: d in ds && GroupOf(d, g) {
      FlatMapMembership(ds, DatasetGroups, g);
    }
    FlatMap(ds, DatasetGroups)
  }

  /** `create_kpi_groups_with_names`: loops over the datasets appending
      their groups, then sorts the groups by name. */
  method CreateKpiGroupsWithNames(datasets: seq<Dataset>) returns (result: seq<Group>)
    ensures result == SortBy(AllGroups(datasets), GroupName)
    ensures forall i, j :: 0 <= i < j < |result| ==> LexLe(result[i].name, result[j].name)
    ensures multiset(result) == multiset(AllGroups(datasets))
    ensures |result| <= 2 * |datasets|
  {
    var groups: seq<Group> := [];
    for i := 0 to |datasets|
      invariant groups == AllGroups(datasets[..i])
    {
      groups := AppendDatasetGroups(groups, datasets[i]);
      assert datasets[..i + 1][..i] == datasets[..i];
    }
    assert datasets[..|datasets|] == datasets;
    result := SortBy(groups, GroupName);
  }

  /** The body of the loop over the datasets: filter the collection by
      flag, pick the aggregation, append the groups that are not empty. */
  method AppendDatasetGroups(groups: seq<Group>, d: Dataset) returns (after: seq<Group>)
    ensures after == groups + DatasetGroups(d)
  {
    var prices := WithFlag(d.kpis, PriceFlag);
    var netPositions := WithFlag(d.kpis, NetPositionFlag);
    var flows := WithFlag(d.kpis, FlowFlag);
    var agg := if |prices| > 0 then prices[0].aggregation else "mean";
    assert agg == Aggregation(d);
    after := groups;
    if prices != [] {
      after := after + [Group("Prices - " + d.name + " [" + agg + "]", prices + flows)];
    }
    if netPositions != [] {
      after := after + [Group("Net Positions - " + d.name + " [" + agg + "]", netPositions + flows)];
    }
    GroupsStep(d, groups, after, prices != [], netPositions != []);
  }

  /** One pass of the loop appends what `DatasetGroups` lists. */
  lemma GroupsStep(d: Dataset, before: seq<Group>, after: seq<Group>, hasPrices: bool, hasNetPositions: bool)
    requires hasPrices == (WithFlag(d.kpis, PriceFlag) != [])
    requires hasNetPositions == (WithFlag(d.kpis, NetPositionFlag) != [])
    requires after == before + (if hasPrices then [PriceGroup(d)] else []) + (if hasNetPositions then [NetPositionGroup(d)] else [])
    ensures after == before + DatasetGroups(d)
  {
  }

  function GroupName(g: Group): string
  {
    g.name
  }

  // ---------------------------------------------------------------------------
  // Borders drawn as non-physical interconnectors
  // ---------------------------------------------------------------------------

  /** One row of the `country_borders` table. */
  datatype Border = Border(name: string, isPhysical: bool, nameIsAlphabeticallySorted: bool)

  /** `(~is_physical) & name_is_alphabetically_sorted`. */
  predicate Drawn(b: Border)
  {
    !b.isPhysical && b.nameIsAlphabeticallySorted
  }

  /** `country_borders.loc[_mask]`. */
  function BordersToVisualize(borders: seq<Border>): (r: seq<Border>)
    ensures |r| <= |borders|
    ensures forall b :: b in r <==> b in borders && !b.isPhysical && b.nameIsAlphabeticallySorted
  {
    Filter(borders, Drawn)
  }

  /** Of a border listed in both directions, where only one direction has
      its name sorted, at most that one is drawn. */
  lemma OneDirectionDrawn(borders: seq<Border>, ab: Border, ba: Border)
    requires ab in borders && ba in borders
    requires ab.nameIsAlphabeticallySorted && !ba.nameIsAlphabeticallySorted
    ensures ba !in BordersToVisualize(borders)
    ensures ab in BordersToVisualize(borders) <==> !ab.isPhysical
  {
  }

  // ---------------------------------------------------------------------------
  // KPI setup (`KPISetup`)
  // ---------------------------------------------------------------------------

  /** The objects a KPI definition covers. */
  datatype ObjectSelection = AllObjects | ObjectsWithProperty(property: string, value: bool)

  /** One KPI definition: a flag, the objects and the aggregation. */
  datatype KpiDefinition = KpiDefinition(flag: string, objects: ObjectSelection, aggregation: string)

  /** `_create_country_kpi_definitions`: the mean of both country flags over all countries. */
  function CountryKpiDefinitions(): (defs: seq<KpiDefinition>)
    ensures |defs| == 2 && defs[0].flag == PriceFlag && defs[1].flag == NetPositionFlag
    ensures forall k :: k in defs ==> k.objects == AllObjects && k.aggregation == "mean"
  {
    [KpiDefinition(PriceFlag, AllObjects, "mean"), KpiDefinition(NetPositionFlag, AllObjects, "mean")]
  }

  /** `_create_flow_kpi_definitions`: the mean border flow over the borders
      whose name is sorted. */
  function FlowKpiDefinitions(): (defs: seq<KpiDefinition>)
    ensures |defs| == 1 && defs[0].flag == FlowFlag
    ensures defs[0].objects == ObjectsWithProperty("name_is_alphabetically_sorted", true)
  {
    [KpiDefinition(FlowFlag, ObjectsWithProperty("name_is_alphabetically_sorted", true), "mean")]
  }

  /** Every collection with `defs` appended, or all unchanged when `defs`
      is empty (`if scenario_defs:`). */
  function AddToAll(collections: seq<seq<KpiDefinition>>, defs: seq<KpiDefinition>): (r: seq<seq<KpiDefinition>>)
    ensures |r| == |collections|
    ensures forall i :: 0 <= i < |r| ==> r[i] == collections[i] + defs
  {
    if defs == [] then
      assert forall i :: 0 <= i < |collections| ==> collections[i] + defs == collections[i];
      collections
    else seq(|collections|, i requires 0 <= i < |collections| => collections[i] + defs)
  }

  /** The KPI collections of a study's scenario and comparison datasets. */
  class StudyKpis {
    var scen: seq<seq<KpiDefinition>>
    var comp: seq<seq<KpiDefinition>>

    constructor(scenarios: nat, comparisons: nat)
      ensures |scen| == scenarios && |comp| == comparisons
      ensures forall i :: 0 <= i < |scen| ==> scen[i] == []
      ensures forall i :: 0 <= i < |comp| ==> comp[i] == []
    {
      scen := seq(scenarios, _ => []);
      comp := seq(comparisons, _ => []);
    }

    /** `_clear_existing_kpis`. */
    method ClearExistingKpis()
      modifies this
      ensures |scen| == |old(scen)| && |comp| == |old(comp)|
      ensures forall i :: 0 <= i < |scen| ==> scen[i] == []
      ensures forall i :: 0 <= i < |comp| ==> comp[i] == []
    {
      scen := seq(|scen|, _ => []);
      comp := seq(|comp|, _ => []);
    }

    /** `_add_kpis_to_study`; an absent list of definitions is the empty one. */
    method AddKpisToStudy(scenarioDefs: seq<KpiDefinition>, comparisonDefs: seq<KpiDefinition>)
      modifies this
      ensures scen == AddToAll(old(scen), scenarioDefs)
      ensures comp == AddToAll(old(comp), comparisonDefs)
    {
      if scenarioDefs != [] {
        scen := AddToAll(scen, scenarioDefs);
      }
      if comparisonDefs != [] {
        comp := AddToAll(comp, comparisonDefs);
      }
    }

    /** `run`: afterwards every scenario holds exactly the country and flow
        definitions and every comparison holds none, whatever they held. */
    method Run()
      modifies this
      ensures |scen| == |old(scen)| && |comp| == |old(comp)|
      ensures forall i :: 0 <= i < |scen| ==> scen[i] == CountryKpiDefinitions() + FlowKpiDefinitions()
      ensures forall i :: 0 <= i < |comp| ==> comp[i] == []
    {
      ClearExistingKpis();
      var countryDefs := CountryKpiDefinitions();
      var flowDefs := FlowKpiDefinitions();
      AddKpisToStudy(countryDefs + flowDefs, []);
    }
  }
}
