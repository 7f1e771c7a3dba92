/** The interpreters of mesqual-study-02/src/study_interpreters.py that hold
    logic of their own: the country list, the AC/DC branch table, the bus
    selection of the volume-weighted price and the net-position dispatch.
    Country geometries, the area price, trade balance and border flow
    calculators are external and not part of this model. */
module Study02Interpreters {
  import opened Wrappers
  import opened Seqs
  import opened Strings
  import opened NetworkTables

  const ElectricityUnit: string := "MWh_el"

  const CountriesAccepted: set<string> := {"countries"}
  const CountriesRequired: set<string> := {"buses"}
  const BranchesAccepted: set<string> := {"branches"}
  const BranchesRequired: set<string> := {"lines", "links", "transformers"}
  const VolWeightedPriceAccepted: set<string> := {"countries_t.vol_weighted_marginal_price"}
  const VolWeightedPriceRequired: set<string> := {"buses_t.marginal_price", "buses_t.load_p", "buses"}
  const NetPositionAccepted: set<string> := {"countries_t." + "net_position", "countries_t." + "trade_balance_per_partner"}
  const NetPositionRequired: set<string> := {"branches", "branches_t.p0", "branches_t.p1"}

  /** The row condition of the bus mask. */
  predicate IsElectricity(b: BusRecord)
  {
    b.unit == ElectricityUnit
  }

  /** `buses[buses['unit'] == 'MWh_el']`. */
  function ElectricityBuses(buses: seq<BusRecord>): (r: seq<BusRecord>)
    ensures forall b :: b in r <==> b in buses && b.unit == ElectricityUnit
  {
    Filter(buses, IsElectricity)
  }

  /** The mask keeps the rows in table order: the selection of a
      concatenation is the selection of each part, and a single row is kept
      exactly when it is an electricity bus. */
  lemma ElectricityBusesInOrder(a: seq<BusRecord>, b: seq<BusRecord>, x: BusRecord)
    ensures ElectricityBuses(a + b) == ElectricityBuses(a) + ElectricityBuses(b)
    ensures ElectricityBuses([x]) == if x.unit == ElectricityUnit then [x] else []
  {
    FilterAppend(a, b, IsElectricity);
    FilterOne(x, IsElectricity);
  }

  /** `CountriesModelInterpreter`: the distinct countries of the electricity
      buses, each once, in order of first appearance. */
  function Countries(buses: seq<BusRecord>): (cs: seq<string>)
    ensures NoDuplicates(cs)
    ensures forall c :: c in cs <==> exists i :: 0 <= i < |buses| && buses[i].unit == ElectricityUnit && buses[i].country == c
    ensures forall c :: c in cs <==> c in CountryColumn(ElectricityBuses(buses))
    ensures forall i, j :: 0 <= i < j < |cs| ==>
              FirstIndex(CountryColumn(ElectricityBuses(buses)), cs[i]) < FirstIndex(CountryColumn(ElectricityBuses(buses)), cs[j])
  {
    var cs := Distinct(CountryColumn(ElectricityBuses(buses)));
    CountriesMembership(buses);
    cs
  }

  /** The country list follows the bus table: when the electricity bus at
      `j` is the first one of its country, every electricity bus before it
      contributes a country listed before that of `j`. */
  lemma CountriesInBusOrder(buses: seq<BusRecord>, i: nat, j: nat)
    requires i < j < |buses|
    requires buses[i].unit == ElectricityUnit && buses[j].unit == ElectricityUnit
    requires forall k :: 0 <= k < j && buses[k].unit == ElectricityUnit ==> buses[k].country != buses[j].country
    ensures buses[i].country in Countries(buses) && buses[j].country in Countries(buses)
    ensures FirstIndex(Countries(buses), buses[i].country) < FirstIndex(Countries(buses), buses[j].country)
  {
    ColumnInBusOrder(buses, i, j);
    DistinctKeepsOrder(CountryColumn(ElectricityBuses(buses)), buses[i].country, buses[j].country);
  }

  /** The same order, one step earlier: in the country column of the
      electricity buses. */
  lemma ColumnInBusOrder(buses: seq<BusRecord>, i: nat, j: nat)
    requires i < j < |buses|
    requires buses[i].unit == ElectricityUnit && buses[j].unit == ElectricityUnit
    requires forall k :: 0 <= k < j && buses[k].unit == ElectricityUnit ==> buses[k].country != buses[j].country
    ensures buses[i].country in CountryColumn(ElectricityBuses(buses))
    ensures buses[j].country in CountryColumn(ElectricityBuses(buses))
    ensures FirstIndex(CountryColumn(ElectricityBuses(buses)), buses[i].country)
            < FirstIndex(CountryColumn(ElectricityBuses(buses)), buses[j].country)
  {
    var ci, cj := buses[i].country, buses[j].country;
    var ep := ElectricityBuses(buses[..j]);
    SplitAtBus(buses, j);
    var c := CountryColumn(ElectricityBuses(buses));
    assert c[|ep|] == cj;
    assert buses[..j][i] in ep;
    var p :| 0 <= p < |ep| && ep[p] == buses[i];
    assert c[p] == ci;
    forall k | 0 <= k < |ep| ensures c[k] != cj {
      assert ep[k] in buses[..j];
    }
  }

  /** The selection, split at an electricity bus. */
  lemma SplitAtBus(buses: seq<BusRecord>, j: nat)
    requires j < |buses| && buses[j].unit == ElectricityUnit
    ensures ElectricityBuses(buses) == ElectricityBuses(buses[..j]) + [buses[j]] + ElectricityBuses(buses[j + 1..])
  {
    assert buses == buses[..j] + ([buses[j]] + buses[j + 1..]);
    ElectricityBusesInOrder(buses[..j], [buses[j]] + buses[j + 1..], buses[j]);
    ElectricityBusesInOrder([buses[j]], buses[j + 1..], buses[j]);
  }

  lemma CountriesMembership(buses: seq<BusRecord>)
    ensures forall c :: c in CountryColumn(ElectricityBuses(buses)) <==>
              exists i :: 0 <= i < |buses| && buses[i].unit == ElectricityUnit && buses[i].country == c
  {
    var elec := ElectricityBuses(buses);
    forall c | c in CountryColumn(elec) ensures exists i :: 0 <= i < |buses| && buses[i].unit == ElectricityUnit && buses[i].country == c {
      var k :| 0 <= k < |elec| && CountryColumn(elec)[k] == c;
      assert elec[k] in elec;
      var i :| 0 <= i < |buses| && buses[i] == elec[k];
    }
    forall i | 0 <= i < |buses| && buses[i].unit == ElectricityUnit ensures buses[i].country in CountryColumn(elec) {
      assert buses[i] in elec;
      var k :| 0 <= k < |elec| && elec[k] == buses[i];
      assert CountryColumn(elec)[k] == buses[i].country;
    }
  }

  /** The carriers the branch table keeps. */
  predicate IsAcOrDc(b: Branch)
  {
    b.carrier == "AC" || b.carrier == "DC"
  }

  /** `TransmissionModelInterpreter`: the concatenation, refused on a
      duplicate name before any row is filtered, then the AC and DC rows. */
  function Branches(lines: seq<Branch>, links: seq<Branch>, trafos: seq<Branch>): (r: Result<seq<Branch>>)
    ensures r.Failure? <==> !NoDuplicates(Names(lines + links + trafos))
    ensures r.Failure? ==> r.error == ValueError(OverlapMessage)
    ensures r.Success? ==> |r.value| <= |lines| + |links| + |trafos|
    ensures r.Success? ==> forall b :: b in r.value <==> (b in lines || b in links || b in trafos) && IsAcOrDc(b)
    ensures r.Success? ==> r.value == Filter(lines, IsAcOrDc) + Filter(links, IsAcOrDc) + Filter(trafos, IsAcOrDc)
  {
    match ConcatBranches(lines, links, trafos)
    case Failure(e) => Failure(e)
    case Success(all) =>
      FilterAppend(lines + links, trafos, IsAcOrDc);
      FilterAppend(lines, links, IsAcOrDc);
      Success(Filter(all, IsAcOrDc))
  }

  /** A clash between two rows the filter would drop still refuses the table. */
  lemma DuplicateCheckedBeforeFilter(lines: seq<Branch>, links: seq<Branch>, trafos: seq<Branch>, i: nat, j: nat)
    requires i < j < |lines + links + trafos|
    requires (lines + links + trafos)[i].name == (lines + links + trafos)[j].name
    ensures Branches(lines, links, trafos) == Failure(ValueError(OverlapMessage))
  {
    assert Names(lines + links + trafos)[i] == Names(lines + links + trafos)[j];
  }

  /** `CountryVolWeightedPrice`: the buses whose prices and loads go to the
      area price calculator, those that are electricity buses, price
      columns and load columns at once. */
  function SelectedBuses(buses: seq<BusRecord>, priceColumns: seq<string>, loadColumns: seq<string>): (r: set<string>)
    ensures forall b :: b in r <==> (exists i :: 0 <= i < |buses| && buses[i].name == b && buses[i].unit == ElectricityUnit)
                                    && b in priceColumns && b in loadColumns
  {
    var elec := ElectricityBuses(buses);
    var r := (set e | e in elec :: e.name) * (set p | p in priceColumns) * (set l | l in loadColumns);
    assert forall i :: 0 <= i < |buses| && buses[i].unit == ElectricityUnit ==> buses[i] in elec;
    r
  }

  /** The two results `CountryNetPosition` can return. */
  datatype NetPositionResult = TradeBalancePerPartner | NetPosition

  /** The dispatch at the end of `CountryNetPosition._fetch`. */
  function NetPositionDispatch(flag: string): (r: Result<NetPositionResult>)
    ensures r == Success(TradeBalancePerPartner) <==> Contains(flag, "trade_balance_per_partner")
    ensures r == Success(NetPosition) <==> !Contains(flag, "trade_balance_per_partner") && Contains(flag, "net_position")
    ensures r.Failure? ==> r.error == NotImplementedError(flag)
  {
    if Contains(flag, "trade_balance_per_partner") then Success(TradeBalancePerPartner)
    else if Contains(flag, "net_position") then Success(NetPosition)
    else Failure(NotImplementedError(flag))
  }

  /** A flag ending in 'trade_balance_per_partner' selects the trade balance. */
  lemma TradeBalanceFlagDispatches(prefix: string)
    ensures NetPositionDispatch(prefix + "trade_balance_per_partner") == Success(TradeBalancePerPartner)
  {
    ContainsSuffix(prefix, "trade_balance_per_partner");
  }

  /** A flag ending in 'net_position' whose prefix is shorter than 13
      characters (as 'countries_t.' is) is too short to hold
      'trade_balance_per_partner', so it selects the net position. */
  lemma NetPositionFlagDispatches(prefix: string)
    requires |prefix| < 13
    ensures NetPositionDispatch(prefix + "net_position") == Success(NetPosition)
  {
    ContainsSuffix(prefix, "net_position");
  }

  /** Both accepted flags reach their own branch; neither raises. */
  lemma AcceptedFlagsDispatch()
    ensures forall flag :: flag in NetPositionAccepted ==> NetPositionDispatch(flag).Success?
  {
    TradeBalanceFlagDispatches("countries_t.");
    NetPositionFlagDispatches("countries_t.");
  }
}
