/** The interpreters of studies/study_03_pypsa_eur_example/src: the country
    table indexed by the bus countries and looked up under their searchable
    names, the unfiltered branch table, and the declared flags. Load per bus
    and the branch flow flags are those of the shared network tables. */
module Study03Interpreters {
  import opened Wrappers
  import opened Seqs
  import opened Strings
  import opened NetworkTables

  const CountriesAccepted: set<string> := {"countries"}
  const CountriesRequired: set<string> := {"buses"}
  const BranchesAccepted: set<string> := {"branches"}
  const BranchesRequired: set<string> := {"lines", "links", "transformers"}

  /** `CountryBordersModelInterpreter`: the border table, generated by the
      framework from buses, branches and the country table. */
  const BordersModelAccepted: set<string> := {"country_borders"}
  const BordersModelRequired: set<string> := {"country", "branches"}
  const BordersModelFetched: set<string> := {"buses", "branches", "countries"}

  /** `CountryBorderFlows`: the net flow per border, computed by the
      framework from the branch flows at both ends. */
  const BorderFlowsAccepted: set<string> := {"country_borders_t.net_flow"}
  const BorderFlowsRequired: set<string> := {"branches"}
  const BorderFlowsFetched: set<string> := {"country_borders", "branches", "buses", "branches_t.p0", "branches_t.p1"}

  /** Every flag the interpreters of study 03 answer. */
  const StudyAccepted: set<string> :=
    CountriesAccepted + BranchesAccepted + BordersModelAccepted + BorderFlowsAccepted
    + BusLoadsAccepted + BranchesPAccepted + {"countries_t.vol_weighted_marginal_price"}

  /** The border flows read the border table, the branch table and the
      branch flows of the study's own interpreters, and the bus table;
      of these only the branch table is declared. */
  lemma BorderFlowsInputs()
    ensures BorderFlowsRequired < BorderFlowsFetched
    ensures BorderFlowsFetched - BorderFlowsRequired == {"country_borders", "buses", "branches_t.p0", "branches_t.p1"}
    ensures BorderFlowsFetched - {"buses"} <= StudyAccepted
    ensures BorderFlowsAccepted !! BorderFlowsFetched
  {
    assert "country_borders" in BordersModelAccepted;
    assert "branches_t.p0" in BranchesPAccepted && "branches_t.p1" in BranchesPAccepted;
  }

  /** The border table declares 'country', which no interpreter of the
      study answers, and reads 'countries', which it does not declare. */
  lemma BordersModelInputs()
    ensures "country" in BordersModelRequired && "country" !in StudyAccepted
    ensures "countries" in BordersModelFetched && "countries" !in BordersModelRequired
    ensures "countries" in CountriesAccepted
    ensures BordersModelFetched - {"buses"} <= StudyAccepted
  {
    assert "country" !in CountriesAccepted && "country" !in BusLoadsAccepted;
  }

  /** `CountryVolWeightedPrice` of study 03 declares the bus table and hands
      every bus, without a unit filter, to the area price calculator. */
  const VolWeightedPriceRequired: set<string> := {"buses_t.marginal_price", "buses_t.load_p", "buses"}

  /** `buses['country'].unique().tolist()`: every bus country once, in order
      of first appearance. */
  function Countries(buses: seq<BusRecord>): (cs: seq<string>)
    ensures NoDuplicates(cs)
    ensures forall c :: c in cs <==> exists i :: 0 <= i < |buses| && buses[i].country == c
    ensures forall c :: c in cs <==> c in CountryColumn(buses)
    ensures forall i, j :: 0 <= i < j < |cs| ==> FirstIndex(CountryColumn(buses), cs[i]) < FirstIndex(CountryColumn(buses), cs[j])
  {
    Distinct(CountryColumn(buses))
  }

  /** The name a country is looked up under: every 'NO' becomes 'NOR'. */
  function SearchName(c: string): (s: string)
    ensures |s| >= |c|
    ensures |c| == 2 ==> s == (if c == "NO" then "NOR" else c)
  {
    ReplaceLength(c, "NO", "NOR");
    if |c| == 2 then
      assert c[..2] == c;
      assert [c[0]] + c[1..] == c;
      ReplaceAll(c, "NO", "NOR")
    else
      ReplaceAll(c, "NO", "NOR")
  }

  /** The leftmost 'NO' becomes 'NOR', the text before it is kept and the
      search resumes after it. */
  lemma SearchNameAtLeftmost(c: string, k: nat)
    requires OccursAt(c, "NO", k)
    requires forall j :: 0 <= j < k ==> !OccursAt(c, "NO", j)
    ensures SearchName(c) == c[..k] + "NOR" + SearchName(c[k + 2..])
  {
    ReplaceLeftmost(c, "NO", "NOR", k);
  }

  /** A code without 'NO' is looked up as it is. */
  lemma SearchNameKeepsOthers(c: string)
    requires !Contains(c, "NO")
    ensures SearchName(c) == c
  {
    ReplaceAbsent(c, "NO", "NOR");
  }

  /** Norway's code is looked up as 'NOR'. */
  lemma SearchNameOfNorway()
    ensures SearchName("NO") == "NOR"
  {
    assert "NO"[..2] == "NO";
    assert "NO"[2..] == "";
  }

  /** The country table: one row per country, indexed by the original code,
      holding what `lookup` returns for the searchable name. */
  function CountryTable<G>(buses: seq<BusRecord>, lookup: string -> G): (t: seq<(string, G)>)
    ensures |t| == |Countries(buses)|
    ensures forall i :: 0 <= i < |t| ==> t[i].0 == Countries(buses)[i] && t[i].1 == lookup(SearchName(Countries(buses)[i]))
  {
    var cs := Countries(buses);
    seq(|cs|, i requires 0 <= i < |cs| => (cs[i], lookup(SearchName(cs[i]))))
  }

  /** `TransmissionModelInterpreter` of study 03: the concatenation with the
      duplicate check and no carrier filter. */
  function Branches(lines: seq<Branch>, links: seq<Branch>, trafos: seq<Branch>): (r: Result<seq<Branch>>)
    ensures r.Failure? <==> !NoDuplicates(Names(lines + links + trafos))
    ensures r.Success? ==> |r.value| == |lines| + |links| + |trafos|
    ensures r.Success? ==> r.value[..|lines|] == lines && r.value[|lines|..|lines| + |links|] == links
                           && r.value[|lines| + |links|..] == trafos
  {
    ConcatBranches(lines, links, trafos)
  }
}
