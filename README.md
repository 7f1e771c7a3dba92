# mesqual studies — a verified model of the study logic

This project models the study-specific code that sits on top of the
mesqual energy-data framework and its PyPSA adapter:

- **Study folders** (`vanilla/study_structure.py`): the eleven folders of a
  study and their relative paths.
- **Scenario setup** (study 01): scenario names and attributes from network
  file names, the sorted scenario list and the comparisons against `base`.
- **Control areas** (study 01): the classifier that assigns German
  NUTS-3 regions to federal states and then to one of the four TSOs. It has
  a polygon-overlap loop, a patch of two rows and a seven-statement rule
  chain.
- **Study 01 interpreters**: the bus table with each bus's control area
  (spatial join, then nearest area), and the demand-volume-weighted price
  per control area.
- **Study 02 and 03 interpreters**: country tables, the merged branch table
  with its duplicate-name check, loads per bus, branch flows per port,
  the net-position dispatch and the selected buses of the country price.
- **Study database** (study 02): a cache that stores and reports only
  "custom" flags.
- **Net-position/price map** (study 02): the text colour on a coloured
  area, the generators chosen per KPI flag, the KPI groups per dataset with
  their names and order, the borders drawn as cables, and the KPI setup
  that clears and refills the KPI collections.

Pandas frames are modelled one snapshot at a time. A row is a sequence of
labelled cells (`Sums.Row`), and `groupby(...).sum()` is `Sums.GroupBySum`.
Geometry is an input. Each bus or region comes with the result of the
containment test, the overlap percentage or the distances. File reading,
globbing and the framework's own calculators are not modelled.
Floating-point values are exact reals, and NaN is `None`.

Shared helpers:
- `wrappers.dfy`: `Option`, `Result`, and the Python errors raised.
- `seqs.dfy`: `unique()`, filtering, lexicographic string order, and a
  stable `sorted`.
- `strings.dfy`: `in` on strings, `str.replace`, `split`/`join` on one
  character, and `os.path.basename`.
- `sums.dfy`: grouped sums and the regrouping law.

## Model

| member | source | states |
|---|---|---|
| StudyStructure.PathsTotal | vanilla/study_structure.py:20-34 | every enum member has an entry in the path dictionary, so `get_path` never raises |
| StudyStructure.GetPath | vanilla/study_structure.py:20-34 | the path is one of the dictionary's values, non-empty, and neither starts nor ends with '/' |
| StudyStructure.ToString | vanilla/study_structure.py:17-18 | `str(member)` is the member's path |
| StudyStructure.GetPathInjective | vanilla/study_structure.py:4-34 | different members have different folders |
| StudyStructure.DvcLayout | vanilla/study_structure.py:21-33 | exactly the seven members TMP..SIM_RUNS live one level below `dvc/`; the other four are single path segments |
| ScenarioSetup.NameFromPath | mesqual-study-01/scripts/setup_study_manager.py:23-24 | the name is no longer than the basename, and equals it when the basename holds no '.nc' |
| ScenarioSetup.NameOfNetworkFile | mesqual-study-01/scripts/setup_study_manager.py:23-24 | `dir/stem.nc` is named `stem` for any directory, when the stem holds neither '.nc' nor '/' |
| ScenarioSetup.AttributesFromName | mesqual-study-01/scripts/setup_study_manager.py:27-33 | no '_' gives no attributes; two or more '_' raise the unpacking ValueError, and only then; one '_' gives `res_tech` and `scaling_factor`, which rejoined by '_' are the name |
| ScenarioSetup.ScenarioOf | mesqual-study-01/scripts/setup_study_manager.py:36-40 | a dataset keeps its path and name; it fails exactly when the name's attributes fail |
| ScenarioSetup.ScenariosOf | mesqual-study-01/scripts/setup_study_manager.py:49-52 | the list succeeds iff every file does; then scenario i is file i's; otherwise the error is that of the first failing file |
| ScenarioSetup.SortedPaths | mesqual-study-01/scripts/setup_study_manager.py:46 | the files in ascending string order, as a permutation of the glob result |
| ScenarioSetup.Scenarios | mesqual-study-01/scripts/setup_study_manager.py:46-52 | one scenario per file, in sorted path order |
| ScenarioSetup.Comparisons | mesqual-study-01/scripts/setup_study_manager.py:53 | at most one pair per file, each against 'base'; a name is compared iff some file not ending in 'base.nc' has that name |
| ScenarioSetup.ComparisonsAppend | mesqual-study-01/scripts/setup_study_manager.py:53 | the comparisons of two runs of files are those of the first run followed by those of the second, so the list follows the file order |
| ScenarioSetup.ComparisonsOfOne | mesqual-study-01/scripts/setup_study_manager.py:53 | a single file gives `(name, 'base')` unless it ends in 'base.nc', when it gives nothing |
| ScenarioSetup.StudyLists | mesqual-study-01/scripts/setup_study_manager.py:43-56 | the study is built iff every scenario is, with the comparisons taken over the sorted files |
| ScenarioSetup.ComparisonsNameScenarios | mesqual-study-01/scripts/setup_study_manager.py:49-53 | every compared name is the name of one of the study's scenarios |
| ScenarioSetup.BaseNotCompared | mesqual-study-01/scripts/setup_study_manager.py:53 | the base file's name is not compared with 'base' when only 'base.nc' files carry it |
| StudyDatabase.FirstComponent | studies/study_02_pypsa_eur_example/src/study_database.py:9 | `flag.split('.')[0]`: a '.'-free prefix of the flag, the whole flag when it has no '.', and otherwise followed by the first '.' |
| StudyDatabase.StoreAfterSet | studies/study_02_pypsa_eur_example/src/study_database.py:33-35 | a custom flag's value is stored under its key and every other key is unchanged; a non-custom flag leaves the store as it was |
| StudyDatabase.NonCustomNeverUpToDate | studies/study_02_pypsa_eur_example/src/study_database.py:33-46 | a non-custom flag is never reported up to date, not even right after `set` |
| StudyDatabase.SetThenUpToDate | studies/study_02_pypsa_eur_example/src/study_database.py:33-46 | a custom key is up to date right after `set`, and setting it does not change any other key's answer |
| StudyDatabase.AttributeFlagsAreNotCustom | studies/study_02_pypsa_eur_example/src/study_database.py:8-14 | a flag whose first component is a network attribute is not custom, whatever follows the first '.' |
| StudyDatabase.Database.Set | studies/study_02_pypsa_eur_example/src/study_database.py:16-35 | the store becomes `StoreAfterSet` of the old store |
| StudyDatabase.Database.KeyIsUpToDate | studies/study_02_pypsa_eur_example/src/study_database.py:37-46 | true iff the flag is custom and the store holds the key |
| ControlAreas.ChainIsExpected | mesqual-study-01/non_versioned/_tmp/control_areas.py:6-92 | the seven statements give each row the TSO of a direct priority statement (TenneT names, amprion names, amprion states, eastern states, TransnetBW names, Baden-Württemberg, default TenneT) and change nothing else |
| ControlAreas.TenneTListWins | mesqual-study-01/non_versioned/_tmp/control_areas.py:75-90 | a region on the final TenneT list is TenneT whatever its state |
| ControlAreas.LippeIsTenneT | mesqual-study-01/non_versioned/_tmp/control_areas.py:38-90 | 'Kreis Lippe' in North Rhine-Westphalia is TenneT, while 'Kreis Soest' there is amprion |
| ControlAreas.DefaultIsTenneT | mesqual-study-01/non_versioned/_tmp/control_areas.py:7 | a row no later statement selects keeps the default TenneT |
| ControlAreas.BadenWuerttembergIsTransnetBW | mesqual-study-01/non_versioned/_tmp/control_areas.py:8-11 | a Baden-Württemberg region on no amprion or TenneT list goes to TransnetBW |
| ControlAreas.EasternStatesAreFiftyHertz | mesqual-study-01/non_versioned/_tmp/control_areas.py:27-36 | a region in one of the seven eastern states and on no amprion or TenneT list goes to 50Hertz |
| ControlAreas.ChainIdempotent | mesqual-study-01/non_versioned/_tmp/control_areas.py:6-92 | the TSO depends only on name and state, and running the chain twice equals running it once |
| ControlAreas.ApplyRuleToColumn | mesqual-study-01/non_versioned/_tmp/control_areas.py:8-11 | one statement rewrites every row by its rule and nothing else |
| ControlAreas.GetRegionsWithTso | mesqual-study-01/non_versioned/_tmp/control_areas.py:6-92 | after the chain every region carries the TSO of the direct statement, and its other columns are unchanged |
| ControlAreas.NoneQualifies | mesqual-study-01/non_versioned/_tmp/control_areas.py:124-129 | a region no state polygon contains or covers by more than 10% keeps its initial state |
| ControlAreas.LastQualifyingIsLast | mesqual-study-01/non_versioned/_tmp/control_areas.py:124-129 | a region gets the name of the last qualifying state polygon in file order |
| ControlAreas.MapRegionsToStates | mesqual-study-01/non_versioned/_tmp/control_areas.py:122-129 | the nested loop sets each region's state to the last qualifying polygon's name, starting from its current state, and changes nothing else |
| ControlAreas.PatchBerlinHamburg | mesqual-study-01/non_versioned/_tmp/control_areas.py:130-131 | rows 401 and 402 get Berlin and Hamburg; all other rows are unchanged |
| ControlAreas.PrepareControlAreas | mesqual-study-01/non_versioned/_tmp/control_areas.py:95-133 | a missing region file raises NameError naming it before the state file is checked; a missing state file raises NameError naming that file; otherwise the states are reset to 0, then mapped, patched and classified |
| ControlAreas.PreparedRows | mesqual-study-01/non_versioned/_tmp/control_areas.py:95-133 | every output row keeps its id and name and has one of the four TSO labels, the one its final state and name call for; rows 401/402 are Berlin/Hamburg |
| BusControlAreas.IdxMin | mesqual-study-01/src/study_specific_model_interpreters.py:67-68 | the position of the first smallest distance |
| BusControlAreas.NearestArea | mesqual-study-01/src/study_specific_model_interpreters.py:58-71 | a bus inside an area keeps that area; otherwise it gets an area at minimal distance, the first one on ties |
| BusControlAreas.AssignControlAreas | mesqual-study-01/src/study_specific_model_interpreters.py:51-73 | the fetch succeeds iff there are areas or no bus lies outside all of them; then every bus gets its containing or nearest area, and otherwise the rows keep the join's result |
| ControlAreaPrice.PriceLoad | mesqual-study-01/src/study_specific_variable_interpreters.py:31 | `multiply(..., fill_value=0)` has a column for every bus with a price or a load |
| ControlAreaPrice.Divide | mesqual-study-01/src/study_specific_variable_interpreters.py:35 | one entry per area on either side; a value exactly where both sides have the area and the load is non-zero, and that value times the load is the numerator |
| ControlAreaPrice.DenominatorIsAreaLoad | mesqual-study-01/src/study_specific_variable_interpreters.py:24-29 | the per-area load from the two groupings is the sum of the loads whose bus is in the area, and every area with non-zero load is present |
| ControlAreaPrice.NumeratorIsAreaPriceLoad | mesqual-study-01/src/study_specific_variable_interpreters.py:24-33 | the per-area numerator is the sum of price(bus(l)) * load(l) over the area's loads |
| ControlAreaPrice.NumeratorCoversDenominator | mesqual-study-01/src/study_specific_variable_interpreters.py:28-33 | every area of the denominator is an area of the numerator |
| ControlAreaPrice.VolWeightedPriceIsWeightedMean | mesqual-study-01/src/study_specific_variable_interpreters.py:18-36 | an area has a price iff its load is non-zero, and the price is the demand-weighted mean of its bus prices |
| ControlAreaPrice.UniformPrice | mesqual-study-01/src/study_specific_variable_interpreters.py:18-36 | when all of an area's loads see price p, the area's price is p |
| ControlAreaPrice.PriceIsLocal | mesqual-study-01/src/study_specific_variable_interpreters.py:18-36 | an area's price reads only the prices of buses in that area |
| ControlAreaPrice.UnpricedLoad | mesqual-study-01/src/study_specific_variable_interpreters.py:31 | a load at a bus without a price column adds to the area's load but not to its numerator (the fill value 0) |
| Sums.GroupBySum | mesqual-study-01/src/study_specific_variable_interpreters.py:27 | one entry for each group some column belongs to, holding that group's sum |
| Sums.Regroup | mesqual-study-01/src/study_specific_variable_interpreters.py:27-29 | grouping columns, weighting the group sums and adding them equals weighting each column by its group |
| Sums.GroupingConservesTotal | mesqual-study-01/src/study_specific_variable_interpreters.py:27 | the group sums add up to the total of the columns that have a group |
| NetworkTables.CountryColumn | mesqual-study-02/src/study_interpreters.py:37 | the `country` column, row by row |
| NetworkTables.ConcatBranches | mesqual-study-02/src/study_interpreters.py:68-70 | the concatenation of lines, links and transformers; ValueError iff some name occurs twice |
| NetworkTables.ConcatFailsIffOverlap | mesqual-study-02/src/study_interpreters.py:68-70 | for tables with unique indexes, the check fails iff two of the three tables share a name |
| NetworkTables.BusLoads | mesqual-study-02/src/study_interpreters.py:114-118 | one column per bus that has a load, each bus once |
| NetworkTables.BusLoadValue | mesqual-study-02/src/study_interpreters.py:114-118 | each bus's value is the sum of the loads at that bus, 0 for a bus without loads |
| NetworkTables.BusLoadsConserveTotal | mesqual-study-02/src/study_interpreters.py:114-118 | when every load has a bus, summing per bus keeps the snapshot's total load |
| NetworkTables.BranchesPRequired | mesqual-study-02/src/study_interpreters.py:195-196 | a flag is required iff it is `<class>_t.p<n>` for a merged class and port 0 or 1 |
| NetworkTables.BranchesPRequiredIsSix | mesqual-study-02/src/study_interpreters.py:189-196 | the requirement is exactly the six flags lines/links/transformers by ports 0/1 |
| NetworkTables.FetchedFlags | mesqual-study-02/src/study_interpreters.py:198-204 | one flag per merged class, at the port named by the flag's last character |
| NetworkTables.FetchedFlagsDeclared | mesqual-study-02/src/study_interpreters.py:191-204 | for both accepted flags, every flag fetched is a declared requirement |
| NetworkTables.ConcatColumns | mesqual-study-02/src/study_interpreters.py:200-206 | the columns of lines, then links, then transformers, unchanged |
| Study02Interpreters.ElectricityBuses | mesqual-study-02/src/study_interpreters.py:35 | exactly the buses whose unit is 'MWh_el' |
| Study02Interpreters.ElectricityBusesInOrder | mesqual-study-02/src/study_interpreters.py:35 | the mask keeps rows in table order: the selection of a concatenation is the selection of each part in turn, and one row is kept iff its unit is 'MWh_el' |
| Study02Interpreters.Countries | mesqual-study-02/src/study_interpreters.py:34-37 | each country of an electricity bus once, in order of first appearance among the electricity buses |
| Study02Interpreters.CountriesInBusOrder | mesqual-study-02/src/study_interpreters.py:34-37 | measured against the bus table itself: an electricity bus before the first electricity bus of another country has its country listed earlier |
| Study02Interpreters.Branches | mesqual-study-02/src/study_interpreters.py:64-73 | ValueError iff a name repeats among all three tables; otherwise exactly the AC and DC rows, those of the lines, then of the links, then of the transformers, each in table order |
| Study02Interpreters.DuplicateCheckedBeforeFilter | mesqual-study-02/src/study_interpreters.py:68-72 | a clash between two rows the carrier filter would drop still raises |
| Study02Interpreters.SelectedBuses | mesqual-study-02/src/study_interpreters.py:133-141 | a bus is used iff it is an electricity bus with both a price and a load column |
| Study02Interpreters.NetPositionDispatch | mesqual-study-02/src/study_interpreters.py:178-185 | a trade-balance flag returns the trade balance; otherwise a net-position flag returns the net position; any other flag raises NotImplementedError |
| Study02Interpreters.TradeBalanceFlagDispatches | mesqual-study-02/src/study_interpreters.py:178-179 | any flag ending in 'trade_balance_per_partner' returns the trade balance |
| Study02Interpreters.NetPositionFlagDispatches | mesqual-study-02/src/study_interpreters.py:181-183 | a flag ending in 'net_position' with a short prefix returns the net position |
| Study02Interpreters.AcceptedFlagsDispatch | mesqual-study-02/src/study_interpreters.py:152-185 | neither accepted flag raises |
| Study03Interpreters.Countries | studies/study_03_pypsa_eur_example/src/specific_model_interpreters.py:30 | each bus country once, in order of first appearance |
| Study03Interpreters.SearchName | studies/study_03_pypsa_eur_example/src/specific_model_interpreters.py:31 | the search name is never shorter than the code; a two-letter code is searched as 'NOR' if it is 'NO' and as itself otherwise |
| Study03Interpreters.SearchNameAtLeftmost | studies/study_03_pypsa_eur_example/src/specific_model_interpreters.py:31 | the leftmost 'NO' becomes 'NOR', the text before it is kept, and the replacement resumes after it |
| Study03Interpreters.SearchNameKeepsOthers | studies/study_03_pypsa_eur_example/src/specific_model_interpreters.py:31 | a code without 'NO' is searched as it is |
| Study03Interpreters.SearchNameOfNorway | studies/study_03_pypsa_eur_example/src/specific_model_interpreters.py:31 | 'NO' is searched as 'NOR' |
| Study03Interpreters.CountryTable | studies/study_03_pypsa_eur_example/src/specific_model_interpreters.py:29-33 | one row per country, indexed by the original code and holding the geometry found for its search name |
| Study03Interpreters.BorderFlowsInputs | studies/study_03_pypsa_eur_example/src/specific_variable_interpreters.py:69-99 | `CountryBorderFlows` answers 'country_borders_t.net_flow' and declares only 'branches'; it reads four more flags, all answered by study interpreters except the bus table |
| Study03Interpreters.BordersModelInputs | studies/study_03_pypsa_eur_example/src/specific_model_interpreters.py:56-68 | `CountryBordersModelInterpreter` declares 'country', which no study interpreter answers, and reads 'countries', which it does not declare |
| Study03Interpreters.Branches | studies/study_03_pypsa_eur_example/src/specific_model_interpreters.py:45-53 | ValueError iff a name repeats; otherwise lines, links and transformers in order, with no carrier filter |
| NetposPriceMap.ParseHex | mesqual-study-02/scripts/b_post_processing/d_netpos_price_map.py:175 | `int(s, 16)` succeeds iff `s` is a non-empty run of hex digits, and the value fits in that many digits; otherwise ValueError |
| NetposPriceMap.ParseHexPair | mesqual-study-02/scripts/b_post_processing/d_netpos_price_map.py:175 | two hex digits of either case read as sixteen times the first digit plus the second |
| NetposPriceMap.Channel | mesqual-study-02/scripts/b_post_processing/d_netpos_price_map.py:175 | a parsed two-character channel is below 256 |
| NetposPriceMap.IsDarkInIntegers | mesqual-study-02/scripts/b_post_processing/d_netpos_price_map.py:176 | the luminance test on reals equals 299r + 587g + 114b < 150000 |
| NetposPriceMap.TextColor | mesqual-study-02/scripts/b_post_processing/d_netpos_price_map.py:173-177 | succeeds iff all three channels parse; the result is '#F2F2F2' exactly on a dark colour and '#194D6C' otherwise |
| NetposPriceMap.Hex2RoundTrip | mesqual-study-02/scripts/b_post_processing/d_netpos_price_map.py:175 | parsing a channel written as two hex digits gives the channel back |
| NetposPriceMap.TextColorOfRgb | mesqual-study-02/scripts/b_post_processing/d_netpos_price_map.py:173-177 | for every '#RRGGBB' colour the text colour follows the integer luminance test |
| NetposPriceMap.TextColorOfDigits | mesqual-study-02/scripts/b_post_processing/d_netpos_price_map.py:173-177 | for any seven-character colour whose last six characters are hex digits of either case, the text colour follows the luminance of the three digit pairs |
| NetposPriceMap.DarkerStaysDark | mesqual-study-02/scripts/b_post_processing/d_netpos_price_map.py:176 | lowering any channel of a dark colour keeps it dark |
| NetposPriceMap.FallbackColorGetsBlueText | mesqual-study-02/scripts/b_post_processing/d_netpos_price_map.py:89 | the NaN fallback '#A2A2A2' gets the dark-blue text |
| NetposPriceMap.GeneratorsForKpi | mesqual-study-02/scripts/b_post_processing/d_netpos_price_map.py:277-289 | price, net-position and flow generators, each iff its substring is the first to match in that order; NotImplementedError otherwise |
| NetposPriceMap.PriceFlagHasPriceGenerators | mesqual-study-02/scripts/b_post_processing/d_netpos_price_map.py:280-281 | the price KPI flag selects the price generators |
| NetposPriceMap.NetPositionFlagHasNetPositionGenerators | mesqual-study-02/scripts/b_post_processing/d_netpos_price_map.py:283-284 | the net-position KPI flag selects the net-position generators |
| NetposPriceMap.FlowFlagHasFlowGenerators | mesqual-study-02/scripts/b_post_processing/d_netpos_price_map.py:286-287 | the border-flow KPI flag selects the flow generators |
| NetposPriceMap.FlowFlagLacksNetPosition | mesqual-study-02/scripts/b_post_processing/d_netpos_price_map.py:283-287 | the flow flag does not contain 'net_position', so it is not caught by the earlier branch |
| NetposPriceMap.WithFlag | mesqual-study-02/scripts/b_post_processing/d_netpos_price_map.py:259-261 | exactly the KPIs with the given flag |
| NetposPriceMap.Aggregation | mesqual-study-02/scripts/b_post_processing/d_netpos_price_map.py:263 | 'mean' without price KPIs, otherwise the aggregation of the first price KPI |
| NetposPriceMap.DatasetGroups | mesqual-study-02/scripts/b_post_processing/d_netpos_price_map.py:265-273 | at most two groups: the price group iff there are price KPIs, the net-position group iff there are net-position KPIs, prices first |
| NetposPriceMap.PriceAndNetPositionDiffer | mesqual-study-02/scripts/b_post_processing/d_netpos_price_map.py:267-272 | a dataset's two groups have different names |
| NetposPriceMap.AllGroups | mesqual-study-02/scripts/b_post_processing/d_netpos_price_map.py:254-273 | at most two groups per dataset; a group occurs iff some dataset produces it |
| NetposPriceMap.CreateKpiGroupsWithNames | mesqual-study-02/scripts/b_post_processing/d_netpos_price_map.py:244-275 | the loop collects every dataset's groups; the result is sorted by name and is a permutation of them |
| NetposPriceMap.BordersToVisualize | mesqual-study-02/scripts/b_post_processing/d_netpos_price_map.py:227-229 | exactly the non-physical borders whose name is alphabetically sorted |
| NetposPriceMap.OneDirectionDrawn | mesqual-study-02/scripts/b_post_processing/d_netpos_price_map.py:228 | of a border's two directions only the sorted one is drawn, and only when non-physical |
| NetposPriceMap.CountryKpiDefinitions | mesqual-study-02/scripts/b_post_processing/d_netpos_price_map.py:35-46 | price and net-position KPIs over all objects with the mean |
| NetposPriceMap.FlowKpiDefinitions | mesqual-study-02/scripts/b_post_processing/d_netpos_price_map.py:48-55 | the border-flow KPI over the borders whose name is alphabetically sorted |
| NetposPriceMap.AddToAll | mesqual-study-02/scripts/b_post_processing/d_netpos_price_map.py:57-61 | every child collection gets the definitions appended, and the number of children is kept |
| NetposPriceMap.StudyKpis.ClearExistingKpis | mesqual-study-02/scripts/b_post_processing/d_netpos_price_map.py:31-33 | every scenario and comparison collection is emptied |
| NetposPriceMap.StudyKpis.AddKpisToStudy | mesqual-study-02/scripts/b_post_processing/d_netpos_price_map.py:57-61 | scenario and comparison collections get their definitions appended |
| NetposPriceMap.StudyKpis.Run | mesqual-study-02/scripts/b_post_processing/d_netpos_price_map.py:21-29 | afterwards every scenario holds exactly the country and flow definitions, and every comparison holds none |

## Left out

- Reading shapefiles and network files, `glob`, writing outputs, and the
  folium rendering are I/O. The model receives their results as inputs.
- Dataset registration in `setup_study_manager.py` (lines 12-20) is
  framework plumbing with no logic of its own.
- Geometry is an input, not computed. That covers polygon containment,
  intersection areas, spatial joins, distances and representative points.
  The overlap test takes the percentage `100 * intersection / area` as
  given, so a region of zero area is not modelled.
- `ControlAreaModelInterpreter.GDF` and the control-area geometry file are
  the source of the area list and distances, which are inputs.
- The framework's calculators are not part of this model. These are
  `AreaPriceCalculator`, `RegionalTradeBalanceCalculator`,
  `AreaBorderModelGenerator` and `BorderFlowCalculator`. The model covers
  the study code around them: the buses selected, the flags declared, and
  the dispatch on the flag. The border table and the border flows of
  study 03 are modelled only through the flags they answer, declare and
  read.
- Floating point: values are exact reals and NaN is `None`. Rounding near
  the luminance threshold 150, `round` in the labels and `np.interp` in
  the colour maps are not modelled.
- The colour map is an input to the text colour. `TextColor` takes the
  colour string it returns.
- NetposPriceMap.ParseHex does not accept the other forms of `int(s, 16)`:
  a sign, surrounding whitespace, '_' separators or a `0x` prefix. Those
  are treated as errors. Such strings do not occur in a two-character
  '#RRGGBB' slice, except a sign or a space.
- pandas orders group keys by sorting. `Sums.GroupBySum` returns a map, so
  the column order of grouped frames is not modelled.
- Only the sjoin's first match is modelled. A bus inside two areas
  (overlapping polygons) would give several joined rows.
- ControlAreas.PatchBerlinHamburg requires at least 403 rows. On a shorter
  table pandas would append rows instead; that is not modelled.
- Duplicate price or load columns within one frame are not modelled. Each
  bus has one column.
- NetposPriceMap.CreateKpiGroupsWithNames sorts by group name only.
  Python's `sorted` on (name, collection) pairs would compare two KPI
  collections when names tie. The stable sort keeps those groups in loop
  order instead.
- Study02Interpreters.NetPositionFlagDispatches: only prefixes shorter
  than 13 characters are covered. A longer prefix can itself contain
  'trade_balance_per_partner'.
- The country price of study 03 hands every bus to the framework's
  calculator. Only the flags it declares are modelled.
- The plotting classes and helpers of the map script are rendering code.
  These are the legends, colour scales, popups and the rest of the folium
  set-up.
