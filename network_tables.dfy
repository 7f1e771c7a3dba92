/** Table plumbing shared by the PyPSA interpreters of studies 02 and 03:
    the branch table built from lines, links and transformers, the load per
    bus, and the flags of `BranchesP`. */
module NetworkTables {
  import opened Wrappers
  import opened Seqs
  import opened Sums

  // ---------------------------------------------------------------------------
  // Bus table
  // ---------------------------------------------------------------------------

  /** One row of the bus table: its index, `unit` and `country` columns. */
  datatype BusRecord = BusRecord(name: string, unit: string, country: string)

  /** The `country` column. */
  function CountryColumn(buses: seq<BusRecord>): (cs: seq<string>)
    ensures |cs| == |buses|
    ensures forall i :: 0 <= i < |buses| ==> cs[i] == buses[i].country
  {
    if buses == [] then [] else [buses[0].country] + CountryColumn(buses[1..])
  }

  // ---------------------------------------------------------------------------
  // Branch table (`TransmissionModelInterpreter`)
  // ---------------------------------------------------------------------------

  /** One row of a line, link or transformer table: its index and `carrier`. */
  datatype Branch = Branch(name: string, carrier: string)

  /** The index of a table. */
  function Names(rows: seq<Branch>): (ns: seq<string>)
    ensures |ns| == |rows|
    ensures forall i :: 0 <= i < |rows| ==> ns[i] == rows[i].name
  {
    if rows == [] then [] else [rows[0].name] + Names(rows[1..])
  }

  lemma NamesAppend(a: seq<Branch>, b: seq<Branch>)
    ensures Names(a + b) == Names(a) + Names(b)
  {
    assert forall i :: 0 <= i < |a + b| ==> Names(a + b)[i] == (Names(a) + Names(b))[i];
  }

  const OverlapMessage: string := "Overlapping names between lines, links, and trafos. Not supported"

  /** `pd.concat([lines, links, trafos])`, refused with `ValueError` when
      the concatenated index holds a name twice. */
  function ConcatBranches(lines: seq<Branch>, links: seq<Branch>, trafos: seq<Branch>): (r: Result<seq<Branch>>)
    ensures r.Failure? <==> !NoDuplicates(Names(lines + links + trafos))
    ensures r.Failure? ==> r.error == ValueError(OverlapMessage)
    ensures r.Success? ==> r.value == lines + links + trafos
  {
    var all := lines + links + trafos;
    if NoDuplicates(Names(all)) then Success(all) else Failure(ValueError(OverlapMessage))
  }

  /** Two tables share a name. */
  predicate Overlap(a: seq<Branch>, b: seq<Branch>)
  {
    exists n :: n in Names(a) && n in Names(b)
  }

  /** For tables whose own indexes are unique (as PyPSA keeps them), the
      concatenation is refused exactly when two of the tables share a name. */
  lemma ConcatFailsIffOverlap(lines: seq<Branch>, links: seq<Branch>, trafos: seq<Branch>)
    requires NoDuplicates(Names(lines)) && NoDuplicates(Names(links)) && NoDuplicates(Names(trafos))
    ensures ConcatBranches(lines, links, trafos).Failure? <==>
              Overlap(lines, links) || Overlap(lines, trafos) || Overlap(links, trafos)
  {
    NamesAppend(lines, links);
    NamesAppend(lines + links, trafos);
    NoDuplicatesAppend(Names(lines), Names(links));
    NoDuplicatesAppend(Names(lines) + Names(links), Names(trafos));
  }

  // ---------------------------------------------------------------------------
  // Load per bus (`BusLoads`)
  // ---------------------------------------------------------------------------

  /** `prepend_model_prop_levels(loads_t, loads, 'bus')` then
      `groupby(level='bus').sum()`: one column per bus that has a load,
      holding the sum of its loads. `loadBus` is the `bus` column of the
      load table. */
  function BusLoads(loads: Row<string>, loadBus: map<string, string>): (r: Row<string>)
    ensures NoDuplicates(Columns(r))
    ensures forall b :: b in Columns(r) <==> exists i :: 0 <= i < |loads| && loads[i].name in loadBus && loadBus[loads[i].name] == b
  {
    GroupedRow(loads, loadBus, GroupKeys(loads, loadBus))
  }

  /** Every bus's value is the sum of the loads attached to it (0 for a bus
      without a column). */
  lemma BusLoadValue(loads: Row<string>, loadBus: map<string, string>, b: string)
    ensures ValueOr0(BusLoads(loads, loadBus), b) == GroupSum(loads, loadBus, b)
  {
    var gs := GroupKeys(loads, loadBus);
    var r := BusLoads(loads, loadBus);
    if b in gs {
      var i := FirstIndex(gs, b);
      ValueOr0OfColumn(r, i);
    } else {
      ValueOr0Absent(r, b);
      GroupSumAbsent(loads, loadBus, b);
    }
  }

  /** Summing per bus conserves the total load of every snapshot. */
  lemma BusLoadsConserveTotal(loads: Row<string>, loadBus: map<string, string>)
    requires forall i :: 0 <= i < |loads| ==> loads[i].name in loadBus
    ensures Total(BusLoads(loads, loadBus)) == Total(loads)
  {
    GroupingConservesTotal(loads, loadBus);
    KeyedTotalOfKeyedRow(loads, loadBus);
  }

  const BusLoadsAccepted: set<string> := {"buses_t.load_p"}
  const BusLoadsRequired: set<string> := {"loads_t.p", "loads"}

  // ---------------------------------------------------------------------------
  // Branch flows (`BranchesP`)
  // ---------------------------------------------------------------------------

  /** `_object_classes_to_merge`, in concatenation order. */
  const BranchClasses: seq<string> := ["lines", "links", "transformers"]

  const BranchesPAccepted: set<string> := {"branches_t.p0", "branches_t.p1"}

  /** The flag of one class's flow at one port. */
  function PortFlag(cls: string, port: char): (f: string)
    ensures |f| == |cls| + 5 && f[..|cls|] == cls && f[|f| - 1] == port
  {
    cls + "_t.p" + [port]
  }

  /** `_required_flags_for_flag`: the set comprehension over classes and ports 0, 1. */
  function BranchesPRequired(): (fs: set<string>)
    ensures forall f :: f in fs <==> exists c, n :: c in BranchClasses && n in "01" && f == PortFlag(c, n)
  {
    set c, n | c in BranchClasses && n in "01" :: PortFlag(c, n)
  }

  /** The comprehension yields exactly the six class-port flags. */
  lemma BranchesPRequiredIsSix()
    ensures BranchesPRequired() == {
      "lines_t.p0", "lines_t.p1", "links_t.p0", "links_t.p1", "transformers_t.p0", "transformers_t.p1"}
  {
    var six := {"lines_t.p0", "lines_t.p1", "links_t.p0", "links_t.p1", "transformers_t.p0", "transformers_t.p1"};
    assert PortFlag("lines", '0') == "lines_t.p0";
    assert PortFlag("lines", '1') == "lines_t.p1";
    assert PortFlag("links", '0') == "links_t.p0";
    assert PortFlag("links", '1') == "links_t.p1";
    assert PortFlag("transformers", '0') == "transformers_t.p0";
    assert PortFlag("transformers", '1') == "transformers_t.p1";
    assert BranchesPRequired() == six;
  }

  /** The flags `_fetch` reads for `flag`: each class at the port named by
      the flag's last character, in class order. */
  function FetchedFlags(flag: string): (fs: seq<string>)
    requires |flag| > 0
    ensures |fs| == |BranchClasses|
    ensures forall i :: 0 <= i < |fs| ==> fs[i] == PortFlag(BranchClasses[i], flag[|flag| - 1])
  {
    seq(|BranchClasses|, i requires 0 <= i < |BranchClasses| => PortFlag(BranchClasses[i], flag[|flag| - 1]))
  }

  /** For both accepted flags, every flag read is one of the declared ones. */
  lemma FetchedFlagsDeclared(flag: string)
    requires flag in BranchesPAccepted
    ensures forall i :: 0 <= i < |FetchedFlags(flag)| ==> FetchedFlags(flag)[i] in BranchesPRequired()
  {
    var port := flag[|flag| - 1];
    assert port in "01";
    forall i | 0 <= i < |FetchedFlags(flag)| ensures FetchedFlags(flag)[i] in BranchesPRequired() {
      assert BranchClasses[i] in BranchClasses;
    }
  }

  /** `pd.concat(..., axis=1)` of the three fetched flow frames: the columns
      of lines, then links, then transformers. */
  function ConcatColumns(linesP: Row<string>, linksP: Row<string>, trafosP: Row<string>): (r: Row<string>)
    ensures |r| == |linesP| + |linksP| + |trafosP|
    ensures r[..|linesP|] == linesP
    ensures r[|linesP|..|linesP| + |linksP|] == linksP
    ensures r[|linesP| + |linksP|..] == trafosP
  {
    linesP + linksP + trafosP
  }
}
