/** The folder layout every study follows (`StudyFolder` in vanilla/study_structure.py). */
module StudyStructure {

  /** The eleven enum members, in declaration order. */
  datatype StudyFolder =
    | Data | Tmp | Docs | Input | Output | Presentations | Resources | SimRuns
    | Notebooks | Scripts | Src

  /** The dictionary that `get_path` builds: member to path relative to the study root. */
  const Paths: map<StudyFolder, string> := map[
    Data := "data",
    Tmp := "dvc/_tmp",
    Docs := "dvc/docs",
    Input := "dvc/input",
    Output := "dvc/output",
    Presentations := "dvc/presentations",
    Resources := "dvc/resources",
    SimRuns := "dvc/sim_runs",
    Notebooks := "notebooks",
    Scripts := "scripts",
    Src := "src"
  ]

  /** Every member has an entry, so `paths[self]` never raises `KeyError`. */
  lemma PathsTotal(f: StudyFolder)
    ensures f in Paths
  {
  }

  /** `StudyFolder.get_path`. */
  function GetPath(f: StudyFolder): (p: string)
    ensures p in Paths.Values
    ensures |p| > 0 && p[0] != '/' && p[|p| - 1] != '/'
  {
    PathsTotal(f);
    Paths[f]
  }

  /** `str(member)`: the member's path. */
  function ToString(f: StudyFolder): (s: string)
    ensures GetPath(f) == s
  {
    GetPath(f)
  }

  /** Members stored under the version-controlled data folder `dvc/`. */
  predicate UnderDvc(f: StudyFolder)
  {
    f in {Tmp, Docs, Input, Output, Presentations, Resources, SimRuns}
  }

  /** Different members have different folders. */
  lemma GetPathInjective(f: StudyFolder, g: StudyFolder)
    requires f != g
    ensures GetPath(f) != GetPath(g)
  {
  }

  /** Seven members live under `dvc/`; the other four are a single path segment. */
  lemma DvcLayout(f: StudyFolder)
    ensures UnderDvc(f) <==> (|GetPath(f)| > 4 && GetPath(f)[..4] == "dvc/")
    ensures UnderDvc(f) ==> '/' !in GetPath(f)[4..]
    ensures !UnderDvc(f) ==> '/' !in GetPath(f)
  {
    var p := GetPath(f);
    match f
    case Data => assert p == "data";
    case Tmp => assert p[4..] == "_tmp";
    case Docs => assert p[4..] == "docs";
    case Input => assert p[4..] == "input";
    case Output => assert p[4..] == "output";
    case Presentations => assert p[4..] == "presentations";
    case Resources => assert p[4..] == "resources";
    case SimRuns => assert p[4..] == "sim_runs";
    case Notebooks => assert p == "notebooks";
    case Scripts => assert p == "scripts";
    case Src => assert p == "src";
  }
}
