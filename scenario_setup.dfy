/** Scenario naming and the scenario and comparison lists of
    mesqual-study-01/scripts/setup_study_manager.py. Globbing the network
    folder and loading the networks are I/O; the model receives the list of
    `.nc` paths. */
module ScenarioSetup {
  import opened Wrappers
  import opened Seqs
  import opened Strings

  /** `_get_name_from_path`: the final path component with every '.nc' removed. */
  function NameFromPath(path: string): (name: string)
    ensures |name| <= |Basename(path)|
    ensures !Contains(Basename(path), ".nc") ==> name == Basename(path)
  {
    var base := Basename(path);
    ReplaceLength(base, ".nc", "");
    ReplaceAbsent(base, ".nc", "");
    ReplaceAll(base, ".nc", "")
  }

  /** A network file `dir/stem.nc` whose stem holds neither '.nc' nor '/'
      is named by its stem, whatever the directory. */
  lemma NameOfNetworkFile(dir: string, stem: string)
    requires !Contains(stem, ".nc") && '/' !in stem
    ensures NameFromPath(dir + "/" + stem + ".nc") == stem
  {
    assert '/' !in ".nc";
    assert '/' !in stem + ".nc";
    assert dir + "/" + stem + ".nc" == dir + ['/'] + (stem + ".nc");
    BasenameOfChild(dir, stem + ".nc");
    StripSuffix(stem, ".nc");
  }

  /** The basename of `dir/file` is `file` when `file` holds no '/'. */
  lemma BasenameOfChild(dir: string, file: string)
    requires '/' !in file
    ensures Basename(dir + ['/'] + file) == file
  {
    var path := dir + ['/'] + file;
    var b := Basename(path);
    assert path[|path| - |file|..] == file;
    assert path[|path| - |file| - 1] == '/';
    if |b| == |file| {
      assert b == path[|path| - |b|..];
    }
  }

  /** Removing '.nc' from `stem + ".nc"` leaves the stem when the stem
      holds no '.nc': no occurrence can straddle the two. */
  lemma {:induction false} StripSuffix(stem: string, suffix: string)
    requires suffix == ".nc" && !Contains(stem, suffix)
    ensures ReplaceAll(stem + suffix, suffix, "") == stem
    decreases |stem|
  {
    var s := stem + suffix;
    if |stem| == 0 {
      assert s[..|suffix|] == suffix;
      assert s[|suffix|..] == "";
    } else {
      if |stem| >= |suffix| && s[..|suffix|] == suffix {
        assert stem[..|suffix|] == suffix;
        ContainsPrefix(stem, suffix);
        assert false;
      }
      NotContainsTail(stem, suffix);
      assert s[1..] == stem[1..] + suffix;
      StripSuffix(stem[1..], suffix);
      assert stem == [stem[0]] + stem[1..];
    }
  }

  const UnpackMessage: string := "too many values to unpack (expected 2)"

  /** `_get_attributes_from_name`: a name without '_' has no attributes; one
      with a '_' is unpacked into `res_tech` and `scaling_factor`, which
      fails unless there is exactly one '_'. */
  function AttributesFromName(name: string): (r: Result<map<string, string>>)
    ensures '_' !in name ==> r == Success(map[])
    ensures r.Failure? <==> Count(name, '_') >= 2
    ensures r.Failure? ==> r.error == ValueError(UnpackMessage)
    ensures Count(name, '_') == 1 ==>
              r.Success? && r.value.Keys == {"res_tech", "scaling_factor"}
              && '_' !in r.value["res_tech"] && '_' !in r.value["scaling_factor"]
              && r.value["res_tech"] + "_" + r.value["scaling_factor"] == name
  {
    if '_' !in name then Success(map[])
    else
      var parts := Split(name, '_');
      if |parts| != 2 then Failure(ValueError(UnpackMessage))
      else
        assert Join(parts, '_') == parts[0] + ['_'] + parts[1];
        Success(map["res_tech" := parts[0], "scaling_factor" := parts[1]])
  }

  /** One scenario dataset: its network file, name and attributes. */
  datatype Scenario = Scenario(path: string, name: string, attributes: map<string, string>)

  /** The scenario of one file, or the error its name raises. */
  function ScenarioOf(path: string): (r: Result<Scenario>)
    ensures r.Success? ==> r.value.path == path && r.value.name == NameFromPath(path)
    ensures r.Failure? <==> AttributesFromName(NameFromPath(path)).Failure?
  {
    var name := NameFromPath(path);
    match AttributesFromName(name)
    case Failure(e) => Failure(e)
    case Success(attrs) => Success(Scenario(path, name, attrs))
  }

  /** The list comprehension over the files: the first failing name aborts it. */
  function ScenariosOf(paths: seq<string>): (r: Result<seq<Scenario>>)
    ensures r.Success? <==> forall i :: 0 <= i < |paths| ==> ScenarioOf(paths[i]).Success?
    ensures r.Success? ==> |r.value| == |paths| && forall i :: 0 <= i < |paths| ==> r.value[i] == ScenarioOf(paths[i]).value
    ensures r.Failure? ==> exists i :: 0 <= i < |paths| && ScenarioOf(paths[i]) == Failure(r.error)
                                       && forall j :: 0 <= j < i ==> ScenarioOf(paths[j]).Success?
  {
    MapAll(paths, ScenarioOf)
  }

  /** `sorted(glob(...))`: the paths in ascending string order. */
  function SortedPaths(paths: seq<string>): (r: seq<string>)
    ensures forall i, j :: 0 <= i < j < |r| ==> LexLe(r[i], r[j])
    ensures multiset(r) == multiset(paths)
  {
    SortBy(paths, Identity)
  }

  function Identity(p: string): string { p }

  /** The scenarios: one per file, in sorted path order. */
  function Scenarios(paths: seq<string>): (r: Result<seq<Scenario>>)
    ensures r.Success? ==> |r.value| == |paths|
    ensures r.Success? ==> forall i :: 0 <= i < |r.value| ==> r.value[i].path == SortedPaths(paths)[i]
    ensures r.Success? ==> forall i, j :: 0 <= i < j < |r.value| ==> LexLe(r.value[i].path, r.value[j].path)
  {
    ScenariosOf(SortedPaths(paths))
  }

  /** The comparisons: `(name, 'base')` for every file not ending in
      'base.nc', in the given order. */
  function Comparisons(paths: seq<string>): (r: seq<(string, string)>)
    ensures |r| <= |paths|
    ensures forall c :: c in r ==> c.1 == "base"
    ensures forall n :: (n, "base") in r <==> exists i :: 0 <= i < |paths| && !EndsWith(paths[i], "base.nc") && NameFromPath(paths[i]) == n
  {
    if paths == [] then []
    else
      var rest := Comparisons(paths[1..]);
      assert forall i :: 1 <= i < |paths| ==> paths[i] == paths[1..][i - 1];
      (if EndsWith(paths[0], "base.nc") then [] else [(NameFromPath(paths[0]), "base")]) + rest
  }

  /** The comparisons of a concatenation are those of each part, in order:
      together with `ComparisonsOfOne`, the list follows the file order. */
  lemma {:induction false} ComparisonsAppend(a: seq<string>, b: seq<string>)
    ensures Comparisons(a + b) == Comparisons(a) + Comparisons(b)
  {
    if a == [] {
      assert a + b == b;
    } else {
      assert (a + b)[0] == a[0] && (a + b)[1..] == a[1..] + b;
      ComparisonsAppend(a[1..], b);
    }
  }

  /** A single file is compared with 'base' unless it is the base file. */
  lemma ComparisonsOfOne(p: string)
    ensures Comparisons([p]) == if EndsWith(p, "base.nc") then [] else [(NameFromPath(p), "base")]
  {
    assert [p][1..] == [];
  }

  /** `get_scigrid_de_study_manager`: the scenarios are built first, so a
      bad name raises before any comparison is listed. */
  function StudyLists(paths: seq<string>): (r: Result<(seq<Scenario>, seq<(string, string)>)>)
    ensures r.Success? <==> Scenarios(paths).Success?
    ensures r.Success? ==> r.value.0 == Scenarios(paths).value && r.value.1 == Comparisons(SortedPaths(paths))
  {
    match Scenarios(paths)
    case Failure(e) => Failure(e)
    case Success(scenarios) => Success((scenarios, Comparisons(SortedPaths(paths))))
  }

  /** Every comparison names a scenario of the same study: its name is the
      name of one of the files the scenarios were built from. */
  lemma ComparisonsNameScenarios(paths: seq<string>, n: string)
    requires StudyLists(paths).Success?
    requires (n, "base") in StudyLists(paths).value.1
    ensures exists s :: s in StudyLists(paths).value.0 && s.name == n
  {
    var sorted := SortedPaths(paths);
    var i :| 0 <= i < |sorted| && !EndsWith(sorted[i], "base.nc") && NameFromPath(sorted[i]) == n;
    var scenarios := StudyLists(paths).value.0;
    assert scenarios[i] == ScenarioOf(sorted[i]).value;
    assert scenarios[i] in scenarios;
  }

  /** The file of the base scenario, and any other file of the same name,
      is not compared with 'base'. */
  lemma BaseNotCompared(paths: seq<string>, i: nat)
    requires i < |paths| && EndsWith(paths[i], "base.nc")
    requires forall j :: 0 <= j < |paths| && NameFromPath(paths[j]) == NameFromPath(paths[i]) ==> EndsWith(paths[j], "base.nc")
    ensures (NameFromPath(paths[i]), "base") !in Comparisons(paths)
  {
  }
}
