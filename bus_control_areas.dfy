/** The model interpreters of mesqual-study-01: the control-area table and
    the bus table extended with each bus's control area.

    Geometry is an input: for every bus the model is given the area whose
    polygon contains it, if any (the left spatial join), and its distance
    to every area polygon in table order. */
module BusControlAreas {
  import opened Wrappers

  /** `ControlAreaModelInterpreter`: accepts 'control_areas' and needs nothing. */
  const ControlAreasAccepted: set<string> := {"control_areas"}
  const ControlAreasRequired: set<string> := {}

  /** `ScigridDEBusModelInterpreter`: accepts 'buses' and needs 'control_areas'. */
  const BusesAccepted: set<string> := {"buses"}
  const BusesRequired: set<string> := {"control_areas"}

  /** One row of the bus table: its name and its `control_area` column. */
  datatype Bus = Bus(name: string, controlArea: Option<string>)

  /** `Series.idxmin()`: the position of the first smallest value. */
  function IdxMin(ds: seq<real>): (k: nat)
    requires |ds| > 0
    ensures k < |ds|
    ensures forall j :: 0 <= j < |ds| ==> ds[k] <= ds[j]
    ensures forall j :: 0 <= j < k ==> ds[j] > ds[k]
  {
    if |ds| == 1 then 0
    else
      var k := IdxMin(ds[..|ds| - 1]);
      if ds[|ds| - 1] < ds[k] then |ds| - 1 else k
  }

  /** The area the fetch gives a bus: the containing area, or else the
      nearest one, the first in table order on a tie. */
  function NearestArea(inside: Option<string>, areas: seq<string>, dist: seq<real>): (a: string)
    requires |areas| > 0 && |dist| == |areas|
    ensures inside.Some? ==> a == inside.value
    ensures inside.None? ==>
              exists k :: (0 <= k < |areas| && a == areas[k]
                           && (forall j :: 0 <= j < |dist| ==> dist[k] <= dist[j])
                           && (forall j :: 0 <= j < k ==> dist[j] > dist[k]))
  {
    match inside
    case Some(a) => a
    case None => areas[IdxMin(dist)]
  }

  /** `ScigridDEBusModelInterpreter._fetch` after the bus table is read:
      write the spatial join's area into every row, then give every row
      still without an area the nearest area. `idxmin` over an empty area
      table raises `ValueError`; `ok` is false exactly then, and the table
      holds the join result. */
  method AssignControlAreas(buses: array<Bus>, inside: seq<Option<string>>, areas: seq<string>, dist: seq<seq<real>>)
    returns (ok: bool)
    requires |inside| == buses.Length && |dist| == buses.Length
    requires forall i :: 0 <= i < |dist| ==> |dist[i]| == |areas|
    modifies buses
    ensures ok <==> |areas| > 0 || forall i :: 0 <= i < |inside| ==> inside[i].Some?
    ensures ok ==> forall i :: 0 <= i < buses.Length ==>
              buses[i] == old(buses[i]).(controlArea := Some(if |areas| > 0 then NearestArea(inside[i], areas, dist[i]) else inside[i].value))
    ensures !ok ==> forall i :: 0 <= i < buses.Length ==> buses[i] == old(buses[i]).(controlArea := inside[i])
  {
    // The spatial join's result goes into every row.
    var anyMissing := false;
    for i := 0 to buses.Length
      invariant forall k :: 0 <= k < i ==> buses[k] == old(buses[k]).(controlArea := inside[k])
      invariant forall k :: i <= k < buses.Length ==> buses[k] == old(buses[k])
      invariant anyMissing <==> exists k :: 0 <= k < i && inside[k].None?
    {
      buses[i] := buses[i].(controlArea := inside[i]);
      if inside[i].None? {
        anyMissing := true;
      }
    }
    if !anyMissing {
      return true;
    }
    if |areas| == 0 {
      return false;
    }
    // Rows the join left empty get the nearest area.
    for i := 0 to buses.Length
      invariant forall k :: 0 <= k < i ==> buses[k] == old(buses[k]).(controlArea := Some(NearestArea(inside[k], areas, dist[k])))
      invariant forall k :: i <= k < buses.Length ==> buses[k] == old(buses[k]).(controlArea := inside[k])
    {
      if buses[i].controlArea.None? {
        buses[i] := buses[i].(controlArea := Some(areas[IdxMin(dist[i])]));
      }
    }
    return true;
  }
}
