/** The demand-volume-weighted marginal price per control area of
    mesqual-study-01 (`ControlAreaVolWeightedPrice`), at one snapshot.

    Inputs: the price row (one column per bus), the load row (one column
    per load), the `bus` property of each load and the `control_area`
    property of each bus. The interpreter
      1. sums the loads per bus (`BusLoads` of the network tables),
      2. sums the bus loads per control area (the denominator),
      3. multiplies prices and bus loads column by column, a column missing
         on one side counting as 0,
      4. sums those products per control area (the numerator),
      5. divides numerator by denominator area by area.
    The reference below states the same quantity directly over the loads:
    Σ price(bus(l)) · load(l) / Σ load(l) over the loads `l` of the area. */
module ControlAreaPrice {
  import opened Wrappers
  import opened Seqs
  import opened Sums
  import opened NetworkTables

  /** The flag the interpreter accepts. */
  const AcceptedFlags: set<string> := {"control_areas_t.vol_weighted_marginal_price"}

  /** The flags it declares it needs for that flag. */
  const RequiredFlags: set<string> := {"buses_t.marginal_price", "loads_t.p"}

  // ---------------------------------------------------------------------------
  // The pipeline, step by step
  // ---------------------------------------------------------------------------

  /** Step 3 (`multiply(..., fill_value=0)`): one column per bus that has a
      price or a load, holding price times load with a missing side as 0. */
  function PriceLoad(prices: Row<string>, loadPerBus: Row<string>): (r: Row<string>)
    ensures forall b :: b in Columns(r) <==> b in Columns(prices) || b in Columns(loadPerBus)
  {
    PriceLoadCells(Distinct(Columns(prices) + Columns(loadPerBus)), prices, loadPerBus)
  }

  function PriceLoadCells(cols: seq<string>, prices: Row<string>, loadPerBus: Row<string>): (r: Row<string>)
    ensures Columns(r) == cols
  {
    if cols == [] then []
    else [Cell(cols[0], ValueOr0(prices, cols[0]) * ValueOr0(loadPerBus, cols[0]))] + PriceLoadCells(cols[1..], prices, loadPerBus)
  }

  /** Step 5 (`divide`): one entry per area on either side. pandas yields NaN
      or an infinity where an area is missing on one side or its load is 0;
      the model yields `None` there. */
  function Divide(num: map<string, real>, den: map<string, real>): (m: map<string, Option<real>>)
    ensures m.Keys == num.Keys + den.Keys
    ensures forall a :: a in m ==> (m[a].Some? <==> a in num && a in den && den[a] != 0.0)
    ensures forall a :: a in m && m[a].Some? ==> m[a].value * den[a] == num[a]
  {
    map a | a in num.Keys + den.Keys :: if a in num && a in den && den[a] != 0.0 then Some(num[a] / den[a]) else None
  }

  /** Steps 1-2: the load of each control area. */
  function Denominator(loads: Row<string>, loadBus: map<string, string>, busArea: map<string, string>): map<string, real>
  {
    GroupBySum(BusLoads(loads, loadBus), busArea)
  }

  /** Steps 1, 3-4: the price-weighted load of each control area. */
  function Numerator(prices: Row<string>, loads: Row<string>, loadBus: map<string, string>, busArea: map<string, string>): map<string, real>
  {
    GroupBySum(PriceLoad(prices, BusLoads(loads, loadBus)), busArea)
  }

  /** The whole `_fetch` for one snapshot. */
  function VolWeightedPrice(prices: Row<string>, loads: Row<string>, loadBus: map<string, string>, busArea: map<string, string>): map<string, Option<real>>
  {
    Divide(Numerator(prices, loads, loadBus, busArea), Denominator(loads, loadBus, busArea))
  }

  // ---------------------------------------------------------------------------
  // The reference: the weighted mean over the loads of each area
  // ---------------------------------------------------------------------------

  /** The control area a load's bus lies in, if the load has a bus and the bus an area. */
  predicate InArea(l: string, loadBus: map<string, string>, busArea: map<string, string>, a: string)
  {
    l in loadBus && loadBus[l] in busArea && busArea[loadBus[l]] == a
  }

  /** Σ load(l) over the loads of area `a`. */
  function AreaLoad(loads: Row<string>, loadBus: map<string, string>, busArea: map<string, string>, a: string): real
  {
    if loads == [] then 0.0
    else (if InArea(loads[0].name, loadBus, busArea, a) then loads[0].value else 0.0) + AreaLoad(loads[1..], loadBus, busArea, a)
  }

  /** Σ price(bus(l)) · load(l) over the loads of area `a`, a bus without a
      price column counting with price 0. */
  function AreaPriceLoad(prices: Row<string>, loads: Row<string>, loadBus: map<string, string>, busArea: map<string, string>, a: string): real
  {
    if loads == [] then 0.0
    else
      (if InArea(loads[0].name, loadBus, busArea, a) then ValueOr0(prices, loadBus[loads[0].name]) * loads[0].value else 0.0)
      + AreaPriceLoad(prices, loads[1..], loadBus, busArea, a)
  }

  /** The weight of a bus in the numerator of area `a`. */
  function PriceWeight(prices: Row<string>, busArea: map<string, string>, a: string): string -> real
  {
    b => if b in busArea && busArea[b] == a then ValueOr0(prices, b) else 0.0
  }

  // ---------------------------------------------------------------------------
  // The pipeline computes the reference
  // ---------------------------------------------------------------------------

  lemma {:induction false} MemberSumIsAreaLoad(loads: Row<string>, loadBus: map<string, string>, busArea: map<string, string>, a: string)
    ensures WeightedMemberSum(loads, loadBus, Indicator(busArea, a)) == AreaLoad(loads, loadBus, busArea, a)
  {
    if loads != [] { MemberSumIsAreaLoad(loads[1..], loadBus, busArea, a); }
  }

  lemma {:induction false} MemberSumIsAreaPriceLoad(prices: Row<string>, loads: Row<string>, loadBus: map<string, string>, busArea: map<string, string>, a: string)
    ensures WeightedMemberSum(loads, loadBus, PriceWeight(prices, busArea, a)) == AreaPriceLoad(prices, loads, loadBus, busArea, a)
  {
    if loads != [] { MemberSumIsAreaPriceLoad(prices, loads[1..], loadBus, busArea, a); }
  }

  lemma {:induction false} PriceLoadCellsSum(cols: seq<string>, prices: Row<string>, lpb: Row<string>, loads: Row<string>, loadBus: map<string, string>, busArea: map<string, string>, a: string)
    requires forall b :: ValueOr0(lpb, b) == GroupSum(loads, loadBus, b)
    ensures GroupSum(PriceLoadCells(cols, prices, lpb), busArea, a)
         == WeightedGroupSum(cols, loads, loadBus, PriceWeight(prices, busArea, a))
  {
    if cols != [] {
      PriceLoadCellsSum(cols[1..], prices, lpb, loads, loadBus, busArea, a);
      assert PriceLoadCells(cols, prices, lpb)[1..] == PriceLoadCells(cols[1..], prices, lpb);
    }
  }

  /** An area with load has a load whose bus lies in it. */
  lemma {:induction false} AreaLoadWitness(loads: Row<string>, loadBus: map<string, string>, busArea: map<string, string>, a: string)
    requires AreaLoad(loads, loadBus, busArea, a) != 0.0
    ensures exists i :: 0 <= i < |loads| && InArea(loads[i].name, loadBus, busArea, a)
  {
    if !InArea(loads[0].name, loadBus, busArea, a) {
      AreaLoadWitness(loads[1..], loadBus, busArea, a);
      var i :| 0 <= i < |loads[1..]| && InArea(loads[1..][i].name, loadBus, busArea, a);
      assert loads[i + 1] == loads[1..][i];
    }
  }

  /** Steps 1-2 give each area the sum of its loads, and every area with
      non-zero load has an entry. */
  lemma DenominatorIsAreaLoad(loads: Row<string>, loadBus: map<string, string>, busArea: map<string, string>, a: string)
    ensures a in Denominator(loads, loadBus, busArea) ==> Denominator(loads, loadBus, busArea)[a] == AreaLoad(loads, loadBus, busArea, a)
    ensures AreaLoad(loads, loadBus, busArea, a) != 0.0 ==> a in Denominator(loads, loadBus, busArea)
  {
    var gs := GroupKeys(loads, loadBus);
    var lpb := BusLoads(loads, loadBus);
    GroupOfGroupedRow(loads, loadBus, gs, busArea, a);
    Regroup(gs, loads, loadBus, Indicator(busArea, a));
    MemberSumIsAreaLoad(loads, loadBus, busArea, a);
    if AreaLoad(loads, loadBus, busArea, a) != 0.0 {
      AreaLoadWitness(loads, loadBus, busArea, a);
      var i :| 0 <= i < |loads| && InArea(loads[i].name, loadBus, busArea, a);
      var b := loadBus[loads[i].name];
      assert b in Columns(lpb);
      var j :| 0 <= j < |lpb| && Columns(lpb)[j] == b;
      assert a in KeysOf(lpb, busArea);
    }
  }

  /** Steps 1, 3 and 4 give each area the price-weighted sum of its loads. */
  lemma NumeratorIsAreaPriceLoad(prices: Row<string>, loads: Row<string>, loadBus: map<string, string>, busArea: map<string, string>, a: string)
    ensures a in Numerator(prices, loads, loadBus, busArea) ==>
              Numerator(prices, loads, loadBus, busArea)[a] == AreaPriceLoad(prices, loads, loadBus, busArea, a)
  {
    var lpb := BusLoads(loads, loadBus);
    var cols := Distinct(Columns(prices) + Columns(lpb));
    forall b ensures ValueOr0(lpb, b) == GroupSum(loads, loadBus, b) {
      BusLoadValue(loads, loadBus, b);
    }
    PriceLoadCellsSum(cols, prices, lpb, loads, loadBus, busArea, a);
    forall i | 0 <= i < |loads| && loads[i].name in loadBus
      ensures loadBus[loads[i].name] in cols
    {
      assert loadBus[loads[i].name] in Columns(lpb);
    }
    Regroup(cols, loads, loadBus, PriceWeight(prices, busArea, a));
    MemberSumIsAreaPriceLoad(prices, loads, loadBus, busArea, a);
  }

  /** Every area of the denominator is an area of the numerator. */
  lemma NumeratorCoversDenominator(prices: Row<string>, loads: Row<string>, loadBus: map<string, string>, busArea: map<string, string>, a: string)
    ensures a in Denominator(loads, loadBus, busArea) ==> a in Numerator(prices, loads, loadBus, busArea)
  {
    var lpb := BusLoads(loads, loadBus);
    if a in Denominator(loads, loadBus, busArea) {
      var b := AreaBus(lpb, busArea, a);
      assert b in Columns(PriceLoad(prices, lpb));
      KeyOfColumn(PriceLoad(prices, lpb), busArea, b);
    }
  }

  /** A column of `row` whose group is `g`, when `g` occurs. */
  lemma AreaBus(row: Row<string>, busArea: map<string, string>, g: string) returns (b: string)
    requires g in GroupBySum(row, busArea)
    ensures b in Columns(row) && b in busArea && busArea[b] == g
  {
    assert g in KeysOf(row, busArea);
    var j :| 0 <= j < |row| && row[j].name in busArea && busArea[row[j].name] == g;
    b := row[j].name;
    assert Columns(row)[j] == b;
  }

  /** The interpreter computes the demand-weighted mean price of every area:
      an area gets a value exactly when its total load is non-zero, and the
      value is Σ price·load / Σ load over the area's loads. */
  lemma VolWeightedPriceIsWeightedMean(prices: Row<string>, loads: Row<string>, loadBus: map<string, string>, busArea: map<string, string>, a: string)
    ensures AreaLoad(loads, loadBus, busArea, a) != 0.0 ==>
              a in VolWeightedPrice(prices, loads, loadBus, busArea) && VolWeightedPrice(prices, loads, loadBus, busArea)[a].Some?
    ensures a in VolWeightedPrice(prices, loads, loadBus, busArea) && VolWeightedPrice(prices, loads, loadBus, busArea)[a].Some? ==>
              AreaLoad(loads, loadBus, busArea, a) != 0.0
              && VolWeightedPrice(prices, loads, loadBus, busArea)[a].value
                 == AreaPriceLoad(prices, loads, loadBus, busArea, a) / AreaLoad(loads, loadBus, busArea, a)
  {
    DenominatorIsAreaLoad(loads, loadBus, busArea, a);
    NumeratorIsAreaPriceLoad(prices, loads, loadBus, busArea, a);
    NumeratorCoversDenominator(prices, loads, loadBus, busArea, a);
  }

  /** The area's entry, an absent area read as `None` (NaN). */
  function PriceOf(m: map<string, Option<real>>, a: string): Option<real>
  {
    if a in m then m[a] else None
  }

  // ---------------------------------------------------------------------------
  // Consequences
  // ---------------------------------------------------------------------------

  /** If every load of the area sits at a bus with price `p`, the area's price is `p`. */
  lemma {:induction false} UniformPriceLoad(prices: Row<string>, loads: Row<string>, loadBus: map<string, string>, busArea: map<string, string>, a: string, p: real)
    requires forall i :: 0 <= i < |loads| && InArea(loads[i].name, loadBus, busArea, a) ==> ValueOr0(prices, loadBus[loads[i].name]) == p
    ensures AreaPriceLoad(prices, loads, loadBus, busArea, a) == p * AreaLoad(loads, loadBus, busArea, a)
  {
    if loads != [] {
      assert forall i :: 0 <= i < |loads[1..]| ==> loads[1..][i] == loads[i + 1];
      UniformPriceLoad(prices, loads[1..], loadBus, busArea, a, p);
    }
  }

  lemma UniformPrice(prices: Row<string>, loads: Row<string>, loadBus: map<string, string>, busArea: map<string, string>, a: string, p: real)
    requires forall i :: 0 <= i < |loads| && InArea(loads[i].name, loadBus, busArea, a) ==> ValueOr0(prices, loadBus[loads[i].name]) == p
    requires AreaLoad(loads, loadBus, busArea, a) != 0.0
    ensures PriceOf(VolWeightedPrice(prices, loads, loadBus, busArea), a) == Some(p)
  {
    UniformPriceLoad(prices, loads, loadBus, busArea, a, p);
    DivideScaled(p, AreaLoad(loads, loadBus, busArea, a), AreaPriceLoad(prices, loads, loadBus, busArea, a));
    VolWeightedPriceIsWeightedMean(prices, loads, loadBus, busArea, a);
  }

  lemma DivideScaled(p: real, d: real, n: real)
    requires d != 0.0 && n == p * d
    ensures n / d == p
  {
  }

  /** An area's result only reads the prices of buses in that area. */
  lemma {:induction false} AreaPriceLoadIsLocal(p1: Row<string>, p2: Row<string>, loads: Row<string>, loadBus: map<string, string>, busArea: map<string, string>, a: string)
    requires forall b :: b in busArea && busArea[b] == a ==> ValueOr0(p1, b) == ValueOr0(p2, b)
    ensures AreaPriceLoad(p1, loads, loadBus, busArea, a) == AreaPriceLoad(p2, loads, loadBus, busArea, a)
  {
    if loads != [] { AreaPriceLoadIsLocal(p1, p2, loads[1..], loadBus, busArea, a); }
  }

  lemma PriceIsLocal(p1: Row<string>, p2: Row<string>, loads: Row<string>, loadBus: map<string, string>, busArea: map<string, string>, a: string)
    requires forall b :: b in busArea && busArea[b] == a ==> ValueOr0(p1, b) == ValueOr0(p2, b)
    ensures PriceOf(VolWeightedPrice(p1, loads, loadBus, busArea), a) == PriceOf(VolWeightedPrice(p2, loads, loadBus, busArea), a)
  {
    VolWeightedPriceIsWeightedMean(p1, loads, loadBus, busArea, a);
    VolWeightedPriceIsWeightedMean(p2, loads, loadBus, busArea, a);
    AreaPriceLoadIsLocal(p1, p2, loads, loadBus, busArea, a);
  }

  /** A load at a bus without a price column raises the area's load but not
      its price-weighted load (the `fill_value=0` of the multiplication). */
  lemma {:induction false} UnpricedLoad(prices: Row<string>, loads: Row<string>, loadBus: map<string, string>, busArea: map<string, string>, a: string, c: Cell<string>)
    requires InArea(c.name, loadBus, busArea, a) && loadBus[c.name] !in Columns(prices)
    ensures AreaLoad(loads + [c], loadBus, busArea, a) == AreaLoad(loads, loadBus, busArea, a) + c.value
    ensures AreaPriceLoad(prices, loads + [c], loadBus, busArea, a) == AreaPriceLoad(prices, loads, loadBus, busArea, a)
  {
    if loads == [] {
      assert loads + [c] == [c];
      ValueOr0Absent(prices, loadBus[c.name]);
    } else {
      assert (loads + [c])[1..] == loads[1..] + [c] && (loads + [c])[0] == loads[0];
      UnpricedLoad(prices, loads[1..], loadBus, busArea, a, c);
    }
  }
}
