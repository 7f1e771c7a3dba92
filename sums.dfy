/** One snapshot (one row) of a pandas time-series frame whose columns are
    labelled by network components, and the `groupby(...).sum()` that the
    interpreters apply across its columns. Every operation modelled here acts
    on each snapshot separately, so one row is enough to state them. */
module Sums {
  import opened Seqs

  /** One column of a frame at one snapshot. */
  datatype Cell<K> = Cell(name: K, value: real)

  type Row<K> = seq<Cell<K>>

  /** The column labels, in column order. */
  function Columns<K>(row: Row<K>): (ls: seq<K>)
    ensures |ls| == |row|
    ensures forall i :: 0 <= i < |row| ==> ls[i] == row[i].name
  {
    if row == [] then [] else [row[0].name] + Columns(row[1..])
  }

  /** The value in column `k`, or 0 when there is no such column (the
      `fill_value=0` of `DataFrame.multiply`). */
  function ValueOr0<K(==)>(row: Row<K>, k: K): real
  {
    if row == [] then 0.0 else if row[0].name == k then row[0].value else ValueOr0(row[1..], k)
  }

  /** With unique labels, every column holds the value `ValueOr0` finds for it. */
  lemma {:induction false} ValueOr0OfColumn<K>(row: Row<K>, i: nat)
    requires NoDuplicates(Columns(row)) && i < |row|
    ensures ValueOr0(row, row[i].name) == row[i].value
  {
    if i > 0 {
      assert Columns(row)[0] != Columns(row)[i];
      assert NoDuplicates(Columns(row[1..])) by {
        assert forall a, b :: 0 <= a < b < |row| - 1 ==> Columns(row[1..])[a] == Columns(row)[a + 1] && Columns(row[1..])[b] == Columns(row)[b + 1];
      }
      ValueOr0OfColumn(row[1..], i - 1);
    }
  }

  lemma {:induction false} ValueOr0Absent<K>(row: Row<K>, k: K)
    requires k !in Columns(row)
    ensures ValueOr0(row, k) == 0.0
  {
    if row != [] {
      assert Columns(row)[0] == row[0].name;
      assert Columns(row[1..]) == Columns(row)[1..];
      ValueOr0Absent(row[1..], k);
    }
  }

  /** `groupby(key).sum()` for the group `g`: the sum of the columns whose
      label the map `key` sends to `g`. Columns without a key are dropped,
      as pandas drops NaN group keys. */
  function GroupSum<K(==), G(==)>(row: Row<K>, key: map<K, G>, g: G): real
  {
    if row == [] then 0.0
    else (if row[0].name in key && key[row[0].name] == g then row[0].value else 0.0) + GroupSum(row[1..], key, g)
  }

  /** The groups that occur, in order of first appearance. */
  function GroupKeys<K(==), G(==,!new)>(row: Row<K>, key: map<K, G>): (gs: seq<G>)
    ensures NoDuplicates(gs)
  {
    Distinct(KeysOf(row, key))
  }

  /** The group of each column that has one, in column order. */
  function KeysOf<K(==), G>(row: Row<K>, key: map<K, G>): (gs: seq<G>)
    ensures forall i :: 0 <= i < |row| && row[i].name in key ==> key[row[i].name] in gs
    ensures forall g :: g in gs ==> exists i :: 0 <= i < |row| && row[i].name in key && key[row[i].name] == g
  {
    if row == [] then []
    else
      var rest := KeysOf(row[1..], key);
      assert forall i :: 1 <= i < |row| ==> row[i] == row[1..][i - 1];
      (if row[0].name in key then [key[row[0].name]] else []) + rest
  }

  /** The group of a labelled column occurs among the keys. */
  lemma KeyOfColumn<K, G>(row: Row<K>, key: map<K, G>, k: K)
    requires k in Columns(row) && k in key
    ensures key[k] in KeysOf(row, key)
  {
    var i :| 0 <= i < |row| && Columns(row)[i] == k;
  }

  /** `groupby(key).sum()`: one sum per group that occurs. */
  function GroupBySum<K(==), G(==,!new)>(row: Row<K>, key: map<K, G>): (m: map<G, real>)
    ensures forall g :: g in m <==> g in KeysOf(row, key)
    ensures forall g :: g in m ==> m[g] == GroupSum(row, key, g)
  {
    map g | g in GroupKeys(row, key) :: GroupSum(row, key, g)
  }

  /** A group no column belongs to sums to 0. */
  lemma {:induction false} GroupSumAbsent<K, G>(row: Row<K>, key: map<K, G>, g: G)
    requires g !in KeysOf(row, key)
    ensures GroupSum(row, key, g) == 0.0
  {
    if row != [] {
      forall x | x in KeysOf(row[1..], key) ensures x in KeysOf(row, key) {
        var i :| 0 <= i < |row[1..]| && row[1..][i].name in key && key[row[1..][i].name] == x;
        assert row[i + 1] == row[1..][i];
      }
      GroupSumAbsent(row[1..], key, g);
    }
  }

  lemma {:induction false} GroupSumAppend<K, G>(a: Row<K>, b: Row<K>, key: map<K, G>, g: G)
    ensures GroupSum(a + b, key, g) == GroupSum(a, key, g) + GroupSum(b, key, g)
  {
    if a != [] {
      assert (a + b)[1..] == a[1..] + b && (a + b)[0] == a[0];
      GroupSumAppend(a[1..], b, key, g);
    } else {
      assert a + b == b;
    }
  }

  // ---------------------------------------------------------------------------
  // Summing a grouped row again: the regrouping law
  // ---------------------------------------------------------------------------

  /** The row `groupby(key).sum()` produces for the groups `gs`. */
  function GroupedRow<K(==), G(==)>(row: Row<K>, key: map<K, G>, gs: seq<G>): (r: Row<G>)
    ensures |r| == |gs|
    ensures Columns(r) == gs
    ensures forall i :: 0 <= i < |gs| ==> r[i] == Cell(gs[i], GroupSum(row, key, gs[i]))
  {
    if gs == [] then [] else [Cell(gs[0], GroupSum(row, key, gs[0]))] + GroupedRow(row, key, gs[1..])
  }

  /** Σ over groups `g` of `w(g) * (sum of group g)`. */
  function WeightedGroupSum<K(==), G(==)>(gs: seq<G>, row: Row<K>, key: map<K, G>, w: G -> real): real
  {
    if gs == [] then 0.0 else w(gs[0]) * GroupSum(row, key, gs[0]) + WeightedGroupSum(gs[1..], row, key, w)
  }

  /** Σ over the columns that have a group of `w(group) * value`. */
  function WeightedMemberSum<K(==), G(==)>(row: Row<K>, key: map<K, G>, w: G -> real): real
  {
    if row == [] then 0.0
    else (if row[0].name in key then w(key[row[0].name]) * row[0].value else 0.0) + WeightedMemberSum(row[1..], key, w)
  }

  lemma {:induction false} WeightedGroupSumCons<K, G>(gs: seq<G>, c: Cell<K>, rest: Row<K>, key: map<K, G>, w: G -> real)
    requires NoDuplicates(gs)
    ensures WeightedGroupSum(gs, [c] + rest, key, w)
         == (if c.name in key && key[c.name] in gs then w(key[c.name]) * c.value else 0.0)
            + WeightedGroupSum(gs, rest, key, w)
  {
    if gs != [] {
      assert ([c] + rest)[1..] == rest;
      assert NoDuplicates(gs[1..]) by {
        assert forall a, b :: 0 <= a < b < |gs| - 1 ==> gs[1..][a] == gs[a + 1] && gs[1..][b] == gs[b + 1];
      }
      WeightedGroupSumCons(gs[1..], c, rest, key, w);
      var inHead := c.name in key && key[c.name] == gs[0];
      var here := if inHead then c.value else 0.0;
      assert GroupSum([c] + rest, key, gs[0]) == here + GroupSum(rest, key, gs[0]);
      assert w(gs[0]) * (here + GroupSum(rest, key, gs[0]))
          == w(gs[0]) * here + w(gs[0]) * GroupSum(rest, key, gs[0]);
      if inHead {
        assert key[c.name] !in gs[1..] by {
          forall j | 0 <= j < |gs[1..]| ensures gs[1..][j] != key[c.name] {
            assert gs[1..][j] == gs[j + 1];
          }
        }
      } else if c.name in key {
        assert key[c.name] in gs <==> key[c.name] in gs[1..] by {
          assert gs == [gs[0]] + gs[1..];
        }
      }
    }
  }

  /** Grouping members into groups, weighting each group sum and adding the
      weighted sums gives the weighted sum over the members, provided every
      member's group is listed once or carries weight 0. */
  lemma {:induction false} Regroup<K, G>(gs: seq<G>, row: Row<K>, key: map<K, G>, w: G -> real)
    requires NoDuplicates(gs)
    requires forall i :: 0 <= i < |row| && row[i].name in key ==> key[row[i].name] in gs || w(key[row[i].name]) == 0.0
    ensures WeightedGroupSum(gs, row, key, w) == WeightedMemberSum(row, key, w)
  {
    if row == [] {
      ZeroGroups(gs, key, w);
    } else {
      assert row == [row[0]] + row[1..];
      WeightedGroupSumCons(gs, row[0], row[1..], key, w);
      assert forall i :: 0 <= i < |row[1..]| ==> row[1..][i] == row[i + 1];
      Regroup(gs, row[1..], key, w);
    }
  }

  lemma {:induction false} ZeroGroups<K, G>(gs: seq<G>, key: map<K, G>, w: G -> real)
    ensures WeightedGroupSum(gs, [], key, w) == 0.0
  {
    if gs != [] { ZeroGroups(gs[1..], key, w); }
  }

  /** The indicator of group `g` under `key`. */
  function Indicator<K(==), G(==)>(key: map<K, G>, g: G): K -> real
  {
    k => if k in key && key[k] == g then 1.0 else 0.0
  }

  /** Summing a grouped row by a second key is a weighted group sum. */
  lemma {:induction false} GroupOfGroupedRow<K, G, A>(row: Row<K>, key: map<K, G>, gs: seq<G>, key2: map<G, A>, a: A)
    ensures GroupSum(GroupedRow(row, key, gs), key2, a) == WeightedGroupSum(gs, row, key, Indicator(key2, a))
  {
    if gs != [] {
      GroupOfGroupedRow(row, key, gs[1..], key2, a);
      assert GroupedRow(row, key, gs)[1..] == GroupedRow(row, key, gs[1..]);
    }
  }

  /** The sum of all columns of a row. */
  function Total<K>(row: Row<K>): real
  {
    if row == [] then 0.0 else row[0].value + Total(row[1..])
  }

  /** The sum of the columns that have a group. */
  function KeyedTotal<K(==), G>(row: Row<K>, key: map<K, G>): real
  {
    if row == [] then 0.0 else (if row[0].name in key then row[0].value else 0.0) + KeyedTotal(row[1..], key)
  }

  /** The weight 1 for every group. */
  function Unit<G>(): G -> real
  {
    _ => 1.0
  }

  lemma {:induction false} TotalOfGroupedRow<K, G>(row: Row<K>, key: map<K, G>, gs: seq<G>)
    ensures Total(GroupedRow(row, key, gs)) == WeightedGroupSum(gs, row, key, Unit())
  {
    if gs != [] {
      TotalOfGroupedRow(row, key, gs[1..]);
      assert GroupedRow(row, key, gs)[1..] == GroupedRow(row, key, gs[1..]);
    }
  }

  lemma {:induction false} KeyedTotalIsMemberSum<K, G>(row: Row<K>, key: map<K, G>)
    ensures WeightedMemberSum(row, key, Unit()) == KeyedTotal(row, key)
  {
    if row != [] { KeyedTotalIsMemberSum(row[1..], key); }
  }

  /** When every column has a group, the keyed total is the total. */
  lemma {:induction false} KeyedTotalOfKeyedRow<K, G>(row: Row<K>, key: map<K, G>)
    requires forall i :: 0 <= i < |row| ==> row[i].name in key
    ensures KeyedTotal(row, key) == Total(row)
  {
    if row != [] {
      assert forall i :: 0 <= i < |row[1..]| ==> row[1..][i] == row[i + 1];
      KeyedTotalOfKeyedRow(row[1..], key);
    }
  }

  /** Grouping conserves the total: the group sums add up to the sum of all
      columns that have a group. */
  lemma GroupingConservesTotal<K, G(!new)>(row: Row<K>, key: map<K, G>)
    ensures Total(GroupedRow(row, key, GroupKeys(row, key))) == KeyedTotal(row, key)
  {
    TotalOfGroupedRow(row, key, GroupKeys(row, key));
    Regroup(GroupKeys(row, key), row, key, Unit());
    KeyedTotalIsMemberSum(row, key);
  }
}
