/**
 * The dataframe: one row per reading, keyed by the integer `engine_id` and
 * `time_cycles` columns, plus an ordered list of named numeric columns.
 * The key columns are kept apart because they are integers and so are never
 * missing, never infinite and never named like a sensor.
 */
module Tables {
  import opened Cells

  datatype Column = Column(name: string, cells: seq<Num>)

  /** The `KeyError` pandas raises for a column that is not there. */
  datatype KeyError = KeyError(column: string)

  datatype Table = Table(ids: seq<int>, cycles: seq<int>, cols: seq<Column>) {

    function Rows(): nat {
      |ids|
    }

    /** The value columns' names, in column order (`df.columns` after the keys). */
    function Names(): seq<string> {
      NamesOf(cols)
    }

    /** Every column as long as the key columns, and no name used twice. */
    predicate Valid() {
      && |cycles| == |ids|
      && (forall j :: 0 <= j < |cols| ==> |cols[j].cells| == |ids|)
      && DistinctNames(cols)
    }
  }

  function NamesOf(cols: seq<Column>): seq<string> {
    seq(|cols|, j requires 0 <= j < |cols| => cols[j].name)
  }

  predicate DistinctNames(cols: seq<Column>) {
    forall a, b :: 0 <= a < b < |cols| ==> cols[a].name != cols[b].name
  }

  lemma NamesOfMember(cols: seq<Column>, c: Column)
    requires c in cols
    ensures c.name in NamesOf(cols)
  {
    var j :| 0 <= j < |cols| && cols[j] == c;
    assert NamesOf(cols)[j] == c.name;
  }

  /** A listed name belongs to one of the columns. */
  lemma NamesOfOwner(cols: seq<Column>, name: string) returns (j: nat)
    requires name in NamesOf(cols)
    ensures j < |cols| && cols[j].name == name
  {
    j :| 0 <= j < |cols| && NamesOf(cols)[j] == name;
  }

  /** `a` is `b` with some elements deleted and the order kept. */
  ghost predicate Subsequence<T>(a: seq<T>, b: seq<T>)
    decreases |b|
  {
    if a == [] then true
    else if b == [] then false
    else if a[|a| - 1] == b[|b| - 1] then Subsequence(a[..|a| - 1], b[..|b| - 1])
    else Subsequence(a, b[..|b| - 1])
  }

  /** A subsequence of distinctly named columns is distinctly named. */
  lemma {:induction false} SubsequenceDistinct(a: seq<Column>, b: seq<Column>)
    requires Subsequence(a, b) && DistinctNames(b)
    ensures DistinctNames(a)
    decreases |b|
  {
    if a != [] && b != [] {
      var n := |b| - 1;
      if a[|a| - 1] == b[n] {
        SubsequenceDistinct(a[..|a| - 1], b[..n]);
        SubsequenceMembers(a[..|a| - 1], b[..n]);
        forall u | 0 <= u < |a| - 1
          ensures a[u].name != a[|a| - 1].name
        {
          assert a[u] in b[..n];
        }
      } else {
        SubsequenceDistinct(a, b[..n]);
      }
    }
  }

  /** The elements of a subsequence are elements of the sequence. */
  lemma {:induction false} SubsequenceMembers<T>(a: seq<T>, b: seq<T>)
    requires Subsequence(a, b)
    ensures forall x :: x in a ==> x in b
    decreases |b|
  {
    if a != [] && b != [] {
      var n := |b| - 1;
      if a[|a| - 1] == b[n] {
        SubsequenceMembers(a[..|a| - 1], b[..n]);
        assert a == a[..|a| - 1] + [b[n]];
      } else {
        SubsequenceMembers(a, b[..n]);
      }
    }
  }
  /** `df[name]`: the column of that name. */
  function ColumnNamed(cols: seq<Column>, name: string): (c: Column)
    requires name in NamesOf(cols)
    ensures c in cols && c.name == name
    ensures DistinctNames(cols) ==> forall d :: d in cols && d.name == name ==> d == c
    decreases |cols|
  {
    var n := |cols| - 1;
    if cols[n].name == name then cols[n]
    else
      assert NamesOf(cols) == NamesOf(cols[..n]) + [cols[n].name];
      ColumnNamed(cols[..n], name)
  }

  /** Integers (key columns, RUL labels) as table cells. */
  function IntCells(s: seq<int>): seq<Num> {
    seq(|s|, i requires 0 <= i < |s| => Finite(s[i] as real))
  }

  /** `name in df.columns`, the two key columns included. */
  predicate HasColumn(t: Table, name: string) {
    name == "engine_id" || name == "time_cycles" || name in t.Names()
  }

  /** `df[name]` as cells: a key column's integers, or the value column of that name. */
  function ColumnCells(t: Table, name: string): (c: seq<Num>)
    requires t.Valid() && HasColumn(t, name)
    ensures |c| == t.Rows()
  {
    if name == "engine_id" then IntCells(t.ids)
    else if name == "time_cycles" then IntCells(t.cycles)
    else ColumnNamed(t.cols, name).cells
  }

  /** The columns whose names are not listed in `drop`, in their order. */
  function Without(cols: seq<Column>, drop: seq<string>): (r: seq<Column>)
    ensures forall c :: c in r <==> c in cols && c.name !in drop
    ensures Subsequence(r, cols)
    decreases |cols|
  {
    if cols == [] then []
    else
      var n := |cols| - 1;
      var rest := Without(cols[..n], drop);
      if cols[n].name in drop then
        assert rest != [] ==> rest[|rest| - 1] != cols[n];
        rest
      else
        assert (rest + [cols[n]])[..|rest|] == rest;
        rest + [cols[n]]
  }

  /** `df.drop(columns=drop)`; pandas demands that every listed name exists. */
  function DropColumns(t: Table, drop: seq<string>): (r: Table)
    requires t.Valid()
    requires forall d :: d in drop ==> d in t.Names()
    ensures r.Valid() && r.ids == t.ids && r.cycles == t.cycles
    ensures forall c :: c in r.cols <==> c in t.cols && c.name !in drop
    ensures Subsequence(r.cols, t.cols)
  {
    var r := Table(t.ids, t.cycles, Without(t.cols, drop));
    SubsequenceDistinct(r.cols, t.cols);
    assert forall j :: 0 <= j < |r.cols| ==> r.cols[j] in t.cols;
    r
  }

  /** `df[name] = cells`: overwrite the column in place when the name exists, append it otherwise. */
  function SetColumn(t: Table, name: string, cells: seq<Num>): (r: Table)
    requires t.Valid() && |cells| == t.Rows()
    ensures r.Valid() && r.ids == t.ids && r.cycles == t.cycles
    ensures name in r.Names() && ColumnNamed(r.cols, name) == Column(name, cells)
    ensures name in t.Names() ==> |r.cols| == |t.cols| && r.Names() == t.Names()
    ensures name in t.Names() ==> forall j :: 0 <= j < |t.cols| && t.cols[j].name != name ==> r.cols[j] == t.cols[j]
    ensures name !in t.Names() ==> r.cols == t.cols + [Column(name, cells)] && r.Names() == t.Names() + [name]
  {
    if name in t.Names() then
      var r := Table(t.ids, t.cycles, seq(|t.cols|, j requires 0 <= j < |t.cols| =>
        if t.cols[j].name == name then Column(name, cells) else t.cols[j]));
      assert r.Names() == t.Names();
      var j :| 0 <= j < |t.cols| && t.cols[j].name == name;
      NamesOfMember(r.cols, r.cols[j]);
      r
    else
      var r := Table(t.ids, t.cycles, t.cols + [Column(name, cells)]);
      assert forall j :: 0 <= j < |t.cols| ==> t.cols[j].name == t.Names()[j];
      NamesOfMember(r.cols, Column(name, cells));
      r
  }

  /** Setting one column leaves every other column's contents where a lookup by name finds them. */
  lemma SetColumnOther(t: Table, name: string, cells: seq<Num>, m: string)
    requires t.Valid() && |cells| == t.Rows() && m in t.Names() && m != name
    ensures m in SetColumn(t, name, cells).Names()
    ensures ColumnNamed(SetColumn(t, name, cells).cols, m) == ColumnNamed(t.cols, m)
  {
    var r := SetColumn(t, name, cells);
    var c := ColumnNamed(t.cols, m);
    var j :| 0 <= j < |t.cols| && t.cols[j] == c;
    if name in t.Names() {
      assert r.cols[j] == c;
    } else {
      assert r.cols[j] == c;
    }
    assert c in r.cols;
    NamesOfMember(r.cols, c);
  }
}
