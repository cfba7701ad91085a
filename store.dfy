/** The `convoy` table of the SQLite store (convoy.py lines 94-101 write it,
    lines 16-22 read it back). The first column is declared
    `INTEGER PRIMARY KEY`, which makes it the row id: a second row with the
    same key is refused, and a full scan returns the rows in ascending key
    order. The table is held as that ordered sequence of 5-tuples. */
module Store {

  /** One row; `c0` is the primary key. */
  datatype Row = Row(c0: int, c1: int, c2: int, c3: int, c4: int) {
    function Values(): (v: seq<int>)
      ensures |v| == 5 && v[0] == c0
    {
      [c0, c1, c2, c3, c4]
    }
  }

  type Record = map<string, int>

  /** Five columns of equal length, as the scored DataFrame holds them. */
  predicate ColumnMajor(data: seq<seq<int>>) {
    |data| == 5 && forall k :: 0 <= k < 5 ==> |data[k]| == |data[0]|
  }

  /** SQLite compares column names ignoring the case of ASCII letters. */
  function LowerAscii(c: char): char {
    if 'A' <= c <= 'Z' then (c as int - 'A' as int + 'a' as int) as char else c
  }

  function Folded(name: string): (r: string)
    ensures |r| == |name|
  {
    seq(|name|, i requires 0 <= i < |name| => LowerAscii(name[i]))
  }

  /** No two column names are the same for SQLite. */
  predicate DistinctNames(names: seq<string>) {
    forall i, j :: 0 <= i < j < |names| ==> Folded(names[i]) != Folded(names[j])
  }

  /** Names that differ only in the case of a letter clash: "Score" and
      "score" cannot both be columns. */
  lemma CaseClash()
    ensures !DistinctNames(["Score", "score"])
  {
    var names := ["Score", "score"];
    assert Folded(names[0]) == Folded(names[1]) by {
      assert Folded(names[0])[0] == LowerAscii('S') == 's';
    }
  }

  predicate DistinctKeys(rows: seq<Row>) {
    forall i, j :: 0 <= i < j < |rows| ==> rows[i].c0 != rows[j].c0
  }

  predicate Ascending(rows: seq<Row>) {
    forall i, j :: 0 <= i < j < |rows| ==> rows[i].c0 < rows[j].c0
  }

  predicate KeyAbsent(rows: seq<Row>, key: int) {
    forall x :: x in rows ==> x.c0 != key
  }

  /** Lines 98-99: the i-th tuple inserted takes the i-th value of every
      column. */
  function RowsOf(data: seq<seq<int>>): (rows: seq<Row>)
    requires ColumnMajor(data)
    ensures |rows| == |data[0]|
    ensures forall i, k :: 0 <= i < |rows| && 0 <= k < 5 ==> rows[i].Values()[k] == data[k][i]
  {
    seq(|data[0]|, i requires 0 <= i < |data[0]| =>
      Row(data[0][i], data[1][i], data[2][i], data[3][i], data[4][i]))
  }

  /** Where the row id B-tree puts a new row: before the first larger key. */
  function InsertByKey(rows: seq<Row>, r: Row): seq<Row>
    requires Ascending(rows) && KeyAbsent(rows, r.c0)
  {
    if rows == [] then [r]
    else if r.c0 < rows[0].c0 then [r] + rows
    else [rows[0]] + InsertByKey(rows[1..], r)
  }

  /** Inserting adds exactly the new row ... */
  lemma {:induction false} InsertByKeyAdds(rows: seq<Row>, r: Row)
    requires Ascending(rows) && KeyAbsent(rows, r.c0)
    ensures multiset(InsertByKey(rows, r)) == multiset(rows) + multiset{r}
    decreases |rows|
  {
    if rows != [] && r.c0 > rows[0].c0 {
      assert rows == [rows[0]] + rows[1..];
      InsertByKeyAdds(rows[1..], r);
    }
  }

  /** ... and keeps the keys ascending. */
  lemma {:induction false} InsertByKeyAscending(rows: seq<Row>, r: Row)
    requires Ascending(rows) && KeyAbsent(rows, r.c0)
    ensures Ascending(InsertByKey(rows, r))
    decreases |rows|
  {
    if rows != [] && r.c0 > rows[0].c0 {
      var rest := InsertByKey(rows[1..], r);
      InsertByKeyAscending(rows[1..], r);
      InsertByKeyAbove(rows[1..], r, rows[0].c0);
      var res := [rows[0]] + rest;
      forall a, b | 0 <= a < b < |res| ensures res[a].c0 < res[b].c0 {
        assert res[b] == rest[b - 1];
        if a > 0 {
          assert res[a] == rest[a - 1];
        }
      }
    }
  }

  /** A bound below every old key and the new key bounds every key after
      the insertion. */
  lemma {:induction false} InsertByKeyAbove(rows: seq<Row>, r: Row, low: int)
    requires Ascending(rows) && KeyAbsent(rows, r.c0)
    requires low < r.c0 && forall j :: 0 <= j < |rows| ==> low < rows[j].c0
    ensures forall j :: 0 <= j < |InsertByKey(rows, r)| ==> low < InsertByKey(rows, r)[j].c0
    decreases |rows|
  {
    if rows != [] && r.c0 > rows[0].c0 {
      InsertByKeyAbove(rows[1..], r, low);
      var rest := InsertByKey(rows[1..], r);
      assert InsertByKey(rows, r) == [rows[0]] + rest;
    }
  }

  /** Two key-ordered sequences of the same rows are the same sequence. */
  lemma {:induction false} AscendingUnique(a: seq<Row>, b: seq<Row>)
    requires Ascending(a) && Ascending(b) && multiset(a) == multiset(b)
    ensures a == b
    decreases |a|
  {
    if a == [] {
      assert |b| == |multiset(b)| == 0;
    } else {
      assert |b| == |multiset(b)| == |multiset(a)| == |a|;
      SameHead(a, b);
      TailFacts(a);
      TailFacts(b);
      AscendingUnique(a[1..], b[1..]);
      assert a == [a[0]] + a[1..] && b == [b[0]] + b[1..];
    }
  }

  /** Key-ordered sequences of the same rows start with the same row. */
  lemma SameHead(a: seq<Row>, b: seq<Row>)
    requires Ascending(a) && Ascending(b) && a != [] && b != [] && multiset(a) == multiset(b)
    ensures a[0] == b[0]
  {
    assert a[0] in multiset(b);
    assert b[0] in multiset(a);
    HeadIsLeast(a, b[0]);
    HeadIsLeast(b, a[0]);
  }

  lemma TailFacts(a: seq<Row>)
    requires Ascending(a) && a != []
    ensures Ascending(a[1..])
    ensures multiset(a[1..]) == multiset(a) - multiset{a[0]}
  {
    assert a == [a[0]] + a[1..];
  }

  /** The first row of a key-ordered sequence has the least key, and is the
      only row with that key. */
  lemma HeadIsLeast(a: seq<Row>, x: Row)
    requires Ascending(a) && x in a
    ensures a[0].c0 <= x.c0
    ensures x.c0 == a[0].c0 ==> x == a[0]
  {
    var i :| 0 <= i < |a| && a[i] == x;
  }

  lemma DistinctKeysExtend(rows: seq<Row>, r: Row)
    ensures DistinctKeys(rows + [r]) <==> DistinctKeys(rows) && KeyAbsent(rows, r.c0)
  {
    var s := rows + [r];
    if DistinctKeys(s) {
      forall x | x in rows ensures x.c0 != r.c0 {
        var i :| 0 <= i < |rows| && rows[i] == x;
        assert s[i] == x && s[|rows|] == r;
      }
      assert forall i, j :: 0 <= i < j < |rows| ==> s[i] == rows[i] && s[j] == rows[j];
    }
    if DistinctKeys(rows) && KeyAbsent(rows, r.c0) {
      forall i, j | 0 <= i < j < |s| ensures s[i].c0 != s[j].c0 {
        if j == |rows| {
          assert s[i] == rows[i] && rows[i] in rows;
        } else {
          assert s[i] == rows[i] && s[j] == rows[j];
        }
      }
    }
  }

  /** `dict(zip(names, values))`: later pairs overwrite earlier ones. */
  function Zip(names: seq<string>, values: seq<int>): (m: Record)
    requires |names| == |values|
    ensures forall x :: x in m <==> x in names
  {
    if names == [] then map[]
    else
      var n := |names| - 1;
      assert names == names[..n] + [names[n]];
      Zip(names[..n], values[..n])[names[n] := values[n]]
  }

  /** A name that occurs only once is bound to the value at its position. */
  lemma {:induction false} ZipLookup(names: seq<string>, values: seq<int>, k: nat)
    requires |names| == |values| && k < |names|
    requires forall j :: 0 <= j < |names| && j != k ==> names[j] != names[k]
    ensures Zip(names, values)[names[k]] == values[k]
    decreases |names|
  {
    var n := |names| - 1;
    if k < n {
      ZipLookup(names[..n], values[..n], k);
    }
  }

  /** Lines 19-22: one record per stored row, mapping each column name to the
      row's value in that column. */
  function Records(columns: seq<string>, rows: seq<Row>): (r: seq<Record>)
    requires |columns| == 5 && DistinctNames(columns)
    ensures |r| == |rows|
    ensures forall i, x :: 0 <= i < |rows| ==> (x in r[i] <==> x in columns)
    ensures forall i, k :: 0 <= i < |rows| && 0 <= k < 5 ==>
      columns[k] in r[i] && r[i][columns[k]] == rows[i].Values()[k]
  {
    var r := seq(|rows|, i requires 0 <= i < |rows| => Zip(columns, rows[i].Values()));
    assert forall i, k :: 0 <= i < |rows| && 0 <= k < 5 ==> r[i][columns[k]] == rows[i].Values()[k] by {
      forall i, k | 0 <= i < |rows| && 0 <= k < 5
        ensures r[i][columns[k]] == rows[i].Values()[k]
      {
        ZipLookup(columns, rows[i].Values(), k);
      }
    }
    r
  }

  /** Reading back the tuples built from column-major data: record i maps
      column k to the i-th value of input column k. */
  lemma ReadBack(columns: seq<string>, data: seq<seq<int>>, i: nat, k: nat)
    requires |columns| == 5 && DistinctNames(columns) && ColumnMajor(data)
    requires i < |data[0]| && k < 5
    ensures |Records(columns, RowsOf(data))| == |data[0]|
    ensures Records(columns, RowsOf(data))[i][columns[k]] == data[k][i]
  {
  }

  class ConvoyTable {
    /** Whether the table exists in the store. */
    var present: bool
    var columns: seq<string>
    /** The rows, in primary-key order. */
    var rows: seq<Row>

    ghost predicate Valid()
      reads this
    {
      (present ==> |columns| == 5 && DistinctNames(columns)) &&
      (!present ==> rows == []) &&
      Ascending(rows)
    }

    /** A store without the table. */
    constructor ()
      ensures Valid() && !present && rows == []
    {
      present, columns, rows := false, [], [];
    }

    /** Line 96: `DROP TABLE IF EXISTS convoy`. */
    method DropIfExists()
      modifies this
      ensures Valid() && !present && columns == [] && rows == []
    {
      present, columns, rows := false, [], [];
    }

    /** Line 97: `CREATE TABLE` fails when the table exists or two column
        names coincide up to the case of ASCII letters. */
    method Create(cols: seq<string>) returns (ok: bool)
      requires Valid() && |cols| == 5
      modifies this
      ensures Valid()
      ensures ok == (!old(present) && DistinctNames(cols))
      ensures ok ==> present && columns == cols && rows == []
      ensures !ok ==> present == old(present) && columns == old(columns) && rows == old(rows)
    {
      ok := !present && DistinctNames(cols);
      if ok {
        present, columns, rows := true, cols, [];
      }
    }

    /** Line 99: one `INSERT`; a key already present violates the primary
        key and nothing is added. */
    method Insert(r: Row) returns (ok: bool)
      requires Valid() && present
      modifies this`rows
      ensures Valid()
      ensures ok == KeyAbsent(old(rows), r.c0)
      ensures ok ==> rows == InsertByKey(old(rows), r)
      ensures ok ==> multiset(rows) == multiset(old(rows)) + multiset{r}
      ensures !ok ==> rows == old(rows)
    {
      ok := KeyAbsent(rows, r.c0);
      if ok {
        InsertByKeyAdds(rows, r);
        InsertByKeyAscending(rows, r);
        rows := InsertByKey(rows, r);
      }
    }

    /** Lines 96-99: drop, recreate, and insert the tuples of the
        column-major data in order. It succeeds exactly when the column
        names and the keys are distinct; the table then holds exactly the
        new rows, nothing from before, in key order, which is the input
        order when the keys came ascending. A failure leaves no table when
        the names clash, and an empty table when a key repeats: the drop
        and the create take effect at once, while the inserts, never
        committed (line 100), are lost when the run ends. */
    method ReplaceAll(cols: seq<string>, data: seq<seq<int>>) returns (ok: bool)
      requires Valid() && |cols| == 5 && ColumnMajor(data)
      modifies this
      ensures Valid()
      ensures ok <==> DistinctNames(cols) && DistinctKeys(RowsOf(data))
      ensures ok ==> present && columns == cols && multiset(rows) == multiset(RowsOf(data))
      ensures ok ==> |rows| == |data[0]|
      ensures ok && Ascending(RowsOf(data)) ==> rows == RowsOf(data)
      ensures !DistinctNames(cols) ==> !present && rows == []
      ensures DistinctNames(cols) && !ok ==> present && columns == cols && rows == []
    {
      DropIfExists();
      ok := Create(cols);
      if !ok {
        return;
      }
      ghost var input := RowsOf(data);
      var n := |data[0]|;
      var i := 0;
      while i < n
        invariant 0 <= i <= n
        invariant Valid() && present && columns == cols
        invariant multiset(rows) == multiset(input[..i])
        invariant DistinctKeys(input[..i])
      {
        var row := Row(data[0][i], data[1][i], data[2][i], data[3][i], data[4][i]);
        assert row == input[i];
        assert input[..i + 1] == input[..i] + [row];
        assert multiset(input[..i + 1]) == multiset(input[..i]) + multiset{row};
        DistinctKeysExtend(input[..i], row);
        assert KeyAbsent(rows, row.c0) <==> KeyAbsent(input[..i], row.c0) by {
          assert forall x :: x in rows <==> x in multiset(input[..i]);
        }
        var inserted := Insert(row);
        if !inserted {
          rows := [];
          ok := false;
          return;
        }
        i := i + 1;
      }
      assert input[..n] == input;
      assert |rows| == |multiset(rows)| == |input|;
      if Ascending(input) {
        AscendingUnique(rows, input);
      }
    }

    /** Lines 19-22: `SELECT * FROM convoy`, one record per row. */
    function ReadAll(): (r: seq<Record>)
      reads this
      requires Valid() && present
      ensures |r| == |rows|
      ensures forall i, x :: 0 <= i < |r| ==> (x in r[i] <==> x in columns)
      ensures forall i, k :: 0 <= i < |rows| && 0 <= k < 5 ==>
        columns[k] in r[i] && r[i][columns[k]] == rows[i].Values()[k]
    {
      Records(columns, rows)
    }
  }
}
