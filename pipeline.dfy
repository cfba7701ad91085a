/** The orchestration of convoy.py (`spreadsheet_parser`, lines 51-118): a
    store input is only exported; a spreadsheet or delimited-text input is
    cleaned, scored and written to the store, and a delimited-text input is
    then read back and exported. Reading the input file is out of the
    model: the header and the raw cells are parameters, and the
    `ConvoyTable` stands for the store file the run uses. */
module Pipeline {
  import opened Wrappers
  import opened Cells
  import opened Scoring
  import opened FileNames
  import opened Store
  import opened Export

  /** The column names `scoring_func` looks up (lines 127-129). */
  const FuelColumn: string := "fuel_consumption"
  const CapacityColumn: string := "engine_capacity"
  const LoadColumn: string := "maximum_load"

  /** How a run ends: with both documents and every message, or by raising
      after printing the messages in `printed`. */
  datatype Outcome = Completed(exported: Exported) | Failed(printed: seq<string>)

  /** A DataFrame: column names and column-major values. */
  datatype Frame = Frame(columns: seq<string>, data: seq<seq<int>>)

  /** One column of values per name, each `n` long. */
  predicate Shaped(f: Frame, n: nat) {
    |f.data| == |f.columns| && forall k :: 0 <= k < |f.data| ==> |f.data[k]| == n
  }

  /** Position of a column name; `None` is the `KeyError` of `df[name]`. */
  function Find(header: seq<string>, name: string): (r: Option<nat>)
    ensures r.Some? <==> name in header
    ensures r.Some? ==> r.value < |header| && header[r.value] == name
  {
    if header == [] then None
    else if header[0] == name then Some(0)
    else match Find(header[1..], name)
      case Some(k) => Some(k + 1)
      case None => None
  }

  predicate Rectangular(rows: seq<seq<nat>>, width: nat) {
    forall i :: 0 <= i < |rows| ==> |rows[i]| == width
  }

  /** The raw cells as read: every row has one cell per header name. */
  predicate Fits(header: seq<string>, cells: seq<seq<string>>) {
    forall i :: 0 <= i < |cells| ==> |cells[i]| == |header|
  }

  function Column(rows: seq<seq<nat>>, k: nat): (col: seq<int>)
    requires forall i :: 0 <= i < |rows| ==> k < |rows[i]|
    ensures |col| == |rows|
    ensures forall i :: 0 <= i < |rows| ==> col[i] == rows[i][k]
  {
    seq(|rows|, i requires 0 <= i < |rows| => rows[i][k])
  }

  /** `scoring_func` over the whole frame (lines 124-135): `None` when some
      engine capacity is 0, where `trunc` of an infinite or undefined
      quotient raises. */
  function ScoreColumn(rows: seq<seq<nat>>, f: nat, e: nat, m: nat): (r: Option<seq<int>>)
    requires forall i :: 0 <= i < |rows| ==> f < |rows[i]| && e < |rows[i]| && m < |rows[i]|
    ensures r.Some? <==> forall i :: 0 <= i < |rows| ==> rows[i][e] > 0
    ensures r.Some? ==> |r.value| == |rows|
    ensures r.Some? ==> forall i :: 0 <= i < |rows| ==>
      (1 <= r.value[i] <= 6 && r.value[i] == Score(rows[i][f], rows[i][e], rows[i][m]))
  {
    if rows == [] then Some([])
    else if rows[0][e] == 0 then None
    else
      match ScoreColumn(rows[1..], f, e, m)
      case Some(rest) => Some([Score(rows[0][f], rows[0][e], rows[0][m])] + rest)
      case None => None
  }

  /** Line 87 assigns `df['score']`: an existing "score" column keeps its
      place and gets the new values, otherwise the column is appended. */
  function ScorePosition(header: seq<string>): (p: nat)
    ensures p <= |header|
    ensures p == |header| <==> ScoreKey !in header
    ensures p < |header| ==> header[p] == ScoreKey
  {
    if ScoreKey in header then Find(header, ScoreKey).value else |header|
  }

  function ScoredColumns(header: seq<string>): (cols: seq<string>)
    ensures |cols| == (if ScoreKey in header then |header| else |header| + 1)
    ensures cols[..|header|] == header && cols[ScorePosition(header)] == ScoreKey
  {
    if ScoreKey in header then header else header + [ScoreKey]
  }

  /** The values after line 87: the scores in the "score" column, every
      other column as it was. */
  function WithScores(header: seq<string>, rows: seq<seq<nat>>, scores: seq<int>): (data: seq<seq<int>>)
    requires Rectangular(rows, |header|) && |scores| == |rows|
    ensures |data| == |ScoredColumns(header)|
    ensures forall k :: 0 <= k < |data| ==> |data[k]| == |rows|
    ensures data[ScorePosition(header)] == scores
    ensures forall i, k :: 0 <= i < |rows| && 0 <= k < |header| && k != ScorePosition(header) ==>
      data[k][i] == rows[i][k]
  {
    var p := ScorePosition(header);
    var kept := seq(|header|, k requires 0 <= k < |header| => if k == p then scores else Column(rows, k));
    if p == |header| then kept + [scores] else kept
  }

  /** Lines 87-89 on the cleaned values: the score of every row in the
      "score" column, every other column as it was. A header that lacks one
      of the scored columns, or a zero engine capacity, makes the run
      fail. */
  function ScoredFrame(header: seq<string>, rows: seq<seq<nat>>): (r: Option<Frame>)
    requires Rectangular(rows, |header|)
    ensures r.Some? <==> (FuelColumn in header && CapacityColumn in header && LoadColumn in header &&
      forall i :: 0 <= i < |rows| ==> rows[i][Find(header, CapacityColumn).value] > 0)
    ensures r.Some? ==> r.value.columns == ScoredColumns(header) && Shaped(r.value, |rows|)
    ensures r.Some? ==> forall i, k :: 0 <= i < |rows| && 0 <= k < |header| && k != ScorePosition(header) ==>
      r.value.data[k][i] == rows[i][k]
    ensures r.Some? ==> forall i :: 0 <= i < |rows| ==>
      r.value.data[ScorePosition(header)][i] == Score(rows[i][Find(header, FuelColumn).value],
                                                      rows[i][Find(header, CapacityColumn).value],
                                                      rows[i][Find(header, LoadColumn).value])
    ensures r.Some? ==> forall i :: 0 <= i < |rows| ==> 1 <= r.value.data[ScorePosition(header)][i] <= 6
  {
    match (Find(header, FuelColumn), Find(header, CapacityColumn), Find(header, LoadColumn))
    case (Some(f), Some(e), Some(m)) =>
      (match ScoreColumn(rows, f, e, m)
       case Some(scores) => Some(Frame(ScoredColumns(header), WithScores(header, rows, scores)))
       case None => None)
    case _ => None
  }

  /** Lines 82-89: every cell cleaned, then the frame scored. */
  function Prepared(header: seq<string>, cells: seq<seq<string>>): (r: Option<Frame>)
    requires Fits(header, cells)
    ensures r.Some? <==> CleanRows(cells).Some? && ScoredFrame(header, CleanRows(cells).value).Some?
    ensures r.Some? ==> r.value.columns == ScoredColumns(header) && Shaped(r.value, |cells|)
    ensures r.Some? ==> r.value == ScoredFrame(header, CleanRows(cells).value).value
    ensures r.Some? ==> forall i, k :: 0 <= i < |cells| && 0 <= k < |header| && k != ScorePosition(header) ==>
      CleanCell(cells[i][k]) == Some(r.value.data[k][i])
  {
    match CleanRows(cells)
    case None => None
    case Some(rows) =>
      assert Rectangular(rows, |header|) by {
        forall i | 0 <= i < |rows| ensures |rows[i]| == |header| {
          assert CleanRow(cells[i]) == Some(rows[i]);
        }
      }
      var r := ScoredFrame(header, rows);
      assert r.Some? ==> forall i, k :: 0 <= i < |cells| && 0 <= k < |header| && k != ScorePosition(header) ==>
        CleanCell(cells[i][k]) == Some(r.value.data[k][i]) by {
        if r.Some? {
          forall i, k | 0 <= i < |cells| && 0 <= k < |header| && k != ScorePosition(header)
            ensures CleanCell(cells[i][k]) == Some(r.value.data[k][i])
          {
            assert CleanRow(cells[i]) == Some(rows[i]);
            assert r.value.data[k][i] == rows[i][k];
          }
        }
      }
      r
  }

  /** The five columns lines 97-99 write: the first five of the frame. */
  function Stored(f: Frame): (s: Frame)
    requires |f.columns| >= 5 && |f.data| == |f.columns| && Shaped(f, |f.data[0]|)
    ensures |s.columns| == 5 && ColumnMajor(s.data)
    ensures forall k :: 0 <= k < 5 ==> s.columns[k] == f.columns[k] && s.data[k] == f.data[k]
  {
    Frame(f.columns[..5], f.data[..5])
  }

  /** The store write succeeds: the frame was built, has the five columns
      the statements index, and its names and keys are distinct for
      SQLite. */
  predicate Accepted(header: seq<string>, cells: seq<seq<string>>)
    requires Fits(header, cells)
  {
    var f := Prepared(header, cells);
    f.Some? && |f.value.columns| >= 5 &&
    DistinctNames(Stored(f.value).columns) && DistinctKeys(RowsOf(Stored(f.value).data))
  }

  /** The frame has fewer than the five columns line 97 indexes. */
  predicate TooNarrow(header: seq<string>, cells: seq<seq<string>>)
    requires Fits(header, cells)
  {
    var f := Prepared(header, cells);
    f.Some? && |f.value.columns| < 5
  }

  /** Two of the five stored names are the same for SQLite (line 97). */
  predicate NameClash(header: seq<string>, cells: seq<seq<string>>)
    requires Fits(header, cells)
  {
    var f := Prepared(header, cells);
    f.Some? && |f.value.columns| >= 5 && !DistinctNames(Stored(f.value).columns)
  }

  /** The names are distinct but a key repeats (line 99). */
  predicate KeyClash(header: seq<string>, cells: seq<seq<string>>)
    requires Fits(header, cells)
  {
    var f := Prepared(header, cells);
    f.Some? && |f.value.columns| >= 5 &&
    DistinctNames(Stored(f.value).columns) && !DistinctKeys(RowsOf(Stored(f.value).data))
  }

  /** The table holds exactly the tuples of the prepared frame, in key
      order, which is the input order when the keys came ascending. */
  predicate Holds(table: ConvoyTable, header: seq<string>, cells: seq<seq<string>>)
    reads table
    requires Fits(header, cells) && Accepted(header, cells)
  {
    var s := Stored(Prepared(header, cells).value);
    table.present && table.columns == s.columns &&
    multiset(table.rows) == multiset(RowsOf(s.data)) && |table.rows| == |cells| &&
    (Ascending(RowsOf(s.data)) ==> table.rows == RowsOf(s.data))
  }

  /** Lines 82-101, shared by spreadsheet and delimited-text inputs:
      clean, score, then drop and rebuild the table. A failure before line
      96 leaves the store as it was; a frame with fewer than five columns
      fails at line 97, after the drop. */
  method WriteStore(table: ConvoyTable, header: seq<string>, cells: seq<seq<string>>) returns (ok: bool)
    requires table.Valid() && Fits(header, cells)
    modifies table
    ensures table.Valid()
    ensures Prepared(header, cells).None? ==> !ok && unchanged(table)
    ensures TooNarrow(header, cells) || NameClash(header, cells) ==> !table.present
    ensures KeyClash(header, cells) ==>
      table.present && table.columns == Stored(Prepared(header, cells).value).columns && table.rows == []
    ensures ok <==> Accepted(header, cells)
    ensures ok ==> Holds(table, header, cells)
  {
    var frame := Prepared(header, cells);
    if frame.None? {
      return false;
    }
    if |frame.value.columns| < 5 {
      table.DropIfExists();
      return false;
    }
    var s := Stored(frame.value);
    ok := table.ReplaceAll(s.columns, s.data);
  }

  /** Lines 110-117: the report printed once the store is written. */
  function Report(base: string, cells: seq<seq<string>>): (msgs: seq<string>)
    ensures |msgs| == (if CorrectedCells(cells) >= 1 then 2 else 1)
    ensures CorrectedCells(cells) >= 1 ==> msgs[0] == CorrectedMessage(CorrectedCells(cells), CheckedName(base)).value
    ensures msgs[|msgs| - 1] == InsertedMessage(|cells|, RemoveMarker(base))
  {
    IngestMessages(RemoveMarker(base), CheckedName(base), |cells|, CorrectedCells(cells))
  }

  /** Line 118: the export of the store just written, after the report. */
  function IngestExport(records: seq<Record>, base: string, cells: seq<seq<string>>): (e: Exported)
    requires Scored(records)
    ensures e.json == ExportRecords(records, RemoveMarker(base)).json
    ensures e.xml == ExportRecords(records, RemoveMarker(base)).xml
    ensures e.messages == Report(base, cells) + ExportRecords(records, RemoveMarker(base)).messages
  {
    var e := ExportRecords(records, RemoveMarker(base));
    e.(messages := Report(base, cells) + e.messages)
  }

  /** Lines 62 and 16-48: a store that is already scored is only exported.
      A missing table or a table without a "score" column fails. */
  method ExportStore(table: ConvoyTable, name: string) returns (r: Outcome)
    requires table.Valid()
    ensures r.Completed? <==> table.present && Scored(table.ReadAll())
    ensures r.Completed? ==> r.exported == ExportRecords(table.ReadAll(), name)
    ensures r.Failed? ==> r.printed == []
  {
    if !table.present {
      return Failed([]);
    }
    var records := table.ReadAll();
    if !Scored(records) {
      return Failed([]);
    }
    r := Completed(ExportRecords(records, name));
  }

  /** The stored columns keep "score" at its position when that is one of
      the first five. */
  lemma StoredScoreColumn(header: seq<string>, cells: seq<seq<string>>)
    requires Fits(header, cells) && Accepted(header, cells) && ScorePosition(header) < 5
    ensures ScoreKey in Stored(Prepared(header, cells).value).columns
  {
    var p := ScorePosition(header);
    var f := Prepared(header, cells).value;
    assert f.columns == ScoredColumns(header);
    assert Stored(f).columns[p] == f.columns[p] == ScoreKey;
  }

  /** A "score" among the five stored columns is in every record read
      back. */
  lemma StoredScore(table: ConvoyTable, header: seq<string>, cells: seq<seq<string>>)
    requires table.Valid() && Fits(header, cells) && Accepted(header, cells)
    requires Holds(table, header, cells) && ScorePosition(header) < 5
    ensures Scored(table.ReadAll())
  {
    StoredScoreColumn(header, cells);
    assert ScoreKey in table.columns;
  }

  /** Lines 76-118 for a delimited-text input: count the cells to correct,
      clean and score them, replace the store named after the base name
      without "[CHECKED]", print the report, read the store back and export
      it. Nothing is printed when the store write fails; the read-back fails
      after the report when "score" is not among the five stored
      columns. */
  method IngestText(table: ConvoyTable, base: string, header: seq<string>, cells: seq<seq<string>>)
    returns (r: Outcome)
    requires table.Valid() && Fits(header, cells)
    modifies table
    ensures table.Valid()
    ensures Prepared(header, cells).None? ==> r == Failed([]) && unchanged(table)
    ensures !Accepted(header, cells) ==> r == Failed([])
    ensures TooNarrow(header, cells) || NameClash(header, cells) ==> !table.present
    ensures KeyClash(header, cells) ==>
      table.present && table.columns == Stored(Prepared(header, cells).value).columns && table.rows == []
    ensures Accepted(header, cells) ==> Holds(table, header, cells)
    ensures r.Completed? ==> Accepted(header, cells) && table.present
    ensures Accepted(header, cells) && ScorePosition(header) < 5 ==> r.Completed?
    ensures Accepted(header, cells) ==> (r.Completed? <==> Scored(table.ReadAll()))
    ensures Accepted(header, cells) && r.Failed? ==> r.printed == Report(base, cells)
    ensures r.Completed? ==> r.exported == IngestExport(table.ReadAll(), base, cells)
  {
    var ok := WriteStore(table, header, cells);
    if !ok {
      return Failed([]);
    }
    var records := table.ReadAll();
    if !Scored(records) {
      if ScorePosition(header) < 5 {
        StoredScore(table, header, cells);
      }
      return Failed(Report(base, cells));
    }
    r := Completed(IngestExport(records, base, cells));
  }

  /** Lines 67-73 and 82-110 for a spreadsheet input: the same store write
      as a delimited-text input, then the line count is printed and line
      110 raises, because the correction count is never assigned on this
      path. */
  method IngestSpreadsheet(table: ConvoyTable, base: string, header: seq<string>, cells: seq<seq<string>>)
    returns (r: Outcome)
    requires table.Valid() && Fits(header, cells)
    modifies table
    ensures table.Valid() && r.Failed?
    ensures Prepared(header, cells).None? ==> r.printed == [] && unchanged(table)
    ensures !Accepted(header, cells) ==> r.printed == []
    ensures TooNarrow(header, cells) || NameClash(header, cells) ==> !table.present
    ensures KeyClash(header, cells) ==>
      table.present && table.columns == Stored(Prepared(header, cells).value).columns && table.rows == []
    ensures Accepted(header, cells) ==> Holds(table, header, cells)
    ensures Accepted(header, cells) ==> r.printed == [LinesMessage(|cells|, RemoveMarker(base))]
  {
    var ok := WriteStore(table, header, cells);
    if !ok {
      return Failed([]);
    }
    r := Failed([LinesMessage(|cells|, RemoveMarker(base))]);
  }

  /** The input's name has a '.' and this extension (line 13). */
  predicate HasExtension(file: string, ext: string) {
    BaseAndExtension(file).Some? && BaseAndExtension(file).value.1 == ext
  }

  /** Any input with an extension other than these two is read as
      delimited text (line 76). */
  predicate IsText(file: string) {
    BaseAndExtension(file).Some? && !HasExtension(file, "s3db") && !HasExtension(file, "xlsx")
  }

  function BaseOf(file: string): string
    requires BaseAndExtension(file).Some?
  {
    BaseAndExtension(file).value.0
  }

  /** Line 13 and lines 60-118: the extension of the input decides the
      path. A name without '.' fails at line 13. */
  method SpreadsheetParser(table: ConvoyTable, file: string, header: seq<string>, cells: seq<seq<string>>)
    returns (r: Outcome)
    requires table.Valid() && Fits(header, cells)
    modifies table
    ensures table.Valid()
    ensures BaseAndExtension(file).None? ==> r == Failed([]) && unchanged(table)
    // a store input is only exported
    ensures HasExtension(file, "s3db") ==> unchanged(table)
    ensures HasExtension(file, "s3db") ==> (r.Completed? <==> table.present && Scored(table.ReadAll()))
    ensures HasExtension(file, "s3db") && r.Completed? ==> r.exported == ExportRecords(table.ReadAll(), BaseOf(file))
    ensures HasExtension(file, "s3db") && r.Failed? ==> r.printed == []
    // a spreadsheet input rewrites the store, then fails
    ensures HasExtension(file, "xlsx") ==> r.Failed?
    ensures HasExtension(file, "xlsx") && Prepared(header, cells).None? ==> unchanged(table)
    ensures HasExtension(file, "xlsx") && !Accepted(header, cells) ==> r == Failed([])
    ensures HasExtension(file, "xlsx") && (TooNarrow(header, cells) || NameClash(header, cells)) ==> !table.present
    ensures HasExtension(file, "xlsx") && KeyClash(header, cells) ==>
      table.present && table.columns == Stored(Prepared(header, cells).value).columns && table.rows == []
    ensures HasExtension(file, "xlsx") && Accepted(header, cells) ==> Holds(table, header, cells)
    ensures HasExtension(file, "xlsx") && Accepted(header, cells) ==>
      r == Failed([LinesMessage(|cells|, RemoveMarker(BaseOf(file)))])
    // any other input rewrites the store and is exported from it
    ensures IsText(file) && Prepared(header, cells).None? ==> unchanged(table)
    ensures IsText(file) && !Accepted(header, cells) ==> r == Failed([])
    ensures IsText(file) && (TooNarrow(header, cells) || NameClash(header, cells)) ==> !table.present
    ensures IsText(file) && KeyClash(header, cells) ==>
      table.present && table.columns == Stored(Prepared(header, cells).value).columns && table.rows == []
    ensures IsText(file) && Accepted(header, cells) ==> Holds(table, header, cells)
    ensures IsText(file) && r.Completed? ==> Accepted(header, cells) && table.present
    ensures IsText(file) && Accepted(header, cells) ==> table.present && (r.Completed? <==> Scored(table.ReadAll()))
    ensures IsText(file) && Accepted(header, cells) && ScorePosition(header) < 5 ==> r.Completed?
    ensures IsText(file) && Accepted(header, cells) && r.Failed? ==> r.printed == Report(BaseOf(file), cells)
    ensures IsText(file) && r.Completed? ==> r.exported == IngestExport(table.ReadAll(), BaseOf(file), cells)
  {
    var parts := BaseAndExtension(file);
    if parts.None? {
      return Failed([]);
    }
    var (base, extension) := parts.value;
    if extension == "s3db" {
      r := ExportStore(table, base);
    } else if extension == "xlsx" {
      r := IngestSpreadsheet(table, base, header, cells);
    } else {
      r := IngestText(table, base, header, cells);
    }
  }
}
