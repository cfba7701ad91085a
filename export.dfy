/** The export side of convoy.py (`read_s3db`, lines 16-48) and the count
    messages of lines 105-117: records split by score, the score key
    stripped, the high group written as a JSON object and the low group as
    XML, and every count reported with exact singular and plural wording. */
module Export {
  import opened Wrappers
  import opened Decimal
  import opened Store

  const ScoreKey: string := "score"

  /** The empty low export is written as this literal (line 41). */
  const EmptyXml: string := "<convoy></convoy>"

  /** Lines 27 and 29: every key but "score" kept with its value. */
  function WithoutScore(d: Record): (r: Record)
    ensures forall k :: k in r <==> k in d && k != ScoreKey
    ensures forall k :: k in r ==> r[k] == d[k]
  {
    d - {ScoreKey}
  }

  predicate Scored(data: seq<Record>) {
    forall i :: 0 <= i < |data| ==> ScoreKey in data[i]
  }

  predicate IsHigh(d: Record)
    requires ScoreKey in d
  {
    d[ScoreKey] > 3
  }

  predicate IsLow(d: Record)
    requires ScoreKey in d
  {
    d[ScoreKey] < 4
  }

  /** Lines 24 and 27. */
  function HighScores(data: seq<Record>): (r: seq<Record>)
    requires Scored(data)
    ensures |r| <= |data|
    ensures forall x :: x in r ==> ScoreKey !in x
  {
    if data == [] then []
    else (if IsHigh(data[0]) then [WithoutScore(data[0])] else []) + HighScores(data[1..])
  }

  /** Lines 25 and 29. */
  function LowScores(data: seq<Record>): (r: seq<Record>)
    requires Scored(data)
    ensures |r| <= |data|
    ensures forall x :: x in r ==> ScoreKey !in x
  {
    if data == [] then []
    else (if IsLow(data[0]) then [WithoutScore(data[0])] else []) + LowScores(data[1..])
  }

  /** Every record lands in exactly one group, so the two sizes add up to
      the number of records. */
  lemma {:induction false} PartitionSizes(data: seq<Record>)
    requires Scored(data)
    ensures |HighScores(data)| + |LowScores(data)| == |data|
    ensures forall i :: 0 <= i < |data| ==> IsHigh(data[i]) != IsLow(data[i])
    decreases |data|
  {
    if data != [] {
      PartitionSizes(data[1..]);
    }
  }

  lemma ScoredAppend(a: seq<Record>, b: seq<Record>)
    requires Scored(a) && Scored(b)
    ensures Scored(a + b)
  {
    forall i | 0 <= i < |a + b| ensures ScoreKey in (a + b)[i] {
      if i >= |a| {
        assert (a + b)[i] == b[i - |a|];
      }
    }
  }

  /** The high group keeps the store order: splitting the records splits
      the group at the same place. */
  lemma {:induction false} HighAppend(a: seq<Record>, b: seq<Record>)
    requires Scored(a) && Scored(b)
    ensures Scored(a + b)
    ensures HighScores(a + b) == HighScores(a) + HighScores(b)
    decreases |a|
  {
    ScoredAppend(a, b);
    if a == [] {
      assert a + b == b;
    } else {
      var ab := a + b;
      assert ab[0] == a[0] && ab[1..] == a[1..] + b;
      HighAppend(a[1..], b);
      var h := if IsHigh(a[0]) then [WithoutScore(a[0])] else [];
      assert HighScores(ab) == h + (HighScores(a[1..]) + HighScores(b));
      assert HighScores(a) == h + HighScores(a[1..]);
    }
  }

  /** The same for the low group. */
  lemma {:induction false} LowAppend(a: seq<Record>, b: seq<Record>)
    requires Scored(a) && Scored(b)
    ensures Scored(a + b)
    ensures LowScores(a + b) == LowScores(a) + LowScores(b)
    decreases |a|
  {
    ScoredAppend(a, b);
    if a == [] {
      assert a + b == b;
    } else {
      var ab := a + b;
      assert ab[0] == a[0] && ab[1..] == a[1..] + b;
      LowAppend(a[1..], b);
      var l := if IsLow(a[0]) then [WithoutScore(a[0])] else [];
      assert LowScores(ab) == l + (LowScores(a[1..]) + LowScores(b));
      assert LowScores(a) == l + LowScores(a[1..]);
    }
  }

  /** A record is in the high group exactly when it is some source record
      with a score above 3, with its score removed. */
  lemma {:induction false} HighMembers(data: seq<Record>, x: Record)
    requires Scored(data)
    ensures x in HighScores(data) <==>
      exists i :: 0 <= i < |data| && IsHigh(data[i]) && x == WithoutScore(data[i])
    decreases |data|
  {
    if data != [] {
      HighMembers(data[1..], x);
      if exists i :: 0 <= i < |data[1..]| && IsHigh(data[1..][i]) && x == WithoutScore(data[1..][i]) {
        var i :| 0 <= i < |data[1..]| && IsHigh(data[1..][i]) && x == WithoutScore(data[1..][i]);
        assert data[i + 1] == data[1..][i];
      }
      if exists i :: 0 <= i < |data| && IsHigh(data[i]) && x == WithoutScore(data[i]) {
        var i :| 0 <= i < |data| && IsHigh(data[i]) && x == WithoutScore(data[i]);
        if i > 0 {
          assert data[1..][i - 1] == data[i];
        }
      }
    }
  }

  /** The same for the low group and scores below 4. */
  lemma {:induction false} LowMembers(data: seq<Record>, x: Record)
    requires Scored(data)
    ensures x in LowScores(data) <==>
      exists i :: 0 <= i < |data| && IsLow(data[i]) && x == WithoutScore(data[i])
    decreases |data|
  {
    if data != [] {
      LowMembers(data[1..], x);
      if exists i :: 0 <= i < |data[1..]| && IsLow(data[1..][i]) && x == WithoutScore(data[1..][i]) {
        var i :| 0 <= i < |data[1..]| && IsLow(data[1..][i]) && x == WithoutScore(data[1..][i]);
        assert data[i + 1] == data[1..][i];
      }
      if exists i :: 0 <= i < |data| && IsLow(data[i]) && x == WithoutScore(data[i]) {
        var i :| 0 <= i < |data| && IsLow(data[i]) && x == WithoutScore(data[i]);
        if i > 0 {
          assert data[1..][i - 1] == data[i];
        }
      }
    }
  }

  /** The JSON values `json.dump` writes here. */
  datatype Json = JInt(n: int) | JArray(items: seq<Json>) | JObject(fields: map<string, Json>)

  function RecordJson(d: Record): Json {
    JObject(map k | k in d :: JInt(d[k]))
  }

  /** Line 28: `{'convoy': high}`, written even when the group is empty. */
  function HighDocument(high: seq<Record>): (j: Json)
    ensures j.JObject? && j.fields.Keys == {"convoy"}
  {
    JObject(map["convoy" := JArray(seq(|high|, i requires 0 <= i < |high| => RecordJson(high[i])))])
  }

  /** Reading a JSON document of that shape back into records. */
  function ReadHighDocument(j: Json): Option<seq<Record>> {
    if j.JObject? && "convoy" in j.fields && j.fields["convoy"].JArray? then
      ReadRecords(j.fields["convoy"].items)
    else None
  }

  function ReadRecords(items: seq<Json>): Option<seq<Record>> {
    if items == [] then Some([])
    else
      match (ReadRecord(items[0]), ReadRecords(items[1..]))
      case (Some(d), Some(ds)) => Some([d] + ds)
      case _ => None
  }

  function ReadRecord(j: Json): Option<Record> {
    if j.JObject? && forall k :: k in j.fields ==> j.fields[k].JInt? then
      Some(map k | k in j.fields :: j.fields[k].n)
    else None
  }

  /** The high document holds exactly the high records, in order. */
  lemma HighDocumentRoundTrip(high: seq<Record>)
    ensures ReadHighDocument(HighDocument(high)) == Some(high)
  {
    var items := seq(|high|, i requires 0 <= i < |high| => RecordJson(high[i]));
    assert HighDocument(high).fields["convoy"] == JArray(items);
    ReadRecordsOf(high, items);
  }

  lemma {:induction false} ReadRecordsOf(records: seq<Record>, items: seq<Json>)
    requires |items| == |records|
    requires forall i :: 0 <= i < |items| ==> items[i] == RecordJson(records[i])
    ensures ReadRecords(items) == Some(records)
    decreases |items|
  {
    if items != [] {
      ReadRecordsOf(records[1..], items[1..]);
      var d := records[0];
      assert ReadRecord(items[0]) == Some(d) by {
        var m := map k | k in RecordJson(d).fields :: RecordJson(d).fields[k].n;
        assert m == d;
      }
      assert records == [d] + records[1..];
    }
  }

  /** The low export: the literal when the group is empty, otherwise the
      `to_xml` rendering with root "convoy" and one "vehicle" per record. */
  datatype Xml = Literal(text: string) | Rendered(root: string, row: string, records: seq<Record>)

  /** Lines 37 and 40-43. */
  function LowDocument(low: seq<Record>): (x: Xml)
    ensures x.Literal? <==> low == []
    ensures x.Literal? ==> x.text == EmptyXml
    ensures x.Rendered? ==> x.root == "convoy" && x.row == "vehicle"
  {
    if |low| == 0 then Literal(EmptyXml) else Rendered("convoy", "vehicle", low)
  }

  /** The vehicles an XML export holds; the literal holds none. */
  function XmlVehicles(x: Xml): seq<Record> {
    match x
    case Literal(_) => []
    case Rendered(_, _, records) => records
  }

  /** The low document holds exactly the low records, in order, whether or
      not the group is empty. */
  lemma LowDocumentRoundTrip(low: seq<Record>)
    ensures XmlVehicles(LowDocument(low)) == low
  {}

  /** "<n> <noun> was <rest>" for one, "<n> <noun>s were <rest>" otherwise. */
  function Counted(n: nat, noun: string, rest: string): (m: string)
    ensures Show(n) + " " + noun <= m
    ensures |m| >= |rest| && m[|m| - |rest|..] == rest
  {
    Show(n) + " " + noun + (if n == 1 then " was " else "s were ") + rest
  }

  /** The singular wording is used exactly for a count of one: no other
      count's message starts like "1 <noun> was ". */
  lemma CountedWording(n: nat, noun: string, rest: string)
    ensures n == 1 <==> "1 " + noun + " was " <= Counted(n, noun, rest)
    ensures n != 1 ==> Show(n) + " " + noun + "s were " <= Counted(n, noun, rest)
  {
    var msg := Counted(n, noun, rest);
    var one := "1 " + noun + " was ";
    var digits := Show(n);
    ShowIsOne(n);
    if n == 1 {
      assert msg == one + rest;
    } else {
      assert msg == digits + (" " + noun + "s were " + rest);
      assert msg[0] == digits[0];
      if |digits| == 1 {
        assert digits == [digits[0]];
      } else {
        assert msg[1] == digits[1] && IsDigit(msg[1]);
      }
    }
  }

  /** Lines 33-36 and 44-47. */
  function SavedMessage(n: nat, file: string): (m: string)
    ensures n == 1 <==> "1 vehicle was " <= m
  {
    CountedWording(n, "vehicle", "saved into " + file);
    Counted(n, "vehicle", "saved into " + file)
  }

  /** Lines 106-109. */
  function LinesMessage(n: nat, name: string): (m: string)
    ensures n == 1 <==> "1 line was " <= m
  {
    CountedWording(n, "line", "added to " + name + ".csv");
    Counted(n, "line", "added to " + name + ".csv")
  }

  /** Lines 110-113: nothing is reported when no cell was corrected. */
  function CorrectedMessage(count: nat, checkedName: string): (m: Option<string>)
    ensures m.Some? <==> count >= 1
    ensures m.Some? ==> (count == 1 <==> "1 cell was " <= m.value)
  {
    CountedWording(count, "cell", "corrected in " + checkedName);
    if count == 0 then None else Some(Counted(count, "cell", "corrected in " + checkedName))
  }

  /** Lines 114-117. */
  function InsertedMessage(n: nat, name: string): (m: string)
    ensures n == 1 <==> "1 record was " <= m
  {
    CountedWording(n, "record", "inserted into " + name + ".s3db");
    Counted(n, "record", "inserted into " + name + ".s3db")
  }

  /** Lines 110-117: the report of a delimited-text ingestion, printed
      after the store is written: the corrections, if any, then the
      records inserted. */
  function IngestMessages(name: string, checkedName: string, rowCount: nat, count: nat)
    : (msgs: seq<string>)
    ensures |msgs| == (if count >= 1 then 2 else 1)
    ensures count >= 1 ==> msgs[0] == CorrectedMessage(count, checkedName).value
    ensures msgs[|msgs| - 1] == InsertedMessage(rowCount, name)
  {
    (match CorrectedMessage(count, checkedName) case Some(m) => [m] case None => [])
      + [InsertedMessage(rowCount, name)]
  }

  datatype Exported = Exported(json: Json, xml: Xml, messages: seq<string>)

  /** `read_s3db` after the rows are fetched: both documents and the two
      count messages. */
  function ExportRecords(data: seq<Record>, name: string): (e: Exported)
    requires Scored(data)
    ensures ReadHighDocument(e.json) == Some(HighScores(data))
    ensures XmlVehicles(e.xml) == LowScores(data)
    ensures e.xml.Literal? <==> LowScores(data) == []
    ensures e.messages == [SavedMessage(|HighScores(data)|, name + ".json"),
                           SavedMessage(|LowScores(data)|, name + ".xml")]
  {
    var high, low := HighScores(data), LowScores(data);
    HighDocumentRoundTrip(high);
    Exported(HighDocument(high), LowDocument(low),
             [SavedMessage(|high|, name + ".json"), SavedMessage(|low|, name + ".xml")])
  }
}
