/** Cell repair (convoy.py, spreadsheet_parser): every character that is not a
    decimal digit is deleted from a cell, the rest is read as a 64-bit integer,
    and the cells that held at least one non-digit are counted. */
module Cells {
  import opened Wrappers
  import opened Decimal

  /** Largest value `astype('int64')` accepts. */
  const Int64Max: nat := 0x7FFF_FFFF_FFFF_FFFF

  /** The cell matches the pattern `\D`: some character is not a digit. */
  predicate HasNonDigit(s: string) {
    exists i :: 0 <= i < |s| && !IsDigit(s[i])
  }

  predicate HasDigit(s: string) {
    exists i :: 0 <= i < |s| && IsDigit(s[i])
  }

  /** `s` can be obtained from `t` by deleting characters. */
  predicate IsSubsequence(s: string, t: string)
    decreases |t|
  {
    if s == [] then true
    else if t == [] then false
    else if s[0] == t[0] then IsSubsequence(s[1..], t[1..])
    else IsSubsequence(s, t[1..])
  }

  /** Replacing every match of `\D` by the empty string. */
  function StripNonDigits(s: string): (r: string)
    ensures AllDigits(r) && |r| <= |s|
    decreases |s|
  {
    if s == [] then []
    else (if IsDigit(s[0]) then [s[0]] else []) + StripNonDigits(s[1..])
  }

  /** Stripping distributes over concatenation: it works character by
      character, in order. */
  lemma {:induction false} StripConcat(a: string, b: string)
    ensures StripNonDigits(a + b) == StripNonDigits(a) + StripNonDigits(b)
    decreases |a|
  {
    if a != [] {
      var head := if IsDigit(a[0]) then [a[0]] else [];
      assert (a + b)[0] == a[0];
      assert (a + b)[1..] == a[1..] + b;
      StripConcat(a[1..], b);
      calc {
        StripNonDigits(a + b);
        head + StripNonDigits(a[1..] + b);
        head + (StripNonDigits(a[1..]) + StripNonDigits(b));
        (head + StripNonDigits(a[1..])) + StripNonDigits(b);
      }
    } else {
      assert a + b == b;
    }
  }

  /** The stripped cell is a subsequence of the cell ... */
  lemma {:induction false} StripIsSubsequence(s: string)
    ensures IsSubsequence(StripNonDigits(s), s)
    decreases |s|
  {
    if s != [] {
      StripIsSubsequence(s[1..]);
      var rest := StripNonDigits(s[1..]);
      if IsDigit(s[0]) {
        assert ([s[0]] + rest)[0] == s[0];
        assert ([s[0]] + rest)[1..] == rest;
      } else if rest != [] {
        assert StripNonDigits(s) == [] + rest == rest;
        assert IsDigit(rest[0]) && rest[0] != s[0];
      }
    }
  }

  /** ... that keeps every digit character as often as the cell holds it and
      no other character: exactly the digits of the cell, in order. */
  lemma {:induction false} StripCounts(s: string, c: char)
    ensures multiset(StripNonDigits(s))[c] == if IsDigit(c) then multiset(s)[c] else 0
    decreases |s|
  {
    if s != [] {
      StripCounts(s[1..], c);
      assert s == [s[0]] + s[1..];
      assert multiset(s) == multiset{s[0]} + multiset(s[1..]);
      var head := if IsDigit(s[0]) then [s[0]] else [];
      assert multiset(StripNonDigits(s)) == multiset(head) + multiset(StripNonDigits(s[1..]));
    }
  }

  /** A cell is left as it is exactly when it has no non-digit; otherwise
      stripping makes it strictly shorter. */
  lemma {:induction false} StripChangesIff(s: string)
    ensures StripNonDigits(s) == s <==> !HasNonDigit(s)
    ensures HasNonDigit(s) ==> |StripNonDigits(s)| < |s|
    decreases |s|
  {
    if s != [] {
      StripChangesIff(s[1..]);
      assert HasNonDigit(s) <==> !IsDigit(s[0]) || HasNonDigit(s[1..]) by {
        if HasNonDigit(s[1..]) {
          var i :| 0 <= i < |s[1..]| && !IsDigit(s[1..][i]);
          assert !IsDigit(s[i + 1]);
        }
        if HasNonDigit(s) && IsDigit(s[0]) {
          var i :| 0 <= i < |s| && !IsDigit(s[i]);
          assert !IsDigit(s[1..][i - 1]);
        }
      }
    }
  }

  /** Stripping twice is stripping once. */
  lemma StripIdempotent(s: string)
    ensures StripNonDigits(StripNonDigits(s)) == StripNonDigits(s)
  {
    StripChangesIff(StripNonDigits(s));
  }

  /** The stripped cell is empty exactly when the cell holds no digit. */
  lemma {:induction false} StripEmptyIff(s: string)
    ensures StripNonDigits(s) == [] <==> !HasDigit(s)
    decreases |s|
  {
    if s != [] {
      StripEmptyIff(s[1..]);
      if HasDigit(s[1..]) {
        var i :| 0 <= i < |s[1..]| && IsDigit(s[1..][i]);
        assert IsDigit(s[i + 1]);
      }
      if HasDigit(s) && !IsDigit(s[0]) {
        var i :| 0 <= i < |s| && IsDigit(s[i]);
        assert IsDigit(s[1..][i - 1]);
      }
    }
  }

  /** One cell after lines 82-83: `None` when nothing is left to convert
      (`''`) or the number does not fit in an int64; both raise. */
  function CleanCell(s: string): (r: Option<nat>)
    ensures r.Some? <==> HasDigit(s) && Value(StripNonDigits(s)) <= Int64Max
    ensures r.Some? ==> r.value == Value(StripNonDigits(s)) && r.value <= Int64Max
  {
    StripEmptyIff(s);
    var digits := StripNonDigits(s);
    if digits == [] || Value(digits) > Int64Max then None else Some(Value(digits))
  }

  /** A cell that already holds the decimal text of a number reads as that
      number, and is not counted as corrected. */
  lemma CleanCellOfNumber(n: nat)
    requires n <= Int64Max
    ensures CleanCell(Show(n)) == Some(n)
    ensures !HasNonDigit(Show(n))
  {
    StripChangesIff(Show(n));
    ValueShow(n);
  }

  /** Noise without digits before and after a number is dropped: "12kg" reads
      12 and "--5--" reads 5, and both are counted as corrected when the noise
      is not empty. */
  lemma NoiseAroundNumber(pre: string, n: nat, post: string)
    requires !HasDigit(pre) && !HasDigit(post) && n <= Int64Max
    ensures CleanCell(pre + Show(n) + post) == Some(n)
    ensures HasNonDigit(pre + Show(n) + post) <==> pre + post != []
  {
    var digits := Show(n);
    var s := pre + digits + post;
    StripEmptyIff(pre);
    StripEmptyIff(post);
    StripConcat(pre + digits, post);
    StripConcat(pre, digits);
    StripChangesIff(digits);
    assert !HasNonDigit(digits);
    assert StripNonDigits(s) == digits;
    assert HasDigit(s) by {
      assert IsDigit(s[|pre|]);
    }
    ValueShow(n);
    if pre != [] {
      assert !IsDigit(pre[0]);
      assert s[0] == pre[0];
    } else if post != [] {
      assert !IsDigit(post[0]);
      assert s[|digits|] == post[0];
    } else {
      assert s == digits;
    }
  }

  /** A unit after a number, or dashes around it, is dropped. */
  lemma CleanCellNoiseExamples()
    ensures CleanCell("12kg") == Some(12)
    ensures CleanCell("--5--") == Some(5)
  {
    assert Show(12) == "12";
    assert Show(5) == "5";
    NoiseAroundNumber("", 12, "kg");
    assert "" + "12" + "kg" == "12kg";
    NoiseAroundNumber("--", 5, "--");
    assert "--" + "5" + "--" == "--5--";
  }

  /** Every non-digit is deleted, not only the noise at the ends: digits on
      both sides are joined and a sign is lost. */
  lemma CleanCellJoinExamples()
    ensures CleanCell("1a2") == Some(12)
    ensures CleanCell("-5") == Some(5)
  {
    assert StripNonDigits("1a2") == "12" by {
      StripConcat("1a", "2");
      assert "1a2" == "1a" + "2";
    }
    assert Value("12") == 12 by { assert "12"[..1] == "1"; }
    assert StripNonDigits("-5") == "5";
  }

  /** A cell without digits cannot be converted. */
  lemma CleanCellNoDigitsExample()
    ensures CleanCell("kg") == None
  {
    assert StripNonDigits("kg") == "";
  }

  /** Number of cells of one row that match `\D` (line 77). */
  function RowCorrections(row: seq<string>): (n: nat)
    ensures n <= |row|
  {
    if row == [] then 0
    else (if HasNonDigit(row[0]) then 1 else 0) + RowCorrections(row[1..])
  }

  function CellCount(rows: seq<seq<string>>): nat {
    if rows == [] then 0 else |rows[0]| + CellCount(rows[1..])
  }

  /** The per-row counts summed (line 78; the filter drops only zeros): at
      most one correction per cell. */
  function CorrectedCells(rows: seq<seq<string>>): (n: nat)
    ensures n <= CellCount(rows)
  {
    if rows == [] then 0 else RowCorrections(rows[0]) + CorrectedCells(rows[1..])
  }

  /** Reference count: the cells that stripping changes, taken in row-major
      order. */
  function ChangedCells(cells: seq<string>): nat {
    if cells == [] then 0
    else (if StripNonDigits(cells[0]) != cells[0] then 1 else 0) + ChangedCells(cells[1..])
  }

  function Flatten(rows: seq<seq<string>>): seq<string> {
    if rows == [] then [] else rows[0] + Flatten(rows[1..])
  }

  lemma {:induction false} ChangedCellsConcat(a: seq<string>, b: seq<string>)
    ensures ChangedCells(a + b) == ChangedCells(a) + ChangedCells(b)
    decreases |a|
  {
    if a != [] {
      assert (a + b)[0] == a[0];
      assert (a + b)[1..] == a[1..] + b;
      ChangedCellsConcat(a[1..], b);
    } else {
      assert a + b == b;
    }
  }

  lemma {:induction false} RowCorrectionsAreChanges(row: seq<string>)
    ensures RowCorrections(row) == ChangedCells(row)
    decreases |row|
  {
    if row != [] {
      StripChangesIff(row[0]);
      RowCorrectionsAreChanges(row[1..]);
    }
  }

  /** The correction count is the number of cells whose cleaning changes
      them, and never more than the number of cells. */
  lemma {:induction false} CorrectedCellsAreChanges(rows: seq<seq<string>>)
    ensures CorrectedCells(rows) == ChangedCells(Flatten(rows))
    ensures CorrectedCells(rows) <= CellCount(rows)
    decreases |rows|
  {
    if rows != [] {
      CorrectedCellsAreChanges(rows[1..]);
      RowCorrectionsAreChanges(rows[0]);
      ChangedCellsConcat(rows[0], Flatten(rows[1..]));
    }
  }

  /** The count is zero exactly when every cell is already a digit string. */
  lemma {:induction false} CorrectedCellsZeroIff(rows: seq<seq<string>>)
    ensures CorrectedCells(rows) == 0 <==>
      forall i, j :: 0 <= i < |rows| && 0 <= j < |rows[i]| ==> AllDigits(rows[i][j])
    decreases |rows|
  {
    if rows != [] {
      CorrectedCellsZeroIff(rows[1..]);
      RowZeroIff(rows[0]);
      if CorrectedCells(rows) == 0 {
        forall i, j | 0 <= i < |rows| && 0 <= j < |rows[i]|
          ensures AllDigits(rows[i][j])
        {
          if i > 0 {
            assert rows[i] == rows[1..][i - 1];
          }
        }
      }
      if forall i, j :: 0 <= i < |rows| && 0 <= j < |rows[i]| ==> AllDigits(rows[i][j]) {
        forall i, j | 0 <= i < |rows[1..]| && 0 <= j < |rows[1..][i]|
          ensures AllDigits(rows[1..][i][j])
        {
          assert rows[1..][i] == rows[i + 1];
        }
      }
    }
  }

  lemma {:induction false} RowZeroIff(row: seq<string>)
    ensures RowCorrections(row) == 0 <==> forall j :: 0 <= j < |row| ==> AllDigits(row[j])
    decreases |row|
  {
    if row != [] {
      RowZeroIff(row[1..]);
      assert AllDigits(row[0]) <==> !HasNonDigit(row[0]);
      if forall j :: 0 <= j < |row[1..]| ==> AllDigits(row[1..][j]) {
        forall j | 0 < j < |row| ensures AllDigits(row[j]) {
          assert row[j] == row[1..][j - 1];
        }
      }
    }
  }

  /** One row after lines 82-83: every cell converted, or `None` if any cell
      fails to convert. */
  function CleanRow(row: seq<string>): (r: Option<seq<nat>>)
    ensures r.Some? <==> forall j :: 0 <= j < |row| ==> CleanCell(row[j]).Some?
    ensures r.Some? ==> (|r.value| == |row| &&
      forall j :: 0 <= j < |row| ==> CleanCell(row[j]) == Some(r.value[j]))
  {
    if row == [] then Some([])
    else
      match (CleanCell(row[0]), CleanRow(row[1..]))
      case (Some(v), Some(vs)) => Some([v] + vs)
      case _ => None
  }

  /** The whole frame after lines 82-83. */
  function CleanRows(rows: seq<seq<string>>): (r: Option<seq<seq<nat>>>)
    ensures r.Some? <==> forall i :: 0 <= i < |rows| ==> CleanRow(rows[i]).Some?
    ensures r.Some? ==> (|r.value| == |rows| &&
      forall i :: 0 <= i < |rows| ==> CleanRow(rows[i]) == Some(r.value[i]))
  {
    if rows == [] then Some([])
    else
      match (CleanRow(rows[0]), CleanRows(rows[1..]))
      case (Some(v), Some(vs)) => Some([v] + vs)
      case _ => None
  }
}
