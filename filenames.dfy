/** The two string rules on file names in convoy.py: the base name and the
    extension are the first two fields of `file.split('.')` (line 13), and
    the store is named after the base name with every "[CHECKED]" removed
    (line 93). */
module FileNames {
  import opened Wrappers

  const Marker: string := "[CHECKED]"

  /** Position of the first '.', or |s| when there is none. */
  function FirstDot(s: string): (i: nat)
    ensures i <= |s|
    ensures i < |s| ==> s[i] == '.'
    ensures forall j :: 0 <= j < i ==> s[j] != '.'
  {
    if s == [] then 0
    else if s[0] == '.' then 0
    else 1 + FirstDot(s[1..])
  }

  /** `s.split('.')`: the fields between the dots, in order. */
  function Split(s: string): (fields: seq<string>)
    ensures |fields| >= 1
    ensures forall k :: 0 <= k < |fields| ==> '.' !in fields[k]
    decreases |s|
  {
    var i := FirstDot(s);
    if i == |s| then [s] else [s[..i]] + Split(s[i + 1..])
  }

  /** `'.'.join(fields)`. */
  function Join(fields: seq<string>): string
    requires |fields| >= 1
  {
    if |fields| == 1 then fields[0] else fields[0] + "." + Join(fields[1..])
  }

  /** Splitting loses nothing: joining the fields with dots gives the name
      back. */
  lemma {:induction false} JoinSplit(s: string)
    ensures Join(Split(s)) == s
    decreases |s|
  {
    var i := FirstDot(s);
    if i < |s| {
      var rest := s[i + 1..];
      JoinSplit(rest);
      var fields := Split(s);
      assert fields == [s[..i]] + Split(rest);
      assert |fields| >= 2 && fields[1..] == Split(rest);
      assert Join(fields) == s[..i] + "." + rest;
      assert s == s[..i] + "." + rest;
    }
  }

  /** Line 13: `None` when the name has no '.', where indexing the second
      field raises. */
  function BaseAndExtension(file: string): (r: Option<(string, string)>)
    ensures r.Some? <==> '.' in file
    ensures r.Some? ==> '.' !in r.value.0 && '.' !in r.value.1
  {
    var fields := Split(file);
    if |fields| < 2 then None else Some((fields[0], fields[1]))
  }

  /** A name made of a dot-free base, a dot, a dot-free extension and any
      further dotted suffix splits into exactly that base and extension. */
  lemma BaseAndExtensionOf(base: string, ext: string, more: string)
    requires '.' !in base && '.' !in ext
    requires more == [] || more[0] == '.'
    ensures BaseAndExtension(base + "." + ext + more) == Some((base, ext))
  {
    var file := base + "." + ext + more;
    var rest := ext + more;
    DotFreePrefix(base, "." + rest);
    assert file == base + ("." + rest);
    assert file[|base| + 1..] == rest;
    assert file[..|base|] == base;
    assert Split(file) == [base] + Split(rest);
    DotFreePrefix(ext, more);
    assert Split(rest)[0] == ext by {
      if more == [] {
        assert rest == ext;
      } else {
        assert rest[..|ext|] == ext;
      }
    }
  }

  lemma DotFreePrefix(a: string, b: string)
    requires '.' !in a
    requires b == [] || b[0] == '.'
    ensures FirstDot(a + b) == |a|
  {
    var i := FirstDot(a + b);
    assert forall j :: 0 <= j < |a| ==> (a + b)[j] == a[j];
    if b != [] {
      assert (a + b)[|a|] == '.';
    }
  }

  function RemoveMarker(s: string): (r: string)
    ensures |r| <= |s|
    ensures forall c :: c in r ==> c in s
    decreases |s|
  {
    if s == [] then []
    else if Marker <= s then RemoveMarker(s[|Marker|..])
    else [s[0]] + RemoveMarker(s[1..])
  }

  /** Some occurrence of the marker starts at position i. */
  predicate MarkerAt(s: string, i: nat) {
    i + |Marker| <= |s| && s[i..i + |Marker|] == Marker
  }

  /** A name without the marker is left as it is. */
  lemma {:induction false} RemoveMarkerAbsent(s: string)
    requires forall i :: 0 <= i <= |s| ==> !MarkerAt(s, i)
    ensures RemoveMarker(s) == s
    decreases |s|
  {
    if s != [] {
      assert !MarkerAt(s, 0);
      assert !(Marker <= s);
      forall i | 0 <= i <= |s[1..]| ensures !MarkerAt(s[1..], i) {
        assert !MarkerAt(s, i + 1);
        if i + |Marker| <= |s[1..]| {
          assert s[1..][i..i + |Marker|] == s[i + 1..i + 1 + |Marker|];
        }
      }
      RemoveMarkerAbsent(s[1..]);
    }
  }

  /** Appending the marker to a name and removing it gives the same store
      name as the name alone: "[CHECKED]" cannot overlap itself, so the
      appended copy is always the one removed. */
  lemma {:induction false} RemoveMarkerAppended(s: string)
    ensures RemoveMarker(s + Marker) == RemoveMarker(s)
    decreases |s|
  {
    var t := s + Marker;
    assert t[|s|] == '[';
    assert forall k :: 0 < k < |Marker| ==> Marker[k] != '[';
    if s == [] {
      assert t == Marker;
      assert Marker <= t;
      assert t[|Marker|..] == [];
    } else if Marker <= t {
      assert Marker <= s;
      assert t[|Marker|..] == s[|Marker|..] + Marker;
      RemoveMarkerAppended(s[|Marker|..]);
    } else {
      assert !(Marker <= s);
      assert t[1..] == s[1..] + Marker;
      RemoveMarkerAppended(s[1..]);
    }
  }

  /** Store file of line 94 for the base name of the input. */
  function StoreName(base: string): (r: string)
    ensures |r| <= |base| + 5
    ensures '.' !in base ==> BaseAndExtension(r) == Some((RemoveMarker(base), "s3db"))
  {
    var name := RemoveMarker(base);
    if '.' in base then name + ".s3db"
    else SplitsAt(name, ".s3db"); name + ".s3db"
  }

  /** Side file of line 90: the marker is added to the base name as it
      stands, so the side file's own base name carries the marker. */
  function CheckedName(base: string): (r: string)
    ensures '.' !in base ==> BaseAndExtension(r) == Some((base + Marker, "csv"))
  {
    if '.' in base then base + Marker + ".csv"
    else SplitsAt(base + Marker, ".csv"); base + Marker + ".csv"
  }

  /** A dot-free name followed by one dotted extension splits back into
      the two. */
  lemma SplitsAt(name: string, dotted: string)
    requires '.' !in name && |dotted| >= 1 && dotted[0] == '.' && '.' !in dotted[1..]
    ensures BaseAndExtension(name + dotted) == Some((name, dotted[1..]))
  {
    BaseAndExtensionOf(name, dotted[1..], []);
    assert name + "." + dotted[1..] + [] == name + dotted;
  }

  /** The store name computed at line 94 is the same for a base name with
      "[CHECKED]" appended, the form line 90 gives the side file, as for the
      base name itself. */
  lemma RerunSameStore(base: string)
    ensures StoreName(base + Marker) == StoreName(base)
  {
    RemoveMarkerAppended(base);
  }
}
