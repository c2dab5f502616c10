/** `String.split` as Java defines it for a literal separator: matches are
    found left to right without overlapping; with no limit, trailing empty
    strings are removed, unless there was no match at all, in which case
    the result is the input alone. */
module Split {

  import opened Wrappers
  import opened Text

  /** The first position at or after `k` where `sep` occurs in `s`. */
  function FirstIndexFrom(s: string, sep: string, k: nat): (r: Option<nat>)
    requires |sep| > 0
    ensures r.Some? ==> k <= r.value && OccursAt(s, sep, r.value)
    ensures r.Some? ==> forall j :: k <= j < r.value ==> !OccursAt(s, sep, j)
    ensures r.None? ==> forall j :: k <= j ==> !OccursAt(s, sep, j)
    decreases |s| - k
  {
    if k + |sep| > |s| then None
    else if OccursAt(s, sep, k) then Some(k)
    else FirstIndexFrom(s, sep, k + 1)
  }

  function FirstIndex(s: string, sep: string): (r: Option<nat>)
    requires |sep| > 0
    ensures r.Some? ==> OccursAt(s, sep, r.value) && forall j :: 0 <= j < r.value ==> !OccursAt(s, sep, j)
    ensures r.None? ==> !Contains(s, sep)
  {
    FirstIndexFrom(s, sep, 0)
  }

  /** The first match is at `i` when `sep` occurs there and nowhere before. */
  lemma FirstMatchAt(s: string, sep: string, i: nat)
    requires |sep| > 0 && OccursAt(s, sep, i)
    requires forall j :: 0 <= j < i ==> !OccursAt(s, sep, j)
    ensures FirstIndex(s, sep) == Some(i)
  {
  }

  /** Every piece between the matches, trailing empty pieces included. */
  function SplitAll(s: string, sep: string): (r: seq<string>)
    requires |sep| > 0
    ensures |r| >= 1
    decreases |s|
  {
    match FirstIndex(s, sep)
      case None => [s]
      case Some(i) => [s[..i]] + SplitAll(s[i + |sep|..], sep)
  }

  /** Joining the pieces with the separator gives back the input. */
  function Join(parts: seq<string>, sep: string): string
    requires |parts| >= 1
  {
    if |parts| == 1 then parts[0] else parts[0] + sep + Join(parts[1..], sep)
  }

  lemma {:induction false} SplitAllJoin(s: string, sep: string)
    requires |sep| > 0
    ensures Join(SplitAll(s, sep), sep) == s
    decreases |s|
  {
    match FirstIndex(s, sep)
      case None =>
      case Some(i) =>
        SplitAllJoin(s[i + |sep|..], sep);
        assert SplitAll(s, sep)[1..] == SplitAll(s[i + |sep|..], sep);
        assert s == s[..i] + sep + s[i + |sep|..];
  }

  /** No piece contains the separator. */
  lemma {:induction false} SplitAllPiecesFree(s: string, sep: string)
    requires |sep| > 0
    ensures forall k :: 0 <= k < |SplitAll(s, sep)| ==> !Contains(SplitAll(s, sep)[k], sep)
    decreases |s|
  {
    match FirstIndex(s, sep)
      case None =>
      case Some(i) =>
        SplitAllPiecesFree(s[i + |sep|..], sep);
        var r := SplitAll(s, sep);
        assert r[1..] == SplitAll(s[i + |sep|..], sep);
        forall j | 0 <= j <= i && OccursAt(s[..i], sep, j) ensures false {
          assert s[..i][j..j + |sep|] == s[j..j + |sep|];
          assert OccursAt(s, sep, j);
        }
        forall k | 0 <= k < |r| ensures !Contains(r[k], sep) {
          if k > 0 { assert r[k] == r[1..][k - 1]; }
        }
  }

  /** Trailing empty strings removed. */
  function DropTrailingEmpty(parts: seq<string>): (r: seq<string>)
    ensures |r| <= |parts| && r == parts[..|r|]
    ensures r == [] || r[|r| - 1] != ""
    ensures forall k :: |r| <= k < |parts| ==> parts[k] == ""
  {
    if parts == [] then []
    else if parts[|parts| - 1] == "" then DropTrailingEmpty(parts[..|parts| - 1])
    else parts
  }

  /** `s.split(sep)` for a separator with no regular-expression meaning. */
  function JavaSplit(s: string, sep: string): (r: seq<string>)
    requires |sep| > 0
  {
    if FirstIndex(s, sep).None? then [s] else DropTrailingEmpty(SplitAll(s, sep))
  }

  /** `s.split(sep, 2)`: split at the first match only, keeping the rest whole. */
  function SplitOnce(s: string, sep: string): (r: seq<string>)
    requires |sep| > 0
    ensures FirstIndex(s, sep).None? ==> r == [s]
    ensures FirstIndex(s, sep).Some? ==> |r| == 2 && r[0] + sep + r[1] == s && !Contains(r[0], sep)
  {
    match FirstIndex(s, sep)
      case None => [s]
      case Some(i) =>
        assert s == s[..i] + sep + s[i + |sep|..];
        forall j | 0 <= j <= i && OccursAt(s[..i], sep, j) ensures false {
          assert s[..i][j..j + |sep|] == s[j..j + |sep|];
          assert OccursAt(s, sep, j);
        }
        [s[..i], s[i + |sep|..]]
  }

  /** A string made only of dots splits into empty pieces alone. */
  lemma {:induction false} DotsSplitIntoEmpties(s: string)
    requires forall j :: 0 <= j < |s| ==> s[j] == '.'
    ensures forall k :: 0 <= k < |SplitAll(s, ".")| ==> SplitAll(s, ".")[k] == ""
    decreases |s|
  {
    if s != [] {
      assert s[0..1] == ".";
      FirstMatchAt(s, ".", 0);
      DotsSplitIntoEmpties(s[1..]);
      assert SplitAll(s, ".")[1..] == SplitAll(s[1..], ".");
    }
  }

  /** Only a string made of dots splits into empty pieces alone. */
  lemma {:induction false} EmptiesComeFromDots(s: string)
    requires forall k :: 0 <= k < |SplitAll(s, ".")| ==> SplitAll(s, ".")[k] == ""
    ensures forall j :: 0 <= j < |s| ==> s[j] == '.'
    decreases |s|
  {
    match FirstIndex(s, ".")
      case None =>
        assert s == SplitAll(s, ".")[0];
      case Some(i) =>
        assert s[..i] == SplitAll(s, ".")[0];
        assert SplitAll(s, ".")[1..] == SplitAll(s[1..], ".");
        forall k | 0 <= k < |SplitAll(s[1..], ".")| ensures SplitAll(s[1..], ".")[k] == "" {
          assert SplitAll(s[1..], ".")[k] == SplitAll(s, ".")[k + 1];
        }
        EmptiesComeFromDots(s[1..]);
        assert s[0..1] == ".";
        forall j | 0 <= j < |s| ensures s[j] == '.' {
          if j > 0 { assert s[j] == s[1..][j - 1]; }
        }
  }

  /** No dot stands before a position where no match of "." starts earlier. */
  lemma NoDotBefore(s: string, i: nat)
    requires i <= |s| && forall j :: 0 <= j < i ==> !OccursAt(s, ".", j)
    ensures forall j :: 0 <= j < i ==> s[j] != '.'
  {
    forall j | 0 <= j < i ensures s[j] != '.' {
      assert !OccursAt(s, ".", j);
      assert s[j..j + 1] == [s[j]];
    }
  }

  /** `s.split("\\.")[0]`: the text before the first dot. The index fails
      (None) exactly when `s` is non-empty and made only of dots. */
  function BeforeFirstDot(s: string): (r: Option<string>)
    ensures r.None? <==> |s| > 0 && forall j :: 0 <= j < |s| ==> s[j] == '.'
    ensures r.Some? ==> StartsWith(s, r.value) && forall j :: 0 <= j < |r.value| ==> r.value[j] != '.'
    ensures r.Some? && |r.value| < |s| ==> s[|r.value|] == '.'
  {
    var parts := JavaSplit(s, ".");
    if FirstIndex(s, ".").None? then
      NoDotBefore(s, |s|);
      assert parts[0] == s;
      assert |s| > 0 ==> s[0] != '.';
      Some(parts[0])
    else
      var i := FirstIndex(s, ".").value;
      assert s[i..i + 1] == ".";
      if parts == [] then
        EmptiesComeFromDots(s);
        None
      else
        assert parts[0] == s[..i];
        NoDotBefore(s, i);
        if forall j :: 0 <= j < |s| ==> s[j] == '.' then
          DotsSplitIntoEmpties(s);
          assert false;
          None
        else
          Some(parts[0])
  }
}
