/**
 * Splitting a string at a separator and joining it again. The join fills a buffer and reads it back as
 * a C string, so it stops at the first NUL.
 */
module SplitJoin {
  import opened Base

  // ----- what they mean -----

  function Join(list: seq<string>, sep: string): string {
    if list == [] then "" else if |list| == 1 then list[0] else list[0] + (sep + Join(list[1..], sep))
  }

  /** What a C string pointer to the start of `s` sees. */
  function CString(s: string): string {
    if s == "" || s[0] == '\0' then "" else [s[0]] + CString(s[1..])
  }

  predicate OccursAt(s: string, sub: string, k: nat) { k + |sub| <= |s| && s[k..k + |sub|] == sub }

  predicate Occurs(s: string, sub: string) { exists k: nat :: k <= |s| && OccursAt(s, sub, k) }

  /** The first occurrence at or after `start`. */
  function FindFrom(s: string, sub: string, start: nat): (r: Option<nat>)
    ensures r.Some? ==> start <= r.value <= r.value + |sub| <= |s|
    decreases |s| - start
  {
    if start + |sub| > |s| then None
    else if OccursAt(s, sub, start) then Some(start)
    else FindFrom(s, sub, start + 1)
  }

  /** It is an occurrence, there is none before it, and without one there is none at all. */
  lemma {:induction false} FindIsFirst(s: string, sub: string, start: nat)
    ensures var r := FindFrom(s, sub, start);
      && (r.Some? ==> OccursAt(s, sub, r.value))
      && forall k :: start <= k && (r.Some? ==> k < r.value) ==> !OccursAt(s, sub, k)
    decreases |s| - start
  {
    if start + |sub| <= |s| && !OccursAt(s, sub, start) { FindIsFirst(s, sub, start + 1); }
  }

  function Pieces(s: string, sep: string): (r: seq<string>)
    requires sep != ""
    ensures r != []
    decreases |s|
  {
    match FindFrom(s, sep, 0)
    case None => [s]
    case Some(k) => [s[..k]] + Pieces(s[k + |sep|..], sep)
  }

  function Split(s: string, sep: string): seq<string> {
    if s == "" || sep == "" then [s] else Pieces(s, sep)
  }

  // ----- the loops -----

  method Copy(buffer: array<char>, pos: nat, src: string)
    requires pos + |src| <= buffer.Length
    modifies buffer
    ensures buffer[..pos + |src|] == old(buffer[..pos]) + src
    ensures forall k :: pos + |src| <= k < buffer.Length ==> buffer[k] == old(buffer[k])
  {
    forall i | 0 <= i < |src| { buffer[pos + i] := src[i]; }
  }

  function TotalSize(list: seq<string>): nat {
    if list == [] then 0 else |list[0]| + TotalSize(list[1..])
  }

  lemma {:induction false} JoinSize(list: seq<string>, sep: string)
    requires list != []
    ensures |Join(list, sep)| == TotalSize(list) + (|list| - 1) * |sep|
  {
    if |list| == 1 {
      assert TotalSize(list[1..]) == 0;
    } else {
      JoinSize(list[1..], sep);
    }
  }

  lemma {:induction false} TotalSizeSnoc(list: seq<string>, s: string)
    ensures TotalSize(list + [s]) == TotalSize(list) + |s|
  {
    if list == [] {
      assert [s][1..] == [] && list + [s] == [s];
    } else {
      TotalSizeSnoc(list[1..], s);
      assert (list + [s])[1..] == list[1..] + [s];
    }
  }

  method Measure(list: seq<string>, sep: string) returns (total: nat)
    requires list != []
    ensures total == |Join(list, sep)|
  {
    total := 0;
    for i := 0 to |list|
      invariant total == TotalSize(list[..i])
    {
      total := total + |list[i]|;
      TotalSizeSnoc(list[..i], list[i]);
      assert list[..i + 1] == list[..i] + [list[i]];
    }
    assert list[..|list|] == list;
    JoinSize(list, sep);
    total := total + (|list| - 1) * |sep|;
  }

  /** What the loop has written after `i` rounds. */
  ghost function Written(list: seq<string>, sep: string, i: nat): string
    requires i <= |list|
  {
    if i == 0 then "" else Written(list, sep, i - 1) + list[i - 1] + sep
  }

  lemma {:induction false} WrittenAndRest(list: seq<string>, sep: string, i: nat)
    requires i < |list|
    ensures Written(list, sep, i) + Join(list[i..], sep) == Join(list, sep)
  {
    if i == 0 {
      assert list[0..] == list;
    } else {
      var done, rest := Written(list, sep, i - 1), Join(list[i..], sep);
      WrittenAndRest(list, sep, i - 1);
      assert list[i - 1..][1..] == list[i..];
      ConcatAssoc(done, list[i - 1], sep + rest);
      ConcatAssoc(done + list[i - 1], sep, rest);
    }
  }

  lemma RoundFits(list: seq<string>, sep: string, i: nat)
    requires i < |list|
    ensures |Written(list, sep, i)| + |list[i]| + (if i + 1 < |list| then |sep| else 0) <= |Join(list, sep)|
    ensures i + 1 == |list| ==> Written(list, sep, i) + list[i] == Join(list, sep)
  {
    WrittenAndRest(list, sep, i);
    if i + 1 < |list| { WrittenAndRest(list, sep, i + 1); }
  }

  /** Every write lands inside the buffer, and the last one ends at the last position but one. */
  method WriteJoined(list: seq<string>, sep: string, buffer: array<char>) returns (end: nat)
    requires list != [] && buffer.Length == |Join(list, sep)| + 1
    modifies buffer
    ensures end == |Join(list, sep)| && buffer[..end] == Join(list, sep)
    ensures buffer[end] == old(buffer[end])
  {
    var pos: nat, i: nat := 0, 0;
    while i + 1 < |list|
      invariant i < |list| && pos == |Written(list, sep, i)| < buffer.Length
      invariant buffer[..pos] == Written(list, sep, i)
      invariant buffer[buffer.Length - 1] == old(buffer[buffer.Length - 1])
    {
      RoundFits(list, sep, i);
      Copy(buffer, pos, list[i]);
      pos := pos + |list[i]|;
      assert buffer[..pos] == Written(list, sep, i) + list[i];
      Copy(buffer, pos, sep);
      pos := pos + |sep|;
      i := i + 1;
      assert buffer[..pos] == Written(list, sep, i);
    }
    RoundFits(list, sep, i);
    Copy(buffer, pos, list[i]);
    end := pos + |list[i]|;
  }

  method StringJoin(list: seq<string>, sep: string) returns (r: string)
    ensures r == CString(Join(list, sep))
  {
    if |list| == 0 { return ""; }
    var total := Measure(list, sep);
    var buffer := new char[total + 1](_ => '\0');
    var end := WriteJoined(list, sep, buffer);
    r := ReadCString(buffer, end);
  }

  /** Reading up to the first NUL, which is at `end` at the latest. */
  method ReadCString(buffer: array<char>, ghost end: nat) returns (r: string)
    requires end < buffer.Length && buffer[end] == '\0'
    ensures r == CString(buffer[..end])
  {
    var i := 0;
    r := "";
    while buffer[i] != '\0'
      invariant i <= end
      invariant r + CString(buffer[i..end]) == CString(buffer[..end])
      decreases end - i
    {
      assert buffer[i..end][1..] == buffer[i + 1..end];
      ConcatAssoc(r, [buffer[i]], CString(buffer[i + 1..end]));
      r := r + [buffer[i]];
      i := i + 1;
    }
    assert CString(buffer[i..end]) == "";
  }

  lemma FindShift(s: string, sep: string, from: nat, start: nat)
    requires from <= |s| && sep != ""
    ensures var r := FindFrom(s, sep, from + start);
            FindFrom(s[from..], sep, start) == if r.Some? then Some(r.value - from) else None
    decreases |s| - start
  {
    if from + start + |sep| <= |s| {
      assert s[from..][start..start + |sep|] == s[from + start..from + start + |sep|];
      FindShift(s, sep, from, start + 1);
    }
  }

  lemma PiecesOnce(s: string, sep: string, k: nat, piece: string, rest: string)
    requires sep != "" && FindFrom(s, sep, 0) == Some(k) && piece == s[..k] && rest == s[k + |sep|..]
    ensures Pieces(s, sep) == [piece] + Pieces(rest, sep)
  {}

  lemma SliceTwice(s: string, pos: nat, k: nat, next: nat)
    requires pos <= k <= next <= |s|
    ensures s[pos..][..k - pos] == s[pos..k] && s[pos..][next - pos..] == s[next..]
  {}

  lemma PiecesStep(s: string, sep: string, pos: nat, k: nat, piece: string, rest: string)
    requires pos <= |s| && sep != "" && FindFrom(s, sep, pos) == Some(k)
    requires piece == s[pos..k] && rest == s[k + |sep|..]
    ensures Pieces(s[pos..], sep) == [piece] + Pieces(rest, sep)
  {
    FindShift(s, sep, pos, 0);
    SliceTwice(s, pos, k, k + |sep|);
    PiecesOnce(s[pos..], sep, k - pos, piece, rest);
  }

  method StringSplit(s: string, sep: string) returns (r: seq<string>)
    ensures r == Split(s, sep)
  {
    if |s| == 0 || |sep| == 0 { return [s]; }
    r := [];
    var prePos := 0;
    assert s[0..] == s;
    var found := FindFrom(s, sep, prePos);
    while found.Some?
      invariant prePos <= |s| && found == FindFrom(s, sep, prePos)
      invariant r + Pieces(s[prePos..], sep) == Pieces(s, sep)
      decreases |s| - prePos
    {
      var piece := s[prePos..found.value];
      ghost var rest := s[found.value + |sep|..];
      PiecesStep(s, sep, prePos, found.value, piece, rest);
      ConcatAssoc(r, [piece], Pieces(rest, sep));
      r := r + [piece];
      prePos := found.value + |sep|;
      found := FindFrom(s, sep, prePos);
    }
    FindShift(s, sep, prePos, 0);
    r := r + [s[prePos..]];
  }

  // ----- joining what was split -----

  lemma {:induction false} JoinPieces(s: string, sep: string)
    requires sep != ""
    ensures Join(Pieces(s, sep), sep) == s
    decreases |s|
  {
    FindIsFirst(s, sep, 0);
    var r := FindFrom(s, sep, 0);
    if r.Some? {
      var k, rest := r.value, s[r.value + |sep|..];
      JoinPieces(rest, sep);
      PiecesOnce(s, sep, k, s[..k], rest);
      JoinFirst(s[..k], Pieces(rest, sep), sep);
      CutAt(s, sep, k);
    }
  }

  lemma JoinFirst(first: string, more: seq<string>, sep: string)
    requires more != []
    ensures Join([first] + more, sep) == first + (sep + Join(more, sep))
  {
    assert ([first] + more)[1..] == more;
  }

  lemma CutAt(s: string, sep: string, k: nat)
    requires OccursAt(s, sep, k)
    ensures s == s[..k] + (sep + s[k + |sep|..])
  {
    assert s == s[..k] + (s[k..k + |sep|] + s[k + |sep|..]);
  }

  lemma {:induction false} PiecesAvoid(s: string, sep: string)
    requires sep != ""
    ensures forall piece :: piece in Pieces(s, sep) ==> !Occurs(piece, sep)
    decreases |s|
  {
    FindIsFirst(s, sep, 0);
    var r := FindFrom(s, sep, 0);
    if r.Some? {
      var k, rest := r.value, s[r.value + |sep|..];
      PiecesAvoid(rest, sep);
      PiecesOnce(s, sep, k, s[..k], rest);
      PrefixAvoids(s, sep, k);
    }
  }

  /** Nothing before the first occurrence holds one. */
  lemma PrefixAvoids(s: string, sep: string, k: nat)
    requires sep != "" && k <= |s| && forall j :: 0 <= j < k ==> !OccursAt(s, sep, j)
    ensures !Occurs(s[..k], sep)
  {
    forall j: nat | j <= k ensures !OccursAt(s[..k], sep, j) {
      if j + |sep| <= k {
        assert s[..k] + s[k..] == s;
        InsideOccurs(s[..k], s[k..], sep, j);
      }
    }
  }

  lemma {:induction false} CStringWhole(s: string)
    ensures CString(s) <= s
    ensures CString(s) == s <==> '\0' !in s
  {
    if s != "" {
      CStringWhole(s[1..]);
      assert s == [s[0]] + s[1..];
    }
  }

  /**
   * Splitting and joining gives the string back exactly when it holds no NUL, and otherwise what comes
   * before the first one. No piece contains the separator. An empty string, or any string with an empty
   * separator, is one piece.
   */
  lemma SplitThenJoin(s: string, sep: string)
    ensures Join(Split(s, sep), sep) == s
    ensures CString(Join(Split(s, sep), sep)) == s <==> '\0' !in s
    ensures sep != "" ==> forall piece :: piece in Split(s, sep) ==> !Occurs(piece, sep)
    ensures s == "" || sep == "" ==> Split(s, sep) == [s]
  {
    CStringWhole(s);
    if sep != "" {
      JoinPieces(s, sep);
      PiecesAvoid(s, sep);
    }
  }

  // ----- splitting what was joined -----

  /** A border is a proper part of a string that both begins and ends it. */
  predicate Bordered(s: string) { exists k :: 0 < k < |s| && s[..k] == s[|s| - k..] }

  lemma FindIs(s: string, sub: string, start: nat, k: nat)
    requires start <= k && OccursAt(s, sub, k) && forall j :: start <= j < k ==> !OccursAt(s, sub, j)
    ensures FindFrom(s, sub, start) == Some(k)
  {
    FindIsFirst(s, sub, start);
  }

  /** An occurrence that began inside `a` would either lie in it or overlap the separator that follows. */
  lemma FirstIsAfter(a: string, sep: string, rest: string)
    requires sep != "" && !Occurs(a, sep) && !Bordered(sep)
    ensures FindFrom(a + (sep + rest), sep, 0) == Some(|a|)
  {
    var s := a + (sep + rest);
    assert s[|a|..|a| + |sep|] == sep;
    forall j | 0 <= j < |a| ensures !OccursAt(s, sep, j) {
      if j + |sep| <= |a| { InsideOccurs(a, sep + rest, sep, j); } else { Overlap(a, sep, rest, j); }
    }
    FindIs(s, sep, 0, |a|);
  }

  lemma InsideOccurs(a: string, rest: string, sep: string, j: nat)
    requires j + |sep| <= |a|
    ensures OccursAt(a + rest, sep, j) <==> OccursAt(a, sep, j)
  {
    assert (a + rest)[j..j + |sep|] == a[j..j + |sep|];
  }

  lemma Overlap(a: string, sep: string, rest: string, j: nat)
    requires j < |a| < j + |sep|
    ensures OccursAt(a + (sep + rest), sep, j) ==> Bordered(sep)
  {
    var s := a + (sep + rest);
    var k := j + |sep| - |a|;
    if OccursAt(s, sep, j) {
      assert sep[|sep| - k..] == s[j..j + |sep|][|sep| - k..] == s[|a|..|a| + k];
      assert s[|a|..|a| + k] == sep[..k];
    }
  }

  lemma {:induction false} PiecesOfJoin(list: seq<string>, sep: string)
    requires list != [] && sep != "" && !Bordered(sep)
    requires forall i :: 0 <= i < |list| ==> !Occurs(list[i], sep)
    ensures Pieces(Join(list, sep), sep) == list
  {
    if |list| == 1 {
      FindIsFirst(list[0], sep, 0);
    } else {
      var rest := Join(list[1..], sep);
      PiecesOfJoin(list[1..], sep);
      FirstIsAfter(list[0], sep, rest);
      var s, k := list[0] + (sep + rest), |list[0]|;
      assert s[..k] == list[0] && s[k + |sep|..] == rest;
      PiecesOnce(s, sep, k, list[0], rest);
    }
  }

  predicate Clean(list: seq<string>, sep: string) {
    list != [] && forall i :: 0 <= i < |list| ==> !Occurs(list[i], sep) && '\0' !in list[i]
  }

  lemma {:induction false} JoinHasNoNul(list: seq<string>, sep: string)
    requires Clean(list, sep) && '\0' !in sep
    ensures '\0' !in Join(list, sep)
  {
    if |list| > 1 { JoinHasNoNul(list[1..], sep); }
  }

  ghost predicate JoinReverses(sep: string) {
    forall list :: Clean(list, sep) ==> Split(CString(Join(list, sep)), sep) == list
  }

  lemma JoinedSplitsBack(list: seq<string>, sep: string)
    requires sep != "" && '\0' !in sep && !Bordered(sep) && Clean(list, sep)
    ensures Split(CString(Join(list, sep)), sep) == list
  {
    JoinHasNoNul(list, sep);
    CStringWhole(Join(list, sep));
    PiecesOfJoin(list, sep);
    if Join(list, sep) == "" { assert FindFrom("", sep, 0).None?; }
  }

  /** With a bordered separator, a piece that is the part before the final border is lost. */
  lemma BorderedBreaks(sep: string)
    requires '\0' !in sep && Bordered(sep)
    ensures !JoinReverses(sep)
  {
    var k :| 0 < k < |sep| && sep[..k] == sep[|sep| - k..];
    var head := sep[..|sep| - k];
    var list := [head, ""];
    assert Clean(list, sep);
    var s := head + sep;
    assert Join(list, sep) == s by { assert list[1..] == [""]; assert sep + "" == sep; }
    CStringWhole(s);
    assert '\0' !in s;
    assert s[..|sep|] == head + sep[..k] == sep;
    assert s[0..0 + |sep|] == sep;
    FindIs(s, sep, 0, 0);
    assert Split(s, sep)[0] == "" != list[0];
    assert Split(CString(Join(list, sep)), sep) != list;
  }

  lemma NulSeparatorBreaks(sep: string)
    requires '\0' in sep
    ensures !JoinReverses(sep)
  {
    var list := ["", ""];
    assert Clean(list, sep);
    assert Join(list, sep) == sep by { assert list[1..] == [""]; assert sep + "" == sep; }
    CStringWhole(sep);
    var s := CString(sep);
    assert |s| < |sep|;
    assert Split(s, sep) == [s];
  }

  /**
   * Exactly which separators let a join be split back into any list of pieces that avoid them: those
   * without NUL that do not overlap themselves, in particular every single character.
   */
  lemma JoinThenSplitIff(sep: string)
    requires sep != ""
    ensures JoinReverses(sep) <==> '\0' !in sep && !Bordered(sep)
    ensures |sep| == 1 && sep[0] != '\0' ==> JoinReverses(sep)
  {
    if '\0' in sep {
      NulSeparatorBreaks(sep);
    } else if Bordered(sep) {
      BorderedBreaks(sep);
    } else {
      forall list | Clean(list, sep) ensures Split(CString(Join(list, sep)), sep) == list {
        JoinedSplitsBack(list, sep);
      }
    }
  }
}
