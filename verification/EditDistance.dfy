/** Edit distance with transpositions of neighbours (libdevcore/StringUtils.cpp:29-87). */
module EditDistance {
  import opened Items

  // ----- the distance as the least cost of an edit script -----

  datatype Edit = Keep | Substitute | Insert | Delete | Transpose

  function Front(s: string): string
    requires |s| > 0
  {
    s[..|s| - 1]
  }

  function Last(s: string): char
    requires |s| > 0
  {
    s[|s| - 1]
  }

  /** The last two characters are exchanged. */
  predicate Crossed(s: string, t: string) {
    |s| > 1 && |t| > 1 && Last(s) == t[|t| - 2] && s[|s| - 2] == Last(t)
  }

  /** The script turns s into t; its last edit makes the end of t. */
  predicate Turns(script: seq<Edit>, s: string, t: string)
    decreases |script|
  {
    if script == [] then s == "" && t == ""
    else
      var before := script[..|script| - 1];
      match script[|script| - 1]
      case Keep => |s| > 0 && |t| > 0 && Last(s) == Last(t) && Turns(before, Front(s), Front(t))
      case Substitute => |s| > 0 && |t| > 0 && Turns(before, Front(s), Front(t))
      case Insert => |t| > 0 && Turns(before, s, Front(t))
      case Delete => |s| > 0 && Turns(before, Front(s), t)
      case Transpose => Crossed(s, t) && Turns(before, s[..|s| - 2], t[..|t| - 2])
  }

  function Cost(script: seq<Edit>): nat {
    if script == [] then 0
    else Cost(script[..|script| - 1]) + if script[|script| - 1].Keep? then 0 else 1
  }

  // ----- the recursive definition -----

  function LeastEntry(left: nat, up: nat, upleft: nat, equal: bool): nat {
    Min(Min(left + 1, up + 1), if equal then upleft else upleft + 1)
  }

  function Distance(s: string, t: string): nat
    decreases |s| + |t|
  {
    if s == "" || t == "" then Max(|s|, |t|)
    else
      var x := LeastEntry(Distance(Front(s), t), Distance(s, Front(t)), Distance(Front(s), Front(t)), Last(s) == Last(t));
      if Crossed(s, t) then Min(x, Distance(s[..|s| - 2], t[..|t| - 2]) + 1) else x
  }

  /** No script is cheaper. */
  lemma {:induction false} DistanceLeast(script: seq<Edit>, s: string, t: string)
    requires Turns(script, s, t)
    ensures Distance(s, t) <= Cost(script)
    decreases |script|
  {
    if script != [] {
      var before := script[..|script| - 1];
      match script[|script| - 1] {
        case Keep => DistanceLeast(before, Front(s), Front(t));
        case Substitute => DistanceLeast(before, Front(s), Front(t));
        case Insert =>
          DistanceLeast(before, s, Front(t));
          EmptySide(s, Front(t));
        case Delete =>
          DistanceLeast(before, Front(s), t);
          EmptySide(Front(s), t);
        case Transpose => DistanceLeast(before, s[..|s| - 2], t[..|t| - 2]);
      }
    }
  }

  lemma EmptySide(s: string, t: string)
    ensures s == "" || t == "" ==> Distance(s, t) == Max(|s|, |t|)
  {
  }

  lemma {:induction false} Inserts(t: string) returns (script: seq<Edit>)
    ensures Turns(script, "", t) && Cost(script) == |t|
  {
    script := [];
    if t != "" {
      var before := Inserts(Front(t));
      script := before + [Insert];
      assert script[..|script| - 1] == before;
    }
  }

  lemma {:induction false} Deletes(s: string) returns (script: seq<Edit>)
    ensures Turns(script, s, "") && Cost(script) == |s|
  {
    script := [];
    if s != "" {
      var before := Deletes(Front(s));
      script := before + [Delete];
      assert script[..|script| - 1] == before;
    }
  }

  /** Some script has exactly this cost. */
  lemma {:induction false} DistanceReached(s: string, t: string) returns (script: seq<Edit>)
    ensures Turns(script, s, t) && Cost(script) == Distance(s, t)
    decreases |s| + |t|
  {
    if s == "" {
      script := Inserts(t);
    } else if t == "" {
      script := Deletes(s);
    } else {
      var d := Distance(s, t);
      var before: seq<Edit>;
      var edit: Edit;
      if d == Distance(Front(s), t) + 1 {
        edit := Delete;
        before := DistanceReached(Front(s), t);
      } else if d == Distance(s, Front(t)) + 1 {
        edit := Insert;
        before := DistanceReached(s, Front(t));
      } else if Last(s) == Last(t) && d == Distance(Front(s), Front(t)) {
        edit := Keep;
        before := DistanceReached(Front(s), Front(t));
      } else if Last(s) != Last(t) && d == Distance(Front(s), Front(t)) + 1 {
        edit := Substitute;
        before := DistanceReached(Front(s), Front(t));
      } else {
        edit := Transpose;
        before := DistanceReached(s[..|s| - 2], t[..|t| - 2]);
      }
      script := before + [edit];
      assert script[..|script| - 1] == before;
    }
  }

  // ----- laws -----

  lemma {:induction false} DistanceSymmetric(s: string, t: string)
    ensures Distance(s, t) == Distance(t, s)
    decreases |s| + |t|
  {
    if s != "" && t != "" {
      DistanceSymmetric(Front(s), t);
      DistanceSymmetric(s, Front(t));
      DistanceSymmetric(Front(s), Front(t));
      if Crossed(s, t) {
        DistanceSymmetric(s[..|s| - 2], t[..|t| - 2]);
      }
    }
  }

  lemma {:induction false} DistanceBounds(s: string, t: string)
    ensures |s| - |t| <= Distance(s, t) && |t| - |s| <= Distance(s, t) && Distance(s, t) <= Max(|s|, |t|)
    decreases |s| + |t|
  {
    if s != "" && t != "" {
      DistanceBounds(Front(s), t);
      DistanceBounds(s, Front(t));
      DistanceBounds(Front(s), Front(t));
      if Crossed(s, t) {
        DistanceBounds(s[..|s| - 2], t[..|t| - 2]);
      }
    }
  }

  lemma {:induction false} DistanceZero(s: string, t: string)
    ensures Distance(s, t) == 0 <==> s == t
    decreases |s| + |t|
  {
    if s != "" && t != "" {
      DistanceZero(Front(s), Front(t));
      assert s == Front(s) + [Last(s)] && t == Front(t) + [Last(t)];
    }
  }

  // ----- the loop over three rolling rows -----

  /** Where the table keeps the entry of row i and column j. */
  function Place(i: nat, j: nat): nat {
    i % 3 + j * 3
  }

  ghost predicate RowHolds(dp: seq<nat>, s: string, t: string, i: nat, n: nat)
    requires i <= |s| && n <= |t| + 1 && |dp| == 3 * (|t| + 1)
  {
    forall j | 0 <= j < n :: dp[Place(i, j)] == Distance(s[..i], t[..j])
  }

  /** An entry only overwrites the row three rows before. */
  lemma RowKept(dp: seq<nat>, s: string, t: string, i: nat, n: nat, i': nat, j': nat, x: nat)
    requires i <= |s| && n <= |t| + 1 && |dp| == 3 * (|t| + 1) && j' <= |t|
    requires RowHolds(dp, s, t, i, n) && (i % 3 != i' % 3 || n <= j')
    ensures RowHolds(dp[Place(i', j') := x], s, t, i, n)
  {
    hide Distance;
  }

  /** The rows before row i are complete as far as they are needed, row i up to column n. */
  ghost predicate Rows(dp: seq<nat>, s: string, t: string, i: nat, n: nat)
    requires i <= |s| && n <= |t| + 1 && |dp| == 3 * (|t| + 1)
  {
    && RowHolds(dp, s, t, i, n)
    && (i > 0 ==> RowHolds(dp, s, t, i - 1, |t| + 1))
    && (i > 1 ==> RowHolds(dp, s, t, i - 2, |t| + 1))
  }

  lemma RowsGrow(dp: seq<nat>, s: string, t: string, i: nat, n: nat, x: nat)
    requires i <= |s| && n <= |t| && |dp| == 3 * (|t| + 1) && Rows(dp, s, t, i, n) && x == Distance(s[..i], t[..n])
    ensures Rows(dp[Place(i, n) := x], s, t, i, n + 1)
  {
    hide Distance, RowHolds;
    RowKept(dp, s, t, i, n, i, n, x);
    RowGrows(dp[Place(i, n) := x], s, t, i, n);
    if i > 0 {
      RowKept(dp, s, t, i - 1, |t| + 1, i, n, x);
    }
    if i > 1 {
      RowKept(dp, s, t, i - 2, |t| + 1, i, n, x);
    }
  }

  /** The distance computed from shorter prefixes. */
  lemma {:induction false} DistanceStep(s: string, t: string)
    requires s != "" && t != ""
    ensures var x := LeastEntry(Distance(Front(s), t), Distance(s, Front(t)), Distance(Front(s), Front(t)), Last(s) == Last(t));
            Distance(s, t) == if Crossed(s, t) then Min(x, Distance(s[..|s| - 2], t[..|t| - 2]) + 1) else x
  {
  }

  /** The value of one entry of the table. */
  method Entry(dp: array<nat>, s: string, t: string, i1: nat, i2: nat) returns (x: nat)
    requires i1 <= |s| && i2 <= |t| && dp.Length == 3 * (|t| + 1) && Rows(dp[..], s, t, i1, i2)
    ensures x == Distance(s[..i1], t[..i2])
  {
    hide Distance, Place, RowHolds;
    ghost var a, b := s[..i1], t[..i2];
    if Min(i1, i2) == 0 {
      x := Max(i1, i2);
      EmptySide(a, b);
    } else {
      assert Front(a) == s[..i1 - 1] && Front(b) == t[..i2 - 1];
      DistanceStep(a, b);
      var left := ReadEntry(dp, s, t, i1 - 1, i2, |t| + 1);
      var up := ReadEntry(dp, s, t, i1, i2 - 1, i2);
      var upleft := ReadEntry(dp, s, t, i1 - 1, i2 - 1, |t| + 1);
      x := Min(left + 1, up + 1);
      if s[i1 - 1] == t[i2 - 1] {
        x := Min(x, upleft);
      } else {
        x := Min(x, upleft + 1);
      }
      if i1 > 1 && i2 > 1 && s[i1 - 1] == t[i2 - 2] && s[i1 - 2] == t[i2 - 1] {
        assert a[..|a| - 2] == s[..i1 - 2] && b[..|b| - 2] == t[..i2 - 2];
        var crossed := ReadEntry(dp, s, t, i1 - 2, i2 - 2, |t| + 1);
        x := Min(x, crossed + 1);
      }
    }
  }

  method ReadEntry(dp: array<nat>, s: string, t: string, i: nat, j: nat, ghost n: nat) returns (x: nat)
    requires i <= |s| && j < n <= |t| + 1 && dp.Length == 3 * (|t| + 1) && RowHolds(dp[..], s, t, i, n)
    ensures x == Distance(s[..i], t[..j])
  {
    hide Distance;
    Read(dp[..], s, t, i, j, n);
    x := dp[i % 3 + j * 3];
  }

  method FillRow(dp: array<nat>, s: string, t: string, i1: nat)
    requires i1 <= |s| && dp.Length == 3 * (|t| + 1) && Rows(dp[..], s, t, i1, 0)
    modifies dp
    ensures Rows(dp[..], s, t, i1, |t| + 1)
  {
    hide Distance, Rows;
    var i2 := 0;
    while i2 <= |t|
      invariant 0 <= i2 <= |t| + 1 && Rows(dp[..], s, t, i1, i2)
    {
      var x := Entry(dp, s, t, i1, i2);
      RowsGrow(dp[..], s, t, i1, i2, x);
      ghost var before := dp[..];
      dp[i1 % 3 + i2 * 3] := x;
      assert dp[..] == before[Place(i1, i2) := x];
      i2 := i2 + 1;
    }
  }

  /** The distance, from a table of which only three rows are kept. */
  method StringDistance(s: string, t: string) returns (d: nat)
    ensures d == Distance(s, t)
  {
    hide Distance, Place;
    var n1, n2 := |s|, |t|;
    var dp := new nat[3 * (n2 + 1)](i => 0);
    var i1 := 0;
    while i1 <= n1
      invariant 0 <= i1 <= n1 + 1 && dp.Length == 3 * (n2 + 1)
      invariant i1 <= n1 ==> Rows(dp[..], s, t, i1, 0)
      invariant i1 > n1 ==> RowHolds(dp[..], s, t, n1, n2 + 1)
    {
      FillRow(dp, s, t, i1);
      i1 := i1 + 1;
    }
    d := ReadEntry(dp, s, t, n1, n2, n2 + 1);
    assert s[..n1] == s && t[..n2] == t;
  }

  /** Whether two names are similar enough for one to be suggested instead of the other. */
  method StringWithinDistance(s: string, t: string, maxDistance: nat, lenThreshold: nat) returns (r: bool)
    ensures r <==> s == t || ((lenThreshold == 0 || |s| * |t| <= lenThreshold) &&
                              exists script :: IsSimilar(script, s, t, maxDistance))
  {
    hide Distance, Turns;
    if s == t {
      return true;
    }
    if lenThreshold > 0 && |s| * |t| > lenThreshold {
      return false;
    }
    var distance := StringDistance(s, t);
    r := distance <= maxDistance && distance < |s| && distance < |t|;
    SimilarIff(s, t, maxDistance);
  }

  /** A script that is cheap compared to both strings. */
  ghost predicate IsSimilar(script: seq<Edit>, s: string, t: string, maxDistance: nat) {
    Turns(script, s, t) && Cost(script) <= maxDistance && Cost(script) < |s| && Cost(script) < |t|
  }

  lemma SimilarIff(s: string, t: string, maxDistance: nat)
    ensures (exists script :: IsSimilar(script, s, t, maxDistance)) <==>
            Distance(s, t) <= maxDistance && Distance(s, t) < |s| && Distance(s, t) < |t|
  {
    hide Distance, Turns;
    var best := DistanceReached(s, t);
    if Distance(s, t) <= maxDistance && Distance(s, t) < |s| && Distance(s, t) < |t| {
      assert IsSimilar(best, s, t, maxDistance);
    }
    if script :| IsSimilar(script, s, t, maxDistance) {
      DistanceLeast(script, s, t);
    }
  }

  lemma Read(dp: seq<nat>, s: string, t: string, i: nat, j: nat, n: nat)
    requires i <= |s| && j < n <= |t| + 1 && |dp| == 3 * (|t| + 1) && RowHolds(dp, s, t, i, n)
    ensures dp[Place(i, j)] == Distance(s[..i], t[..j])
  {
    hide Distance;
  }

  lemma RowGrows(dp: seq<nat>, s: string, t: string, i: nat, n: nat)
    requires i <= |s| && n <= |t| && |dp| == 3 * (|t| + 1)
    requires RowHolds(dp, s, t, i, n) && dp[Place(i, n)] == Distance(s[..i], t[..n])
    ensures RowHolds(dp, s, t, i, n + 1)
  {
    hide Distance, Place;
  }
}
