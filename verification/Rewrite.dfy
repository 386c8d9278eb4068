/**
 The byte-pattern rewrite engine: two loops, one that counts non-overlapping occurrences and one that replaces them.
 Both are proved against the same decomposition of the bytes into the pieces between leftmost matches.
 */
module Rewrite {
  import opened Base

  predicate Occurs(b: Bytes, s: Bytes, i: nat) {
    i + |s| <= |b| && b[i..i + |s|] == s
  }

  /** What lies before, between and after the leftmost non-overlapping matches of `s`. */
  function Pieces(b: Bytes, s: Bytes): (ps: seq<Bytes>)
    requires s != []
    ensures ps != []
  {
    if |b| < |s| then [b]
    else if b[..|s|] == s then [[]] + Pieces(b[|s|..], s)
    else Prepend(b[0], Pieces(b[1..], s))
  }

  function Prepend(x: Byte, ps: seq<Bytes>): (r: seq<Bytes>)
    requires ps != []
    ensures |r| == |ps|
  {
    [[x] + ps[0]] + ps[1..]
  }

  /** The pieces with `r` between them. */
  function Join(ps: seq<Bytes>, r: Bytes): Bytes
    requires ps != []
  {
    if |ps| == 1 then ps[0] else ps[0] + r + Join(ps[1..], r)
  }

  function Count(b: Bytes, s: Bytes): nat {
    if s == [] then 0 else |Pieces(b, s)| - 1
  }

  function Replace(b: Bytes, s: Bytes, r: Bytes): Bytes {
    if s == [] then b else Join(Pieces(b, s), r)
  }

  lemma JoinCons(p: Bytes, ps: seq<Bytes>, r: Bytes)
    requires ps != []
    ensures Join([p] + ps, r) == p + r + Join(ps, r)
  {
    assert ([p] + ps)[1..] == ps;
  }

  lemma JoinPrepend(x: Byte, ps: seq<Bytes>, r: Bytes)
    requires ps != []
    ensures Join(Prepend(x, ps), r) == [x] + Join(ps, r)
  {
    var qs := Prepend(x, ps);
    assert qs[1..] == ps[1..];
    if |ps| > 1 {
      assert [x] + ps[0] + r + Join(ps[1..], r) == [x] + (ps[0] + r + Join(ps[1..], r));
    }
  }

  /** How one match, one other byte, or a tail too short for a match enter the result. */
  lemma ReplaceUnfold(b: Bytes, s: Bytes, r: Bytes)
    requires s != []
    ensures |b| < |s| ==> Replace(b, s, r) == b && Count(b, s) == 0
    ensures |b| >= |s| && b[..|s|] == s ==>
              Replace(b, s, r) == r + Replace(b[|s|..], s, r) && Count(b, s) == 1 + Count(b[|s|..], s)
    ensures |b| >= |s| && b[..|s|] != s ==>
              Replace(b, s, r) == [b[0]] + Replace(b[1..], s, r) && Count(b, s) == Count(b[1..], s)
  {
    if |b| >= |s| {
      if b[..|s|] == s {
        JoinCons([], Pieces(b[|s|..], s), r);
        assert [] + r == r;
      } else {
        JoinPrepend(b[0], Pieces(b[1..], s), r);
      }
    }
  }

  // ---------------------------------------------------------------------------------------
  // The two loops
  // ---------------------------------------------------------------------------------------

  method CountOccurrences(bytes: Bytes, needle: Bytes) returns (count: nat)
    ensures count == Count(bytes, needle)
  {
    if needle == [] || |bytes| < |needle| {
      return 0;
    }
    count := 0;
    var i := 0;
    assert bytes[0..] == bytes;
    while i + |needle| <= |bytes|
      invariant i <= |bytes|
      invariant count + Count(bytes[i..], needle) == Count(bytes, needle)
    {
      CutAt(bytes, needle, i);
      ReplaceUnfold(bytes[i..], needle, []);
      hide Count;
      if bytes[i..i + |needle|] == needle {
        count := count + 1;
        i := i + |needle|;
      } else {
        i := i + 1;
      }
    }
    ReplaceUnfold(bytes[i..], needle, []);
  }

  lemma CutAt(b: Bytes, s: Bytes, i: nat)
    requires i + |s| <= |b|
    ensures b[i..][..|s|] == b[i..i + |s|] && b[i..][|s|..] == b[i + |s|..]
    ensures i < |b| ==> b[i..][0] == b[i] && b[i..][1..] == b[i + 1..]
  {
  }

  /** What the byte at `i` contributes to the result. */
  lemma ReplaceTurn(b: Bytes, s: Bytes, r: Bytes, i: nat, done: Bytes)
    requires s != [] && i < |b|
    ensures Occurs(b, s, i) ==>
              i + |s| <= |b| && done + Replace(b[i..], s, r) == done + r + Replace(b[i + |s|..], s, r)
    ensures !Occurs(b, s, i) ==>
              done + Replace(b[i..], s, r) == done + [b[i]] + Replace(b[i + 1..], s, r)
  {
    hide Replace, Count;
    ReplaceUnfold(b[i..], s, r);
    if i + |s| <= |b| {
      CutAt(b, s, i);
    } else {
      ReplaceUnfold(b[i + 1..], s, r);
    }
  }

  /** The buffer is rebuilt and assigned back. */
  method ReplaceAll(bytes: Bytes, search: Bytes, replace: Bytes) returns (result: Bytes)
    ensures result == Replace(bytes, search, replace)
  {
    hide *;
    ReplaceEnds(bytes, search, replace);
    if search == [] {
      return bytes;
    }
    result := [];
    var i := 0;
    assert bytes[0..] == bytes;
    while i < |bytes|
      invariant i <= |bytes|
      invariant result + Replace(bytes[i..], search, replace) == Replace(bytes, search, replace)
    {
      ReplaceTurn(bytes, search, replace, i, result);
      if Occurs(bytes, search, i) {
        result := result + replace;
        i := i + |search|;
      } else {
        result := result + [bytes[i]];
        i := i + 1;
      }
    }
  }

  lemma ReplaceEnds(b: Bytes, s: Bytes, r: Bytes)
    ensures s == [] ==> Replace(b, s, r) == b
    ensures s != [] ==> Replace(b[|b|..], s, r) == []
  {
  }

  // ---------------------------------------------------------------------------------------
  // What a replacement does
  // ---------------------------------------------------------------------------------------

  /** The pieces with the pattern between them are the bytes: nothing outside a match is touched or moved. */
  lemma {:induction false} PiecesRebuild(b: Bytes, s: Bytes)
    requires s != []
    ensures Join(Pieces(b, s), s) == b
  {
    if |b| >= |s| {
      if b[..|s|] == s {
        PiecesRebuild(b[|s|..], s);
        JoinCons([], Pieces(b[|s|..], s), s);
        assert [] + s == s;
      } else {
        PiecesRebuild(b[1..], s);
        JoinPrepend(b[0], Pieces(b[1..], s), s);
      }
    }
  }

  function TotalLength(ps: seq<Bytes>): nat {
    if ps == [] then 0 else |ps[0]| + TotalLength(ps[1..])
  }

  lemma {:induction false} JoinLength(ps: seq<Bytes>, r: Bytes)
    requires ps != []
    ensures |Join(ps, r)| == TotalLength(ps) + (|ps| - 1) * |r|
  {
    if |ps| > 1 {
      JoinLength(ps[1..], r);
      assert (|ps| - 2) * |r| + |r| == (|ps| - 1) * |r|;
    }
  }

  /** The length changes by the difference of the patterns for each match counted. */
  lemma ReplaceLength(b: Bytes, s: Bytes, r: Bytes)
    ensures |Replace(b, s, r)| == |b| + Count(b, s) * (|r| - |s|)
  {
    if s != [] {
      var ps := Pieces(b, s);
      PiecesRebuild(b, s);
      JoinLength(ps, s);
      JoinLength(ps, r);
      assert (|ps| - 1) * |r| - (|ps| - 1) * |s| == (|ps| - 1) * (|r| - |s|);
    }
  }

  lemma OccursShift(b: Bytes, s: Bytes, n: nat, i: nat)
    requires n <= i && n <= |b|
    ensures Occurs(b, s, i) <==> Occurs(b[n..], s, i - n)
  {
    if i + |s| <= |b| {
      assert b[n..][i - n..i - n + |s|] == b[i..i + |s|];
    }
  }

  /** Nothing occurs before the end of the first piece, and nothing at all if there is only one. */
  lemma {:induction false} NoEarlierOccurrence(b: Bytes, s: Bytes, i: nat)
    requires s != [] && (|Pieces(b, s)| == 1 || i < |Pieces(b, s)[0]|)
    ensures !Occurs(b, s, i)
  {
    if |b| >= |s| && b[..|s|] != s && i > 0 {
      NoEarlierOccurrence(b[1..], s, i - 1);
      OccursShift(b, s, 1, i);
    }
  }

  /** If there is a match, the first piece ends at one, and what follows it is decomposed on its own. */
  lemma {:induction false} FirstMatch(b: Bytes, s: Bytes)
    requires s != [] && |Pieces(b, s)| > 1
    ensures var ps := Pieces(b, s);
            var n := |ps[0]|;
            Occurs(b, s, n) && ps[0] == b[..n] && ps[1..] == Pieces(b[n + |s|..], s)
  {
    hide Pieces, Occurs;
    PiecesUnfold(b, s);
    var ps := Pieces(b, s);
    if b[..|s|] == s {
      MatchAtStart(b, s);
      assert ps[1..] == Pieces(b[|s|..], s);
    } else {
      var qs := Pieces(b[1..], s);
      FirstMatch(b[1..], s);
      MatchShift(b, s, |qs[0]|);
      assert ps[1..] == qs[1..];
    }
  }

  lemma PiecesUnfold(b: Bytes, s: Bytes)
    requires s != []
    ensures |b| < |s| ==> Pieces(b, s) == [b]
    ensures |b| >= |s| && b[..|s|] == s ==> Pieces(b, s) == [[]] + Pieces(b[|s|..], s)
    ensures |b| >= |s| && b[..|s|] != s ==> Pieces(b, s) == Prepend(b[0], Pieces(b[1..], s))
  {
  }

  lemma MatchAtStart(b: Bytes, s: Bytes)
    requires |b| >= |s| && b[..|s|] == s
    ensures Occurs(b, s, 0) && b[..0] == [] && b[0 + |s|..] == b[|s|..]
  {
  }

  lemma MatchShift(b: Bytes, s: Bytes, n: nat)
    requires b != [] && Occurs(b[1..], s, n)
    ensures Occurs(b, s, n + 1)
    ensures [b[0]] + b[1..][..n] == b[..n + 1] && b[1..][n + |s|..] == b[n + 1 + |s|..]
  {
    OccursShift(b, s, 1, n + 1);
  }

  /** The decomposition is the leftmost one. */
  lemma PiecesAreLeftmost(b: Bytes, s: Bytes)
    requires s != []
    ensures var ps := Pieces(b, s);
            && (|ps| == 1 ==> forall i: nat :: !Occurs(b, s, i))
            && (|ps| > 1 ==> Occurs(b, s, |ps[0]|) && forall i: nat :: i < |ps[0]| ==> !Occurs(b, s, i))
            && (|ps| > 1 ==> ps[0] == b[..|ps[0]|] && ps[1..] == Pieces(b[|ps[0]| + |s|..], s))
  {
    hide Pieces;
    forall i: nat | |Pieces(b, s)| == 1 || i < |Pieces(b, s)[0]|
      ensures !Occurs(b, s, i)
    {
      NoEarlierOccurrence(b, s, i);
    }
    if |Pieces(b, s)| > 1 {
      FirstMatch(b, s);
    }
  }

  /** Nothing is left to replace in bytes in which nothing occurs, and the other way round. */
  lemma CountZeroMeansAbsent(b: Bytes, s: Bytes)
    requires s != []
    ensures Count(b, s) == 0 <==> forall i: nat :: !Occurs(b, s, i)
  {
    PiecesAreLeftmost(b, s);
  }

  // ---------------------------------------------------------------------------------------
  // Undoing a replacement
  // ---------------------------------------------------------------------------------------

  /** Position `i` of `Join(ps, r)` lies in one of the separators. */
  predicate Inserted(ps: seq<Bytes>, r: Bytes, i: int) {
    |ps| > 1 && i >= |ps[0]| && (i < |ps[0]| + |r| || Inserted(ps[1..], r, i - |ps[0]| - |r|))
  }

  /** The decomposition is known once the first occurrence is. */
  lemma PiecesFrom(b: Bytes, s: Bytes, n: nat)
    requires s != [] && Occurs(b, s, n) && forall i: nat :: i < n ==> !Occurs(b, s, i)
    ensures Pieces(b, s) == [b[..n]] + Pieces(b[n + |s|..], s)
  {
    hide Pieces;
    PiecesAreLeftmost(b, s);
    var ps := Pieces(b, s);
    assert |ps| > 1;
    assert |ps[0]| == n;
    assert ps == [ps[0]] + ps[1..];
  }

  lemma PiecesWithout(b: Bytes, s: Bytes)
    requires s != [] && forall i: nat :: !Occurs(b, s, i)
    ensures Pieces(b, s) == [b]
  {
    PiecesAreLeftmost(b, s);
    PiecesRebuild(b, s);
    hide Pieces;
    assert Pieces(b, s) == [Pieces(b, s)[0]];
  }

  /** Wherever `r` occurs in the joined bytes, it begins in a separator. */
  predicate OnlyInserted(ps: seq<Bytes>, r: Bytes)
    requires ps != []
  {
    forall i: nat | i < |Join(ps, r)| :: Occurs(Join(ps, r), r, i) ==> Inserted(ps, r, i)
  }

  lemma JoinParts(ps: seq<Bytes>, r: Bytes)
    requires |ps| > 1
    ensures var out, n := Join(ps, r), |ps[0]|;
            Occurs(out, r, n) && out[..n] == ps[0] && out[n + |r|..] == Join(ps[1..], r)
  {
    assert Join(ps, r) == ps[0] + r + Join(ps[1..], r);
    hide Join;
  }

  lemma OnlyInsertedUnfold(ps: seq<Bytes>, r: Bytes)
    requires |ps| > 1 && r != []
    ensures OnlyInserted(ps, r) <==>
            (forall i: nat | i < |ps[0]| :: !Occurs(Join(ps, r), r, i)) && OnlyInserted(ps[1..], r)
  {
    JoinParts(ps, r);
    hide Join, Occurs;
    var out, rest, n := Join(ps, r), Join(ps[1..], r), |ps[0]| + |r|;
    OccursFits(out, r, |ps[0]|);
    forall i: nat | i < |rest|
      ensures Occurs(rest, r, i) <==> Occurs(out, r, i + n)
      ensures Inserted(ps, r, i + n) <==> Inserted(ps[1..], r, i)
    {
      OccursShift(out, r, n, i + n);
    }
    if OnlyInserted(ps, r) {
      forall i: nat | i < |rest| && Occurs(rest, r, i)
        ensures Inserted(ps[1..], r, i)
      {
        assert Occurs(out, r, i + n);
      }
    }
    if (forall i: nat | i < |ps[0]| :: !Occurs(out, r, i)) && OnlyInserted(ps[1..], r) {
      forall i: nat | i < |out| && Occurs(out, r, i)
        ensures Inserted(ps, r, i)
      {
        if i >= n {
          assert Occurs(rest, r, i - n);
        }
      }
    }
  }

  lemma OccursFits(b: Bytes, s: Bytes, i: nat)
    requires Occurs(b, s, i)
    ensures i + |s| <= |b|
  {
  }

  /** The pieces are recovered if and only if the pattern begins in the separators only. */
  lemma {:induction false} PiecesOfJoin(ps: seq<Bytes>, r: Bytes)
    requires ps != [] && r != []
    ensures Pieces(Join(ps, r), r) == ps <==> OnlyInserted(ps, r)
  {
    hide Pieces, Occurs;
    var out := Join(ps, r);
    PiecesAreLeftmost(out, r);
    if |ps| == 1 {
      if OnlyInserted(ps, r) {
        NothingFits(out, r);
        PiecesWithout(out, r);
      }
    } else {
      OnlyInsertedUnfold(ps, r);
      JoinParts(ps, r);
      PiecesOfJoin(ps[1..], r);
      assert ps == [ps[0]] + ps[1..];
      hide Join, OnlyInserted;
      if forall i: nat | i < |ps[0]| :: !Occurs(out, r, i) {
        PiecesFrom(out, r, |ps[0]|);
      }
    }
  }

  lemma NothingFits(b: Bytes, s: Bytes)
    requires s != [] && forall i: nat | i < |b| :: !Occurs(b, s, i)
    ensures forall i: nat :: !Occurs(b, s, i)
  {
  }

  /** Two leftmost decompositions that agree on the bytes of both patterns are the same. */
  lemma {:induction false} SameJoins(ps: seq<Bytes>, qs: seq<Bytes>, s: Bytes, r: Bytes)
    requires ps != [] && qs != [] && s != [] && r != []
    requires ps == Pieces(Join(ps, s), s) && qs == Pieces(Join(qs, r), r)
    requires Join(ps, s) == Join(qs, s) && Join(ps, r) == Join(qs, r)
    ensures ps == qs
  {
    hide Pieces, Occurs;
    PiecesAreLeftmost(Join(ps, s), s);
    PiecesAreLeftmost(Join(qs, r), r);
    if |qs| > 1 {
      JoinParts(qs, s);
      JoinParts(qs, r);
    }
    if |ps| > 1 {
      JoinParts(ps, s);
      JoinParts(ps, r);
    }
    if |ps| > 1 && |qs| > 1 {
      hide Join;
      assert |ps[0]| == |qs[0]|;
      SameJoins(ps[1..], qs[1..], s, r);
      assert ps == [ps[0]] + ps[1..] && qs == [qs[0]] + qs[1..];
    } else {
      assert |ps| == 1 && |qs| == 1;
      assert ps == [ps[0]] && qs == [qs[0]];
    }
  }

  lemma DeletionShrinks(b: Bytes, s: Bytes)
    requires s != []
    ensures Replace(b, s, []) == b <==> Count(b, s) == 0
  {
    ReplaceLength(b, s, []);
    if Count(b, s) == 0 {
      PiecesRebuild(b, s);
      assert Join(Pieces(b, s), []) == Pieces(b, s)[0] == Join(Pieces(b, s), s);
    } else {
      NegativeProduct(Count(b, s), |s|);
    }
  }

  lemma NegativeProduct(n: nat, m: nat)
    requires n > 0 && m > 0
    ensures n * (0 - m) < 0
  {
  }

  /**
   Exactly when the reverse replacement gives the input back: the new pattern begins only inside what was inserted;
   with an empty pattern on either side, when there was nothing to replace.
   */
  lemma ReverseReplacementUndoes(b: Bytes, s: Bytes, r: Bytes)
    ensures Replace(Replace(b, s, r), r, s) == b <==>
            if s == [] then r == [] || Count(b, r) == 0
            else if r == [] then Count(b, s) == 0
            else OnlyInserted(Pieces(b, s), r)
    ensures s != [] && r != [] && OnlyInserted(Pieces(b, s), r) ==> Count(Replace(b, s, r), r) == Count(b, s)
  {
    if s == [] || r == [] {
      if s != [] {
        DeletionShrinks(b, s);
      } else if r != [] {
        DeletionShrinks(b, r);
      }
    } else {
      var ps := Pieces(b, s);
      var out := Join(ps, r);
      var qs := Pieces(out, r);
      PiecesRebuild(b, s);
      PiecesRebuild(out, r);
      PiecesOfJoin(ps, r);
      hide Pieces, Join, OnlyInserted;
      if Join(qs, s) == b {
        SameJoins(ps, qs, s, r);
      }
    }
  }

  /** Without that condition it need not: the new pattern may already have been there. */
  lemma ReverseMayFail()
    ensures Replace(Replace([1, 2], [1], [2]), [2], [1]) == [1, 1]
  {
    var b: Bytes := [1, 2];
    var s: Bytes, r: Bytes := [1], [2];
    assert b[..1] == s && b[1..] == r && r[..1][0] == 2 && r[1..] == [];
    ReplaceUnfold(b, s, r);
    ReplaceUnfold(r, s, r);
    ReplaceUnfold([], s, r);
    var c: Bytes := [2, 2];
    assert Replace(b, s, r) == c;
    assert c[..1] == r && c[1..] == r && r[..1] == r;
    ReplaceUnfold(c, r, s);
    ReplaceUnfold(r, r, s);
    ReplaceUnfold([], r, s);
  }
}
