/**
 Finding the dotted version behind a `soloist ` marker. The loop jumps past every marker it has tried; the reference
 tries every position of the bytes. They agree because the marker cannot overlap itself.
 */
module VersionScan {
  import opened Base
  import opened Rewrite

  /** The bytes of "soloist ". */
  const MARKER: Bytes := [115, 111, 108, 111, 105, 115, 116, 32]

  const DOT: Byte := 46

  predicate DigitOrDot(x: Byte) {
    48 <= x <= 57 || x == DOT
  }

  function Run(b: Bytes): Bytes {
    if b == [] || !DigitOrDot(b[0]) then [] else [b[0]] + Run(b[1..])
  }

  /** The run is the longest prefix of digits and dots. */
  lemma {:induction false} RunIsMaximal(b: Bytes)
    ensures Run(b) <= b && (forall x | x in Run(b) :: DigitOrDot(x))
    ensures |Run(b)| < |b| ==> !DigitOrDot(b[|Run(b)|])
  {
    if b != [] && DigitOrDot(b[0]) {
      RunIsMaximal(b[1..]);
    }
  }

  /** A marker stands at `i` and a dotted number follows it. */
  predicate VersionAt(b: Bytes, i: nat) {
    Occurs(b, MARKER, i) && DOT in Run(b[i + |MARKER|..])
  }

  function FirstVersion(b: Bytes, i: nat): Option<Bytes>
    decreases |b| - i
  {
    if i + |MARKER| > |b| then None
    else if VersionAt(b, i) then Some(Run(b[i + |MARKER|..]))
    else FirstVersion(b, i + 1)
  }

  lemma MarkerCannotOverlapItself(b: Bytes, i: nat, j: nat)
    requires Occurs(b, MARKER, i) && i < j < i + |MARKER|
    ensures !Occurs(b, MARKER, j)
  {
    var d := j - i;
    var k := if d == 5 then 1 else 0;
    assert MARKER[d + k] != MARKER[k];
    assert b[i..i + |MARKER|][d + k] == b[j + k];
    if j + |MARKER| <= |b| {
      assert b[j..j + |MARKER|][k] == b[j + k];
    }
  }

  lemma {:induction false} SkipBarren(b: Bytes, i: nat, j: nat)
    requires i <= j && forall k: nat | i <= k < j :: !VersionAt(b, k)
    ensures FirstVersion(b, i) == FirstVersion(b, j)
    decreases j - i
  {
    if i < j {
      SkipBarren(b, i + 1, j);
      if i + |MARKER| > |b| {
        assert FirstVersion(b, j) == None;
      }
    }
  }

  ghost predicate FirstAt(b: Bytes, i: nat, k: nat) {
    i <= k && k + |MARKER| <= |b| && VersionAt(b, k) && forall j: nat | i <= j < k :: !VersionAt(b, j)
  }

  /** The reference returns the run after the first marker that has a dotted one, and nothing only if no marker has. */
  lemma {:induction false} FirstVersionMeans(b: Bytes, i: nat)
    ensures match FirstVersion(b, i) {
              case None => forall k: nat | i <= k :: !VersionAt(b, k)
              case Some(v) => exists k: nat :: FirstAt(b, i, k) && v == Run(b[k + |MARKER|..])
            }
    decreases |b| - i
  {
    hide FirstVersion, VersionAt, Run, Occurs;
    FirstVersionUnfold(b, i);
    if i + |MARKER| <= |b| {
      if VersionAt(b, i) {
        assert FirstAt(b, i, i);
      } else {
        FirstVersionMeans(b, i + 1);
        if FirstVersion(b, i + 1).Some? {
          var k: nat :| FirstAt(b, i + 1, k) && FirstVersion(b, i + 1).value == Run(b[k + |MARKER|..]);
          assert FirstAt(b, i, k);
        }
      }
    }
  }

  lemma FirstVersionUnfold(b: Bytes, i: nat)
    ensures i + |MARKER| > |b| ==> FirstVersion(b, i) == None && forall k: nat | i <= k :: !VersionAt(b, k)
    ensures i + |MARKER| <= |b| ==>
              FirstVersion(b, i) == if VersionAt(b, i) then Some(Run(b[i + |MARKER|..])) else FirstVersion(b, i + 1)
    ensures forall k: nat :: VersionAt(b, k) ==> k + |MARKER| <= |b|
  {
    hide Run;
  }

  /** The search for the next marker in the windows from `from` on. */
  function NextMarker(b: Bytes, from: nat): (at: Option<nat>)
    ensures at.Some? ==> from <= at.value <= |b| - |MARKER| && Occurs(b, MARKER, at.value)
    ensures forall k: nat | from <= k < (if at.Some? then at.value else |b|) :: !Occurs(b, MARKER, k)
    decreases |b| - from
  {
    if from + |MARKER| > |b| then None
    else if Occurs(b, MARKER, from) then Some(from)
    else NextMarker(b, from + 1)
  }

  method FindSoloistVersion(bytes: Bytes) returns (version: Option<Bytes>)
    ensures version == FirstVersion(bytes, 0)
  {
    hide Run, Occurs;
    version := None;
    var start := 0;
    while start + |MARKER| <= |bytes|
      invariant start <= |bytes|
      invariant FirstVersion(bytes, 0) == FirstVersion(bytes, start)
    {
      var found := NextMarker(bytes, start);
      if found.None? {
        SkipBarren(bytes, start, |bytes|);
        return;
      }
      var after := found.value + |MARKER|;
      var run := Run(bytes[after..]);
      SkipBarren(bytes, start, found.value);
      if run != [] && DOT in run {
        return Some(run);
      }
      BarrenMarker(bytes, found.value);
      start := after;
    }
  }

  lemma BarrenMarker(b: Bytes, at: nat)
    requires Occurs(b, MARKER, at) && !VersionAt(b, at)
    ensures FirstVersion(b, at) == FirstVersion(b, at + |MARKER|)
  {
    forall k: nat | at <= k < at + |MARKER|
      ensures !VersionAt(b, k)
    {
      if k > at {
        MarkerCannotOverlapItself(b, at, k);
      }
    }
    SkipBarren(b, at, at + |MARKER|);
  }

  /** The marker is the word and the blank of the version banner. */
  lemma MarkerSpellsSoloist()
    ensures |MARKER| == |"soloist "| && forall i | 0 <= i < |MARKER| :: MARKER[i] == "soloist "[i] as int
  {
  }

  /** The bytes a version is made of. */
  lemma DigitsAndDots(x: Byte)
    ensures DigitOrDot(x) <==> exists c: char :: c in "0123456789." && c as int == x
  {
    if DigitOrDot(x) {
      assert x as char in "0123456789.";
    }
  }

  /** `v` stands behind the marker at `k`, is as long as it can be, and has a dot. */
  predicate Reported(b: Bytes, k: nat, v: Bytes) {
    var n := k + 8 + |v|;
    && n <= |b| && b[k..k + 8] == MARKER && b[k + 8..n] == v
    && (forall x | x in v :: DigitOrDot(x)) && (n < |b| ==> !DigitOrDot(b[n]))
    && '.' as int in v
  }

  lemma ReportedMeans(b: Bytes, k: nat, v: Bytes)
    ensures Reported(b, k, v) <==> VersionAt(b, k) && v == Run(b[k + |MARKER|..])
  {
    if k + 8 <= |b| {
      var rest := b[k + 8..];
      RunIsMaximal(rest);
      assert Run(rest) == rest[..|Run(rest)|] == b[k + 8..k + 8 + |Run(rest)|];
      if Reported(b, k, v) {
        assert v == rest[..|v|];
        LongestRun(rest, v);
      }
      hide Run;
    }
  }

  lemma {:induction false} LongestRun(b: Bytes, v: Bytes)
    requires v <= b && (forall x | x in v :: DigitOrDot(x)) && (|v| < |b| ==> !DigitOrDot(b[|v|]))
    ensures v == Run(b)
  {
    if v != [] {
      assert v[0] in v;
      assert v == [b[0]] + v[1..];
      LongestRun(b[1..], v[1..]);
    }
  }

  /** The result in terms of the bytes: the first marker with a dotted number, and none only if there is none. */
  lemma VersionIsReported(b: Bytes)
    ensures match FirstVersion(b, 0) {
              case None => forall k: nat, v: Bytes :: !Reported(b, k, v)
              case Some(v) => exists k: nat ::
                Reported(b, k, v) && forall j: nat, u: Bytes | j < k :: !Reported(b, j, u)
            }
  {
    hide Reported, VersionAt, Run, FirstVersion;
    FirstVersionMeans(b, 0);
    forall k: nat, v: Bytes
      ensures Reported(b, k, v) ==> VersionAt(b, k)
    {
      ReportedMeans(b, k, v);
    }
    if FirstVersion(b, 0).Some? {
      var v := FirstVersion(b, 0).value;
      var k: nat :| FirstAt(b, 0, k) && v == Run(b[k + |MARKER|..]);
      ReportedMeans(b, k, v);
    }
  }
}
