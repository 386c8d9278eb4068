/**
 The patch transaction: version gate, exact counts, replacement in memory, re-validation, staging, rename, checksum.
 The files are a map that every operation may fail on; the pattern table, the architecture of a binary and the hash
 are parameters.
 */
module PatchRun {
  import opened Base
  import opened Rewrite
  import opened VersionScan

  const GATES: nat := 6

  datatype SiteKind = Lifetime | Flac24Gate(index: nat)

  datatype PatchSite = PatchSite(kind: SiteKind, search: Bytes, replace: Bytes, expectCount: nat, skip: bool)

  datatype PatchStatus = PatchStatus(lifetime: bool, gates: seq<bool>, patched: bool)

  // ---------------------------------------------------------------------------------------
  // The status scan
  // ---------------------------------------------------------------------------------------

  predicate Present(b: Bytes, site: PatchSite) {
    Count(b, site.replace) > 0 && Count(b, site.search) == 0
  }

  /** The flag of a kind: what its last site says, and false without one. */
  predicate Flag(b: Bytes, sites: seq<PatchSite>, kind: SiteKind) {
    sites != [] && if Last(sites).kind == kind then Present(b, Last(sites)) else Flag(b, Front(sites), kind)
  }

  predicate CountsTowardsPatched(site: PatchSite) {
    site.kind.Flac24Gate? && !site.skip && site.kind.index < GATES
  }

  predicate Patched(b: Bytes, sites: seq<PatchSite>) {
    && sites != []
    && Flag(b, sites, Lifetime)
    && forall site | site in sites :: CountsTowardsPatched(site) ==> Flag(b, sites, site.kind)
  }

  ghost predicate Reports(status: PatchStatus, b: Bytes, sites: seq<PatchSite>) {
    && status.lifetime == Flag(b, sites, Lifetime)
    && |status.gates| == GATES
    && (forall i | 0 <= i < GATES :: status.gates[i] == Flag(b, sites, Flac24Gate(i)))
    && status.patched == Patched(b, sites)
  }

  predicate DecidedBy(b: Bytes, sites: seq<PatchSite>, kind: SiteKind, i: int) {
    && 0 <= i < |sites| && sites[i].kind == kind && Present(b, sites[i])
    && forall j | i < j < |sites| :: sites[j].kind != kind
  }

  lemma {:induction false} FlagMeans(b: Bytes, sites: seq<PatchSite>, kind: SiteKind)
    ensures Flag(b, sites, kind) <==> exists i :: DecidedBy(b, sites, kind, i)
  {
    hide Present;
    if sites != [] {
      var n, front := |sites| - 1, Front(sites);
      FlagMeans(b, front, kind);
      if sites[n].kind == kind {
        assert Present(b, sites[n]) ==> DecidedBy(b, sites, kind, n);
      } else {
        forall i: int
          ensures DecidedBy(b, sites, kind, i) <==> DecidedBy(b, front, kind, i)
        {
          DecidedEarlier(b, sites, kind, i);
        }
      }
    }
  }

  lemma DecidedEarlier(b: Bytes, sites: seq<PatchSite>, kind: SiteKind, i: int)
    requires sites != [] && Last(sites).kind != kind
    ensures DecidedBy(b, sites, kind, i) <==> DecidedBy(b, Front(sites), kind, i)
  {
    hide Present;
    var front := Front(sites);
    if DecidedBy(b, front, kind, i) {
      forall j | i < j < |sites|
        ensures sites[j].kind != kind
      {
        assert j < |front| ==> front[j] == sites[j];
      }
    }
    if DecidedBy(b, sites, kind, i) {
      assert i < |front| && front[i] == sites[i];
      forall j | i < j < |front|
        ensures front[j].kind != kind
      {
        assert front[j] == sites[j];
      }
    }
  }

  predicate DistinctKinds(sites: seq<PatchSite>) {
    forall i, j | 0 <= i < j < |sites| :: sites[i].kind != sites[j].kind
  }

  predicate Required(site: PatchSite) {
    site.kind.Lifetime? || CountsTowardsPatched(site)
  }

  /** With one site a kind, the scan says exactly that the table has a lifetime site and every required site is in. */
  lemma PatchedMeansEveryRequiredSite(b: Bytes, sites: seq<PatchSite>)
    requires DistinctKinds(sites)
    ensures Patched(b, sites) <==>
            && (exists site :: site in sites && site.kind.Lifetime?)
            && (forall site | site in sites :: Required(site) ==> Present(b, site))
  {
    hide Present, Flag;
    forall i | 0 <= i < |sites|
      ensures Flag(b, sites, sites[i].kind) == Present(b, sites[i])
    {
      FlagMeans(b, sites, sites[i].kind);
      assert Present(b, sites[i]) ==> DecidedBy(b, sites, sites[i].kind, i);
    }
    FlagMeans(b, sites, Lifetime);
  }

  /** With two sites for one gate the last one decides: an earlier one still to be patched goes unnoticed. */
  lemma LaterSiteMasksEarlier(b: Bytes, lifetime: PatchSite, first: PatchSite, second: PatchSite)
    requires lifetime.kind.Lifetime? && CountsTowardsPatched(first) && second.kind == first.kind
    requires Present(b, lifetime) && !Present(b, first) && Present(b, second)
    ensures Patched(b, [lifetime, first, second])
  {
    hide Present;
    var all := [lifetime, first, second];
    assert Front(all) == [lifetime, first] && Front([lifetime, first]) == [lifetime];
    assert Flag(b, [lifetime], Lifetime);
    assert Flag(b, [lifetime, first], Lifetime);
  }

  /** It happens: a lifetime site that is in, a gate that is not, and a second site of that gate that is. */
  lemma MaskedGate()
    ensures var b: Bytes := [2, 4];
            var gate := PatchSite(Flac24Gate(0), [4], [5], 1, false);
            var sites := [PatchSite(Lifetime, [1], [2], 1, false), gate, PatchSite(Flac24Gate(0), [6], [4], 1, false)];
            Patched(b, sites) && Required(gate) && !Present(b, gate) && Count(b, gate.search) == 1
  {
    hide Count, Replace;
    TwoBytes(2, 4, 1, 2);
    TwoBytes(2, 4, 2, 2);
    TwoBytes(2, 4, 4, 5);
    TwoBytes(2, 4, 5, 5);
    TwoBytes(2, 4, 6, 4);
    LaterSiteMasksEarlier([2, 4], PatchSite(Lifetime, [1], [2], 1, false),
                          PatchSite(Flac24Gate(0), [4], [5], 1, false), PatchSite(Flac24Gate(0), [6], [4], 1, false));
  }

  method IsPresent(bytes: Bytes, site: PatchSite) returns (present: bool)
    ensures present == Present(bytes, site)
  {
    var replaced := CountOccurrences(bytes, site.replace);
    var searched := CountOccurrences(bytes, site.search);
    present := replaced > 0 && searched == 0;
  }

  method ScanStatusForSites(bytes: Bytes, sites: seq<PatchSite>) returns (status: PatchStatus)
    ensures Reports(status, bytes, sites)
  {
    hide Present, Occurs, Pieces, Count;
    var lifetime := false;
    var gates := new bool[GATES](_ => false);
    for k := 0 to |sites|
      invariant lifetime == Flag(bytes, sites[..k], Lifetime)
      invariant forall i | 0 <= i < GATES :: gates[i] == Flag(bytes, sites[..k], Flac24Gate(i))
    {
      var site := sites[k];
      var present := IsPresent(bytes, site);
      match site.kind {
        case Lifetime => lifetime := present;
        case Flac24Gate(i) =>
          if i < gates.Length {
            gates[i] := present;
          }
      }
      assert sites[..k + 1] == sites[..k] + [site];
      SnocParts(sites[..k], site);
    }
    assert sites[..|sites|] == sites;
    var applied := true;
    for k := 0 to |sites|
      invariant applied <==>
                forall j | 0 <= j < k :: CountsTowardsPatched(sites[j]) ==> Flag(bytes, sites, sites[j].kind)
    {
      if CountsTowardsPatched(sites[k]) {
        applied := applied && gates[sites[k].kind.index];
      }
    }
    status := PatchStatus(lifetime, gates[..], sites != [] && lifetime && applied);
  }

  // ---------------------------------------------------------------------------------------
  // Replacing in memory
  // ---------------------------------------------------------------------------------------

  function ApplyAll(b: Bytes, sites: seq<PatchSite>): Bytes {
    if sites == [] then b
    else
      var done := ApplyAll(b, Front(sites));
      if Last(sites).skip then done else Replace(done, Last(sites).search, Last(sites).replace)
  }

  predicate AsExpected(b: Bytes, sites: seq<PatchSite>) {
    forall site | site in sites :: Count(b, site.search) == site.expectCount
  }

  predicate Replaced(b: Bytes, site: PatchSite) {
    Count(b, site.search) == 0 && Count(b, site.replace) == site.expectCount
  }

  predicate Validated(b: Bytes, sites: seq<PatchSite>) {
    forall site | site in sites :: !site.skip ==> Replaced(b, site)
  }

  datatype Refusal =
    | ReadFailed
    | VersionMismatch
    | UnknownArchitecture
    | UnsupportedArchitecture
    | CountMismatch(site: PatchSite)
    | RevalidationFailed(site: PatchSite)
    | SelfVerificationFailed
    | NoFileName
    | StagingFailed
    | RenameFailed
    | ChecksumFailed

  datatype Prepared = Ready(bytes: Bytes, status: PatchStatus) | Refused(why: Refusal)

  ghost predicate Blames(why: Refusal, b: Bytes, sites: seq<PatchSite>) {
    match why {
      case CountMismatch(site) => exists k | 0 <= k < |sites| ::
        sites[k] == site && Count(b, site.search) != site.expectCount && AsExpected(b, sites[..k])
      case RevalidationFailed(site) =>
        var out := ApplyAll(b, sites);
        && AsExpected(b, sites)
        && exists k | 0 <= k < |sites| ::
             sites[k] == site && !site.skip && !Replaced(out, site) && Validated(out, sites[..k])
      case SelfVerificationFailed =>
        AsExpected(b, sites) && Validated(ApplyAll(b, sites), sites) && !Patched(ApplyAll(b, sites), sites)
      case _ => false
    }
  }

  /** The three passes over the table between the gates and the disk. */
  method Prepare(bytes: Bytes, sites: seq<PatchSite>) returns (prepared: Prepared)
    ensures prepared.Ready? ==>
              && prepared.bytes == ApplyAll(bytes, sites) && Reports(prepared.status, prepared.bytes, sites)
              && AsExpected(bytes, sites) && Validated(prepared.bytes, sites) && Patched(prepared.bytes, sites)
    ensures prepared.Refused? ==> Blames(prepared.why, bytes, sites)
  {
    hide Pieces, Replace, Count, Patched, Flag;
    for k := 0 to |sites|
      invariant AsExpected(bytes, sites[..k])
    {
      var count := CountOccurrences(bytes, sites[k].search);
      if count != sites[k].expectCount {
        return Refused(CountMismatch(sites[k]));
      }
    }
    assert sites[..|sites|] == sites;
    var out := bytes;
    for k := 0 to |sites|
      invariant out == ApplyAll(bytes, sites[..k])
    {
      assert sites[..k + 1] == sites[..k] + [sites[k]];
      SnocParts(sites[..k], sites[k]);
      if !sites[k].skip {
        out := ReplaceAll(out, sites[k].search, sites[k].replace);
      }
    }
    for k := 0 to |sites|
      invariant Validated(out, sites[..k])
    {
      if !sites[k].skip {
        var remaining := CountOccurrences(out, sites[k].search);
        var replaced := CountOccurrences(out, sites[k].replace);
        if remaining != 0 || replaced != sites[k].expectCount {
          return Refused(RevalidationFailed(sites[k]));
        }
      }
    }
    var status := ScanStatusForSites(out, sites);
    if !status.patched {
      return Refused(SelfVerificationFailed);
    }
    prepared := Ready(out, status);
  }

  /** A two-byte text around one-byte patterns. */
  lemma TwoBytes(x: Byte, y: Byte, s: Byte, r: Byte)
    ensures Replace([x, y], [s], [r]) == [if x == s then r else x, if y == s then r else y]
    ensures Count([x, y], [s]) == (if x == s then 1 else 0) + if y == s then 1 else 0
  {
    var b: Bytes, c: Bytes, search: Bytes, replace: Bytes := [x, y], [y], [s], [r];
    assert b[..1] == [x] && b[1..] == c && c[..1] == c && c[1..] == [];
    assert [x][0] == x && c[0] == y && search[0] == s;
    ReplaceUnfold(b, search, replace);
    ReplaceUnfold(c, search, replace);
    ReplaceUnfold([], search, replace);
    hide Replace, Count;
  }

  /** Counts that hold of the input do not make the sequential replacements safe: one site can feed another. */
  lemma CountsAloneAreNotEnough()
    ensures exists b, sites :: AsExpected(b, sites) && !Validated(ApplyAll(b, sites), sites)
  {
    hide Replace, Count, Pieces;
    var first := PatchSite(Lifetime, [1], [2], 1, false);
    var second := PatchSite(Flac24Gate(0), [2], [3], 1, false);
    var sites := [first, second];
    TwoBytes(1, 2, 1, 2);
    TwoBytes(1, 2, 2, 3);
    TwoBytes(2, 2, 2, 3);
    TwoBytes(3, 3, 3, 3);
    assert AsExpected([1, 2], sites);
    assert Front(sites) == [first] && Front([first]) == [];
    assert ApplyAll([1, 2], [first]) == [2, 2];
    assert ApplyAll([1, 2], sites) == [3, 3];
    assert second in sites && !Validated([3, 3], sites);
  }

  // ---------------------------------------------------------------------------------------
  // The disk
  // ---------------------------------------------------------------------------------------

  /** A path by its directory and its file name, which is empty for a path that has none. */
  datatype Path = Path(dir: string, name: string)

  /** A write fails before the file is opened, or after that many bytes went into the truncated file. */
  datatype WriteFault = Completes | CannotOpen | Stops(after: nat)

  datatype Faults = Faults(read: bool, staging: WriteFault, rename: bool, remove: bool, checksum: WriteFault)

  class FileSystem {
    var files: map<Path, Bytes>

    constructor (files: map<Path, Bytes>)
      ensures this.files == files
    {
      this.files := files;
    }

    method Write(path: Path, data: Bytes, fault: WriteFault) returns (ok: bool)
      modifies this
      ensures ok == fault.Completes?
      ensures ok ==> files == old(files)[path := data]
      ensures fault.CannotOpen? ==> files == old(files)
      ensures fault.Stops? ==> path in files && files[path] <= data && files == old(files)[path := files[path]]
    {
      match fault {
        case Completes => files := files[path := data];
        case CannotOpen =>
        case Stops(after) => files := files[path := data[..Min(after, |data|)]];
      }
      ok := fault.Completes?;
    }

    method Rename(from: Path, to: Path, fails: bool) returns (ok: bool)
      requires from in files && from != to
      modifies this
      ensures ok == !fails
      ensures files == if ok then old(files)[to := old(files)[from]] - {from} else old(files)
    {
      if !fails {
        files := files[to := files[from]] - {from};
      }
      ok := !fails;
    }

    method Remove(path: Path, fails: bool)
      modifies this
      ensures files == if fails then old(files) else old(files) - {path}
    {
      if !fails {
        files := files - {path};
      }
    }
  }

  function StagingPath(binary: Path, pid: string): Path {
    Path(binary.dir, "." + binary.name + ".spoton-helper-staging-" + pid)
  }

  function SidecarPath(binary: Path): Path {
    Path(binary.dir, binary.name + ".sha256")
  }

  /** The target, the staging file and the checksum file never name the same file. */
  lemma ThreeDifferentFiles(binary: Path, pid: string)
    ensures StagingPath(binary, pid) != binary && SidecarPath(binary) != binary
    ensures StagingPath(binary, pid) != SidecarPath(binary)
  {
    var staging, sidecar := StagingPath(binary, pid).name, SidecarPath(binary).name;
    assert |sidecar| == |binary.name| + 7;
    assert |staging| == 1 + |binary.name| + 23 + |pid|;
  }

  // ---------------------------------------------------------------------------------------
  // The transaction
  // ---------------------------------------------------------------------------------------

  /** What the engine takes from elsewhere. */
  datatype Engine = Engine(
    archOf: Bytes -> Option<string>,
    encodes: string -> bool,
    sitesFor: string -> seq<PatchSite>,
    hashHex: Bytes -> Bytes,
    pid: string)

  datatype Outcome =
    | Unsupported(arch: string)
    | AlreadyPatched
    | NewlyPatched(status: PatchStatus, sha: Bytes)
    | Failed(why: Refusal)

  /** The binary is the pinned version for an architecture the engine knows. */
  predicate Accepted(e: Engine, version: Bytes, b: Bytes) {
    FirstVersion(b, 0) == Some(version) && e.archOf(b).Some? && e.encodes(e.archOf(b).value)
  }

  function Sites(e: Engine, b: Bytes): seq<PatchSite> {
    if e.archOf(b).Some? then e.sitesFor(e.archOf(b).value) else []
  }

  /** Everything a write to the target needs. */
  predicate Patchable(e: Engine, version: Bytes, b: Bytes) {
    var sites := Sites(e, b);
    var out := ApplyAll(b, sites);
    && Accepted(e, version, b) && sites != [] && !Patched(b, sites)
    && AsExpected(b, sites) && Validated(out, sites) && Patched(out, sites)
  }

  ghost predicate SameOutside(after: map<Path, Bytes>, before: map<Path, Bytes>, touched: set<Path>) {
    forall p | p !in touched :: (p in after <==> p in before) && (p in after ==> after[p] == before[p])
  }

  /** What may be on disk after a run that was given the binary's bytes `b`. */
  ghost predicate Consistent(e: Engine, version: Bytes, binary: Path, b: Bytes, outcome: Outcome,
                             before: map<Path, Bytes>, after: map<Path, Bytes>)
  {
    var staging, sidecar := StagingPath(binary, e.pid), SidecarPath(binary);
    var out := ApplyAll(b, Sites(e, b));
    && binary in after
    && match outcome {
         case NewlyPatched(status, sha) =>
           && Patchable(e, version, b) && Reports(status, out, Sites(e, b)) && sha == e.hashHex(out)
           && after[binary] == out && sidecar in after && after[sidecar] == sha + [10] && staging !in after
           && SameOutside(after, before, {binary, staging, sidecar})
         case Failed(why) =>
           if why.ChecksumFailed? then
             && Patchable(e, version, b) && after[binary] == out && staging !in after
             && SameOutside(after, before, {binary, staging, sidecar})
           else if why.RenameFailed? || why.StagingFailed? then
             Patchable(e, version, b) && SameOutside(after, before, {staging})
           else
             after == before
         case _ => after == before
       }
  }

  method RunCore(e: Engine, fs: FileSystem, version: Bytes, binary: Path, faults: Faults) returns (outcome: Outcome)
    modifies fs
    ensures (outcome == Failed(ReadFailed)) == (faults.read || binary !in old(fs.files))
    ensures outcome == Failed(ReadFailed) ==> fs.files == old(fs.files)
    ensures !faults.read && binary in old(fs.files) ==>
              var b := old(fs.files)[binary];
              && Consistent(e, version, binary, b, outcome, old(fs.files), fs.files)
              && (outcome == Failed(VersionMismatch) <==> FirstVersion(b, 0) != Some(version))
              && (outcome == Failed(UnknownArchitecture) <==> FirstVersion(b, 0) == Some(version) && e.archOf(b).None?)
              && (outcome == Failed(UnsupportedArchitecture) <==>
                  && FirstVersion(b, 0) == Some(version) && e.archOf(b).Some? && !e.encodes(e.archOf(b).value))
              && (outcome.Unsupported? <==> Accepted(e, version, b) && Sites(e, b) == [])
              && (outcome.AlreadyPatched? <==> Accepted(e, version, b) && Patched(b, Sites(e, b)))
              && (outcome.NewlyPatched? <==> Patchable(e, version, b) && Hurdle(binary, faults) == None)
              && (Patchable(e, version, b) && Hurdle(binary, faults).Some? ==>
                    outcome == Failed(Hurdle(binary, faults).value))
              && (outcome == Failed(NoFileName) ==> Patchable(e, version, b))
              && (outcome == Failed(RenameFailed) && !faults.remove ==> StagingPath(binary, e.pid) !in fs.files)
              && (outcome.Failed? && (outcome.why.CountMismatch? || outcome.why.RevalidationFailed?
                                      || outcome.why.SelfVerificationFailed?)
                  ==> Accepted(e, version, b) && Blames(outcome.why, b, Sites(e, b)))
  {
    hide Pieces, Count, Replace, Flag, Patched, ApplyAll, Reports, FirstVersion;
    if faults.read || binary !in fs.files {
      return Failed(ReadFailed);
    }
    var bytes := fs.files[binary];
    var embedded := FindSoloistVersion(bytes);
    if embedded != Some(version) {
      return Failed(VersionMismatch);
    }
    var detected := e.archOf(bytes);
    if detected.None? {
      return Failed(UnknownArchitecture);
    }
    if !e.encodes(detected.value) {
      return Failed(UnsupportedArchitecture);
    }
    var sites := e.sitesFor(detected.value);
    if sites == [] {
      PatchedNeedsSites(bytes);
      return Unsupported(detected.value);
    }
    var current := ScanStatusForSites(bytes, sites);
    ReportsPatched(current, bytes, sites);
    if current.patched {
      return AlreadyPatched;
    }
    var prepared := Prepare(bytes, sites);
    if prepared.Refused? {
      return Failed(prepared.why);
    }
    outcome := Commit(e, fs, binary, prepared.bytes, prepared.status, faults);
  }

  lemma PatchedNeedsSites(b: Bytes)
    ensures !Patched(b, [])
  {
  }

  lemma ReportsPatched(status: PatchStatus, b: Bytes, sites: seq<PatchSite>)
    requires Reports(status, b, sites)
    ensures status.patched == Patched(b, sites)
  {
  }

  /** The first thing that goes wrong between the validated bytes and the checksum. */
  function Hurdle(binary: Path, faults: Faults): Option<Refusal> {
    if binary.name == "" then Some(NoFileName)
    else if !faults.staging.Completes? then Some(StagingFailed)
    else if faults.rename then Some(RenameFailed)
    else if !faults.checksum.Completes? then Some(ChecksumFailed)
    else None
  }

  /** Stage, rename over the target, write the checksum. */
  method Commit(e: Engine, fs: FileSystem, binary: Path, out: Bytes, status: PatchStatus, faults: Faults)
    returns (outcome: Outcome)
    requires binary in fs.files
    modifies fs
    ensures var staging, sidecar := StagingPath(binary, e.pid), SidecarPath(binary);
            && binary in fs.files
            && match outcome {
                 case NewlyPatched(st, sha) =>
                   && st == status && sha == e.hashHex(out)
                   && fs.files[binary] == out && sidecar in fs.files && fs.files[sidecar] == sha + [10]
                   && staging !in fs.files && SameOutside(fs.files, old(fs.files), {binary, staging, sidecar})
                 case Failed(ChecksumFailed) =>
                   && fs.files[binary] == out && staging !in fs.files
                   && SameOutside(fs.files, old(fs.files), {binary, staging, sidecar})
                 case Failed(NoFileName) => fs.files == old(fs.files)
                 case Failed(StagingFailed) => SameOutside(fs.files, old(fs.files), {staging})
                 case Failed(RenameFailed) =>
                   SameOutside(fs.files, old(fs.files), {staging}) && (!faults.remove ==> staging !in fs.files)
                 case _ => false
               }
    ensures outcome.NewlyPatched? <==> Hurdle(binary, faults) == None
    ensures outcome.Failed? ==> Some(outcome.why) == Hurdle(binary, faults)
  {
    if binary.name == "" {
      return Failed(NoFileName);
    }
    var staging, sidecar := StagingPath(binary, e.pid), SidecarPath(binary);
    ThreeDifferentFiles(binary, e.pid);
    hide StagingPath, SidecarPath;
    var staged := fs.Write(staging, out, faults.staging);
    if !staged {
      return Failed(StagingFailed);
    }
    var renamed := fs.Rename(staging, binary, faults.rename);
    if !renamed {
      fs.Remove(staging, faults.remove);
      return Failed(RenameFailed);
    }
    var sha := e.hashHex(out);
    var written := fs.Write(sidecar, sha + [10], faults.checksum);
    if !written {
      return Failed(ChecksumFailed);
    }
    outcome := NewlyPatched(status, sha);
  }

  // ---------------------------------------------------------------------------------------
  // What the transaction promises
  // ---------------------------------------------------------------------------------------

  /** Whatever fails and wherever, the target is the input or the validated output; nothing else belongs to neither. */
  lemma TargetIsOldOrValidated(e: Engine, version: Bytes, binary: Path, b: Bytes, outcome: Outcome,
                               before: map<Path, Bytes>, after: map<Path, Bytes>)
    requires binary in before && before[binary] == b
    requires Consistent(e, version, binary, b, outcome, before, after)
    ensures after[binary] == b || (after[binary] == ApplyAll(b, Sites(e, b)) && Patchable(e, version, b))
    ensures after[binary] != b <==> outcome.NewlyPatched? || outcome == Failed(ChecksumFailed)
    ensures outcome.Failed? && !outcome.why.StagingFailed? && !outcome.why.RenameFailed? && !outcome.why.ChecksumFailed?
            ==> after == before
  {
    hide ApplyAll, AsExpected, Validated, Patched;
    ThreeDifferentFiles(binary, e.pid);
    hide StagingPath, SidecarPath;
    if Patchable(e, version, b) {
      assert ApplyAll(b, Sites(e, b)) != b;
    }
  }

  /** The output of one run is what the next one recognises, as long as version and architecture still read the same. */
  method RunTwice(e: Engine, fs: FileSystem, version: Bytes, binary: Path, first: Faults, second: Faults)
    returns (a: Outcome, b: Outcome)
    requires binary in fs.files && !first.read && !second.read
    modifies fs
    ensures var was := old(fs.files)[binary];
            var out := ApplyAll(was, Sites(e, was));
            a.NewlyPatched? && FirstVersion(out, 0) == FirstVersion(was, 0) && e.archOf(out) == e.archOf(was)
            ==> && b == AlreadyPatched && binary in fs.files && fs.files[binary] == out
                && SidecarPath(binary) in fs.files && fs.files[SidecarPath(binary)] == e.hashHex(out) + [10]
                && StagingPath(binary, e.pid) !in fs.files
                && SameOutside(fs.files, old(fs.files), {binary, StagingPath(binary, e.pid), SidecarPath(binary)})
  {
    hide ApplyAll, AsExpected, Validated, Patched, FirstVersion, Reports, SidecarPath, StagingPath;
    a := RunCore(e, fs, version, binary, first);
    b := RunCore(e, fs, version, binary, second);
  }

  // ---------------------------------------------------------------------------------------
  // The vocabulary in terms of the bytes
  // ---------------------------------------------------------------------------------------

  /** A site is in when its replacement occurs and its search pattern is nowhere left. */
  lemma PresentMeans(b: Bytes, site: PatchSite)
    requires site.search != [] && site.replace != []
    ensures Present(b, site) <==>
            (exists i: nat :: Occurs(b, site.replace, i)) && forall i: nat :: !Occurs(b, site.search, i)
  {
    CountZeroMeansAbsent(b, site.search);
    CountZeroMeansAbsent(b, site.replace);
    hide Count;
  }

  /** The gates that must be in are the first six, except those that are skipped. */
  lemma RequiredGates(site: PatchSite)
    ensures Required(site) <==>
            match site.kind {
              case Lifetime => true
              case Flac24Gate(i) => i < 6 && !site.skip
            }
  {
  }

  /** What the target holds if it has changed: every required count, before and after. */
  lemma ChangedTargetIsValid(e: Engine, version: Bytes, binary: Path, b: Bytes, outcome: Outcome,
                             before: map<Path, Bytes>, after: map<Path, Bytes>)
    requires binary in before && before[binary] == b
    requires Consistent(e, version, binary, b, outcome, before, after) && after[binary] != b
    ensures forall site | site in Sites(e, b) ::
              && Count(b, site.search) == site.expectCount
              && (!site.skip ==> Count(after[binary], site.search) == 0
                                 && Count(after[binary], site.replace) == site.expectCount)
  {
    hide ApplyAll, Patched, Count;
    TargetIsOldOrValidated(e, version, binary, b, outcome, before, after);
  }

  /** Sites are applied one after the other. */
  lemma {:induction false} ApplyAllConcat(b: Bytes, xs: seq<PatchSite>, ys: seq<PatchSite>)
    ensures ApplyAll(b, xs + ys) == ApplyAll(ApplyAll(b, xs), ys)
  {
    if ys == [] {
      assert xs + ys == xs;
    } else {
      ApplyAllConcat(b, xs, Front(ys));
      assert Front(xs + ys) == xs + Front(ys);
      hide Replace;
    }
  }

  /** One site is one replacement, and nothing if it is skipped. */
  lemma ApplyOne(b: Bytes, site: PatchSite)
    ensures ApplyAll(b, [site]) == if site.skip then b else Replace(b, site.search, site.replace)
  {
    assert Front([site]) == [];
    hide Replace;
  }

  /** A binary is accepted for the version it reports and an architecture that is known to the encoder. */
  lemma AcceptedMeans(e: Engine, version: Bytes, b: Bytes)
    ensures Accepted(e, version, b) <==>
            FirstVersion(b, 0) == Some(version) && exists a :: e.archOf(b) == Some(a) && e.encodes(a)
  {
    hide FirstVersion;
  }

  /** Where the staging file and the checksum are. */
  lemma PathsBesideTheTarget(binary: Path, pid: string)
    ensures StagingPath(binary, pid).dir == binary.dir == SidecarPath(binary).dir
    ensures SidecarPath(binary).name == binary.name + ".sha256"
    ensures StagingPath(binary, pid).name == "." + binary.name + ".spoton-helper-staging-" + pid
  {
  }
}
