// Execute: from an encoder run to a promoted file, through the size and quality gates.
//
// The encoder, the quality verifier and cancellation are oracles; the disk and the promotion are
// those of FileSystem and Promoter.
module Transcoder {
  import opened Wrappers
  import opened FileSystem
  import Promoter

  datatype Config = Config(skipIfLarger: bool, vmafEnabled: bool)

  datatype Job = Job(dest: Path, sourceSize: int, duration: real)

  // The verifier fails, gives a verdict, or gives neither; Execute allows for the last, though
  // the verifier it calls never does that.
  datatype Verification = VerifierFails | VerifierSilent | Verdict(passed: bool)

  // What the outside world does during one Execute.  `output` is what the encoder leaves in the
  // staging file, whole or partial, whether or not it reports an error.
  datatype World = World(
    stagingDirFails: bool,
    output: Option<Content>,
    encoderFails: bool,
    statFails: bool,
    verification: Verification,
    cancelledWhileVerifying: bool,
    cancelledBeforePromotion: bool,
    removeFails: bool,
    promotion: Promoter.Faults)

  datatype Outcome =
    | StagingFailed
    | EncodeFailed
    | NoOutput
    | Grew(newSize: nat)
    | Cancelled
    | QualityFailed(newSize: nat)
    | PromotionFailed
    | Promoted(newSize: nat)

  // --- The gates ---

  predicate GrowsTooMuch(c: Config, j: Job, newSize: nat) {
    c.skipIfLarger && j.sourceSize > 0 && newSize >= j.sourceSize
  }

  predicate ChecksQuality(c: Config, j: Job) {
    c.vmafEnabled && j.duration > 5.0
  }

  predicate QualityAccepted(v: Verification) {
    v.VerifierSilent? || (v.Verdict? && v.passed)
  }

  // The staging file as the encoder leaves it.
  function Staged(before: Files, staged: Path, w: World): Files {
    if w.output.Some? then before[staged := w.output.value] else before
  }

  // The encoder is done and has left something.
  predicate Produced(before: Files, staged: Path, w: World) {
    var files := Staged(before, staged, w);
    !w.stagingDirFails && !w.encoderFails && !w.statFails && staged in files && |files[staged]| > 0
  }

  predicate TooLarge(c: Config, j: Job, before: Files, staged: Path, w: World) {
    Produced(before, staged, w) && GrowsTooMuch(c, j, |Staged(before, staged, w)[staged]|)
  }

  // The quality gate closes on a finished check that did not accept the output.
  predicate QualityRefused(c: Config, j: Job, before: Files, staged: Path, w: World) {
    && Produced(before, staged, w) && !TooLarge(c, j, before, staged, w)
    && ChecksQuality(c, j) && !w.cancelledWhileVerifying && !QualityAccepted(w.verification)
  }

  // Everything that stands between an encode and a promotion.
  predicate PassesGates(c: Config, j: Job, before: Files, staged: Path, w: World) {
    var files := Staged(before, staged, w);
    && !w.stagingDirFails && !w.encoderFails && !w.statFails
    && staged in files && |files[staged]| > 0
    && !GrowsTooMuch(c, j, |files[staged]|)
    && (ChecksQuality(c, j) ==> !w.cancelledWhileVerifying && QualityAccepted(w.verification))
    && !w.cancelledBeforePromotion
  }

  // Nothing but the staging file has changed.
  ghost predicate OnlyStagingTouched(before: Files, staged: Path, s: Files) {
    SameExcept(s, before, {staged})
  }

  // At every moment: the original is whole at dest or at the backup path, or the accepted output
  // is whole at dest; and dest never holds anything else.
  predicate DestinationSafe(before: Files, dest: Path, output: Option<Content>, s: Files) {
    && (dest in before ==>
          Promoter.OriginalSomewhere(before, dest, s) || (output.Some? && Promoter.Holds(s, dest, output.value)))
    && (dest in s ==>
          Promoter.Holds(before, dest, s[dest]) || (output.Some? && s[dest] == output.value))
  }

  function Accepted(c: Config, j: Job, before: Files, staged: Path, w: World): Option<Content> {
    if PassesGates(c, j, before, staged, w) then Some(Staged(before, staged, w)[staged]) else None
  }

  lemma StagingIsHarmless(before: Files, staged: Path, dest: Path, output: Option<Content>, s: Files)
    requires OnlyStagingTouched(before, staged, s) && staged != dest
    ensures DestinationSafe(before, dest, output, s)
  {
  }

  lemma PromotionIsSafe(c: Config, j: Job, before: Files, staged: Path, w: World, backs: bool, s: Files)
    requires PassesGates(c, j, before, staged, w) && staged != j.dest
    requires Promoter.NothingLost(Staged(before, staged, w), staged, j.dest, backs, s) && staged != Promoter.BackupPath(j.dest)
    ensures DestinationSafe(before, j.dest, Accepted(c, j, before, staged, w), s)
  {
  }

  // The staging file is encoded and judged; true when it may be promoted.
  method EncodeAndJudge(disk: Disk, c: Config, j: Job, staged: Path, w: World) returns (go: bool, outcome: Outcome)
    requires !w.stagingDirFails
    modifies disk
    ensures old(disk.seen) <= disk.seen
    ensures forall s :: s in disk.seen ==> s in old(disk.seen) || OnlyStagingTouched(old(disk.files), staged, s)
    ensures OnlyStagingTouched(old(disk.files), staged, disk.files)
    ensures go <==> PassesGates(c, j, old(disk.files), staged, w)
    ensures go ==> disk.files == Staged(old(disk.files), staged, w)
                   && outcome == Promoted(|disk.files[staged]|)
    ensures !go ==> !outcome.Promoted? && !outcome.PromotionFailed? && !outcome.StagingFailed?
    ensures Produced(old(disk.files), staged, w) <==> !outcome.EncodeFailed? && !outcome.NoOutput?
    ensures outcome.EncodeFailed? <==> w.encoderFails
    ensures outcome.Grew? <==> TooLarge(c, j, old(disk.files), staged, w)
    ensures outcome.QualityFailed? <==> QualityRefused(c, j, old(disk.files), staged, w)
    ensures outcome.Grew? ==> GrowsTooMuch(c, j, outcome.newSize)
  {
    go := false;
    if w.output.Some? {
      disk.files := disk.files[staged := w.output.value];
      disk.seen := disk.seen + {disk.files};
    }
    if w.encoderFails {
      return false, EncodeFailed;
    }
    if w.statFails || staged !in disk.files || |disk.files[staged]| == 0 {
      return false, NoOutput;
    }
    var newSize := |disk.files[staged]|;
    if GrowsTooMuch(c, j, newSize) {
      return false, Grew(newSize);
    }
    if ChecksQuality(c, j) {
      if w.cancelledWhileVerifying {
        disk.Remove(staged, !w.removeFails);
        return false, Cancelled;
      }
      var verified := match w.verification
        case VerifierFails => false
        case VerifierSilent => true
        case Verdict(passed) => passed;
      if !verified {
        disk.Remove(staged, !w.removeFails);
        return false, QualityFailed(newSize);
      }
    }
    if w.cancelledBeforePromotion {
      disk.Remove(staged, !w.removeFails);
      return false, Cancelled;
    }
    return true, Promoted(newSize);
  }

  // Past the gates: promote, and drop the staging file if that fails.
  method Promote(disk: Disk, c: Config, j: Job, staged: Path, w: World, ghost before: Files) returns (ok: bool)
    requires Promoter.Apart(staged, j.dest)
    requires PassesGates(c, j, before, staged, w) && disk.files == Staged(before, staged, w)
    modifies disk
    ensures old(disk.seen) <= disk.seen
    ensures forall s :: s in disk.seen ==>
      s in old(disk.seen) || DestinationSafe(before, j.dest, Accepted(c, j, before, staged, w), s)
    ensures DestinationSafe(before, j.dest, Accepted(c, j, before, staged, w), disk.files)
    ensures ok <==> Promoter.GoesThrough(Staged(before, staged, w), staged, j.dest, w.promotion)
    ensures ok ==> Promoter.Holds(disk.files, j.dest, Staged(before, staged, w)[staged])
    ensures !ok ==> Promoter.OriginalSomewhere(before, j.dest, disk.files)
    ensures !ok && !w.promotion.restoreFails ==> SameFile(before, disk.files, j.dest)
    ensures ok && j.dest in before && !w.promotion.statFails && !w.promotion.removeBackupFails ==>
      Promoter.BackupPath(j.dest) !in disk.files
  {
    ok := Promoter.PromoteFile(disk, staged, j.dest, w.promotion);
    ghost var backs := Promoter.TouchesBackup(Staged(before, staged, w), j.dest, w.promotion);
    forall s | Promoter.NothingLost(Staged(before, staged, w), staged, j.dest, backs, s)
      ensures DestinationSafe(before, j.dest, Accepted(c, j, before, staged, w), s)
    {
      PromotionIsSafe(c, j, before, staged, w, backs, s);
    }
    if !ok {
      RemovingStagedIsSafe(before, j.dest, Accepted(c, j, before, staged, w), disk.files, staged);
      disk.Remove(staged, !w.removeFails);
    }
  }

  predicate SameFile(a: Files, b: Files, path: Path) {
    (path in a <==> path in b) && (path in a ==> a[path] == b[path])
  }

  lemma RemovingStagedIsSafe(before: Files, dest: Path, output: Option<Content>, s: Files, staged: Path)
    requires DestinationSafe(before, dest, output, s) && Promoter.Apart(staged, dest)
    ensures DestinationSafe(before, dest, output, s - {staged})
  {
    Promoter.PathsDiffer(dest);
  }

  // Execute.  The destination is touched only by a promotion, and a promotion happens only past
  // every gate; a job that succeeds has replaced the destination by the accepted output.
  method Execute(disk: Disk, c: Config, j: Job, staged: Path, w: World) returns (outcome: Outcome)
    requires Promoter.Apart(staged, j.dest)
    modifies disk
    // before promotion, and on every return before it, only the staging file changes
    ensures !PassesGates(c, j, old(disk.files), staged, w) ==>
      && OnlyStagingTouched(old(disk.files), staged, disk.files)
      && forall s :: s in disk.seen ==> s in old(disk.seen) || OnlyStagingTouched(old(disk.files), staged, s)
    ensures forall s :: s in disk.seen ==>
      s in old(disk.seen) || DestinationSafe(old(disk.files), j.dest, Accepted(c, j, old(disk.files), staged, w), s)
    // success: all gates passed, the promotion went through, and dest has the output
    ensures outcome.Promoted? <==>
      && PassesGates(c, j, old(disk.files), staged, w)
      && Promoter.GoesThrough(Staged(old(disk.files), staged, w), staged, j.dest, w.promotion)
    ensures outcome.Promoted? ==>
      var output := Staged(old(disk.files), staged, w)[staged];
      && Promoter.Holds(disk.files, j.dest, output)
      && outcome.newSize == |output| && |output| > 0
      && (c.skipIfLarger && j.sourceSize > 0 ==> |output| < j.sourceSize)
      && (ChecksQuality(c, j) ==> QualityAccepted(w.verification))
      && (ChecksQuality(c, j) && !w.verification.VerifierSilent? ==> w.verification == Verdict(true))
    // a failed promotion with a working restore gives the destination back
    ensures !outcome.Promoted? && !w.promotion.restoreFails ==> SameFile(old(disk.files), disk.files, j.dest)
    ensures !outcome.Promoted? ==> Promoter.OriginalSomewhere(old(disk.files), j.dest, disk.files)
    // no staging file survives a return when remove works
    ensures !w.stagingDirFails && !w.removeFails ==> staged !in disk.files
    // a skip is for size alone, and a quality failure for quality alone
    ensures outcome.Grew? <==> TooLarge(c, j, old(disk.files), staged, w)
    ensures outcome.Grew? ==> j.sourceSize <= outcome.newSize
    ensures outcome.QualityFailed? <==> QualityRefused(c, j, old(disk.files), staged, w)
    ensures outcome.PromotionFailed? <==>
      && PassesGates(c, j, old(disk.files), staged, w)
      && !Promoter.GoesThrough(Staged(old(disk.files), staged, w), staged, j.dest, w.promotion)
    // the three verdicts spelled out
    ensures var files := if w.output.Some? then old(disk.files)[staged := w.output.value] else old(disk.files);
            var size := if staged in files then |files[staged]| else 0;
            var produced := !w.stagingDirFails && !w.encoderFails && !w.statFails && size > 0;
            var grew := c.skipIfLarger && j.sourceSize > 0 && size >= j.sourceSize;
            var checked := c.vmafEnabled && j.duration > 5.0;
            var refused := w.verification.VerifierFails? || w.verification == Verdict(false);
            && (outcome.Grew? <==> produced && grew)
            && (outcome.QualityFailed? <==> produced && !grew && checked && !w.cancelledWhileVerifying && refused)
            && (outcome.Promoted? <==>
                  && produced && !grew && (checked ==> !w.cancelledWhileVerifying && !refused)
                  && !w.cancelledBeforePromotion && Promoter.GoesThrough(files, staged, j.dest, w.promotion))
    // and no copy of the original is left behind
    ensures outcome.Promoted? && j.dest in old(disk.files) && !w.promotion.statFails && !w.promotion.removeBackupFails ==>
      Promoter.BackupPath(j.dest) !in disk.files
  {
    Promoter.PathsDiffer(j.dest);
    if w.stagingDirFails {
      return StagingFailed;
    }
    ghost var before, output := disk.files, Accepted(c, j, disk.files, staged, w);
    var go;
    go, outcome := EncodeAndJudge(disk, c, j, staged, w);
    forall s | OnlyStagingTouched(before, staged, s)
      ensures DestinationSafe(before, j.dest, output, s)
    {
      StagingIsHarmless(before, staged, j.dest, output, s);
    }
    if go {
      var promoted := Promote(disk, c, j, staged, w, before);
      if !promoted {
        outcome := PromotionFailed;
      }
    }
    RemovingStagedIsSafe(before, j.dest, output, disk.files, staged);
    disk.Remove(staged, !w.removeFails);
  }
}
