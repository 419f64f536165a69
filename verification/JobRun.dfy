// One entry from the worker's lease to its row and its file: what the queue says of a job against
// what was done to the destination.
module JobRun {
  import opened Wrappers
  import opened FileSystem
  import opened QueueTable
  import opened WorkerPool
  import opened WorkerRoutine
  import Promoter
  import Transcoder

  // How the worker reads what Execute returns; the texts are those of whatever failed.
  function Seen(outcome: Transcoder.Outcome, reason: string, failure: Err): Encode {
    match outcome
    case Promoted(_) => Encoded
    case Grew(_) => GrewTooMuch(reason)
    case QualityFailed(_) => QualityRejected(reason)
    case Cancelled => ExecuteFails(Err("context canceled", true))
    case StagingFailed | EncodeFailed | NoOutput | PromotionFailed => ExecuteFails(failure)
  }

  // The worker gets as far as Execute: a transcode, not for review, that the pre-check lets pass
  // and that gets its permit.
  predicate Executes(o: Outside) {
    && !o.crunched && o.evaluation.Decided? && o.evaluation.action == "transcode" && !o.evaluation.needsReview
    && !o.preCheck.Rejected? && !o.encode.NoPermit?
  }

  // A pass with the real Execute in the place of the encode oracle.  Of a row nobody else touches,
  // whose last write is saved: it says completed exactly when the output passed every gate and was
  // promoted, and then dest has it; otherwise the original is whole at dest or at the backup path.
  method RunEntry(
    worker: PoolWorker, disk: Disk, c: Transcoder.Config, j: Transcoder.Job, staged: Path, world: Transcoder.World,
    id: JobId, entry: Row, o: Outside, reason: string, failure: Err, ghost b: Worker)
    returns (ghost gaps: seq<Gap>)
    requires worker.Remembers(b, id, entry, Fetched) && Promoter.Apart(staged, j.dest)
    modifies disk, worker.db
    ensures !Executes(o) ==> disk.files == old(disk.files) && disk.seen == old(disk.seen)
    ensures Undisturbed(old(worker.db.Snapshot()), id, gaps) ==> id in worker.db.rows
    ensures Undisturbed(old(worker.db.Snapshot()), id, gaps) && InFlight(old(worker.db.rows)[id].state)
            && o.savedLast && Executes(o) ==>
      var state, before := worker.db.rows[id].state, old(disk.files);
      && (state.Completed? <==>
            && Transcoder.PassesGates(c, j, before, staged, world)
            && Promoter.GoesThrough(Transcoder.Staged(before, staged, world), staged, j.dest, world.promotion))
      && (state.Completed? ==>
            Promoter.Holds(disk.files, j.dest, Transcoder.Staged(before, staged, world)[staged]))
      && (!state.Completed? ==> Promoter.OriginalSomewhere(before, j.dest, disk.files))
      && (state.Skipped? <==> Transcoder.TooLarge(c, j, before, staged, world))
      && (state.QualityFailed? <==> Transcoder.QualityRefused(c, j, before, staged, world))
  {
    var met := o;
    if Executes(o) {
      var outcome := Transcoder.Execute(disk, c, j, staged, world);
      met := o.(encode := Seen(outcome, reason, failure));
    }
    gaps := worker.ProcessEntry(id, entry, met, b);
  }
}
