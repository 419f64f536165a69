// Moving a staged file over a destination without ever losing the original.
module Promoter {
  import opened FileSystem

  const BACKUP_SUFFIX: string := ".media_cruncher_backup"
  const TMP_SUFFIX: string := ".media_cruncher_tmp"

  function BackupPath(dest: Path): Path { dest + BACKUP_SUFFIX }
  function TmpPath(dest: Path): Path { dest + TMP_SUFFIX }

  // One flag for each operation that may fail.
  datatype Faults = Faults(
    mkdirFails: bool,
    statFails: bool,
    backupRenameFails: bool,
    backupCopy: CopyFault,
    removeOriginalFails: bool,
    moveFails: bool,
    tmpCopy: CopyFault,
    tmpSyncFails: bool,
    tmpRenameFails: bool,
    restoreFails: bool,
    removeStagedFails: bool,
    removeBackupFails: bool,
    removeTmpFails: bool)

  lemma PathsDiffer(dest: Path)
    ensures dest != BackupPath(dest) && dest != TmpPath(dest) && BackupPath(dest) != TmpPath(dest)
  {
    assert |BackupPath(dest)| == |dest| + 22 && |TmpPath(dest)| == |dest| + 19;
  }

  predicate Holds(s: Files, path: Path, c: Content) {
    path in s && s[path] == c
  }

  // What must be true of the disk at every moment of a promotion that started at `before`.
  ghost predicate NothingLost(before: Files, staged: Path, dest: Path, backs: bool, s: Files) {
    // the original is whole at dest or at the backup path, or dest has the whole staged file
    && (dest in before ==>
          Holds(s, dest, before[dest]) || Holds(s, BackupPath(dest), before[dest])
          || (staged in before && Holds(s, dest, before[staged])))
    // nobody ever finds part of a file at dest
    && (dest in s ==>
          (dest in before && s[dest] == before[dest]) || (staged in before && s[dest] == before[staged]))
    // the staged file is whole where it was, or at dest
    && (staged in before && staged != dest ==>
          Holds(s, staged, before[staged]) || Holds(s, dest, before[staged]))
    // other files are left alone, an old backup among them unless this promotion makes its own
    && SameExcept(s, before, {staged, dest, TmpPath(dest)} + (if backs then {BackupPath(dest)} else {}))
  }

  // Whether a promotion writes to the backup path: there is a file to back up, and the rename or
  // at least the start of the copy works.
  predicate TouchesBackup(before: Files, dest: Path, f: Faults) {
    !f.mkdirFails && dest in before && !f.statFails
    && !(f.backupRenameFails && (f.backupCopy.OpenFails? || f.backupCopy.CreateFails?))
  }

  // Whether a promotion gets the whole original to the backup path.
  predicate BacksUpWhole(before: Files, dest: Path, f: Faults) {
    !f.mkdirFails && dest in before && !f.statFails && (f.backupRenameFails ==> f.backupCopy.CopyWhole?)
  }

  // What is at the backup path, if anything, comes from the file that was at dest.
  predicate BackupIsOfDest(before: Files, dest: Path, s: Files) {
    BackupPath(dest) in s ==> dest in before && s[BackupPath(dest)] <= before[dest]
  }

  // The original, if there was one, is whole at its own place or at the backup path.
  predicate OriginalSomewhere(before: Files, dest: Path, s: Files) {
    dest in before ==> Holds(s, dest, before[dest]) || Holds(s, BackupPath(dest), before[dest])
  }

  // Whether a promotion succeeds, by its faults alone.
  predicate GoesThrough(before: Files, staged: Path, dest: Path, f: Faults) {
    && !f.mkdirFails
    && staged in before
    && (dest in before && !f.statFails && f.backupRenameFails ==> f.backupCopy.CopyWhole?)
    && (f.moveFails ==> f.tmpCopy.CopyWhole? && !f.tmpSyncFails && !f.tmpRenameFails)
  }

  // The staged file is a file of its own.
  predicate Apart(staged: Path, dest: Path) {
    staged != dest && staged != BackupPath(dest) && staged != TmpPath(dest)
  }

  // Nothing was lost in any state the disk has been in since `earlier`.
  ghost predicate SafeSince(disk: Disk, earlier: set<Files>, before: Files, staged: Path, dest: Path, backs: bool)
    reads disk
  {
    earlier <= disk.seen && forall s :: s in disk.seen ==> s in earlier || NothingLost(before, staged, dest, backs, s)
  }

  // Where a promotion stands once the original is out of the way.
  ghost predicate BackedUp(before: Files, staged: Path, dest: Path, backs: bool, s: Files, hasBackup: bool) {
    && NothingLost(before, staged, dest, backs, s)
    && (staged in before <==> staged in s) && (staged in s ==> s[staged] == before[staged])
    && (hasBackup ==> backs && dest in before && Holds(s, BackupPath(dest), before[dest]))
    && (backs ==> BackupIsOfDest(before, dest, s))
    && (!hasBackup ==> (dest in s <==> dest in before))
    && (dest in s ==> Holds(before, dest, s[dest]))
  }

  lemma SameButBackup(before: Files, staged: Path, dest: Path, s: Files)
    requires SameExcept(s, before, {BackupPath(dest)}) && Apart(staged, dest)
    ensures NothingLost(before, staged, dest, true, s)
    ensures BackupIsOfDest(before, dest, s) ==> BackedUp(before, staged, dest, true, s, false)
  {
    PathsDiffer(dest);
  }

  lemma NothingDoneYet(before: Files, staged: Path, dest: Path)
    requires Apart(staged, dest)
    ensures BackedUp(before, staged, dest, false, before, false)
  {
    PathsDiffer(dest);
  }

  lemma TmpIsFree(before: Files, staged: Path, dest: Path, backs: bool, s: Files, t: Files)
    requires NothingLost(before, staged, dest, backs, s) && SameExcept(t, s, {TmpPath(dest)}) && Apart(staged, dest)
    ensures NothingLost(before, staged, dest, backs, t)
    ensures BackupIsOfDest(before, dest, s) ==> BackupIsOfDest(before, dest, t)
  {
    PathsDiffer(dest);
  }

  // After a success: what is left is what could not be removed, and nothing else is touched.
  ghost predicate Cleared(from: Files, s: Files, staged: Path, dest: Path, across: bool, hasBackup: bool, f: Faults) {
    && (staged in s <==> across && f.removeStagedFails)
    && (hasBackup ==> (BackupPath(dest) in s <==> f.removeBackupFails))
    && (across ==> TmpPath(dest) !in s)
    && SameExcept(s, from, {staged, dest} + (if across then {TmpPath(dest)} else {})
                           + (if hasBackup then {BackupPath(dest)} else {}))
  }

  lemma AcrossClears(from: Files, mid: Files, s: Files, staged: Path, dest: Path, hasBackup: bool, f: Faults)
    requires Apart(staged, dest) && staged in from && (hasBackup ==> BackupPath(dest) in from)
    requires SameExcept(mid, from, {dest, TmpPath(dest)}) && TmpPath(dest) !in mid
    requires var gone := (if f.removeStagedFails then {} else {staged})
                         + (if hasBackup && !f.removeBackupFails then {BackupPath(dest)} else {});
             s == mid - gone || s == mid - gone - {TmpPath(dest)}
    ensures Cleared(from, s, staged, dest, true, hasBackup, f)
  {
    PathsDiffer(dest);
  }

  // Moves an existing destination out of the way, by rename or, failing that, by copying.
  method BackUp(disk: Disk, dest: Path, f: Faults, ghost staged: Path) returns (ok: bool, hasBackup: bool)
    requires Apart(staged, dest) && !f.mkdirFails
    modifies disk
    ensures SafeSince(disk, old(disk.seen), old(disk.files), staged, dest, TouchesBackup(old(disk.files), dest, f))
    ensures BackedUp(old(disk.files), staged, dest, TouchesBackup(old(disk.files), dest, f), disk.files, hasBackup)
    ensures ok <==> (dest in old(disk.files) && !f.statFails && f.backupRenameFails ==> f.backupCopy.CopyWhole?)
    ensures hasBackup ==> ok
    ensures ok ==> (hasBackup <==> dest in old(disk.files) && !f.statFails)
    ensures SameExcept(disk.files, old(disk.files), if ok && !hasBackup then {} else {dest, BackupPath(dest)})
  {
    PathsDiffer(dest);
    ghost var before := disk.files;
    NothingDoneYet(before, staged, dest);
    ok, hasBackup := true, false;
    if dest in disk.files && !f.statFails {
      var renamed := disk.Rename(dest, BackupPath(dest), !f.backupRenameFails);
      if !renamed {
        ok := disk.Copy(dest, BackupPath(dest), f.backupCopy);
        if TouchesBackup(before, dest, f) {
          SameButBackup(before, staged, dest, before);
          forall s | s in disk.seen && SameExcept(s, before, {BackupPath(dest)})
            ensures NothingLost(before, staged, dest, true, s)
          {
            SameButBackup(before, staged, dest, s);
          }
          SameButBackup(before, staged, dest, disk.files);
        }
        if !ok {
          return;
        }
        disk.Remove(dest, !f.removeOriginalFails);
      }
      hasBackup := true;
    }
  }

  // The staged file is in place: drop what is left of the move.
  method CleanUp(disk: Disk, staged: Path, dest: Path, f: Faults, hasBackup: bool, ghost before: Files, ghost backs: bool)
    requires Apart(staged, dest) && staged in before && Holds(disk.files, dest, before[staged])
    requires NothingLost(before, staged, dest, backs, disk.files)
    requires hasBackup ==> backs
    requires backs ==> BackupIsOfDest(before, dest, disk.files)
    modifies disk
    ensures SafeSince(disk, old(disk.seen), before, staged, dest, backs)
    ensures NothingLost(before, staged, dest, backs, disk.files) && Holds(disk.files, dest, before[staged])
    ensures backs ==> BackupIsOfDest(before, dest, disk.files)
    ensures disk.files == old(disk.files) - ((if f.removeStagedFails then {} else {staged})
                          + (if hasBackup && !f.removeBackupFails then {BackupPath(dest)} else {}))
  {
    PathsDiffer(dest);
    disk.Remove(staged, !f.removeStagedFails);
    if hasBackup {
      disk.Remove(BackupPath(dest), !f.removeBackupFails);
    }
  }

  // Nothing was put in place: bring the original back.
  method Restore(disk: Disk, staged: Path, dest: Path, f: Faults, hasBackup: bool, ghost before: Files, ghost backs: bool)
    requires Apart(staged, dest) && BackedUp(before, staged, dest, backs, disk.files, hasBackup)
    modifies disk
    ensures SafeSince(disk, old(disk.seen), before, staged, dest, backs)
    ensures NothingLost(before, staged, dest, backs, disk.files)
    ensures (!f.restoreFails || dest !in before) ==>
      (dest in disk.files <==> dest in before) && (dest in disk.files ==> disk.files[dest] == before[dest])
    ensures staged in before ==> Holds(disk.files, staged, before[staged])
    ensures OriginalSomewhere(before, dest, disk.files)
    ensures backs ==> BackupIsOfDest(before, dest, disk.files)
    ensures hasBackup && !f.restoreFails ==> BackupPath(dest) !in disk.files
  {
    PathsDiffer(dest);
    if hasBackup {
      var _ := disk.Rename(BackupPath(dest), dest, !f.restoreFails);
    }
  }

  // Copy to a temporary name beside the destination and rename it into place.
  method CopyAcross(disk: Disk, staged: Path, dest: Path, f: Faults, ghost hasBackup: bool,
                    ghost before: Files, ghost backs: bool)
    returns (ok: bool)
    requires Apart(staged, dest) && BackedUp(before, staged, dest, backs, disk.files, hasBackup)
    modifies disk
    ensures SafeSince(disk, old(disk.seen), before, staged, dest, backs)
    ensures NothingLost(before, staged, dest, backs, disk.files)
    ensures ok ==> staged in before && Holds(disk.files, dest, before[staged])
    ensures !ok ==> BackedUp(before, staged, dest, backs, disk.files, hasBackup)
    ensures backs ==> BackupIsOfDest(before, dest, disk.files)
    ensures ok <==> staged in before && f.tmpCopy.CopyWhole? && !f.tmpSyncFails && !f.tmpRenameFails
    ensures ok ==> SameExcept(disk.files, old(disk.files), {dest, TmpPath(dest)}) && TmpPath(dest) !in disk.files
  {
    PathsDiffer(dest);
    ghost var mid := disk.files;
    var copied := disk.Copy(staged, TmpPath(dest), f.tmpCopy);
    forall s | SameExcept(s, mid, {TmpPath(dest)})
      ensures NothingLost(before, staged, dest, backs, s)
    {
      TmpIsFree(before, staged, dest, backs, mid, s);
    }
    TmpIsFree(before, staged, dest, backs, mid, disk.files);
    assert BackedUp(before, staged, dest, backs, disk.files, hasBackup);
    // only this copy is synced; the backup copy is not
    ok := copied && !f.tmpSyncFails;
    if ok {
      ok := disk.Rename(TmpPath(dest), dest, !f.tmpRenameFails);
    }
  }

  // By way of a copy, or else restore; the temporary file is removed on every way out.
  method PromoteAcrossDevices(disk: Disk, staged: Path, dest: Path, f: Faults, hasBackup: bool, ghost before: Files, ghost backs: bool)
    returns (ok: bool)
    requires Apart(staged, dest) && BackedUp(before, staged, dest, backs, disk.files, hasBackup)
    modifies disk
    ensures SafeSince(disk, old(disk.seen), before, staged, dest, backs)
    ensures NothingLost(before, staged, dest, backs, disk.files)
    ensures ok ==> staged in before && Holds(disk.files, dest, before[staged])
    ensures !ok && (!f.restoreFails || dest !in before) ==>
      (dest in disk.files <==> dest in before) && (dest in disk.files ==> disk.files[dest] == before[dest])
    ensures !ok && staged in before ==> Holds(disk.files, staged, before[staged])
    ensures !ok ==> OriginalSomewhere(before, dest, disk.files)
    ensures ok <==> staged in before && f.tmpCopy.CopyWhole? && !f.tmpSyncFails && !f.tmpRenameFails
    ensures backs ==> BackupIsOfDest(before, dest, disk.files)
    ensures !f.removeTmpFails ==> TmpPath(dest) !in disk.files
    ensures !ok && hasBackup && !f.restoreFails ==> BackupPath(dest) !in disk.files
    ensures ok ==> Cleared(old(disk.files), disk.files, staged, dest, true, hasBackup, f)
  {
    PathsDiffer(dest);
    ghost var start := disk.files;
    ok := CopyAcross(disk, staged, dest, f, hasBackup, before, backs);
    ghost var mid := disk.files;
    if ok {
      CleanUp(disk, staged, dest, f, hasBackup, before, backs);
    } else {
      Restore(disk, staged, dest, f, hasBackup, before, backs);
    }
    ghost var last := disk.files;
    disk.Remove(TmpPath(dest), !f.removeTmpFails);
    TmpIsFree(before, staged, dest, backs, last, disk.files);
    if ok {
      AcrossClears(start, mid, disk.files, staged, dest, hasBackup, f);
    }
  }

  lemma MoveIsSafe(before: Files, start: Files, s: Files, staged: Path, dest: Path, backs: bool, hasBackup: bool)
    requires Apart(staged, dest) && BackedUp(before, staged, dest, backs, start, hasBackup) && staged in start
    requires var moved := (start - {staged})[dest := start[staged]];
             s == moved || (hasBackup && s == moved - {BackupPath(dest)})
    ensures staged in before && NothingLost(before, staged, dest, backs, s) && Holds(s, dest, before[staged])
    ensures backs ==> BackupIsOfDest(before, dest, s)
  {
    PathsDiffer(dest);
  }

  lemma MoveClears(start: Files, s: Files, staged: Path, dest: Path, hasBackup: bool, f: Faults)
    requires Apart(staged, dest) && staged in start && (hasBackup ==> BackupPath(dest) in start)
    requires s == (start - {staged})[dest := start[staged]]
                  - (if hasBackup && !f.removeBackupFails then {BackupPath(dest)} else {})
    ensures Cleared(start, s, staged, dest, false, hasBackup, f)
  {
    PathsDiffer(dest);
  }

  // The fast rename, or else the cross-device way.
  method PutInPlace(disk: Disk, staged: Path, dest: Path, f: Faults, hasBackup: bool, ghost before: Files, ghost backs: bool)
    returns (ok: bool)
    requires Apart(staged, dest) && BackedUp(before, staged, dest, backs, disk.files, hasBackup)
    modifies disk
    ensures SafeSince(disk, old(disk.seen), before, staged, dest, backs)
    ensures NothingLost(before, staged, dest, backs, disk.files)
    ensures ok ==> staged in before && Holds(disk.files, dest, before[staged])
    ensures !ok && (!f.restoreFails || dest !in before) ==>
      (dest in disk.files <==> dest in before) && (dest in disk.files ==> disk.files[dest] == before[dest])
    ensures !ok && staged in before ==> Holds(disk.files, staged, before[staged])
    ensures !ok ==> OriginalSomewhere(before, dest, disk.files)
    ensures ok <==> staged in before && (f.moveFails ==> f.tmpCopy.CopyWhole? && !f.tmpSyncFails && !f.tmpRenameFails)
    ensures backs ==> BackupIsOfDest(before, dest, disk.files)
    ensures !ok && !f.removeTmpFails ==> TmpPath(dest) !in disk.files
    ensures !ok && hasBackup && !f.restoreFails ==> BackupPath(dest) !in disk.files
    ensures ok ==> Cleared(old(disk.files), disk.files, staged, dest, f.moveFails, hasBackup, f)
  {
    PathsDiffer(dest);
    ghost var start := disk.files;
    ok := disk.Rename(staged, dest, !f.moveFails);
    if ok {
      MoveIsSafe(before, start, disk.files, staged, dest, backs, hasBackup);
      if hasBackup {
        disk.Remove(BackupPath(dest), !f.removeBackupFails);
        MoveIsSafe(before, start, disk.files, staged, dest, backs, hasBackup);
      }
      MoveClears(start, disk.files, staged, dest, hasBackup, f);
    } else {
      ok := PromoteAcrossDevices(disk, staged, dest, f, hasBackup, before, backs);
    }
  }

  // From the file system found to the one a success leaves, across the backup.
  lemma OneForTwo(before: Files, mid: Files, s: Files, staged: Path, dest: Path, hasBackup: bool, f: Faults)
    requires Apart(staged, dest) && staged in before && Holds(s, dest, before[staged])
    requires SameExcept(mid, before, if hasBackup then {dest, BackupPath(dest)} else {})
    requires hasBackup <==> dest in before && !f.statFails
    requires Cleared(mid, s, staged, dest, f.moveFails, hasBackup, f)
    ensures SameExcept(s, before, {staged, dest, TmpPath(dest), BackupPath(dest)})
    ensures TmpPath(dest) !in before ==> TmpPath(dest) !in s
    ensures !f.statFails && !f.moveFails && !f.removeBackupFails ==>
      s == (before - {staged} - (if dest in before then {BackupPath(dest)} else {}))[dest := before[staged]]
  {
    PathsDiffer(dest);
  }

  // PromoteFile.  For every pattern of failures nothing is lost at any moment; success means the
  // destination is the staged file; after a failure the destination is what it was, provided the
  // rename that restores it works, and the staged file is still there.
  //
  // An older file at the backup path, such as an original that an earlier promotion could not
  // restore, outlives this one when this one does not touch that path; if it does, all that can be
  // left there is part or all of the file it found at the destination.
  method PromoteFile(disk: Disk, staged: Path, dest: Path, f: Faults) returns (ok: bool)
    requires Apart(staged, dest)
    modifies disk
    ensures SafeSince(disk, old(disk.seen), old(disk.files), staged, dest, TouchesBackup(old(disk.files), dest, f))
    ensures NothingLost(old(disk.files), staged, dest, TouchesBackup(old(disk.files), dest, f), disk.files)
    ensures TouchesBackup(old(disk.files), dest, f) ==>
      BackupIsOfDest(old(disk.files), dest, disk.files)
    ensures ok ==> staged in old(disk.files) && Holds(disk.files, dest, old(disk.files)[staged])
    ensures !ok && (!f.restoreFails || dest !in old(disk.files)) ==>
      (dest in disk.files <==> dest in old(disk.files))
      && (dest in disk.files ==> disk.files[dest] == old(disk.files)[dest])
    ensures !ok && staged in old(disk.files) ==> Holds(disk.files, staged, old(disk.files)[staged])
    ensures !ok ==> OriginalSomewhere(old(disk.files), dest, disk.files)
    ensures ok <==> GoesThrough(old(disk.files), staged, dest, f)
    // a success leaves neither the staged file, nor a backup, nor a temporary file that could be
    // removed, and touches nothing else
    ensures ok ==> (staged in disk.files <==> f.moveFails && f.removeStagedFails)
    ensures ok && dest in old(disk.files) && !f.statFails ==> (BackupPath(dest) in disk.files <==> f.removeBackupFails)
    ensures ok && f.moveFails ==> TmpPath(dest) !in disk.files
    ensures ok ==> SameExcept(disk.files, old(disk.files), {staged, dest, TmpPath(dest), BackupPath(dest)})
    // when nothing fails there is one file in the place of two
    ensures staged in old(disk.files) && !f.mkdirFails && !f.statFails && !f.backupRenameFails && !f.moveFails
            && !f.removeBackupFails ==>
      disk.files == (old(disk.files) - {staged}
                     - (if dest in old(disk.files) then {BackupPath(dest)} else {}))[dest := old(disk.files)[staged]]
    // a failure leaves no temporary file and, once the original is back, no backup
    ensures !f.removeTmpFails && TmpPath(dest) !in old(disk.files) ==> TmpPath(dest) !in disk.files
    ensures !ok && BacksUpWhole(old(disk.files), dest, f) && !f.restoreFails ==> BackupPath(dest) !in disk.files
  {
    if f.mkdirFails {
      return false;
    }
    ghost var before, backs := disk.files, TouchesBackup(disk.files, dest, f);
    var hasBackup;
    ok, hasBackup := BackUp(disk, dest, f, staged);
    if ok {
      ghost var mid := disk.files;
      ok := PutInPlace(disk, staged, dest, f, hasBackup, before, backs);
      if ok {
        OneForTwo(before, mid, disk.files, staged, dest, hasBackup, f);
      }
    }
  }

  // A file at the backup path that this promotion does not touch is there at every moment of it.
  // That is always so for an original that only survives there, nothing being at dest.
  lemma OrphanOutlives(before: Files, staged: Path, dest: Path, f: Faults, s: Files)
    requires Apart(staged, dest) && BackupPath(dest) in before && !TouchesBackup(before, dest, f)
    requires NothingLost(before, staged, dest, TouchesBackup(before, dest, f), s)
    ensures Holds(s, BackupPath(dest), before[BackupPath(dest)])
  {
    PathsDiffer(dest);
  }
}
