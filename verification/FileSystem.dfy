// A file system as a map from paths to contents, with operations that may fail.
// `seen` records every state the disk has been in, so that a property can be stated of what a
// reader, or a crash, would find at any moment.
module FileSystem {
  newtype byte = b: int | 0 <= b < 256
  type Path = string
  type Content = seq<byte>
  type Files = map<Path, Content>

  // How far a streaming copy gets.
  datatype CopyFault = CopyWhole | OpenFails | CreateFails | StopsAfter(bytes: nat)

  const BUFFER: nat := 1024 * 1024

  // The two disks agree on every path outside ps.
  ghost predicate SameExcept(a: Files, b: Files, ps: set<Path>) {
    forall q :: q !in ps ==> (q in a <==> q in b) && (q in a && q in b ==> a[q] == b[q])
  }

  class Disk {
    var files: Files
    ghost var seen: set<Files>

    constructor (files: Files)
      ensures this.files == files && seen == {files}
    {
      this.files := files;
      this.seen := {files};
    }

    // rename(2): atomic, replaces the target, fails when the source is missing.
    method Rename(src: Path, dst: Path, allowed: bool) returns (ok: bool)
      modifies this
      ensures ok <==> allowed && src in old(files)
      ensures files == if ok then (old(files) - {src})[dst := old(files)[src]] else old(files)
      ensures seen == old(seen) + {files}
    {
      ok := allowed && src in files;
      if ok {
        files := (files - {src})[dst := files[src]];
      }
      seen := seen + {files};
    }

    method Remove(path: Path, allowed: bool)
      modifies this
      ensures files == if allowed then old(files) - {path} else old(files)
      ensures seen == old(seen) + {files}
    {
      if allowed {
        files := files - {path};
      }
      seen := seen + {files};
    }

    // Opens src, creates dst and streams through a buffer; dst holds a prefix at every point.
    method Copy(src: Path, dst: Path, fault: CopyFault) returns (ok: bool)
      requires src != dst
      modifies this
      ensures ok <==> fault.CopyWhole? && src in old(files)
      ensures ok ==> files == old(files)[dst := old(files)[src]]
      ensures SameExcept(files, old(files), {dst})
      // a copy that starts leaves a prefix, and one that does not leaves things alone
      ensures fault.OpenFails? || fault.CreateFails? || src !in old(files) ==>
        files == old(files) && forall s :: s in seen ==> s in old(seen) || s == old(files)
      ensures !fault.OpenFails? && !fault.CreateFails? && src in old(files) ==>
        dst in files && files[dst] <= old(files)[src]
      ensures old(seen) <= seen && files in seen
      ensures forall s :: s in seen ==> s in old(seen) || SameExcept(s, old(files), {dst})
    {
      ghost var before := files;
      ok := false;
      if src !in files || fault.OpenFails? || fault.CreateFails? {
        seen := seen + {files};
        return;
      }
      var data := files[src];
      files := files[dst := []];
      seen := seen + {files};
      var done, stopped := 0, false;
      while done < |data| && !stopped
        invariant 0 <= done <= |data|
        invariant files == before[dst := data[..done]]
        invariant old(seen) <= seen && files in seen
        invariant forall s :: s in seen ==> s in old(seen) || SameExcept(s, before, {dst})
        invariant stopped ==> fault.StopsAfter?
        decreases |data| - done, !stopped
      {
        var next := if done + BUFFER < |data| then done + BUFFER else |data|;
        if fault.StopsAfter? && fault.bytes < next {
          next := if done < fault.bytes then fault.bytes else done;
          stopped := true;
        }
        done := next;
        files := files[dst := data[..done]];
        seen := seen + {files};
      }
      assert done == |data| ==> data[..done] == data;
      ok := fault.CopyWhole?;
    }
  }
}
