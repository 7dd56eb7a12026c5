/** The disk under the cache directory: a map from path to contents.
    Every operation may fail, and a failed rename or remove leaves the disk as it was.
    `log` records the disk after each single operation that can change it, so a statement
    about all of `log` is a statement about a crash after any operation.
    `failures` records the operations that failed, so where it has not grown nothing has. */
module Disk {
  import opened Wrappers

  type Bytes = seq<byte>

  /** A formal path is a configured one, cleaned, by its pieces. Temp paths are the names CreateTemp hands out; they
      never name a configured file. */
  datatype Path = Formal(rooted: bool, parts: seq<string>) | Temp(id: nat)

  /** Special stands for anything that is not a regular file (directory, link, device). */
  datatype Node = Regular(data: Bytes) | Special

  type Files = map<Path, Node>

  datatype Op =
    | RenameOp(src: Path, dst: Path)
    | RemoveOp(path: Path)
    | CreateOp
    | WriteOp(path: Path)
    | LstatOp(path: Path)
    | ReadOp(path: Path)
    | DirectoryOp

  datatype Lookup = Found(node: Node) | Missing | Unreadable

  datatype Removal = Removed | AlreadyGone | RemoveFailed

  /** Both disks hold the same thing at p, or both hold nothing there. */
  predicate Same(a: Files, b: Files, p: Path) {
    (p in a <==> p in b) && (p in a ==> a[p] == b[p])
  }

  /** The last of these states of the disk, which came after `start`. */
  function LastOf(start: Files, log: seq<Files>): (r: Files) {
    if log == [] then start else log[|log| - 1]
  }

  class Disk {
    ghost const start: Files
    var files: Files
    var next: nat
    ghost var log: seq<Files>
    ghost var failures: seq<Op>

    ghost predicate Valid()
      reads this
    {
      && (forall p :: p in files && p.Temp? ==> p.id < next)
      && files == LastOf(start, log)
    }

    /** Everything a disk operation may do besides changing files. */
    twostate predicate Advanced()
      reads this
    {
      Valid() && old(next) <= next && log == old(log) + [files]
    }

    constructor (initial: Files, firstTemp: nat)
      requires forall p :: p in initial && p.Temp? ==> p.id < firstTemp
      ensures Valid() && files == initial && next == firstTemp && log == [] && failures == []
    {
      start, files, next, log, failures := initial, initial, firstTemp, [], [];
    }

    method Rename(src: Path, dst: Path) returns (ok: bool)
      requires Valid() && dst.Formal? && src != dst
      modifies this
      ensures Advanced() && next == old(next)
      ensures ok ==> src in old(files) && files == (old(files) - {src})[dst := old(files)[src]] && failures == old(failures)
      ensures !ok ==> files == old(files) && failures == old(failures) + [RenameOp(src, dst)]
    {
      ok := *;
      ok := ok && src in files;
      if ok {
        files := (files - {src})[dst := files[src]];
      } else {
        failures := failures + [RenameOp(src, dst)];
      }
      log := log + [files];
    }

    method Remove(p: Path) returns (r: Removal)
      requires Valid()
      modifies this
      ensures Advanced() && next == old(next)
      ensures r.Removed? ==> p in old(files) && files == old(files) - {p}
      ensures r.AlreadyGone? ==> p !in old(files)
      ensures !r.Removed? ==> files == old(files)
      ensures failures == if r.RemoveFailed? then old(failures) + [RemoveOp(p)] else old(failures)
    {
      var fault: bool := *;
      if fault {
        r := RemoveFailed;
        failures := failures + [RemoveOp(p)];
      } else if p in files {
        r := Removed;
        files := files - {p};
      } else {
        r := AlreadyGone;
      }
      log := log + [files];
    }

    method CreateTemp() returns (r: Option<Path>)
      requires Valid()
      modifies this
      ensures Advanced() && failures == if r.None? then old(failures) + [CreateOp] else old(failures)
      ensures r.Some? ==> r.value == Temp(old(next)) && next == old(next) + 1 && files == old(files)[r.value := Regular([])]
      ensures r.None? ==> files == old(files) && next == old(next)
    {
      var fault: bool := *;
      if fault {
        r := None;
        failures := failures + [CreateOp];
      } else {
        r := Some(Temp(next));
        files := files[Temp(next) := Regular([])];
        next := next + 1;
      }
      log := log + [files];
    }

    /** Chmod, write, sync and close of a freshly created file: on failure any prefix may have been written. */
    method Write(p: Path, data: Bytes) returns (ok: bool)
      requires Valid() && p in files && p.Temp?
      modifies this
      ensures Advanced() && next == old(next) && failures == if ok then old(failures) else old(failures) + [WriteOp(p)]
      ensures ok ==> files == old(files)[p := Regular(data)]
      ensures !ok ==> exists n: nat :: n <= |data| && files == old(files)[p := Regular(data[..n])]
    {
      ok := *;
      if ok {
        files := files[p := Regular(data)];
      } else {
        var n: nat :| n <= |data|;
        files := files[p := Regular(data[..n])];
        failures := failures + [WriteOp(p)];
      }
      log := log + [files];
    }

    method Lstat(p: Path) returns (r: Lookup)
      modifies `failures
      ensures r.Found? ==> p in files && files[p] == r.node
      ensures r.Missing? ==> p !in files
      ensures failures == if r.Unreadable? then old(failures) + [LstatOp(p)] else old(failures)
    {
      var fault: bool := *;
      if fault {
        r := Unreadable;
        failures := failures + [LstatOp(p)];
      } else if p in files {
        r := Found(files[p]);
      } else {
        r := Missing;
      }
    }

    /** What is not there, or not a regular file, cannot be read; that is no failure of the disk. */
    method Read(p: Path) returns (r: Option<Bytes>)
      modifies `failures
      ensures r.Some? ==> p in files && files[p] == Regular(r.value)
      ensures failures == old(failures) || (r.None? && failures == old(failures) + [ReadOp(p)])
      ensures failures == old(failures) ==> (r.Some? <==> p in files && files[p].Regular?)
    {
      var fault: bool := *;
      if fault {
        failures := failures + [ReadOp(p)];
        r := None;
      } else if p in files && files[p].Regular? {
        r := Some(files[p].data);
      } else {
        r := None;
      }
    }

    /** Making a directory, or opening, syncing and closing directories: no file content depends on it, but it may fail. */
    method Directories() returns (ok: bool)
      modifies `failures
      ensures failures == if ok then old(failures) else old(failures) + [DirectoryOp]
    {
      ok := *;
      if !ok {
        failures := failures + [DirectoryOp];
      }
    }
  }
}
