/**
 * The part of the file system the tool touches: directories and files named
 * by the paths the source formats, the files holding text. `FsState` is a
 * snapshot; `Disk` is the file system itself, changed in place; `FileHandle`
 * is one open file with its cursor.
 */
module Fs {
  import opened Text

  /** The existing directories, and the files with their contents. */
  datatype FsState = FsState(dirs: set<string>, files: map<string, string>)

  /** Something, a directory or a file, exists at `path`. */
  predicate Exists(fs: FsState, path: string)
  {
    path in fs.dirs || path in fs.files
  }

  /** `path` is `root` itself or lies below it. */
  predicate Under(root: string, path: string)
  {
    path == root || StartsWith(path, root + "/")
  }

  /** Nothing that exists in `a` is gone in `b`. */
  predicate Grows(a: FsState, b: FsState)
  {
    a.dirs <= b.dirs && forall p :: p in a.files ==> p in b.files
  }

  /** The snapshot after `std::fs::create_dir(path)` has succeeded. */
  function MkDir(fs: FsState, path: string): (r: FsState)
    ensures r.dirs == fs.dirs + {path} && r.files == fs.files
  {
    fs.(dirs := fs.dirs + {path})
  }

  /** The snapshot after a file opened with create and truncate received `text`. */
  function Put(fs: FsState, path: string, text: string): (r: FsState)
    ensures r.dirs == fs.dirs
    ensures path in r.files && r.files[path] == text
  {
    fs.(files := fs.files[path := text])
  }

  /** The snapshot after `std::fs::remove_dir_all(root)`: nothing under `root` is left. */
  function RemoveTree(fs: FsState, root: string): (r: FsState)
    ensures forall p :: Exists(r, p) ==> !Under(root, p)
    ensures forall p :: !Under(root, p) ==> (p in r.dirs <==> p in fs.dirs)
    ensures forall p :: !Under(root, p) && p in fs.files ==> p in r.files && r.files[p] == fs.files[p]
  {
    FsState(set d | d in fs.dirs && !Under(root, d),
            map f | f in fs.files && !Under(root, f) :: fs.files[f])
  }

  /**
   * Writing each `(path, text)` in turn, stopping at the first path that is a
   * directory: the snapshot reached, and whether every write succeeded.
   */
  function PutAll(fs: FsState, writes: seq<(string, string)>): (r: (FsState, bool))
    ensures r.0.dirs == fs.dirs
    ensures forall p :: p in fs.files ==> p in r.0.files
  {
    if writes == [] then (fs, true)
    else
      var previous := PutAll(fs, writes[..|writes| - 1]);
      var (path, text) := writes[|writes| - 1];
      if !previous.1 || path in previous.0.dirs then (previous.0, false)
      else (Put(previous.0, path, text), true)
  }

  /** A failed batch of writes stays failed when more writes follow. */
  lemma {:induction false} PutAllFailureSticks(fs: FsState, writes: seq<(string, string)>, k: nat)
    requires k <= |writes|
    requires !PutAll(fs, writes[..k]).1
    ensures PutAll(fs, writes) == PutAll(fs, writes[..k])
    decreases |writes| - k
  {
    if k < |writes| {
      assert writes[..k + 1][..k] == writes[..k];
      PutAllFailureSticks(fs, writes, k + 1);
      assert writes[..|writes|] == writes;
    } else {
      assert writes[..k] == writes;
    }
  }

  /** The paths a batch of writes names. */
  function Targets(writes: seq<(string, string)>): set<string>
  {
    set w | w in writes :: w.0
  }

  /** No path is written twice. */
  predicate DistinctTargets(writes: seq<(string, string)>)
  {
    forall i, j :: 0 <= i < j < |writes| ==> writes[i].0 != writes[j].0
  }

  /** A file no write names is left as it was. */
  lemma {:induction false} PutAllKeepsOthers(fs: FsState, writes: seq<(string, string)>, p: string)
    requires p !in Targets(writes)
    ensures p in PutAll(fs, writes).0.files <==> p in fs.files
    ensures p in fs.files ==> PutAll(fs, writes).0.files[p] == fs.files[p]
  {
    if writes != [] {
      var front := writes[..|writes| - 1];
      assert writes == front + [writes[|writes| - 1]];
      assert Targets(writes) == Targets(front) + {writes[|writes| - 1].0};
      PutAllKeepsOthers(fs, front, p);
    }
  }

  /**
   * When every write succeeds and no path is written twice, each file
   * written holds its own text.
   */
  lemma {:induction false} PutAllLands(fs: FsState, writes: seq<(string, string)>, i: nat)
    requires PutAll(fs, writes).1 && DistinctTargets(writes)
    requires i < |writes|
    ensures writes[i].0 in PutAll(fs, writes).0.files
    ensures PutAll(fs, writes).0.files[writes[i].0] == writes[i].1
  {
    var front := writes[..|writes| - 1];
    if i < |writes| - 1 {
      assert front[i] == writes[i];
      assert DistinctTargets(front) by {
        forall k, l | 0 <= k < l < |front| ensures front[k].0 != front[l].0 {
          assert front[k] == writes[k] && front[l] == writes[l];
        }
      }
      PutAllLands(fs, front, i);
    }
  }

  /** The file system, changed in place by the operations the tool performs. */
  class Disk {
    var dirs: set<string>
    var files: map<string, string>

    function State(): FsState
      reads this
    {
      FsState(dirs, files)
    }

    constructor (initial: FsState)
      ensures State() == initial
    {
      dirs := initial.dirs;
      files := initial.files;
    }

    /** `Path::is_dir`. */
    predicate IsDir(path: string)
      reads this
    {
      path in dirs
    }

    /** `Path::is_file`. */
    predicate IsFile(path: string)
      reads this
    {
      path in files
    }

    /** `std::fs::create_dir`: fails when a directory or a file is already there. */
    method CreateDir(path: string) returns (ok: bool)
      modifies this
      ensures ok <==> !Exists(old(State()), path)
      ensures State() == if ok then MkDir(old(State()), path) else old(State())
    {
      ok := path !in dirs && path !in files;
      if ok {
        dirs := dirs + {path};
      }
    }

    /** Open with create, write and truncate, then `write_all`: fails only on a directory. */
    method WriteFile(path: string, text: string) returns (ok: bool)
      modifies this
      ensures ok <==> path !in old(dirs)
      ensures State() == if ok then Put(old(State()), path, text) else old(State())
    {
      ok := path !in dirs;
      if ok {
        files := files[path := text];
      }
    }

    /** `std::fs::remove_file`: fails when no file is there. */
    method RemoveFile(path: string) returns (ok: bool)
      modifies this
      ensures ok <==> path in old(files)
      ensures State() == if ok then old(State()).(files := old(files) - {path}) else old(State())
    {
      ok := path in files;
      if ok {
        files := files - {path};
      }
    }

    /** `std::fs::remove_dir_all`: fails when no directory is there. */
    method RemoveDirAll(root: string) returns (ok: bool)
      modifies this
      ensures ok <==> root in old(dirs)
      ensures State() == if ok then RemoveTree(old(State()), root) else old(State())
    {
      ok := root in dirs;
      if ok {
        var after := RemoveTree(State(), root);
        dirs, files := after.dirs, after.files;
      }
    }

    /** Writes each `(path, text)` in order and stops at the first failure. */
    method WriteAll(writes: seq<(string, string)>) returns (ok: bool)
      modifies this
      ensures (State(), ok) == PutAll(old(State()), writes)
    {
      ghost var initial := State();
      var i := 0;
      while i < |writes|
        invariant 0 <= i <= |writes|
        invariant PutAll(initial, writes[..i]) == (State(), true)
      {
        assert writes[..i + 1][..i] == writes[..i];
        ok := WriteFile(writes[i].0, writes[i].1);
        if !ok {
          PutAllFailureSticks(initial, writes, i + 1);
          return;
        }
        i := i + 1;
      }
      assert writes[..i] == writes;
      ok := true;
    }
  }

  /** An open file: its contents and the cursor of the next read or write. */
  class FileHandle {
    var data: string
    var pos: nat

    /** Opened for reading and writing: the cursor starts at 0. */
    constructor (contents: string)
      ensures data == contents && pos == 0
    {
      data := contents;
      pos := 0;
    }

    /** `Read::read_to_string`: what lies from the cursor to the end; the cursor moves to the end. */
    method ReadToString() returns (text: string)
      modifies this
      ensures text == if old(pos) <= |old(data)| then old(data)[old(pos)..] else []
      ensures data == old(data) && pos == if old(pos) <= |old(data)| then |old(data)| else old(pos)
    {
      if pos <= |data| {
        text := data[pos..];
        pos := |data|;
      } else {
        text := [];
      }
    }

    /** `File::set_len`: cut the file or extend it with zero characters; the cursor stays. */
    method SetLen(n: nat)
      modifies this
      ensures |data| == n && pos == old(pos)
      ensures forall i :: 0 <= i < n ==> data[i] == if i < |old(data)| then old(data)[i] else '\0'
    {
      if n <= |data| {
        data := data[..n];
      } else {
        data := data + seq(n - |data|, _ => '\0');
      }
    }

    /** `Seek::seek(SeekFrom::Start(n))`. */
    method SeekStart(n: nat)
      modifies this
      ensures data == old(data) && pos == n
    {
      pos := n;
    }

    /**
     * `Write::write_all` at the cursor: `text` overwrites what is there, a gap
     * before the cursor is filled with zero characters, and the cursor moves past `text`.
     */
    method WriteAll(text: string)
      modifies this
      ensures pos == old(pos) + |text|
      ensures |data| == if old(pos) + |text| <= |old(data)| then |old(data)| else old(pos) + |text|
      ensures data[old(pos)..old(pos) + |text|] == text
      ensures forall i :: 0 <= i < old(pos) ==> data[i] == if i < |old(data)| then old(data)[i] else '\0'
      ensures forall i :: old(pos) + |text| <= i < |data| ==> data[i] == old(data)[i]
    {
      var front := if pos <= |data| then data[..pos] else data + seq(pos - |data|, _ => '\0');
      var back := if pos + |text| <= |data| then data[pos + |text|..] else [];
      data := front + text + back;
      pos := pos + |text|;
    }
  }
}
