/** The local filesystem as the worker sees it: paths built from the destination
    and an object key, file contents as byte sequences written through
    io.WriterAt, and an abstract filesystem object whose fallible operations
    (MkdirAll, Create, Seek, Truncate) succeed or fail as an oracle says. */
module Files {

  type Byte = bv8

  /** One positioned write, as a downloader issues through io.WriterAt. */
  datatype Write = Write(offset: nat, bytes: seq<Byte>)

  function Max(a: nat, b: nat): nat { if a < b then b else a }

  function Zeros(n: nat): (z: seq<Byte>)
    ensures |z| == n && forall i :: 0 <= i < n ==> z[i] == 0
  {
    seq(n, _ => 0)
  }

  /** The contents after writing `p` at offset `off` (os.File.WriteAt): the file
      grows to cover the write, a gap past the old end reads as zero bytes, and
      every byte outside the written range keeps its old value. */
  function WriteAt(data: seq<Byte>, off: nat, p: seq<Byte>): (r: seq<Byte>)
    ensures |r| == Max(|data|, off + |p|)
    ensures r[off..off + |p|] == p
    ensures forall i :: 0 <= i < off && i < |data| ==> r[i] == data[i]
    ensures forall i :: |data| <= i < off ==> r[i] == 0
    ensures forall i :: off + |p| <= i < |data| ==> r[i] == data[i]
  {
    var padded := if off <= |data| then data else data + Zeros(off - |data|);
    padded[..off] + p + (if off + |p| < |padded| then padded[off + |p|..] else [])
  }

  /** The contents after the writes `ws`, applied in order. */
  function ApplyWrites(data: seq<Byte>, ws: seq<Write>): seq<Byte>
  {
    if ws == [] then data
    else
      var last := ws[|ws| - 1];
      WriteAt(ApplyWrites(data, ws[..|ws| - 1]), last.offset, last.bytes)
  }

  /** A single write at offset 0 into an empty file leaves exactly its bytes:
      the shape of every downloader response in the worker's tests. */
  lemma WholeWriteFromEmpty(p: seq<Byte>)
    ensures ApplyWrites([], [Write(0, p)]) == p
  {
    assert [Write(0, p)][..0] == [];
    var r := WriteAt([], 0, p);
    assert r[0..|p|] == p;
    assert r == r[0..|p|];
  }

  /** Writes never shrink a file: the result is at least as long as the input
      and at least as long as the furthest write reaches. */
  lemma {:induction false} ApplyWritesCovers(data: seq<Byte>, ws: seq<Write>, k: nat)
    requires k < |ws|
    ensures |data| <= |ApplyWrites(data, ws)|
    ensures ws[k].offset + |ws[k].bytes| <= |ApplyWrites(data, ws)|
  {
    var init := ws[..|ws| - 1];
    if k < |ws| - 1 {
      assert ws[k] == init[k];
      ApplyWritesCovers(data, init, k);
    } else if |init| > 0 {
      ApplyWritesCovers(data, init, 0);
    }
  }

  /** Index of the last '/' in `p`, or -1 when there is none. */
  function LastSlash(p: string): (i: int)
    ensures -1 <= i < |p|
    ensures i >= 0 ==> p[i] == '/'
    ensures forall j :: i < j < |p| ==> p[j] != '/'
  {
    if p == [] then -1
    else if p[|p| - 1] == '/' then |p| - 1
    else LastSlash(p[..|p| - 1])
  }

  /** The local path of an object: the destination joined with the key
      (filepath.Join without its cleaning rules). */
  function Join(destination: string, key: string): (p: string)
    ensures |p| == |destination| + 1 + |key|
    ensures p[..|destination|] == destination && p[|destination|] == '/' && p[|destination| + 1..] == key
  {
    destination + "/" + key
  }

  /** The parent directory of a path (filepath.Dir without its cleaning rules):
      everything before the last '/', "/" for a path directly under the root,
      "." for a path without any '/'. */
  function Dir(p: string): (d: string)
    ensures (forall j :: 0 <= j < |p| ==> p[j] != '/') ==> d == "."
    ensures LastSlash(p) > 0 ==>
      && |d| < |p| && d == p[..|d|] && p[|d|] == '/'
      && (forall j :: |d| < j < |p| ==> p[j] != '/')
  {
    var i := LastSlash(p);
    if i < 0 then "." else if i == 0 then "/" else p[..i]
  }

  /** The parent directory of a joined path is a proper prefix of it that
      starts with the destination: with `Join` free of cleaning rules, the
      file lands under the destination, in the directory that MkdirAll is
      asked to create. */
  lemma DirOfJoin(destination: string, key: string)
    requires destination != ""
    ensures var path := Join(destination, key);
      && |Dir(path)| < |path|
      && Dir(path) == path[..|Dir(path)|]
      && |destination| <= |Dir(path)|
      && destination == Dir(path)[..|destination|]
  {
    var path := Join(destination, key);
    assert path[|destination|] == '/';
    assert LastSlash(path) >= |destination|;
  }

  /** Abstract filesystem: directories, file contents by path, and the paths
      that have an open handle. Every fallible call consumes the next verdict
      of the `verdict` oracle, which stands in for whatever the real system
      does (permissions, a full disk, a directory in the way). */
  class FileSystem {
    var dirs: set<string>
    var files: map<string, seq<Byte>>
    var open: set<string>
    const verdict: nat -> bool
    var fallibleCalls: nat

    constructor (dirs0: set<string>, files0: map<string, seq<Byte>>, verdict: nat -> bool)
      ensures dirs == dirs0 && files == files0 && open == {}
      ensures this.verdict == verdict && fallibleCalls == 0
    {
      dirs, files, open := dirs0, files0, {};
      this.verdict := verdict;
      fallibleCalls := 0;
    }

    /** os.MkdirAll: on success the directory exists. */
    method MkdirAll(dir: string) returns (ok: bool)
      modifies this
      ensures ok == verdict(old(fallibleCalls)) && fallibleCalls == old(fallibleCalls) + 1
      ensures dirs == if ok then old(dirs) + {dir} else old(dirs)
      ensures files == old(files) && open == old(open)
    {
      ok := verdict(fallibleCalls);
      fallibleCalls := fallibleCalls + 1;
      if ok {
        dirs := dirs + {dir};
      }
    }

    /** os.Create: creates or truncates the file and opens it. It fails when
        the oracle says so, when the parent directory is missing, or when a
        directory already sits at the path. */
    method Create(path: string) returns (ok: bool)
      modifies this
      ensures ok == (verdict(old(fallibleCalls)) && Dir(path) in old(dirs) && path !in old(dirs))
      ensures fallibleCalls == old(fallibleCalls) + 1
      ensures files == if ok then old(files)[path := []] else old(files)
      ensures open == if ok then old(open) + {path} else old(open)
      ensures dirs == old(dirs)
    {
      ok := verdict(fallibleCalls) && Dir(path) in dirs && path !in dirs;
      fallibleCalls := fallibleCalls + 1;
      if ok {
        files := files[path := []];
        open := open + {path};
      }
    }

    /** File.Seek(0, io.SeekStart) on an open file. The offset it resets is
        never read, because the downloader writes only through WriteAt; what
        matters is whether it fails. */
    method Seek(path: string) returns (ok: bool)
      requires path in open
      modifies this
      ensures ok == verdict(old(fallibleCalls)) && fallibleCalls == old(fallibleCalls) + 1
      ensures dirs == old(dirs) && files == old(files) && open == old(open)
    {
      ok := verdict(fallibleCalls);
      fallibleCalls := fallibleCalls + 1;
    }

    /** File.Truncate(0) on an open file: on success the file is empty. */
    method Truncate(path: string) returns (ok: bool)
      requires path in open && path in files
      modifies this
      ensures ok == verdict(old(fallibleCalls)) && fallibleCalls == old(fallibleCalls) + 1
      ensures files == if ok then old(files)[path := []] else old(files)
      ensures dirs == old(dirs) && open == old(open)
    {
      ok := verdict(fallibleCalls);
      fallibleCalls := fallibleCalls + 1;
      if ok {
        files := files[path := []];
      }
    }

    /** File.WriteAt on an open file. */
    method WriteTo(path: string, w: Write)
      requires path in open && path in files
      modifies this
      ensures files == old(files)[path := WriteAt(old(files)[path], w.offset, w.bytes)]
      ensures dirs == old(dirs) && open == old(open) && fallibleCalls == old(fallibleCalls)
    {
      files := files[path := WriteAt(files[path], w.offset, w.bytes)];
    }

    /** File.Close: the handle is released. */
    method Close(path: string)
      modifies this
      ensures open == old(open) - {path}
      ensures dirs == old(dirs) && files == old(files) && fallibleCalls == old(fallibleCalls)
    {
      open := open - {path};
    }

    /** os.Remove: the file no longer exists. downloadFile only removes a
        file it has closed first. */
    method Remove(path: string)
      requires path !in open
      modifies this
      ensures files == old(files) - {path}
      ensures dirs == old(dirs) && open == old(open) && fallibleCalls == old(fallibleCalls)
    {
      files := files - {path};
    }
  }
}
