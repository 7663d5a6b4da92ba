/**
 * The filesystem the store runs on, abstracted as a table: regular files by
 * path with their text, and the set of directory paths. Each `tokio::fs`
 * call the store makes is one method; whether the operating system lets a
 * call succeed (permissions, descriptors, disk space, decoding) is not
 * visible, so a boolean argument `ioOk` decides it.
 */
module Fs {

  import opened Wrappers
  import opened Paths

  /** The value of the filesystem at one instant. */
  datatype Disk = Disk(files: map<string, string>, dirs: set<string>)

  /** An open file, remembered by its path. */
  datatype Handle = Handle(path: string)

  /** The one error kind the store tells apart; every other kind is `Other`. */
  datatype IoError = AlreadyExists | Other

  /** `metadata(path)` succeeds: some entry, file or directory, is there. */
  predicate Exists(d: Disk, path: string)
  {
    path in d.files || path in d.dirs
  }

  /**
   * The directory `path` would live in is there. The empty directory name
   * stands for the working directory (and the filesystem root), which is
   * always there.
   */
  predicate HasParent(d: Disk, path: string)
  {
    DirName(path) == [] || DirName(path) in d.dirs
  }

  /**
   * What every real tree satisfies: nothing is both a file and a directory,
   * the empty path names nothing, and every entry sits in a directory.
   */
  predicate WellFormed(d: Disk)
  {
    && d.files.Keys !! d.dirs
    && !Exists(d, [])
    && (forall p :: p in d.files ==> HasParent(d, p))
    && (forall p :: p in d.dirs ==> HasParent(d, p))
  }

  /** What `create_dir(path)` reports. */
  function MkdirResult(d: Disk, path: string, ioOk: bool): (e: Option<IoError>)
    ensures e == Some(AlreadyExists) <==> Exists(d, path)
  {
    if Exists(d, path) then Some(AlreadyExists)
    else if ioOk && path != [] && HasParent(d, path) then None
    else Some(Other)
  }

  /** The filesystem after `create_dir(path)`. */
  function AfterMkdir(d: Disk, path: string, ioOk: bool): (r: Disk)
    ensures r.files == d.files
    ensures r.dirs == d.dirs || r.dirs == d.dirs + {path}
    ensures WellFormed(d) ==> WellFormed(r)
  {
    if MkdirResult(d, path, ioOk) == None then d.(dirs := d.dirs + {path}) else d
  }

  class FileSystem {
    var files: map<string, string>
    var dirs: set<string>

    function State(): (d: Disk)
      reads this
    {
      Disk(files, dirs)
    }

    constructor (d: Disk)
      ensures State() == d
    {
      files, dirs := d.files, d.dirs;
    }

    /**
     * `metadata(path).is_ok()`: false on a missing path, and also whenever
     * the call itself fails (permissions, I/O), which `ioOk` decides.
     */
    method Metadata(path: string, ioOk: bool) returns (found: bool)
      ensures found <==> ioOk && (path in files || path in dirs)
    {
      found := ioOk && (path in files || path in dirs);
    }

    /**
     * `OpenOptions::new().write(true).truncate(true).open(path)`: opens an
     * existing regular file for writing and cuts it to length zero. A
     * missing path or a directory makes it fail.
     */
    method OpenTruncate(path: string, ioOk: bool) returns (h: Option<Handle>)
      modifies this
      ensures h.Some? <==> ioOk && path in old(files)
      ensures h.Some? ==> h.value.path == path
      ensures dirs == old(dirs)
      ensures files == if h.Some? then old(files)[path := []] else old(files)
    {
      if ioOk && path in files {
        files := files[path := []];
        h := Some(Handle(path));
      } else {
        h := None;
      }
    }

    /**
     * `File::create(path)`: opens for writing, creating the file or
     * truncating an existing one. It fails on a directory, on the empty
     * path, and when the parent directory is missing.
     */
    method Create(path: string, ioOk: bool) returns (h: Option<Handle>)
      modifies this
      ensures h.Some? <==> ioOk && path != [] && path !in old(dirs) && HasParent(old(State()), path)
      ensures h.Some? ==> h.value.path == path
      ensures dirs == old(dirs)
      ensures files == if h.Some? then old(files)[path := []] else old(files)
    {
      if ioOk && path != [] && path !in dirs && (DirName(path) == [] || DirName(path) in dirs) {
        files := files[path := []];
        h := Some(Handle(path));
      } else {
        h := None;
      }
    }

    /**
     * `write_all(data)` on a handle opened just before: the data lands at the
     * end of what the file holds. A failing write changes nothing.
     */
    method WriteAll(h: Handle, data: string, ioOk: bool)
      modifies this
      ensures dirs == old(dirs)
      ensures files == if ioOk && h.path in old(files)
                       then old(files)[h.path := old(files)[h.path] + data]
                       else old(files)
    {
      if ioOk && h.path in files {
        files := files[h.path := files[h.path] + data];
      }
    }

    /**
     * `File::open(path)` for reading. On Unix a directory opens as well;
     * reading it is what fails.
     */
    method Open(path: string, ioOk: bool) returns (h: Option<Handle>)
      ensures h.Some? <==> ioOk && (path in files || path in dirs)
      ensures h.Some? ==> h.value.path == path
    {
      if ioOk && (path in files || path in dirs) {
        h := Some(Handle(path));
      } else {
        h := None;
      }
    }

    /**
     * `read_to_string(&mut buf)`: appends the whole file to `buf`. Reading a
     * directory fails; `ioOk` covers every other failure, invalid UTF-8
     * included.
     */
    method ReadToString(h: Handle, buf: string, ioOk: bool) returns (r: Option<string>)
      ensures r.Some? <==> ioOk && h.path in files
      ensures r.Some? ==> r.value == buf + files[h.path]
    {
      if ioOk && h.path in files {
        r := Some(buf + files[h.path]);
      } else {
        r := None;
      }
    }

    /** `create_dir(path)`. */
    method CreateDir(path: string, ioOk: bool) returns (err: Option<IoError>)
      modifies this
      ensures err == MkdirResult(old(State()), path, ioOk)
      ensures State() == AfterMkdir(old(State()), path, ioOk)
    {
      if path in files || path in dirs {
        err := Some(AlreadyExists);
      } else if ioOk && path != [] && (DirName(path) == [] || DirName(path) in dirs) {
        dirs := dirs + {path};
        err := None;
      } else {
        err := Some(Other);
      }
    }
  }
}
