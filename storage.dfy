/**
 * The storage engine: a `DB` handle bound to a root directory, whose
 * `store`, `retrive`, `set` and `get` put each key's value in the file named
 * by the key's digest, and `new`, which makes sure the root directory is
 * there. Operations run one at a time, each as one atomic sequence of
 * filesystem steps.
 */
module Storage {

  import opened Wrappers
  import opened Hashing
  import opened Paths
  import opened Fs

  /**
   * Whether `store`'s open step succeeds on `path`: an entry that
   * `metadata` sees is opened for truncation, which works only on a regular
   * file; otherwise the path is created, which fails on a directory and
   * needs the parent directory.
   */
  predicate StoreOpens(d: Disk, path: string, metaOk: bool, openOk: bool)
  {
    openOk && if metaOk && Exists(d, path) then path in d.files
              else path != [] && path !in d.dirs && HasParent(d, path)
  }

  /**
   * The filesystem after `store` on `path`: once the open succeeds the file
   * holds exactly `val` when the write succeeds too, and nothing at all
   * when the write fails. A failed open changes nothing.
   */
  function Stored(d: Disk, path: string, val: string, metaOk: bool, openOk: bool, writeOk: bool): (r: Disk)
    ensures r.dirs == d.dirs
    ensures forall p :: p != path ==> (p in r.files <==> p in d.files)
    ensures forall p :: p != path && p in r.files ==> r.files[p] == d.files[p]
    ensures path in r.files <==> path in d.files || StoreOpens(d, path, metaOk, openOk)
    ensures WellFormed(d) ==> WellFormed(r)
  {
    if StoreOpens(d, path, metaOk, openOk) then d.(files := d.files[path := if writeOk then val else []])
    else d
  }

  /** What `retrive` returns for `path`: the text of a regular file, else nothing. */
  function Fetched(d: Disk, path: string, openOk: bool, readOk: bool): (r: Option<string>)
    ensures r.Some? <==> openOk && readOk && path in d.files
  {
    if openOk && readOk && path in d.files then Some(d.files[path]) else None
  }

  /** `new` aborts the process: the root is missing and cannot be created. */
  predicate NewPanics(d: Disk, path: string, mkdirOk: bool)
  {
    MkdirResult(d, path, mkdirOk) == Some(Other)
  }

  /** A store handle: the root directory and the process's key hasher. */
  datatype DB = DB(storage: string, digest: Hasher) {

    /** `format!("{}/{}", storage, calculate_hash(key))`, shared by `store` and `retrive`. */
    function PathOf(key: string): (p: string)
      ensures DirName(p) == storage
      ensures |p| > |storage| + 1 && p[..|storage| + 1] == storage + "/"
      ensures forall i :: |storage| + 1 <= i < |p| ==> IsDigit(p[i])
    {
      RecordPathInRoot(storage, CalculateHash(digest, key));
      RecordPath(storage, CalculateHash(digest, key))
    }

    /** `Storage::store`: every failure is swallowed. */
    method Store(fs: FileSystem, key: string, val: string, metaOk: bool, openOk: bool, writeOk: bool)
      modifies fs
      ensures fs.State() == Stored(old(fs.State()), PathOf(key), val, metaOk, openOk, writeOk)
    {
      var path := PathOf(key);
      var fileExists := fs.Metadata(path, metaOk);
      var file: Option<Handle>;
      if fileExists {
        file := fs.OpenTruncate(path, openOk);
      } else {
        file := fs.Create(path, openOk);
      }
      if file.Some? {
        fs.WriteAll(file.value, val, writeOk);
        assert [] + val == val;
      }
    }

    /** `Storage::retrive`: absence and every failure read as `None`. */
    method Retrive(fs: FileSystem, key: string, openOk: bool, readOk: bool) returns (r: Option<string>)
      ensures r == Fetched(fs.State(), PathOf(key), openOk, readOk)
    {
      var path := PathOf(key);
      var file := fs.Open(path, openOk);
      if file.None? {
        return None;
      }
      var content := [];
      r := fs.ReadToString(file.value, content, readOk);
      assert r.Some? ==> r.value == fs.files[path];
    }

    /** `DB::set`: delegates to `store`. */
    method Set(fs: FileSystem, key: string, val: string, metaOk: bool, openOk: bool, writeOk: bool)
      modifies fs
      ensures fs.State() == Stored(old(fs.State()), PathOf(key), val, metaOk, openOk, writeOk)
    {
      Store(fs, key, val, metaOk, openOk, writeOk);
    }

    /** `DB::get`: delegates to `retrive`. */
    method Get(fs: FileSystem, key: string, openOk: bool, readOk: bool) returns (r: Option<string>)
      ensures r == Fetched(fs.State(), PathOf(key), openOk, readOk)
    {
      r := Retrive(fs, key, openOk, readOk);
    }
  }

  /** The result of `DB::new`: a handle, or the panic that aborts the process. */
  datatype Startup = Started(db: DB) | Panicked

  /**
   * `DB::new`: creates the root directory; "already exists" is fine, any
   * other error panics.
   */
  method New(fs: FileSystem, path: string, digest: Hasher, mkdirOk: bool) returns (r: Startup)
    modifies fs
    ensures fs.State() == AfterMkdir(old(fs.State()), path, mkdirOk)
    ensures r.Panicked? <==> NewPanics(old(fs.State()), path, mkdirOk)
    ensures r.Started? ==> r.db.storage == path && r.db.digest == digest
  {
    var err := fs.CreateDir(path, mkdirOk);
    if err.Some? && err.value != AlreadyExists {
      return Panicked;
    }
    r := Started(DB(path, digest));
  }

  // ---------------------------------------------------------------------
  // Properties of the engine, stated on the specification functions.
  // ---------------------------------------------------------------------

  /** `store` and `retrive` of two keys touch the same file exactly when the digests agree. */
  lemma SamePathIffSameDigest(db: DB, k1: string, k2: string)
    ensures db.PathOf(k1) == db.PathOf(k2) <==> CalculateHash(db.digest, k1) == CalculateHash(db.digest, k2)
  {
    RecordPathInjective(db.storage, CalculateHash(db.digest, k1), CalculateHash(db.digest, k2));
  }

  /** Whatever the hasher, some two distinct keys share one record file. */
  lemma SomeKeysShareARecord(db: DB)
    ensures exists k1, k2 :: k1 != k2 && db.PathOf(k1) == db.PathOf(k2)
  {
    KeysCollide(db.digest);
    var k1, k2 :| k1 != k2 && CalculateHash(db.digest, k1) == CalculateHash(db.digest, k2);
    assert db.PathOf(k1) == db.PathOf(k2);
  }

  /** Round trip: a `set` whose open and write succeed is read back by `get`. */
  lemma SetGetRoundTrip(db: DB, d: Disk, key: string, val: string, metaOk: bool)
    requires StoreOpens(d, db.PathOf(key), metaOk, true)
    ensures Fetched(Stored(d, db.PathOf(key), val, metaOk, true, true), db.PathOf(key), true, true) == Some(val)
  {
  }

  /**
   * Overwrite: a successful store leaves exactly the new value, on the
   * truncate branch and on the create branch alike; nothing of the old
   * value remains.
   */
  lemma OverwriteLeavesOnlyNewValue(db: DB, d: Disk, key: string, v1: string, v2: string,
                                    metaOk: bool, openOk: bool, writeOk: bool)
    requires StoreOpens(d, db.PathOf(key), true, true)
    ensures var d1 := Stored(d, db.PathOf(key), v1, metaOk, openOk, writeOk);
            Fetched(Stored(d1, db.PathOf(key), v2, true, true, true), db.PathOf(key), true, true) == Some(v2)
  {
  }

  /** A write that fails after a successful open leaves the record empty, not absent. */
  lemma FailedWriteEmptiesRecord(db: DB, d: Disk, key: string, val: string, metaOk: bool)
    requires StoreOpens(d, db.PathOf(key), metaOk, true)
    ensures Fetched(Stored(d, db.PathOf(key), val, metaOk, true, false), db.PathOf(key), true, true) == Some([])
  {
  }

  /** A failed open or create is silent: `store` returns and the filesystem is as it was. */
  lemma FailedOpenIsSilent(db: DB, d: Disk, key: string, val: string, metaOk: bool, openOk: bool, writeOk: bool)
    requires !StoreOpens(d, db.PathOf(key), metaOk, openOk)
    ensures Stored(d, db.PathOf(key), val, metaOk, openOk, writeOk) == d
  {
  }

  /**
   * On a well-formed tree `store` fails to open exactly when the I/O fails,
   * a directory is in the way, or the root is missing; whether `metadata`
   * itself failed makes no difference.
   */
  lemma StoreOpensIff(db: DB, d: Disk, key: string, metaOk: bool, openOk: bool)
    requires WellFormed(d)
    ensures StoreOpens(d, db.PathOf(key), metaOk, openOk) <==>
              openOk && db.PathOf(key) !in d.dirs && (db.PathOf(key) in d.files || db.storage == [] || db.storage in d.dirs)
  {
  }

  /**
   * A failing `metadata` does no harm on a well-formed tree: `File::create`
   * truncates an existing file just as the truncating open does.
   */
  lemma MetadataFailureHarmless(d: Disk, path: string, val: string, openOk: bool, writeOk: bool)
    requires WellFormed(d)
    ensures Stored(d, path, val, false, openOk, writeOk) == Stored(d, path, val, true, openOk, writeOk)
  {
  }

  /** Collision: with equal digests, storing `k2` replaces what `k1` reads back. */
  lemma CollisionOverwrites(db: DB, d: Disk, k1: string, k2: string, v1: string, v2: string)
    requires CalculateHash(db.digest, k1) == CalculateHash(db.digest, k2)
    requires StoreOpens(d, db.PathOf(k1), true, true)
    ensures var d1 := Stored(d, db.PathOf(k1), v1, true, true, true);
            Fetched(Stored(d1, db.PathOf(k2), v2, true, true, true), db.PathOf(k1), true, true) == Some(v2)
  {
  }

  /** Keys with different digests do not disturb each other. */
  lemma DistinctDigestsIndependent(db: DB, d: Disk, k1: string, k2: string, val: string,
                                   metaOk: bool, openOk: bool, writeOk: bool, readOpenOk: bool, readOk: bool)
    requires CalculateHash(db.digest, k1) != CalculateHash(db.digest, k2)
    ensures Fetched(Stored(d, db.PathOf(k2), val, metaOk, openOk, writeOk), db.PathOf(k1), readOpenOk, readOk)
         == Fetched(d, db.PathOf(k1), readOpenOk, readOk)
  {
    SamePathIffSameDigest(db, k1, k2);
  }

  /** Absence: with no file at the key's path, `retrive` returns `None`. */
  lemma MissingRecordIsNone(db: DB, d: Disk, key: string, openOk: bool, readOk: bool)
    requires db.PathOf(key) !in d.files
    ensures Fetched(d, db.PathOf(key), openOk, readOk) == None
  {
  }

  /** `new` panics only when the root is absent and `create_dir` fails. */
  lemma NewPanicsIff(d: Disk, path: string, mkdirOk: bool)
    ensures NewPanics(d, path, mkdirOk) <==> !Exists(d, path) && !(mkdirOk && path != [] && HasParent(d, path))
  {
  }

  /**
   * Idempotent open: on an existing root `new` never panics and changes
   * nothing; a second `new` after a first that did not panic does neither.
   */
  lemma NewIdempotent(d: Disk, path: string, ok1: bool, ok2: bool)
    requires !NewPanics(d, path, ok1)
    ensures AfterMkdir(d, path, ok1).files == d.files
    ensures Exists(AfterMkdir(d, path, ok1), path)
    ensures !NewPanics(AfterMkdir(d, path, ok1), path, ok2)
    ensures AfterMkdir(AfterMkdir(d, path, ok1), path, ok2) == AfterMkdir(d, path, ok1)
  {
  }

  /**
   * A root that `new` has just created holds no record yet: every key reads
   * back as `None`.
   */
  lemma FreshRootHasNoRecords(d: Disk, path: string, digest: Hasher, mkdirOk: bool, key: string,
                              openOk: bool, readOk: bool)
    requires WellFormed(d)
    requires !Exists(d, path) && !NewPanics(d, path, mkdirOk)
    ensures Fetched(AfterMkdir(d, path, mkdirOk), DB(path, digest).PathOf(key), openOk, readOk) == None
  {
  }

  /**
   * After `new` returns, a key whose path holds no directory round-trips:
   * the crate's `test_get` in general form. A root that is a regular file
   * passes `new` ("already exists") but takes no records.
   */
  lemma NewSetGet(d: Disk, path: string, digest: Hasher, mkdirOk: bool, key: string, val: string, metaOk: bool)
    requires WellFormed(d)
    requires !NewPanics(d, path, mkdirOk) && path !in d.files
    requires DB(path, digest).PathOf(key) !in d.dirs
    ensures var d1 := AfterMkdir(d, path, mkdirOk);
            var p := DB(path, digest).PathOf(key);
            Fetched(Stored(d1, p, val, metaOk, true, true), p, true, true) == Some(val)
  {
  }

  /** The crate's `test_get`: open "test", set "Samet" to "Samet", get it back. */
  method TestGet(fs: FileSystem, digest: Hasher) returns (result: Option<string>)
    requires WellFormed(fs.State())
    requires "test" !in fs.files
    requires DB("test", digest).PathOf("Samet") !in fs.dirs
    modifies fs
    ensures result == Some("Samet")
  {
    DirNameOfName("test");
    var started := New(fs, "test", digest, true);
    assert started.Started?;
    var db := started.db;
    db.Set(fs, "Samet", "Samet", true, true, true);
    result := db.Get(fs, "Samet", true, true);
  }
}
