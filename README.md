# simple_key_value storage engine, in Dafny

This project models the storage engine of `simple_key_value`, a key-value
store that keeps each key's value in a file of its own. A `DB` handle is
bound to a root directory. `set`/`store` write the value to
`root + "/" + decimal(calculate_hash(key))`: an existing entry is opened
with truncation, a missing one is created, then the value is written, and
every failure is swallowed. `get`/`retrive` open that file and read it
whole, and turn every failure into `None`. `new` creates the root
directory. "Already exists" is accepted there; any other error panics.

The model has four parts:

- `Hashing` (`hashing.dfy`) holds the 64-bit digest and Rust's decimal
  rendering of a `u64`. The digest is a function value (`Hasher`), because
  `DefaultHasher` is standard-library code that is not modelled. Every lemma
  holds for every hasher. Determinism holds by construction: the digest
  depends only on the key and the hasher, and a `DB` handle carries one
  hasher for its whole life. `Decimal` is proved against its inverse
  `ParseDecimal`. The pigeonhole principle shows that any hasher maps two
  distinct keys to one digest.
- `Paths` (`paths.dfy`) builds record paths. `DirName`, everything before
  the last `/`, stands in for `Path::parent` on the paths the engine
  builds. Two record paths under one root are equal exactly when their
  digests are, and each record lies directly in the root.
- `Fs` (`fs.dfy`) is the filesystem as a table. Class `FileSystem` holds
  `files: map<string, string>` and `dirs: set<string>`. It has one method
  per `tokio::fs` call the engine makes: `metadata`, the truncating open,
  `File::create`, `write_all`, `File::open`, `read_to_string` and
  `create_dir`. A boolean argument on each says whether the operating
  system lets that call succeed. The value type `Disk` and the invariant
  `WellFormed` are the spec-level view.
- `Storage` (`storage.dfy`) holds the `DB` handle, which is a datatype:
  its fields, the root path and the hasher, never change. `Store`,
  `Retrive`, `Set`, `Get` and `New` are methods that change the
  `FileSystem` step by step. Each is proved against a closed-form
  specification function (`Stored`, `Fetched`, `AfterMkdir` with
  `NewPanics`). The lemmas then state the engine's promises on those
  functions: round trip, overwrite, failed writes, silent failures,
  collisions, independence of distinct digests, absence, and idempotent
  `new`.

Edge cases the model follows from the code:

- A failed write after a successful open leaves the record empty, so `get`
  returns `Some("")`, not `None`.
- A directory at a record path makes the truncating open fail, so `store`
  does nothing. `File::open` succeeds on the directory, but reading it
  fails, so `get` returns `None`.
- A regular file at the root path passes `new` ("already exists"). After
  that every `store` on a new key fails, because `File::create` needs a
  directory as parent.

## Model

| member | source | states |
|---|---|---|
| Hashing.CalculateHash | src/main.rs:16-20 | the digest is a `u64` that depends only on the key and the hasher |
| Hashing.Decimal | src/main.rs:32 | the `u64` rendering is non-empty, all decimal digits, has no leading zero (unless it is "0") and contains no `/` |
| Hashing.DecimalRoundTrip | src/main.rs:32 | parsing the rendering of `n` gives back `n` |
| Hashing.DecimalInjective | src/main.rs:29-33 | two digests render to the same file name exactly when they are equal |
| Hashing.KeysCollide | src/main.rs:16-20 | for every hasher, some two distinct keys have the same digest |
| Paths.RecordPath | src/main.rs:29-33 | the record path is the root, one `/`, then a name of decimal digits that reads back as the digest |
| Paths.RecordPathInRoot | src/main.rs:29-33 | the directory of every record path is the root |
| Paths.RecordPathInjective | src/main.rs:29-33 | under one root, two record paths are equal exactly when their digests are |
| Fs.MkdirResult | src/main.rs:83-84 | `create_dir` reports AlreadyExists exactly when an entry is already at the path |
| Fs.AfterMkdir | src/main.rs:83 | `create_dir` changes no file, adds at most the one directory, and keeps the tree well formed |
| Fs.FileSystem.Metadata | src/main.rs:38 | `metadata(path).is_ok()` is true exactly when the call succeeds and a file or a directory is at `path` |
| Fs.FileSystem.OpenTruncate | src/main.rs:41-46 | opening with truncation succeeds exactly on an existing regular file, and then empties it; nothing else changes |
| Fs.FileSystem.Create | src/main.rs:48 | `File::create` succeeds exactly when the path is not empty, not a directory, and its parent directory exists; it then leaves the file empty; nothing else changes |
| Fs.FileSystem.WriteAll | src/main.rs:53 | a successful write appends the data to the open file; a failed one changes nothing |
| Fs.FileSystem.Open | src/main.rs:65-68 | opening for reading succeeds exactly when something, file or directory, is at the path |
| Fs.FileSystem.ReadToString | src/main.rs:70-72 | reading succeeds only on a regular file, and appends its whole content to the buffer |
| Fs.FileSystem.CreateDir | src/main.rs:83 | `create_dir` reports AlreadyExists on any existing entry; otherwise it succeeds (adding the directory) or fails, and changes nothing else |
| Storage.Stored | src/main.rs:38-54 | after `store`, directories and every other path are unchanged; the key's file exists iff it existed or the open succeeded; well-formedness is kept |
| Storage.Fetched | src/main.rs:65-75 | `retrive` yields a value exactly when both steps succeed and a regular file is at the path |
| Storage.DB.PathOf | src/main.rs:29-33 | both `store` and `retrive` use the path root, `/`, then decimal digits, which lies directly in the root |
| Storage.DB.Store | src/main.rs:28-55 | checking existence (which may itself fail), truncating or creating, then writing leaves the filesystem exactly as `Stored` says |
| Storage.DB.Retrive | src/main.rs:56-76 | opening and reading into an empty buffer returns exactly what `Fetched` says |
| Storage.DB.Set | src/main.rs:94-96 | `set` has the effect of `store` |
| Storage.DB.Get | src/main.rs:98-100 | `get` returns what `retrive` returns |
| Storage.New | src/main.rs:80-92 | `new` creates the root (if creation succeeds), changes no file, panics exactly when `create_dir` fails with an error other than AlreadyExists, and otherwise returns a handle on the given path |
| Storage.SamePathIffSameDigest | src/main.rs:29-33 | two keys reach the same record file exactly when their digests are equal |
| Storage.SomeKeysShareARecord | src/main.rs:29-33 | for every root and hasher, some two distinct keys share one record file |
| Storage.SetGetRoundTrip | src/main.rs:181-184 | after a `set` whose open and write succeed, `get` returns exactly the value |
| Storage.OverwriteLeavesOnlyNewValue | src/main.rs:38-54 | whatever the first `store` did, a later successful `store` leaves exactly the new value |
| Storage.FailedWriteEmptiesRecord | src/main.rs:51-54 | an open that succeeds followed by a write that fails leaves an empty record, which `get` reads as `Some("")` |
| Storage.FailedOpenIsSilent | src/main.rs:40-51 | when opening or creating fails, `store` leaves the filesystem unchanged |
| Storage.StoreOpensIff | src/main.rs:38-49 | on a well-formed tree, the open step succeeds exactly when I/O allows, no directory is at the path, and the file exists or the root is a directory, whether or not `metadata` failed |
| Storage.MetadataFailureHarmless | src/main.rs:38-49 | on a well-formed tree, a failing `metadata` leads `store` to `File::create`, with the same result as the truncating open |
| Storage.CollisionOverwrites | src/main.rs:29-33 | with equal digests, storing `k2` after `k1` makes `get(k1)` return `k2`'s value |
| Storage.DistinctDigestsIndependent | src/main.rs:35-54 | storing a key never changes what a key with a different digest reads back |
| Storage.MissingRecordIsNone | src/main.rs:65-68 | with no regular file at the key's path, `retrive` returns `None` |
| Storage.NewPanicsIff | src/main.rs:83-87 | `new` panics exactly when the root is absent and `create_dir` cannot make it |
| Storage.NewIdempotent | src/main.rs:80-91 | after a `new` that did not panic, files are untouched and the root exists; a second `new` neither panics nor changes anything |
| Storage.FreshRootHasNoRecords | src/main.rs:80-91 | right after `new` creates a missing root, every key reads back as `None` |
| Storage.NewSetGet | src/main.rs:179-185 | after `new` on a root that is not a regular file, `set` then `get` returns the value for any key whose path holds no directory |
| Storage.TestGet | src/main.rs:179-185 | the crate's `test_get`: opening "test", setting "Samet" and getting it back returns `Some("Samet")` when all I/O succeeds |

## Left out

- The tokio runtime and all concurrency are left out, including the race between `metadata` and the open or create, and the absence of per-key locking. Each operation is one atomic sequence of steps.
- Storage.SetGetRoundTrip and Storage.TestGet hold once the write has landed. tokio's `write_all` returns when the bytes are handed to a background task, and `store` drops the file without `flush()`; so a following `retrive` may still see the empty, truncated file, and a failure of that background write is never reported. The model treats each write as complete when `write_all` returns.
- `DefaultHasher` (a SipHash variant in the standard library) is not modelled. The digest is an arbitrary function `string -> U64`, and nothing depends on its values.
- The success of each I/O call is an argument, not a specific `ErrorKind`. This covers permissions, descriptor limits, disk space and invalid UTF-8 in `read_to_string`. Only `AlreadyExists` is told apart, as the source does.
- Fs.FileSystem.CreateDir: a missing parent and every other failure are one `Other` error. The empty path names nothing and is never created.
- Fs.FileSystem.WriteAll: writes at the end of the file. The engine only writes right after truncating, so the end is also the cursor position; partial writes are not modelled.
- Paths.DirName: no path normalisation. A trailing or doubled `/` or a `.` component is treated as part of a name, so `DirName("test/")` is `"test"`, while Rust's `Path::parent` gives `""`. A root written as `"test/"` therefore makes `new` panic in the model on an empty tree, where `create_dir("test/")` would create `test`. The empty directory name stands for both the working directory and the filesystem root.
- Keys and values are `string` (sequences of characters). `as_bytes` and UTF-8 encoding are not modelled, nor is the `to_str().unwrap()` conversion of the root path.
- A panic in `new` is the result `Panicked`. The process abort itself is not modelled.
- The benchmark harness is not modelled: `write_5m_keys_parallel`, `avarage_time_taken`, `main`, timing and printing. It is a caller of `set`/`get`, not part of the engine.
