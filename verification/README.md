# uploadstatic — a Dafny model of the differential static-file upload

`uploadstatic` is a Django management command that copies the files under
`STATIC_ROOT` to a remote storage backend such as S3. For each enumerated
file it takes one of three paths:

- In a dry run it only pretends to upload the file.
- Unless `--force` is given, a file that already exists remotely with the
  same size as the local copy is skipped.
- Any other file is opened locally and saved to the remote storage under the
  same path.

Every file handled without error ends up in exactly one of two lists,
`uploaded` or `skipped`; the run stops at the first file whose local copy
cannot be read. The command also builds its ignore-pattern list and prints a summary whose noun
is pluralised.

The project has three modules:

- `Storage` (`storage.dfy`) models a storage location as a map from relative
  path to bytes. `exists`, `size` and an overwriting `save` work on that map.
- `Sync` (`sync.dfy`) gives the rule as pure functions:
  - `Decide` is the per-file decision.
  - `Step` is one `upload_file` call acting on a `SyncState`. That state holds
    the remote map, a log of `save` calls and the two lists.
  - `Run` is the `upload` loop over the enumerated paths.

  The module also proves the properties of a run: partition and order, dry
  run, forced run, and that a second run skips everything.
- `UploadStatic` (`uploadstatic.dfy`) holds the `Command` class. Its fields
  are the ones the Python object updates: `remote`, `uploadedFiles`,
  `skippedFiles`, `dryRun`, `force` and `ignorePatterns`. `UploadFile` and
  `Upload` are proved to carry out `Sync.Step` and `Sync.Run`. `SetOptions`
  sets `ignorePatterns` to `IgnorePatterns` of the user, settings and default
  patterns. The module also gives the summary noun.

Modelling choices:

- The file enumeration (`get_files` in `uploadstatic/utils`) is not part of
  this model. `Upload` takes the enumerated paths as a sequence.
- The local storage is a read-only `const` map.
- A local file that cannot be found makes `local_storage.size` or
  `local_storage.open` raise, and nothing catches the error. The model
  returns `Err(LocalFileNotFound(path))` instead:
  - the failing call changes nothing;
  - the run stops there;
  - the lists keep the paths handled before the failure.
- Remote `save` is assumed to store the file under the path it was given,
  with its bytes unchanged, overwriting any file already there.
- The calls to `save` are recorded in a ghost log. This makes "no `save` in a
  dry run" and "one `save` per transfer" statable.

## Model

| member | source | states |
|---|---|---|
| `Storage.Save` | uploadstatic/management/commands/uploadstatic.py:79 | after `save` the path holds exactly the given contents (so its size is their length), and every other remote entry is unchanged |
| `Sync.Decide` | uploadstatic/management/commands/uploadstatic.py:63-82 | the decision rule as four if-and-only-ifs. It pretends exactly in a dry run. It fails exactly when not in a dry run and the local file is missing. It skips exactly when not dry, not forced, the remote file exists and both sizes are equal. It transfers exactly when not dry, the local file exists, and the call is forced or the remote file is absent or the sizes differ |
| `Sync.Step` | uploadstatic/management/commands/uploadstatic.py:63-82 | one `upload_file` call. An error is raised exactly on the `Fail` decision and names the path. Otherwise the path is appended to exactly one list; `skipped` grows exactly on `Skip`; the remote storage and the save log change exactly on `Transfer`, and then the local file was saved under the same path with one `save` call |
| `Sync.Run` | uploadstatic/management/commands/uploadstatic.py:90-96 | the `upload` loop: one `Step` per path in enumeration order, stopping at the first error. It only appends to `uploaded`, `skipped` and the save log, and an aborted run names one of the enumerated paths. Its other properties are the `Run*` lemmas below |
| `Sync.InterleavesSplits` | uploadstatic/management/commands/uploadstatic.py:90-96 | an in-order interleaving of two lists is a partition: the lengths add up, the multisets add up, and each list is a subsequence of the enumeration |
| `Sync.RunPartition` | uploadstatic/management/commands/uploadstatic.py:90-96 | a run only appends to the two lists. What it appended is an in-order interleaving of the paths it handled. It handles every path exactly when it completes; an aborted run stops at the path whose local file failed |
| `Sync.RunAbortsExactly` | uploadstatic/management/commands/uploadstatic.py:70-91 | a run aborts exactly when it is not a dry run and some enumerated path is missing locally; it then stops at the first such path, every path before it being present locally |
| `Sync.CompletedRunSplitsPaths` | uploadstatic/management/commands/uploadstatic.py:90-96 | a completed run from empty lists returns `uploaded` and `skipped` whose lengths sum to the number of paths, whose multisets add up to the enumeration, and each of which is a subsequence of the enumeration |
| `Sync.DryRunPretendsAll` | uploadstatic/management/commands/uploadstatic.py:63-82 | a dry run always completes. It appends every path to `uploaded` in order, skips none, makes no `save` call and leaves the remote storage as it was |
| `Sync.ForcedRunUploadsAll` | uploadstatic/management/commands/uploadstatic.py:67-82 | a forced, non-dry run over locally present files completes without comparing sizes. It uploads every path with one `save` each, skips none, and leaves each remote entry equal to the local file |
| `Sync.RunKeepsRemoteFiles` | uploadstatic/management/commands/uploadstatic.py:76-81 | a run deletes no remote file |
| `Sync.RunRemoteEntries` | uploadstatic/management/commands/uploadstatic.py:76-81 | every remote entry after a run is either the entry it had before or the local file of a path the run handled; for an aborted run, only paths before the failing one count |
| `Sync.RunLeavesSizesMatching` | uploadstatic/management/commands/uploadstatic.py:67-82 | after a completed non-dry run, forced or not, every enumerated path exists remotely with the local file's size |
| `Sync.MatchingRunSkipsAll` | uploadstatic/management/commands/uploadstatic.py:67-75 | when every path exists on both sides with equal sizes, a run that is neither dry nor forced completes. It skips every path in order, uploads none and makes no `save` call |
| `Sync.SecondRunSkipsAll` | uploadstatic/management/commands/uploadstatic.py:67-82 | a second run over the same paths and unchanged local files, neither dry nor forced, skips every path and uploads none. This holds whatever the first non-dry run's `force` was |
| `UploadStatic.Distinct` | uploadstatic/management/commands/uploadstatic.py:61 | `list(set(...))` holds no duplicates and exactly the elements of its input |
| `UploadStatic.IgnorePatterns` | uploadstatic/management/commands/uploadstatic.py:57-61 | the ignore patterns hold no duplicates. A pattern is in them exactly when it is a user pattern, a settings pattern, or, with defaults enabled, one of `CVS`, `.*`, `*~` |
| `UploadStatic.FileNoun` | uploadstatic/management/commands/uploadstatic.py:124-125 | the summary noun is "static file" or "static files", and it ends in `s` exactly when the count is not 1 |
| `UploadStatic.Command.constructor` | uploadstatic/management/commands/uploadstatic.py:40-47 | a new command starts with both lists empty, holding the given local and remote storages |
| `UploadStatic.Command.SetOptions` | uploadstatic/management/commands/uploadstatic.py:49-61 | keeps `dry_run` and `force`, and sets the ignore patterns to the deduplicated list of user, settings and (optional) default patterns |
| `UploadStatic.Command.UploadFile` | uploadstatic/management/commands/uploadstatic.py:63-82 | the new remote storage, save log and lists are exactly what `Step` gives for the old state. When the local file is missing the call returns `false` and changes nothing |
| `UploadStatic.Command.Upload` | uploadstatic/management/commands/uploadstatic.py:84-96 | the loop carries out `Run` on the fields. On completion it returns the two lists as its summary. On failure it reports the failing path and leaves the partial lists in the fields |
| `UploadStatic.TwoRunScenario` | uploadstatic/management/commands/uploadstatic.py:84-96 | an empty remote and the enumeration `a.txt` (10 bytes), `b.txt` (5 bytes): the first run uploads both and stores them remotely; a second run skips both |

## Left out

- `get_files` and its glob matching of base names live in `uploadstatic/utils`, which is not part of this model. The enumerated paths are an input to `Upload`, and the ignore patterns are built but not applied.
- The interactive confirmation prompt and the `CommandError` on cancel are terminal I/O.
- Logging, and the summary text apart from its pluralised noun, are output formatting.
- The `interactive` and `verbosity` options only drive the prompt and the logging, so they are not modelled.
- The construction of the storages through `get_storage_class`, and the real file-system and S3 backends, are foreign code. Both storages are maps from path to bytes.
- Byte streaming, `open`/`close` and the `try`/`finally` that closes the source file are I/O. `save` receives the local file's contents.
- Failures of the remote storage (`exists`, `size` or `save` raising on network, authentication or quota errors) are not modelled. Only the local file being absent is modelled as an error.
- Python's `list(set(...))` has no fixed order. `Distinct` fixes one: it keeps the last occurrence of each pattern.
- `set_options` extends the caller's option list in place. That aliasing side effect on the caller's list is not modelled.
- When `remote_storage.size` raises after `exists` succeeded (uploadstatic.py:67-71), the error propagates like any other remote failure, which is not modelled.
- The model's `LocalFileNotFound` carries the path of the file that could not be read; the Python exception is whatever the storage raises.
