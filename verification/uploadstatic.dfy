/** The `uploadstatic` management command: the options it keeps, the
    per-file upload decision carried out on the remote storage, the run over
    the enumerated static files, and the summary wording. */
module UploadStatic {
  import opened Storage
  import opened Sync

  /** The option values `set_options` reads. */
  datatype CommandOptions = CommandOptions(
    dryRun: bool,
    force: bool,
    ignorePatterns: seq<string>,
    useDefaultIgnorePatterns: bool)

  /** What `upload` returns: `{'uploaded': ..., 'skipped': ...}`. */
  datatype Summary = Summary(uploaded: seq<Path>, skipped: seq<Path>)

  /** The common private patterns ignored unless `--no-default-ignore`. */
  const DefaultIgnorePatterns: seq<string> := ["CVS", ".*", "*~"]

  ghost predicate NoDuplicates<T>(s: seq<T>) {
    forall i, j :: 0 <= i < j < |s| ==> s[i] != s[j]
  }

  /** `list(set(s))`: the same elements, each once. Python does not fix the
      order of a set; this keeps the last occurrence of each element. */
  function Distinct(s: seq<string>): (r: seq<string>)
    ensures NoDuplicates(r)
    ensures forall x :: x in r <==> x in s
  {
    if s == [] then []
    else if s[0] in s[1..] then Distinct(s[1..])
    else [s[0]] + Distinct(s[1..])
  }

  /** The ignore patterns `set_options` settles on: the user's `-i`
      patterns, then the `UPLOADSTATIC_IGNORE_PATTERNS` setting, then the
      defaults when they are enabled, with duplicates removed. */
  function IgnorePatterns(user: seq<string>, fromSettings: seq<string>, useDefaults: bool): (r: seq<string>)
    ensures NoDuplicates(r)
    ensures forall p :: p in r <==>
      p in user || p in fromSettings || (useDefaults && p in DefaultIgnorePatterns)
  {
    Distinct(user + fromSettings + (if useDefaults then DefaultIgnorePatterns else []))
  }

  /** The noun of the summary line: "static file" for a count of one,
      "static files" for any other count. */
  function FileNoun(count: nat): (r: string)
    ensures r == "static file" || r == "static files"
    ensures r[|r| - 1] == 's' <==> count != 1
  {
    "static file" + (if count != 1 then "s" else "")
  }

  class Command {
    /** The local static-file storage (`STATIC_ROOT`); the command only reads it. */
    const local: Store
    /** The remote storage; `save` writes into it. */
    var remote: Store
    /** The paths passed to the remote `save`, in call order. */
    ghost var saveLog: seq<Path>
    var uploadedFiles: seq<Path>
    var skippedFiles: seq<Path>
    var dryRun: bool
    var force: bool
    var ignorePatterns: seq<string>

    constructor (local: Store, remote: Store)
      ensures this.local == local && this.remote == remote && saveLog == []
      ensures uploadedFiles == [] && skippedFiles == []
    {
      this.local := local;
      this.remote := remote;
      saveLog := [];
      uploadedFiles := [];
      skippedFiles := [];
    }

    function CurrentMode(): Mode
      reads this
    {
      Mode(dryRun, force)
    }

    ghost function State(): SyncState
      reads this
    {
      SyncState(remote, saveLog, uploadedFiles, skippedFiles)
    }

    /** `set_options`: keeps the switches and builds the ignore patterns. */
    method SetOptions(options: CommandOptions, settingsIgnorePatterns: seq<string>)
      modifies this`dryRun, this`force, this`ignorePatterns
      ensures dryRun == options.dryRun && force == options.force
      ensures ignorePatterns ==
        IgnorePatterns(options.ignorePatterns, settingsIgnorePatterns, options.useDefaultIgnorePatterns)
    {
      dryRun := options.dryRun;
      force := options.force;
      var patterns := options.ignorePatterns;
      patterns := patterns + settingsIgnorePatterns;
      if options.useDefaultIgnorePatterns {
        patterns := patterns + DefaultIgnorePatterns;
      }
      assert patterns == options.ignorePatterns + settingsIgnorePatterns +
        (if options.useDefaultIgnorePatterns then DefaultIgnorePatterns else []);
      ignorePatterns := Distinct(patterns);
    }

    /** `upload_file`: decides for one path, saves the local file to the
      remote when it decides to transfer, and records the path in one of the
      two lists. `ok` is false when the local file could not be read; the
      call then changes nothing. */
    method UploadFile(path: Path) returns (ok: bool)
      modifies this`remote, this`saveLog, this`uploadedFiles, this`skippedFiles
      ensures Step(CurrentMode(), local, old(State()), path) ==
        if ok then Ok(State()) else Err(LocalFileNotFound(path))
      ensures !ok ==> State() == old(State())
    {
      if !dryRun {
        if !force && Exists(remote, path) {
          if !Exists(local, path) {
            return false;
          }
          var localSize := Size(local, path);
          var remoteSize := Size(remote, path);
          if remoteSize == localSize {
            skippedFiles := skippedFiles + [path];
            return true;
          }
        }
        if !Exists(local, path) {
          return false;
        }
        remote := Save(remote, path, local[path]);
        saveLog := saveLog + [path];
      }
      uploadedFiles := uploadedFiles + [path];
      ok := true;
    }

    /** `upload`: one `upload_file` per enumerated path, in order. The
      enumeration of the local storage is given as `paths`. The lists keep
      whatever they held before the call. */
    method Upload(paths: seq<Path>) returns (r: Result<Summary>)
      modifies this`remote, this`saveLog, this`uploadedFiles, this`skippedFiles
      ensures Run(CurrentMode(), local, old(State()), paths) ==
        if r.Ok? then Completed(State()) else Aborted(State(), r.error)
      ensures r.Ok? ==> r.value == Summary(uploadedFiles, skippedFiles)
    {
      var i := 0;
      while i < |paths|
        invariant 0 <= i <= |paths|
        invariant Run(CurrentMode(), local, old(State()), paths) == Run(CurrentMode(), local, State(), paths[i..])
      {
        assert paths[i..][0] == paths[i] && paths[i..][1..] == paths[i + 1..];
        var ok := UploadFile(paths[i]);
        if !ok {
          return Err(LocalFileNotFound(paths[i]));
        }
        i := i + 1;
      }
      r := Ok(Summary(uploadedFiles, skippedFiles));
    }
  }

  /** The scenario of a fresh command over an empty remote: the local
      storage holds `a.txt` (10 bytes), `b.txt` (5 bytes) and `.hidden`
      (3 bytes), and the enumeration is given as `a.txt`, `b.txt` only (the
      model does not apply ignore patterns itself). The first run uploads
      both, the second skips both. */
  lemma TwoRunScenario()
    ensures var local := map["a.txt" := seq(10, _ => 0 as byte), "b.txt" := seq(5, _ => 1 as byte),
                             ".hidden" := seq(3, _ => 2 as byte)];
      var paths := ["a.txt", "b.txt"];
      var first := Run(Mode(false, false), local, SyncState(map[], [], [], []), paths);
      first == Completed(SyncState(map["a.txt" := local["a.txt"], "b.txt" := local["b.txt"]],
                                   paths, paths, [])) &&
      Run(Mode(false, false), local, SyncState(first.state.remote, [], [], []), paths) ==
        Completed(SyncState(first.state.remote, [], [], paths))
  {
  }
}
