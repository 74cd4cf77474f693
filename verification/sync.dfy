/** The differential-upload rule of the `uploadstatic` command, as pure
    functions: what one call of `upload_file` decides and does, and what a
    whole run over the enumerated paths produces. The `Command` class in
    module UploadStatic is proved to carry these out. */
module Sync {
  import opened Storage

  /** The two command-line switches the decision depends on. */
  datatype Mode = Mode(dryRun: bool, force: bool)

  /** What `upload_file` does with one path. `Fail` is the branch where the
      local storage raises because the file is not there (its `size` on the
      compare branch, its `open` on the transfer branch). */
  datatype Action = Pretend | Skip | Transfer | Fail

  /** Everything a run changes: the remote storage, the paths handed to the
      remote `save` (in call order), and the two outcome lists. */
  datatype SyncState = SyncState(remote: Store, saved: seq<Path>, uploaded: seq<Path>, skipped: seq<Path>)

  datatype StorageError = LocalFileNotFound(path: Path)

  datatype Result<T> = Ok(value: T) | Err(error: StorageError)

  /** A run either finishes, or stops at the first path whose local file
      cannot be read, leaving the state reached before that path. */
  datatype RunResult = Completed(state: SyncState) | Aborted(state: SyncState, error: StorageError)

  /** The decision of `upload_file`: dry run pretends; otherwise, unless
      forced, a remote file of the same size as the local one is skipped;
      everything else is transferred. Sizes are compared only when not
      forced and the remote file exists. */
  function Decide(mode: Mode, local: Store, remote: Store, path: Path): (a: Action)
    ensures a == Pretend <==> mode.dryRun
    ensures a == Fail <==> !mode.dryRun && !Exists(local, path)
    ensures a == Skip <==>
      !mode.dryRun && !mode.force && Exists(remote, path) && Exists(local, path) &&
      Size(remote, path) == Size(local, path)
    ensures a == Transfer <==>
      !mode.dryRun && Exists(local, path) &&
      (mode.force || !Exists(remote, path) || Size(remote, path) != Size(local, path))
  {
    if mode.dryRun then Pretend
    else if !mode.force && Exists(remote, path) then
      if !Exists(local, path) then Fail
      else if Size(remote, path) == Size(local, path) then Skip
      else Transfer
    else if !Exists(local, path) then Fail
    else Transfer
  }

  /** The path was appended to exactly one of the two outcome lists. */
  ghost predicate RecordedOnce(before: SyncState, after: SyncState, path: Path) {
    (after.uploaded == before.uploaded + [path] && after.skipped == before.skipped) ||
    (after.skipped == before.skipped + [path] && after.uploaded == before.uploaded)
  }

  /** No `save` call was made and the remote storage is as it was. */
  ghost predicate RemoteUntouched(before: SyncState, after: SyncState) {
    after.remote == before.remote && after.saved == before.saved
  }

  /** One `save` call stored the local file under the same path. */
  ghost predicate SavedFromLocal(local: Store, before: SyncState, after: SyncState, path: Path) {
    Exists(local, path) &&
    after.remote == Save(before.remote, path, local[path]) &&
    after.saved == before.saved + [path]
  }

  /** One call of `upload_file`. */
  function Step(mode: Mode, local: Store, st: SyncState, path: Path): (r: Result<SyncState>)
    ensures r.Err? <==> Decide(mode, local, st.remote, path) == Fail
    ensures r.Err? ==> r.error.path == path
    ensures r.Ok? ==> RecordedOnce(st, r.value, path)
    ensures r.Ok? ==> (r.value.skipped != st.skipped <==> Decide(mode, local, st.remote, path) == Skip)
    ensures r.Ok? ==> (RemoteUntouched(st, r.value) <==> Decide(mode, local, st.remote, path) != Transfer)
    ensures r.Ok? && Decide(mode, local, st.remote, path) == Transfer ==> SavedFromLocal(local, st, r.value, path)
  {
    match Decide(mode, local, st.remote, path)
    case Pretend => Ok(st.(uploaded := st.uploaded + [path]))
    case Skip => Ok(st.(skipped := st.skipped + [path]))
    case Transfer =>
      Ok(st.(remote := Save(st.remote, path, local[path]),
             saved := st.saved + [path],
             uploaded := st.uploaded + [path]))
    case Fail => Err(LocalFileNotFound(path))
  }

  /** `upload`: one `upload_file` per enumerated path, in enumeration order,
      stopping at the first path whose local file cannot be read. A run only
      appends to the outcome lists and the save log. */
  function Run(mode: Mode, local: Store, st: SyncState, paths: seq<Path>): (res: RunResult)
    ensures st.uploaded <= res.state.uploaded && st.skipped <= res.state.skipped
    ensures st.saved <= res.state.saved
    ensures res.Aborted? ==> res.error.path in paths
    decreases |paths|
  {
    if paths == [] then Completed(st)
    else match Step(mode, local, st, paths[0])
      case Err(e) => Aborted(st, e)
      case Ok(next) => Run(mode, local, next, paths[1..])
  }

  // ---------------------------------------------------------------------
  // Sequences split in order

  /** `paths` is an order-preserving interleaving of `up` and `sk`: every
      path went to exactly one of the two, and each keeps the enumeration
      order. */
  ghost predicate Interleaves(paths: seq<Path>, up: seq<Path>, sk: seq<Path>)
    decreases |paths|
  {
    if paths == [] then up == [] && sk == []
    else
      (up != [] && up[0] == paths[0] && Interleaves(paths[1..], up[1..], sk)) ||
      (sk != [] && sk[0] == paths[0] && Interleaves(paths[1..], up, sk[1..]))
  }

  /** `a` is `b` with some elements left out, order kept. */
  ghost predicate IsSubsequence(a: seq<Path>, b: seq<Path>)
    decreases |b|
  {
    if b == [] then a == []
    else (a != [] && a[0] == b[0] && IsSubsequence(a[1..], b[1..])) || IsSubsequence(a, b[1..])
  }

  lemma {:induction false} InterleavesSplits(paths: seq<Path>, up: seq<Path>, sk: seq<Path>)
    requires Interleaves(paths, up, sk)
    ensures |up| + |sk| == |paths|
    ensures multiset(up) + multiset(sk) == multiset(paths)
    ensures IsSubsequence(up, paths) && IsSubsequence(sk, paths)
    decreases |paths|
  {
    if paths != [] {
      assert paths == [paths[0]] + paths[1..];
      if up != [] && up[0] == paths[0] && Interleaves(paths[1..], up[1..], sk) {
        InterleavesSplits(paths[1..], up[1..], sk);
        assert up == [up[0]] + up[1..];
      } else {
        InterleavesSplits(paths[1..], up, sk[1..]);
        assert sk == [sk[0]] + sk[1..];
      }
    }
  }

  // ---------------------------------------------------------------------
  // Properties of a run

  /** How many paths a run has handled: the growth of both outcome lists. */
  ghost function Handled(st: SyncState, res: RunResult): int {
    |res.state.uploaded| - |st.uploaded| + |res.state.skipped| - |st.skipped|
  }

  /** A run from `st` over `paths` that ended in `res` only appended to the
      outcome lists; the paths it handled are an in-order interleaving of
      what it appended; it handled all the paths exactly when it completed,
      and an aborted run stopped at the path that failed. */
  ghost predicate PartitionedRun(st: SyncState, paths: seq<Path>, res: RunResult) {
    st.uploaded <= res.state.uploaded && st.skipped <= res.state.skipped &&
    var n := Handled(st, res);
    0 <= n <= |paths| &&
    (res.Completed? <==> n == |paths|) &&
    (res.Aborted? ==> paths[n] == res.error.path) &&
    Interleaves(paths[..n], res.state.uploaded[|st.uploaded|..], res.state.skipped[|st.skipped|..])
  }

  /** Handling one more path in front, recorded in one of the lists, keeps
      the run partitioned. */
  lemma PartitionedRunCons(st: SyncState, next: SyncState, paths: seq<Path>, res: RunResult)
    requires paths != [] && RecordedOnce(st, next, paths[0])
    requires PartitionedRun(next, paths[1..], res)
    ensures PartitionedRun(st, paths, res)
  {
    var n := Handled(next, res);
    assert Handled(st, res) == n + 1;
    var handled := paths[..n + 1];
    assert handled[0] == paths[0] && handled[1..] == paths[1..][..n];
    var up, sk := res.state.uploaded[|st.uploaded|..], res.state.skipped[|st.skipped|..];
    if next.uploaded == st.uploaded + [paths[0]] {
      assert up == [paths[0]] + res.state.uploaded[|next.uploaded|..];
      assert sk == res.state.skipped[|next.skipped|..];
    } else {
      assert sk == [paths[0]] + res.state.skipped[|next.skipped|..];
      assert up == res.state.uploaded[|next.uploaded|..];
    }
  }

  lemma {:induction false} RunPartition(mode: Mode, local: Store, st: SyncState, paths: seq<Path>)
    ensures PartitionedRun(st, paths, Run(mode, local, st, paths))
    decreases |paths|
  {
    if paths == [] {
      assert paths[..0] == [];
    } else {
      match Step(mode, local, st, paths[0])
      case Err(e) => {
        assert paths[..0] == [];
      }
      case Ok(next) => {
        RunPartition(mode, local, next, paths[1..]);
        PartitionedRunCons(st, next, paths, Run(mode, local, next, paths[1..]));
      }
    }
  }

  /** When a run aborts: exactly when it is not a dry run and some enumerated
      path is missing locally. It then stops at the first such path, after
      handling every path before it. */
  lemma {:induction false} RunAbortsExactly(mode: Mode, local: Store, st: SyncState, paths: seq<Path>)
    ensures Run(mode, local, st, paths).Aborted? <==>
      !mode.dryRun && exists i :: 0 <= i < |paths| && paths[i] !in local
    ensures Run(mode, local, st, paths).Aborted? ==>
      var n := Handled(st, Run(mode, local, st, paths));
      0 <= n < |paths| && paths[n] !in local && forall j :: 0 <= j < n ==> paths[j] in local
    decreases |paths|
  {
    if paths != [] {
      match Step(mode, local, st, paths[0])
      case Err(e) => {
        assert paths[0] !in local;
      }
      case Ok(next) => {
        var rest := paths[1..];
        var res := Run(mode, local, next, rest);
        RunAbortsExactly(mode, local, next, rest);
        assert Handled(st, res) == Handled(next, res) + 1;
        if !mode.dryRun {
          assert paths[0] in local;
          if i :| 0 <= i < |paths| && paths[i] !in local {
            assert rest[i - 1] !in local;
          }
        }
        if res.Aborted? {
          var n := Handled(next, res);
          forall j | 0 <= j < n + 1
            ensures paths[j] in local
          {
            if j > 0 {
              assert paths[j] == rest[j - 1];
            }
          }
        }
      }
    }
  }

  /** A completed run returns lists that together hold as many paths as were
      enumerated, each a subsequence of the enumeration. */
  lemma CompletedRunSplitsPaths(mode: Mode, local: Store, paths: seq<Path>, remote: Store)
    requires Run(mode, local, SyncState(remote, [], [], []), paths).Completed?
    ensures var fin := Run(mode, local, SyncState(remote, [], [], []), paths).state;
      |fin.uploaded| + |fin.skipped| == |paths| &&
      multiset(fin.uploaded) + multiset(fin.skipped) == multiset(paths) &&
      IsSubsequence(fin.uploaded, paths) && IsSubsequence(fin.skipped, paths)
  {
    var st := SyncState(remote, [], [], []);
    var fin := Run(mode, local, st, paths).state;
    RunPartition(mode, local, st, paths);
    assert paths[..|paths|] == paths;
    assert fin.uploaded[0..] == fin.uploaded && fin.skipped[0..] == fin.skipped;
    InterleavesSplits(paths, fin.uploaded, fin.skipped);
  }

  /** A dry run completes, lists every path as uploaded, and neither calls
      `save` nor changes the remote storage. */
  lemma {:induction false} DryRunPretendsAll(mode: Mode, local: Store, st: SyncState, paths: seq<Path>)
    requires mode.dryRun
    ensures Run(mode, local, st, paths) == Completed(st.(uploaded := st.uploaded + paths))
    decreases |paths|
  {
    if paths != [] {
      var next := st.(uploaded := st.uploaded + [paths[0]]);
      assert Step(mode, local, st, paths[0]) == Ok(next);
      DryRunPretendsAll(mode, local, next, paths[1..]);
      assert next.uploaded + paths[1..] == st.uploaded + paths;
    }
  }

  /** A forced run over paths that all exist locally completes, uploads
      every path with one `save` each, skips none, and leaves each remote
      entry equal to the local file. */
  lemma {:induction false} ForcedRunUploadsAll(mode: Mode, local: Store, st: SyncState, paths: seq<Path>)
    requires mode.force && !mode.dryRun
    requires forall p :: p in paths ==> p in local
    ensures Run(mode, local, st, paths).Completed?
    ensures Run(mode, local, st, paths).state.uploaded == st.uploaded + paths
    ensures Run(mode, local, st, paths).state.saved == st.saved + paths
    ensures Run(mode, local, st, paths).state.skipped == st.skipped
    ensures forall p :: p in paths ==>
      Exists(Run(mode, local, st, paths).state.remote, p) &&
      Run(mode, local, st, paths).state.remote[p] == local[p]
    decreases |paths|
  {
    if paths != [] {
      var p := paths[0];
      assert p in paths;
      assert Decide(mode, local, st.remote, p) == Transfer;
      var next := st.(remote := Save(st.remote, p, local[p]), saved := st.saved + [p], uploaded := st.uploaded + [p]);
      assert Step(mode, local, st, p) == Ok(next);
      var rest := paths[1..];
      assert paths == [p] + rest;
      assert next.uploaded + rest == st.uploaded + paths;
      assert next.saved + rest == st.saved + paths;
      assert Run(mode, local, st, paths) == Run(mode, local, next, rest);
      assert forall q :: q in rest ==> q in paths;
      ForcedRunUploadsAll(mode, local, next, rest);
      RunKeepsRemoteFiles(mode, local, next, rest);
      RunRemoteEntries(mode, local, next, rest);
      var fin := Run(mode, local, next, rest).state;
      forall q | q in paths
        ensures Exists(fin.remote, q) && fin.remote[q] == local[q]
      {
        if q != p {
          assert q in rest;
        }
      }
    }
  }

  /** A run deletes no remote file. */
  lemma {:induction false} RunKeepsRemoteFiles(mode: Mode, local: Store, st: SyncState, paths: seq<Path>)
    ensures forall q :: Exists(st.remote, q) ==> Exists(Run(mode, local, st, paths).state.remote, q)
    decreases |paths|
  {
    if paths != [] {
      match Step(mode, local, st, paths[0])
      case Err(_) =>
      case Ok(next) => {
        RunKeepsRemoteFiles(mode, local, next, paths[1..]);
      }
    }
  }

  /** Every entry of `after` is either the entry `before` had or the local
      file of one of `handled`. */
  ghost predicate EntriesFrom(local: Store, before: Store, after: Store, handled: seq<Path>) {
    forall q :: Exists(after, q) ==>
      (Exists(before, q) && after[q] == before[q]) ||
      (q in handled && Exists(local, q) && after[q] == local[q])
  }

  /** One more handled path in front, whose step either left the remote alone
      or saved the local file there, keeps the entries accounted for. */
  lemma EntriesFromCons(local: Store, before: Store, mid: Store, after: Store, p: Path, handled: seq<Path>)
    requires mid == before || (Exists(local, p) && mid == Save(before, p, local[p]))
    requires EntriesFrom(local, mid, after, handled)
    ensures EntriesFrom(local, before, after, [p] + handled)
  {
  }

  /** The remote storage after a run: every entry is either the one that
      was there before or the local file of one of the paths the run
      handled (for an aborted run, one before the failing path). */
  lemma {:induction false} RunRemoteEntries(mode: Mode, local: Store, st: SyncState, paths: seq<Path>)
    ensures 0 <= Handled(st, Run(mode, local, st, paths)) <= |paths|
    ensures EntriesFrom(local, st.remote, Run(mode, local, st, paths).state.remote,
                        paths[..Handled(st, Run(mode, local, st, paths))])
    decreases |paths|
  {
    if paths == [] {
      assert paths[..0] == [];
    } else {
      match Step(mode, local, st, paths[0])
      case Err(_) => {
        assert paths[..0] == [];
      }
      case Ok(next) => {
        var rest := paths[1..];
        var res := Run(mode, local, next, rest);
        RunRemoteEntries(mode, local, next, rest);
        var n := Handled(next, res);
        assert Handled(st, res) == n + 1;
        assert paths[..n + 1] == [paths[0]] + rest[..n];
        EntriesFromCons(local, st.remote, next.remote, res.state.remote, paths[0], rest[..n]);
      }
    }
  }

  /** Every path is present on both sides with equal sizes: what the
      command takes to mean "already uploaded". */
  ghost predicate SizesMatch(local: Store, remote: Store, paths: seq<Path>) {
    forall p :: p in paths ==> Exists(local, p) && Exists(remote, p) && Size(remote, p) == Size(local, p)
  }

  /** After a completed run that was not a dry run, every enumerated path is
      on the remote with the size of the local file. */
  lemma {:induction false} RunLeavesSizesMatching(mode: Mode, local: Store, st: SyncState, paths: seq<Path>)
    requires !mode.dryRun
    requires Run(mode, local, st, paths).Completed?
    ensures SizesMatch(local, Run(mode, local, st, paths).state.remote, paths)
    decreases |paths|
  {
    if paths != [] {
      var p := paths[0];
      var next := Step(mode, local, st, p).value;
      var fin := Run(mode, local, next, paths[1..]).state;
      RunLeavesSizesMatching(mode, local, next, paths[1..]);
      RunKeepsRemoteFiles(mode, local, next, paths[1..]);
      RunRemoteEntries(mode, local, next, paths[1..]);
      assert Exists(next.remote, p) && Size(next.remote, p) == Size(local, p);
      assert Exists(fin.remote, p) && Size(fin.remote, p) == Size(local, p);
    }
  }

  /** With sizes matching, a run that is neither dry nor forced skips every
      path, in order, without calling `save`. */
  lemma {:induction false} MatchingRunSkipsAll(mode: Mode, local: Store, st: SyncState, paths: seq<Path>)
    requires !mode.dryRun && !mode.force
    requires SizesMatch(local, st.remote, paths)
    ensures Run(mode, local, st, paths) == Completed(st.(skipped := st.skipped + paths))
    decreases |paths|
  {
    if paths != [] {
      var next := st.(skipped := st.skipped + [paths[0]]);
      assert Step(mode, local, st, paths[0]) == Ok(next);
      assert forall p :: p in paths[1..] ==> p in paths;
      MatchingRunSkipsAll(mode, local, next, paths[1..]);
      assert next.skipped + paths[1..] == st.skipped + paths;
    }
  }

  /** Running the command a second time over the same enumeration, with the
      local files unchanged, uploads nothing and skips every path, whatever
      the first (non-dry) run's `force` switch was. */
  lemma SecondRunSkipsAll(first: Mode, local: Store, remote: Store, paths: seq<Path>)
    requires !first.dryRun
    requires Run(first, local, SyncState(remote, [], [], []), paths).Completed?
    ensures var again := Run(first, local, SyncState(remote, [], [], []), paths).state.remote;
      Run(Mode(false, false), local, SyncState(again, [], [], []), paths) ==
      Completed(SyncState(again, [], [], paths))
  {
    var again := Run(first, local, SyncState(remote, [], [], []), paths).state.remote;
    RunLeavesSizesMatching(first, local, SyncState(remote, [], [], []), paths);
    MatchingRunSkipsAll(Mode(false, false), local, SyncState(again, [], [], []), paths);
  }
}
