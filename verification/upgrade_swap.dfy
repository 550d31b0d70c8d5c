/** The configuration swap of a live upgrade: stash, replace, restore.

    A directory is a map from file names to contents, and the stash is a
    directory inside the workdir. Any file operation may fail, a failing write
    may leave any torn content, and directory entries come in any order. */
module UpgradeSwap {
  import opened Wrappers

  type Bytes = seq<bv8>
  type Files = map<string, Bytes>

  predicate HasSuffix(name: string, suffix: string) {
    |suffix| <= |name| && name[|name| - |suffix|..] == suffix
  }

  /** hasDeployableExtension. */
  predicate Deployable(name: string) {
    HasSuffix(name, ".tf") || HasSuffix(name, ".hcl")
  }

  /** The deployed configuration among a directory's files. */
  function Config(files: Files): Files {
    map n | n in files && Deployable(n) :: files[n]
  }

  /** What is stashed, removed and copied is every .tf and .hcl file there is, and no other. */
  lemma {:induction false} ConfigIs(files: Files)
    ensures forall n :: n in Config(files) <==>
              n in files && ((|n| >= 3 && n[|n| - 3..] == ".tf") || (|n| >= 4 && n[|n| - 4..] == ".hcl"))
    ensures forall n :: n in Config(files) ==> Config(files)[n] == files[n]
    ensures Config(files).Keys !! Rest(files).Keys && Config(files) + Rest(files) == files
  {
    assert |".tf"| == 3 && |".hcl"| == 4;
  }

  /** assertDeployableSource: some file is a .tf file. */
  predicate HasTf(source: Files) {
    exists n :: n in source && HasSuffix(n, ".tf")
  }

  /** Everything else in it. */
  function Rest(files: Files): Files {
    map n | n in files && !Deployable(n) :: files[n]
  }

  lemma SameParts(a: Files, b: Files)
    requires Config(a) == Config(b) && Rest(a) == Rest(b)
    ensures a == b
  {
    forall n ensures n in a <==> n in b {
      assert n in a <==> n in Config(a) || n in Rest(a);
      assert n in b <==> n in Config(b) || n in Rest(b);
    }
    forall n | n in a ensures a[n] == b[n] {
      if Deployable(n) {
        assert Config(a)[n] == a[n] && Config(b)[n] == b[n];
      } else {
        assert Rest(a)[n] == a[n] && Rest(b)[n] == b[n];
      }
    }
  }

  /** What a crash at this instant would leave on disk. */
  datatype Snapshot = Snapshot(files: Files, stash: Option<Files>)

  /** The whole of config is on disk: deployed, or in the stash. */
  ghost predicate Kept(config: Files, s: Snapshot) {
    Config(s.files) == config || (s.stash.Some? && Config(s.stash.value) == config)
  }

  /** Every snapshot taken since `before` keeps the config. */
  ghost predicate AllKept(config: Files, before: seq<Snapshot>, history: seq<Snapshot>) {
    before <= history && forall i :: |before| <= i < |history| ==> Kept(config, history[i])
  }

  /** Every snapshot taken since `before` has the same files. */
  ghost predicate SameFiles(files: Files, before: seq<Snapshot>, history: seq<Snapshot>) {
    before <= history && forall i :: |before| <= i < |history| ==> history[i].files == files
  }

  /** Every snapshot taken since `before` has this stash and these other files. */
  ghost predicate SameStash(stash: Option<Files>, rest: Files, before: seq<Snapshot>, history: seq<Snapshot>) {
    before <= history
    && forall i :: |before| <= i < |history| ==> history[i].stash == stash && Rest(history[i].files) == rest
  }

  /** How many file operations of a call succeed before one fails, what a torn
      write or a partial removal leaves. */
  datatype Faults = Faults(left: nat, torn: Bytes, survivors: Files)

  datatype ApplyResult = Applied | FailedAt(stage: string) | OtherFailure

  /** applyRan: only a failure at init or plan never reached the cloud. */
  predicate ApplyRan(r: ApplyResult) {
    match r
    case Applied => true
    case FailedAt(stage) => stage != "init" && stage != "plan"
    case OtherFailure => true
  }

  datatype Ending = SourceRefused | StashFailed | SwapUndone | SwapStuck | Deployed | RolledBack | RollbackStuck

  class Workdir {
    var files: Files
    var stash: Option<Files>
    ghost var history: seq<Snapshot>

    constructor (files: Files, stash: Option<Files>)
      ensures this.files == files && this.stash == stash && history == []
    {
      this.files, this.stash, history := files, stash, [];
    }

    ghost function Now(): Snapshot
      reads this
    {
      Snapshot(files, stash)
    }

    /** One write into the stash directory. */
    method WriteStash(n: string, payload: Bytes, ghost before: seq<Snapshot>)
      requires stash.Some? && SameFiles(files, before, history)
      modifies this`stash, this`history
      ensures stash == Some(old(stash).value[n := payload]) && SameFiles(files, before, history)
    {
      stash := Some(stash.value[n := payload]);
      history := history + [Now()];
    }

    /** Clears the stash directory and makes it again. */
    method ClearStash(f: Faults) returns (ok: bool)
      modifies this`stash, this`history
      ensures ok ==> stash == Some(map[])
      ensures ok <==> f.left >= 2
      ensures SameFiles(files, old(history), history)
    {
      if f.left == 0 {
        // A removal that failed part way leaves any part of the old stash.
        stash := if stash.Some? then Some(map n | n in stash.value && n in f.survivors :: stash.value[n]) else None;
        history := history + [Now()];
        return false;
      }
      stash := None;
      history := history + [Now()];
      if f.left == 1 {
        return false;
      }
      stash := Some(map[]);
      history := history + [Now()];
      return true;
    }

    /** stashPreviousHCL. It keeps the deployed configuration at every instant;
        any other that was kept is kept no more once it succeeds. */
    method Stash(f: Faults) returns (ok: bool)
      modifies this`stash, this`history
      ensures ok ==> stash == Some(Config(files))
      ensures AllKept(Config(files), old(history), history)
      ensures ok ==> forall config :: Kept(config, Now()) <==> Config(files) == config
      ensures ok <==> f.left >= 3 + 2 * |Config(files)|
      ensures SameFiles(files, old(history), history)
    {
      ok := ClearStash(f);
      if !ok || f.left == 2 {
        SameFilesKept(files, old(history), history);
        return false;
      }
      var config, left := Config(files), f.left - 3;
      var todo := config.Keys;
      assert config - todo == map[];
      while todo != {}
        invariant todo <= config.Keys && stash == Some(config - todo)
        invariant SameFiles(files, old(history), history)
        invariant left >= 0 && left + 2 * (|config| - |todo|) == f.left - 3
        decreases |todo|
      {
        var n :| n in todo;
        if left < 2 {
          // The read fails, or the write does and leaves a torn file.
          if left == 1 {
            WriteStash(n, f.torn, old(history));
          }
          SomeLeft(config, todo, n);
          SameFilesKept(files, old(history), history);
          return false;
        }
        AddBack(config, todo, n);
        WriteStash(n, files[n], old(history));
        left, todo := left - 2, todo - {n};
      }
      assert config - {} == config;
      OnlyDeployedKept(Now());
      SameFilesKept(files, old(history), history);
      return true;
    }

    /** One write into the workdir. */
    method WriteFile(n: string, payload: Bytes, ghost rest: Files, ghost before: seq<Snapshot>)
      requires Deployable(n) && Rest(files) == rest && SameStash(stash, rest, before, history)
      modifies this`files, this`history
      ensures Config(files) == Config(old(files))[n := payload]
      ensures Rest(files) == rest && SameStash(stash, rest, before, history)
    {
      WriteOne(files, n, payload);
      files := files[n := payload];
      history := history + [Now()];
    }

    /** One removal from the workdir. */
    method RemoveFile(n: string, ghost rest: Files, ghost before: seq<Snapshot>)
      requires n in Config(files) && Rest(files) == rest && SameStash(stash, rest, before, history)
      modifies this`files, this`history
      ensures Config(files) == Config(old(files)) - {n}
      ensures Rest(files) == rest && SameStash(stash, rest, before, history)
    {
      RemoveOne(files, n);
      files := files - {n};
      history := history + [Now()];
    }

    /** Removes every deployed file, one at a time. */
    method RemoveConfig(before: nat) returns (ok: bool, left: nat)
      modifies this`files, this`history
      ensures Rest(files) == Rest(old(files)) && SameStash(stash, Rest(files), old(history), history)
      ensures ok ==> Config(files) == map[] && left == before - |Config(old(files))|
      ensures ok <==> before >= |Config(old(files))|
      ensures |Config(files)| <= |Config(old(files))|
    {
      left := before;
      var config := Config(files);
      var todo := config.Keys;
      while todo != {}
        invariant todo <= config.Keys && Config(files) == Without(config, todo)
        invariant Rest(files) == Rest(old(files)) && SameStash(stash, Rest(files), old(history), history)
        invariant left + (|config| - |todo|) == before
        decreases |todo|
      {
        var n :| n in todo;
        if left == 0 {
          SomeLeft(config, todo, n);
          FewerFiles(config, todo);
          return false, 0;
        }
        TakeOne(config, todo, n);
        RemoveFile(n, Rest(files), old(history));
        left, todo := left - 1, todo - {n};
      }
      assert Without(config, {}) == map[];
      return true, left;
    }

    /** Copies a directory's deployable files in, one at a time. */
    method CopyConfig(source: Files, before: nat, torn: Bytes) returns (ok: bool)
      requires Config(files) == map[]
      modifies this`files, this`history
      ensures Rest(files) == Rest(old(files)) && SameStash(stash, Rest(files), old(history), history)
      ensures ok ==> Config(files) == Config(source)
      ensures ok <==> before >= 2 * |Config(source)|
      ensures |Config(files)| <= |Config(source)|
    {
      var left, config := before, Config(source);
      var todo := config.Keys;
      assert config - todo == map[];
      while todo != {}
        invariant todo <= config.Keys && Config(files) == config - todo
        invariant Rest(files) == Rest(old(files)) && SameStash(stash, Rest(files), old(history), history)
        invariant left >= 0 && left + 2 * (|config| - |todo|) == before
        decreases |todo|
      {
        var n :| n in todo;
        if left < 2 {
          // The read fails, or the write does and leaves a torn file.
          if left == 1 {
            WriteFile(n, torn, Rest(files), old(history));
          }
          SomeLeft(config, todo, n);
          FewerNames(Config(files), config);
          return false;
        }
        AddBack(config, todo, n);
        WriteFile(n, source[n], Rest(files), old(history));
        left, todo := left - 2, todo - {n};
      }
      assert config - {} == config;
      return true;
    }

    /** replaceDeployedHCL: the old configuration goes first, then the new comes in. */
    method Replace(source: Files, f: Faults) returns (ok: bool)
      modifies this`files, this`history
      ensures Rest(files) == Rest(old(files)) && SameStash(stash, Rest(files), old(history), history)
      ensures ok ==> Config(files) == Config(source)
      ensures ok <==> f.left >= 2 + |Config(old(files))| + 2 * |Config(source)|
      ensures |Config(files)| <= |Config(old(files))| + |Config(source)|
    {
      if f.left == 0 {
        return false;
      }
      var left;
      ok, left := RemoveConfig(f.left - 1);
      if !ok || left == 0 {
        return false;
      }
      ok := CopyConfig(source, left - 1, f.torn);
    }

    /** restorePreviousHCL: whatever is deployed goes, the stash comes back. */
    method Restore(f: Faults) returns (ok: bool)
      modifies this`files, this`history
      ensures Rest(files) == Rest(old(files)) && SameStash(stash, Rest(files), old(history), history)
      ensures stash.None? || f.left < 2 ==> !ok && files == old(files)
      ensures ok ==> Config(files) == Config(stash.value)
      ensures ok <==> stash.Some? && f.left >= 2 + |Config(old(files))| + 2 * |Config(stash.value)|
    {
      if f.left < 2 || stash.None? {
        return false;
      }
      var left;
      ok, left := RemoveConfig(f.left - 2);
      if !ok {
        return false;
      }
      ok := CopyConfig(stash.value, left, f.torn);
    }

    /** Restores the directory a stash was taken of. */
    method RestoreTo(f: Faults, ghost was: Files) returns (ok: bool)
      requires stash == Some(Config(was)) && Rest(files) == Rest(was)
      modifies this`files, this`history
      ensures Rest(files) == Rest(was) && AllKept(Config(was), old(history), history)
      ensures ok ==> files == was
      ensures ok <==> f.left >= 2 + |Config(old(files))| + 2 * |Config(was)|
      ensures f.left < 2 ==> files == old(files)
    {
      StashIsConfig(was);
      ok := Restore(f);
      if ok {
        SameParts(files, was);
      }
    }

    /** The command's swap, apply and rollback. At every instant, whatever
        fails, the configuration that was deployed is whole in the workdir or
        in the stash, and no other file changes. Once its stash is taken, that
        configuration and the one deployed at the end are all that is kept. */
    method Upgrade(source: Files, stashing: Faults, replacing: Faults, apply: ApplyResult, restoring: Faults)
      returns (ending: Ending)
      modifies this
      ensures AllKept(Config(old(files)), old(history), history)
      ensures Kept(Config(old(files)), Now())
      ensures Rest(files) == Rest(old(files))
      ensures ending.SourceRefused? || ending.StashFailed? || ending.SwapUndone? || ending.RolledBack? ==> files == old(files)
      ensures ending.SourceRefused? <==> !HasTf(source)
      ensures ending.SourceRefused? ==> stash == old(stash)
      ensures ending.StashFailed? <==> HasTf(source) && stashing.left < 3 + 2 * |Config(old(files))|
      ensures StashTaken(ending) ==>
                forall config :: Kept(config, Now()) <==> config == Config(old(files)) || config == Config(files)
      ensures ending.Deployed? ==> Config(files) == Config(source)
      ensures Swapped(ending) <==>
                StashTaken(ending) && replacing.left >= 2 + |Config(old(files))| + 2 * |Config(source)|
      // Only a failure at init or plan is rolled back.
      ensures Swapped(ending) ==> (ending.Deployed? <==> apply != FailedAt("init") && apply != FailedAt("plan"))
      ensures Swapped(ending) && (apply == FailedAt("init") || apply == FailedAt("plan")) ==>
                (ending.RolledBack? <==> restoring.left >= 2 + |Config(source)| + 2 * |Config(old(files))|)
      ensures ending.RollbackStuck? && restoring.left < 2 ==> Config(files) == Config(source)
      // A swap that fails is undone unless the restore fails too.
      ensures restoring.left >= 2 + |Config(source)| + 3 * |Config(old(files))| ==> !ending.SwapStuck?
    {
      if !HasTf(source) {
        return SourceRefused;
      }
      var ok := Stash(stashing);
      if !ok {
        return StashFailed;
      }
      StashIsConfig(files);
      ok := Replace(source, replacing);
      if !ok {
        ok := RestoreTo(restoring, old(files));
        return if ok then SwapUndone else SwapStuck;
      }
      if ApplyRan(apply) {
        return Deployed;
      }
      ok := RestoreTo(restoring, old(files));
      return if ok then RolledBack else RollbackStuck;
    }
  }

  predicate StashTaken(ending: Ending) {
    !ending.SourceRefused? && !ending.StashFailed?
  }

  predicate Swapped(ending: Ending) {
    ending.Deployed? || ending.RolledBack? || ending.RollbackStuck?
  }

  /** One upgrade's run-time choices. */
  datatype Attempt = Attempt(source: Files, stashing: Faults, replacing: Faults, apply: ApplyResult, restoring: Faults)

  /** Two upgrades in a row, and the configuration from before them. The second
      keeps it throughout when the first left it deployed. Otherwise, once the
      second takes its stash, it is kept exactly when the second deploys it anew:
      so it is lost when the first was stuck away from it. */
  method UpgradeTwice(w: Workdir, one: Attempt, two: Attempt) returns (first: Ending, second: Ending, ghost between: Files)
    modifies w
    ensures var config := Config(old(w.files));
            && (Config(between) == config ==> AllKept(config, old(w.history), w.history) && Kept(config, w.Now()))
            && (StashTaken(second) ==>
                  (Kept(config, w.Now()) <==> Config(between) == config || Config(w.files) == config))
            && (!StashTaken(first) || first.SwapUndone? || first.RolledBack? ==> between == old(w.files))
            && (first.Deployed? ==> Config(between) == Config(one.source))
    ensures Rest(w.files) == Rest(old(w.files))
  {
    first := w.Upgrade(one.source, one.stashing, one.replacing, one.apply, one.restoring);
    between := w.files;
    ghost var after := w.history;
    second := w.Upgrade(two.source, two.stashing, two.replacing, two.apply, two.restoring);
  }

  lemma OnlyDeployedKept(s: Snapshot)
    requires s.stash == Some(Config(s.files))
    ensures forall config :: Kept(config, s) <==> Config(s.files) == config
  {
    StashIsConfig(s.files);
  }

  lemma SameFilesKept(files: Files, before: seq<Snapshot>, history: seq<Snapshot>)
    requires SameFiles(files, before, history)
    ensures AllKept(Config(files), before, history)
  {
  }

  lemma StashIsConfig(files: Files)
    ensures Config(Config(files)) == Config(files)
  {
  }

  /** What is left of config once all but todo is removed. */
  function Without(config: Files, todo: set<string>): Files {
    map n | n in config && n in todo :: config[n]
  }

  lemma TakeOne(config: Files, todo: set<string>, n: string)
    requires n in todo && todo <= config.Keys
    ensures Without(config, todo) - {n} == Without(config, todo - {n}) && n in Without(config, todo)
    ensures |todo - {n}| == |todo| - 1
  {
  }

  lemma FewerFiles(config: Files, todo: set<string>)
    requires todo <= config.Keys
    ensures |Without(config, todo)| <= |config|
  {
    FewerNames(Without(config, todo), config);
  }

  lemma FewerNames(some: Files, all: Files)
    requires some.Keys <= all.Keys
    ensures |some| <= |all|
  {
    assert all.Keys == some.Keys + (all.Keys - some.Keys);
    assert |some| == |some.Keys| && |all| == |all.Keys|;
  }

  lemma RemoveOne(files: Files, n: string)
    requires n in Config(files)
    ensures Config(files - {n}) == Config(files) - {n} && Rest(files - {n}) == Rest(files)
  {
  }

  lemma AddBack(config: Files, todo: set<string>, n: string)
    requires n in todo && n in config
    ensures (config - todo)[n := config[n]] == config - (todo - {n})
    ensures |todo - {n}| == |todo| - 1
  {
  }

  /** A copy stopped with files still to do needed more operations. */
  lemma SomeLeft(config: Files, todo: set<string>, n: string)
    requires n in todo && todo <= config.Keys
    ensures 1 <= |todo| <= |config|
  {
    assert config.Keys == todo + (config.Keys - todo);
    assert todo == {n} + (todo - {n});
  }

  lemma WriteOne(files: Files, n: string, payload: Bytes)
    requires Deployable(n)
    ensures Config(files[n := payload]) == Config(files)[n := payload] && Rest(files[n := payload]) == Rest(files)
  {
  }

  /** An upgrade whose rollback fails at once, then another: nothing on disk
      keeps the configuration from before them. */
  method StuckThenUpgradedAgain() returns (w: Workdir, config: Files)
    ensures config == map["main.tf" := [1]] && !Kept(config, w.Now())
  {
    config := map["main.tf" := [1]];
    var source: Files := map["main.tf" := [2]];
    assert "main.tf"[4..] == ".tf" && Deployable("main.tf") && HasTf(source);
    assert Config(config) == config && |config| == 1;
    assert Config(source) == source && |source| == 1 && source["main.tf"] != config["main.tf"];
    w := new Workdir(config, None);
    var plenty := Faults(9, [], map[]);
    var first := w.Upgrade(source, plenty, plenty, FailedAt("init"), Faults(0, [], map[]));
    assert first.RollbackStuck? && Config(w.files) == source;
    var second := w.Upgrade(source, plenty, plenty, FailedAt("init"), Faults(0, [], map[]));
    assert second.RollbackStuck? && Config(w.files) == source;
  }
}
