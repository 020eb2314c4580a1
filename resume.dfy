/**
 * Specification of the resumable download loop of `download_objects`.
 *
 * The loop's state is abstracted to a `Machine`: the set of paths that exist
 * on disk, the set of keys the ledger file names when loaded, the in-memory
 * ledger set and the four counters. The network transfer, `os.makedirs` and
 * every ledger save are oracles, consulted through an `Env` by record index.
 */
module Resume {
  import opened Wrappers
  import opened Storage
  import opened Ledger

  /** The four ways one file record can be classified. */
  datatype Outcome = Downloaded | SkippedExists | SkippedLogged | Failed

  /** The `stats` dictionary of a run. */
  datatype Stats = Stats(downloaded: nat, skippedExists: nat, skippedLogged: nat, failed: nat)
  {
    function Total(): nat
    {
      downloaded + skippedExists + skippedLogged + failed
    }

    /** The counters after one more record classified as `o`. */
    function Bump(o: Outcome): (s: Stats)
      ensures s.Total() == Total() + 1
      ensures o == Downloaded <==> s.downloaded == downloaded + 1
      ensures o == SkippedExists <==> s.skippedExists == skippedExists + 1
      ensures o == SkippedLogged <==> s.skippedLogged == skippedLogged + 1
      ensures o == Failed <==> s.failed == failed + 1
      ensures o != Downloaded ==> s.downloaded == downloaded
      ensures o != SkippedExists ==> s.skippedExists == skippedExists
      ensures o != SkippedLogged ==> s.skippedLogged == skippedLogged
      ensures o != Failed ==> s.failed == failed
    {
      match o
      case Downloaded => this.(downloaded := downloaded + 1)
      case SkippedExists => this.(skippedExists := skippedExists + 1)
      case SkippedLogged => this.(skippedLogged := skippedLogged + 1)
      case Failed => this.(failed := failed + 1)
    }
  }

  const NoStats := Stats(0, 0, 0, 0)

  /** The counters a run starting from zero reaches after classifying `outs`, in order. */
  function Tally(outs: seq<Outcome>): (tally: Stats)
    decreases |outs|
  {
    if outs == [] then NoStats else Tally(outs[..|outs| - 1]).Bump(outs[|outs| - 1])
  }

  /** Each classified record adds exactly one to exactly one counter. */
  lemma {:induction false} TallyTotal(outs: seq<Outcome>)
    ensures Tally(outs).Total() == |outs|
    decreases |outs|
  {
    if outs != [] {
      TallyTotal(outs[..|outs| - 1]);
    }
  }

  datatype Machine = Machine(disk: set<LocalPath>, persisted: set<string>, logged: set<string>, stats: Stats)

  /** The state at the top of `download_objects`: the ledger was just loaded and the counters are zero. */
  function Start(disk: set<LocalPath>, persisted: set<string>): (m: Machine)
  {
    Machine(disk, persisted, persisted, NoStats)
  }

  /** The oracles: which `os.makedirs` targets raise, and how the i-th record's transfer and ledger save end. */
  datatype Env = Env(mkdirFails: set<LocalPath>, transferOk: nat -> bool, save: nat -> SaveOutcome)

  /** The two errors that escape the loop. */
  datatype ExportError = MakedirsFailed(path: LocalPath) | LedgerSaveFailed(key: string)

  /**
   * What happens to the in-memory ledger when the save after a successful
   * transfer fails: the code keeps the key; the repaired variant drops it.
   */
  datatype Policy = AsWritten | DropKeyOnFailedSave

  /** The disk after `save_download_log`: its `os.makedirs(root)` ran unless the save failed before opening. */
  function SaveDisk(disk: set<LocalPath>, outcome: SaveOutcome): (after: set<LocalPath>)
  {
    if outcome == FailedBeforeOpen then disk else disk + {Root}
  }

  /** `add_to_download_log`: the key joins the in-memory set, then the whole set is saved. */
  function AddKey(m: Machine, key: string, outcome: SaveOutcome): (added: Machine)
    // the key joins the in-memory set whether or not the save succeeds; only a written save puts it in the file
    ensures added.logged == m.logged + {key} && added.stats == m.stats
    ensures key in added.persisted <==> outcome == Written || (outcome == FailedBeforeOpen && key in m.persisted)
    ensures outcome == Written ==> added.persisted == added.logged
    ensures m.disk <= added.disk
  {
    m.(logged := m.logged + {key},
       persisted := Persist(m.persisted, m.logged + {key}, outcome),
       disk := SaveDisk(m.disk, outcome))
  }

  datatype StepResult = Next(m: Machine, outcome: Outcome) | Raise(m: Machine, err: ExportError)

  /** One iteration of the loop, for the i-th file record, whose key is `key`. */
  function Step(m: Machine, key: string, i: nat, env: Env, policy: Policy): (r: StepResult)
    // counters move by one per classified record; the in-memory ledger never shrinks
    ensures r.Next? ==> r.m.stats == m.stats.Bump(r.outcome)
    ensures r.Raise? ==> r.m.stats == m.stats
    ensures m.logged <= r.m.logged
    // the ledger file never names a key the in-memory set lacks, and a successful save syncs them
    ensures m.persisted <= m.logged ==> r.m.persisted <= r.m.logged
    ensures env.save(i) == Written && m.persisted == m.logged ==> r.m.persisted == r.m.logged
    // `skipped_logged` exactly for logged keys
    ensures r.Next? ==> (r.outcome == SkippedLogged <==> key in m.logged)
    ensures key in m.logged ==> r.Next? && r.m.logged == m.logged
  {
    if key in m.logged then
      Next(m.(stats := m.stats.Bump(SkippedLogged)), SkippedLogged)
    else
      var path := Under(key);
      if path in m.disk then
        var added := AddKey(m, key, env.save(i));
        if env.save(i) == Written then Next(added.(stats := m.stats.Bump(SkippedExists)), SkippedExists)
        else Raise(added, LedgerSaveFailed(key))
      else
        var parent := ParentDir(key);
        if parent !in m.disk && parent in env.mkdirFails then
          Raise(m, MakedirsFailed(parent))
        else
          var ready := m.(disk := m.disk + {parent});
          if !env.transferOk(i) then
            Next(ready.(disk := ready.disk - {path}, stats := m.stats.Bump(Failed)), Failed)
          else
            var added := AddKey(ready.(disk := ready.disk + {path}), key, env.save(i));
            if env.save(i) == Written then
              Next(added.(stats := m.stats.Bump(Downloaded)), Downloaded)
            else
              var kept := if policy == AsWritten then added.logged else m.logged;
              Next(added.(disk := added.disk - {path}, logged := kept, stats := m.stats.Bump(Failed)), Failed)
  }

  /** A key already in the ledger: counted `skipped_logged`; disk, ledger file and in-memory set are untouched. */
  lemma StepSkipsLogged(m: Machine, key: string, i: nat, env: Env, policy: Policy)
    requires key in m.logged
    ensures Step(m, key, i, env, policy) == Next(m.(stats := m.stats.Bump(SkippedLogged)), SkippedLogged)
  {
  }

  /**
   * A key not in the ledger whose path exists: the existing file is kept and
   * the key is logged; counted `skipped_exists` when the save succeeds, and
   * otherwise the failed save escapes the loop.
   */
  lemma StepKeepsExisting(m: Machine, key: string, i: nat, env: Env, policy: Policy)
    requires key !in m.logged && Under(key) in m.disk
    ensures var r := Step(m, key, i, env, policy);
            m.disk <= r.m.disk && r.m.logged == m.logged + {key} &&
            (r.Next? <==> env.save(i) == Written) &&
            (r.Next? ==> r.outcome == SkippedExists && r.m.persisted == r.m.logged) &&
            (r.Raise? ==> r.err == LedgerSaveFailed(key))
  {
  }

  /** A download: the file now exists, the key is in the in-memory set and in the ledger file. */
  lemma StepDownloaded(m: Machine, key: string, i: nat, env: Env, policy: Policy)
    requires Step(m, key, i, env, policy).Next? && Step(m, key, i, env, policy).outcome == Downloaded
    ensures var r := Step(m, key, i, env, policy);
            key !in m.logged && Under(key) !in m.disk &&
            env.transferOk(i) && env.save(i) == Written &&
            r.m.disk == m.disk + {ParentDir(key), Under(key), Root} &&
            r.m.logged == m.logged + {key} && r.m.persisted == r.m.logged
  {
  }

  /**
   * A failure: no file is left at the key's path, the loop goes on, and the
   * key stays out of the ledger unless the failure was the save after a
   * completed transfer (where the code as written keeps it in memory).
   */
  lemma StepFailed(m: Machine, key: string, i: nat, env: Env, policy: Policy)
    requires Step(m, key, i, env, policy).Next? && Step(m, key, i, env, policy).outcome == Failed
    ensures var r := Step(m, key, i, env, policy);
            key !in m.logged && Under(key) !in m.disk && Under(key) !in r.m.disk &&
            (m.persisted <= m.logged ==> key !in r.m.persisted) &&
            (r.m.logged == m.logged ||
             (policy == AsWritten && env.transferOk(i) && env.save(i) != Written && r.m.logged == m.logged + {key}))
  {
  }

  /**
   * A failed transfer is counted `failed` and never stops the loop; an error
   * escapes only from the parent directory's makedirs (changing nothing) or
   * from the ledger save for an already existing file.
   */
  lemma StepEscapes(m: Machine, key: string, i: nat, env: Env, policy: Policy)
    ensures var r := Step(m, key, i, env, policy);
            (key !in m.logged && Under(key) !in m.disk && !env.transferOk(i) && r.Next? ==> r.outcome == Failed) &&
            (r.Raise? && r.err.MakedirsFailed? ==>
               r.m == m && r.err.path == ParentDir(key) &&
               r.err.path in env.mkdirFails && r.err.path !in m.disk) &&
            (r.Raise? && r.err.LedgerSaveFailed? ==> r.err.key == key && Under(key) in m.disk)
  {
  }

  datatype RunResult = Finished(m: Machine, outcomes: seq<Outcome>) | Stopped(m: Machine, err: ExportError)

  /**
   * The state after the loop has handled the first n records of `files`
   * (or the state in which an escaping error stopped it).
   */
  function Run(m0: Machine, files: seq<ObjectRecord>, n: nat, env: Env, policy: Policy): (r: RunResult)
    requires n <= |files|
    ensures r.Finished? ==> |r.outcomes| == n
    ensures m0.logged <= r.m.logged
    ensures m0.persisted <= m0.logged ==> r.m.persisted <= r.m.logged
    decreases n
  {
    if n == 0 then Finished(m0, [])
    else
      match Run(m0, files, n - 1, env, policy)
      case Stopped(m, e) => Stopped(m, e)
      case Finished(m, outs) =>
        match Step(m, files[n - 1].key, n - 1, env, policy)
        case Next(m', o) => Finished(m', outs + [o])
        case Raise(m', e) => Stopped(m', e)
  }

  /** One more iteration from a boundary the run reached: it finishes with the step's outcome, or stops with its error. */
  lemma RunExtends(m0: Machine, files: seq<ObjectRecord>, n: nat, env: Env, policy: Policy, m: Machine, outs: seq<Outcome>)
    requires n < |files|
    requires Run(m0, files, n, env, policy) == Finished(m, outs)
    ensures var s := Step(m, files[n].key, n, env, policy);
            Run(m0, files, n + 1, env, policy) ==
            (if s.Next? then Finished(s.m, outs + [s.outcome]) else Stopped(s.m, s.err))
  {
  }

  /** Once an error has escaped, later records change nothing. */
  lemma {:induction false} StoppedStaysStopped(m0: Machine, files: seq<ObjectRecord>, n: nat, n2: nat, env: Env, policy: Policy)
    requires n <= n2 <= |files|
    requires Run(m0, files, n, env, policy).Stopped?
    ensures Run(m0, files, n2, env, policy) == Run(m0, files, n, env, policy)
    decreases n2
  {
    if n < n2 {
      StoppedStaysStopped(m0, files, n, n2 - 1, env, policy);
    }
  }

  /** Counters: a run from zero counts exactly the classified records, one outcome per record. */
  lemma {:induction false} RunTallies(m0: Machine, files: seq<ObjectRecord>, n: nat, env: Env, policy: Policy)
    requires n <= |files|
    requires m0.stats == NoStats
    requires Run(m0, files, n, env, policy).Finished?
    ensures Run(m0, files, n, env, policy).m.stats == Tally(Run(m0, files, n, env, policy).outcomes)
    ensures Run(m0, files, n, env, policy).m.stats.Total() == n
    decreases n
  {
    if n > 0 {
      RunTallies(m0, files, n - 1, env, policy);
      var prev := Run(m0, files, n - 1, env, policy);
      var s := Step(prev.m, files[n - 1].key, n - 1, env, policy);
      var outs := prev.outcomes + [s.outcome];
      assert Run(m0, files, n, env, policy) == Finished(s.m, outs);
      assert outs[..n - 1] == prev.outcomes;
    }
    TallyTotal(Run(m0, files, n, env, policy).outcomes);
  }

  /** The in-memory ledger only grows from one iteration boundary to a later one. */
  lemma {:induction false} LedgerGrows(m0: Machine, files: seq<ObjectRecord>, n1: nat, n2: nat, env: Env, policy: Policy)
    requires n1 <= n2 <= |files|
    ensures Run(m0, files, n1, env, policy).m.logged <= Run(m0, files, n2, env, policy).m.logged
    decreases n2
  {
    if n1 < n2 {
      LedgerGrows(m0, files, n1, n2 - 1, env, policy);
      RunStepGrows(m0, files, n2, env, policy);
    }
  }

  /** One iteration never removes a key from the in-memory ledger, nor a path from the disk. */
  lemma RunStepGrows(m0: Machine, files: seq<ObjectRecord>, n: nat, env: Env, policy: Policy)
    requires 0 < n <= |files|
    ensures Run(m0, files, n - 1, env, policy).m.logged <= Run(m0, files, n, env, policy).m.logged
    ensures Run(m0, files, n - 1, env, policy).m.disk <= Run(m0, files, n, env, policy).m.disk
  {
    var prev := Run(m0, files, n - 1, env, policy);
    if prev.Finished? {
      StepKeepsDisk(prev.m, files[n - 1].key, n - 1, env, policy);
    }
  }

  /** While every save succeeds, the ledger file names exactly the in-memory set at every iteration boundary. */
  lemma {:induction false} LedgerStaysSynced(m0: Machine, files: seq<ObjectRecord>, n: nat, env: Env, policy: Policy)
    requires n <= |files|
    requires m0.persisted == m0.logged
    requires forall j :: 0 <= j < n ==> env.save(j) == Written
    ensures Run(m0, files, n, env, policy).m.persisted == Run(m0, files, n, env, policy).m.logged
    decreases n
  {
    if n > 0 {
      LedgerStaysSynced(m0, files, n - 1, env, policy);
    }
  }

  /** One iteration never removes a path that existed before it: only a file it created itself is removed. */
  lemma StepKeepsDisk(m: Machine, key: string, i: nat, env: Env, policy: Policy)
    ensures m.disk <= Step(m, key, i, env, policy).m.disk
  {
  }

  /** The disk only grows from one iteration boundary to a later one. */
  lemma {:induction false} DiskGrows(m0: Machine, files: seq<ObjectRecord>, n1: nat, n2: nat, env: Env, policy: Policy)
    requires n1 <= n2 <= |files|
    ensures Run(m0, files, n1, env, policy).m.disk <= Run(m0, files, n2, env, policy).m.disk
    decreases n2
  {
    if n1 < n2 {
      DiskGrows(m0, files, n1, n2 - 1, env, policy);
      RunStepGrows(m0, files, n2, env, policy);
    }
  }

  /** A record reported downloaded still has its file at the end of the run, and its key in the ledger. */
  lemma DownloadedFileStays(m0: Machine, files: seq<ObjectRecord>, n: nat, env: Env, policy: Policy, j: nat)
    requires j < n <= |files|
    requires Run(m0, files, n, env, policy).Finished?
    requires Run(m0, files, n, env, policy).outcomes[j] == Downloaded
    ensures Under(files[j].key) in Run(m0, files, n, env, policy).m.disk
    ensures files[j].key in Run(m0, files, n, env, policy).m.logged
  {
    PrefixOutcomes(m0, files, j, n, env, policy);
    PrefixOutcomes(m0, files, j + 1, n, env, policy);
    var prev := Run(m0, files, j, env, policy);
    RunExtends(m0, files, j, env, policy, prev.m, prev.outcomes);
    StepDownloaded(prev.m, files[j].key, j, env, policy);
    DiskGrows(m0, files, j + 1, n, env, policy);
    LedgerGrows(m0, files, j + 1, n, env, policy);
  }

  /** The outcomes of a finished run start with the outcomes of each shorter run. */
  lemma {:induction false} PrefixOutcomes(m0: Machine, files: seq<ObjectRecord>, n1: nat, n2: nat, env: Env, policy: Policy)
    requires n1 <= n2 <= |files|
    requires Run(m0, files, n2, env, policy).Finished?
    ensures Run(m0, files, n1, env, policy).Finished?
    ensures Run(m0, files, n2, env, policy).outcomes[..n1] == Run(m0, files, n1, env, policy).outcomes
    decreases n2
  {
    if n1 < n2 {
      var prev := Run(m0, files, n2 - 1, env, policy);
      RunExtends(m0, files, n2 - 1, env, policy, prev.m, prev.outcomes);
      PrefixOutcomes(m0, files, n1, n2 - 1, env, policy);
      var outs := Run(m0, files, n2, env, policy).outcomes;
      assert outs[..n2 - 1] == prev.outcomes;
      assert outs[..n1] == outs[..n2 - 1][..n1];
    } else {
      assert Run(m0, files, n2, env, policy).outcomes[..n1] == Run(m0, files, n2, env, policy).outcomes;
    }
  }

  /**
   * A file key equal to a directory marker without its trailing '/' names
   * the marker's directory: once that directory exists the file is never
   * transferred, but counted as existing and logged.
   */
  lemma MarkerShadowsFile(m: Machine, key: string, i: nat, env: Env, policy: Policy)
    requires key != [] && key[|key| - 1] != '/'
    requires key !in m.logged && DirPath(key + "/") in m.disk
    requires env.save(i) == Written
    ensures Step(m, key, i, env, policy) == Next(AddKey(m, key, Written).(stats := m.stats.Bump(SkippedExists)), SkippedExists)
  {
    assert StripTrailingSeps(key + "/") == StripTrailingSeps((key + "/")[..|key|]);
    assert (key + "/")[..|key|] == key;
  }

  /** The keys a run adds to the ledger: those of records classified downloaded or skipped as existing. */
  function Completed(files: seq<ObjectRecord>, outs: seq<Outcome>): (keys: set<string>)
    requires |outs| <= |files|
    decreases |outs|
  {
    if outs == [] then {}
    else
      var n := |outs| - 1;
      Completed(files, outs[..n]) + (if outs[n] == Downloaded || outs[n] == SkippedExists then {files[n].key} else {})
  }

  /**
   * Durability: when every save succeeds, the ledger reloaded at any
   * iteration boundary names exactly the keys it started with plus the keys
   * reported downloaded or skipped as existing, no more and no less.
   */
  lemma {:induction false} LedgerExact(m0: Machine, files: seq<ObjectRecord>, n: nat, env: Env, policy: Policy)
    requires n <= |files|
    requires m0.persisted == m0.logged
    requires forall j :: 0 <= j < n ==> env.save(j) == Written
    requires Run(m0, files, n, env, policy).Finished?
    ensures Run(m0, files, n, env, policy).m.persisted ==
            m0.logged + Completed(files, Run(m0, files, n, env, policy).outcomes)
    decreases n
  {
    LedgerStaysSynced(m0, files, n, env, policy);
    if n > 0 {
      RunStepLogs(m0, files, n, env, policy);
      LedgerExact(m0, files, n - 1, env, policy);
      LedgerStaysSynced(m0, files, n - 1, env, policy);
    }
  }

  /** One more iteration with a successful save logs its key exactly when it downloads or skips as existing. */
  lemma RunStepLogs(m0: Machine, files: seq<ObjectRecord>, n: nat, env: Env, policy: Policy)
    requires 0 < n <= |files|
    requires env.save(n - 1) == Written
    requires Run(m0, files, n, env, policy).Finished?
    ensures var prev := Run(m0, files, n - 1, env, policy);
            var r := Run(m0, files, n, env, policy);
            var o := r.outcomes[n - 1];
            prev.Finished? && r.outcomes[..n - 1] == prev.outcomes &&
            r.m.logged == prev.m.logged + (if o == Downloaded || o == SkippedExists then {files[n - 1].key} else {})
  {
    var prev := Run(m0, files, n - 1, env, policy);
    StepLogsCompleted(prev.m, files[n - 1].key, n - 1, env, policy);
    var s := Step(prev.m, files[n - 1].key, n - 1, env, policy);
    assert (prev.outcomes + [s.outcome])[..n - 1] == prev.outcomes;
  }

  /** With a successful save, one iteration adds its key to the ledger exactly when it downloads or skips as existing. */
  lemma StepLogsCompleted(m: Machine, key: string, i: nat, env: Env, policy: Policy)
    requires env.save(i) == Written
    requires Step(m, key, i, env, policy).Next?
    ensures var r := Step(m, key, i, env, policy);
            r.m.logged == m.logged + (if r.outcome == Downloaded || r.outcome == SkippedExists then {key} else {})
  {
  }

  /** A record whose key was logged when the run started is classified `skipped_logged`. */
  lemma {:induction false} LoggedKeySkipped(m0: Machine, files: seq<ObjectRecord>, n: nat, env: Env, policy: Policy, j: nat)
    requires j < n <= |files|
    requires Run(m0, files, n, env, policy).Finished?
    requires files[j].key in m0.logged
    ensures Run(m0, files, n, env, policy).outcomes[j] == SkippedLogged
    decreases n
  {
    var prev := Run(m0, files, n - 1, env, policy);
    if j < n - 1 {
      LoggedKeySkipped(m0, files, n - 1, env, policy, j);
    }
  }

  /** Every record not classified `failed` has its key in the in-memory ledger at the end. */
  lemma {:induction false} CompletedKeyLogged(m0: Machine, files: seq<ObjectRecord>, n: nat, env: Env, policy: Policy, j: nat)
    requires j < n <= |files|
    requires Run(m0, files, n, env, policy).Finished?
    requires Run(m0, files, n, env, policy).outcomes[j] != Failed
    ensures files[j].key in Run(m0, files, n, env, policy).m.logged
    decreases n
  {
    if j < n - 1 {
      CompletedKeyLogged(m0, files, n - 1, env, policy, j);
    }
  }

  /** A run over records whose keys are all logged skips each of them and touches nothing else. */
  lemma {:induction false} AllLoggedRun(m: Machine, files: seq<ObjectRecord>, n: nat, env: Env, policy: Policy)
    requires n <= |files|
    requires forall j :: 0 <= j < n ==> files[j].key in m.logged
    ensures Run(m, files, n, env, policy) ==
            Finished(m.(stats := m.stats.(skippedLogged := m.stats.skippedLogged + n)), seq(n, _ => SkippedLogged))
    decreases n
  {
    if n > 0 {
      AllLoggedRun(m, files, n - 1, env, policy);
      assert seq(n - 1, _ => SkippedLogged) + [SkippedLogged] == seq(n, _ => SkippedLogged);
    }
  }

  /**
   * Resumption: after a run stopped at any boundary `n` (by an interrupt, or
   * at the end) in which every save succeeded, a later run that reloads the
   * ledger classifies every record the first run downloaded or skipped
   * (whatever the disk and the oracles are then) as `skipped_logged`.
   */
  lemma ResumedRunSkipsCompleted(disk0: set<LocalPath>, persisted0: set<string>, files: seq<ObjectRecord>, n: nat,
                                 env: Env, policy1: Policy, disk1: set<LocalPath>, env2: Env, policy: Policy, j: nat)
    requires j < n <= |files|
    requires forall i :: 0 <= i < n ==> env.save(i) == Written
    requires Run(Start(disk0, persisted0), files, n, env, policy1).Finished?
    requires Run(Start(disk0, persisted0), files, n, env, policy1).outcomes[j] != Failed
    requires Run(Start(disk1, Run(Start(disk0, persisted0), files, n, env, policy1).m.persisted),
                 files, |files|, env2, policy).Finished?
    ensures Run(Start(disk1, Run(Start(disk0, persisted0), files, n, env, policy1).m.persisted),
                files, |files|, env2, policy).outcomes[j] == SkippedLogged
  {
    var m0 := Start(disk0, persisted0);
    CompletedKeyLogged(m0, files, n, env, policy1, j);
    LedgerStaysSynced(m0, files, n, env, policy1);
    var m1 := Run(m0, files, n, env, policy1).m;
    LoggedKeySkipped(Start(disk1, m1.persisted), files, |files|, env2, policy, j);
  }

  /**
   * Idempotence: after a run with no failure, a second run over the same
   * records downloads nothing, counts every record `skipped_logged`, and
   * leaves the disk and the ledger file as they were.
   */
  lemma SecondRunSkipsAll(disk0: set<LocalPath>, persisted0: set<string>, files: seq<ObjectRecord>,
                          env: Env, env2: Env, policy: Policy)
    requires forall i :: 0 <= i < |files| ==> env.save(i) == Written
    requires Run(Start(disk0, persisted0), files, |files|, env, AsWritten).Finished?
    requires Failed !in Run(Start(disk0, persisted0), files, |files|, env, AsWritten).outcomes
    ensures var m1 := Run(Start(disk0, persisted0), files, |files|, env, AsWritten).m;
            Run(Start(m1.disk, m1.persisted), files, |files|, env2, policy) ==
            Finished(Machine(m1.disk, m1.persisted, m1.persisted, Stats(0, 0, |files|, 0)), seq(|files|, _ => SkippedLogged))
  {
    var m0 := Start(disk0, persisted0);
    var first := Run(m0, files, |files|, env, AsWritten);
    LedgerStaysSynced(m0, files, |files|, env, AsWritten);
    var m1 := first.m;
    forall j | 0 <= j < |files| ensures files[j].key in m1.persisted {
      assert first.outcomes[j] in first.outcomes;
      CompletedKeyLogged(m0, files, |files|, env, AsWritten, j);
    }
    var again := Start(m1.disk, m1.persisted);
    AllLoggedRun(again, files, |files|, env2, policy);
    assert again.stats == Stats(0, 0, 0, 0);
    var st := again.stats.(skippedLogged := again.stats.skippedLogged + |files|);
    assert st == Stats(0, 0, |files|, 0);
    assert again.(stats := st) == Machine(m1.disk, m1.persisted, m1.persisted, Stats(0, 0, |files|, 0));
  }

  /**
   * What the ledger should guarantee: the ledger file names only keys that
   * it started with or whose file is on disk.
   */
  ghost predicate LedgerBacked(m0: Machine, m: Machine)
  {
    m.persisted <= m.logged &&
    forall k :: k in m.logged ==> k in m0.logged || Under(k) in m.disk
  }

  /** With the key dropped after a failed save, one iteration keeps the ledger backed by files. */
  lemma RepairedStepBacked(m0: Machine, m: Machine, key: string, i: nat, env: Env)
    requires LedgerBacked(m0, m)
    ensures LedgerBacked(m0, Step(m, key, i, env, DropKeyOnFailedSave).m)
  {
  }

  /** The repaired loop never persists a key whose file is missing, whatever the oracles do. */
  lemma {:induction false} RepairedLedgerBacked(m0: Machine, files: seq<ObjectRecord>, n: nat, env: Env)
    requires n <= |files|
    requires m0.persisted <= m0.logged
    ensures LedgerBacked(m0, Run(m0, files, n, env, DropKeyOnFailedSave).m)
    decreases n
  {
    if n > 0 {
      RepairedLedgerBacked(m0, files, n - 1, env);
      var prev := Run(m0, files, n - 1, env, DropKeyOnFailedSave);
      if prev.Finished? {
        RepairedStepBacked(m0, prev.m, files[n - 1].key, n - 1, env);
      }
    }
  }

  /**
   * From a start where every logged key has its file, the corrected loop
   * never leaves the ledger file naming a key whose file is missing.
   */
  lemma RepairedLedgerHasFiles(m0: Machine, files: seq<ObjectRecord>, n: nat, env: Env)
    requires n <= |files|
    requires m0.persisted <= m0.logged
    requires forall k :: k in m0.logged ==> Under(k) in m0.disk
    ensures var m := Run(m0, files, n, env, DropKeyOnFailedSave).m;
            forall k :: k in m.persisted ==> Under(k) in m.disk
  {
    RepairedLedgerBacked(m0, files, n, env);
    DiskGrows(m0, files, 0, n, env, DropKeyOnFailedSave);
  }

  /**
   * What a `KeyboardInterrupt` inside `download_fileobj` leaves: the parent
   * directory and the opened, partly written file exist; the ledger file and
   * the in-memory set are untouched, and the run ends (the interrupt is not
   * an `Exception`, so the handler that removes partial files is skipped).
   */
  function InterruptedTransfer(m: Machine, key: string): (left: Machine)
    ensures Under(key) in left.disk && m.disk <= left.disk
    ensures left.persisted == m.persisted && left.logged == m.logged
  {
    m.(disk := m.disk + {ParentDir(key), Under(key)})
  }

  /** The repaired interrupt: the partial file is removed, as a failed transfer's is. */
  function CleanedInterrupt(m: Machine, key: string): (left: Machine)
    ensures Under(key) !in left.disk && m.disk - {Under(key)} <= left.disk
    ensures left.persisted == m.persisted && left.logged == m.logged
  {
    m.(disk := (m.disk + {ParentDir(key)}) - {Under(key)})
  }

  /**
   * As written, the rerun after an interrupted transfer finds the partial
   * file, counts it `skipped_exists` and writes its key to the ledger: an
   * incomplete file is accepted as downloaded without ever being transferred.
   */
  lemma InterruptedFileAccepted(m: Machine, key: string, i: nat, env: Env, policy: Policy)
    requires key !in m.persisted
    requires env.save(i) == Written
    ensures var left := InterruptedTransfer(m, key);
            var r := Step(Start(left.disk, left.persisted), key, i, env, policy);
            r.Next? && r.outcome == SkippedExists && key in r.m.persisted
  {
    var left := InterruptedTransfer(m, key);
    StepKeepsExisting(Start(left.disk, left.persisted), key, i, env, policy);
  }

  /**
   * With the partial file removed, the rerun puts the key in the ledger only
   * by transferring it again.
   */
  lemma CleanedInterruptRefetches(m: Machine, key: string, i: nat, env: Env, policy: Policy)
    requires key !in m.persisted
    ensures var left := CleanedInterrupt(m, key);
            var r := Step(Start(left.disk, left.persisted), key, i, env, policy);
            (r.Next? ==> r.outcome == Downloaded || r.outcome == Failed) &&
            (key in r.m.persisted ==> r.Next? && r.outcome == Downloaded && env.transferOk(i))
  {
    var left := CleanedInterrupt(m, key);
    AbsentKeyRefetched(Start(left.disk, left.persisted), key, i, env, policy);
  }

  /** An unlogged key whose file is absent reaches the ledger file only through a completed transfer. */
  lemma AbsentKeyRefetched(m: Machine, key: string, i: nat, env: Env, policy: Policy)
    requires key !in m.logged && Under(key) !in m.disk && m.persisted <= m.logged
    ensures var r := Step(m, key, i, env, policy);
            (r.Next? ==> r.outcome == Downloaded || r.outcome == Failed) &&
            (key in r.m.persisted ==> r.Next? && r.outcome == Downloaded && env.transferOk(i))
  {
    var r := Step(m, key, i, env, policy);
    if r.Next? && r.outcome == Failed {
      StepFailed(m, key, i, env, policy);
    }
  }

  /** Oracles under which the first save fails before opening the file and the second succeeds. */
  function FirstSaveFails(): Env
  {
    Env({}, _ => true, j => if j == 0 then FailedBeforeOpen else Written)
  }

  /**
   * The loop as written: "a" is transferred but its save fails, so its file
   * is removed while the key stays in memory; the successful save for "b"
   * then writes "a" into the ledger file although no file backs it.
   */
  lemma AsWrittenPersistsMissingFile()
    ensures var r := Run(Start({Root}, {}), [ObjectRecord("a"), ObjectRecord("b")], 2, FirstSaveFails(), AsWritten);
            r.Finished? && r.outcomes == [Failed, Downloaded] &&
            "a" in r.m.persisted && Under("a") !in r.m.disk &&
            !LedgerBacked(Start({Root}, {}), r.m)
  {
    SaveFailureLeaksKey(Start({Root}, {}), FirstSaveFails());
  }

  /** The same two records from any empty ledger and bare root, under any oracles that fail only the first save. */
  lemma SaveFailureLeaksKey(m0: Machine, env: Env)
    requires m0.disk == {Root} && m0.logged == {}
    requires env.transferOk(0) && env.transferOk(1)
    requires env.save(0) == FailedBeforeOpen && env.save(1) == Written
    ensures var r := Run(m0, [ObjectRecord("a"), ObjectRecord("b")], 2, env, AsWritten);
            r.Finished? && r.outcomes == [Failed, Downloaded] &&
            "a" in r.m.persisted && Under("a") !in r.m.disk &&
            !LedgerBacked(m0, r.m)
  {
    var files := [ObjectRecord("a"), ObjectRecord("b")];
    assert ParentDir("a") == Root;
    assert ParentDir("b") == Root;
    var s1 := Step(m0, "a", 0, env, AsWritten);
    assert s1.Next? && s1.outcome == Failed;
    assert Run(m0, files, 1, env, AsWritten) == Finished(s1.m, [Failed]);
    var s2 := Step(s1.m, "b", 1, env, AsWritten);
    assert s2.Next? && s2.outcome == Downloaded;
    assert Run(m0, files, 2, env, AsWritten) == Finished(s2.m, [Failed, Downloaded]);
  }
}
