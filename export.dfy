/**
 * `export.py` as the operations it performs on the export directory. The
 * directory (which paths exist, and what the ledger file holds) is an object
 * whose fields the operations update in place; the in-memory ledger set and
 * the counters, locals of `download_objects`, are passed in and returned.
 */
module Export {
  import opened Wrappers
  import opened Storage
  import opened Ledger
  import opened Directories
  import opened Resume

  class ExportDir {
    /** The paths below the export root that exist. */
    var disk: set<LocalPath>
    /** The ledger file `<root>/download_log.json`, `None` when absent or unreadable. */
    var ledgerFile: Option<LedgerDoc>

    constructor (disk0: set<LocalPath>, ledger0: Option<LedgerDoc>)
      ensures disk == disk0 && ledgerFile == ledger0
    {
      disk := disk0;
      ledgerFile := ledger0;
    }

    /** The loop's abstract state, given the in-memory ledger and the counters. */
    ghost function State(logged: set<string>, stats: Stats): Machine
      reads this
    {
      Machine(disk, LoadLedger(ledgerFile), logged, stats)
    }

    /** `get_download_log`: an absent or unreadable file, or one without the field, gives the empty set. */
    method GetDownloadLog() returns (loaded: set<string>)
      ensures loaded == LoadLedger(ledgerFile)
    {
      loaded := {};
      if ledgerFile.Some? && ledgerFile.value.downloadedFiles.Some? {
        var keys := ledgerFile.value.downloadedFiles.value;
        loaded := set k | k in keys;
      }
    }

    /**
     * `save_download_log`: make the root, then rewrite the file with the
     * set listed in some order. `outcome` says whether the makedirs or the
     * open raised (nothing is rewritten) or the write raised half-way (the
     * file no longer parses).
     */
    method SaveDownloadLog(keys: set<string>, outcome: SaveOutcome) returns (saved: bool)
      modifies this
      ensures saved <==> outcome == Written
      ensures disk == SaveDisk(old(disk), outcome)
      ensures LoadLedger(ledgerFile) == Persist(old(LoadLedger(ledgerFile)), keys, outcome)
    {
      if outcome == FailedBeforeOpen {
        return false;
      }
      disk := disk + {Root};
      if outcome == FailedMidWrite {
        ledgerFile := None;
        return false;
      }
      var listing := ListOf(keys);
      SaveLoadRoundTrip(keys, listing);
      ledgerFile := Some(LedgerDoc(Some(listing)));
      saved := true;
    }

    /** `add_to_download_log`: the key joins the caller's set before the save, whether or not the save succeeds. */
    method AddToDownloadLog(key: string, downloaded: set<string>, outcome: SaveOutcome) returns (logged: set<string>, saved: bool)
      modifies this
      ensures logged == downloaded + {key}
      ensures saved <==> outcome == Written
      ensures disk == SaveDisk(old(disk), outcome)
      ensures LoadLedger(ledgerFile) == Persist(old(LoadLedger(ledgerFile)), logged, outcome)
    {
      logged := downloaded + {key};
      saved := SaveDownloadLog(logged, outcome);
    }

    /** `create_directories`: the root, then each marker's directory, until a makedirs raises. */
    method CreateDirectories(directories: seq<ObjectRecord>, fails: set<LocalPath>) returns (err: Option<LocalPath>)
      modifies this
      ensures DirResult(disk, err) == CreateAll(old(disk), DirTargets(directories), fails)
      ensures ledgerFile == old(ledgerFile)
    {
      ghost var targets := DirTargets(directories);
      if Root !in disk && Root in fails {
        return Some(Root);
      }
      disk := disk + {Root};
      for j := 0 to |directories|
        invariant CreateAll(old(disk), targets, fails) == CreateAll(disk, targets[j + 1..], fails)
        invariant ledgerFile == old(ledgerFile)
      {
        var path := DirPath(directories[j].key);
        assert targets[j + 1..][0] == path && targets[j + 1..][1..] == targets[j + 2..];
        if path !in disk && path in fails {
          return Some(path);
        }
        disk := disk + {path};
      }
      err := None;
    }

    /**
     * One iteration of the `download_objects` loop for the i-th record. An
     * error that escapes the loop is returned as `Failure`.
     */
    method ProcessRecord(key: string, i: nat, env: Env, policy: Policy, downloaded: set<string>, stats: Stats)
      returns (logged: set<string>, counted: Stats, r: Result<Outcome, ExportError>)
      modifies this
      ensures var s := Step(old(State(downloaded, stats)), key, i, env, policy);
              State(logged, counted) == s.m &&
              (r.Success? <==> s.Next?) &&
              (r.Success? ==> r.value == s.outcome) &&
              (r.Failure? ==> r.error == s.err)
    {
      logged, counted := downloaded, stats;
      if key in downloaded {
        counted := stats.Bump(SkippedLogged);
        return logged, counted, Success(SkippedLogged);
      }
      var path := Under(key);
      if path in disk {
        var saved;
        logged, saved := AddToDownloadLog(key, downloaded, env.save(i));
        if !saved {
          return logged, counted, Failure(LedgerSaveFailed(key));
        }
        counted := stats.Bump(SkippedExists);
        return logged, counted, Success(SkippedExists);
      }
      var parent := ParentDir(key);
      if parent !in disk && parent in env.mkdirFails {
        return logged, counted, Failure(MakedirsFailed(parent));
      }
      disk := disk + {parent};
      // opening the file for writing creates it; a failed transfer removes it again
      disk := disk + {path};
      if !env.transferOk(i) {
        disk := disk - {path};
        counted := stats.Bump(Failed);
        return logged, counted, Success(Failed);
      }
      var saved;
      logged, saved := AddToDownloadLog(key, downloaded, env.save(i));
      if saved {
        counted := stats.Bump(Downloaded);
        return logged, counted, Success(Downloaded);
      }
      disk := disk - {path};
      if policy == DropKeyOnFailedSave {
        logged := downloaded;
      }
      counted := stats.Bump(Failed);
      r := Success(Failed);
    }

    /**
     * `download_objects`: load the ledger, classify every record in order,
     * and return the counters, unless an error escapes the loop first.
     */
    method DownloadObjects(files: seq<ObjectRecord>, env: Env, policy: Policy) returns (r: Result<Stats, ExportError>)
      modifies this
      ensures var run := Run(Start(old(disk), old(LoadLedger(ledgerFile))), files, |files|, env, policy);
              disk == run.m.disk && LoadLedger(ledgerFile) == run.m.persisted &&
              (r.Success? <==> run.Finished?) &&
              (r.Success? ==> r.value == run.m.stats) &&
              (r.Failure? ==> r.error == run.err)
    {
      var downloaded := GetDownloadLog();
      var stats := NoStats;
      ghost var m0 := State(downloaded, stats);
      ghost var outs: seq<Outcome> := [];
      for i := 0 to |files|
        invariant Run(m0, files, i, env, policy) == Finished(State(downloaded, stats), outs)
      {
        RunExtends(m0, files, i, env, policy, State(downloaded, stats), outs);
        var o;
        downloaded, stats, o := ProcessRecord(files[i].key, i, env, policy, downloaded, stats);
        if o.Failure? {
          StoppedStaysStopped(m0, files, i + 1, |files|, env, policy);
          return Failure(o.error);
        }
        outs := outs + [o.value];
      }
      r := Success(stats);
    }
  }
}
