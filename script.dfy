/**
 * `init_script`: list the bucket, split the listing into files and
 * directory markers, create the directories, then download the files. Its
 * broad `except Exception` turns every escaping error into a logged message;
 * here each way the script can end is a `ScriptEnd` value.
 */
module Script {
  import opened Wrappers
  import opened Storage
  import opened Ledger
  import opened Fetch
  import opened Classify
  import opened Directories
  import opened Resume
  import opened Export

  datatype ScriptEnd =
    | Summary(stats: Stats)             // the download summary is logged
    | ListingUnfinished                 // the listing loop was still running when its budget ran out
    | KeyIndexError                     // an empty key made `Key[-1]` raise
    | DirectoryFailed(path: LocalPath)  // a makedirs in `create_directories` raised
    | DownloadAborted(err: ExportError) // an error escaped `download_objects`

  /** The disk and the ledger's keys after the script, and how it ended. */
  datatype ScriptState = ScriptState(disk: set<LocalPath>, persisted: set<string>, end: ScriptEnd)

  /** The whole script, from the disk and the ledger's keys before it runs. */
  function RunScript(disk: set<LocalPath>, persisted: set<string>, service: Option<string> -> Page, fuel: nat,
                     env: Env, policy: Policy): (r: ScriptState)
    ensures r.end.ListingUnfinished? || r.end.KeyIndexError? ==> r.disk == disk && r.persisted == persisted
    ensures r.end.DirectoryFailed? ==> r.persisted == persisted && r.end.path in env.mkdirFails && r.end.path !in r.disk
  {
    match Listing(service, fuel)
    case None => ScriptState(disk, persisted, ListingUnfinished)
    case Some(objects) =>
      match SplitListing(objects)
      case None => ScriptState(disk, persisted, KeyIndexError)
      case Some(split) =>
        var made := CreateAll(disk, DirTargets(split.directories), env.mkdirFails);
        if made.err.Some? then ScriptState(made.disk, persisted, DirectoryFailed(made.err.value))
        else
          var run := Run(Start(made.disk, persisted), split.files, |split.files|, env, policy);
          ScriptState(run.m.disk, run.m.persisted, if run.Finished? then Summary(run.m.stats) else DownloadAborted(run.err))
  }

  /**
   * The summary's "Total processed", the number of file records, is the sum
   * of its four counters: every file is counted exactly once.
   */
  lemma SummaryCountsEveryFile(disk: set<LocalPath>, persisted: set<string>, service: Option<string> -> Page, fuel: nat,
                               env: Env, policy: Policy)
    requires RunScript(disk, persisted, service, fuel, env, policy).end.Summary?
    ensures Listing(service, fuel).Some? && SplitListing(Listing(service, fuel).value).Some?
    ensures RunScript(disk, persisted, service, fuel, env, policy).end.stats.Total() ==
            |SplitListing(Listing(service, fuel).value).value.files|
  {
    var split := SplitListing(Listing(service, fuel).value).value;
    var made := CreateAll(disk, DirTargets(split.directories), env.mkdirFails);
    RunTallies(Start(made.disk, persisted), split.files, |split.files|, env, policy);
  }

  /**
   * When the script reaches the download, every directory marker's
   * directory exists before the first file is fetched.
   */
  lemma MarkersMadeBeforeDownload(disk: set<LocalPath>, persisted: set<string>, service: Option<string> -> Page, fuel: nat,
                                  env: Env, policy: Policy, j: nat)
    requires RunScript(disk, persisted, service, fuel, env, policy).end.Summary? ||
             RunScript(disk, persisted, service, fuel, env, policy).end.DownloadAborted?
    ensures Listing(service, fuel).Some? && SplitListing(Listing(service, fuel).value).Some?
    ensures var split := SplitListing(Listing(service, fuel).value).value;
            var made := CreateAll(disk, DirTargets(split.directories), env.mkdirFails);
            made.err.None? && Root in made.disk &&
            (j < |split.directories| ==> DirPath(split.directories[j].key) in made.disk)
  {
    var split := SplitListing(Listing(service, fuel).value).value;
    if j < |split.directories| {
      MarkerDirsExist(disk, split.directories, env.mkdirFails, j);
    }
  }

  /** `init_script`, acting on the export directory `dir`. */
  method InitScript(dir: ExportDir, service: Option<string> -> Page, fuel: nat, env: Env, policy: Policy)
    returns (end: ScriptEnd)
    modifies dir
    ensures ScriptState(dir.disk, LoadLedger(dir.ledgerFile), end) ==
            RunScript(old(dir.disk), old(LoadLedger(dir.ledgerFile)), service, fuel, env, policy)
  {
    // the existing ledger is read here only to log how many keys it holds
    var existing := dir.GetDownloadLog();
    var objects := ListObjectsInBucket(service, fuel);
    if objects.None? {
      return ListingUnfinished;
    }
    var split := SplitListing(objects.value);
    if split.None? {
      return KeyIndexError;
    }
    var err := dir.CreateDirectories(split.value.directories, env.mkdirFails);
    if err.Some? {
      return DirectoryFailed(err.value);
    }
    var stats := dir.DownloadObjects(split.value.files, env, policy);
    if stats.Failure? {
      return DownloadAborted(stats.error);
    }
    end := Summary(stats.value);
  }
}
