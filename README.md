# do_spaces_export — a verified model of the resumable bucket export

`do_spaces_export` copies every object of a DigitalOcean Spaces (S3-compatible)
bucket into a local export directory. It lists the bucket page by page with
continuation tokens. It splits the listing into directory markers (keys ending
in `/`) and files. It creates the marker directories, then downloads the files
one by one. A ledger file, `<root>/download_log.json`, holds
`{"downloaded_files": [...]}` and is rewritten after every completed file, so an
interrupted export can be run again and resume where it stopped.

The model has these modules:

- `Storage` (`storage.dfy`): listing records and local paths. A path is the export root or
  `<root>/<key>`; `os.makedirs` and `os.path.dirname` are modelled on keys.
- `Ledger` (`ledger.dfy`): loading the ledger file (absent or unreadable files give the
  empty set), the three ways a save can end, and the listing of a set for saving.
- `Resume` (`resume.dfy`): the specification of the `download_objects` loop. One
  iteration is `Step` over an abstract state: the disk, the keys the ledger file names,
  the in-memory ledger set and the four counters. The first n iterations are `Run`.
  The properties of resumption are proved here: counters, ledger durability, skipping
  on a rerun, idempotence, and the ledger bug below.
- `Directories` (`directories.dfy`): the specification of `create_directories`.
- `Export` (`export.dfy`): the class `ExportDir`, whose fields are the disk and the
  ledger file, with one method per function of `export.py`. Each method is proved
  against `Step`, `Run`, `CreateAll` or the ledger functions.
- `Classify` (`classify.dfy`): the split of the listing into files and markers in `init_script`.
- `Fetch` (`fetch.dfy`): `list_objects_in_bucket`, a loop proved against a recursive page
  specification.
- `Script` (`script.dfy`): `init_script` as a whole.

The network transfer, every `os.makedirs`, every ledger save and the listing
service are oracles passed in as parameters: `Env` for the loop and
`service: Option<string> -> Page` for the listing. The transfer and save
outcomes are indexed by record position. The makedirs failures are a set of
paths that `os.makedirs` refuses when they are missing (`Env.mkdirFails`).
Each listing response is a function of the token sent. The download loop
(`Step`, `Run`), `ExportDir.ProcessRecord`, `ExportDir.DownloadObjects`,
`RunScript` and `InitScript` take a `Policy`. `AsWritten` is the code as it
stands, and `DropKeyOnFailedSave` is the corrected behaviour of the first
finding below. The ledger, directory and listing operations take no policy.

## Model

| member | source | states |
|---|---|---|
| Storage.LastSepIsLast | do_spaces_export/export.py:118 | `os.path.dirname` cuts at the last '/' of the key: the index found holds a '/', no '/' follows it, and -1 means there is none |
| Storage.StripTrailingSepsSpec | do_spaces_export/export.py:118 | dropping trailing separators keeps a prefix that does not end in '/' and removes only '/' characters |
| Storage.TopLevelParent | do_spaces_export/export.py:118 | a key without '/' has the export root as its parent directory |
| Storage.ParentIsMarkerDir | do_spaces_export/export.py:117-118 | the parent of file `<dir>/<name>` is exactly the directory that `create_directories` makes for marker `<dir>/` |
| Storage.DirPath | do_spaces_export/export.py:66-68 | the directory a makedirs of `<root>/<key>` names is the key without its trailing '/' (a non-empty prefix of the key, followed only by '/'), or the root when the key is all separators |
| Storage.ParentDir | do_spaces_export/export.py:118 | `os.path.dirname` of `<root>/<key>` cuts at the key's last '/': the result is the key up to that '/' without its trailing run of '/' (a non-empty prefix not ending in '/'), or the root when everything up to it is '/' or there is no '/' |
| Ledger.LoadLedger | do_spaces_export/export.py:14-29 | an absent or unreadable file gives the empty set, a document without `downloaded_files` gives the empty set, otherwise a key is loaded iff the list names it |
| Ledger.ListOf | do_spaces_export/export.py:42 | `list(downloaded_files)` names every member of the set exactly once and nothing else |
| Ledger.SaveLoadRoundTrip | do_spaces_export/export.py:39-42 | loading a file written from a set gives back that set, whatever order the listing had |
| Ledger.LoadIgnoresOrder | do_spaces_export/export.py:26 | two listings with the same elements, each with the same multiplicity, load to the same set |
| Ledger.Persist | do_spaces_export/export.py:39-42 | after a written save the file reloads as exactly the saved set; a failed save never adds a key to the file |
| Directories.DirTargets | do_spaces_export/export.py:64-68 | the makedirs targets are the root first, then one directory per marker in listing order |
| Directories.CreateAll | do_spaces_export/export.py:57-70 | the walk only adds paths, and only target paths; on success every target exists; on error the failing target is missing and refused |
| Directories.CreateAllSucceedsIff | do_spaces_export/export.py:63-70 | `create_directories` succeeds iff no target is both missing and refused by makedirs |
| Directories.CreateAllIdempotent | do_spaces_export/export.py:64-68 | after a successful run, running it again succeeds and changes nothing (`exist_ok=True`) |
| Directories.AllPresentUnchanged | do_spaces_export/export.py:64-68 | when every target already exists the walk neither raises nor changes the disk |
| Directories.MarkerDirsExist | do_spaces_export/export.py:65-68 | after success the root and every marker's directory exist |
| Classify.Files | do_spaces_export/__init__.py:20 | the files are exactly the listed records whose key does not end in '/' |
| Classify.Markers | do_spaces_export/__init__.py:21 | the markers are exactly the listed records whose key ends in '/' |
| Classify.SplitListing | do_spaces_export/__init__.py:20-21 | the split fails (IndexError) iff some key is empty; otherwise no file key is empty or ends in '/' |
| Classify.SplitIsPermutation | do_spaces_export/__init__.py:20-21 | files and markers together are the listing, counted with multiplicity |
| Classify.SplitAppend | do_spaces_export/__init__.py:20-21 | splitting a concatenation of listings splits each part in order |
| Classify.IsMarker | do_spaces_export/__init__.py:20-21 | a record is a directory marker iff its key is non-empty and its last '/' is its final character |
| Fetch.Request | do_spaces_export/fetch.py:16-22 | a token is sent iff it is present and non-empty (truthy), and then unchanged |
| Fetch.Pages | do_spaces_export/fetch.py:15-34 | a completed listing never has more pages than requests allowed |
| Fetch.ListObjectsInBucket | do_spaces_export/fetch.py:5-39 | the loop returns the concatenated contents of the pages of the listing, or none when its budget runs out |
| Fetch.FlattenAppend | do_spaces_export/fetch.py:24-25 | extending the result page by page is the contents of all pages in order |
| Fetch.Flatten | do_spaces_export/fetch.py:24-25 | the result holds a record iff some page's contents hold it |
| Fetch.Listing | do_spaces_export/fetch.py:12-39 | the listing completes iff the page chain does, and then holds exactly the records of its pages |
| Fetch.PagesChain | do_spaces_export/fetch.py:15-34 | a completed listing starts with the tokenless request, every page but the last is truncated, the last is not, and each request carries the previous page's token |
| Fetch.MoreFuelSameListing | do_spaces_export/fetch.py:15 | a listing that completes within a budget is the same under any larger budget |
| Fetch.TokenlessTruncationNeverEnds | do_spaces_export/fetch.py:31-32 | a truncated first response without a truthy token makes the next request start over, so the loop never ends |
| Fetch.PagesSuffix | do_spaces_export/fetch.py:31-34 | after any page but the last, the rest of a completed listing is the listing requested with that page's token |
| Fetch.TokensTruthyUntilLast | do_spaces_export/fetch.py:16-34 | in a listing that completes, every page but the last carries a truthy continuation token; a falsy one anywhere restarts the listing forever |
| Fetch.RequestDecides | do_spaces_export/fetch.py:16-22 | tokens that are sent alike (absent and empty) give the same listing |
| Resume.Stats.Bump | do_spaces_export/export.py:104-134 | classifying one record adds one to the counter of its outcome and leaves the other three unchanged |
| Resume.TallyTotal | do_spaces_export/export.py:89-94 | counters built from classified outcomes sum to the number of outcomes |
| Resume.Step | do_spaces_export/export.py:99-138 | one iteration adds one to one counter, never shrinks the in-memory ledger, keeps the file within the in-memory set, syncs them on a successful save, and skips exactly the logged keys |
| Resume.AddKey | do_spaces_export/export.py:45-54 | the key joins the in-memory set whether or not the save succeeds; the file gains the key iff the save is written (or it was already there and the file was untouched); a written save syncs file and set |
| Resume.StepSkipsLogged | do_spaces_export/export.py:103-107 | a logged key is counted `skipped_logged` and nothing else changes |
| Resume.StepKeepsExisting | do_spaces_export/export.py:109-115 | an unlogged key whose path exists is logged; the run goes on iff the save succeeds, and otherwise the save error escapes |
| Resume.StepDownloaded | do_spaces_export/export.py:117-130 | a download creates the parent, the file and the root, and logs and persists the key |
| Resume.StepFailed | do_spaces_export/export.py:132-138 | a failure leaves no file at the key's path and the key out of the ledger file; the in-memory set gains the key only when a completed transfer's save failed, as written |
| Resume.StepEscapes | do_spaces_export/export.py:110-118 | a failed transfer never stops the loop; only the parent's makedirs (changing nothing) or the save for an existing file stops it |
| Resume.StepKeepsDisk | do_spaces_export/export.py:132-137 | an iteration never removes a path that existed before it |
| Resume.Run | do_spaces_export/export.py:98-138 | a finished run has one outcome per record, and the in-memory ledger only grows and always covers the ledger file |
| Resume.RunExtends | do_spaces_export/export.py:99-138 | the next iteration extends a finished run with its outcome, or stops it with its error |
| Resume.StoppedStaysStopped | do_spaces_export/export.py:98-145 | once an error escapes, no later record changes anything |
| Resume.PrefixOutcomes | do_spaces_export/export.py:99 | records are classified in order: a longer run's outcomes start with a shorter run's |
| Resume.RunTallies | do_spaces_export/export.py:89-145 | the returned counters are the tally of the outcomes and sum to the number of records |
| Resume.RunStepGrows | do_spaces_export/export.py:99-138 | one iteration removes no key from the in-memory ledger and no path from the disk |
| Resume.LedgerGrows | do_spaces_export/export.py:45-54 | the in-memory ledger only grows between iteration boundaries |
| Resume.DiskGrows | do_spaces_export/export.py:132-137 | the disk only grows between iteration boundaries |
| Resume.LedgerStaysSynced | do_spaces_export/export.py:120-125 | while every save succeeds, the ledger file names exactly the in-memory set at every boundary, so an interruption loses nothing |
| Resume.RunStepLogs | do_spaces_export/export.py:99-138 | with a successful save, one iteration logs its key iff it downloads or finds the file existing |
| Resume.StepLogsCompleted | do_spaces_export/export.py:110-130 | the same for a single step |
| Resume.LedgerExact | do_spaces_export/export.py:104-130 | while every save succeeds, the ledger file names the starting keys plus the keys reported downloaded or existing, no more and no less |
| Resume.DownloadedFileStays | do_spaces_export/export.py:120-130 | a record reported downloaded has its file on disk and its key logged at the end of the run |
| Resume.MarkerShadowsFile | do_spaces_export/export.py:109-115 | a file key equal to an existing marker directory's name is never transferred; it is counted as existing and logged |
| Resume.LoggedKeySkipped | do_spaces_export/export.py:103-107 | every record whose key was logged at the start is counted `skipped_logged` |
| Resume.CompletedKeyLogged | do_spaces_export/export.py:110-125 | every record not counted `failed` has its key in the in-memory ledger at the end |
| Resume.AllLoggedRun | do_spaces_export/export.py:103-107 | a run over logged keys skips each and changes nothing but the `skipped_logged` counter |
| Resume.ResumedRunSkipsCompleted | do_spaces_export/export.py:86-107 | after a run stopped at any record boundary (interrupted or finished) whose saves succeeded, a rerun skips every record the first run completed, whatever the disk, the oracles and either run's policy |
| Resume.SecondRunSkipsAll | do_spaces_export/export.py:86-115 | after a run without failures, a second run downloads nothing, counts every record `skipped_logged`, and leaves disk and ledger file unchanged |
| Resume.RepairedStepBacked | do_spaces_export/export.py:124-138 | with the failed-save key dropped, one iteration keeps every logged key backed by a file or by the starting ledger |
| Resume.RepairedLedgerBacked | do_spaces_export/export.py:124-138 | with the failed-save key dropped, the ledger file never names a key whose file is missing, other than a key the ledger started with, whatever the oracles do |
| Resume.RepairedLedgerHasFiles | do_spaces_export/export.py:124-138 | with the failed-save key dropped, from a start where every logged key has its file, the ledger file never names a key whose file is missing, whatever the oracles do |
| Resume.AsWrittenPersistsMissingFile | do_spaces_export/export.py:124-138 | as written, records "a", "b" with only the first save failing end with "a" in the ledger file and no file for it |
| Resume.SaveFailureLeaksKey | do_spaces_export/export.py:124-138 | the same from any empty ledger and bare root, under any oracles that fail only the first save |
| Resume.InterruptedTransfer | do_spaces_export/export.py:120-143 | an interrupt inside the transfer leaves the opened file on disk and the ledger file and in-memory set untouched |
| Resume.CleanedInterrupt | do_spaces_export/export.py:132-137 | the repaired interrupt leaves no file at the key's path and the ledger untouched |
| Resume.InterruptedFileAccepted | do_spaces_export/export.py:109-115 | as written, the rerun after an interrupted transfer counts the partial file `skipped_exists` and writes its key to the ledger |
| Resume.CleanedInterruptRefetches | do_spaces_export/export.py:109-130 | with the partial file removed, the rerun downloads or fails the key, and logs it only after a completed transfer |
| Resume.AbsentKeyRefetched | do_spaces_export/export.py:117-138 | an unlogged key whose file is absent is downloaded or counted failed, and reaches the ledger file only through a completed transfer |
| Export.ExportDir.GetDownloadLog | do_spaces_export/export.py:14-29 | returns the keys the ledger file names, per `LoadLedger` |
| Export.ExportDir.SaveDownloadLog | do_spaces_export/export.py:32-42 | reports success iff written; the root exists unless the save failed before opening; a reload gives the saved set, the old keys, or nothing, by outcome |
| Export.ExportDir.AddToDownloadLog | do_spaces_export/export.py:45-54 | the key joins the caller's set even when the save fails, then that set is saved |
| Export.ExportDir.CreateDirectories | do_spaces_export/export.py:57-70 | the disk and the error are those of `CreateAll`; the ledger file is untouched |
| Export.ExportDir.ProcessRecord | do_spaces_export/export.py:99-138 | the new disk, ledger, in-memory set, counters and result are those of `Step` |
| Export.ExportDir.DownloadObjects | do_spaces_export/export.py:73-145 | the disk, the ledger file, and the counters or escaping error are those of `Run` from the loaded ledger and zero counters |
| Script.RunScript | do_spaces_export/__init__.py:9-40 | an unfinished listing or an empty key changes nothing; a failed directory leaves the ledger untouched and names a refused, missing path |
| Script.SummaryCountsEveryFile | do_spaces_export/__init__.py:28-35 | the summary's total, the number of files, is the sum of its four counters |
| Script.MarkersMadeBeforeDownload | do_spaces_export/__init__.py:25-26 | when the download is reached, the root and every marker's directory exist |
| Script.InitScript | do_spaces_export/__init__.py:9-40 | the disk, the ledger file and the way the script ends are those of `RunScript` |

## Left out

- Network client, credentials and bucket configuration (`create_client`, `config`): the listing service and the transfers are oracles.
- Byte contents of downloaded files: a file is present or absent; a partial file removed by the failure handler is absent.
- Logging (every `LOGGER` call, including the ledger read at `__init__.py:15`, which only feeds a log line).
- JSON text: the ledger file is abstracted to a parsed document or `None`. A `downloaded_files` value that is not a list of strings (which `set()` may reject or split into characters) is not modelled.
- `KeyboardInterrupt` is not an oracle of the loop. The properties of `Run` hold at each iteration boundary `n`, which is where an interrupt between records lands. An interrupt during a transfer is a `BaseException`, so the `except Exception` at `export.py:132` does not catch it and the partial file stays. That case is modelled only by `Resume.InterruptedTransfer` and the second finding below; the loop model itself does not capture it.
- Listing transport errors (`ClientError`) and other exceptions of `list_objects_v2`: the service always answers.
- Fetch.ListObjectsInBucket: the `while True` loop is given a budget of requests; a listing still running when the budget runs out ends as `None`, and `Fetch.MoreFuelSameListing` shows the budget does not change a listing that completes.
- Path normalisation beyond trailing separators: repeated or leading '/' inside keys, `.`/`..` components and the export root's own spelling are not modelled; the root is assumed not to end in '/'.
- Files versus directories on disk: both are paths in one set, so a makedirs of an existing file's path counts as existing instead of raising, and intermediate directories made by `os.makedirs` are not tracked.
- The ledger file is a separate field, not a path in the disk set, so a bucket object whose key is `download_log.json` does not collide with it.
- Resume.SaveDisk: a save whose `open` fails after `os.makedirs(local_path)` succeeded is modelled like one whose makedirs failed, leaving the root's presence unchanged.
- Atomicity: the ledger write is one step that ends written, untouched, or unparseable.
- Removal of the partial file (`os.remove` at `export.py:137`) always succeeds in the model. In the code it runs inside the `except` handler, so an error it raised would escape the loop; that escape is not modelled.

## Findings

| source | as written | input that shows it | evidently intended | confidence | as-written member | corrected member |
|---|---|---|---|---|---|---|
| do_spaces_export/export.py:124-138 | after a completed transfer whose ledger save raises, the file is removed but `add_to_download_log` has already added the key to the in-memory set, so the next successful save writes the key to the ledger; a rerun then skips it forever although its file is missing | records "a" then "b", both transfers succeed, the save for "a" raises before opening the file, the save for "b" succeeds | the ledger names only keys whose file was kept, so a rerun downloads "a" again | not executed | Resume.AsWrittenPersistsMissingFile | Resume.RepairedLedgerBacked |
| do_spaces_export/export.py:120-143 | a `KeyboardInterrupt` during `download_fileobj` is not an `Exception`, so the handler that removes the partial file (`export.py:136-137`) is skipped; on the next run `os.path.exists` finds the partial file and it is counted `skipped_exists` and logged as downloaded | key "k", not logged and not on disk; the user interrupts during its transfer; the script is run again and its ledger save succeeds | an interrupted transfer leaves no file, so the rerun fetches "k" again and never logs an incomplete file | not executed | Resume.InterruptedFileAccepted | Resume.CleanedInterruptRefetches |

For the first finding, the corrected behaviour is `Policy.DropKeyOnFailedSave`.
`Step`, `Run`, `ExportDir.ProcessRecord`, `ExportDir.DownloadObjects`, `RunScript`
and `InitScript` take the policy as a parameter. `AsWritten` reproduces the code
and `DropKeyOnFailedSave` is the repair.

For the second finding, the corrected behaviour is `Resume.CleanedInterrupt`: the
partial file is removed, as the failure handler removes it for any other error.
The loop model is consistent with it, because `Run` stops only at iteration
boundaries and never leaves a partial file.
