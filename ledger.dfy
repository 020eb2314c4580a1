/**
 * The download ledger file `<root>/download_log.json`, whose document is
 * `{"downloaded_files": [key, ...]}`. The JSON text itself is abstracted: a
 * file that is absent or cannot be parsed is `None`, a parsed document that
 * lacks the `downloaded_files` field is `Some(LedgerDoc(None))`.
 */
module Ledger {
  import opened Wrappers

  datatype LedgerDoc = LedgerDoc(downloadedFiles: Option<seq<string>>)

  /** How one `save_download_log` call ends. */
  datatype SaveOutcome =
    | Written           // the whole set was written
    | FailedBeforeOpen  // makedirs or open raised: the old file is untouched
    | FailedMidWrite    // the file was truncated by open, then writing raised: it no longer parses

  /** `get_download_log`: the set of keys the ledger file names; never fails. */
  function LoadLedger(file: Option<LedgerDoc>): (loaded: set<string>)
    ensures file.None? ==> loaded == {}
    ensures file.Some? && file.value.downloadedFiles.None? ==> loaded == {}
    ensures file.Some? && file.value.downloadedFiles.Some? ==>
              forall k :: k in loaded <==> k in file.value.downloadedFiles.value
  {
    match file
    case None => {}
    case Some(doc) =>
      match doc.downloadedFiles
      case None => {}
      case Some(keys) => set k | k in keys
  }

  /** The keys the ledger file names after a save of `keys` that ended with `outcome`. */
  function Persist(persisted: set<string>, keys: set<string>, outcome: SaveOutcome): (reloaded: set<string>)
    // a written save reloads as exactly the saved set; a failed one never adds a key to the file
    ensures outcome == Written ==> reloaded == keys
    ensures outcome != Written ==> reloaded <= persisted
  {
    match outcome
    case Written => keys
    case FailedBeforeOpen => persisted
    case FailedMidWrite => {}
  }

  /** `list(downloaded_files)`: the members of a set, each once, in an order the model leaves open. */
  method ListOf(s: set<string>) returns (keys: seq<string>)
    ensures forall k :: k in keys <==> k in s
    ensures |keys| == |s|
    ensures forall i, j :: 0 <= i < j < |keys| ==> keys[i] != keys[j]
  {
    keys := [];
    var rest := s;
    while rest != {}
      invariant rest <= s
      invariant forall k :: k in keys <==> k in s && k !in rest
      invariant |keys| + |rest| == |s|
      invariant forall i, j :: 0 <= i < j < |keys| ==> keys[i] != keys[j]
      decreases |rest|
    {
      var k :| k in rest;
      keys := keys + [k];
      rest := rest - {k};
    }
  }

  /** Whatever order a save lists the set in, loading the file gives the set back. */
  lemma SaveLoadRoundTrip(s: set<string>, listing: seq<string>)
    requires forall k :: k in listing <==> k in s
    ensures LoadLedger(Some(LedgerDoc(Some(listing)))) == s
  {
  }

  /** Loading does not depend on the order of the listed keys. */
  lemma LoadIgnoresOrder(a: seq<string>, b: seq<string>)
    requires multiset(a) == multiset(b)
    ensures LoadLedger(Some(LedgerDoc(Some(a)))) == LoadLedger(Some(LedgerDoc(Some(b))))
  {
    forall k ensures k in a <==> k in b {
      assert k in a <==> k in multiset(a);
      assert k in b <==> k in multiset(b);
    }
  }
}
