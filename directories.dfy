/**
 * `create_directories`: the export root is made first, then one directory
 * per directory marker of the listing, in listing order; the first
 * `os.makedirs` that raises ends the walk and its error escapes.
 */
module Directories {
  import opened Wrappers
  import opened Storage

  /** The disk after the walk, and the path whose makedirs raised, if any. */
  datatype DirResult = DirResult(disk: set<LocalPath>, err: Option<LocalPath>)

  /** The makedirs targets, in order: the root, then `<root>/<Key>` for each marker. */
  function DirTargets(directories: seq<ObjectRecord>): (targets: seq<LocalPath>)
    ensures |targets| == |directories| + 1 && targets[0] == Root
    ensures forall j :: 0 <= j < |directories| ==> targets[j + 1] == DirPath(directories[j].key)
  {
    [Root] + seq(|directories|, j requires 0 <= j < |directories| => DirPath(directories[j].key))
  }

  /**
   * The walk over `targets` from `disk`: `exist_ok=True` makes an existing
   * directory a no-op, and only a missing one can raise (when it is in `fails`).
   */
  function CreateAll(disk: set<LocalPath>, targets: seq<LocalPath>, fails: set<LocalPath>): (r: DirResult)
    ensures disk <= r.disk
    ensures forall p :: p in r.disk ==> p in disk || p in targets
    ensures r.err.None? ==> forall j :: 0 <= j < |targets| ==> targets[j] in r.disk
    ensures r.err.Some? ==> r.err.value in targets && r.err.value in fails && r.err.value !in r.disk
    decreases |targets|
  {
    if targets == [] then DirResult(disk, None)
    else if targets[0] !in disk && targets[0] in fails then DirResult(disk, Some(targets[0]))
    else CreateAll(disk + {targets[0]}, targets[1..], fails)
  }

  /** The walk succeeds exactly when no target is both missing and refused. */
  lemma {:induction false} CreateAllSucceedsIff(disk: set<LocalPath>, targets: seq<LocalPath>, fails: set<LocalPath>)
    ensures CreateAll(disk, targets, fails).err.None? <==>
            forall j :: 0 <= j < |targets| ==> targets[j] in disk || targets[j] !in fails
    decreases |targets|
  {
    if targets != [] && (targets[0] in disk || targets[0] !in fails) {
      CreateAllSucceedsIff(disk + {targets[0]}, targets[1..], fails);
      forall j | 1 <= j < |targets| && targets[j] !in disk + {targets[0]} && targets[j] in fails
        ensures targets[j] !in disk && targets[j] in fails
      {
      }
      assert forall j :: 1 <= j < |targets| ==> targets[j] == targets[1..][j - 1];
    }
  }

  /** Running `create_directories` again after it succeeded changes nothing and succeeds again. */
  lemma {:induction false} CreateAllIdempotent(disk: set<LocalPath>, targets: seq<LocalPath>, fails: set<LocalPath>)
    requires CreateAll(disk, targets, fails).err.None?
    ensures var r := CreateAll(disk, targets, fails);
            CreateAll(r.disk, targets, fails) == DirResult(r.disk, None)
  {
    var r := CreateAll(disk, targets, fails);
    AllPresentUnchanged(r.disk, targets, fails);
  }

  /** A walk whose every target already exists neither raises nor changes the disk. */
  lemma {:induction false} AllPresentUnchanged(disk: set<LocalPath>, targets: seq<LocalPath>, fails: set<LocalPath>)
    requires forall j :: 0 <= j < |targets| ==> targets[j] in disk
    ensures CreateAll(disk, targets, fails) == DirResult(disk, None)
    decreases |targets|
  {
    if targets != [] {
      assert disk + {targets[0]} == disk;
      assert forall j :: 0 <= j < |targets| - 1 ==> targets[1..][j] == targets[j + 1];
      AllPresentUnchanged(disk, targets[1..], fails);
    }
  }

  /** After a successful `create_directories`, every marker's directory and the root exist. */
  lemma MarkerDirsExist(disk: set<LocalPath>, directories: seq<ObjectRecord>, fails: set<LocalPath>, j: nat)
    requires j < |directories|
    requires CreateAll(disk, DirTargets(directories), fails).err.None?
    ensures var r := CreateAll(disk, DirTargets(directories), fails);
            Root in r.disk && DirPath(directories[j].key) in r.disk
  {
    var targets := DirTargets(directories);
    assert targets[j + 1] == DirPath(directories[j].key);
  }
}
