/** Listing records and local paths shared by the lister, the partition and the exporter. */
module Storage {

  /** One entry of a bucket listing; of the fields the service returns only `Key` is used. */
  datatype ObjectRecord = ObjectRecord(key: string)

  /**
   * A local path below the export root: the root itself, or `<root>/<key>`
   * for a key taken verbatim.
   */
  datatype LocalPath = Root | Under(key: string)

  /** Index of the last '/' in `key`, or -1 when there is none. */
  function LastSep(key: string): (i: int)
    ensures -1 <= i < |key|
    decreases |key|
  {
    if key == [] then -1
    else if key[|key| - 1] == '/' then |key| - 1
    else LastSep(key[..|key| - 1])
  }

  /** `s` without its trailing run of '/'. */
  function StripTrailingSeps(s: string): (stripped: string)
    decreases |s|
  {
    if s != [] && s[|s| - 1] == '/' then StripTrailingSeps(s[..|s| - 1]) else s
  }

  /**
   * The directory `os.makedirs("<root>/<key>")` creates: trailing separators
   * name the same directory, and a key of separators only names the root.
   */
  function DirPath(key: string): (dir: LocalPath)
    ensures dir.Under? ==>
              0 < |dir.key| <= |key| && dir.key == key[..|dir.key|] && dir.key[|dir.key| - 1] != '/' &&
              forall j :: |dir.key| <= j < |key| ==> key[j] == '/'
    ensures dir.Root? ==> forall j :: 0 <= j < |key| ==> key[j] == '/'
  {
    StripTrailingSepsSpec(key);
    var s := StripTrailingSeps(key);
    if s == [] then Root else Under(s)
  }

  /**
   * `os.path.dirname("<root>/<key>")`: the directory named by the text up
   * to the key's last '/', which is the root itself when the key has none.
   */
  function ParentDir(key: string): (parent: LocalPath)
    ensures parent.Under? ==>
              0 < |parent.key| < |key| && parent.key == key[..|parent.key|] &&
              parent.key[|parent.key| - 1] != '/' && key[|parent.key|] == '/' &&
              forall j :: |parent.key| <= j <= LastSep(key) ==> key[j] == '/'
    ensures parent.Root? ==> forall j :: 0 <= j <= LastSep(key) ==> key[j] == '/'
  {
    LastSepIsLast(key);
    var i := LastSep(key);
    if i < 0 then Root
    else
      var head := key[..i + 1];
      StripTrailingSepsSpec(head);
      var dir := DirPath(head);
      assert dir.Under? ==> head[i] == '/' && dir.key[|dir.key| - 1] == head[|dir.key| - 1];
      assert dir.Under? ==> dir.key == head[..|dir.key|] == key[..|dir.key|];
      dir
  }

  /** `LastSep` finds the last separator, and -1 means there is none. */
  lemma {:induction false} LastSepIsLast(key: string)
    ensures var i := LastSep(key);
            (i >= 0 ==> key[i] == '/') &&
            forall j :: i < j < |key| ==> key[j] != '/'
    decreases |key|
  {
    if key != [] && key[|key| - 1] != '/' {
      LastSepIsLast(key[..|key| - 1]);
    }
  }

  /** Stripping keeps a prefix that does not end in '/', and removes only separators. */
  lemma {:induction false} StripTrailingSepsSpec(s: string)
    ensures var r := StripTrailingSeps(s);
            |r| <= |s| && r == s[..|r|] &&
            (r == [] || r[|r| - 1] != '/') &&
            forall j :: |r| <= j < |s| ==> s[j] == '/'
    decreases |s|
  {
    if s != [] && s[|s| - 1] == '/' {
      StripTrailingSepsSpec(s[..|s| - 1]);
    }
  }

  /** A key without separators is a file directly in the export root. */
  lemma TopLevelParent(key: string)
    requires forall j :: 0 <= j < |key| ==> key[j] != '/'
    ensures ParentDir(key) == Root
  {
    LastSepIsLast(key);
  }

  /**
   * A file `<dir>/<name>` has as its parent exactly the directory that the
   * listing's marker `<dir>/` makes.
   */
  lemma ParentIsMarkerDir(dir: string, name: string)
    requires forall j :: 0 <= j < |name| ==> name[j] != '/'
    ensures ParentDir(dir + "/" + name) == DirPath(dir + "/")
  {
    var key := dir + "/" + name;
    LastSepIsLast(key);
    assert key[|dir|] == '/';
    assert LastSep(key) == |dir|;
    assert key[..|dir| + 1] == dir + "/";
  }
}
