/**
 * The split of a bucket listing in `init_script`: a record whose key ends
 * in '/' is a directory marker, every other record is a file. Reading the
 * last character of an empty key raises `IndexError`.
 */
module Classify {
  import opened Wrappers
  import opened Storage

  /** `Key[-1] == "/"` for a non-empty key. */
  predicate IsMarker(r: ObjectRecord): (marker: bool)
    // a marker's last separator is its final character
    ensures marker <==> r.key != [] && LastSep(r.key) == |r.key| - 1
  {
    r.key != [] && r.key[|r.key| - 1] == '/'
  }

  /** The file records, in listing order. */
  function Files(objects: seq<ObjectRecord>): (files: seq<ObjectRecord>)
    ensures |files| <= |objects|
    ensures forall r :: r in files <==> r in objects && !IsMarker(r)
    decreases |objects|
  {
    if objects == [] then []
    else if IsMarker(objects[0]) then Files(objects[1..])
    else [objects[0]] + Files(objects[1..])
  }

  /** The directory markers, in listing order. */
  function Markers(objects: seq<ObjectRecord>): (directories: seq<ObjectRecord>)
    ensures |directories| <= |objects|
    ensures forall r :: r in directories <==> r in objects && IsMarker(r)
    decreases |objects|
  {
    if objects == [] then []
    else if IsMarker(objects[0]) then [objects[0]] + Markers(objects[1..])
    else Markers(objects[1..])
  }

  datatype Split = Split(files: seq<ObjectRecord>, directories: seq<ObjectRecord>)

  /** The two list comprehensions, or `None` when some key is empty and indexing it raises. */
  function SplitListing(objects: seq<ObjectRecord>): (r: Option<Split>)
    ensures r.None? <==> exists j :: 0 <= j < |objects| && objects[j].key == []
    ensures r.Some? ==> forall f :: f in r.value.files ==> f.key != [] && f.key[|f.key| - 1] != '/'
  {
    if exists j :: 0 <= j < |objects| && objects[j].key == [] then None
    else Some(Split(Files(objects), Markers(objects)))
  }

  /** Every record lands on exactly one side: the two sides together are the listing, counted with multiplicity. */
  lemma {:induction false} SplitIsPermutation(objects: seq<ObjectRecord>)
    ensures multiset(Files(objects)) + multiset(Markers(objects)) == multiset(objects)
    ensures |Files(objects)| + |Markers(objects)| == |objects|
    decreases |objects|
  {
    if objects != [] {
      SplitIsPermutation(objects[1..]);
      assert objects == [objects[0]] + objects[1..];
    }
  }

  /** Splitting a concatenated listing splits each part: pages can be partitioned one at a time. */
  lemma {:induction false} SplitAppend(a: seq<ObjectRecord>, b: seq<ObjectRecord>)
    ensures Files(a + b) == Files(a) + Files(b)
    ensures Markers(a + b) == Markers(a) + Markers(b)
    decreases |a|
  {
    if a != [] {
      assert (a + b)[1..] == a[1..] + b;
      SplitAppend(a[1..], b);
    } else {
      assert a + b == b;
    }
  }
}
