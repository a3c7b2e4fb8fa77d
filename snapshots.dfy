/**
 * The file info dictionaries of a backup pass. A scan enumerates the items under
 * a root folder; `buildInfoDictionary` keys each item by its path relative to
 * the root and stores it, a later item with the same key replacing the earlier
 * one. The dictionary is modelled as its entries in enumeration order: a new key
 * is appended, a replaced key keeps its place, as a .NET Dictionary that is only
 * ever added to does.
 */
module Snapshots {
  import opened Wrappers

  /** What a FileInfo reports about an enumerated item. */
  datatype FsItem = FsItem(fullName: string, isFolder: bool, length: nat)

  /** A DirectoryEntry: the item and its path relative to the scanned root. */
  datatype DirectoryEntry = DirectoryEntry(info: FsItem, relativePath: string)

  /** A file info dictionary, as its entries in iteration order. */
  type Snapshot = seq<DirectoryEntry>

  function Keys(d: Snapshot): (ks: seq<string>)
    ensures |ks| == |d| && forall i :: 0 <= i < |d| ==> ks[i] == d[i].relativePath
  {
    seq(|d|, i requires 0 <= i < |d| => d[i].relativePath)
  }

  predicate Distinct(s: seq<string>) {
    forall i, j :: 0 <= i < j < |s| ==> s[i] != s[j]
  }

  /** A dictionary holds each key once. */
  predicate KeysDistinct(d: Snapshot) {
    Distinct(Keys(d))
  }

  /** `dictionary[key]`, or None when the key is absent. */
  function Lookup(d: Snapshot, key: string): Option<DirectoryEntry> {
    if d == [] then None
    else if d[0].relativePath == key then Some(d[0])
    else Lookup(d[1..], key)
  }

  /** `dictionary[e.relativePath] = e`: overwrite in place, or append a new key. */
  function Put(d: Snapshot, e: DirectoryEntry): Snapshot {
    if d == [] then [e]
    else if d[0].relativePath == e.relativePath then [e] + d[1..]
    else [d[0]] + Put(d[1..], e)
  }

  lemma {:induction false} LookupAbsent(d: Snapshot, key: string)
    ensures Lookup(d, key).None? <==> key !in Keys(d)
  {
    if d != [] {
      LookupAbsent(d[1..], key);
      assert Keys(d) == [d[0].relativePath] + Keys(d[1..]);
    }
  }

  /** Put keeps the keys distinct; a new key goes to the end, an old one keeps its place. */
  lemma {:induction false} PutKeys(d: Snapshot, e: DirectoryEntry)
    requires KeysDistinct(d)
    ensures Keys(Put(d, e)) == if e.relativePath in Keys(d) then Keys(d) else Keys(d) + [e.relativePath]
    ensures KeysDistinct(Put(d, e))
  {
    if d != [] {
      assert Keys(d) == [d[0].relativePath] + Keys(d[1..]);
      if d[0].relativePath == e.relativePath {
        assert Keys(Put(d, e)) == [e.relativePath] + Keys(d[1..]);
      } else {
        PutKeys(d[1..], e);
        assert Keys(Put(d, e)) == [d[0].relativePath] + Keys(Put(d[1..], e));
      }
    }
  }

  /** After a Put the key reads back the new entry and every other key reads as before. */
  lemma {:induction false} PutLookup(d: Snapshot, e: DirectoryEntry, key: string)
    ensures Lookup(Put(d, e), key) == if key == e.relativePath then Some(e) else Lookup(d, key)
  {
    if d != [] && d[0].relativePath != e.relativePath {
      PutLookup(d[1..], e, key);
    }
  }

  /** The keys of s in order of first occurrence, each once. */
  function Dedup(s: seq<string>): (r: seq<string>)
    ensures Distinct(r)
    ensures forall x :: x in r <==> x in s
  {
    if s == [] then []
    else
      var p := Dedup(s[..|s| - 1]);
      assert forall x :: x in s <==> x in s[..|s| - 1] || x == s[|s| - 1];
      if s[|s| - 1] in p then p else p + [s[|s| - 1]]
  }

  /** No enumerated item among the first n is shorter than the root and its separator, so `Substring` cannot throw. */
  predicate FitsRoot(items: seq<FsItem>, root: string, n: nat)
    requires n <= |items|
  {
    forall k :: 0 <= k < n ==> |root| + 1 <= |items[k].fullName|
  }

  /** `item.Substring(path.Length + 1)`: the root and one separator removed. */
  function RelativeKey(fullName: string, root: string): string
    requires |root| + 1 <= |fullName|
  {
    fullName[|root| + 1..]
  }

  /** An item directly below the root by the path `rel` gets rel as its key. */
  lemma KeyOfChild(root: string, separator: char, rel: string)
    ensures RelativeKey(root + [separator] + rel, root) == rel
  {
    assert (root + [separator] + rel)[|root| + 1..] == rel;
  }

  function EntryOf(item: FsItem, root: string): DirectoryEntry
    requires |root| + 1 <= |item.fullName|
  {
    DirectoryEntry(item, RelativeKey(item.fullName, root))
  }

  /** The dictionary after the first n items. */
  function Built(items: seq<FsItem>, root: string, n: nat): Snapshot
    requires n <= |items| && FitsRoot(items, root, n)
  {
    if n == 0 then [] else Put(Built(items, root, n - 1), EntryOf(items[n - 1], root))
  }

  /** The keys of the first n items, repeats included. */
  function ItemKeys(items: seq<FsItem>, root: string, n: nat): seq<string>
    requires n <= |items| && FitsRoot(items, root, n)
  {
    if n == 0 then [] else ItemKeys(items, root, n - 1) + [RelativeKey(items[n - 1].fullName, root)]
  }

  /** The entry of the last of the first n items whose key is `key`, if any. */
  function LastWith(items: seq<FsItem>, root: string, n: nat, key: string): Option<DirectoryEntry>
    requires n <= |items| && FitsRoot(items, root, n)
  {
    if n == 0 then None
    else if RelativeKey(items[n - 1].fullName, root) == key then Some(EntryOf(items[n - 1], root))
    else LastWith(items, root, n - 1, key)
  }

  /** One entry per distinct key, in order of first occurrence. */
  lemma {:induction false} BuiltKeys(items: seq<FsItem>, root: string, n: nat)
    requires n <= |items| && FitsRoot(items, root, n)
    ensures KeysDistinct(Built(items, root, n))
    ensures Keys(Built(items, root, n)) == Dedup(ItemKeys(items, root, n))
  {
    if n > 0 {
      BuiltKeys(items, root, n - 1);
      var s := ItemKeys(items, root, n);
      assert s[..|s| - 1] == ItemKeys(items, root, n - 1);
      PutKeys(Built(items, root, n - 1), EntryOf(items[n - 1], root));
    }
  }

  /** The last write wins: every key reads back the last item enumerated under it. */
  lemma {:induction false} BuiltLookup(items: seq<FsItem>, root: string, n: nat, key: string)
    requires n <= |items| && FitsRoot(items, root, n)
    ensures Lookup(Built(items, root, n), key) == LastWith(items, root, n, key)
  {
    if n > 0 {
      BuiltLookup(items, root, n - 1, key);
      PutLookup(Built(items, root, n - 1), EntryOf(items[n - 1], root), key);
    }
  }

  /**
   * `buildInfoDictionary`: the items keyed by relative path. An item too short
   * to lie below the root makes `Substring` throw, and the program exits; that
   * is None here.
   */
  method BuildInfoDictionary(items: seq<FsItem>, root: string) returns (r: Option<Snapshot>)
    ensures r.None? <==> !FitsRoot(items, root, |items|)
    ensures r.Some? ==> FitsRoot(items, root, |items|) && r.value == Built(items, root, |items|)
    ensures r.Some? ==> KeysDistinct(r.value) && Keys(r.value) == Dedup(ItemKeys(items, root, |items|))
    ensures r.Some? ==> forall key :: Lookup(r.value, key) == LastWith(items, root, |items|, key)
  {
    var dictionary: Snapshot := [];
    var i := 0;
    while i < |items|
      invariant 0 <= i <= |items| && FitsRoot(items, root, i)
      invariant dictionary == Built(items, root, i)
    {
      var item := items[i].fullName;
      if |item| < |root| + 1 {
        return None;
      }
      var relativePath := item[|root| + 1..];
      dictionary := Put(dictionary, DirectoryEntry(items[i], relativePath));
      i := i + 1;
    }
    BuiltKeys(items, root, |items|);
    forall key ensures Lookup(dictionary, key) == LastWith(items, root, |items|, key) {
      BuiltLookup(items, root, |items|, key);
    }
    return Some(dictionary);
  }
}
