/**
 * The selection loops of a backup pass. Each loop walks one file info
 * dictionary in order and asks a decision procedure (`DirectoryEntry.ToCopy`
 * or `ToRemove`, which take the other dictionary by reference and may update
 * it) whether an entry is selected and for which reason. Selected entries are
 * appended to the plan lists while the to-do counters are bumped: folders count
 * one each and add no size, files add their length.
 */
module BackupPlan {
  import opened Snapshots
  import Logger

  /** A selected entry, with the reason its decision gave. */
  datatype Planned = Planned(entry: DirectoryEntry, reason: Logger.Reason)

  /** What a decision procedure returns: selected or not, why, and the other dictionary after the call. */
  datatype Verdict = Verdict(selected: bool, reason: Logger.Reason, other: Snapshot)

  /** `ToCopy`/`ToRemove`, whose rules are not part of this model. */
  type Decision = (DirectoryEntry, Snapshot) -> Verdict

  predicate IsFolder(p: Planned) {
    p.entry.info.isFolder
  }

  function Last<T>(s: seq<T>): T
    requires s != []
  {
    s[|s| - 1]
  }

  function Init<T>(s: seq<T>): seq<T>
    requires s != []
  {
    s[..|s| - 1]
  }

  function FolderCount(s: seq<Planned>): nat {
    if s == [] then 0 else FolderCount(Init(s)) + (if IsFolder(Last(s)) then 1 else 0)
  }

  function FileCount(s: seq<Planned>): nat {
    if s == [] then 0 else FileCount(Init(s)) + (if IsFolder(Last(s)) then 0 else 1)
  }

  /** The size a list adds up to when folders count as 0 bytes. */
  function FileBytes(s: seq<Planned>): nat {
    if s == [] then 0 else FileBytes(Init(s)) + (if IsFolder(Last(s)) then 0 else Last(s).entry.info.length)
  }

  /** The length of every entry, folders included. */
  function Bytes(s: seq<Planned>): nat {
    if s == [] then 0 else Bytes(Init(s)) + Last(s).entry.info.length
  }

  function Files(s: seq<Planned>): seq<Planned> {
    if s == [] then [] else Files(Init(s)) + (if IsFolder(Last(s)) then [] else [Last(s)])
  }

  function Folders(s: seq<Planned>): seq<Planned> {
    if s == [] then [] else Folders(Init(s)) + (if IsFolder(Last(s)) then [Last(s)] else [])
  }

  lemma InitOfSnoc<T>(s: seq<T>, x: T)
    ensures Init(s + [x]) == s && Last(s + [x]) == x
  {
  }

  /** Every entry is a folder or a file. */
  lemma {:induction false} CountsAddUp(s: seq<Planned>)
    ensures FolderCount(s) + FileCount(s) == |s|
  {
    if s != [] {
      CountsAddUp(Init(s));
    }
  }

  /** The counts and sizes of a concatenation are the sums of the parts. */
  lemma {:induction false} CountsAppend(a: seq<Planned>, b: seq<Planned>)
    ensures FolderCount(a + b) == FolderCount(a) + FolderCount(b)
    ensures FileCount(a + b) == FileCount(a) + FileCount(b)
    ensures FileBytes(a + b) == FileBytes(a) + FileBytes(b)
    ensures Bytes(a + b) == Bytes(a) + Bytes(b)
  {
    if b == [] {
      assert a + b == a;
    } else {
      assert Init(a + b) == a + Init(b);
      assert Last(a + b) == Last(b);
      CountsAppend(a, Init(b));
    }
  }

  /** Splitting a list by kind: the files and the folders together are the list, as a multiset. */
  lemma {:induction false} SplitByKind(s: seq<Planned>)
    ensures multiset(Files(s)) + multiset(Folders(s)) == multiset(s)
  {
    if s != [] {
      var p, t := Last(s), Init(s);
      SplitByKind(t);
      assert s == t + [p];
      if IsFolder(p) {
        assert Files(s) == Files(t);
      } else {
        assert Folders(s) == Folders(t);
      }
    }
  }

  /** Each part of the split holds one kind only, taken from the list. */
  lemma {:induction false} SplitKinds(s: seq<Planned>)
    ensures forall p :: p in Files(s) ==> p in s && !IsFolder(p)
    ensures forall p :: p in Folders(s) ==> p in s && IsFolder(p)
  {
    if s != [] {
      SplitKinds(Init(s));
      assert s == Init(s) + [Last(s)];
    }
  }

  /** The parts of the split have the counts and the sizes of their kind. */
  lemma {:induction false} SplitCounts(s: seq<Planned>)
    ensures |Files(s)| == FileCount(s) && |Folders(s)| == FolderCount(s)
    ensures Bytes(Files(s)) == FileBytes(s) && FileBytes(Files(s)) == FileBytes(s)
    ensures FileBytes(Folders(s)) == 0
  {
    if s != [] {
      var p, t := Last(s), Init(s);
      SplitCounts(t);
      if IsFolder(p) {
        InitOfSnoc(Folders(t), p);
        assert Files(s) == Files(t);
      } else {
        InitOfSnoc(Files(t), p);
        assert Folders(s) == Folders(t);
      }
    }
  }

  /**
   * The foreach over the first n entries: each entry is decided against the
   * other dictionary as the earlier decisions left it, and the selected ones are
   * kept in order with their reasons.
   */
  function Select(entries: Snapshot, other: Snapshot, decide: Decision, n: nat): (seq<Planned>, Snapshot)
    requires n <= |entries|
  {
    if n == 0 then ([], other)
    else
      var previous := Select(entries, other, decide, n - 1);
      var v := decide(entries[n - 1], previous.1);
      (if v.selected then previous.0 + [Planned(entries[n - 1], v.reason)] else previous.0, v.other)
  }

  /** The selection holds at most one planned item per entry, each from the dictionary walked. */
  lemma {:induction false} SelectFromEntries(entries: Snapshot, other: Snapshot, decide: Decision, n: nat)
    requires n <= |entries|
    ensures |Select(entries, other, decide, n).0| <= n
    ensures forall p :: p in Select(entries, other, decide, n).0 ==> p.entry in entries[..n]
  {
    if n > 0 {
      SelectFromEntries(entries, other, decide, n - 1);
      assert entries[..n] == entries[..n - 1] + [entries[n - 1]];
    }
  }

  /**
   * The copy selection loop, appending to `toCopyList`: the counters describe
   * exactly what was appended.
   */
  method SelectToCopy(source: Snapshot, destination: Snapshot, toCopy: Decision, toCopyList: seq<Planned>)
    returns (list: seq<Planned>, updated: Snapshot, foldersToCopy: nat, filesToCopy: nat, sizeToCopy: nat)
    ensures list == toCopyList + Select(source, destination, toCopy, |source|).0
    ensures updated == Select(source, destination, toCopy, |source|).1
    ensures foldersToCopy == FolderCount(Select(source, destination, toCopy, |source|).0)
    ensures filesToCopy == FileCount(Select(source, destination, toCopy, |source|).0)
    ensures sizeToCopy == FileBytes(Select(source, destination, toCopy, |source|).0)
    ensures foldersToCopy + filesToCopy == |list| - |toCopyList|
  {
    list, updated := toCopyList, destination;
    foldersToCopy, filesToCopy, sizeToCopy := 0, 0, 0;
    for i := 0 to |source|
      invariant list == toCopyList + Select(source, destination, toCopy, i).0
      invariant updated == Select(source, destination, toCopy, i).1
      invariant foldersToCopy == FolderCount(Select(source, destination, toCopy, i).0)
      invariant filesToCopy == FileCount(Select(source, destination, toCopy, i).0)
      invariant sizeToCopy == FileBytes(Select(source, destination, toCopy, i).0)
    {
      var value := source[i];
      var v := toCopy(value, updated);
      updated := v.other;
      ghost var before := Select(source, destination, toCopy, i).0;
      if v.selected {
        var p := Planned(value, v.reason);
        list := list + [p];
        InitOfSnoc(before, p);
        if value.info.isFolder {
          foldersToCopy := foldersToCopy + 1;
        } else {
          filesToCopy := filesToCopy + 1;
          sizeToCopy := sizeToCopy + value.info.length;
        }
      }
    }
    CountsAddUp(Select(source, destination, toCopy, |source|).0);
  }

  /**
   * The removal selection loop: selected folders go to the folder list, selected
   * files to the file list, and the counters describe what was appended.
   */
  method SelectToRemove(destination: Snapshot, source: Snapshot, toRemove: Decision,
                        toRemoveFileList: seq<Planned>, toRemoveFolderList: seq<Planned>)
    returns (fileList: seq<Planned>, folderList: seq<Planned>, updated: Snapshot,
             foldersToRemove: nat, filesToRemove: nat, sizeToRemove: nat)
    ensures fileList == toRemoveFileList + Files(Select(destination, source, toRemove, |destination|).0)
    ensures folderList == toRemoveFolderList + Folders(Select(destination, source, toRemove, |destination|).0)
    ensures updated == Select(destination, source, toRemove, |destination|).1
    ensures foldersToRemove == |folderList| - |toRemoveFolderList|
    ensures filesToRemove == |fileList| - |toRemoveFileList|
    ensures foldersToRemove == FolderCount(Select(destination, source, toRemove, |destination|).0)
    ensures filesToRemove == FileCount(Select(destination, source, toRemove, |destination|).0)
    ensures sizeToRemove == FileBytes(Select(destination, source, toRemove, |destination|).0)
  {
    fileList, folderList, updated := toRemoveFileList, toRemoveFolderList, source;
    foldersToRemove, filesToRemove, sizeToRemove := 0, 0, 0;
    for i := 0 to |destination|
      invariant fileList == toRemoveFileList + Files(Select(destination, source, toRemove, i).0)
      invariant folderList == toRemoveFolderList + Folders(Select(destination, source, toRemove, i).0)
      invariant updated == Select(destination, source, toRemove, i).1
      invariant foldersToRemove == |Folders(Select(destination, source, toRemove, i).0)|
      invariant filesToRemove == |Files(Select(destination, source, toRemove, i).0)|
      invariant sizeToRemove == FileBytes(Select(destination, source, toRemove, i).0)
    {
      var value := destination[i];
      var v := toRemove(value, updated);
      updated := v.other;
      ghost var before := Select(destination, source, toRemove, i).0;
      if v.selected {
        var p := Planned(value, v.reason);
        InitOfSnoc(before, p);
        if value.info.isFolder {
          folderList := folderList + [p];
          foldersToRemove := foldersToRemove + 1;
        } else {
          fileList := fileList + [p];
          filesToRemove := filesToRemove + 1;
          sizeToRemove := sizeToRemove + value.info.length;
        }
      }
    }
    SplitCounts(Select(destination, source, toRemove, |destination|).0);
  }
}
