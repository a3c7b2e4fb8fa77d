/**
 * The execution loops of a backup pass. Every planned item is attempted once;
 * the filesystem's answer for the item at index i is a parameter. Success bumps
 * a "done" counter, failure takes the item off the matching "to do" counter, and
 * the loop always goes on. So when the to-do counters described the list on
 * entry, done equals to-do on exit.
 */
module Executor {
  import opened Wrappers
  import opened BackupPlan

  /** What happened to one planned item. */
  datatype Outcome = Outcome(item: Planned, ok: bool)

  function Items(o: seq<Outcome>): (s: seq<Planned>)
    ensures |s| == |o| && forall k :: 0 <= k < |o| ==> s[k] == o[k].item
  {
    seq(|o|, k requires 0 <= k < |o| => o[k].item)
  }

  function Succeeded(o: seq<Outcome>): seq<Planned> {
    if o == [] then [] else Succeeded(Init(o)) + (if Last(o).ok then [Last(o).item] else [])
  }

  function Failed(o: seq<Outcome>): seq<Planned> {
    if o == [] then [] else Failed(Init(o)) + (if Last(o).ok then [] else [Last(o).item])
  }

  /** The successes and the failures together account for every item, in count and in size. */
  lemma {:induction false} OutcomesSplit(o: seq<Outcome>)
    ensures |Succeeded(o)| + |Failed(o)| == |o|
    ensures FolderCount(Succeeded(o)) + FolderCount(Failed(o)) == FolderCount(Items(o))
    ensures FileCount(Succeeded(o)) + FileCount(Failed(o)) == FileCount(Items(o))
    ensures FileBytes(Succeeded(o)) + FileBytes(Failed(o)) == FileBytes(Items(o))
    ensures Bytes(Succeeded(o)) + Bytes(Failed(o)) == Bytes(Items(o))
  {
    if o != [] {
      var t, x := Init(o), Last(o);
      OutcomesSplit(t);
      assert Items(o) == Items(t) + [x.item];
      CountsAppend(Items(t), [x.item]);
      if x.ok {
        CountsAppend(Succeeded(t), [x.item]);
        assert Failed(o) == Failed(t);
      } else {
        CountsAppend(Failed(t), [x.item]);
        assert Succeeded(o) == Succeeded(t);
      }
    }
  }

  function Bit(b: bool): nat {
    if b then 1 else 0
  }

  /** What one more outcome adds to the counts and sizes of the successes and the failures. */
  lemma SnocOutcome(o: seq<Outcome>, x: Outcome)
    ensures Items(o + [x]) == Items(o) + [x.item]
    ensures |Succeeded(o + [x])| == |Succeeded(o)| + Bit(x.ok)
    ensures |Failed(o + [x])| == |Failed(o)| + Bit(!x.ok)
    ensures FolderCount(Succeeded(o + [x])) == FolderCount(Succeeded(o)) + Bit(x.ok && IsFolder(x.item))
    ensures FolderCount(Failed(o + [x])) == FolderCount(Failed(o)) + Bit(!x.ok && IsFolder(x.item))
    ensures FileCount(Succeeded(o + [x])) == FileCount(Succeeded(o)) + Bit(x.ok && !IsFolder(x.item))
    ensures FileCount(Failed(o + [x])) == FileCount(Failed(o)) + Bit(!x.ok && !IsFolder(x.item))
    ensures FileBytes(Succeeded(o + [x])) == FileBytes(Succeeded(o)) + (if x.ok && !IsFolder(x.item) then x.item.entry.info.length else 0)
    ensures FileBytes(Failed(o + [x])) == FileBytes(Failed(o)) + (if !x.ok && !IsFolder(x.item) then x.item.entry.info.length else 0)
    ensures Bytes(Succeeded(o + [x])) == Bytes(Succeeded(o)) + (if x.ok then x.item.entry.info.length else 0)
    ensures Bytes(Failed(o + [x])) == Bytes(Failed(o)) + (if x.ok then 0 else x.item.entry.info.length)
  {
    InitOfSnoc(o, x);
    var p := x.item;
    if x.ok {
      InitOfSnoc(Succeeded(o), p);
      assert Failed(o + [x]) == Failed(o);
    } else {
      InitOfSnoc(Failed(o), p);
      assert Succeeded(o + [x]) == Succeeded(o);
    }
  }

  /** The outcomes of attempting the first n items in order, `ok(i)` being the answer for item i. */
  function Attempts(list: seq<Planned>, ok: nat -> bool, n: nat): (o: seq<Outcome>)
    requires n <= |list|
    ensures |o| == n && forall k :: 0 <= k < n ==> o[k] == Outcome(list[k], ok(k))
  {
    seq(n, k requires 0 <= k < n => Outcome(list[k], ok(k)))
  }

  lemma AttemptsSnoc(list: seq<Planned>, ok: nat -> bool, n: nat)
    requires n < |list|
    ensures Attempts(list, ok, n + 1) == Attempts(list, ok, n) + [Outcome(list[n], ok(n))]
  {
  }

  /** Attempting every item yields one outcome per item, in list order. */
  lemma AttemptsItems(list: seq<Planned>, ok: nat -> bool)
    ensures Items(Attempts(list, ok, |list|)) == list
  {
  }

  /**
   * The copy loop: a folder is created, a file is copied over its destination.
   * `copyOk(i)` says whether the filesystem call for item i succeeded.
   */
  method CopyItems(toCopyList: seq<Planned>, foldersPlanned: int, filesPlanned: int, sizePlanned: int,
                   copyOk: nat -> bool)
    returns (outcomes: seq<Outcome>, foldersCopied: nat, filesCopied: nat, sizeCopied: nat,
             foldersToCopy: int, filesToCopy: int, sizeToCopy: int)
    ensures outcomes == Attempts(toCopyList, copyOk, |toCopyList|)
    ensures foldersCopied == FolderCount(Succeeded(outcomes)) && foldersToCopy == foldersPlanned - FolderCount(Failed(outcomes))
    ensures filesCopied == FileCount(Succeeded(outcomes)) && filesToCopy == filesPlanned - FileCount(Failed(outcomes))
    ensures sizeCopied == FileBytes(Succeeded(outcomes)) && sizeToCopy == sizePlanned - FileBytes(Failed(outcomes))
    ensures foldersPlanned == FolderCount(toCopyList) ==> foldersCopied == foldersToCopy
    ensures filesPlanned == FileCount(toCopyList) ==> filesCopied == filesToCopy
    ensures sizePlanned == FileBytes(toCopyList) ==> sizeCopied == sizeToCopy
  {
    outcomes := [];
    foldersCopied, filesCopied, sizeCopied := 0, 0, 0;
    foldersToCopy, filesToCopy, sizeToCopy := foldersPlanned, filesPlanned, sizePlanned;
    for i := 0 to |toCopyList|
      invariant outcomes == Attempts(toCopyList, copyOk, i)
      invariant foldersCopied == FolderCount(Succeeded(outcomes)) && foldersToCopy == foldersPlanned - FolderCount(Failed(outcomes))
      invariant filesCopied == FileCount(Succeeded(outcomes)) && filesToCopy == filesPlanned - FileCount(Failed(outcomes))
      invariant sizeCopied == FileBytes(Succeeded(outcomes)) && sizeToCopy == sizePlanned - FileBytes(Failed(outcomes))
    {
      var e := toCopyList[i];
      var isDirectory := e.entry.info.isFolder;
      var fileSize := if isDirectory then 0 else e.entry.info.length;
      var ok := copyOk(i);
      SnocOutcome(outcomes, Outcome(e, ok));
      AttemptsSnoc(toCopyList, copyOk, i);
      outcomes := outcomes + [Outcome(e, ok)];
      if isDirectory {
        if ok {
          foldersCopied := foldersCopied + 1;
        } else {
          foldersToCopy := foldersToCopy - 1;
        }
      } else {
        if ok {
          filesCopied := filesCopied + 1;
          sizeCopied := sizeCopied + fileSize;
        } else {
          filesToCopy := filesToCopy - 1;
          sizeToCopy := sizeToCopy - fileSize;
        }
      }
    }
    AttemptsItems(toCopyList, copyOk);
    OutcomesSplit(outcomes);
  }

  /** How removing one file went: the direct move, the retry's directory creation and move, or the delete. */
  datatype FileAttempt = FileAttempt(moved: bool, parentCreated: bool, movedAfterCreate: bool, deleted: bool)

  /**
   * With a folder for removed files, a file is removed when it is moved there
   * directly or, failing that, after its parent folder has been created; without
   * one, when it is deleted.
   */
  predicate FileRemoved(quarantine: Option<string>, a: FileAttempt) {
    if quarantine.Some? then a.moved || (a.parentCreated && a.movedAfterCreate) else a.deleted
  }

  /** The outcomes of the first n file removals, in list order. */
  function FileOutcomes(list: seq<Planned>, quarantine: Option<string>, attempt: nat -> FileAttempt, n: nat): (o: seq<Outcome>)
    requires n <= |list|
    ensures |o| == n && forall k :: 0 <= k < n ==> o[k] == Outcome(list[k], FileRemoved(quarantine, attempt(k)))
  {
    seq(n, k requires 0 <= k < n => Outcome(list[k], FileRemoved(quarantine, attempt(k))))
  }

  lemma FileOutcomesSnoc(list: seq<Planned>, quarantine: Option<string>, attempt: nat -> FileAttempt, n: nat)
    requires n < |list|
    ensures FileOutcomes(list, quarantine, attempt, n + 1) ==
      FileOutcomes(list, quarantine, attempt, n) + [Outcome(list[n], FileRemoved(quarantine, attempt(n)))]
  {
  }

  /** The try blocks around one file removal: err is set when the file stays where it was. */
  method TryRemoveFile(quarantine: Option<string>, a: FileAttempt) returns (err: bool)
    ensures err <==> !FileRemoved(quarantine, a)
    ensures quarantine.Some? ==> (err <==> !a.moved && !(a.parentCreated && a.movedAfterCreate))
    ensures quarantine.None? ==> (err <==> !a.deleted)
  {
    if quarantine.Some? {
      if a.moved {
        err := false;
      } else if a.parentCreated {
        // the retry: create the parent folder, then move again
        err := !a.movedAfterCreate;
      } else {
        err := true;
      }
    } else {
      err := !a.deleted;
    }
  }

  /** The file removal loop; `attempt(i)` is how the filesystem answers for item i. */
  method RemoveFiles(toRemoveFileList: seq<Planned>, filesPlanned: int, sizePlanned: int,
                     quarantine: Option<string>, attempt: nat -> FileAttempt)
    returns (outcomes: seq<Outcome>, filesRemoved: nat, sizeRemoved: nat, filesToRemove: int, sizeToRemove: int)
    ensures outcomes == FileOutcomes(toRemoveFileList, quarantine, attempt, |toRemoveFileList|)
    ensures Items(outcomes) == toRemoveFileList
    ensures filesRemoved == |Succeeded(outcomes)| && filesToRemove == filesPlanned - |Failed(outcomes)|
    ensures sizeRemoved == Bytes(Succeeded(outcomes)) && sizeToRemove == sizePlanned - Bytes(Failed(outcomes))
    ensures filesPlanned == |toRemoveFileList| ==> filesRemoved == filesToRemove
    ensures sizePlanned == Bytes(toRemoveFileList) ==> sizeRemoved == sizeToRemove
  {
    outcomes := [];
    filesRemoved, sizeRemoved := 0, 0;
    filesToRemove, sizeToRemove := filesPlanned, sizePlanned;
    for i := 0 to |toRemoveFileList|
      invariant outcomes == FileOutcomes(toRemoveFileList, quarantine, attempt, i)
      invariant filesRemoved == |Succeeded(outcomes)| && filesToRemove == filesPlanned - |Failed(outcomes)|
      invariant sizeRemoved == Bytes(Succeeded(outcomes)) && sizeToRemove == sizePlanned - Bytes(Failed(outcomes))
    {
      var e := toRemoveFileList[i];
      var fileSize := e.entry.info.length;
      var err := TryRemoveFile(quarantine, attempt(i));
      SnocOutcome(outcomes, Outcome(e, !err));
      FileOutcomesSnoc(toRemoveFileList, quarantine, attempt, i);
      outcomes := outcomes + [Outcome(e, !err)];
      if !err {
        sizeRemoved := sizeRemoved + fileSize;
        filesRemoved := filesRemoved + 1;
      } else {
        filesToRemove := filesToRemove - 1;
        sizeToRemove := sizeToRemove - fileSize;
      }
    }
    OutcomesSplit(outcomes);
  }

  /** How removing one folder went: the creation of its copy among the removed files, and the delete. */
  datatype FolderAttempt = FolderAttempt(created: bool, deleted: bool)

  /**
   * With a folder for removed files, a folder is removed when its counterpart
   * there is created and the folder itself is deleted; without one, when it is deleted.
   */
  predicate FolderRemoved(quarantine: Option<string>, a: FolderAttempt) {
    if quarantine.Some? then a.created && a.deleted else a.deleted
  }

  /** The try blocks around one folder removal: the delete is only reached once the counterpart is created. */
  method TryRemoveFolder(quarantine: Option<string>, a: FolderAttempt) returns (err: bool)
    ensures err <==> !FolderRemoved(quarantine, a)
  {
    if quarantine.Some? {
      if a.created {
        err := !a.deleted;
      } else {
        err := true;
      }
    } else {
      err := !a.deleted;
    }
  }

  function Reversed<T>(s: seq<T>): (r: seq<T>)
    ensures |r| == |s| && forall k :: 0 <= k < |s| ==> r[k] == s[|s| - 1 - k]
  {
    seq(|s|, k requires 0 <= k < |s| => s[|s| - 1 - k])
  }

  /** The outcomes of the first m folder removals, which visit the list from its end. */
  function FolderOutcomes(list: seq<Planned>, quarantine: Option<string>, attempt: nat -> FolderAttempt, m: nat): (o: seq<Outcome>)
    requires m <= |list|
    ensures |o| == m
    ensures forall k :: 0 <= k < m ==> o[k] == Outcome(list[|list| - 1 - k], FolderRemoved(quarantine, attempt(|list| - 1 - k)))
  {
    seq(m, k requires 0 <= k < m => Outcome(list[|list| - 1 - k], FolderRemoved(quarantine, attempt(|list| - 1 - k))))
  }

  lemma FolderOutcomesSnoc(list: seq<Planned>, quarantine: Option<string>, attempt: nat -> FolderAttempt, m: nat)
    requires m < |list|
    ensures FolderOutcomes(list, quarantine, attempt, m + 1) == FolderOutcomes(list, quarantine, attempt, m) +
      [Outcome(list[|list| - 1 - m], FolderRemoved(quarantine, attempt(|list| - 1 - m)))]
  {
  }

  /**
   * The folder removal loop, from the last index down to the first, so that a
   * folder discovered inside another is removed before it.
   */
  method RemoveFolders(toRemoveFolderList: seq<Planned>, foldersPlanned: int,
                       quarantine: Option<string>, attempt: nat -> FolderAttempt)
    returns (outcomes: seq<Outcome>, foldersRemoved: nat, foldersToRemove: int)
    ensures outcomes == FolderOutcomes(toRemoveFolderList, quarantine, attempt, |toRemoveFolderList|)
    ensures Items(outcomes) == Reversed(toRemoveFolderList)
    ensures foldersRemoved == |Succeeded(outcomes)| && foldersToRemove == foldersPlanned - |Failed(outcomes)|
    ensures foldersPlanned == |toRemoveFolderList| ==> foldersRemoved == foldersToRemove
  {
    var length := |toRemoveFolderList|;
    outcomes := [];
    foldersRemoved, foldersToRemove := 0, foldersPlanned;
    var i := length - 1;
    while i >= 0
      invariant -1 <= i < length
      invariant outcomes == FolderOutcomes(toRemoveFolderList, quarantine, attempt, length - 1 - i)
      invariant foldersRemoved == |Succeeded(outcomes)| && foldersToRemove == foldersPlanned - |Failed(outcomes)|
    {
      var e := toRemoveFolderList[i];
      var err := TryRemoveFolder(quarantine, attempt(i));
      SnocOutcome(outcomes, Outcome(e, !err));
      FolderOutcomesSnoc(toRemoveFolderList, quarantine, attempt, length - 1 - i);
      outcomes := outcomes + [Outcome(e, !err)];
      if !err {
        foldersRemoved := foldersRemoved + 1;
      } else {
        foldersToRemove := foldersToRemove - 1;
      }
      i := i - 1;
    }
    OutcomesSplit(outcomes);
  }
}
