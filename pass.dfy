/**
 * One backup pass, as the body of the main loop runs it: build both file info
 * dictionaries, select what to copy and what to remove, run the copy, file
 * removal and folder removal loops, empty the plan lists, and report.
 */
module BackupPass {
  import opened Wrappers
  import opened Numerics
  import Logger
  import opened Snapshots
  import opened BackupPlan
  import opened Executor

  /** The plan lists, which live across passes. */
  datatype Lists = Lists(toCopy: seq<Planned>, toRemoveFiles: seq<Planned>, toRemoveFolders: seq<Planned>)

  function NoLists(): Lists {
    Lists([], [], [])
  }

  /** The counters of a finished pass and what happened to each item. */
  datatype Report = Report(
    copied: seq<Outcome>, filesRemovedOutcomes: seq<Outcome>, foldersRemovedOutcomes: seq<Outcome>,
    foldersToCopy: int, filesToCopy: int, sizeToCopy: int,
    foldersCopied: nat, filesCopied: nat, sizeCopied: nat,
    foldersToRemove: int, filesToRemove: int, sizeToRemove: int,
    foldersRemoved: nat, filesRemoved: nat, sizeRemoved: nat)

  /**
   * A pass either ends the program (a dictionary could not be built) or
   * completes, with its two plan lines and its closing line.
   */
  datatype PassResult = Exited(code: int) | Completed(report: Report, copyLine: string, removeLine: string, summary: string)

  /** "n folder" or "n folders", with the noun given with its leading space. */
  function CountPhrase(n: int, noun: string): string {
    IntToString(n) + noun + (if n == 1 then "" else "s")
  }

  /** The line that announces what a pass is going to copy or remove. */
  function PlanLine(folders: int, files: int, size: nat, action: string): string {
    CountPhrase(folders, " folder") + " and " + CountPhrase(files, " file") + " to " + action +
      " (" + Logger.HumanReadableSize(size) + ")"
  }

  /** The plan line opens with the folder count, pluralised by that count. */
  lemma PlanLineOpensWithFolders(folders: int, files: int, size: nat, action: string)
    ensures PlanLine(folders, files, size, action)[..|CountPhrase(folders, " folder")|] == CountPhrase(folders, " folder")
  {
    var p := CountPhrase(folders, " folder");
    PrefixOfConcat(p, " and " + CountPhrase(files, " file") + " to " + action +
      " (" + Logger.HumanReadableSize(size) + ")");
  }

  /** The size difference of a pass: its sign, then its magnitude. */
  function Delta(copied: nat, removed: nat): string {
    if copied >= removed then "+" + Logger.HumanReadableSize(copied - removed)
    else "-" + Logger.HumanReadableSize(removed - copied)
  }

  /** Everything of the closing line after its copied-folder phrase. */
  function AfterCopiedFolders(r: Report): string {
    " and " + CountPhrase(r.filesCopied, " file") +
      " copied (" + Logger.HumanReadableSize(r.sizeCopied) + "), " +
      CountPhrase(r.foldersRemoved, " folder") + " and " + CountPhrase(r.filesRemoved, " file") +
      " removed (" + Logger.HumanReadableSize(r.sizeRemoved) + "), delta: " + Delta(r.sizeCopied, r.sizeRemoved)
  }

  /** The closing line of a pass, with every count pluralised by its own value. */
  function Summary(r: Report): string {
    CountPhrase(r.foldersCopied, " folder") + AfterCopiedFolders(r)
  }

  /** The closing line as the source builds it: the copied-folder count takes its plural from foldersRemoved. */
  function SummaryAsWritten(r: Report): string {
    IntToString(r.foldersCopied) + " folder" + (if r.foldersRemoved == 1 then "" else "s") + AfterCopiedFolders(r)
  }

  /** A count of one takes the singular, any other count the plural. */
  lemma CountPhrasePlural(n: int, noun: string)
    ensures CountPhrase(n, noun) == if n == 1 then "1" + noun else IntToString(n) + noun + "s"
  {
    if n == 1 {
      OneDigit(1);
    }
  }

  /** The sign of the delta says whether more was copied than removed. */
  lemma DeltaSign(copied: nat, removed: nat)
    ensures Delta(copied, removed)[0] == '+' <==> copied >= removed
  {
  }

  lemma PrefixOfConcat(p: string, q: string)
    ensures (p + q)[..|p|] == p
  {
  }

  /** The corrected summary opens with the copied folders, pluralised by their own count. */
  lemma SummaryOpensWithCopiedFolders(r: Report)
    ensures Summary(r)[..|CountPhrase(r.foldersCopied, " folder")|] == CountPhrase(r.foldersCopied, " folder")
  {
    PrefixOfConcat(CountPhrase(r.foldersCopied, " folder"), AfterCopiedFolders(r));
  }

  /** The two openings for a single copied folder, whatever follows them. */
  lemma OneFolderOpenings(t: string)
    ensures (IntToString(1) + " folder" + "s" + t)[..9] == "1 folders"
    ensures (CountPhrase(1, " folder") + t)[..8] == "1 folder"
    ensures t != [] ==> (CountPhrase(1, " folder") + t)[8] == t[0]
  {
    OneDigit(1);
    assert IntToString(1) + " folder" + "s" + t == "1 folders" + t;
    assert CountPhrase(1, " folder") + t == "1 folder" + t;
  }

  /** One folder copied and none removed: the source prints "1 folders", the corrected line "1 folder" and a space. */
  lemma SummaryAsWrittenMiscounts(r: Report)
    requires r.foldersCopied == 1 && r.foldersRemoved == 0
    ensures SummaryAsWritten(r)[..9] == "1 folders"
    ensures Summary(r)[..8] == "1 folder" && Summary(r)[8] == ' '
  {
    var tail := AfterCopiedFolders(r);
    assert tail[0] == ' ';
    OneFolderOpenings(tail);
  }

  /** The source's closing line is the corrected one exactly when both folder counts are or are not 1 together. */
  lemma SummariesAgree(r: Report)
    ensures SummaryAsWritten(r) == Summary(r) <==> ((r.foldersRemoved == 1) == (r.foldersCopied == 1))
  {
    var tail := AfterCopiedFolders(r);
    var head := IntToString(r.foldersCopied) + " folder";
    var written := if r.foldersRemoved == 1 then "" else "s";
    var right := if r.foldersCopied == 1 then "" else "s";
    assert SummaryAsWritten(r) == head + written + tail;
    assert Summary(r) == head + right + tail;
    if written != right {
      assert |written| != |right|;
      assert |SummaryAsWritten(r)| != |Summary(r)|;
    }
  }

  /** Both dictionaries can be built: every enumerated item lies below its root. */
  predicate Scannable(items: seq<FsItem>, root: string) {
    FitsRoot(items, root, |items|)
  }

  /** The copy selection of a pass over its two dictionaries. */
  function CopyPlan(source: seq<FsItem>, sourceRoot: string, destination: seq<FsItem>, destinationRoot: string,
                    toCopy: Decision): (seq<Planned>, Snapshot)
    requires Scannable(source, sourceRoot) && Scannable(destination, destinationRoot)
  {
    var s := Built(source, sourceRoot, |source|);
    Select(s, Built(destination, destinationRoot, |destination|), toCopy, |s|)
  }

  /** The removal selection of a pass, over the destination dictionary as the copy selection left it. */
  function RemovePlan(source: seq<FsItem>, sourceRoot: string, destination: seq<FsItem>, destinationRoot: string,
                      toCopy: Decision, toRemove: Decision): seq<Planned>
    requires Scannable(source, sourceRoot) && Scannable(destination, destinationRoot)
  {
    var d := CopyPlan(source, sourceRoot, destination, destinationRoot, toCopy).1;
    Select(d, Built(source, sourceRoot, |source|), toRemove, |d|).0
  }

  /** The outcome lists of a pass are the loops' attempts over the carried lists followed by the new selections. */
  predicate Attempted(r: Report, lists: Lists, plan: seq<Planned>, removal: seq<Planned>, quarantine: Option<string>,
                      copyOk: nat -> bool, fileAttempt: nat -> FileAttempt, folderAttempt: nat -> FolderAttempt)
  {
    var copyList := lists.toCopy + plan;
    var fileList := lists.toRemoveFiles + Files(removal);
    var folderList := lists.toRemoveFolders + Folders(removal);
    && r.copied == Attempts(copyList, copyOk, |copyList|)
    && r.filesRemovedOutcomes == FileOutcomes(fileList, quarantine, fileAttempt, |fileList|)
    && r.foldersRemovedOutcomes == FolderOutcomes(folderList, quarantine, folderAttempt, |folderList|)
  }

  /**
   * The counters of a pass: each done counter counts the successes, each to-do
   * counter is what the selection counted minus the failures.
   */
  predicate Tallied(r: Report, plan: seq<Planned>, removal: seq<Planned>) {
    && r.foldersCopied == FolderCount(Succeeded(r.copied))
    && r.filesCopied == FileCount(Succeeded(r.copied))
    && r.sizeCopied == FileBytes(Succeeded(r.copied))
    && r.foldersToCopy == FolderCount(plan) - FolderCount(Failed(r.copied))
    && r.filesToCopy == FileCount(plan) - FileCount(Failed(r.copied))
    && r.sizeToCopy == FileBytes(plan) - FileBytes(Failed(r.copied))
    && r.filesRemoved == |Succeeded(r.filesRemovedOutcomes)|
    && r.sizeRemoved == Bytes(Succeeded(r.filesRemovedOutcomes))
    && r.filesToRemove == FileCount(removal) - |Failed(r.filesRemovedOutcomes)|
    && r.sizeToRemove == FileBytes(removal) - Bytes(Failed(r.filesRemovedOutcomes))
    && r.foldersRemoved == |Succeeded(r.foldersRemovedOutcomes)|
    && r.foldersToRemove == FolderCount(removal) - |Failed(r.foldersRemovedOutcomes)|
  }

  /**
   * One pass. The three loops run over the carried lists followed by the new
   * selections, the counters tally their successes and failures, and the lists
   * are emptied. Starting from empty lists, every done counter ends equal to
   * its to-do counter.
   */
  method RunPass(source: seq<FsItem>, sourceRoot: string, destination: seq<FsItem>, destinationRoot: string,
                 toCopy: Decision, toRemove: Decision, quarantine: Option<string>,
                 copyOk: nat -> bool, fileAttempt: nat -> FileAttempt, folderAttempt: nat -> FolderAttempt,
                 lists: Lists)
    returns (result: PassResult, next: Lists)
    ensures result.Exited? <==> !Scannable(source, sourceRoot) || !Scannable(destination, destinationRoot)
    ensures result.Exited? ==> result.code == 2
    ensures result.Completed? ==> next == NoLists() && result.summary == SummaryAsWritten(result.report)
    ensures result.Completed? ==>
      var plan := CopyPlan(source, sourceRoot, destination, destinationRoot, toCopy).0;
      var removal := RemovePlan(source, sourceRoot, destination, destinationRoot, toCopy, toRemove);
      && Attempted(result.report, lists, plan, removal, quarantine, copyOk, fileAttempt, folderAttempt)
      && Tallied(result.report, plan, removal)
      && result.copyLine == PlanLine(FolderCount(plan), FileCount(plan), FileBytes(plan), "copy")
      && result.removeLine == PlanLine(FolderCount(removal), FileCount(removal), FileBytes(removal), "remove")
    ensures result.Completed? ==>
      && Items(result.report.copied) == lists.toCopy + CopyPlan(source, sourceRoot, destination, destinationRoot, toCopy).0
      && Items(result.report.filesRemovedOutcomes) ==
           lists.toRemoveFiles + Files(RemovePlan(source, sourceRoot, destination, destinationRoot, toCopy, toRemove))
      && Items(result.report.foldersRemovedOutcomes) ==
           Reversed(lists.toRemoveFolders + Folders(RemovePlan(source, sourceRoot, destination, destinationRoot, toCopy, toRemove)))
    ensures result.Completed? && lists == NoLists() ==>
      var r := result.report;
      && r.foldersCopied == r.foldersToCopy && r.filesCopied == r.filesToCopy && r.sizeCopied == r.sizeToCopy
      && r.foldersRemoved == r.foldersToRemove && r.filesRemoved == r.filesToRemove && r.sizeRemoved == r.sizeToRemove
  {
    next := lists;
    var sourceInfo := BuildInfoDictionary(source, sourceRoot);
    var destinationInfo := BuildInfoDictionary(destination, destinationRoot);
    if sourceInfo.None? || destinationInfo.None? {
      return Exited(2), next;
    }
    var toCopyList, destinationAfter, foldersToCopy, filesToCopy, sizeToCopy :=
      SelectToCopy(sourceInfo.value, destinationInfo.value, toCopy, lists.toCopy);
    var copyLine := PlanLine(foldersToCopy, filesToCopy, sizeToCopy, "copy");
    var fileList, folderList, sourceAfter, foldersToRemove, filesToRemove, sizeToRemove :=
      SelectToRemove(destinationAfter, sourceInfo.value, toRemove, lists.toRemoveFiles, lists.toRemoveFolders);
    var removeLine := PlanLine(foldersToRemove, filesToRemove, sizeToRemove, "remove");
    ghost var plan := CopyPlan(source, sourceRoot, destination, destinationRoot, toCopy).0;
    ghost var removal := RemovePlan(source, sourceRoot, destination, destinationRoot, toCopy, toRemove);
    SplitCounts(removal);

    var copied, foldersCopied, filesCopied, sizeCopied, foldersLeft, filesLeft, sizeLeft :=
      CopyItems(toCopyList, foldersToCopy, filesToCopy, sizeToCopy, copyOk);
    AttemptsItems(toCopyList, copyOk);
    var filesRemovedOutcomes, filesRemoved, sizeRemoved, filesToRemoveLeft, sizeToRemoveLeft :=
      RemoveFiles(fileList, filesToRemove, sizeToRemove, quarantine, fileAttempt);
    var foldersRemovedOutcomes, foldersRemoved, foldersToRemoveLeft :=
      RemoveFolders(folderList, foldersToRemove, quarantine, folderAttempt);
    next := NoLists();

    if lists == NoLists() {
      assert toCopyList == plan && fileList == Files(removal) && folderList == Folders(removal);
    }
    var report := Report(copied, filesRemovedOutcomes, foldersRemovedOutcomes,
      foldersLeft, filesLeft, sizeLeft, foldersCopied, filesCopied, sizeCopied,
      foldersToRemoveLeft, filesToRemoveLeft, sizeToRemoveLeft, foldersRemoved, filesRemoved, sizeRemoved);
    result := Completed(report, copyLine, removeLine, SummaryAsWritten(report));
  }
}
