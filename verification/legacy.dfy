/**
 * Model of the parts of cmd/hop/main.go that are its own: the earlier,
 * sequential push (`uploadDirectoryOptimized` with the fail-fast
 * `buildRemoteFileMap`), the summary and exit rule of `handleCDNPush`, the
 * rule `handleAdd` creates and the filter `handleList` applies. The helpers
 * main.go shares with push.go and edgerule.go (shouldSkipUpload,
 * listRemoteFiles, normalizeURL, extractSourceURL, buildRedirectMap) are the
 * ones of the Push and EdgeRules modules.
 */
module Legacy {
  import opened Wrappers
  import opened Text
  import Push
  import EdgeRules

  // ---------------------------------------------------------------------
  // buildRemoteFileMap
  // ---------------------------------------------------------------------

  /** The map `collectFiles` has filled so far, and the error it returned. */
  datatype Collected = Collected(Files: map<string, Push.RemoteFileInfo>, Err: Option<string>)

  /**
   * collectFiles(currentPath) on the listing `l`, starting from the map
   * `acc`: files are added under their relative path, directories are
   * descended into, and the first failing listing stops the whole walk
   * with its error (what was added before it stays in the map).
   */
  function CollectListing(l: Push.RemoteListing, currentPath: string, remoteDir: string,
                          acc: map<string, Push.RemoteFileInfo>): Collected
    decreases l, 1
  {
    if Push.ListedEntries(l).None? then Collected(acc, Some(Push.ListingError(l)))
    else if l.Listed? && l.StatusCode == 200 then CollectEntries(l, 0, currentPath, remoteDir, acc)
    else Collected(acc, None)
  }

  function CollectEntries(l: Push.RemoteListing, i: nat, currentPath: string, remoteDir: string,
                          acc: map<string, Push.RemoteFileInfo>): Collected
    requires l.Listed? && i <= |l.Entries|
    decreases l, 0, |l.Entries| - i
  {
    if i == |l.Entries| then Collected(acc, None)
    else
      var e := l.Entries[i];
      if e.Info.IsDirectory then
        var sub := CollectListing(e.Children, SlashPath(Join(currentPath, e.Info.Name)), remoteDir, acc);
        if sub.Err.Some? then sub else CollectEntries(l, i + 1, currentPath, remoteDir, sub.Files)
      else
        var file := Push.WithListingPath(e.Info, currentPath);
        CollectEntries(l, i + 1, currentPath, remoteDir, acc[Push.RemoteRelPath(currentPath, remoteDir, e.Info.Name) := file])
  }

  /** The recursive closure `collectFiles`, filling `fileMap` as it goes. */
  method CollectFiles(l: Push.RemoteListing, currentPath: string, remoteDir: string,
                      fileMap: map<string, Push.RemoteFileInfo>)
    returns (files: map<string, Push.RemoteFileInfo>, err: Option<string>)
    ensures Collected(files, err) == CollectListing(l, currentPath, remoteDir, fileMap)
    decreases l, 1
  {
    files := fileMap;
    var listed := Push.ListRemoteFiles(l, currentPath);
    if listed.Failure? {
      return files, Some(listed.error);
    }
    var entries := listed.value;
    for i := 0 to |entries|
      invariant |entries| > 0 ==> l.Listed? && l.StatusCode == 200 && |l.Entries| == |entries|
      invariant |entries| > 0 ==>
        CollectEntries(l, i, currentPath, remoteDir, files) == CollectListing(l, currentPath, remoteDir, fileMap)
      invariant |entries| == 0 ==> files == fileMap
    {
      var file := entries[i];
      assert file == Push.WithListingPath(l.Entries[i].Info, currentPath);
      if file.IsDirectory {
        var subPath := SlashPath(Join(currentPath, file.Name));
        var subErr;
        files, subErr := CollectFiles(l.Entries[i].Children, subPath, remoteDir, files);
        if subErr.Some? {
          return files, subErr;
        }
      } else {
        var relPath := file.Name;
        if currentPath != "" && currentPath != "/" {
          relPath := SlashPath(Join(TrimPrefix(currentPath, remoteDir), file.Name));
        }
        files := files[relPath := file];
      }
    }
    return files, None;
  }

  /**
   * buildRemoteFileMap: every remote file below `remoteDir`, keyed by its
   * path relative to `remoteDir`, or the first listing error together with
   * the files collected before it.
   */
  method BuildRemoteFileMap(root: Push.RemoteListing, remoteDir: string)
    returns (fileMap: map<string, Push.RemoteFileInfo>, err: Option<string>)
    ensures Collected(fileMap, err) == CollectListing(root, remoteDir, remoteDir, map[])
    ensures Push.ListedEntries(root).None? ==> fileMap == map[] && err == Some(Push.ListingError(root))
  {
    fileMap, err := CollectFiles(root, remoteDir, remoteDir, map[]);
  }

  /** Every listing of the tree succeeds (a 404 counts as an empty listing). */
  ghost predicate Healthy(l: Push.RemoteListing)
    decreases l, 1
  {
    Push.ListedEntries(l).Some? && (l.Listed? && l.StatusCode == 200 ==> HealthyFrom(l, 0))
  }

  ghost predicate HealthyFrom(l: Push.RemoteListing, i: nat)
    requires l.Listed?
    decreases l, 0, |l.Entries| - i
  {
    i < |l.Entries| ==>
      (l.Entries[i].Info.IsDirectory ==> Healthy(l.Entries[i].Children)) && HealthyFrom(l, i + 1)
  }

  ghost function Paths(files: seq<Push.RemoteFileInfo>): set<string>
  {
    set i | 0 <= i < |files| :: files[i].Path
  }

  lemma PathsAppend(a: seq<Push.RemoteFileInfo>, b: seq<Push.RemoteFileInfo>)
    ensures Paths(a + b) == Paths(a) + Paths(b)
  {
    forall p | p in Paths(a + b)
      ensures p in Paths(a) + Paths(b)
    {
      var i :| 0 <= i < |a + b| && (a + b)[i].Path == p;
      if i >= |a| {
        assert b[i - |a|].Path == p;
      } else {
        assert a[i].Path == p;
      }
    }
    forall p | p in Paths(a)
      ensures p in Paths(a + b)
    {
      var i :| 0 <= i < |a| && a[i].Path == p;
      assert (a + b)[i].Path == p;
    }
    forall p | p in Paths(b)
      ensures p in Paths(a + b)
    {
      var i :| 0 <= i < |b| && b[i].Path == p;
      assert (a + b)[|a| + i].Path == p;
    }
  }

  /**
   * The fail-fast map and the error-tolerant streamer of push.go agree
   * whenever nothing fails: the map then holds exactly the relative paths
   * the streamer yields (on top of what was already there), and the map
   * reports an error exactly when some listing of the tree fails.
   */
  lemma {:induction false} CollectListingMatchesStream(l: Push.RemoteListing, currentPath: string, remoteDir: string,
                                                       acc: map<string, Push.RemoteFileInfo>)
    ensures CollectListing(l, currentPath, remoteDir, acc).Err.None? <==> Healthy(l)
    ensures Healthy(l) ==>
      CollectListing(l, currentPath, remoteDir, acc).Files.Keys == acc.Keys + Paths(Push.StreamListing(l, currentPath, remoteDir))
    decreases l, 1
  {
    if Push.ListedEntries(l).Some? && l.Listed? && l.StatusCode == 200 {
      CollectEntriesMatchesStream(l, 0, currentPath, remoteDir, acc);
    }
  }

  lemma {:induction false} CollectEntriesMatchesStream(l: Push.RemoteListing, i: nat, currentPath: string, remoteDir: string,
                                                       acc: map<string, Push.RemoteFileInfo>)
    requires l.Listed? && i <= |l.Entries|
    ensures CollectEntries(l, i, currentPath, remoteDir, acc).Err.None? <==> HealthyFrom(l, i)
    ensures HealthyFrom(l, i) ==>
      CollectEntries(l, i, currentPath, remoteDir, acc).Files.Keys == acc.Keys + Paths(Push.StreamEntries(l, i, currentPath, remoteDir))
    decreases l, 0, |l.Entries| - i
  {
    if i < |l.Entries| {
      var e := l.Entries[i];
      var here := Push.StreamEntry(e, currentPath, remoteDir);
      var rest := Push.StreamEntries(l, i + 1, currentPath, remoteDir);
      assert Push.StreamEntries(l, i, currentPath, remoteDir) == here + rest;
      assert HealthyFrom(l, i) == ((e.Info.IsDirectory ==> Healthy(e.Children)) && HealthyFrom(l, i + 1));
      PathsAppend(here, rest);
      if e.Info.IsDirectory {
        var subPath := SlashPath(Join(currentPath, e.Info.Name));
        var sub := CollectListing(e.Children, subPath, remoteDir, acc);
        assert here == Push.StreamListing(e.Children, subPath, remoteDir);
        CollectListingMatchesStream(e.Children, subPath, remoteDir, acc);
        if sub.Err.None? {
          assert CollectEntries(l, i, currentPath, remoteDir, acc) == CollectEntries(l, i + 1, currentPath, remoteDir, sub.Files);
          CollectEntriesMatchesStream(l, i + 1, currentPath, remoteDir, sub.Files);
        } else {
          assert CollectEntries(l, i, currentPath, remoteDir, acc) == sub;
        }
      } else {
        var key := Push.RemoteRelPath(currentPath, remoteDir, e.Info.Name);
        var acc' := acc[key := Push.WithListingPath(e.Info, currentPath)];
        assert CollectEntries(l, i, currentPath, remoteDir, acc) == CollectEntries(l, i + 1, currentPath, remoteDir, acc');
        CollectEntriesMatchesStream(l, i + 1, currentPath, remoteDir, acc');
        PathsSingleton(e.Info.(Path := key));
        assert here == [e.Info.(Path := key)];
      }
    }
  }

  lemma PathsSingleton(f: Push.RemoteFileInfo)
    ensures Paths([f]) == {f.Path}
  {
    assert [f][0].Path == f.Path;
  }

  /** With a healthy tree, the keys of the remote map are the paths the streamer yields. */
  lemma RemoteMapMatchesStream(root: Push.RemoteListing, remoteDir: string)
    requires Healthy(root)
    ensures CollectListing(root, remoteDir, remoteDir, map[]).Err.None?
    ensures CollectListing(root, remoteDir, remoteDir, map[]).Files.Keys == Paths(Push.StreamRemoteFiles(root, remoteDir))
  {
    CollectListingMatchesStream(root, remoteDir, remoteDir, map[]);
  }

  // ---------------------------------------------------------------------
  // uploadDirectoryOptimized (sequential)
  // ---------------------------------------------------------------------

  /** The failed status recorded for a walk callback error or a failed relative path. */
  function EntryFailure(path: string, err: string): Push.FileUploadStatus
  {
    Push.FileUploadStatus(path, false, Some(err), false, "")
  }

  /** What the walk callback appends to the results for one entry, if anything. */
  function EntryStatus(e: Push.WalkEntry): (r: Option<Push.FileUploadStatus>)
    ensures r.Some? <==> e.Err.Some? || (!e.IsDir && e.Rel.Failure?)
    ensures r.Some? ==> r.value.Path == e.Path && !r.value.Success && !r.value.Skipped
  {
    if e.Err.Some? then Some(EntryFailure(e.Path, e.Err.value))
    else if e.IsDir then None
    else if e.Rel.Failure? then Some(EntryFailure(e.Path, e.Rel.error))
    else None
  }

  /** The walk entries that become local files: no error, not a directory, a relative path. */
  predicate Collects(e: Push.WalkEntry)
  {
    e.Err.None? && !e.IsDir && e.Rel.Success?
  }

  /** The statuses the walk appends, in walk order. */
  function WalkStatuses(walk: seq<Push.WalkEntry>): seq<Push.FileUploadStatus>
    decreases |walk|
  {
    if walk == [] then []
    else
      var s := WalkStatuses(walk[..|walk| - 1]);
      var st := EntryStatus(walk[|walk| - 1]);
      if st.Some? then s + [st.value] else s
  }

  /** The local files the walk collects, in walk order (duplicates are kept). */
  function LocalFiles(walk: seq<Push.WalkEntry>): seq<Push.LocalFileInfo>
    decreases |walk|
  {
    if walk == [] then []
    else
      var files := LocalFiles(walk[..|walk| - 1]);
      var e := walk[|walk| - 1];
      if Collects(e) then files + [Push.LocalEntry(e)] else files
  }

  /** Every walk entry leads to at most one thing: a failed status, a local file, or nothing (a directory). */
  lemma {:induction false} WalkAccounting(walk: seq<Push.WalkEntry>)
    ensures |WalkStatuses(walk)| + |LocalFiles(walk)| <= |walk|
    ensures forall i :: 0 <= i < |WalkStatuses(walk)| ==>
      !WalkStatuses(walk)[i].Success && !WalkStatuses(walk)[i].Skipped
    ensures forall i :: 0 <= i < |LocalFiles(walk)| ==>
      NoBackslash(LocalFiles(walk)[i].RelPath) && exists j :: 0 <= j < |walk| && Collects(walk[j]) && LocalFiles(walk)[i] == Push.LocalEntry(walk[j])
    decreases |walk|
  {
    if walk != [] {
      var n := |walk| - 1;
      WalkAccounting(walk[..n]);
      var files := LocalFiles(walk);
      forall i | 0 <= i < |files|
        ensures exists j :: 0 <= j < |walk| && Collects(walk[j]) && files[i] == Push.LocalEntry(walk[j])
      {
        if i < |LocalFiles(walk[..n])| {
          var j :| 0 <= j < n && Collects(walk[..n][j]) && LocalFiles(walk[..n])[i] == Push.LocalEntry(walk[..n][j]);
          assert walk[j] == walk[..n][j];
        } else {
          assert files[i] == Push.LocalEntry(walk[n]);
        }
      }
    }
  }

  /** The remote map the per-file loop consults: empty when building it failed. */
  function RemoteMapFor(root: Push.RemoteListing, remoteDir: string): map<string, Push.RemoteFileInfo>
  {
    var c := CollectListing(root, remoteDir, remoteDir, map[]);
    if c.Err.Some? then map[] else c.Files
  }

  /** The status of one local file: skipped when an identical remote copy exists, otherwise the upload's outcome. */
  function FileStatus(file: Push.LocalFileInfo, remoteFileMap: map<string, Push.RemoteFileInfo>, remoteDir: string,
                      upload: (string, string) -> Option<string>): (r: Push.FileUploadStatus)
    ensures r.Path == file.Path
    ensures r.Skipped <==> file.RelPath in remoteFileMap && Push.ShouldSkipUpload(file, remoteFileMap[file.RelPath]).0
    ensures r.Skipped ==> r.Success && r.Error.None? && r.Reason == Push.ShouldSkipUpload(file, remoteFileMap[file.RelPath]).1
    ensures !r.Skipped ==>
      var err := upload(file.Path, SlashPath(Join(remoteDir, file.RelPath)));
      r.Error == err && (r.Success <==> err.None?) && r.Reason == ""
  {
    if file.RelPath in remoteFileMap && Push.ShouldSkipUpload(file, remoteFileMap[file.RelPath]).0 then
      Push.FileUploadStatus(file.Path, true, None, true, Push.ShouldSkipUpload(file, remoteFileMap[file.RelPath]).1)
    else
      var err := upload(file.Path, SlashPath(Join(remoteDir, file.RelPath)));
      Push.FileUploadStatus(file.Path, err.None?, err, false, "")
  }

  /** One status per local file, in the order the files were collected. */
  function FileStatuses(files: seq<Push.LocalFileInfo>, remoteFileMap: map<string, Push.RemoteFileInfo>, remoteDir: string,
                        upload: (string, string) -> Option<string>): (r: seq<Push.FileUploadStatus>)
    ensures |r| == |files|
    ensures forall i :: 0 <= i < |files| ==> r[i] == FileStatus(files[i], remoteFileMap, remoteDir, upload)
  {
    seq(|files|, i requires 0 <= i < |files| => FileStatus(files[i], remoteFileMap, remoteDir, upload))
  }

  /** Without a remote map nothing is skipped: every local file is uploaded. */
  lemma NoRemoteMapUploadsEverything(files: seq<Push.LocalFileInfo>, remoteDir: string, upload: (string, string) -> Option<string>)
    ensures forall i :: 0 <= i < |files| ==>
      var r := FileStatuses(files, map[], remoteDir, upload)[i];
      !r.Skipped && r.Error == upload(files[i].Path, SlashPath(Join(remoteDir, files[i].RelPath)))
  {
  }

  /** The error recorded for `localDir` when filepath.Walk itself returns an error. */
  function WalkAbortStatus(localDir: string, err: string): Push.FileUploadStatus
  {
    Push.FileUploadStatus(localDir, false, Some("directory walk failed: " + err), false, "")
  }

  method CollectLocalFiles(walk: seq<Push.WalkEntry>)
    returns (results: seq<Push.FileUploadStatus>, localFiles: seq<Push.LocalFileInfo>)
    ensures results == WalkStatuses(walk)
    ensures localFiles == LocalFiles(walk)
  {
    results, localFiles := [], [];
    for i := 0 to |walk|
      invariant results == WalkStatuses(walk[..i])
      invariant localFiles == LocalFiles(walk[..i])
    {
      assert walk[..i + 1][..i] == walk[..i];
      var entry := walk[i];
      if entry.Err.Some? {
        results := results + [EntryFailure(entry.Path, entry.Err.value)];
        continue;
      }
      if entry.IsDir {
        continue;
      }
      if entry.Rel.Failure? {
        results := results + [EntryFailure(entry.Path, entry.Rel.error)];
        continue;
      }
      localFiles := localFiles + [Push.LocalFileInfo(entry.Path, entry.Size, entry.Checksum, SlashPath(entry.Rel.value))];
    }
    assert walk[..|walk|] == walk;
  }

  /** One iteration of the per-file loop: skip the file or upload it. */
  method UploadOne(localFile: Push.LocalFileInfo, remoteFileMap: map<string, Push.RemoteFileInfo>, remoteDir: string,
                   upload: (string, string) -> Option<string>) returns (status: Push.FileUploadStatus)
    ensures status == FileStatus(localFile, remoteFileMap, remoteDir, upload)
  {
    if localFile.RelPath in remoteFileMap {
      var skip, reason := Push.ShouldSkipUpload(localFile, remoteFileMap[localFile.RelPath]).0,
                          Push.ShouldSkipUpload(localFile, remoteFileMap[localFile.RelPath]).1;
      if skip {
        return Push.FileUploadStatus(localFile.Path, true, None, true, reason);
      }
    }
    var remotePath := SlashPath(Join(remoteDir, localFile.RelPath));
    var err := upload(localFile.Path, remotePath);
    return Push.FileUploadStatus(localFile.Path, err.None?, err, false, "");
  }

  /** The per-file loop with its three counters. */
  method UploadFiles(localFiles: seq<Push.LocalFileInfo>, remoteFileMap: map<string, Push.RemoteFileInfo>, remoteDir: string,
                     upload: (string, string) -> Option<string>)
    returns (results: seq<Push.FileUploadStatus>, uploaded: nat, skipped: nat, failed: nat)
    ensures results == FileStatuses(localFiles, remoteFileMap, remoteDir, upload)
    ensures uploaded == Push.CountOutcome(results, Push.Uploaded)
    ensures skipped == Push.CountOutcome(results, Push.Skipped)
    ensures failed == Push.CountOutcome(results, Push.Failed)
    ensures uploaded + skipped + failed == |localFiles|
  {
    results := [];
    uploaded, skipped, failed := 0, 0, 0;
    for i := 0 to |localFiles|
      invariant |results| == i
      invariant forall j :: 0 <= j < i ==> results[j] == FileStatus(localFiles[j], remoteFileMap, remoteDir, upload)
      invariant uploaded == Push.CountOutcome(results, Push.Uploaded)
      invariant skipped == Push.CountOutcome(results, Push.Skipped)
      invariant failed == Push.CountOutcome(results, Push.Failed)
    {
      var status := UploadOne(localFiles[i], remoteFileMap, remoteDir, upload);
      ghost var before := results;
      results := results + [status];
      assert results[..|results| - 1] == before;
      if status.Skipped {
        skipped := skipped + 1;
      } else if status.Success {
        uploaded := uploaded + 1;
      } else {
        failed := failed + 1;
      }
    }
    Push.CountOutcomePartition(results);
  }

  /**
   * uploadDirectoryOptimized of main.go: walk the local tree (recording
   * per-entry errors and going on), stop if the walk itself failed, fetch
   * the remote map (treating a failure as an empty map), then skip or
   * upload each local file in walk order. `walkErr` is the error
   * filepath.Walk returned; the counters are those of the per-file loop.
   */
  method UploadDirectoryOptimized(walk: seq<Push.WalkEntry>, walkErr: Option<string>, remoteRoot: Push.RemoteListing,
                                  localDir: string, remoteDir: string, upload: (string, string) -> Option<string>)
    returns (results: seq<Push.FileUploadStatus>, uploaded: nat, skipped: nat, failed: nat)
    ensures walkErr.Some? ==>
      results == WalkStatuses(walk) + [WalkAbortStatus(localDir, walkErr.value)] && uploaded == skipped == failed == 0
    ensures walkErr.None? ==>
      var fileResults := FileStatuses(LocalFiles(walk), RemoteMapFor(remoteRoot, remoteDir), remoteDir, upload);
      && results == WalkStatuses(walk) + fileResults
      && uploaded == Push.CountOutcome(fileResults, Push.Uploaded)
      && skipped == Push.CountOutcome(fileResults, Push.Skipped)
      && failed == Push.CountOutcome(fileResults, Push.Failed)
      && uploaded + skipped + failed == |LocalFiles(walk)|
  {
    var localFiles;
    results, localFiles := CollectLocalFiles(walk);
    if walkErr.Some? {
      results := results + [WalkAbortStatus(localDir, walkErr.value)];
      return results, 0, 0, 0;
    }

    var remoteFileMap, err := BuildRemoteFileMap(remoteRoot, remoteDir);
    if err.Some? {
      remoteFileMap := map[];
    }

    var fileResults;
    fileResults, uploaded, skipped, failed := UploadFiles(localFiles, remoteFileMap, remoteDir, upload);
    results := results + fileResults;
  }

  // ---------------------------------------------------------------------
  // handleCDNPush: summary and exit status
  // ---------------------------------------------------------------------

  /** The paths listed under "Failed uploads", in result order. */
  function FailedPaths(results: seq<Push.FileUploadStatus>): (paths: seq<string>)
    ensures |paths| <= |results|
    decreases |results|
  {
    if results == [] then []
    else
      var last := results[|results| - 1];
      FailedPaths(results[..|results| - 1]) + (if !last.Success then [last.Path] else [])
  }

  /** Exactly the failed results are listed. */
  lemma {:induction false} FailedPathsCount(results: seq<Push.FileUploadStatus>)
    ensures |FailedPaths(results)| == Push.CountOutcome(results, Push.Failed)
    ensures forall p :: p in FailedPaths(results) <==> exists i :: 0 <= i < |results| && !results[i].Success && results[i].Path == p
    decreases |results|
  {
    if results != [] {
      var n := |results| - 1;
      FailedPathsCount(results[..n]);
      assert FailedPaths(results) == FailedPaths(results[..n]) + (if !results[n].Success then [results[n].Path] else []);
      forall p
        ensures p in FailedPaths(results) <==> exists i :: 0 <= i < |results| && !results[i].Success && results[i].Path == p
      {
        if exists i :: 0 <= i < |results| && !results[i].Success && results[i].Path == p {
          var i :| 0 <= i < |results| && !results[i].Success && results[i].Path == p;
          if i < n {
            assert results[..n][i] == results[i];
          }
        }
        if exists i :: 0 <= i < n && !results[..n][i].Success && results[..n][i].Path == p {
          var i :| 0 <= i < n && !results[..n][i].Success && results[..n][i].Path == p;
          assert results[i] == results[..n][i];
        }
      }
    }
  }

  /**
   * handleCDNPush after the upload: count uploaded, skipped and failed
   * results, list the failed paths, and exit with status 1 exactly when
   * something failed.
   */
  method HandleCDNPush(results: seq<Push.FileUploadStatus>)
    returns (successful: nat, skipped: nat, failed: nat, failedPaths: seq<string>, exitCode: int)
    ensures successful == Push.CountOutcome(results, Push.Uploaded)
    ensures skipped == Push.CountOutcome(results, Push.Skipped)
    ensures failed == Push.CountOutcome(results, Push.Failed)
    ensures successful + skipped + failed == |results|
    ensures failedPaths == (if failed > 0 then FailedPaths(results) else [])
    ensures |failedPaths| == failed
    ensures exitCode == (if failed > 0 then 1 else 0)
  {
    successful, skipped, failed := Push.TallyResults(results);
    failedPaths := [];
    exitCode := 0;
    if failed > 0 {
      for i := 0 to |results|
        invariant failedPaths == FailedPaths(results[..i])
      {
        assert results[..i + 1][..i] == results[..i];
        if !results[i].Success {
          failedPaths := failedPaths + [results[i].Path];
        }
      }
      assert results[..|results|] == results;
      exitCode := 1;
    }
    FailedPathsCount(results);
  }

  /** A failed walk entry makes the push exit with status 1, even though the upload loop's own counter does not include it. */
  lemma {:induction false} WalkErrorsFailThePush(walk: seq<Push.WalkEntry>, rest: seq<Push.FileUploadStatus>)
    requires WalkStatuses(walk) != []
    ensures Push.CountOutcome(WalkStatuses(walk) + rest, Push.Failed) >= |WalkStatuses(walk)| > 0
  {
    WalkAccounting(walk);
    AllFailed(WalkStatuses(walk));
    Push.CountOutcomeAppend(WalkStatuses(walk), rest, Push.Failed);
  }

  lemma {:induction false} AllFailed(results: seq<Push.FileUploadStatus>)
    requires forall i :: 0 <= i < |results| ==> !results[i].Success
    ensures Push.CountOutcome(results, Push.Failed) == |results|
    decreases |results|
  {
    if results != [] {
      AllFailed(results[..|results| - 1]);
    }
  }

  // ---------------------------------------------------------------------
  // handleAdd and handleList
  // ---------------------------------------------------------------------

  /** The description handleAdd uses when none is given. */
  function DefaultDescription(from: string, to: string): string
  {
    "302 redirect from " + from + " to " + to
  }

  /**
   * The rule handleAdd sends: a 302 redirect to `to`, enabled, with one
   * URL trigger matching `from`; the description defaults when empty.
   */
  function NewRedirectRule(from: string, to: string, desc: string): (rule: EdgeRules.EdgeRule)
    ensures rule.ActionType == EdgeRules.RedirectAction && rule.ActionParameter1 == to && rule.ActionParameter2 == "302"
    ensures rule.Enabled && rule.TriggerMatchingType == 0
    ensures EdgeRules.ExtractSourceURL(rule) == from && |rule.Triggers| == 1 && rule.Triggers[0].Type == 0
    ensures rule.Description == (if desc == "" then DefaultDescription(from, to) else desc)
  {
    EdgeRules.EdgeRule(
      "", EdgeRules.RedirectAction, to, "302",
      [EdgeRules.Trigger(0, [from], 0, "")], 0,
      if desc == "" then DefaultDescription(from, to) else desc, true)
  }

  /** The rules handleList shows: redirects with status code 302. */
  predicate Is302Redirect(rule: EdgeRules.EdgeRule)
  {
    rule.ActionType == EdgeRules.RedirectAction && rule.ActionParameter2 == "302"
  }

  function Redirects302(rules: seq<EdgeRules.EdgeRule>): (r: seq<EdgeRules.EdgeRule>)
    ensures |r| <= |rules|
    ensures forall x :: x in r <==> x in rules && Is302Redirect(x)
    decreases |rules|
  {
    if rules == [] then []
    else
      var rest := Redirects302(rules[..|rules| - 1]);
      var last := rules[|rules| - 1];
      assert rules == rules[..|rules| - 1] + [last];
      if Is302Redirect(last) then rest + [last] else rest
  }

  /** The filter keeps the order: filtering a concatenation concatenates the filtered parts. */
  lemma {:induction false} Redirects302Append(a: seq<EdgeRules.EdgeRule>, b: seq<EdgeRules.EdgeRule>)
    ensures Redirects302(a + b) == Redirects302(a) + Redirects302(b)
    decreases |b|
  {
    if b == [] {
      assert a + b == a;
    } else {
      var n := |b| - 1;
      assert (a + b)[..|a + b| - 1] == a + b[..n];
      Redirects302Append(a, b[..n]);
    }
  }

  /** handleList's filter loop over the listed rules. */
  method HandleList(rules: seq<EdgeRules.EdgeRule>) returns (redirects: seq<EdgeRules.EdgeRule>)
    ensures redirects == Redirects302(rules)
  {
    redirects := [];
    for i := 0 to |rules|
      invariant redirects == Redirects302(rules[..i])
    {
      assert rules[..i + 1][..i] == rules[..i];
      var rule := rules[i];
      if rule.ActionType == 1 && rule.ActionParameter2 == "302" {
        redirects := redirects + [rule];
      }
    }
    assert rules[..|rules|] == rules;
  }

  /**
   * A rule added by handleAdd is shown by handleList, raises no basic
   * issue when it has a destination, and, added after the existing rules,
   * decides the redirect map's entry for its source.
   */
  lemma AddedRuleRoundTrip(existing: seq<EdgeRules.EdgeRule>, from: string, to: string, desc: string)
    requires from != "" && to != ""
    ensures Redirects302(existing + [NewRedirectRule(from, to, desc)]) == Redirects302(existing) + [NewRedirectRule(from, to, desc)]
    ensures EdgeRules.BasicIssuesFor(NewRedirectRule(from, to, desc)) == []
    ensures var rm := EdgeRules.RedirectMapOf(existing + [NewRedirectRule(from, to, desc)]);
      from in rm.SourceToDestination && rm.SourceToDestination[from] == to && rm.Rules[from] == NewRedirectRule(from, to, desc)
  {
    var rule := NewRedirectRule(from, to, desc);
    var all := existing + [rule];
    assert all[..|all| - 1] == existing;
    assert EdgeRules.MapsSource(rule, from);
  }
}
