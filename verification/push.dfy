/**
 * Model of cmd/hop/push.go: the checksum-aware push of a local directory
 * tree to a storage zone.
 *
 * The Go code runs a goroutine pipeline (remote streamer -> skip checker ->
 * eight uploaders -> one collector). Here it is one sequential run: the
 * remote tree is streamed into a sequence, the skip checker consumes it and
 * then sweeps the unmatched local files, each upload task is uploaded in
 * turn, and the outcomes are tallied. Network, filesystem and hashing results
 * are inputs: a remote listing tree, a sequence of walk callbacks and an
 * upload function.
 */
module Push {
  import opened Wrappers
  import opened Text
  import Bunny

  // ---------------------------------------------------------------------
  // Data model
  // ---------------------------------------------------------------------

  /** One local file found by the walk; `Checksum` is "" when hashing failed. */
  datatype LocalFileInfo = LocalFileInfo(Path: string, Size: int, Checksum: string, RelPath: string)

  /** One entry of a storage listing; `Path` is filled in by the client. */
  datatype RemoteFileInfo = RemoteFileInfo(
    Name: string, IsDirectory: bool, Size: int, LastModified: Bunny.Instant, Checksum: string, Path: string)

  /** The outcome record of one local file. */
  datatype FileUploadStatus = FileUploadStatus(
    Path: string, Success: bool, Error: Option<string>, Skipped: bool, Reason: string)

  datatype FileUploadTask = FileUploadTask(LocalFile: LocalFileInfo, RemotePath: string)

  const ChecksumMatch: string := "checksum match"
  const SizeMatchNoChecksum: string := "size match (no checksum)"

  // ---------------------------------------------------------------------
  // Skip decision
  // ---------------------------------------------------------------------

  /**
   * shouldSkipUpload: a size mismatch always forces an upload; with equal
   * sizes the checksums decide when both are known, and the size alone
   * decides otherwise. The reason is non-empty exactly when the file is skipped.
   */
  function ShouldSkipUpload(localFile: LocalFileInfo, remoteFile: RemoteFileInfo): (r: (bool, string))
    ensures r.0 <==> localFile.Size == remoteFile.Size &&
                     (localFile.Checksum == "" || remoteFile.Checksum == "" || localFile.Checksum == remoteFile.Checksum)
    ensures !r.0 ==> r.1 == ""
    ensures r.0 ==> r.1 == (if localFile.Checksum != "" && remoteFile.Checksum != "" then ChecksumMatch else SizeMatchNoChecksum)
  {
    if localFile.Size != remoteFile.Size then (false, "")
    else if remoteFile.Checksum != "" && localFile.Checksum != "" then
      if localFile.Checksum == remoteFile.Checksum then (true, ChecksumMatch) else (false, "")
    else if localFile.Size == remoteFile.Size then (true, SizeMatchNoChecksum)
    else (false, "")
  }

  /** The decision does not depend on which side is local and which is remote. */
  lemma ShouldSkipUploadSymmetric(a: LocalFileInfo, b: RemoteFileInfo, a': LocalFileInfo, b': RemoteFileInfo)
    requires a'.Size == b.Size && a'.Checksum == b.Checksum
    requires b'.Size == a.Size && b'.Checksum == a.Checksum
    ensures ShouldSkipUpload(a', b') == ShouldSkipUpload(a, b)
  {
  }

  // ---------------------------------------------------------------------
  // Local inventory (buildLocalFileMap)
  // ---------------------------------------------------------------------

  /**
   * One call of the `filepath.Walk` callback: the visited path, the error the
   * walk passed in (if any), whether it is a directory, its size, the result of
   * `filepath.Rel(localDir, path)` and the checksum ("" when hashing failed).
   */
  datatype WalkEntry = WalkEntry(
    Path: string, Err: Option<string>, IsDir: bool, Size: int, Rel: Result<string, string>, Checksum: string)

  /** The error with which the callback aborts the walk at this entry, if any. */
  function WalkFailure(e: WalkEntry): Option<string>
  {
    if e.Err.Some? then e.Err
    else if !e.IsDir && e.Rel.Failure? then Some(e.Rel.error)
    else None
  }

  /** The first error that aborts the walk. */
  function FirstWalkFailure(walk: seq<WalkEntry>): Option<string>
    decreases |walk|
  {
    if walk == [] then None
    else if FirstWalkFailure(walk[..|walk| - 1]).Some? then FirstWalkFailure(walk[..|walk| - 1])
    else WalkFailure(walk[|walk| - 1])
  }

  function LocalEntry(e: WalkEntry): LocalFileInfo
    requires e.Rel.Success?
  {
    LocalFileInfo(e.Path, e.Size, e.Checksum, SlashPath(e.Rel.value))
  }

  /** The map the walk builds: slash-normalised relative path to file, later entries overwriting. */
  function LocalFileMap(walk: seq<WalkEntry>): map<string, LocalFileInfo>
    decreases |walk|
  {
    if walk == [] then map[]
    else
      var m := LocalFileMap(walk[..|walk| - 1]);
      var e := walk[|walk| - 1];
      if e.Err.None? && !e.IsDir && e.Rel.Success? then m[SlashPath(e.Rel.value) := LocalEntry(e)] else m
  }

  /** Every key of the local map is the entry's own `RelPath` and contains no backslash. */
  ghost predicate KeyedByRelPath(m: map<string, LocalFileInfo>)
  {
    forall k :: k in m ==> m[k].RelPath == k && NoBackslash(k)
  }

  lemma {:induction false} LocalFileMapKeyed(walk: seq<WalkEntry>)
    ensures KeyedByRelPath(LocalFileMap(walk))
  {
    if walk != [] {
      LocalFileMapKeyed(walk[..|walk| - 1]);
    }
  }

  lemma {:induction false} FirstWalkFailureSticks(walk: seq<WalkEntry>, more: seq<WalkEntry>)
    requires FirstWalkFailure(walk).Some?
    ensures FirstWalkFailure(walk + more) == FirstWalkFailure(walk)
    decreases |more|
  {
    if more != [] {
      var last := more[|more| - 1];
      FirstWalkFailureSticks(walk, more[..|more| - 1]);
      assert (walk + more)[..|walk + more| - 1] == walk + more[..|more| - 1];
    } else {
      assert walk + more == walk;
    }
  }

  /**
   * buildLocalFileMap: fills the map in walk order and aborts with the first
   * callback error (a walk error or a failed relative path).
   */
  method BuildLocalFileMap(walk: seq<WalkEntry>) returns (r: Result<map<string, LocalFileInfo>, string>)
    ensures FirstWalkFailure(walk).Some? ==> r == Failure(FirstWalkFailure(walk).value)
    ensures FirstWalkFailure(walk).None? ==> r == Success(LocalFileMap(walk))
  {
    var localFileMap: map<string, LocalFileInfo> := map[];
    for i := 0 to |walk|
      invariant FirstWalkFailure(walk[..i]).None?
      invariant localFileMap == LocalFileMap(walk[..i])
    {
      var entry := walk[i];
      assert walk[..i + 1][..i] == walk[..i];
      if entry.Err.Some? {
        FirstWalkFailureSticks(walk[..i + 1], walk[i + 1..]);
        assert walk[..i + 1] + walk[i + 1..] == walk;
        return Failure(entry.Err.value);
      }
      if entry.IsDir {
        continue;
      }
      if entry.Rel.Failure? {
        FirstWalkFailureSticks(walk[..i + 1], walk[i + 1..]);
        assert walk[..i + 1] + walk[i + 1..] == walk;
        return Failure(entry.Rel.error);
      }
      var relPath := SlashPath(entry.Rel.value);
      localFileMap := localFileMap[relPath := LocalFileInfo(entry.Path, entry.Size, entry.Checksum, relPath)];
    }
    assert walk[..|walk|] == walk;
    return Success(localFileMap);
  }

  // ---------------------------------------------------------------------
  // Remote inventory (listRemoteFiles, remoteFileStreamer)
  // ---------------------------------------------------------------------

  /**
   * The answer of the storage API to one listing call. `Children` of an
   * entry is the answer for that entry's own path (used for directories).
   */
  datatype RemoteEntry = RemoteEntry(Info: RemoteFileInfo, Children: RemoteListing)

  datatype RemoteListing =
    | RequestFailure(Message: string)               // the request could not be built
    | TransportFailure(Message: string)             // the request could not be sent
    | NilResponse                                   // the client returned no response
    | Unparsable(StatusCode: int)                   // body unreadable or not a JSON listing
    | Listed(StatusCode: int, Entries: seq<RemoteEntry>)

  /** The entries a listing yields: 404 is an empty listing, anything but 200 an error. */
  function ListedEntries(l: RemoteListing): Option<seq<RemoteEntry>>
  {
    match l
    case RequestFailure(_) => None
    case TransportFailure(_) => None
    case NilResponse => None
    case Unparsable(code) => if code == 404 then Some([]) else None
    case Listed(code, entries) =>
      if code == 404 then Some([]) else if code != 200 then None else Some(entries)
  }

  /**
   * The error `listRemoteFiles` reports when a listing yields no entries.
   * Each failure kind is recognisable from its text.
   */
  function ListingError(l: RemoteListing): (r: string)
    ensures HasPrefix(r, "error creating request: ") <==> l.RequestFailure?
    ensures HasPrefix(r, "error listing files: ") <==> l.TransportFailure?
    ensures r == "received nil response" <==> l.NilResponse?
    ensures r == "error parsing JSON response" <==> l.Unparsable? && l.StatusCode == 200
  {
    // The seventh character tells the five texts apart.
    assert "received nil response"[6] == 'e' && "list files failed"[6] == 'i' && "error parsing JSON response"[6] == 'p';
    match l
    case RequestFailure(msg) =>
      var r := "error creating request: " + msg;
      assert r[6] == 'c';
      r
    case TransportFailure(msg) =>
      var r := "error listing files: " + msg;
      assert r[6] == 'l';
      r
    case NilResponse => "received nil response"
    case Unparsable(code) => if code != 200 then "list files failed" else "error parsing JSON response"
    case Listed(_, _) => "list files failed"
  }

  /** The path `listRemoteFiles` records for a non-directory entry. */
  function WithListingPath(info: RemoteFileInfo, remotePath: string): (r: RemoteFileInfo)
  {
    if info.IsDirectory then info else info.(Path := SlashPath(Join(remotePath, info.Name)))
  }

  /**
   * listRemoteFiles: maps the response to a listing or an error, then
   * rewrites the `Path` of every non-directory entry in place.
   */
  method ListRemoteFiles(listing: RemoteListing, remotePath: string) returns (r: Result<seq<RemoteFileInfo>, string>)
    ensures r.Success? <==> ListedEntries(listing).Some?
    ensures r.Failure? ==> r.error == ListingError(listing)
    ensures listing.Listed? && listing.StatusCode == 404 ==> r == Success([])
    ensures r.Success? ==>
      var entries := ListedEntries(listing).value;
      |r.value| == |entries| &&
      forall i :: 0 <= i < |entries| ==> r.value[i] == WithListingPath(entries[i].Info, remotePath)
  {
    match listing
    case RequestFailure(_) =>
      return Failure(ListingError(listing));
    case TransportFailure(_) =>
      return Failure(ListingError(listing));
    case NilResponse =>
      return Failure(ListingError(listing));
    case Unparsable(code) =>
      if code == 404 {
        return Success([]);
      }
      return Failure(ListingError(listing));
    case Listed(code, entries) =>
      if code == 404 {
        return Success([]);
      }
      if code != 200 {
        return Failure(ListingError(listing));
      }
      var remoteFiles := seq(|entries|, i requires 0 <= i < |entries| => entries[i].Info);
      for i := 0 to |remoteFiles|
        invariant |remoteFiles| == |entries|
        invariant forall j :: 0 <= j < i ==> remoteFiles[j] == WithListingPath(entries[j].Info, remotePath)
        invariant forall j :: i <= j < |entries| ==> remoteFiles[j] == entries[j].Info
      {
        if !remoteFiles[i].IsDirectory {
          var p := SlashPath(Join(remotePath, remoteFiles[i].Name));
          remoteFiles := remoteFiles[i := remoteFiles[i].(Path := p)];
        }
      }
      return Success(remoteFiles);
  }

  /**
   * The relative path the streamer gives a file found while listing
   * `currentPath`: the bare name at the root ("" or "/"), otherwise the
   * listing path with the `remoteDir` prefix removed, joined with the name.
   */
  function RemoteRelPath(currentPath: string, remoteDir: string, name: string): (r: string)
    ensures currentPath == "" || currentPath == "/" ==> r == name
  {
    if currentPath != "" && currentPath != "/" then SlashPath(Join(TrimPrefix(currentPath, remoteDir), name))
    else name
  }

  /**
   * remoteFileStreamer: the files below `l` in listing order, depth first.
   * A listing that fails yields nothing for its subtree; siblings continue.
   */
  function StreamListing(l: RemoteListing, currentPath: string, remoteDir: string): seq<RemoteFileInfo>
    decreases l, 1
  {
    match l
    case RequestFailure(_) => []
    case TransportFailure(_) => []
    case NilResponse => []
    case Unparsable(_) => []
    case Listed(code, entries) => if code != 200 then [] else StreamEntries(l, 0, currentPath, remoteDir)
  }

  function StreamEntries(l: RemoteListing, i: nat, currentPath: string, remoteDir: string): seq<RemoteFileInfo>
    requires l.Listed? && i <= |l.Entries|
    decreases l, 0, |l.Entries| - i
  {
    if i == |l.Entries| then []
    else StreamEntry(l.Entries[i], currentPath, remoteDir) + StreamEntries(l, i + 1, currentPath, remoteDir)
  }

  function StreamEntry(e: RemoteEntry, currentPath: string, remoteDir: string): seq<RemoteFileInfo>
    decreases e
  {
    if e.Info.IsDirectory then StreamListing(e.Children, SlashPath(Join(currentPath, e.Info.Name)), remoteDir)
    else [e.Info.(Path := RemoteRelPath(currentPath, remoteDir, e.Info.Name))]
  }

  /** The whole stream, started at `remoteDir`. */
  function StreamRemoteFiles(root: RemoteListing, remoteDir: string): seq<RemoteFileInfo>
  {
    StreamListing(root, remoteDir, remoteDir)
  }

  /** Directories are traversed, never streamed. */
  lemma {:induction false} StreamListingOnlyFiles(l: RemoteListing, currentPath: string, remoteDir: string)
    ensures forall f :: f in StreamListing(l, currentPath, remoteDir) ==> !f.IsDirectory
    decreases l, 1
  {
    if l.Listed? && l.StatusCode == 200 {
      StreamEntriesOnlyFiles(l, 0, currentPath, remoteDir);
    }
  }

  lemma {:induction false} StreamEntriesOnlyFiles(l: RemoteListing, i: nat, currentPath: string, remoteDir: string)
    requires l.Listed? && i <= |l.Entries|
    ensures forall f :: f in StreamEntries(l, i, currentPath, remoteDir) ==> !f.IsDirectory
    decreases l, 0, |l.Entries| - i
  {
    if i < |l.Entries| {
      var e := l.Entries[i];
      if e.Info.IsDirectory {
        StreamListingOnlyFiles(e.Children, SlashPath(Join(currentPath, e.Info.Name)), remoteDir);
      }
      StreamEntriesOnlyFiles(l, i + 1, currentPath, remoteDir);
    }
  }

  /** A subdirectory whose listing fails is skipped; the siblings after it are still streamed. */
  lemma FailedSubtreeSkipped(l: RemoteListing, i: nat, currentPath: string, remoteDir: string)
    requires l.Listed? && i < |l.Entries|
    requires l.Entries[i].Info.IsDirectory && ListedEntries(l.Entries[i].Children).None?
    ensures StreamEntries(l, i, currentPath, remoteDir) == StreamEntries(l, i + 1, currentPath, remoteDir)
  {
    assert StreamEntry(l.Entries[i], currentPath, remoteDir) == [];
  }

  // ---------------------------------------------------------------------
  // Per-file classification state (skipChecker)
  // ---------------------------------------------------------------------

  /** LocalFileState: the classification state of one local file, updated in place through the map. */
  class LocalFileState {
    var File: LocalFileInfo
    var Checked: bool
    var Skip: bool
    var Reason: string

    constructor (file: LocalFileInfo)
      ensures File == file && !Checked && !Skip && Reason == ""
    {
      File := file;
      Checked := false;
      Skip := false;
      Reason := "";
    }

    function Value(): FileState
      reads this
    {
      FileState(File, Checked, Skip, Reason)
    }
  }

  /** The value of a LocalFileState at one moment. */
  datatype FileState = FileState(File: LocalFileInfo, Checked: bool, Skip: bool, Reason: string)

  /** Distinct keys hold distinct state objects (each is allocated separately). */
  ghost predicate DistinctStates(m: map<string, LocalFileState>)
  {
    forall a, b :: a in m && b in m && a != b ==> m[a] != m[b]
  }

  function Snapshot(m: map<string, LocalFileState>): map<string, FileState>
    reads m.Values
  {
    map k | k in m :: m[k].Value()
  }

  /** What the checker has produced so far: the states, the queued tasks and the skipped statuses. */
  datatype Classification = Classification(
    States: map<string, FileState>, Tasks: seq<FileUploadTask>, Statuses: seq<FileUploadStatus>)

  /** The upload target of a local file: `remoteDir` joined with its relative path, slash-normalised. */
  function TaskFor(file: LocalFileInfo, remoteDir: string): FileUploadTask
  {
    FileUploadTask(file, SlashPath(Join(remoteDir, file.RelPath)))
  }

  function SkippedStatus(file: LocalFileInfo, reason: string): FileUploadStatus
  {
    FileUploadStatus(file.Path, true, None, true, reason)
  }

  /** The checker's reaction to one streamed remote entry. */
  function ClassifyOne(c: Classification, remoteFile: RemoteFileInfo, remoteDir: string): (r: Classification)
    ensures r.States.Keys == c.States.Keys
    ensures remoteFile.Path !in c.States ==> r == c
    ensures remoteFile.Path in c.States ==>
      var p := remoteFile.Path;
      && r.States[p].Checked && r.States[p].File == c.States[p].File
      && (r.States[p].Skip <==> c.States[p].Skip || ShouldSkipUpload(c.States[p].File, remoteFile).0)
      && (forall k :: k in c.States && k != p ==> r.States[k] == c.States[k])
      && |r.Tasks| + |r.Statuses| == |c.Tasks| + |c.Statuses| + 1
      && c.Tasks <= r.Tasks && c.Statuses <= r.Statuses
    ensures remoteFile.Path in c.States ==>
      var file := c.States[remoteFile.Path].File;
      var decision := ShouldSkipUpload(file, remoteFile);
      && (decision.0 ==>
            && r.Statuses == c.Statuses + [FileUploadStatus(file.Path, true, None, true, decision.1)]
            && r.Tasks == c.Tasks
            && r.States[remoteFile.Path].Reason == decision.1)
      && (!decision.0 ==>
            && r.Tasks == c.Tasks + [FileUploadTask(file, SlashPath(Join(remoteDir, file.RelPath)))]
            && r.Statuses == c.Statuses
            && r.States[remoteFile.Path].Reason == c.States[remoteFile.Path].Reason)
  {
    if remoteFile.Path !in c.States then c
    else
      var st := c.States[remoteFile.Path];
      var (skip, reason) := ShouldSkipUpload(st.File, remoteFile);
      if skip then
        Classification(c.States[remoteFile.Path := FileState(st.File, true, true, reason)],
                       c.Tasks, c.Statuses + [SkippedStatus(st.File, reason)])
      else
        Classification(c.States[remoteFile.Path := st.(Checked := true)],
                       c.Tasks + [TaskFor(st.File, remoteDir)], c.Statuses)
  }

  /** The checker's state after consuming a whole stream. */
  function Classify(states: map<string, FileState>, remoteFiles: seq<RemoteFileInfo>, remoteDir: string): (r: Classification)
    ensures r.States.Keys == states.Keys
    decreases |remoteFiles|
  {
    if remoteFiles == [] then Classification(states, [], [])
    else ClassifyOne(Classify(states, remoteFiles[..|remoteFiles| - 1], remoteDir), remoteFiles[|remoteFiles| - 1], remoteDir)
  }

  /** Classifying a stream classifies its last entry after all the others. */
  lemma ClassifyLast(states: map<string, FileState>, remoteFiles: seq<RemoteFileInfo>, remoteDir: string)
    requires remoteFiles != []
    ensures var n := |remoteFiles| - 1;
      Classify(states, remoteFiles, remoteDir) == ClassifyOne(Classify(states, remoteFiles[..n], remoteDir), remoteFiles[n], remoteDir)
  {
  }

  /** The tasks of the residual sweep, visiting the keys in `order`. */
  function ResidualTasks(states: map<string, FileState>, order: seq<string>, remoteDir: string): seq<FileUploadTask>
    decreases |order|
  {
    if order == [] then []
    else
      var k := order[|order| - 1];
      ResidualTasks(states, order[..|order| - 1], remoteDir) +
      (if k in states && !states[k].Checked && !states[k].Skip then [TaskFor(states[k].File, remoteDir)] else [])
  }

  lemma ResidualTasksStep(states: map<string, FileState>, order: seq<string>, k: string, remoteDir: string)
    ensures ResidualTasks(states, order + [k], remoteDir) ==
            ResidualTasks(states, order, remoteDir) +
            (if k in states && !states[k].Checked && !states[k].Skip then [TaskFor(states[k].File, remoteDir)] else [])
  {
    assert (order + [k])[..|order|] == order;
  }

  function CountRemoteOnly(remoteFiles: seq<RemoteFileInfo>, keys: set<string>): nat
    decreases |remoteFiles|
  {
    if remoteFiles == [] then 0
    else CountRemoteOnly(remoteFiles[..|remoteFiles| - 1], keys) +
         (if remoteFiles[|remoteFiles| - 1].Path in keys then 0 else 1)
  }

  // ---------------------------------------------------------------------
  // Properties of the classification
  // ---------------------------------------------------------------------

  /** No local file has been looked at yet (how uploadDirectoryOptimized creates the states). */
  ghost predicate Unchecked(states: map<string, FileState>)
  {
    forall k :: k in states ==> !states[k].Checked && !states[k].Skip
  }

  /** Skipping is only ever decided for a file that was checked. */
  ghost predicate SkipImpliesChecked(states: map<string, FileState>)
  {
    forall k :: k in states && states[k].Skip ==> states[k].Checked
  }

  /** The storage API never lists the same path twice. */
  ghost predicate DistinctPaths(remoteFiles: seq<RemoteFileInfo>)
  {
    forall i, j :: 0 <= i < j < |remoteFiles| ==> remoteFiles[i].Path != remoteFiles[j].Path
  }

  /** The local keys some remote entry matches. */
  ghost function MatchedKeys(remoteFiles: seq<RemoteFileInfo>, keys: set<string>): set<string>
  {
    set i | 0 <= i < |remoteFiles| && remoteFiles[i].Path in keys :: remoteFiles[i].Path
  }

  /** The keys the residual sweep will queue. */
  ghost function PendingKeys(states: map<string, FileState>): set<string>
  {
    set k | k in states && !states[k].Checked && !states[k].Skip
  }

  /**
   * The stream never adds or removes local files or changes them, keeps
   * "skipped implies checked", emits exactly one status or task per remote
   * entry that matches a local file, and (starting unchecked) marks as
   * checked exactly the local files some remote entry matches.
   */
  lemma {:induction false} ClassifyFacts(states: map<string, FileState>, remoteFiles: seq<RemoteFileInfo>, remoteDir: string)
    requires SkipImpliesChecked(states)
    ensures var c := Classify(states, remoteFiles, remoteDir);
      && c.States.Keys == states.Keys
      && (forall k :: k in states ==> c.States[k].File == states[k].File)
      && SkipImpliesChecked(c.States)
      && PendingKeys(c.States) == (set k | k in states && !c.States[k].Checked)
      && |c.Statuses| + |c.Tasks| + CountRemoteOnly(remoteFiles, states.Keys) == |remoteFiles|
      && (Unchecked(states) ==>
            forall k :: k in states ==> (c.States[k].Checked <==> k in MatchedKeys(remoteFiles, states.Keys)))
    decreases |remoteFiles|
  {
    if remoteFiles != [] {
      var n := |remoteFiles| - 1;
      ClassifyFacts(states, remoteFiles[..n], remoteDir);
      MatchedKeysStep(remoteFiles, states.Keys);
      assert Classify(states, remoteFiles, remoteDir) == ClassifyOne(Classify(states, remoteFiles[..n], remoteDir), remoteFiles[n], remoteDir);
      assert CountRemoteOnly(remoteFiles, states.Keys) ==
             CountRemoteOnly(remoteFiles[..n], states.Keys) + (if remoteFiles[n].Path in states.Keys then 0 else 1);
    }
  }

  /** With distinct remote paths, one status or task per matched local file. */
  lemma {:induction false} MatchedKeysCount(remoteFiles: seq<RemoteFileInfo>, keys: set<string>)
    requires DistinctPaths(remoteFiles)
    ensures MatchedKeys(remoteFiles, keys) <= keys
    ensures |MatchedKeys(remoteFiles, keys)| + CountRemoteOnly(remoteFiles, keys) == |remoteFiles|
    decreases |remoteFiles|
  {
    if remoteFiles != [] {
      var n := |remoteFiles| - 1;
      var prefix, last := remoteFiles[..n], remoteFiles[n].Path;
      assert DistinctPaths(prefix) by {
        forall i, j | 0 <= i < j < n
          ensures prefix[i].Path != prefix[j].Path
        {
          assert prefix[i] == remoteFiles[i] && prefix[j] == remoteFiles[j];
        }
      }
      MatchedKeysCount(prefix, keys);
      MatchedKeysStep(remoteFiles, keys);
      forall i | 0 <= i < n
        ensures prefix[i].Path != last
      {
        assert prefix[i] == remoteFiles[i];
      }
      assert CountRemoteOnly(remoteFiles, keys) == CountRemoteOnly(prefix, keys) + (if last in keys then 0 else 1);
    }
  }

  /** The matched keys grow by the last entry's path when that path is a key. */
  lemma MatchedKeysStep(remoteFiles: seq<RemoteFileInfo>, keys: set<string>)
    requires remoteFiles != []
    ensures var n := |remoteFiles| - 1;
      MatchedKeys(remoteFiles, keys) ==
      MatchedKeys(remoteFiles[..n], keys) + (if remoteFiles[n].Path in keys then {remoteFiles[n].Path} else {})
  {
    var n := |remoteFiles| - 1;
    var prefix := remoteFiles[..n];
    forall p | p in MatchedKeys(remoteFiles, keys)
      ensures p in MatchedKeys(prefix, keys) || p == remoteFiles[n].Path
    {
      var i :| 0 <= i < |remoteFiles| && remoteFiles[i].Path in keys && remoteFiles[i].Path == p;
      if i < n {
        assert prefix[i] == remoteFiles[i];
      }
    }
    forall p | p in MatchedKeys(prefix, keys)
      ensures p in MatchedKeys(remoteFiles, keys)
    {
      var i :| 0 <= i < n && prefix[i].Path in keys && prefix[i].Path == p;
      assert remoteFiles[i] == prefix[i];
    }
  }

  /** The sweep queues one task per pending key, whatever the map order. */
  lemma {:induction false} ResidualTasksCount(states: map<string, FileState>, order: seq<string>, remoteDir: string)
    requires forall i, j :: 0 <= i < j < |order| ==> order[i] != order[j]
    ensures |ResidualTasks(states, order, remoteDir)| == |set k | k in order && k in PendingKeys(states)|
    decreases |order|
  {
    if order != [] {
      var n := |order| - 1;
      var prefix, last := order[..n], order[n];
      assert order == prefix + [last];
      ResidualTasksCount(states, prefix, remoteDir);
      ResidualTasksStep(states, prefix, last, remoteDir);
      var pending := PendingKeys(states);
      var before := set k | k in prefix && k in pending;
      var after := set k | k in order && k in pending;
      assert last !in before;
      if last in pending {
        assert after == before + {last};
      } else {
        assert after == before;
      }
    }
  }

  /**
   * Every local file gets exactly one outcome: the statuses of skipped
   * files, the tasks queued while streaming and the tasks of the sweep
   * together number as many as the local files.
   */
  lemma OneOutcomePerLocalFile(states: map<string, FileState>, remoteFiles: seq<RemoteFileInfo>, remoteDir: string, order: seq<string>)
    requires Unchecked(states) && DistinctPaths(remoteFiles)
    requires IsOrdering(order, states.Keys)
    ensures var c := Classify(states, remoteFiles, remoteDir);
      |c.Statuses| + |c.Tasks| + |ResidualTasks(c.States, order, remoteDir)| == |states|
  {
    var c := Classify(states, remoteFiles, remoteDir);
    ClassifyFacts(states, remoteFiles, remoteDir);
    MatchedKeysCount(remoteFiles, states.Keys);
    ResidualTasksCount(c.States, order, remoteDir);
    PendingCount(states, remoteFiles, remoteDir, order);
  }

  /** The keys the sweep queues are the local files no remote entry matched. */
  lemma PendingCount(states: map<string, FileState>, remoteFiles: seq<RemoteFileInfo>, remoteDir: string, order: seq<string>)
    requires Unchecked(states) && DistinctPaths(remoteFiles)
    requires IsOrdering(order, states.Keys)
    ensures var c := Classify(states, remoteFiles, remoteDir);
      |set k | k in order && k in PendingKeys(c.States)| + |MatchedKeys(remoteFiles, states.Keys)| == |states|
  {
    var c := Classify(states, remoteFiles, remoteDir);
    ClassifyFacts(states, remoteFiles, remoteDir);
    MatchedKeysCount(remoteFiles, states.Keys);
    var matched := MatchedKeys(remoteFiles, states.Keys);
    assert (set k | k in order && k in PendingKeys(c.States)) == states.Keys - matched;
  }

  /** How many statuses report `path`. */
  ghost function StatusCount(statuses: seq<FileUploadStatus>, path: string): nat
    decreases |statuses|
  {
    if statuses == [] then 0
    else StatusCount(statuses[..|statuses| - 1], path) + (if statuses[|statuses| - 1].Path == path then 1 else 0)
  }

  /** How many tasks upload `file`. */
  ghost function TaskCount(tasks: seq<FileUploadTask>, file: LocalFileInfo): nat
    decreases |tasks|
  {
    if tasks == [] then 0
    else TaskCount(tasks[..|tasks| - 1], file) + (if tasks[|tasks| - 1].LocalFile == file then 1 else 0)
  }

  lemma {:induction false} StatusCountAppend(a: seq<FileUploadStatus>, b: seq<FileUploadStatus>, path: string)
    ensures StatusCount(a + b, path) == StatusCount(a, path) + StatusCount(b, path)
    decreases |b|
  {
    if b != [] {
      var n := |b| - 1;
      assert (a + b)[..|a + b| - 1] == a + b[..n];
      assert (a + b)[|a + b| - 1] == b[n];
      StatusCountAppend(a, b[..n], path);
    } else {
      assert a + b == a;
    }
  }

  lemma {:induction false} TaskCountAppend(a: seq<FileUploadTask>, b: seq<FileUploadTask>, file: LocalFileInfo)
    ensures TaskCount(a + b, file) == TaskCount(a, file) + TaskCount(b, file)
    decreases |b|
  {
    if b != [] {
      var n := |b| - 1;
      assert (a + b)[..|a + b| - 1] == a + b[..n];
      assert (a + b)[|a + b| - 1] == b[n];
      TaskCountAppend(a, b[..n], file);
    } else {
      assert a + b == a;
    }
  }

  /** Different local files have different paths (the walk visits each path once). */
  ghost predicate DistinctLocalPaths(states: map<string, FileState>)
  {
    forall a, b :: a in states && b in states && a != b ==> states[a].File.Path != states[b].File.Path
  }

  /**
   * While streaming, a local file gets one skipped status when it is
   * skipped, one queued task when it is checked but not skipped, and
   * nothing else.
   */
  lemma {:induction false} StreamOutcomeOf(states: map<string, FileState>, remoteFiles: seq<RemoteFileInfo>, remoteDir: string, k: string)
    requires Unchecked(states) && DistinctPaths(remoteFiles) && DistinctLocalPaths(states) && k in states
    ensures var c := Classify(states, remoteFiles, remoteDir);
      && StatusCount(c.Statuses, states[k].File.Path) == (if c.States[k].Skip then 1 else 0)
      && TaskCount(c.Tasks, states[k].File) == (if c.States[k].Checked && !c.States[k].Skip then 1 else 0)
    decreases |remoteFiles|
  {
    if remoteFiles != [] {
      var n := |remoteFiles| - 1;
      var prefix, remoteFile := remoteFiles[..n], remoteFiles[n];
      assert forall i :: 0 <= i < n ==> prefix[i] == remoteFiles[i];
      StreamOutcomeOf(states, prefix, remoteDir, k);
      StreamEntryUnseen(states, remoteFiles, remoteDir);
      var c := Classify(states, prefix, remoteDir);
      var p := remoteFile.Path;
      assert p in c.States && p != k ==> c.States[p].File.Path != c.States[k].File.Path by {
        if p in states && p != k {
          assert states[p].File.Path != states[k].File.Path;
        }
      }
      StreamOutcomeStep(c, remoteFile, remoteDir, k);
      ClassifyLast(states, remoteFiles, remoteDir);
    }
  }

  /**
   * Before the last entry of a stream with distinct paths is classified,
   * the local file it names, if any, is still unchecked, and every local
   * file is the one it started as.
   */
  lemma StreamEntryUnseen(states: map<string, FileState>, remoteFiles: seq<RemoteFileInfo>, remoteDir: string)
    requires Unchecked(states) && DistinctPaths(remoteFiles) && remoteFiles != []
    ensures var n := |remoteFiles| - 1;
      var c := Classify(states, remoteFiles[..n], remoteDir);
      var p := remoteFiles[n].Path;
      && c.States.Keys == states.Keys
      && (forall j :: j in states ==> c.States[j].File == states[j].File)
      && (p in c.States ==> !c.States[p].Checked && !c.States[p].Skip)
  {
    var n := |remoteFiles| - 1;
    var prefix := remoteFiles[..n];
    ClassifyFacts(states, prefix, remoteDir);
    var p := remoteFiles[n].Path;
    if p in states {
      assert p !in MatchedKeys(prefix, states.Keys) by {
        forall i | 0 <= i < n
          ensures prefix[i].Path != p
        {
          assert prefix[i] == remoteFiles[i];
        }
      }
    }
  }

  /** One remote entry adds an outcome only for the local file it matches, which had none yet. */
  lemma StreamOutcomeStep(c: Classification, remoteFile: RemoteFileInfo, remoteDir: string, k: string)
    requires k in c.States
    requires remoteFile.Path in c.States && remoteFile.Path != k ==>
      c.States[remoteFile.Path].File.Path != c.States[k].File.Path
    requires remoteFile.Path in c.States ==> !c.States[remoteFile.Path].Checked && !c.States[remoteFile.Path].Skip
    requires StatusCount(c.Statuses, c.States[k].File.Path) == (if c.States[k].Skip then 1 else 0)
    requires TaskCount(c.Tasks, c.States[k].File) == (if c.States[k].Checked && !c.States[k].Skip then 1 else 0)
    ensures var r := ClassifyOne(c, remoteFile, remoteDir);
      && StatusCount(r.Statuses, c.States[k].File.Path) == (if r.States[k].Skip then 1 else 0)
      && TaskCount(r.Tasks, c.States[k].File) == (if r.States[k].Checked && !r.States[k].Skip then 1 else 0)
  {
    var p := remoteFile.Path;
    if p in c.States {
      var file := c.States[p].File;
      var decision := ShouldSkipUpload(file, remoteFile);
      if decision.0 {
        StatusCountAppend(c.Statuses, [FileUploadStatus(file.Path, true, None, true, decision.1)], c.States[k].File.Path);
      } else {
        TaskCountAppend(c.Tasks, [FileUploadTask(file, SlashPath(Join(remoteDir, file.RelPath)))], c.States[k].File);
      }
    }
  }

  /** Sweeping one more key adds a task for `k`'s file only when that key is `k` and still pending. */
  lemma SweepTaskCountStep(states: map<string, FileState>, prefix: seq<string>, last: string, remoteDir: string, k: string)
    requires k in states && forall j :: j in states && j != k ==> states[j].File != states[k].File
    ensures TaskCount(ResidualTasks(states, prefix + [last], remoteDir), states[k].File) ==
            TaskCount(ResidualTasks(states, prefix, remoteDir), states[k].File) +
            (if last == k && !states[k].Checked && !states[k].Skip then 1 else 0)
  {
    ResidualTasksStep(states, prefix, last, remoteDir);
    var added := if last in states && !states[last].Checked && !states[last].Skip then [TaskFor(states[last].File, remoteDir)] else [];
    TaskCountAppend(ResidualTasks(states, prefix, remoteDir), added, states[k].File);
    if added != [] {
      assert added[..0] == [];
      if last != k {
        assert states[last].File != states[k].File;
      }
    }
  }

  /** The sweep queues one task for each pending key of `order`, and none for any other file. */
  lemma {:induction false} SweepOutcomeOf(states: map<string, FileState>, order: seq<string>, remoteDir: string, k: string)
    requires forall i, j :: 0 <= i < j < |order| ==> order[i] != order[j]
    requires k in states && forall j :: j in states && j != k ==> states[j].File != states[k].File
    ensures TaskCount(ResidualTasks(states, order, remoteDir), states[k].File) ==
            (if k in order && !states[k].Checked && !states[k].Skip then 1 else 0)
    decreases |order|
  {
    if order != [] {
      var n := |order| - 1;
      var prefix, last := order[..n], order[n];
      assert order == prefix + [last];
      SweepOutcomeOf(states, prefix, remoteDir, k);
      SweepTaskCountStep(states, prefix, last, remoteDir, k);
      assert k in order <==> k in prefix || k == last;
      assert k == last ==> k !in prefix;
    }
  }

  /**
   * Every local file gets exactly one outcome: either one status with its
   * path (when it was skipped) or one upload task for it, streamed or from
   * the sweep (when it was not), never both and never neither.
   */
  lemma EachLocalFileOneOutcome(states: map<string, FileState>, remoteFiles: seq<RemoteFileInfo>, remoteDir: string,
                                order: seq<string>, k: string)
    requires Unchecked(states) && DistinctPaths(remoteFiles) && DistinctLocalPaths(states)
    requires IsOrdering(order, states.Keys) && k in states
    ensures var c := Classify(states, remoteFiles, remoteDir);
      var file := states[k].File;
      && StatusCount(c.Statuses, file.Path) + TaskCount(c.Tasks + ResidualTasks(c.States, order, remoteDir), file) == 1
      && (StatusCount(c.Statuses, file.Path) == 1 <==> c.States[k].Skip)
  {
    var c := Classify(states, remoteFiles, remoteDir);
    ClassifyFacts(states, remoteFiles, remoteDir);
    StreamOutcomeOf(states, remoteFiles, remoteDir, k);
    assert forall j :: j in c.States && j != k ==> c.States[j].File != c.States[k].File by {
      forall j | j in c.States && j != k
        ensures c.States[j].File != c.States[k].File
      {
        assert states[j].File.Path != states[k].File.Path;
      }
    }
    SweepOutcomeOf(c.States, order, remoteDir, k);
    TaskCountAppend(c.Tasks, ResidualTasks(c.States, order, remoteDir), states[k].File);
  }

  /**
   * Running the checker again after every local file was uploaded as is
   * (each remote entry for a local file has its size and checksum) queues
   * nothing and reports every local file as skipped.
   */
  lemma SecondRunUploadsNothing(states: map<string, FileState>, remoteFiles: seq<RemoteFileInfo>, remoteDir: string, order: seq<string>)
    requires Unchecked(states) && DistinctPaths(remoteFiles)
    requires IsOrdering(order, states.Keys)
    requires forall k :: k in states ==> exists i :: 0 <= i < |remoteFiles| && remoteFiles[i].Path == k
    requires forall i :: 0 <= i < |remoteFiles| && remoteFiles[i].Path in states ==>
               remoteFiles[i].Size == states[remoteFiles[i].Path].File.Size &&
               remoteFiles[i].Checksum == states[remoteFiles[i].Path].File.Checksum
    ensures var c := Classify(states, remoteFiles, remoteDir);
      && c.Tasks == [] && ResidualTasks(c.States, order, remoteDir) == []
      && |c.Statuses| == |states|
  {
    var c := Classify(states, remoteFiles, remoteDir);
    var matched := MatchedKeys(remoteFiles, states.Keys);
    NoTasksWhenAllMatch(states, remoteFiles, remoteDir);
    ClassifyFacts(states, remoteFiles, remoteDir);
    MatchedKeysCount(remoteFiles, states.Keys);
    forall k | k in states
      ensures k in matched
    {
      var i :| 0 <= i < |remoteFiles| && remoteFiles[i].Path == k;
    }
    assert matched == states.Keys;
    assert |c.Statuses| == |states| by {
      assert |matched| == |states.Keys|;
      assert |states.Keys| == |states|;
    }
    ResidualTasksCount(c.States, order, remoteDir);
    assert (set k | k in order && k in PendingKeys(c.States)) == {};
  }

  lemma {:induction false} NoTasksWhenAllMatch(states: map<string, FileState>, remoteFiles: seq<RemoteFileInfo>, remoteDir: string)
    requires SkipImpliesChecked(states)
    requires forall i :: 0 <= i < |remoteFiles| && remoteFiles[i].Path in states ==>
               remoteFiles[i].Size == states[remoteFiles[i].Path].File.Size &&
               remoteFiles[i].Checksum == states[remoteFiles[i].Path].File.Checksum
    ensures Classify(states, remoteFiles, remoteDir).Tasks == []
    decreases |remoteFiles|
  {
    if remoteFiles != [] {
      var n := |remoteFiles| - 1;
      NoTasksWhenAllMatch(states, remoteFiles[..n], remoteDir);
      ClassifyFacts(states, remoteFiles[..n], remoteDir);
    }
  }

  /** A residual task is only ever queued for a local file that no remote entry matched. */
  lemma {:induction false} ResidualTasksArePending(states: map<string, FileState>, order: seq<string>, remoteDir: string)
    ensures forall t :: t in ResidualTasks(states, order, remoteDir) ==>
      exists k :: k in PendingKeys(states) && t == TaskFor(states[k].File, remoteDir)
    decreases |order|
  {
    if order != [] {
      ResidualTasksArePending(states, order[..|order| - 1], remoteDir);
    }
  }

  /**
   * The body of the checker's receive loop for one remote entry: a local
   * file with the same relative path is marked checked and either marked
   * skipped (with a skipped status) or queued for upload.
   */
  method CheckRemoteFile(localStates: map<string, LocalFileState>, remoteFile: RemoteFileInfo, remoteDir: string,
                         tasks: seq<FileUploadTask>, statuses: seq<FileUploadStatus>)
    returns (tasks': seq<FileUploadTask>, statuses': seq<FileUploadStatus>)
    requires DistinctStates(localStates)
    modifies localStates.Values
    ensures Classification(Snapshot(localStates), tasks', statuses') ==
            ClassifyOne(Classification(old(Snapshot(localStates)), tasks, statuses), remoteFile, remoteDir)
  {
    tasks', statuses' := tasks, statuses;
    if remoteFile.Path !in localStates {
      return;
    }
    var localState := localStates[remoteFile.Path];
    localState.Checked := true;
    var (skip, reason) := ShouldSkipUpload(localState.File, remoteFile);
    if skip {
      localState.Skip := true;
      localState.Reason := reason;
      statuses' := statuses + [FileUploadStatus(localState.File.Path, true, None, true, reason)];
    } else {
      var remotePath := SlashPath(Join(remoteDir, localState.File.RelPath));
      tasks' := tasks + [FileUploadTask(localState.File, remotePath)];
    }
    assert forall k :: k in localStates && k != remoteFile.Path ==> localStates[k] != localState;
    assert Snapshot(localStates) == old(Snapshot(localStates))[remoteFile.Path := localState.Value()];
  }

  /**
   * The checker's final sweep: every local file neither checked nor skipped
   * is queued, visiting the map in an unspecified order.
   */
  method SweepUnchecked(localStates: map<string, LocalFileState>, remoteDir: string)
    returns (tasks: seq<FileUploadTask>, ghost sweepOrder: seq<string>)
    ensures tasks == ResidualTasks(Snapshot(localStates), sweepOrder, remoteDir)
    ensures IsOrdering(sweepOrder, localStates.Keys)
    ensures |tasks| == |PendingKeys(Snapshot(localStates))|
  {
    ghost var snapshot := Snapshot(localStates);
    var remaining := localStates.Keys;
    tasks, sweepOrder := [], [];
    while remaining != {}
      invariant remaining <= localStates.Keys
      invariant forall k :: k in sweepOrder <==> k in localStates.Keys && k !in remaining
      invariant forall a, b :: 0 <= a < b < |sweepOrder| ==> sweepOrder[a] != sweepOrder[b]
      invariant tasks == ResidualTasks(snapshot, sweepOrder, remoteDir)
      decreases remaining
    {
      var relPath :| relPath in remaining;
      var localState := localStates[relPath];
      assert snapshot[relPath] == localState.Value();
      ghost var order' := sweepOrder + [relPath];
      ResidualTasksStep(snapshot, sweepOrder, relPath, remoteDir);
      if !localState.Checked && !localState.Skip {
        var remotePath := SlashPath(Join(remoteDir, localState.File.RelPath));
        tasks := tasks + [FileUploadTask(localState.File, remotePath)];
      }
      sweepOrder := order';
      remaining := remaining - {relPath};
    }
    ResidualTasksCount(snapshot, sweepOrder, remoteDir);
    assert (set k | k in sweepOrder && k in PendingKeys(snapshot)) == PendingKeys(snapshot);
  }

  /**
   * skipChecker: consumes the remote stream, marking matched local files as
   * checked and emitting a skipped status or an upload task for each; then
   * queues every local file that was never checked.
   */
  method SkipChecker(localStates: map<string, LocalFileState>, remoteFiles: seq<RemoteFileInfo>, remoteDir: string)
    returns (uploadTasks: seq<FileUploadTask>, results: seq<FileUploadStatus>,
             remoteCount: nat, remoteOnlyCount: nat, ghost sweepOrder: seq<string>)
    requires DistinctStates(localStates)
    modifies localStates.Values
    ensures var c := Classify(old(Snapshot(localStates)), remoteFiles, remoteDir);
      && Snapshot(localStates) == c.States
      && results == c.Statuses
      && uploadTasks == c.Tasks + ResidualTasks(c.States, sweepOrder, remoteDir)
    ensures IsOrdering(sweepOrder, localStates.Keys)
    ensures remoteCount == |remoteFiles| && remoteOnlyCount == CountRemoteOnly(remoteFiles, localStates.Keys)
  {
    ghost var initial := Snapshot(localStates);
    uploadTasks, results := [], [];
    remoteCount, remoteOnlyCount := 0, 0;

    for i := 0 to |remoteFiles|
      invariant Classification(Snapshot(localStates), uploadTasks, results) == Classify(initial, remoteFiles[..i], remoteDir)
      invariant remoteCount == i && remoteOnlyCount == CountRemoteOnly(remoteFiles[..i], localStates.Keys)
    {
      assert remoteFiles[..i + 1][..i] == remoteFiles[..i];
      remoteCount := remoteCount + 1;
      if remoteFiles[i].Path !in localStates {
        remoteOnlyCount := remoteOnlyCount + 1;
      }
      uploadTasks, results := CheckRemoteFile(localStates, remoteFiles[i], remoteDir, uploadTasks, results);
    }
    assert remoteFiles[..|remoteFiles|] == remoteFiles;

    var residual;
    residual, sweepOrder := SweepUnchecked(localStates, remoteDir);
    uploadTasks := uploadTasks + residual;
  }

  // ---------------------------------------------------------------------
  // Uploading and tallying
  // ---------------------------------------------------------------------

  /**
   * uploader: one status per task, successful exactly when the upload
   * (given as `upload(localPath, remotePath)`, returning the error if any)
   * succeeded; an upload status is never a skipped one.
   */
  method Uploader(tasks: seq<FileUploadTask>, upload: (string, string) -> Option<string>)
    returns (results: seq<FileUploadStatus>)
    ensures results == UploadStatuses(tasks, upload)
  {
    results := [];
    for i := 0 to |tasks|
      invariant |results| == i
      invariant forall j :: 0 <= j < i ==>
        results[j] == FileUploadStatus(tasks[j].LocalFile.Path, upload(tasks[j].LocalFile.Path, tasks[j].RemotePath).None?,
                                       upload(tasks[j].LocalFile.Path, tasks[j].RemotePath), false, "")
    {
      var task := tasks[i];
      var err := upload(task.LocalFile.Path, task.RemotePath);
      results := results + [FileUploadStatus(task.LocalFile.Path, err.None?, err, false, "")];
    }
  }

  /** The statuses of uploading `tasks` in order: one per task, failed exactly when its upload returns an error. */
  function UploadStatuses(tasks: seq<FileUploadTask>, upload: (string, string) -> Option<string>): (results: seq<FileUploadStatus>)
    ensures |results| == |tasks|
    ensures forall i :: 0 <= i < |tasks| ==>
      var err := upload(tasks[i].LocalFile.Path, tasks[i].RemotePath);
      && results[i].Path == tasks[i].LocalFile.Path
      && (results[i].Success <==> err.None?)
      && results[i].Error == err
      && !results[i].Skipped && results[i].Reason == ""
  {
    seq(|tasks|, i requires 0 <= i < |tasks| =>
      var err := upload(tasks[i].LocalFile.Path, tasks[i].RemotePath);
      FileUploadStatus(tasks[i].LocalFile.Path, err.None?, err, false, ""))
  }

  /** How the collector counts a status. */
  datatype Outcome = Uploaded | Skipped | Failed

  function OutcomeOf(status: FileUploadStatus): Outcome
  {
    if !status.Success then Failed else if status.Skipped then Skipped else Uploaded
  }

  function CountOutcome(results: seq<FileUploadStatus>, o: Outcome): (n: nat)
    ensures n <= |results|
    decreases |results|
  {
    if results == [] then 0
    else CountOutcome(results[..|results| - 1], o) + (if OutcomeOf(results[|results| - 1]) == o then 1 else 0)
  }

  /** Every status is counted exactly once. */
  lemma {:induction false} CountOutcomePartition(results: seq<FileUploadStatus>)
    ensures CountOutcome(results, Uploaded) + CountOutcome(results, Skipped) + CountOutcome(results, Failed) == |results|
    decreases |results|
  {
    if results != [] {
      CountOutcomePartition(results[..|results| - 1]);
    }
  }

  lemma {:induction false} CountOutcomeAppend(a: seq<FileUploadStatus>, b: seq<FileUploadStatus>, o: Outcome)
    ensures CountOutcome(a + b, o) == CountOutcome(a, o) + CountOutcome(b, o)
    decreases |b|
  {
    if b == [] {
      assert a + b == a;
    } else {
      var n := |b| - 1;
      assert (a + b)[..|a + b| - 1] == a + b[..n];
      CountOutcomeAppend(a, b[..n], o);
    }
  }

  /** The collector's counters over all results. */
  method TallyResults(allResults: seq<FileUploadStatus>) returns (uploaded: nat, skipped: nat, failed: nat)
    ensures uploaded == CountOutcome(allResults, Uploaded)
    ensures skipped == CountOutcome(allResults, Skipped)
    ensures failed == CountOutcome(allResults, Failed)
    ensures uploaded + skipped + failed == |allResults|
  {
    uploaded, skipped, failed := 0, 0, 0;
    for i := 0 to |allResults|
      invariant uploaded == CountOutcome(allResults[..i], Uploaded)
      invariant skipped == CountOutcome(allResults[..i], Skipped)
      invariant failed == CountOutcome(allResults[..i], Failed)
    {
      assert allResults[..i + 1][..i] == allResults[..i];
      var result := allResults[i];
      if result.Success {
        if result.Skipped {
          skipped := skipped + 1;
        } else {
          uploaded := uploaded + 1;
        }
      } else {
        failed := failed + 1;
      }
    }
    assert allResults[..|allResults|] == allResults;
    CountOutcomePartition(allResults);
  }

  /** The noun printed after a count in the summary line. */
  function PluralWord(count: int): (word: string)
    ensures word == "file" <==> count == 1
    ensures word == "file" || word == "files"
  {
    if count != 1 then "files" else "file"
  }

  /** Skipped statuses from the checker are all counted as skipped. */
  lemma {:induction false} SkippedStatusesCountAsSkipped(states: map<string, FileState>, remoteFiles: seq<RemoteFileInfo>, remoteDir: string)
    ensures var st := Classify(states, remoteFiles, remoteDir).Statuses;
      CountOutcome(st, Skipped) == |st| && CountOutcome(st, Uploaded) == 0 && CountOutcome(st, Failed) == 0
    decreases |remoteFiles|
  {
    if remoteFiles != [] {
      var n := |remoteFiles| - 1;
      SkippedStatusesCountAsSkipped(states, remoteFiles[..n], remoteDir);
      var c := Classify(states, remoteFiles[..n], remoteDir);
      var c' := Classify(states, remoteFiles, remoteDir);
      if |c'.Statuses| != |c.Statuses| {
        assert c'.Statuses[..|c'.Statuses| - 1] == c.Statuses;
      }
    }
  }

  /** Upload statuses are never counted as skipped. */
  lemma {:induction false} UploadStatusesNotSkipped(results: seq<FileUploadStatus>)
    requires forall i :: 0 <= i < |results| ==> !results[i].Skipped
    ensures CountOutcome(results, Skipped) == 0
    decreases |results|
  {
    if results != [] {
      UploadStatusesNotSkipped(results[..|results| - 1]);
    }
  }

  // ---------------------------------------------------------------------
  // The whole run (uploadDirectoryOptimized)
  // ---------------------------------------------------------------------

  /** The single result returned when the local inventory cannot be built. */
  function WalkFailureStatus(localDir: string, err: string): FileUploadStatus
  {
    FileUploadStatus(localDir, false, Some("failed to build local file list: " + err), false, "")
  }

  /** The initial state of every local file: not yet checked, not skipped. */
  function InitialStates(localFileMap: map<string, LocalFileInfo>): (states: map<string, FileState>)
    ensures states.Keys == localFileMap.Keys
    ensures forall k :: k in states ==> states[k].File == localFileMap[k] && !states[k].Checked && !states[k].Skip
  {
    map k | k in localFileMap :: FileState(localFileMap[k], false, false, "")
  }

  /** Every local file is already stored remotely with the same size and checksum. */
  ghost predicate AlreadyUploaded(localFileMap: map<string, LocalFileInfo>, remoteFiles: seq<RemoteFileInfo>)
  {
    && (forall k :: k in localFileMap ==> exists i :: 0 <= i < |remoteFiles| && remoteFiles[i].Path == k)
    && (forall i :: 0 <= i < |remoteFiles| && remoteFiles[i].Path in localFileMap ==>
          remoteFiles[i].Size == localFileMap[remoteFiles[i].Path].Size &&
          remoteFiles[i].Checksum == localFileMap[remoteFiles[i].Path].Checksum)
  }

  /** The state map of a run: one freshly allocated, unchecked state per local file. */
  method NewLocalStates(localFileMap: map<string, LocalFileInfo>) returns (localStates: map<string, LocalFileState>)
    ensures DistinctStates(localStates)
    ensures forall k :: k in localStates ==> fresh(localStates[k])
    ensures Snapshot(localStates) == InitialStates(localFileMap)
  {
    localStates := map[];
    var pending := localFileMap.Keys;
    while pending != {}
      invariant pending <= localFileMap.Keys
      invariant localStates.Keys == localFileMap.Keys - pending
      invariant DistinctStates(localStates)
      invariant forall k :: k in localStates ==> fresh(localStates[k])
      invariant forall k :: k in localStates ==> localStates[k].Value() == FileState(localFileMap[k], false, false, "")
      decreases pending
    {
      var relPath :| relPath in pending;
      var state := new LocalFileState(localFileMap[relPath]);
      localStates := localStates[relPath := state];
      pending := pending - {relPath};
    }
  }

  /**
   * The results of a run whose walk succeeded: one per local file when the
   * remote paths are distinct, and all skipped when every file is already
   * stored as is.
   */
  lemma RunOutcomes(localFileMap: map<string, LocalFileInfo>, stream: seq<RemoteFileInfo>, remoteDir: string,
                    order: seq<string>, upload: (string, string) -> Option<string>)
    requires IsOrdering(order, localFileMap.Keys)
    ensures var c := Classify(InitialStates(localFileMap), stream, remoteDir);
      var uploads := UploadStatuses(c.Tasks + ResidualTasks(c.States, order, remoteDir), upload);
      && (DistinctPaths(stream) ==> |c.Statuses + uploads| == |localFileMap|)
      && (DistinctPaths(stream) && AlreadyUploaded(localFileMap, stream) ==>
            && CountOutcome(c.Statuses + uploads, Skipped) == |localFileMap|
            && CountOutcome(c.Statuses + uploads, Uploaded) == 0
            && CountOutcome(c.Statuses + uploads, Failed) == 0)
  {
    var c := Classify(InitialStates(localFileMap), stream, remoteDir);
    var uploads := UploadStatuses(c.Tasks + ResidualTasks(c.States, order, remoteDir), upload);
    if DistinctPaths(stream) {
      OneOutcomePerLocalFile(InitialStates(localFileMap), stream, remoteDir, order);
      if AlreadyUploaded(localFileMap, stream) {
        SecondRunUploadsNothing(InitialStates(localFileMap), stream, remoteDir, order);
        SkippedStatusesCountAsSkipped(InitialStates(localFileMap), stream, remoteDir);
        assert uploads == [];
        assert c.Statuses + uploads == c.Statuses;
      }
    }
  }

  /**
   * uploadDirectoryOptimized, run sequentially: build the local inventory,
   * classify it against the streamed remote tree, upload every queued task
   * and tally the results. Skipped statuses come first, then the upload
   * statuses in task order.
   */
  method UploadDirectoryOptimized(walk: seq<WalkEntry>, remoteRoot: RemoteListing, localDir: string, remoteDir: string,
                                  upload: (string, string) -> Option<string>)
    returns (allResults: seq<FileUploadStatus>, uploaded: nat, skipped: nat, failed: nat)
    ensures uploaded + skipped + failed == |allResults|
    ensures uploaded == CountOutcome(allResults, Uploaded) && skipped == CountOutcome(allResults, Skipped) &&
            failed == CountOutcome(allResults, Failed)
    ensures FirstWalkFailure(walk).None? ==>
      var c := Classify(InitialStates(LocalFileMap(walk)), StreamRemoteFiles(remoteRoot, remoteDir), remoteDir);
      exists order :: IsOrdering(order, LocalFileMap(walk).Keys) &&
        allResults == c.Statuses + UploadStatuses(c.Tasks + ResidualTasks(c.States, order, remoteDir), upload)
    ensures FirstWalkFailure(walk).Some? ==>
      allResults == [WalkFailureStatus(localDir, FirstWalkFailure(walk).value)] && failed == 1
    ensures FirstWalkFailure(walk).None? && DistinctPaths(StreamRemoteFiles(remoteRoot, remoteDir)) ==>
      |allResults| == |LocalFileMap(walk)|
    ensures FirstWalkFailure(walk).None? && DistinctPaths(StreamRemoteFiles(remoteRoot, remoteDir)) &&
            AlreadyUploaded(LocalFileMap(walk), StreamRemoteFiles(remoteRoot, remoteDir)) ==>
      skipped == |LocalFileMap(walk)| && uploaded == 0 && failed == 0
  {
    var built := BuildLocalFileMap(walk);
    if built.Failure? {
      allResults := [WalkFailureStatus(localDir, built.error)];
      uploaded, skipped, failed := TallyResults(allResults);
      return;
    }
    var localFileMap := built.value;

    var localStates := NewLocalStates(localFileMap);
    var stream := StreamRemoteFiles(remoteRoot, remoteDir);
    var uploadTasks, results, remoteCount, remoteOnlyCount, sweepOrder := SkipChecker(localStates, stream, remoteDir);
    var uploadResults := Uploader(uploadTasks, upload);
    allResults := results + uploadResults;
    uploaded, skipped, failed := TallyResults(allResults);

    ghost var c := Classify(InitialStates(localFileMap), stream, remoteDir);
    assert results == c.Statuses;
    assert uploadTasks == c.Tasks + ResidualTasks(c.States, sweepOrder, remoteDir);
    assert IsOrdering(sweepOrder, localFileMap.Keys);
    RunOutcomes(localFileMap, stream, remoteDir, sweepOrder, upload);
  }
}
