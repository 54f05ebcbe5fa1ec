# hop: push, redirect-check and DNS logic in Dafny

`hop` is a command-line tool for Bunny.net content delivery zones. This project
models its deterministic core and proves properties about it. All HTTP
answers, filesystem walks, checksums and clock readings are given to the model
as inputs.

The modules follow the source files:

- **`Push`** (`cmd/hop/push.go`): the optimised push pipeline.
  - `ShouldSkipUpload` is the skip policy on sizes and checksums.
  - `BuildLocalFileMap` builds the local inventory from a given walk.
  - `ListRemoteFiles` and `StreamRemoteFiles` traverse the remote tree. The tree is a `RemoteListing` value.
  - The `skipChecker` stage is the class `LocalFileState`. The methods `CheckRemoteFile`, `SweepUnchecked` and `SkipChecker` update its flags in place, and each is specified against the pure fold `Classify`.
  - Around these sit the uploader, the tally and the whole run, `UploadDirectoryOptimized`.
  - The goroutine pipeline runs as one sequential pass: stream, then check, then upload each task.
- **`EdgeRules`** (`cmd/hop/edgerule.go`): the redirect-rule analysis.
  - Source extraction, URL normalisation and the redirect map.
  - Basic, configuration, security, loop/chain and health checks.
  - Go map iteration order is a ghost `order` sequence that lists each key exactly once.
- **`Dns`** (`cmd/hop/dns.go`): record-type names, the hostname set, record matching, per-hostname validation and the `.b-cdn.net` partition.
- **`Bunny`** (`cmd/hop/bunny.go`):
  - the quote-stripping and null branch of `BunnyTime.UnmarshalJSON`;
  - the field-presence rule of `strictUnmarshal` and tag splitting;
  - zone selection by case-insensitive name;
  - the status formatters.
- **`Legacy`** (`cmd/hop/main.go`): the earlier sequential revision.
  - Its sequential `uploadDirectoryOptimized` and its fail-fast `buildRemoteFileMap`.
  - The `handleCDNPush` tally and exit code, and the `handleAdd` and `handleList` rule handling.
  - Functions that `main.go` shares with the other files (`shouldSkipUpload`, `listRemoteFiles`, `normalizeURL`, `extractSourceURL`, `buildRedirectMap` and the `check*` functions) are modelled once, in `Push` and `EdgeRules`.
- **`Text`** and **`Wrappers`**: ASCII string helpers and `Option`/`Result`.

Three behaviours of the code worth noting:

- **Streaming tolerates listing errors; the map builder does not.** `remoteFileStreamer` skips a subtree whose listing fails. When the root listing fails it likewise prints a warning and returns no error. `buildRemoteFileMap` in `main.go` aborts on the first listing error.
- **The sequential upload does not fail fast on per-entry walk errors.** It records one failed status for each entry error and carries on. Those failed statuses are not counted in its own printed counters. `handleCDNPush` does count them as failures (`Legacy.WalkErrorsFailThePush`).
- **The model orders results by stage; the program interleaves them as they arrive.** In `push.go` the skip checker and the eight uploaders send into one results channel, and the collector appends in arrival order. The model puts the skipped statuses first, then the upload statuses in task order. In neither is the order the walk order.

## Model

| member | source | states |
|---|---|---|
| Text.TrimQuotes | cmd/hop/bunny.go:21 | Stripping quotes leaves no quote at either end and does not change text that has none at either end |
| Text.TrimQuotesRemovesOnlyQuotes | cmd/hop/bunny.go:21 | The input is the result with a run of quotes before it and a run of quotes after it, so nothing but leading and trailing quotes is removed |
| Text.BeforeComma | cmd/hop/bunny.go:226 | The result is the longest comma-free prefix of the tag: a prefix with no comma, followed in the tag by a comma or by nothing |
| Text.SlashPath | cmd/hop/push.go:247 | Replacing backslashes keeps the length and leaves no backslash; every other character is unchanged |
| Bunny.DecodeTime | cmd/hop/bunny.go:19-38 | After quotes are stripped, "null" and "" decode to the zero time. Otherwise the Bunny layout wins when it parses, RFC 3339 is tried only when it fails, and an error means both failed |
| Bunny.DecodeTimeIgnoresQuotes | cmd/hop/bunny.go:21 | Wrapping the input in quotes does not change what is decoded |
| Bunny.TrimQuotesTrailing | cmd/hop/bunny.go:21 | A trailing quote is stripped like a leading one |
| Bunny.QuotedNullIsZeroTime | cmd/hop/bunny.go:21-25 | `"null"` and `""` both decode to the zero time without an error |
| Bunny.BunnyTime.UnmarshalJSON | cmd/hop/bunny.go:19-38 | On success the receiver holds the decoded time and no error is returned. On failure the receiver is unchanged and the error is returned |
| Bunny.BunnyTime.constructor | cmd/hop/bunny.go:15-17 | A new value holds the zero time |
| Bunny.FieldNames | cmd/hop/bunny.go:221-233 | At most one name per tag; no name contains a comma |
| Bunny.GetJSONFieldNames | cmd/hop/bunny.go:221-233 | The loop yields exactly `FieldNames` of the tags, in field order |
| Bunny.FieldNamesComeFromTags | cmd/hop/bunny.go:224-230 | Soundness: every field name is the text before the first comma of some tag that is neither "" nor "-" |
| Bunny.FieldNamesAppend | cmd/hop/bunny.go:222-231 | Order: the names of two runs of fields are the names of the first run followed by those of the second |
| Bunny.FieldNameAt | cmd/hop/bunny.go:224-230 | Completeness and position: every tag other than "" and "-" contributes the text before its first comma, right after the names of the fields before it |
| Bunny.FirstMissing | cmd/hop/bunny.go:206-210 | None iff every field is among the keys; otherwise the first field, in order, that is not among them |
| Bunny.StrictUnmarshal | cmd/hop/bunny.go:195-218 | Returns exactly `StrictResult`: a decode failure of the raw keys as is; otherwise the error naming the first expected field, in struct order, that is absent from the keys; with every field present, the typed decode's result |
| Bunny.ExtraKeysAllowed | cmd/hop/bunny.go:206-213 | Adding response keys that the struct does not expect never changes what strictUnmarshal returns |
| Bunny.FirstMissingIgnoresExtra | cmd/hop/bunny.go:206-210 | Keys outside the field list do not change the first missing field |
| Bunny.Contains | cmd/hop/bunny.go:236-243 | True iff the item occurs in the slice |
| Bunny.FindPullZoneByName | cmd/hop/bunny.go:96-103 | Succeeds iff some zone's name case-insensitively equals the target; the result is the id of the first such zone. Otherwise the "not found" error text |
| Bunny.FindStorageZoneForPullZone | cmd/hop/bunny.go:184-191 | Succeeds iff some storage zone's name case-insensitively equals the pull zone's; the result is the first such zone. Otherwise the error text |
| Bunny.FormatBoolStatus | cmd/hop/bunny.go:246-251 | "Enabled" iff enabled, "Disabled" iff not |
| Bunny.FormatSSLCertificateStatus | cmd/hop/bunny.go:254-269 | 0 to 4 map to the five fixed names. Every other code, negative ones included, maps to "Unknown (n)", and only those codes do |
| Push.ShouldSkipUpload | cmd/hop/push.go:113-133 | Skip iff sizes are equal and either checksum is empty or the checksums are equal. The reason is "checksum match" when both are present, otherwise "size match (no checksum)"; it is empty exactly when the upload is not skipped |
| Push.ShouldSkipUploadSymmetric | cmd/hop/push.go:113-133 | The decision depends only on the two sizes and checksums, not on paths or other fields |
| Push.LocalFileMapKeyed | cmd/hop/push.go:201-206 | Every local map entry is stored under its own RelPath, which contains no backslash |
| Push.FirstWalkFailureSticks | cmd/hop/push.go:178-184 | The first walk error decides the outcome, whatever entries follow it |
| Push.BuildLocalFileMap | cmd/hop/push.go:175-212 | Fails with the first walk error; otherwise returns the map of regular files keyed by relative path |
| Push.ListRemoteFiles | cmd/hop/push.go:59-111 | Fails iff the request cannot be built, the transport fails, the client returns no response, the status is neither 200 nor 404, or the body does not parse, with the matching error text. A 404 is an empty listing. Otherwise it returns one entry per listed item, with Path set to the listed path |
| Push.ListingError | cmd/hop/push.go:65-100 | Each failure kind has its own text: "error creating request: " and "error listing files: " prefixes exactly for the request and transport failures, "received nil response" exactly for a missing response, and "error parsing JSON response" exactly for a 200 whose body does not parse |
| Push.RemoteRelPath | cmd/hop/push.go:244-249 | At the root ("" or "/") the relative path is the bare name |
| Push.StreamListingOnlyFiles | cmd/hop/push.go:234-253 | The stream never emits a directory |
| Push.StreamEntriesOnlyFiles | cmd/hop/push.go:234-253 | Each remaining entry contributes only files to the stream |
| Push.FailedSubtreeSkipped | cmd/hop/push.go:228-232 | A subdirectory whose listing fails contributes nothing, and its sibling subtrees still stream |
| Push.LocalFileState.constructor | cmd/hop/push.go:362-370 | A new state holds the file, unchecked, not skipped, with no reason |
| Push.ClassifyOne | cmd/hop/push.go:274-304 | An unmatched remote entry changes nothing. A matched one marks its local state checked and leaves every other state as it was. If the skip policy holds, it appends exactly one skipped status with the policy's reason, sets that reason and queues nothing. Otherwise it appends exactly one task whose remote path is remoteDir joined with RelPath and emits no status. The file itself never changes |
| Push.ResidualTasksStep | cmd/hop/push.go:310-321 | The sweep queues a task for a key iff its state is neither checked nor skipped |
| Push.ClassifyFacts | cmd/hop/push.go:263-304 | The stream never adds, removes or alters local files, and it keeps "skipped implies checked". It emits one status or task per matched remote entry. Starting unchecked, it marks checked exactly the files some remote entry names |
| Push.MatchedKeysCount | cmd/hop/push.go:274-279 | With distinct remote paths, matched local files plus remote-only entries account for the whole stream |
| Push.MatchedKeysStep | cmd/hop/push.go:274-279 | One more remote entry adds its path to the matched files exactly when a local file has that path |
| Push.ResidualTasksCount | cmd/hop/push.go:310-321 | The sweep queues one task per pending local file |
| Push.ResidualTasksArePending | cmd/hop/push.go:312-320 | Every swept task belongs to a local file no remote entry matched |
| Push.OneOutcomePerLocalFile | cmd/hop/push.go:263-322 | With distinct remote paths, skipped statuses, streamed tasks and swept tasks together number exactly the local files |
| Push.PendingCount | cmd/hop/push.go:310-321 | The files the sweep queues are exactly the local files no remote entry matched |
| Push.StreamOutcomeOf | cmd/hop/push.go:274-304 | While streaming, a local file receives one skipped status if it ends skipped, one task if it ends checked but not skipped, and nothing otherwise |
| Push.StreamOutcomeStep | cmd/hop/push.go:274-304 | One remote entry keeps that per-file accounting: it adds an outcome only for the file it matches, which had none yet |
| Push.SweepOutcomeOf | cmd/hop/push.go:310-321 | The sweep queues one task for a file iff its key is visited and it is neither checked nor skipped, and none otherwise |
| Push.EachLocalFileOneOutcome | cmd/hop/push.go:263-322 | Every local file gets exactly one outcome: one skipped status with its path iff it is skipped, otherwise exactly one upload task, streamed or swept |
| Push.SecondRunUploadsNothing | cmd/hop/push.go:263-322 | When the remote tree already holds every local file with the same size and checksum, nothing is queued and every local file is reported skipped |
| Push.NoTasksWhenAllMatch | cmd/hop/push.go:282-304 | Remote entries that all agree with their local files queue no task while streaming |
| Push.CheckRemoteFile | cmd/hop/push.go:274-304 | One loop step updates the states in place exactly as `ClassifyOne` does on their snapshot |
| Push.SweepUnchecked | cmd/hop/push.go:310-321 | The sweep visits every key once, in some map order, and queues `ResidualTasks` for that order. Whatever the order, it queues exactly one task per local file that is neither checked nor skipped |
| Push.SkipChecker | cmd/hop/push.go:263-322 | The final states, statuses and tasks are those of `Classify` over the stream, followed by the sweep. remoteCount counts every entry and remoteOnlyCount counts the unmatched ones |
| Push.Uploader | cmd/hop/push.go:450-468 | The loop yields exactly `UploadStatuses` of the tasks, in task order |
| Push.UploadStatuses | cmd/hop/push.go:457-463 | One status per task, for that task's local path. It succeeds iff the upload returns no error, carries that error, and is never marked skipped |
| Push.CountOutcome | cmd/hop/push.go:411-426 | No outcome is counted more often than there are results |
| Push.CountOutcomePartition | cmd/hop/push.go:411-426 | uploaded + skipped + failed equals the number of results |
| Push.CountOutcomeAppend | cmd/hop/push.go:402-426 | Counting is additive over concatenated result lists |
| Push.TallyResults | cmd/hop/push.go:411-426 | The counters equal the three outcome counts and sum to the number of results |
| Push.PluralWord | cmd/hop/push.go:432-443 | "file" iff the count is 1, otherwise "files" |
| Push.SkippedStatusesCountAsSkipped | cmd/hop/push.go:282-296 | Every status the checker emits is counted as skipped |
| Push.UploadStatusesNotSkipped | cmd/hop/push.go:459-463 | Upload statuses never count as skipped |
| Push.InitialStates | cmd/hop/push.go:362-370 | One unchecked, unskipped state per local file, under the same key |
| Push.NewLocalStates | cmd/hop/push.go:362-370 | Fresh, distinct state objects whose snapshot is `InitialStates` |
| Push.UploadDirectoryOptimized | cmd/hop/push.go:345-447 | A walk failure yields a single failed status and nothing else. The three counters are the outcome counts of the results and sum to them. Otherwise, for some map order of the sweep, the results are exactly the classifier's skipped statuses followed by the upload statuses of the streamed tasks and then the swept tasks. With distinct remote paths there is exactly one result per local file. When everything is already uploaded, all results are skipped |
| Push.RunOutcomes | cmd/hop/push.go:345-447 | For a successful walk: with distinct remote paths the skipped and upload statuses number the local files; when every file is already stored as is, all are counted skipped, none uploaded or failed |
| EdgeRules.ExtractSourceURL | cmd/hop/edgerule.go:200-205 | The first pattern of the first trigger, or "" when there is no trigger or it has no pattern |
| EdgeRules.NormalizeURL | cmd/hop/edgerule.go:192-198 | Lower-cases the URL and drops one trailing "/" unless the result is "/"; the result is lower case |
| EdgeRules.NormalizeURLFixedPoint | cmd/hop/edgerule.go:192-198 | A URL is unchanged iff it is lower case and does not end in "/" (or is "/") |
| EdgeRules.NormalizeURLNotIdempotent | cmd/hop/edgerule.go:192-198 | "a//" becomes "a/" and then "a", so normalising is not idempotent. "/" and "" are fixed |
| EdgeRules.RedirectMapKeys | cmd/hop/edgerule.go:207-223 | A source is a key iff some redirect rule with a destination has that non-empty source; both maps have the same keys |
| EdgeRules.RedirectMapLastWins | cmd/hop/edgerule.go:207-223 | Each key holds the last rule mapping that source, and that rule's destination |
| EdgeRules.BuildRedirectMap | cmd/hop/edgerule.go:207-223 | The loop builds exactly `RedirectMapOf` of the rules |
| EdgeRules.BasicIssuesFor | cmd/hop/edgerule.go:229-268 | Non-redirect rules get no issue and every rule gets at most one. 301 is a warning, 302 without a destination an error, a destination without a code an error, and any other code a warning |
| EdgeRules.BasicIssuesBound | cmd/hop/edgerule.go:225-272 | At most one basic issue per rule, each tied to its rule |
| EdgeRules.CheckBasicRedirectIssues | cmd/hop/edgerule.go:225-272 | The loop returns the per-rule issues in rule order |
| EdgeRules.RuleBasicIssues | cmd/hop/edgerule.go:229-268 | One rule's branch chain yields `BasicIssuesFor` that rule |
| EdgeRules.SourceRefs | cmd/hop/edgerule.go:279-292 | A non-redirect rule or one without a source is filed under nothing. A redirect rule is filed first under its source, and also under the normalised source; it is filed under no other key and never twice under one key |
| EdgeRules.SourceGroupsCount | cmd/hop/edgerule.go:279-292 | A group's size equals the number of references filed under its key, and a key exists iff it has a reference |
| EdgeRules.RefCountOne | cmd/hop/edgerule.go:279-292 | A rule referring to a key makes that key's count at least one |
| EdgeRules.RefCountLast | cmd/hop/edgerule.go:279-292 | Adding a rule adds one to the count of each key it refers to |
| EdgeRules.RefCountSplit | cmd/hop/edgerule.go:279-292 | A key's count covers the rules before position j plus rule j |
| EdgeRules.RefCountTwo | cmd/hop/edgerule.go:295-305 | Two rules referring to one key give it at least two references |
| EdgeRules.DuplicateIssues | cmd/hop/edgerule.go:295-305 | Every duplicate issue is an error about a key grouped under two or more references |
| EdgeRules.DuplicateIssuesStep | cmd/hop/edgerule.go:295-305 | A key adds one duplicate error iff its group holds more than one rule |
| EdgeRules.DuplicateIssuesCount | cmd/hop/edgerule.go:295-305 | Whatever the map order, there is exactly one duplicate error per conflicting key |
| EdgeRules.SameNormalFormConflicts | cmd/hop/edgerule.go:279-305 | Two redirect rules whose sources normalise alike are reported as duplicates |
| EdgeRules.MixedCaseIssue | cmd/hop/edgerule.go:312-321 | A warning iff the source is non-empty and not lower case |
| EdgeRules.TrailingSlashIssue | cmd/hop/edgerule.go:323-331 | An info iff the source ends in "/" and is not "/" |
| EdgeRules.GroupSources | cmd/hop/edgerule.go:279-292 | The grouping loop builds exactly `SourceGroups` |
| EdgeRules.ReportDuplicates | cmd/hop/edgerule.go:295-305 | Visits every group once in some map order and reports `DuplicateIssues` for that order. Whatever the order, it reports exactly one configuration error per group of two or more |
| EdgeRules.ReportStyle | cmd/hop/edgerule.go:308-334 | The style loop returns each rule's mixed-case and trailing-slash issues in rule order |
| EdgeRules.RuleStyleIssues | cmd/hop/edgerule.go:309-333 | One rule's style checks yield `StyleIssuesFor` that rule |
| EdgeRules.CheckConfigurationIssues | cmd/hop/edgerule.go:274-337 | Duplicate errors in map order, followed by the style issues in rule order; exactly one duplicate error per conflicting key |
| EdgeRules.SuspiciousReason | cmd/hop/edgerule.go:171-190 | A reason iff some listed pattern matches the lower-cased URL |
| EdgeRules.FirstMatch | cmd/hop/edgerule.go:183-189 | The scan finds a match iff some remaining pattern matches, and reports the first one |
| EdgeRules.IsSuspiciousURL | cmd/hop/edgerule.go:171-190 | Suspicious iff a pattern matches, with the first match's reason; otherwise the reason is "" |
| EdgeRules.SuspiciousIssue | cmd/hop/edgerule.go:346-354 | A warning iff the rule has a destination and it is suspicious |
| EdgeRules.OpenRedirectIssue | cmd/hop/edgerule.go:356-377 | An info-level issue iff the rule has a destination that parses to a non-empty host that equals none of the zone's hostnames, ignoring case; it carries that host |
| EdgeRules.CheckExternal | cmd/hop/edgerule.go:360-366 | The hostname loop with its early break decides `IsExternal`: no zone hostname equals the host, ignoring case |
| EdgeRules.DowngradeIssue | cmd/hop/edgerule.go:379-390 | An error iff the lower-cased destination starts with "http://" and the lower-cased source contains "https://" |
| EdgeRules.CheckRuleSecurity | cmd/hop/edgerule.go:345-391 | One rule yields its suspicious, open-redirect and downgrade issues |
| EdgeRules.CheckSecurityIssues | cmd/hop/edgerule.go:339-395 | The loop returns every rule's security issues in rule order |
| EdgeRules.WalkChain | cmd/hop/edgerule.go:405-446 | The walk is bounded by 10 hops. A chain result has 2 to 10 hops. A single hop is reported only for a first URL that is neither revisited nor mapped further |
| EdgeRules.WalkOutcomes | cmd/hop/edgerule.go:405-446 | For every map and start: a single hop iff the start is not a source; too long iff ten distinct sources follow each other; a loop at u iff the walk returns to an earlier URL u before that; a chain of h hops iff the URL after h - 1 distinct sources is new and not a source |
| EdgeRules.WalkLoops | cmd/hop/edgerule.go:418-427 | A walk that comes back to an earlier URL reports a loop at it |
| EdgeRules.WalkEnds | cmd/hop/edgerule.go:431-443 | A walk that reaches a new URL which is not a source reports a chain of that many hops |
| EdgeRules.WalkAlong | cmd/hop/edgerule.go:429-445 | Following only new sources from step k to step n does not change the outcome |
| EdgeRules.WalkCases | cmd/hop/edgerule.go:405-446 | Every walk ends in one of the four ways: single hop, too long, loop or chain |
| EdgeRules.TwoCycleIsLoop | cmd/hop/edgerule.go:418-425 | Two sources that redirect to each other are reported as a loop |
| EdgeRules.TwoHopChain | cmd/hop/edgerule.go:434-445 | a → b → (end) is reported as a chain of 2 hops |
| EdgeRules.ChainIssue | cmd/hop/edgerule.go:405-446 | No issue for a single hop, otherwise exactly one, for the source's rule. Too long and loop are errors, a chain a warning. A loop is a "redirect_loop" carrying the looping URL; a chain is a "redirect_chain" whose message gives the hop count |
| EdgeRules.LoopIssues | cmd/hop/edgerule.go:397-450 | At most one issue per source |
| EdgeRules.LoopIssuesStep | cmd/hop/edgerule.go:405-446 | Each source adds exactly its own chain issue |
| EdgeRules.FollowChain | cmd/hop/edgerule.go:405-446 | The loop over visited, current and hop count computes `ChainFrom` |
| EdgeRules.CheckRedirectLoops | cmd/hop/edgerule.go:397-450 | Visits every source once in some map order and returns at most one issue per source |
| EdgeRules.OrderingSize | cmd/hop/edgerule.go:400 | A map order lists as many keys as the map has |
| EdgeRules.LowerCaseFixed | cmd/hop/edgerule.go:193 | Text without upper-case letters is unchanged by lower-casing |
| EdgeRules.BrokenSeverity | cmd/hop/edgerule.go:487-499 | Critical iff the status is at least 500, error iff 400 to 499, nothing below 400 |
| EdgeRules.HealthIssuesFor | cmd/hop/edgerule.go:456-511 | Redirects whose destination does not start with "http" are skipped. An invalid destination or a failed probe gives one error. Otherwise a status of 400 or more gives one issue of its broken severity, a 3xx final status gives one info issue, and any other status gives none |
| EdgeRules.StatusIssues | cmd/hop/edgerule.go:487-509 | A final status gives one issue iff it is 400 or more (of its broken severity) or in the 3xx range (info), and never two |
| EdgeRules.HealthIssues | cmd/hop/edgerule.go:452-514 | At most one health issue per rule |
| EdgeRules.CheckURLHealth | cmd/hop/edgerule.go:452-514 | The loop returns each rule's health issue in rule order |
| Dns.FormatDNSRecordType | cmd/hop/dns.go:53-82 | Known codes map to their names and any other code n to "TYPE"+n. The name is "A" or "CNAME" iff the type is a target type |
| Dns.TargetTypeNameFormats | cmd/hop/dns.go:53-82 | On the two target types the short name is the one `formatDNSRecordType` prints |
| Dns.NormalizeHostname | cmd/hop/dns.go:88-90 | Each character is the ASCII lower-case form of the input's character at the same position, so no upper-case letter remains |
| Dns.CreateHostnameMap | cmd/hop/dns.go:92-98 | The keys are exactly the lower-cased hostname values, all mapped to true |
| Dns.CaseVariantsCollapse | cmd/hop/dns.go:92-98 | Hostnames that differ only in case share one key, so two such entries leave the map with fewer keys than there are hostnames |
| Dns.HostnameSetSize | cmd/hop/dns.go:92-98 | The map never has more keys than there are hostnames |
| Dns.CandidateNames | cmd/hop/dns.go:111-118 | The record name first. The name joined to the zone domain is also tried iff the name has no dot and differs from the domain |
| Dns.FirstMatchingName | cmd/hop/dns.go:120-132 | The first candidate, in order, whose lower-cased form is a known hostname; none iff no candidate is |
| Dns.RecordMatch | cmd/hop/dns.go:105-133 | One output iff the record is of a target type and some candidate name is a known hostname; none otherwise. The output is typed "A" for type 0 and "CNAME" for type 2, keeps the value and TTL, and is named by the matched candidate, un-normalised; the record's own name is used iff it is itself known |
| Dns.ZoneMatches | cmd/hop/dns.go:105-133 | At most one output per record of the zone |
| Dns.ZoneMatchesAppend | cmd/hop/dns.go:105-133 | Matching is additive over runs of records |
| Dns.ZoneMatchesHas | cmd/hop/dns.go:105-133 | Completeness: every output of a record of the zone is among the zone's matches |
| Dns.ZoneMatchesSound | cmd/hop/dns.go:105-133 | Soundness: every match of the zone is an output of one of its records |
| Dns.MatchingRecordsHas | cmd/hop/dns.go:100-137 | Every match of a zone is among all the matches |
| Dns.MatchingRecordsSound | cmd/hop/dns.go:100-137 | Every match comes from some zone |
| Dns.MatchingRecordsHasRecord | cmd/hop/dns.go:100-137 | Every output of any record of any zone is among all the matches |
| Dns.MatchingRecordsAreTargets | cmd/hop/dns.go:100-137 | Every matched record has type "A" or "CNAME" |
| Dns.ZoneMatchesAreTargets | cmd/hop/dns.go:105-133 | Every record matched in one zone has type "A" or "CNAME" |
| Dns.MatchRecord | cmd/hop/dns.go:106-132 | The candidate loop with its early break yields `RecordMatch` |
| Dns.MatchZone | cmd/hop/dns.go:105-133 | The record loop yields `ZoneMatches` |
| Dns.FilterMatchingDNSRecords | cmd/hop/dns.go:100-137 | The nested loops yield the matches in zone then record order |
| Dns.FirstRecordFor | cmd/hop/dns.go:272-278 | The first matched record, in order, whose name equals the hostname, ignoring case; none iff there is none |
| Dns.FirstRecordWithKey | cmd/hop/dns.go:272-278 | The first record, in order, whose lower-cased name is the given key; none iff there is none |
| Dns.ValidationFor | cmd/hop/dns.go:264-281 | The result carries the hostname, and HasRecord is true iff some matched record has that name, ignoring case |
| Dns.Validations | cmd/hop/dns.go:239-285 | One result per hostname in input order. All are false if the zone fetch failed; otherwise each is the per-hostname validation |
| Dns.CheckDNSRecordsForHostnames | cmd/hop/dns.go:239-285 | The loop fills exactly `Validations` |
| Dns.ValidateHostname | cmd/hop/dns.go:264-281 | The inner search yields `ValidationFor` the hostname |
| Dns.ValidationsExactly | cmd/hop/dns.go:239-285 | After a successful fetch, a hostname has a record iff some record of some zone is matched under a name equal to the hostname, ignoring case |
| Dns.OwnRecordValidates | cmd/hop/dns.go:239-285 | An A or CNAME record whose own name equals a hostname, ignoring case, validates that hostname |
| Dns.MapOf | cmd/hop/dns.go:92-98 | A map whose keys are exactly the given set, each mapped to true |
| Dns.Verdict | cmd/hop/dns.go:293-324 | A hostname is an issue iff it does not end in ".b-cdn.net" and has no record. Managed hostnames are "dns_skip", successes are info, and issues are "dns_missing_record" errors |
| Dns.Partition | cmd/hop/dns.go:293-324 | Issues and successes together number the validations |
| Dns.PartitionIssues | cmd/hop/dns.go:293-324 | There are exactly as many issues as unmanaged hostnames without a record; every issue is a missing-record error and every success is info |
| Dns.CheckDNSRecordsStructured | cmd/hop/dns.go:288-327 | The partition of the validations, with one entry per hostname |
| Legacy.CollectFiles | cmd/hop/main.go:363-388 | The recursive collector computes `CollectListing`: it stops at the first listing error and otherwise adds each file under its relative path |
| Legacy.BuildRemoteFileMap | cmd/hop/main.go:359-391 | The map and error of the collector from the remote root. A failing root listing gives an empty map and its error |
| Legacy.PathsAppend | cmd/hop/main.go:363-388 | The paths of a concatenation are the union of the paths |
| Legacy.PathsSingleton | cmd/hop/main.go:383 | One file contributes its own path |
| Legacy.CollectListingMatchesStream | cmd/hop/main.go:363-388 | The collector reports no error iff no listing in the tree fails; then its keys are the paths the streamer emits |
| Legacy.CollectEntriesMatchesStream | cmd/hop/main.go:370-386 | The same, for the remaining entries of one listing |
| Legacy.RemoteMapMatchesStream | cmd/hop/main.go:359-391 | On a healthy tree, the fail-fast map and the tolerant stream agree on the set of remote paths |
| Legacy.EntryStatus | cmd/hop/main.go:510-534 | A walk entry yields a failed, unskipped status for its path iff it carries an error or is a file whose relative path fails |
| Legacy.WalkAccounting | cmd/hop/main.go:510-551 | Statuses plus collected files never outnumber walk entries. Every walk status is a failure. Every collected file comes from a regular walk entry and has no backslash in its relative path |
| Legacy.FileStatus | cmd/hop/main.go:580-616 | Skipped iff the RelPath is in the remote map and the skip policy holds; then it is a success with the policy's reason. Otherwise the upload's error decides success |
| Legacy.FileStatuses | cmd/hop/main.go:580-616 | One status per local file, in walk order |
| Legacy.NoRemoteMapUploadsEverything | cmd/hop/main.go:566-571 | With an empty remote map, every local file is uploaded and none is skipped |
| Legacy.CollectLocalFiles | cmd/hop/main.go:510-551 | The walk loop yields the entry failures and the collected files in walk order |
| Legacy.UploadOne | cmd/hop/main.go:581-615 | One loop step yields `FileStatus` |
| Legacy.UploadFiles | cmd/hop/main.go:580-616 | One status per local file. The counters are the outcome counts and sum to the number of files |
| Legacy.UploadDirectoryOptimized | cmd/hop/main.go:503-620 | A whole-walk error appends one failed status for the local directory after the entry failures, and nothing is uploaded. Otherwise the results are the entry failures followed by one status per collected file, judged against the remote map, which is empty if listing failed |
| Legacy.FailedPaths | cmd/hop/main.go:812-818 | No more failed paths than results |
| Legacy.FailedPathsCount | cmd/hop/main.go:812-818 | One failed path per failed result, and a path is listed iff some failed result has it |
| Legacy.HandleCDNPush | cmd/hop/main.go:795-820 | The tally counts uploaded, skipped and failed, summing to the results. Failed paths are listed only when something failed. The exit code is 1 iff any result failed |
| Legacy.WalkErrorsFailThePush | cmd/hop/main.go:510-534 | A walk entry error always makes the push exit non-zero |
| Legacy.AllFailed | cmd/hop/main.go:798-808 | Results that are all failures are all counted as failed |
| Legacy.NewRedirectRule | cmd/hop/main.go:833-853 | A 302 redirect action to the destination, enabled, with one trigger holding the source. The description defaults to "302 redirect from X to Y" |
| Legacy.Redirects302 | cmd/hop/main.go:879-884 | A rule is listed iff it is a redirect with code "302" |
| Legacy.Redirects302Append | cmd/hop/main.go:879-884 | The filter keeps order and is additive over concatenation |
| Legacy.HandleList | cmd/hop/main.go:879-884 | The loop keeps exactly the 302 redirects, in order |
| Legacy.AddedRuleRoundTrip | cmd/hop/main.go:833-884 | A rule added with a non-empty source and destination shows up at the end of the listing, raises no basic issue, and makes the redirect map send its source to its destination |

## Left out

- HTTP requests (`findPullZoneByName`, `getPullZoneDetails`, `getStorageZoneByPullZone`, `addEdgeRule`, `listEdgeRules`, `getAllDNSZones`, `findDNSRecordsForHostnames`, `uploadFileToStorage`, `performHealthCheck`, `testSSLConnectivity`, `testForceSSLRedirect`): network I/O. Their answers are inputs to the model, for example:
  - a `RemoteListing` tree of status codes and entries;
  - an `upload` function returning the error, if any;
  - a `probe` function returning a status code or an error;
  - a `Result` of DNS zones.

  The model keeps only the selection loops of the zone lookups.
- Error texts omit the HTTP status text and body. "error reading response" is merged with "error parsing JSON response": both are reading a body that the model does not have.
- Goroutines, channels, `sync.WaitGroup`, context cancellation and timeouts: `Push.UploadDirectoryOptimized` runs streamer, checker and uploader one after another. The concurrent collector's interleaving of results is not modelled. The model's order is skipped statuses first, then upload statuses in task order.
- Push.UploadDirectoryOptimized and Legacy.UploadDirectoryOptimized: on the early return after a walk failure the Go functions print no tally. The counters the model returns on that path (one failure in `Push`, all zero in `Legacy`) have no counterpart in the source.
- Push.UploadDirectoryOptimized: the map order of the sweep is existentially chosen, as Go leaves it unspecified; `Push.EachLocalFileOneOutcome` assumes distinct local paths (`DistinctLocalPaths`), which holds because the walk visits each path once.
- `calculateFileChecksum` (SHA-256 over file contents): a foreign library. Checksums arrive with each walk entry, "" when computing one failed.
- `filepath.Walk`, `os.Stat`, `filepath.Rel`: the local tree is a sequence of walk entries, each with an error, a directory flag, a size, a checksum and a relative-path result. In `main.go` the walk callback always returns nil, so `filepath.Walk` itself returns nil there. The `Some` case of `Legacy.UploadDirectoryOptimized`'s `walkErr` input therefore cannot arise in the source; the model keeps the branch as a superset of the behaviour.
- `filepath.Join`/`Clean`: `Text.Join` handles only clean, slash-separated segments.
- `time.Parse` layouts in `BunnyTime`: the two parsers are inputs. Times are an abstract `Instant`.
- The regular-expression engine in `isSuspiciousURL`: patterns are matched by an abstract matcher. The scan order and reasons are kept.
- `url.Parse` in `isValidDomain` and the open-redirect check: host extraction and domain validity are inputs (`parseHost`, `validDomain`).
- JSON decoding and reflection in `strictUnmarshal`/`getJSONFieldNames`: the model works on the set of raw keys and the list of struct tags.
- Unicode case folding in `strings.ToLower`/`EqualFold`: ASCII only.
- Go map iteration order: a ghost sequence listing every key once. The contracts hold for every such order.
- `int64` ids and sizes are unbounded integers. No overflow can occur at realistic sizes.
- `PullZoneDetails` and its display: output only.
- CLI parsing, the global `CLI` struct, `debug(ctx)`, `printDNSZonesSummary`, `printHostnameLookup`, `displayCheckResults`/`displayIssueGroup`, `handleCheck`, `main`: console output and wiring. Only the `os.Exit(1)` after failed uploads becomes the `exitCode` of `Legacy.HandleCDNPush`. The `log.Fatalf` exits are not modelled: in `handleCDNPush` a missing local directory and failed pull-zone and storage-zone lookups, and in `handleAdd`/`handleList` failed zone lookups and failed rule requests. The printed lines of `handleList` are not modelled, only which rules it lists.
- `CheckResult` is declared outside the modelled files. It is reproduced in `Dns` with the two fields it uses.
- `EdgeRule` and `EdgeRuleResponse` share one datatype. The response's extra fields are not read by the modelled logic.
- The duplicates of shared functions in `main.go` (for example `cmd/hop/main.go:394-414`, `cmd/hop/main.go:710-741`, `cmd/hop/main.go:951-1240`) are the same code as in `push.go` and `edgerule.go` and are modelled there once.
