# kuku verification

A Dafny model of the parts of kuku where a mistake would lose data or history, with proofs that
hold for every input, every run or every interleaving.

| module | what it models |
|---|---|
| `SyncRows` … `SyncService` | the sync server: object uploads, usage counters and quotas, commit publishing, garbage collection |
| `SyncSigned`, `SyncPublishRules`, `SyncUploadRules`, `SyncStepRules` | what that server accepts, refuses and writes, said of its rows alone |
| `Calendar`, `Rfc3339`, `Rfc3339Layout` | the desktop's date arithmetic and its time stamps |
| `VaultWrites`, `VaultProgress` | saving a file with checksum validation, through the per-path write queue |
| `RetainedDocument`, `DocumentArrivals` | a document that outlives its editor, and its save loop |
| `DocumentPatch`, `PatchChoice` | turning parsed Markdown into one editor transaction |
| `PluginRegistry` | ordering plugins by dependency |
| `HistoryCompaction`, `TurnHistory` | fitting a conversation into a model request |
| `TokenRefresh`, `TokenOutcomes` | refreshing stored tokens from concurrent tasks |
| `ChunkSplit`, `Wikilink`, `WikilinkScan` | the indexer's chunk splitter and wikilink extractor |
| `WatcherRefresh` | the refresh scheduler behind the file watcher |
| `Text` | white space, digests, ordering and splitting of strings |

How the pieces fit together:

- A protocol is a state and a step function over values. Lemmas named `…Keeps` show that each
  step keeps the invariant, and a theorem lifts that to every run.
- Code that changes things in place is also written as a class or as a method with loops, proved
  equal to those functions. Asynchronous code is cut at its awaits, and any other step may come
  between two parts.
- Each step function also has lemmas that say when it succeeds, with which error it fails and
  what the state is afterwards, without naming the function it is built from (names such as
  `…Exactly`, `…Rows`, `…Arrives`). They tie the definitions down where an invariant alone would
  leave room.
- `SyncRuns` holds the results about the sync server. It starts from the empty database and
  ranges over every sequence of transactions by any users and devices.

Findings about the code. Each has a lemma at a failing input and one with the exact condition:

- A checksum write answers Written for content that is already on disk, whatever checksum the
  caller named (`VaultWrites.WrittenDespiteStaleChecksum`; exactly when: `VaultWrites.PlanExact`
  for one write, `VaultWrites.WrittenMeans` in every run).
- Losing one reply of the token refresh, or failing to store it, ends the session: no refresh is
  granted again (`TokenRefresh.LosingRun`, `TokenRefresh.LossIsPermanent`; exactly when:
  `TokenRefresh.OnlyLossBreaks`).
- `civil_from_days` casts the year to 32 bits, so some days are dated wrongly and their stamps not
  read back (`Rfc3339.FirstYearTooLong`; exactly when: `Calendar.CivilFromDaysExact`,
  `Rfc3339.RoundTrip`). `days_from_civil` accepts days past the end of a month and counts on into
  the next, except for 30 and 31 February of years divisible by 400 (`Calendar.DaysFromCivilDomain`).
- Parsing the stamp of a date before 1970 overflows (`Rfc3339.LastSecondBeforeEpoch`; exactly when:
  `Rfc3339.OverflowsExactly`).
- The direct upload path of the development store never releases pending bytes
  (`SyncUploads.DevUploadMiscounts`; exactly when: `SyncUploads.DevUploadUsage`). The runs stay
  exact because that store cannot hand out upload URLs, so its objects are never pending.
- Releasing a document session drops its editor without taking the editor's document over, so a
  session edited, saved and released shows the document from before the edit under a clean tab
  (`RetainedDocument.ReleaseShowsStale`; exactly when: `RetainedDocument.ReleasedShowsSavedExactly`).

What the model takes as given:

- Each database transaction is one atomic step.
- The server's configuration (its limits and its object store) stays the same for a whole run.
- Identifiers of users, workspaces and devices are numbers; zero is the nil identifier.
- The canonical commit payload is a record, so two payloads are equal exactly when their fields
  are. Signature verification is a function of key, payload and signature.
- Clocks, fresh identifiers, replies of the object store, network outcomes and the order in which
  events arrive are inputs of the steps.
- The editor library's `findDiffStart`, `findDiffEnd`, `slice`, `replace` and `setNodeMarkup` have
  their documented meaning on token sequences and trees. The library is not part of this model.
- Editor content is normal: no empty text, and neighbouring texts with equal marks are joined. The
  editor keeps this of its documents. Of the parsed document it is an assumption about the Markdown
  parser, because building nodes from JSON joins nothing.
- A file is reached only under paths with one normalised key. Lower-casing of paths is any function.

## Model

| member | source | states |
|---|---|---|
| Text.TrimSplits | apps/server/internal/sync/commit.go:236-239 | trimming removes white space only, from both ends, and leaves none there |
| Text.NormalDigestIdempotent | apps/server/internal/sync/commit.go:239-239 | normalising a digest twice is normalising it once |
| Text.SortCorrect | apps/server/internal/sync/commit.go:471-475 | sorting gives an ordered permutation |
| Text.SortUnique | apps/server/internal/sync/commit.go:471-475 | two ordered permutations of the same ids are equal, so the normal form is unique |
| Text.PartsExactly | apps/desktop/src/lib/vault_fs.ts:36-36 | splitting yields exactly the stretches between separators |
| Text.LowerIs | apps/server/internal/sync/commit.go:239-239 | normalising a digest changes exactly the capital letters A to Z, each by 32 |
| SyncUsage.QuotaCheckExact | apps/server/internal/sync/quota.go:18-44 | the quota check passes exactly when none of the three limits would be exceeded, and an error names one that would |
| SyncUsage.RecountUpdate | apps/server/sql/queries/sync.sql:361-386 | how writing one object row moves the recounted storage, count and pending bytes |
| SyncUsage.RecountAccountUpdate | apps/server/sql/queries/sync.sql:388-412 | how writing one workspace row moves the account totals |
| SyncUsage.AccountsFollow | apps/server/sql/queries/sync.sql:291-358 | when a workspace counter and its owner's account move by the same amounts, every account still agrees with a recount |
| SyncUsage.RecalculateUsageWorkspace | apps/server/sql/queries/sync.sql:361-386 | the row-by-row recount equals the sums over Available and Pending rows |
| SyncUsage.RecalculateUsageAccount | apps/server/sql/queries/sync.sql:388-412 | the account recount equals the sums over its live workspaces |
| SyncUploads.ReserveAllKeeps | apps/server/internal/sync/service.go:504-558 | reserving objects keeps the rows well formed and moves no counter |
| SyncUploads.BatchAdmitted | apps/server/internal/sync/presign.go:97-164 | a batch that passes names distinct objects, each Reserved or already Pending with the same digest and size, all sizes positive |
| SyncUploads.CreateBatchKeeps | apps/server/internal/sync/presign.go:97-206 | an accepted batch adds to the pending recount exactly the bytes it was charged, and keeps every other row |
| SyncUploads.CompleteOneKeeps | apps/server/internal/sync/presign.go:247-358 | completing one object moves its bytes from pending to storage or releases them, in the workspace and the account alike |
| SyncUploads.CompleteFirstKeeps | apps/server/internal/sync/presign.go:247-358 | the same for a whole batch of completions |
| SyncUploads.CompletedRows | apps/server/internal/sync/presign.go:247-358 | each completion decides its own object from the row before the batch and reports that row; other rows stay |
| SyncUploads.BecomesAvailable | apps/server/internal/sync/presign.go:270-340 | an object becomes Available exactly when device, state, deadline, announced size and digest, and the stored blob all agree |
| SyncUploads.DevUploadUsage | apps/server/internal/sync/service.go:566-663 | the direct path keeps the counters right if and only if the object was not Pending |
| SyncUploads.DevUploadMiscounts | apps/server/internal/sync/service.go:566-663 | a Pending object for which the direct path leaves the counters wrong |
| SyncCommits.NormalForm | apps/server/internal/sync/commit.go:235-270 | a normalised request has trimmed ids, distinct parents in order, and sorted, distinct references without the body |
| SyncCommits.NormalizeIdempotent | apps/server/internal/sync/commit.go:235-270 | normalising normalised parameters changes nothing |
| SyncCommits.PayloadRoundTrip | apps/server/internal/sync/commit.go:373-419 | the stored row gives back the payload and signature it was made from |
| SyncCommits.FindCommitFinds | apps/server/sql/queries/sync.sql:426-429 | looking up a commit id finds a commit exactly when the log has one |
| SyncCommits.PublishOutcome | apps/server/internal/sync/commit.go:46-233 | a successful publish found an equal commit and changed nothing, or appended one that passed every check (`SyncPublishRules.AcceptedExactly` says what the checks come to) |
| SyncCommits.ChainExtends | apps/server/internal/sync/commit.go:272-306 | an accepted commit extends the chain: it names the head, its parents are earlier, the first is a checkpoint |
| SyncCommits.DevicesExtend | apps/server/internal/sync/commit.go:140-216 | device sequences keep rising and the stored last sequences and cursors stay right |
| SyncCommits.LinksExtend | apps/server/internal/sync/commit.go:179-196 | the link rows stay exactly the body and references of the commits, each with the role of its kind |
| SyncCommits.PublishExtends | apps/server/internal/sync/commit.go:120-233 | publishing keeps everything the log promises |
| SyncGc.VisitReachableCommits | apps/server/internal/sync/gc.go:250-265 | the recursive visit terminates, adds only commits reached along parents, and leaves nothing reachable out |
| SyncGc.VisitFromHead | apps/server/internal/sync/gc.go:250-265 | from an empty set it returns exactly the commits the head reaches |
| SyncGc.LatestCheckpointFromCommits | apps/server/internal/sync/checkpoint.go:32-39 | the first checkpoint of the newest-first list |
| SyncGc.CollectObjects | apps/server/internal/sync/gc.go:207-232 | the objects of a set of commits are those of each of its members |
| SyncGc.SplitAtCheckpoint | apps/server/internal/sync/gc.go:214-246 | the preserved ids and the old history are the commits on either side of the checkpoint |
| SyncGc.BuildReachableObjectGraph | apps/server/internal/sync/gc.go:183-248 | the loops compute the graph defined from reachability, links and commit fields |
| SyncGc.HeadReachesAll | apps/server/internal/sync/gc.go:250-265 | in a chained log the head reaches every commit |
| SyncGc.GraphOfLog | apps/server/internal/sync/gc.go:183-248 | for a chained log the graph preserves the commits from the latest checkpoint on and lists the others as old |
| SyncGc.PreservedAndOldPartition | apps/server/internal/sync/gc.go:183-248 | preserved commits and old history partition all commits |
| SyncGc.WalkStaysPreserved | apps/server/internal/sync/gc.go:183-248 | following expected heads from the head stays preserved until the latest checkpoint |
| SyncSteps.CreateWorkspaceKeeps | apps/server/internal/sync/service.go:184-224 | creating a workspace keeps the invariant |
| SyncSteps.RegisterDeviceKeeps | apps/server/internal/sync/service.go:329-349 | registering a device keeps the invariant |
| SyncSteps.DeleteWorkspaceKeeps | apps/server/internal/sync/service.go:309-327 | deleting a workspace keeps the invariant, account totals included |
| SyncSteps.DeleteAccountKeeps | apps/server/internal/auth/service.go:341-364 | deleting an account keeps the invariant |
| SyncSteps.CollectKeeps | apps/server/internal/sync/gc.go:79-181 | a collection keeps the invariant, every log and every available object |
| SyncSteps.CollectWipesOrphansOnly | apps/server/internal/sync/gc.go:79-181 | it wipes exactly the listed rows, each expired before it was finished and named by no commit or link, and leaves all else alone; a dry run wipes none |
| SyncSteps.PublishKeeps | apps/server/internal/sync/commit.go:46-233 | publishing keeps the invariant and the earlier log |
| SyncSteps.RecalculateChangesNothing | apps/server/internal/sync/quota.go:46-77 | in a reachable state the recalculation finds the counters as they are |
| SyncSteps.StepKeeps | apps/server/internal/sync/service.go:803-818 | every transaction, whatever its outcome, keeps the invariant and lets logs and available objects only grow |
| SyncSteps.RunKeeps | apps/server/internal/sync/service.go:803-818 | so does every sequence of transactions |
| SyncRuns.CommitsFormOneChain | apps/server/internal/sync/commit.go:120-142 | in every run a workspace's commits form one chain from a checkpoint to the head, parents earlier, device sequences rising, all reached by the collector's visit |
| SyncRuns.NoSecondSuccessor | apps/server/internal/sync/commit.go:120-127 | once a commit was published on a head, publishing a new commit on that head fails with the current head, whoever tries and whatever happened since |
| SyncRuns.FoundInLog | apps/server/internal/sync/commit.go:63-118 | a request whose commit is in the log is answered from the log: the commit, or a refusal |
| SyncRuns.CommitOfSuccess | apps/server/internal/sync/commit.go:63-118 | after any later steps the commit of a successful publish is still in the log with its payload |
| SyncRuns.RepublishIsIdempotent | apps/server/internal/sync/commit.go:63-118 | a request that once succeeded returns the same commit as idempotent and changes nothing, after any later steps |
| SyncRuns.RepublishDifferentRefused | apps/server/internal/sync/commit.go:63-118 | the same commit id with another payload or signature is refused |
| SyncRuns.CommitObjectsAvailable | apps/server/internal/sync/commit.go:308-371 | in every reachable state each commit's body and references are Available, the body with the signed digest and size |
| SyncRuns.AvailableStays | apps/server/internal/sync/gc.go:79-181 | the row of an Available object never changes while its workspace lives |
| SyncRuns.CountersExactAndWithinLimits | apps/server/internal/sync/quota.go:18-44 | in every reachable state the counters equal the recounts, all limits hold, and a recalculation changes nothing |
| SyncRuns.QuotaSumsFitInt64 | apps/server/internal/sync/quota.go:18-44 | if the limits plus one full batch fit in 64 bits, so does every sum the quota check forms |
| SyncRuns.CollectorPartitionsHistory | apps/server/internal/sync/gc.go:183-248 | in every run the collector's preserved set and old history partition the commits, and the walk along expected heads stays preserved |
| SyncRuns.ReachableObjectsAvailable | apps/server/internal/sync/gc.go:183-279 | every object the collector finds reachable can be downloaded |
| SyncSigned.EveryCommitIsSigned | apps/server/internal/sync/commit.go:129-148 | in every run each commit in a log was written by a device of its workspace with a 32-byte key, and its stored payload and signature verify under that key |
| SyncSigned.DeviceKeysNeverChange | apps/server/internal/sync/service.go:329-349 | in every continuation a registered device stays, with its user and key |
| SyncSigned.StepIsLogStep | apps/server/internal/sync/service.go:803-818 | every transaction leaves each log as it was or appends one signed commit |
| SyncPublishRules.NormalizesExactly | apps/server/internal/sync/commit.go:235-270 | which requests are well formed, and with which error the others are refused |
| SyncPublishRules.NormalizedFields | apps/server/internal/sync/commit.go:235-270 | what each field of the normal form is |
| SyncPublishRules.AcceptedExactly | apps/server/internal/sync/commit.go:120-156 | a new commit id is accepted if and only if it names the head, its device is the user's and active, its sequence rises, its signature verifies, and parents and objects fit |
| SyncPublishRules.RefusedWith | apps/server/internal/sync/commit.go:120-156 | and otherwise refused with the error of the first of these that fails |
| SyncPublishRules.ParentsExactly | apps/server/internal/sync/commit.go:272-306 | which parents each kind of commit may have |
| SyncPublishRules.ObjectsExactly | apps/server/internal/sync/commit.go:308-371 | which body and references a commit may have |
| SyncPublishRules.TurnedAway | apps/server/internal/sync/commit.go:46-62 | a malformed request, or one for a workspace that is not the user's own, is refused before the log is read |
| SyncPublishRules.PublishedExactly | apps/server/internal/sync/commit.go:162-230 | after an accepted publish the log has the commit at its end and the head on it, its device has its sequence, and nothing else moved |
| SyncPublishRules.StoredFields | apps/server/internal/sync/commit.go:162-178 | each field of the stored commit is that of the request |
| SyncPublishRules.PayloadPinsRequest | apps/server/internal/sync/commit.go:373-391 | two normalised requests with one payload differ in their signatures at most |
| SyncUploadRules.ReservedExactly | apps/server/internal/sync/service.go:504-554 | which reservations are accepted |
| SyncUploadRules.ReservedRows | apps/server/internal/sync/service.go:504-554 | each reserved row is empty, the device's, in the configured store, and lapses after the pending age; no other row changes |
| SyncUploadRules.StartedExactly | apps/server/internal/sync/presign.go:54-184 | an upload batch is accepted if and only if every request fits its row, no row is named twice, and the bytes not yet charged fit the quotas |
| SyncUploadRules.StartedRows | apps/server/internal/sync/presign.go:94-206 | afterwards each requested row is Pending with the announced digest and size and the deadline now plus the pending age, and no other row changes |
| SyncUploadRules.RequestErrors | apps/server/internal/sync/presign.go:97-164 | each error of one request, if and only if its cause holds |
| SyncUploadRules.CompletedExactly | apps/server/internal/sync/presign.go:216-358 | a completion is accepted if and only if no row is named twice and each request fits its row as it was before the batch |
| SyncUploadRules.FailureReasons | apps/server/internal/sync/presign.go:284-334 | for which reason a row in flight fails, each if and only if its cause holds |
| SyncUploadRules.CompletedDb | apps/server/internal/sync/presign.go:247-358 | after a completion each row is what its own request made of it, and each result reports that row and its reason |
| SyncUploadRules.UploadDelivers | apps/server/internal/sync/presign.go:54-366 | across both calls: objects of an accepted batch completed by the same device before the deadline, with the store holding what was announced, are Available with it |
| SyncUploadRules.UploadLapses | apps/server/internal/sync/presign.go:284-291 | and completed at the deadline or later they fail as expired, whatever the store holds |
| SyncStepRules.CreatedExactly | apps/server/internal/sync/service.go:184-224 | which workspaces are created, and the rows afterwards |
| SyncStepRules.RegisteredExactly | apps/server/internal/sync/service.go:329-349 | which devices are registered, and the rows afterwards |
| SyncStepRules.DevUploadedExactly | apps/server/internal/sync/service.go:566-643 | which direct uploads are accepted |
| SyncStepRules.DevUploadedRows | apps/server/internal/sync/service.go:641-663 | the row a direct upload writes and the counters it moves |
| SyncStepRules.DeletedExactly | apps/server/internal/sync/service.go:309-327 | deleting marks one's own live workspace and nothing else |
| SyncStepRules.AccountDeletedExactly | apps/server/internal/auth/service.go:341-364 | deleting an account deletes its workspaces, revokes their devices, wipes their objects and touches nobody else's rows |
| SyncStepRules.DeletedForGood | apps/server/internal/sync/service.go:698-707 | nobody is let into a deleted workspace again, in any continuation |
| SyncStepRules.RecalculateCorrects | apps/server/internal/sync/quota.go:46-77 | recounting sets the counters to what the rows say, whatever they said before |
| SyncStepRules.CollectedExactly | apps/server/internal/sync/gc.go:79-181 | when a collection is refused |
| SyncStepRules.CollectionClears | apps/server/internal/sync/gc.go:79-181 | a collection wipes only lapsed rows, and leaves an unlocked one only when it reached its limit on rows that lapsed no later |
| SyncStepRules.DryRunChangesNothing | apps/server/internal/sync/gc.go:79-181 | a dry run leaves every row as it was |
| SyncStepRules.ListingExists | apps/server/sql/queries/sync.sql:508-517 | whatever the rows, clock, limit and locks, there is a listing to collect |
| SyncStepRules.LinkRoles | apps/server/internal/sync/commit.go:447-458 | each link has the role of its object's kind |
| SyncStepRules.GraphObjects | apps/server/internal/sync/gc.go:183-248 | the graph of a log names exactly the objects its commits name, and preserves those named from the latest checkpoint on |
| SyncService.NormalizeIDsPreserveOrder | apps/server/internal/sync/commit.go:460-469 | the loop keeps the trimmed non-empty ids in order |
| SyncService.HasDuplicate | apps/server/internal/sync/commit.go:477-486 | true if and only if some id occurs twice |
| SyncService.NormalizePublishCommitParams | apps/server/internal/sync/commit.go:235-270 | the code with its loops computes the normal form or its error |
| SyncService.Service.CreateObjectUploadBatch | apps/server/internal/sync/presign.go:54-210 | the service's rows afterwards are those of the accepted batch, or unchanged with the same error (which rows: `SyncUploadRules.StartedExactly`, `SyncUploadRules.StartedRows`) |
| SyncService.Service.CompleteObjectUploadBatch | apps/server/internal/sync/presign.go:216-366 | the same for completing a batch |
| SyncService.Service.PublishCommit | apps/server/internal/sync/commit.go:46-233 | the same for publishing (which rows: `SyncPublishRules.AcceptedExactly`, `SyncPublishRules.PublishedExactly`) |
| SyncService.Service.RunWorkspaceGC | apps/server/internal/sync/gc.go:79-181 | the same for a collection, with the graph it reports |
| SyncService.Service.RecalculateSyncUsage | apps/server/internal/sync/quota.go:46-77 | the same for a recalculation |
| Calendar.YearOfEraCorrect | apps/desktop/src-tauri/src/auth.rs:396-397 | the year-of-era formula gives the year whose first day is the last one not after the day |
| Calendar.MonthOfDay | apps/desktop/src-tauri/src/auth.rs:400-401 | the month formula gives the month that contains the day |
| Calendar.DaysUndoCivil | apps/desktop/src-tauri/src/auth.rs:392-421 | on every day number civil_from_days gives a real date and days_from_civil undoes it |
| Calendar.CivilUndoesDays | apps/desktop/src-tauri/src/auth.rs:392-421 | on every real date civil_from_days undoes days_from_civil |
| Calendar.CivilSteps | apps/desktop/src-tauri/src/auth.rs:392-405 | the next day number gives the next Gregorian day |
| Calendar.CivilIsStepped | apps/desktop/src-tauri/src/auth.rs:392-405 | the closed form equals stepping one Gregorian day at a time from 1970-01-01, forwards and backwards |
| Calendar.CivilFromDaysExact | apps/desktop/src-tauri/src/auth.rs:392-405 | with the cast of the year, it does so exactly where the year fits in 32 bits |
| Calendar.DaysFromCivilDomain | apps/desktop/src-tauri/src/auth.rs:407-421 | on which day fields days_from_civil fails, and how it counts days past the end of a month |
| Rfc3339.ParseStamp | apps/desktop/src-tauri/src/auth.rs:366-390 | parsing a printed date and time gives back its fields |
| Rfc3339.NegativeYearRejected | apps/desktop/src-tauri/src/auth.rs:366-371 | a stamp whose year prints with a minus sign is rejected |
| Rfc3339.WrongYearWrongDay | apps/desktop/src-tauri/src/auth.rs:392-421 | a date with another year stands for another day |
| Rfc3339.RoundTrip | apps/desktop/src-tauri/src/auth.rs:352-390 | for every instant from the epoch on, parsing undoes printing to the second if and only if its year is below 2^31 (what is printed: `Rfc3339Layout.FormatLayout`) |
| Rfc3339.PrintUndoesParse | apps/desktop/src-tauri/src/auth.rs:352-390 | for every real date from 1970 on, printing undoes parsing (which texts parse, and to what: `Rfc3339Layout.ParseLayout`) |
| Rfc3339.OverflowsExactly | apps/desktop/src-tauri/src/auth.rs:387-389 | the stamp of a real date overflows the parser if and only if its year is before 1970 |
| Rfc3339.LastSecondBeforeEpoch | apps/desktop/src-tauri/src/auth.rs:387-389 | the last second before the epoch is such a stamp |
| Rfc3339.FirstYearTooLong | apps/desktop/src-tauri/src/auth.rs:352-405 | the first day of year 2^31 is dated wrongly and its stamp not read back |
| Rfc3339Layout.FormatLayout | apps/desktop/src-tauri/src/auth.rs:352-364 | every instant through year 9999 prints as twenty characters with the separators of section 5.6 of RFC 3339 in place; the numbers between them are the date reached by counting days and the time of day |
| Rfc3339Layout.ParseLayout | apps/desktop/src-tauri/src/auth.rs:366-390 | a text of that layout is read number by number at its places, and rejected if one is out of range |
| Rfc3339Layout.ParseParts | apps/desktop/src-tauri/src/auth.rs:366-376 | any other text is read from the first three parts of each half, further parts ignored |
| Rfc3339Layout.ParseRejects | apps/desktop/src-tauri/src/auth.rs:367-368 | a text without the final Z or without a T is rejected |
| Rfc3339Layout.ParseIntExactly | apps/desktop/src-tauri/src/auth.rs:370-376 | which texts are numbers of a type, and which number |
| Rfc3339Layout.FieldsExactly | apps/desktop/src-tauri/src/auth.rs:378-389 | which fields make an instant, and which instant |
| VaultWrites.AtMostOneInFlight | apps/desktop/src/lib/vault_fs.ts:71-97 | two calls under way with the same normalised path are the same call |
| VaultWrites.SomeoneCanMove | apps/desktop/src/lib/vault_fs.ts:84-89 | a queued call never waits on nothing: one of its key is ready or under way |
| VaultWrites.NextKeepsQueue | apps/desktop/src/lib/vault_fs.ts:71-97 | every step keeps the map at the latest call of each key and every call chained to the one before |
| VaultWrites.NextKeepsLog | apps/desktop/src-tauri/src/vault/commands.rs:396-433 | every step keeps what is known of each call's check and write |
| VaultWrites.OneWriteAtATime | apps/desktop/src/lib/vault_fs.ts:71-97 | in every run at most one write per normalised path is under way |
| VaultWrites.WritesReplaceWhatWasNamed | apps/desktop/src-tauri/src/vault/commands.rs:396-433 | in every run each write was planned over content with the checksum its caller named, and replaced that very content unless an outsider touched the file in between |
| VaultWrites.NoUpdateIsLost | apps/desktop/src/lib/vault_fs.ts:12-14 | of two writes of one file with no change in between, the second caller named the first one's content |
| VaultWrites.WrittenMeans | apps/desktop/src-tauri/src/vault/commands.rs:396-433 | a Written answer carries the checksum of the content asked for, which the call wrote over content with the named checksum or found there; the content it checked had that checksum if and only if it differed from what was asked for or that has it too |
| VaultWrites.OneWritePerCall | apps/desktop/src-tauri/src/vault/commands.rs:421-433 | a call writes at most once |
| VaultWrites.StaleNeverStarts | apps/desktop/src/lib/vault_fs.ts:83-89 | a call still queued when the vault changes stays queued or is rejected, in every continuation |
| VaultWrites.RejectedTouchesNothing | apps/desktop/src/lib/vault_fs.ts:83-89 | a queued or rejected call has read and written nothing |
| VaultWrites.WrittenDespiteStaleChecksum | apps/desktop/src-tauri/src/vault/commands.rs:130-152 | content already on disk is reported Written although the named checksum differs |
| VaultWrites.PlanExact | apps/desktop/src-tauri/src/vault/commands.rs:130-152 | the write goes ahead exactly when the content has the named checksum or is already what is wanted, a conflict reports both checksums, and when the first of these holds |
| VaultWrites.VaultFs.WriteFileWithChecksum | apps/desktop/src/lib/vault_fs.ts:71-97 | a call with a valid path is queued behind the latest one of its key, any other changes nothing |
| VaultWrites.VaultFs.Then | apps/desktop/src/lib/vault_fs.ts:84-89 | the chained callback sends the write or rejects it by its generation (when it does which: `VaultProgress.StartSends`) |
| VaultWrites.VaultFs.Finally | apps/desktop/src/lib/vault_fs.ts:91-95 | the cleanup drops the map entry only if it is still this call's |
| VaultWrites.VaultFs.ChangeGeneration | apps/desktop/src/lib/vault_fs.ts:42-50 | opening or closing a vault advances the generation |
| VaultProgress.OnlyVaultChangesReject | apps/desktop/src/lib/vault_fs.ts:83-89 | in every run a rejected call was made in an earlier generation |
| VaultProgress.StartSends | apps/desktop/src/lib/vault_fs.ts:84-89 | a call whose predecessor has settled is sent if its generation is the current one and rejected if it is older |
| VaultProgress.StartWaits | apps/desktop/src/lib/vault_fs.ts:84-86 | a call waits while the one it is chained to has not settled |
| VaultProgress.TurnOutcome | apps/desktop/src/lib/vault_fs.ts:84-89 | an undisturbed turn ends Written with its content on disk if the checksum or the content agrees, and otherwise reports both checksums and leaves the file |
| VaultProgress.SaveAlone | apps/desktop/src/lib/vault_fs.ts:71-97 | from any reachable world, a save alone on its path that names the right checksum ends Written with its content on disk |
| VaultProgress.SecondSaveSeesFirst | apps/desktop/src/lib/vault_fs.ts:12-14 | of two saves made back to back the second waits and is judged by what the first wrote |
| VaultProgress.FailuresFail | apps/desktop/src-tauri/src/vault/commands.rs:396-433 | the ways a sent call fails, and which of them leave the file changed |
| VaultProgress.DoneIsFinal | apps/desktop/src/lib/vault_fs.ts:84-96 | what a call answered is final |
| VaultProgress.EveryCallCanSettle | apps/desktop/src/lib/vault_fs.ts:84-89 | from every reachable world every call has a way on to an answer |
| VaultProgress.ForgetDrops | apps/desktop/src/lib/vault_fs.ts:91-95 | the cleanup drops exactly the entry that is still this call's |
| VaultProgress.PathOkExactly | apps/desktop/src/lib/vault_fs.ts:28-40 | a path is accepted if and only if it is empty, or relative without null characters and parent segments |
| VaultProgress.SeparatorsAlike | apps/desktop/src/lib/vault_fs.ts:77-82 | the kind of separator does not matter to the key |
| VaultProgress.SameQueueExactly | apps/desktop/src/lib/vault_fs.ts:77-82 | paths with the same segments share a queue, and only those under a case folding that keeps texts apart |
| PluginRegistry.ValidateAndTopologicalSort | apps/desktop/src/plugins/registry.ts:356-397 | it terminates, lists each plugin once, reports exactly the missing dependencies and a real cycle if and only if there is one, and without errors puts dependencies first; an order that is right already is kept, and for each n the order begins with exactly what the first n registered plugins need |
| PluginRegistry.Sorter.Dfs | apps/desktop/src/plugins/registry.ts:372-390 | the search keeps its stack and lists, takes in only what the plugin reaches, appends it alone where its dependencies are all in, and leaves it visited unless it reported a cycle |
| PluginRegistry.CheckMissing | apps/desktop/src/plugins/registry.ts:362-369 | the first loop reports the missing dependencies in registration order |
| PluginRegistry.OrderExcludesCycle | apps/desktop/src/plugins/registry.ts:350-355 | a list with dependencies first exists only for graphs without a cycle |
| PluginRegistry.ShownCycleExists | apps/desktop/src/plugins/registry.ts:373-376 | every path reported as circular holds a real cycle |
| PluginRegistry.MissingExactly | apps/desktop/src/plugins/registry.ts:362-369 | the missing-dependency errors are exactly the unregistered names that plugins declare, with who declares them |
| PluginRegistry.Sorter.DfsAll | apps/desktop/src/plugins/registry.ts:392-394 | the search from each plugin in registration order |
| PluginRegistry.PluginDependsOn | apps/desktop/src/plugins/registry.ts:288-299 | true if and only if a chain of declared dependencies leads to the target |
| PluginRegistry.OrderRespectsDependsOn | apps/desktop/src/plugins/registry.ts:288-299 | in an order without circular errors a plugin comes after everything it depends on, however indirectly |
| DocumentPatch.CollectedList | apps/desktop/src/plugins/document_mutations.ts:88-104 | the collected changes lie inside the nodes, and applying them in turn at their first positions gives the new nodes |
| DocumentPatch.AttributesReachParsed | apps/desktop/src/plugins/document_mutations.ts:108-114 | the attribute path turns the old content into the parsed content |
| DocumentPatch.RemarkKeepsPositions | apps/desktop/src/plugins/document_mutations.ts:108-114 | the attribute path leaves every position valid |
| DocumentPatch.TokensDetermine | apps/desktop/src/plugins/document_mutations.ts:115-122 | the tokens of normal content determine it, also when more tokens follow |
| DocumentPatch.CommonPrefix | apps/desktop/src/plugins/document_mutations.ts:115-116 | the first difference: everything before it agrees and nothing beyond does |
| DocumentPatch.CommonSuffix | apps/desktop/src/plugins/document_mutations.ts:117-118 | the last difference, likewise from the end |
| DocumentPatch.SpliceFits | apps/desktop/src/plugins/document_mutations.ts:115-122 | the splice turns the old tokens into the new ones even where prefix and suffix overlap, and cannot be narrowed |
| DocumentPatch.TransactionGivesParsed | apps/desktop/src/plugins/document_mutations.ts:82-123 | the transaction gives exactly the parsed content, and there is none if and only if the contents agree |
| DocumentPatch.SpliceIsTight | apps/desktop/src/plugins/document_mutations.ts:115-122 | the splice starts at the first difference and ends at the last |
| DocumentPatch.CollectAttributes | apps/desktop/src/plugins/document_mutations.ts:88-105 | the recursion that pushes onto one array collects the changes defined on trees |
| DocumentPatch.DocumentChangeTransaction | apps/desktop/src/plugins/document_mutations.ts:82-123 | the code computes the transaction described above |
| PatchChoice.RemarksExactly | apps/desktop/src/plugins/document_mutations.ts:88-114 | nodes are re-marked in place if and only if the contents differ, and only in attributes and marks below an unchanged root |
| PatchChoice.RemarksWhatDiffers | apps/desktop/src/plugins/document_mutations.ts:88-114 | exactly the nodes that differ are re-marked, once each, in document order, with the parsed markup |
| RetainedDocument.NextKeeps | apps/desktop/src/plugins/document_sessions.ts:58-155 | every step of dispatch, edit, detach, attach, save, checkpoint and release keeps the invariant |
| RetainedDocument.CleanMeansSaved | apps/desktop/src/plugins/document_sessions.ts:58-155 | in every interleaving, until release, a clean tab shows the document last written, or the one first opened if none was |
| RetainedDocument.OnlyASaveCleans | apps/desktop/src/plugins/document_sessions.ts:101-130 | only a successful write of the current document marks the tab clean |
| RetainedDocument.ChangesMarkDirty | apps/desktop/src/plugins/document_sessions.ts:58-70 | a change of content marks the tab dirty |
| RetainedDocument.ChecksumIsOfLastWrite | apps/desktop/src/plugins/document_sessions.ts:112-118 | the held checksum is that of the last successful write, and the write under way names it |
| RetainedDocument.NothingAfterRelease | apps/desktop/src/plugins/document_sessions.ts:149-155 | a released session writes nothing more and its document stays as it is |
| RetainedDocument.ReleaseKeepsContent | apps/desktop/src/plugins/document_sessions.ts:149-155 | releasing leaves the shown content as it is if and only if no editor is mounted or its content is the retained one |
| RetainedDocument.ReleasedShowsSavedExactly | apps/desktop/src/plugins/document_sessions.ts:149-155 | released with a clean tab, a session goes on showing what was saved, in every continuation, if and only if the retained and the mounted document then have the same text |
| RetainedDocument.ReleaseShowsStale | apps/desktop/src/plugins/document_sessions.ts:149-155 | a run that edits, saves and releases, and ends with a clean tab over the document from before the edit |
| RetainedDocument.QuietSaveFinishes | apps/desktop/src/plugins/document_sessions.ts:108-123 | a round of the save loop that nothing disturbs ends the save with a clean tab |
| RetainedDocument.DocumentSession.Dispatch | apps/desktop/src/plugins/document_sessions.ts:58-70 | the method refuses after release and otherwise does the dispatch step (what that leaves: `DocumentArrivals.DispatchArrives`) |
| RetainedDocument.DocumentSession.DetachEditor | apps/desktop/src/plugins/document_sessions.ts:78-82 | the session takes over the editor's document |
| RetainedDocument.DocumentSession.AttachEditor | apps/desktop/src/plugins/document_sessions.ts:84-99 | the new editor gets equal content, unless it is disposed or refuses it |
| RetainedDocument.DocumentSession.Ask | apps/desktop/src/plugins/document_sessions.ts:101-150 | saves, checkpoints and releases run in the order they were asked for |
| RetainedDocument.DocumentSession.BeginTask | apps/desktop/src/plugins/document_sessions.ts:101-146 | the head of the queue starts, or is skipped |
| RetainedDocument.DocumentSession.AfterBeforeSave | apps/desktop/src/plugins/document_sessions.ts:112-113 | the write names the checksum held once the journal hook returned |
| RetainedDocument.DocumentSession.AfterWrite | apps/desktop/src/plugins/document_sessions.ts:113-123 | a written save goes round again if the document is another by now, and otherwise marks the tab clean |
| DocumentArrivals.DispatchArrives | apps/desktop/src/plugins/document_sessions.ts:58-70 | attached or detached, a dispatched content is the document from then on, and the tab is dirty if and only if it was or the content changed |
| DocumentArrivals.DispatchIgnored | apps/desktop/src/plugins/document_sessions.ts:58-63 | a dispatch without a document, or after release, changes nothing |
| DocumentArrivals.EditArrives | apps/desktop/src/plugins/document_sessions.ts:51-53 | what is typed in the mounted editor is the document |
| DocumentArrivals.DetachKeepsDocument | apps/desktop/src/plugins/document_sessions.ts:78-82 | detaching keeps the document |
| DocumentArrivals.AttachKeepsContent | apps/desktop/src/plugins/document_sessions.ts:84-99 | attaching keeps the content, saved or not; a disposed editor changes nothing |
| DocumentArrivals.OnlyChangesChange | apps/desktop/src/plugins/document_sessions.ts:58-99 | only dispatch and typing change the content before release |
| DocumentArrivals.SaveBegins | apps/desktop/src/plugins/document_sessions.ts:101-112 | a save starts with the document of that moment, or is dropped |
| DocumentArrivals.CheckpointOnlyJournals | apps/desktop/src/plugins/document_sessions.ts:132-147 | a checkpoint runs the journal hook and changes nothing |
| DocumentArrivals.ReleaseReleases | apps/desktop/src/plugins/document_sessions.ts:149-155 | what releasing changes |
| DocumentArrivals.FailedSaveLeavesAll | apps/desktop/src/plugins/document_sessions.ts:112-126 | a save that fails or conflicts leaves document, mark and checksum |
| DocumentArrivals.DispatchThenSaveWrites | apps/desktop/src/plugins/document_sessions.ts:58-123 | a dispatch followed by an undisturbed save writes the text of the dispatched content |
| DocumentArrivals.EditSurvivesEditors | apps/desktop/src/plugins/document_sessions.ts:78-123 | typed, detached, restored in another editor and saved: what was typed is written |
| DocumentArrivals.LateChangeIsWritten | apps/desktop/src/plugins/document_sessions.ts:109-123 | in every run a change that arrives during a write is written by the next round |
| DocumentArrivals.ServedInOrder | apps/desktop/src/plugins/document_sessions.ts:101-150 | in every run the waiting tasks are the last ones asked for, in that order |
| HistoryCompaction.TruncateFits | crates/kuku-ai/src/session.rs:873-897 | truncated text fits; it is the text, or its longest prefix that leaves room for the dots |
| HistoryCompaction.TruncateTextBytes | crates/kuku-ai/src/session.rs:873-897 | the loop computes that truncation |
| HistoryCompaction.CompactsExactlyWhen | crates/kuku-ai/src/session.rs:580-609 | nothing is left out if and only if everything fits, or three user turns would not remain without the first message |
| HistoryCompaction.BoundaryOk | crates/kuku-ai/src/session.rs:587-615 | the kept part starts at a user message with at least three, and fits or is as short as that allows |
| HistoryCompaction.SummaryFits | crates/kuku-ai/src/session.rs:632-652 | the two summary messages stay within their budget, and there are none without room |
| HistoryCompaction.CompactShape | crates/kuku-ai/src/session.rs:580-630 | the request is the history, or an optional summary and a suffix from a user message with the last three |
| HistoryCompaction.CompactFits | crates/kuku-ai/src/session.rs:580-630 | it is at most 65536 bytes unless the history has fewer than three user turns or the request is exactly the last three, raw |
| HistoryCompaction.KeepsAllThatFits | crates/kuku-ai/src/session.rs:591-615 | the kept part is as long as the cap allows: from any earlier user message on the history is too large |
| HistoryCompaction.CutsExactly | crates/kuku-ai/src/session.rs:587-615 | when the history is cut, and that the cut is at the right place: 65536 bytes, three user messages |
| HistoryCompaction.OneRightCut | crates/kuku-ai/src/session.rs:587-615 | there is at most one such place |
| HistoryCompaction.SummaryExactly | crates/kuku-ai/src/session.rs:617-661 | when a summary goes in front, and its text: at most 8192 bytes, at least 128 of them for the text |
| HistoryCompaction.MessageBytesAre | crates/kuku-ai/src/session.rs:899-933 | a message counts for the bytes of all its text and of its signatures |
| HistoryCompaction.CharBytesAre | crates/kuku-ai/src/session.rs:899-933 | how many bytes each code point counts for |
| HistoryCompaction.CompactHistoryForModel | crates/kuku-ai/src/session.rs:580-630 | the loops compute the compaction |
| TurnHistory.RunAnswered | crates/kuku-ai/src/session.rs:289-405 | in every run of turns each tool result directly continues the answers to the message that called for it |
| TurnHistory.CompactKeepsAnswers | crates/kuku-ai/src/session.rs:611-629 | compaction never separates a tool result from its call |
| TurnHistory.RequestsKeepCalls | crates/kuku-ai/src/session.rs:300-323 | in every run of turns every request keeps the call of each tool result it contains |
| TurnHistory.TurnIsSteps | crates/kuku-ai/src/session.rs:274-409 | the loop of a turn leaves the messages that its steps leave |
| TurnHistory.Session.RunTurn | crates/kuku-ai/src/session.rs:274-409 | a turn adds its user message and what its rounds say, and before each round sends the compaction of the history as the rounds before left it, calls kept |
| TurnHistory.Session.RunRound | crates/kuku-ai/src/session.rs:347-405 | a round adds the reply and its results up to the first failure, and goes on if all calls were answered |
| TurnHistory.Session.AnswerCalls | crates/kuku-ai/src/session.rs:392-405 | results are pushed in call order until one fails |
| TokenRefresh.OnlyLossBreaks | apps/desktop/src-tauri/src/auth_commands.rs:365-404 | a step keeps tokens and server in agreement if and only if it does not throw away a granted token |
| TokenRefresh.EachTokenSentOnce | apps/desktop/src-tauri/src/auth_commands.rs:365-404 | in every interleaving without such a loss each refresh token reaches the server at most once |
| TokenRefresh.NobodyRefused | apps/desktop/src-tauri/src/auth_commands.rs:365-404 | no task is refused, and whenever the lock is free the stored token is the live one |
| TokenRefresh.LossStrands | apps/desktop/src-tauri/src/auth_commands.rs:384-395 | a lost grant leaves a dead token stored with the lock free |
| TokenRefresh.LossIsPermanent | apps/desktop/src-tauri/src/auth_commands.rs:365-404 | after a step that loses a grant no task is granted a refresh again and the server's token stays out of reach, in every continuation |
| TokenRefresh.LosingRun | apps/desktop/src-tauri/src/auth_commands.rs:365-404 | a run from any login that loses a grant and leaves a dead token stored with the lock free |
| TokenRefresh.StrandedLogsOut | apps/desktop/src-tauri/src/auth_commands.rs:396-402 | and the next forced refresh is refused and clears the tokens |
| TokenRefresh.TokenServer.RefreshTokens | apps/server/internal/auth/service.go:407-436 | a live token is consumed and replaced by one never issued before; any other is refused |
| TokenRefresh.Desktop.AfterLock | apps/desktop/src-tauri/src/auth_commands.rs:373-383 | under the lock the tokens are read again before any request |
| TokenRefresh.Desktop.Request | apps/desktop/src-tauri/src/auth_commands.rs:384-384 | the request consumes the token at the server, or fails on its way |
| TokenRefresh.Desktop.AfterReply | apps/desktop/src-tauri/src/auth.rs:105-130 | the reply replaces or clears only the tokens the request was made with |
| TokenOutcomes.OneAtATime | apps/desktop/src-tauri/src/auth_commands.rs:373-404 | in every run, replies lost or not, at most one task is between the lock and its answer |
| TokenOutcomes.QuietRefresh | apps/desktop/src-tauri/src/auth_commands.rs:365-395 | with the lock free and a live token, an undisturbed refresh that is forced or due sends it once and stores and returns the next pair |
| TokenOutcomes.RefreshSucceeds | apps/desktop/src-tauri/src/auth_commands.rs:365-395 | so it does in every run without a lost reply, whenever the lock is free |
| TokenOutcomes.NotDue | apps/desktop/src-tauri/src/auth_commands.rs:369-371 | a refresh neither forced nor due returns the stored tokens and asks nobody |
| TokenOutcomes.FindsWorkDone | apps/desktop/src-tauri/src/auth_commands.rs:373-379 | a task that finds another token stored returns it without a request |
| TokenOutcomes.SecondCoalesces | apps/desktop/src-tauri/src/auth_commands.rs:365-395 | of two tasks that saw one token the second returns what the first got, and the token is sent once |
| TokenOutcomes.LockedOut | apps/desktop/src-tauri/src/auth_commands.rs:373-373 | while one task holds the lock the others wait |
| TokenOutcomes.FailuresLeaveTokens | apps/desktop/src-tauri/src/auth_commands.rs:365-404 | failures free the lock and leave the tokens |
| TokenOutcomes.LateAnswerLeavesTokens | apps/desktop/src-tauri/src/auth.rs:105-130 | an answer to tokens that were replaced meanwhile leaves the new ones |
| ChunkSplit.WindowEnd | crates/kuku-indexer/src/chunk.rs:18-42 | a window is at most 1000 characters and, unless it reaches the end, longer than the overlap |
| ChunkSplit.WindowsChained | crates/kuku-indexer/src/chunk.rs:16-57 | the windows cover the input from start to end, each at most 1000 long and overlapping the one before by exactly 100 |
| ChunkSplit.TwoWindowsAdvance | crates/kuku-indexer/src/chunk.rs:18-57 | the window after next starts at least 900 characters on |
| ChunkSplit.FewWindows | crates/kuku-indexer/src/chunk.rs:16-57 | there are at most 2 * (n / 900) + 2 windows |
| ChunkSplit.NothingLost | crates/kuku-indexer/src/chunk.rs:9-60 | every character that is not white space is in some chunk, a stretch of the input around it |
| ChunkSplit.FindEnd | crates/kuku-indexer/src/chunk.rs:18-42 | the two backward searches find the last boundary past the overlap |
| ChunkSplit.SplitChunkText | crates/kuku-indexer/src/chunk.rs:9-60 | the loop returns the trimmed non-empty windows |
| ChunkSplit.WindowEndExactly | crates/kuku-indexer/src/chunk.rs:18-42 | where a window ends: after the last closing character that leaves it longer than 100 and shorter than 1000, or at 1000 |
| ChunkSplit.ChunksAre | crates/kuku-indexer/src/chunk.rs:9-60 | every chunk is trimmed and at most 1000 characters; a short text is one chunk, a long one has no empty chunk |
| Wikilink.MaskKeepsLines | crates/kuku-indexer/src/wikilink.rs:23-50 | masking keeps the length and every line break and changes characters only into spaces |
| Wikilink.SpanRegion | crates/kuku-indexer/src/wikilink.rs:34-43 | a code span opened by a run of any length ends with the first run at least as long |
| Wikilink.FencedRegion | crates/kuku-indexer/src/wikilink.rs:70-98 | a block fenced by any run of backticks or tildes, whatever else is on its opening line, ends with the first later line that starts with a run at least as long |
| Wikilink.MaskOnePiece | crates/kuku-indexer/src/wikilink.rs:23-50 | clean code of either kind is blanked whole, and any other clean piece is left as it is |
| Wikilink.ScanLinkAt | crates/kuku-indexer/src/wikilink.rs:125-174 | a clean link is read back as it is, and the scan goes on after it |
| Wikilink.ExtractReturnsLinks | crates/kuku-indexer/src/wikilink.rs:10-21 | clean links between plain text, code spans and fenced blocks come back exactly, in order and numbered from zero, and nothing inside code does |
| Wikilink.MaskFencedBlock | crates/kuku-indexer/src/wikilink.rs:70-98 | the loops end, and mask the block up to its end |
| Wikilink.FindBacktickRun | crates/kuku-indexer/src/wikilink.rs:110-119 | the first run of at least the given length |
| Wikilink.MaskCodeRegions | crates/kuku-indexer/src/wikilink.rs:23-50 | the loop computes the masked text |
| Wikilink.ScanTextForWikilinks | crates/kuku-indexer/src/wikilink.rs:125-192 | the scan ends on every input and returns the candidates that survive trimming |
| Wikilink.ExtractWikilinks | crates/kuku-indexer/src/wikilink.rs:10-21 | masking, scanning and numbering in turn |
| WikilinkScan.UnclosedCode | crates/kuku-indexer/src/wikilink.rs:34-43 | an unclosed fence covers the rest of the text, an unclosed run of backticks nothing |
| WikilinkScan.MaskExactly | crates/kuku-indexer/src/wikilink.rs:23-50 | for any text, exactly the code regions are blanked, from left to right without overlap |
| WikilinkScan.CloseExactly | crates/kuku-indexer/src/wikilink.rs:125-174 | a link ends at the first closing brackets on its line, with the first bar before them |
| WikilinkScan.ScanExactly | crates/kuku-indexer/src/wikilink.rs:125-192 | for any text, the scan reads links in order without overlap, and misses none |
| WikilinkScan.ExtractExactly | crates/kuku-indexer/src/wikilink.rs:10-21 | the extracted links of any text are those, numbered in order |
| WatcherRefresh.OneRefreshAtATime | apps/desktop/src/stores/watcher_refresh.ts:6-55 | in every run at most one refresh is under way and at most one timeout armed |
| WatcherRefresh.NothingForgotten | apps/desktop/src/stores/watcher_refresh.ts:6-55 | with no timeout armed and no refresh under way every request has been served or cancelled |
| WatcherRefresh.WaitingIsServed | apps/desktop/src/stores/watcher_refresh.ts:14-40 | a waiting request is served when the timeout fires or the refresh under way succeeds |
| WatcherRefresh.FailureRetries | apps/desktop/src/stores/watcher_refresh.ts:25-40 | a failed refresh leaves waiting requests with an armed timeout |
| WatcherRefresh.RequestRestartsTimer | apps/desktop/src/stores/watcher_refresh.ts:14-46 | each request starts the timeout anew, and the one before does nothing any more |
| WatcherRefresh.CancelDrops | apps/desktop/src/stores/watcher_refresh.ts:47-53 | cancelling drops requests and timeout for good |
| WatcherRefresh.FiringStartsOne | apps/desktop/src/stores/watcher_refresh.ts:19-32 | when a timeout that fires starts a refresh |
| WatcherRefresh.LoopEnds | apps/desktop/src/stores/watcher_refresh.ts:30-39 | a refresh that ends with nothing waiting ends the loop |
| WatcherRefresh.Scheduler.Schedule | apps/desktop/src/stores/watcher_refresh.ts:43-46 | a request is noted and the timeout started anew |
| WatcherRefresh.Scheduler.Cancel | apps/desktop/src/stores/watcher_refresh.ts:47-53 | requests and timeout are dropped; a refresh under way goes on |
| WatcherRefresh.Scheduler.Fire | apps/desktop/src/stores/watcher_refresh.ts:19-32 | the timeout starts a refresh unless one runs or nothing waits |
| WatcherRefresh.Scheduler.AfterRefresh | apps/desktop/src/stores/watcher_refresh.ts:30-39 | the loop goes round again, or ends and re-arms the timeout if a request is waiting |

## Left out

- Transactions that interleave inside the database, such as a deletion between an upload's authorisation and its writes.
- Account keys, key envelopes, workspace and device metadata, listing and download calls of the sync server: lookups without a law across calls.
- The blobs themselves, presigned URLs, and the clean-up of workspaces deleted long ago.
- The desktop's sync engine and its local state.
- Expiry of tokens and sessions, login and logout during a refresh, and a task dropped while it holds the lock.
- Other code that marks a tab clean or dirty, the cache of tab contents, and tabs closed while their session lives.
- TurnHistory.RunAnswered: turns run one after another; that two can never overlap is not stated.
- HistoryCompaction.CompactShape: the summary's wording is an arbitrary function of the omitted messages.
- VaultWrites.WritesReplaceWhatWasNamed: two vaults that contain the same file under different paths are not covered.
- Rfc3339.RoundTrip: fractions of a second and instants before the epoch, which printing drops.
- Plugin activation, the editor's rendering, search, and the AI tools.
