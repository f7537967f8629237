/**
 The laws of the sync protocol over whole runs: any sequence of transactions, by any users
 and devices, starting from the empty database.
 */
module SyncRuns {
  import opened Text
  import opened SyncRows
  import opened SyncUsage
  import opened SyncUploads
  import opened SyncCommits
  import opened SyncGc
  import opened SyncSteps

  /** The invariant holds after every run. */
  lemma RunInv(cfg: Config, verify: Verifier, ops: seq<Op>)
    requires ValidConfig(cfg)
    ensures Inv(cfg, Run(cfg, verify, EMPTY_DB, ops))
  {
    RunKeeps(cfg, verify, EMPTY_DB, ops);
  }

  // ----- One chain of commits

  /** In server order, a workspace's commits are one chain from a checkpoint to the head: each names its predecessor
      as the head it saw, parents are earlier, device sequences rise, and the collector's visit from the head finds
      every commit. */
  lemma CommitsFormOneChain(cfg: Config, verify: Verifier, ops: seq<Op>, w: Uuid)
    requires ValidConfig(cfg) && w in Run(cfg, verify, EMPTY_DB, ops).workspaces
    ensures var ws := Run(cfg, verify, EMPTY_DB, ops).workspaces[w];
            && Chained(ws.commits) && HeadOk(ws) && SeqsRise(ws) && LastSeqsOk(ws) && CursorsOk(ws) && LinksOk(ws)
            && ReachableIds(ById(Newest(ws.commits)), TextValue(ws.head)) == Ids(ws.commits)
  {
    hide Run, Recount, RowsOk, AllHeld, Chained, LinksOk, SeqsRise, LastSeqsOk, CursorsOk, LogIn, AccountsOk,
      QuotasOk, ReachableIds;
    RunInv(cfg, verify, ops);
    var ws := Run(cfg, verify, EMPTY_DB, ops).workspaces[w];
    assert WorkspaceOk(cfg, ws);
    HeadReachesAll(ws);
  }

  lemma OldHeadRefused(
      cfg: Config, verify: Verifier, db: Db, user: Uuid, p: PublishParams, skip: nat,
      later: seq<Op>, user': Uuid, n': PublishParams)
    requires ValidConfig(cfg) && Inv(cfg, db)
    requires Publish(verify, db, user, p, skip).Ok? && !Publish(verify, db, user, p, skip).value.1.idempotent
    requires n'.kind.Some? && n'.workspace == p.workspace && n'.expectedHead == Trim(p.expectedHead)
    ensures var after := Run(cfg, verify, Publish(verify, db, user, p, skip).value.0, later);
            && p.workspace in after.workspaces
            && var ws := after.workspaces[p.workspace];
            PublishCheck(verify, ws, user', n') == Fail(HeadConflict(TextValue(ws.head), ws.headVersion))
  {
    hide Run, Recount, RowsOk, AllHeld, LinksOk, SeqsRise, LastSeqsOk, CursorsOk, LogIn, AccountsOk, QuotasOk;
    hide Normalize, Publish, Trim, ValidateParents, ValidateObjects, Chained;
    Published(cfg, verify, db, user, p, skip, later);
    var k := |db.workspaces[p.workspace].commits|;
    var (published, result) := Publish(verify, db, user, p, skip).value;
    var ws := Run(cfg, verify, published, later).workspaces[p.workspace];
    assert WorkspaceOk(cfg, ws);
    HeadIsLast(ws, k, result.commit);
  }

  /** The head moves by compare-and-swap: once a commit was published on top of a head, any new commit that names
      that head is refused with the current one, whoever sends it and whatever happened since. */
  lemma NoSecondSuccessor(
      cfg: Config, verify: Verifier, ops: seq<Op>, user: Uuid, p: PublishParams, skip: nat,
      later: seq<Op>, user': Uuid, p': PublishParams, skip': nat)
    requires ValidConfig(cfg)
    requires var db := Run(cfg, verify, EMPTY_DB, ops);
             Publish(verify, db, user, p, skip).Ok? && !Publish(verify, db, user, p, skip).value.1.idempotent
    requires p'.workspace == p.workspace && Trim(p'.expectedHead) == Trim(p.expectedHead) && Normalize(p').Ok?
    requires var published := Publish(verify, Run(cfg, verify, EMPTY_DB, ops), user, p, skip).value.0;
             var after := Run(cfg, verify, published, later);
             && Authorize(after, user', p'.workspace).Ok?
             && FindCommit(after.workspaces[p'.workspace].commits, Trim(p'.commitId)).None?
    ensures var published := Publish(verify, Run(cfg, verify, EMPTY_DB, ops), user, p, skip).value.0;
            var after := Run(cfg, verify, published, later);
            var ws := after.workspaces[p.workspace];
            Publish(verify, after, user', p', skip') == Err(HeadConflict(TextValue(ws.head), ws.headVersion))
  {
    hide Run, Inv, Normalize, Trim, PublishCheck, FindCommit, AfterPublish, MatchesPayload;
    RunInv(cfg, verify, ops);
    OldHeadRefused(cfg, verify, Run(cfg, verify, EMPTY_DB, ops), user, p, skip, later, user', Normalize(p').value);
  }

  lemma HeadIsLast(ws: Workspace, k: nat, c: Commit)
    requires Chained(ws.commits) && HeadOk(ws) && k < |ws.commits| && ws.commits[k] == c
    ensures TextValue(ws.head) != TextValue(c.expectedHead)
  {
    assert Linked(ws.commits, k) && Linked(ws.commits, |ws.commits| - 1);
  }

  /** A commit that was published for the first time sits at the end of the log of its moment, and stays there. */
  lemma Published(
      cfg: Config, verify: Verifier, db: Db, user: Uuid, p: PublishParams, skip: nat, later: seq<Op>)
    requires ValidConfig(cfg) && Inv(cfg, db)
    requires Publish(verify, db, user, p, skip).Ok? && !Publish(verify, db, user, p, skip).value.1.idempotent
    ensures Normalize(p).Ok? && p.workspace in db.workspaces
    ensures var (published, result) := Publish(verify, db, user, p, skip).value;
            var after := Run(cfg, verify, published, later);
            && result.commit == RowOf(Normalize(p).value, db.nextSeq + skip)
            && Inv(cfg, after) && p.workspace in after.workspaces
            && var k := |db.workspaces[p.workspace].commits|;
            && k < |after.workspaces[p.workspace].commits|
            && after.workspaces[p.workspace].commits[k] == result.commit
  {
    hide Run, Inv, PublishCheck, AddLinks, RowsKept, Normalize, Publish, FindCommit, MatchesPayload;
    PublishOutcome(verify, db, user, p, skip);
    var (published, result) := Publish(verify, db, user, p, skip).value;
    var w := p.workspace;
    PublishKeeps(cfg, verify, db, user, p, skip);
    RunKeeps(cfg, verify, published, later);
    assert published.workspaces[w].commits == db.workspaces[w].commits + [result.commit];
    assert WorkspaceGrows(published.workspaces[w], Run(cfg, verify, published, later).workspaces[w]);
  }

  // ----- Publishing again

  /** A request whose commit is in the log is answered from the log. */
  lemma FoundInLog(verify: Verifier, db: Db, user: Uuid, p: PublishParams, skip: nat, k: nat)
    requires Normalize(p).Ok? && Authorize(db, user, p.workspace).Ok?
    requires var ws := db.workspaces[p.workspace];
             DistinctIds(ws.commits) && k < |ws.commits| && ws.commits[k].id == Trim(p.commitId)
    ensures var ws := db.workspaces[p.workspace];
            Publish(verify, db, user, p, skip)
            == if MatchesPayload(ws.commits[k], PayloadOf(Normalize(p).value), p.signature)
               then Ok((db, PublishResult(ws.commits[k], ws.headVersion, true)))
               else Err(DuplicateCommitPayload)
  {
    hide IsSha256Hex, PublishCheck, AfterPublish, Trim, NormalDigest, TrimAll, Sort, MatchesPayload, FindCommit;
    FindCommitUnique(db.workspaces[p.workspace].commits, k);
  }

  /** Where the commit of a successful publish is, whether that publish created it or found it. */
  lemma CommitOfSuccess(
      cfg: Config, verify: Verifier, db: Db, user: Uuid, p: PublishParams, skip: nat, later: seq<Op>) returns (k: nat)
    requires ValidConfig(cfg) && Inv(cfg, db) && Publish(verify, db, user, p, skip).Ok? && Normalize(p).Ok?
    ensures var (published, result) := Publish(verify, db, user, p, skip).value;
            var after := Run(cfg, verify, published, later);
            && Inv(cfg, after) && p.workspace in after.workspaces
            && var ws := after.workspaces[p.workspace];
            && DistinctIds(ws.commits) && k < |ws.commits| && ws.commits[k] == result.commit
            && result.commit.id == Trim(p.commitId)
            && MatchesPayload(result.commit, PayloadOf(Normalize(p).value), p.signature)
  {
    hide Run, Normalize, Publish, PublishCheck, AfterPublish, Trim, UsageOk, RowsOk, AllHeld, Sort, TrimAll;
    hide LinksOk, SeqsRise, LastSeqsOk, CursorsOk, LogIn, AccountsOk, QuotasOk, RowsKept, FindCommit, Linked;
    var (published, result) := Publish(verify, db, user, p, skip).value;
    var after := Run(cfg, verify, published, later);
    PublishOutcome(verify, db, user, p, skip);
    if result.idempotent {
      var ws := db.workspaces[p.workspace];
      RunKeeps(cfg, verify, published, later);
      FindCommitFinds(ws.commits, Trim(p.commitId));
      k :| 0 <= k < |ws.commits| && ws.commits[k] == result.commit;
      assert WorkspaceGrows(ws, after.workspaces[p.workspace]);
    } else {
      k := |db.workspaces[p.workspace].commits|;
      Published(cfg, verify, db, user, p, skip, later);
      PayloadRoundTrip(p, db.nextSeq + skip);
    }
    assert WorkspaceOk(cfg, after.workspaces[p.workspace]);
  }

  /** A request that once succeeded, sent again after anything else happened while its workspace is still the
      user's, returns the same commit as idempotent and changes nothing. */
  lemma RepublishIsIdempotent(
      cfg: Config, verify: Verifier, ops: seq<Op>, user: Uuid, p: PublishParams, skip: nat, later: seq<Op>, skip': nat)
    requires ValidConfig(cfg)
    requires Publish(verify, Run(cfg, verify, EMPTY_DB, ops), user, p, skip).Ok?
    requires var published := Publish(verify, Run(cfg, verify, EMPTY_DB, ops), user, p, skip).value.0;
             Authorize(Run(cfg, verify, published, later), user, p.workspace).Ok?
    ensures var (published, result) := Publish(verify, Run(cfg, verify, EMPTY_DB, ops), user, p, skip).value;
            var after := Run(cfg, verify, published, later);
            Publish(verify, after, user, p, skip')
            == Ok((after, PublishResult(result.commit, after.workspaces[p.workspace].headVersion, true)))
  {
    hide Run, Inv, Publish, MatchesPayload, DistinctIds, Normalize, Trim;
    var db := Run(cfg, verify, EMPTY_DB, ops);
    RunInv(cfg, verify, ops);
    SucceededNormalizes(verify, db, user, p, skip);
    var k := CommitOfSuccess(cfg, verify, db, user, p, skip, later);
    var after := Run(cfg, verify, Publish(verify, db, user, p, skip).value.0, later);
    FoundInLog(verify, after, user, p, skip', k);
  }

  lemma SucceededNormalizes(verify: Verifier, db: Db, user: Uuid, p: PublishParams, skip: nat)
    requires Publish(verify, db, user, p, skip).Ok?
    ensures Normalize(p).Ok?
  {
  }

  /** The same commit id with any other payload or signature is refused from then on, and changes nothing. */
  lemma RepublishDifferentRefused(
      cfg: Config, verify: Verifier, ops: seq<Op>, user: Uuid, p: PublishParams, skip: nat, later: seq<Op>,
      p': PublishParams, skip': nat)
    requires ValidConfig(cfg)
    requires Publish(verify, Run(cfg, verify, EMPTY_DB, ops), user, p, skip).Ok?
    requires var published := Publish(verify, Run(cfg, verify, EMPTY_DB, ops), user, p, skip).value.0;
             Authorize(Run(cfg, verify, published, later), user, p.workspace).Ok?
    requires p'.workspace == p.workspace && Trim(p'.commitId) == Trim(p.commitId) && Normalize(p').Ok?
    requires Normalize(p).Ok?
        && (PayloadOf(Normalize(p').value) != PayloadOf(Normalize(p).value) || p'.signature != p.signature)
    ensures var published := Publish(verify, Run(cfg, verify, EMPTY_DB, ops), user, p, skip).value.0;
            Publish(verify, Run(cfg, verify, published, later), user, p', skip') == Err(DuplicateCommitPayload)
  {
    hide Run, Inv, Publish, DistinctIds, Normalize, Trim, PayloadOfRow, PayloadOf;
    var db := Run(cfg, verify, EMPTY_DB, ops);
    RunInv(cfg, verify, ops);
    var k := CommitOfSuccess(cfg, verify, db, user, p, skip, later);
    FoundInLog(verify, Run(cfg, verify, Publish(verify, db, user, p, skip).value.0, later), user, p', skip', k);
  }

  // ----- Objects that commits need

  /** In a live workspace every commit's body and referenced objects are available, and the body has the digest and
      size the commit signed. */
  lemma CommitObjectsAvailable(cfg: Config, verify: Verifier, ops: seq<Op>, w: Uuid, k: nat)
    requires ValidConfig(cfg)
    requires var db := Run(cfg, verify, EMPTY_DB, ops);
             w in db.workspaces && !db.workspaces[w].deleted && k < |db.workspaces[w].commits|
    ensures var ws := Run(cfg, verify, EMPTY_DB, ops).workspaces[w];
            ObjectsHeld(ws.objects, ws.commits[k])
  {
    RunInv(cfg, verify, ops);
    assert WorkspaceOk(cfg, Run(cfg, verify, EMPTY_DB, ops).workspaces[w]);
  }

  /** From the moment an object is available, no later transaction changes its row while the workspace lives. */
  lemma AvailableStays(cfg: Config, verify: Verifier, ops: seq<Op>, later: seq<Op>, w: Uuid, id: string)
    requires ValidConfig(cfg)
    requires var db := Run(cfg, verify, EMPTY_DB, ops);
             && w in db.workspaces && id in db.workspaces[w].objects && db.workspaces[w].objects[id].state == Available
             && w in Run(cfg, verify, db, later).workspaces && !Run(cfg, verify, db, later).workspaces[w].deleted
    ensures var db := Run(cfg, verify, EMPTY_DB, ops);
            var ws := Run(cfg, verify, db, later).workspaces[w];
            id in ws.objects && ws.objects[id] == db.workspaces[w].objects[id]
  {
    hide Run, Inv;
    RunInv(cfg, verify, ops);
    var db := Run(cfg, verify, EMPTY_DB, ops);
    RunKeeps(cfg, verify, db, later);
    assert WorkspaceGrows(db.workspaces[w], Run(cfg, verify, db, later).workspaces[w]);
  }

  // ----- Counters and limits

  /** The counters are exact and the limits hold in every reachable state, not only where they are checked; a
      recount is never needed. */
  lemma CountersExactAndWithinLimits(cfg: Config, verify: Verifier, ops: seq<Op>)
    requires ValidConfig(cfg)
    ensures var db := Run(cfg, verify, EMPTY_DB, ops);
            && (forall w | w in db.workspaces :: db.workspaces[w].usage == Recount(db.workspaces[w].objects))
            && (forall u | u in db.accounts :: db.accounts[u] == RecountAccount(db.workspaces, u))
            && QuotasOk(cfg, db)
            && forall user, w | Authorize(db, user, w).Ok? :: Recalculate(db, user, w) == Ok(db)
  {
    hide Run, Recount, RecountAccount, LogOk, RowsOk, AllHeld, LogIn, Recalculate;
    RunInv(cfg, verify, ops);
    var db := Run(cfg, verify, EMPTY_DB, ops);
    forall w | w in db.workspaces ensures db.workspaces[w].usage == Recount(db.workspaces[w].objects) {
      assert WorkspaceOk(cfg, db.workspaces[w]);
    }
    forall user, w | Authorize(db, user, w).Ok? ensures Recalculate(db, user, w) == Ok(db) {
      RecalculateChangesNothing(cfg, db, user, w);
    }
  }

  const INT64_MAX := 0x7FFF_FFFF_FFFF_FFFF

  lemma {:induction false} AddedBytesBound(
      cfg: Config, ws: Workspace, device: Uuid, requests: seq<UploadRequest>, n: nat, now: int)
    requires n <= |requests| && 0 <= cfg.maxSingleBlob
    requires forall i | 0 <= i < |requests| :: UploadCheck(cfg, ws, device, requests, i, now).Pass?
    requires forall i | 0 <= i < |requests| :: requests[i].objectId in ws.objects
    ensures 0 <= AddedBytes(ws, requests, n) <= n * cfg.maxSingleBlob
  {
    if n > 0 {
      AddedBytesBound(cfg, ws, device, requests, n - 1, now);
      assert UploadCheck(cfg, ws, device, requests, n - 1, now).Pass?;
    }
  }

  lemma MulMonotone(a: nat, b: nat, c: nat)
    requires a <= b
    ensures a * c <= b * c
  {
  }

  /** If the largest limit plus one full batch fits in 64 bits, so does every sum the quota check forms in a
      reachable state. */
  lemma QuotaSumsFitInt64(
      cfg: Config, verify: Verifier, ops: seq<Op>, w: Uuid, device: Uuid, requests: seq<UploadRequest>, now: int)
    requires ValidConfig(cfg) && 0 <= cfg.maxSingleBlob && |requests| <= MAX_OBJECT_TRANSFER_BATCH
    requires cfg.maxPending + MAX_OBJECT_TRANSFER_BATCH * cfg.maxSingleBlob <= INT64_MAX
    requires cfg.maxPerWorkspace + MAX_OBJECT_TRANSFER_BATCH * cfg.maxSingleBlob <= INT64_MAX
    requires cfg.maxTotalPerUser + MAX_OBJECT_TRANSFER_BATCH * cfg.maxSingleBlob <= INT64_MAX
    requires var db := Run(cfg, verify, EMPTY_DB, ops);
             && w in db.workspaces && !db.workspaces[w].deleted
             && BatchCheck(cfg, db.workspaces[w], device, requests, |requests|, now).Pass?
    ensures var db := Run(cfg, verify, EMPTY_DB, ops);
            var ws := db.workspaces[w];
            && ws.owner in db.accounts && (forall i | 0 <= i < |requests| :: requests[i].objectId in ws.objects)
            && var added, account := AddedBytes(ws, requests, |requests|), db.accounts[ws.owner];
            && 0 <= added <= INT64_MAX
            && ws.usage.pending + added <= INT64_MAX
            && ws.usage.storage + ws.usage.pending + added <= INT64_MAX
            && account.storage + account.pending + added <= INT64_MAX
  {
    hide Run, Inv, Recount, RecountAccount, LogOk, RowsOk, AllHeld, LogIn, WorkspaceOk, UploadCheck;
    RunInv(cfg, verify, ops);
    var db := Run(cfg, verify, EMPTY_DB, ops);
    var ws := db.workspaces[w];
    InvAt(cfg, db, w);
    BatchPassed(cfg, ws, device, requests, |requests|, now);
    BatchAdmitted(cfg, ws, device, requests, now);
    AddedBytesBound(cfg, ws, device, requests, |requests|, now);
    MulMonotone(|requests|, MAX_OBJECT_TRANSFER_BATCH, cfg.maxSingleBlob);
  }

  // ----- What the collector reports

  /** In every reachable state, what the collector preserves and what it calls old history partition the commits,
      and the walk along expected heads stays preserved until it reaches the latest checkpoint. */
  lemma CollectorPartitionsHistory(cfg: Config, verify: Verifier, ops: seq<Op>, w: Uuid, links: seq<Link>)
    returns (steps: nat)
    requires ValidConfig(cfg) && w in Run(cfg, verify, EMPTY_DB, ops).workspaces
    ensures var ws := Run(cfg, verify, EMPTY_DB, ops).workspaces[w];
            var g := BuildGraph(ws.head, Newest(ws.commits), links);
            var oldIds := set c | c in g.oldHistory :: c.commitId;
            && g.preservedCommitIds + oldIds == Ids(ws.commits)
            && g.preservedCommitIds !! oldIds
            && (g.latest.Some? <==> ws.commits != [])
            && (g.latest.Some? ==> FollowHeads(ById(Newest(ws.commits)), g.head, steps) == g.latest.value.commitId)
            && (g.latest.Some? ==>
                  forall n | 0 <= n <= steps ::
                    FollowHeads(ById(Newest(ws.commits)), g.head, n) in g.preservedCommitIds)
  {
    hide Run, Recount, RowsOk, AllHeld, LogIn, AccountsOk, QuotasOk, LogOk, ById, FollowHeads;
    RunInv(cfg, verify, ops);
    var ws := Run(cfg, verify, EMPTY_DB, ops).workspaces[w];
    assert WorkspaceOk(cfg, ws);
    PreservedAndOldPartition(ws, links);
    if ws.commits != [] {
      hide BuildGraph;
      steps := WalkStaysPreserved(ws, links);
    } else {
      steps := 0;
    }
  }

  /** Every object the collector finds reachable is available, so what a checkpoint preserves can be downloaded. */
  lemma ReachableObjectsAvailable(
      cfg: Config, verify: Verifier, ops: seq<Op>, w: Uuid, links: seq<Link>, o: string)
    requires ValidConfig(cfg)
    requires var db := Run(cfg, verify, EMPTY_DB, ops);
             && w in db.workspaces && !db.workspaces[w].deleted
             && (forall l | l in links :: l in db.workspaces[w].links)
             && var g := BuildGraph(db.workspaces[w].head, Newest(db.workspaces[w].commits), links);
             o in g.objectIds || o in g.preservedObjectIds
    ensures var ws := Run(cfg, verify, EMPTY_DB, ops).workspaces[w];
            o in ws.objects && ws.objects[o].state == Available
  {
    hide Run, Recount, RowsOk, LogIn, AccountsOk, QuotasOk, Chained, SeqsRise, LastSeqsOk, CursorsOk, ReachableIds,
      ById, OldHistory, LatestCheckpoint, PreservedIds;
    RunInv(cfg, verify, ops);
    var ws := Run(cfg, verify, EMPTY_DB, ops).workspaces[w];
    assert WorkspaceOk(cfg, ws);
    var id :| o in ObjectsOf(Newest(ws.commits), links, id);
    NamedObjectAvailable(ws, links, id, o);
  }

  lemma NamedObjectAvailable(ws: Workspace, links: seq<Link>, id: string, o: string)
    requires AllHeld(ws) && LinksOk(ws) && forall l | l in links :: l in ws.links
    requires o in ObjectsOf(Newest(ws.commits), links, id)
    ensures o in ws.objects && ws.objects[o].state == Available
  {
    var i: nat;
    if c, x :| c in Newest(ws.commits) && x in FieldObjects(c) && x == o {
      var j :| 0 <= j < |ws.commits| && Newest(ws.commits)[j] == c;
      i := |ws.commits| - 1 - j;
    } else {
      var l :| l in links && l.objectId == o;
      i :| 0 <= i < |ws.commits| && LinkOf(ws.commits[i], l);
    }
    assert ObjectsHeld(ws.objects, ws.commits[i]);
  }
}
