/**
 Who wrote the log: every commit in every reachable state carries a signature that the key of its
 author's device verifies, and the key of a device never changes.
 */
module SyncSigned {
  import opened Text
  import opened SyncRows
  import opened SyncUsage
  import opened SyncUploads
  import opened SyncCommits
  import opened SyncSteps

  /** The author's device is known, has an Ed25519 key, and that key verifies the stored payload. */
  predicate SignedBy(verify: Verifier, devices: map<Uuid, Device>, c: Commit) {
    && c.author in devices && |devices[c.author].signingKey| == 32
    && verify(devices[c.author].signingKey, PayloadOfRow(c), c.signature)
  }

  predicate AllSigned(verify: Verifier, ws: Workspace) {
    forall i | 0 <= i < |ws.commits| :: SignedBy(verify, ws.devices, ws.commits[i])
  }

  predicate DbSigned(verify: Verifier, db: Db) {
    forall w | w in db.workspaces :: AllSigned(verify, db.workspaces[w])
  }

  /** Devices stay, with their user and key; revocation is for good and sequences never fall. */
  predicate DevicesKept(before: map<Uuid, Device>, after: map<Uuid, Device>) {
    forall d | d in before ::
      && d in after && after[d].user == before[d].user && after[d].signingKey == before[d].signingKey
      && (before[d].revoked ==> after[d].revoked) && before[d].lastSeq <= after[d].lastSeq
  }

  /** What a transaction may do to a log and its devices: add one signed commit at the end. */
  predicate LogStep(verify: Verifier, before: Workspace, after: Workspace) {
    && DevicesKept(before.devices, after.devices)
    && (|| after.commits == before.commits
        || (&& |after.commits| == |before.commits| + 1 && before.commits <= after.commits
            && SignedBy(verify, after.devices, after.commits[|before.commits|])))
  }

  predicate DbStep(verify: Verifier, db: Db, after: Db) {
    && (forall w | w in db.workspaces ::
          w in after.workspaces && LogStep(verify, db.workspaces[w], after.workspaces[w]))
    && (forall w | w in after.workspaces && w !in db.workspaces :: after.workspaces[w].commits == [])
  }

  /** Writing a workspace whose log and devices stay as they were. */
  lemma SameLogStep(verify: Verifier, db: Db, after: Db, w: Uuid)
    requires w in db.workspaces && w in after.workspaces
    requires after.workspaces == db.workspaces[w := after.workspaces[w]]
    requires after.workspaces[w].commits == db.workspaces[w].commits
    requires after.workspaces[w].devices == db.workspaces[w].devices
    ensures DbStep(verify, db, after)
  {
  }

  lemma NothingStep(verify: Verifier, db: Db, after: Db)
    requires after.workspaces == db.workspaces
    ensures DbStep(verify, db, after)
  {
  }

  lemma AddedIsSigned(verify: Verifier, ws: Workspace, user: Uuid, p: PublishParams, serverSeq: nat)
    requires Normalize(p).Ok? && PublishCheck(verify, ws, user, Normalize(p).value).Pass?
    requires var c := RowOf(Normalize(p).value, serverSeq);
             c.author in ws.devices && forall o | o in c.referenced :: o in ws.objects
    ensures LogStep(verify, ws, AfterPublish(ws, RowOf(Normalize(p).value, serverSeq)))
  {
    hide Normalize, ValidateParents, ValidateObjects, AddLinks, PayloadOfRow, PayloadOf;
    PayloadRoundTrip(p, serverSeq);
  }

  lemma OneLogStep(verify: Verifier, db: Db, after: Db, w: Uuid)
    requires w in db.workspaces && w in after.workspaces
    requires after.workspaces == db.workspaces[w := after.workspaces[w]]
    requires LogStep(verify, db.workspaces[w], after.workspaces[w])
    ensures DbStep(verify, db, after)
  {
  }

  /** A publish that succeeds adds nothing, or one commit signed by its author's device. */
  lemma PublishStep(verify: Verifier, db: Db, user: Uuid, p: PublishParams, skip: nat)
    requires Publish(verify, db, user, p, skip).Ok?
    ensures DbStep(verify, db, Publish(verify, db, user, p, skip).value.0)
  {
    hide DbStep, LogStep, Publish, PublishCheck, Normalize, FindCommit, AfterPublish, MatchesPayload;
    var (after, result) := Publish(verify, db, user, p, skip).value;
    PublishOutcome(verify, db, user, p, skip);
    if result.idempotent {
      NothingStep(verify, db, after);
    } else {
      AddedIsSigned(verify, db.workspaces[p.workspace], user, p, db.nextSeq + skip);
      OneLogStep(verify, db, after, p.workspace);
    }
  }

  lemma UploadSteps(
      cfg: Config, verify: Verifier, db: Db, user: Uuid, w: Uuid, device: Uuid, attempt: string,
      uploads: seq<UploadRequest>, completes: seq<CompleteRequest>, heads: map<string, HeadReply>, now: int)
    ensures var r := CreateUploadBatch(cfg, db, user, w, device, attempt, uploads, now);
            r.Ok? ==> DbStep(verify, db, r.value)
    ensures var r := CompleteUploadBatch(cfg, db, user, w, device, attempt, completes, heads, now);
            r.Ok? ==> DbStep(verify, db, r.value.0)
  {
    hide CleanUploads, CleanCompletes, BatchCheck, CompleteFirst, MarkedPending, AddedBytes, Trim, DbStep;
    if CreateUploadBatch(cfg, db, user, w, device, attempt, uploads, now).Ok? {
      SameLogStep(verify, db, CreateUploadBatch(cfg, db, user, w, device, attempt, uploads, now).value, w);
    }
    var r := CompleteUploadBatch(cfg, db, user, w, device, attempt, completes, heads, now);
    if r.Ok? {
      SameLogStep(verify, db, r.value.0, w);
    }
  }

  lemma ReserveStep(
      cfg: Config, verify: Verifier, db: Db, user: Uuid, w: Uuid, device: Uuid,
      requests: seq<ReserveRequest>, ids: seq<string>, now: int)
    requires Reserve(cfg, db, user, w, device, requests, ids, now).Ok?
    ensures DbStep(verify, db, Reserve(cfg, db, user, w, device, requests, ids, now).value)
  {
    hide ReserveAll, DbStep;
    SameLogStep(verify, db, Reserve(cfg, db, user, w, device, requests, ids, now).value, w);
  }

  lemma DevUploadStep(
      cfg: Config, verify: Verifier, db: Db, user: Uuid, w: Uuid, device: Uuid,
      id: string, sha: string, size: int, blobMatches: bool, putFails: bool)
    requires UploadBytesDev(cfg, db, user, w, device, id, sha, size, blobMatches, putFails).Ok?
    ensures DbStep(verify, db, UploadBytesDev(cfg, db, user, w, device, id, sha, size, blobMatches, putFails).value)
  {
    hide DbStep, NormalDigest, IsSha256Hex;
    var after := UploadBytesDev(cfg, db, user, w, device, id, sha, size, blobMatches, putFails).value;
    if after == db {
      NothingStep(verify, db, after);
    } else {
      SameLogStep(verify, db, after, w);
    }
  }

  lemma CollectStep(
      verify: Verifier, db: Db, user: Uuid, w: Uuid, dryRun: bool, orphans: seq<string>, blobFails: bool)
    requires w in db.workspaces && forall id | id in orphans :: id in db.workspaces[w].objects
    requires Collect(db, user, w, dryRun, orphans, blobFails).Ok?
    ensures DbStep(verify, db, Collect(db, user, w, dryRun, orphans, blobFails).value)
  {
    hide DbStep, Collect;
    CollectWipes(db, user, w, dryRun, orphans, blobFails);
    var after := Collect(db, user, w, dryRun, orphans, blobFails).value;
    assert after.workspaces == db.workspaces[w := after.workspaces[w]];
    SameLogStep(verify, db, after, w);
  }

  lemma RecalculateStep(verify: Verifier, db: Db, user: Uuid, w: Uuid)
    requires Recalculate(db, user, w).Ok?
    ensures DbStep(verify, db, Recalculate(db, user, w).value)
  {
    hide DbStep, Recount, RecountAccount;
    SameLogStep(verify, db, Recalculate(db, user, w).value, w);
  }

  lemma DeleteWorkspaceStep(verify: Verifier, db: Db, user: Uuid, w: Uuid)
    ensures DbStep(verify, db, DeleteWorkspace(db, user, w))
  {
    hide DbStep, RecountAccount;
    if Authorize(db, user, w).Ok? {
      SameLogStep(verify, db, DeleteWorkspace(db, user, w), w);
    } else {
      NothingStep(verify, db, DeleteWorkspace(db, user, w));
    }
  }

  lemma WipedStep(verify: Verifier, ws: Workspace)
    ensures LogStep(verify, ws, Wiped(ws)) && LogStep(verify, ws, ws)
  {
    hide SignedBy;
  }

  lemma DeleteAccountStep(verify: Verifier, db: Db, user: Uuid)
    ensures DbStep(verify, db, DeleteAccount(db, user))
  {
    hide LogStep, Wiped;
    forall w | w in db.workspaces ensures LogStep(verify, db.workspaces[w], DeleteAccount(db, user).workspaces[w]) {
      WipedStep(verify, db.workspaces[w]);
    }
  }

  lemma CreateSteps(
      cfg: Config, verify: Verifier, db: Db, user: Uuid, version: string, w: Uuid, device: Uuid, key: Bytes)
    ensures var r := CreateWorkspace(cfg, db, user, version, w); r.Ok? ==> DbStep(verify, db, r.value)
    ensures var r := RegisterDevice(db, user, w, device, key); r.Ok? ==> DbStep(verify, db, r.value)
  {
    hide Trim;
  }

  lemma StepIsLogStep(cfg: Config, verify: Verifier, db: Db, op: Op)
    ensures DbStep(verify, db, Step(cfg, verify, db, op))
  {
    hide DbStep, CreateWorkspace, DeleteWorkspace, DeleteAccount, RegisterDevice, Reserve, CreateUploadBatch;
    hide CompleteUploadBatch, UploadBytesDev, Publish, Collect, Recalculate, OrphanListing;
    NothingStep(verify, db, db);
    match op
    case OpCreateWorkspace(user, version, w) => CreateSteps(cfg, verify, db, user, version, w, 0, []);
    case OpDeleteWorkspace(user, w) => DeleteWorkspaceStep(verify, db, user, w);
    case OpDeleteAccount(user) => DeleteAccountStep(verify, db, user);
    case OpRegisterDevice(user, w, device, key) => CreateSteps(cfg, verify, db, user, "", w, device, key);
    case OpReserve(user, w, device, requests, ids, now) =>
      if Reserve(cfg, db, user, w, device, requests, ids, now).Ok? {
        ReserveStep(cfg, verify, db, user, w, device, requests, ids, now);
      }
    case OpCreateUpload(user, w, device, attempt, requests, now) =>
      UploadSteps(cfg, verify, db, user, w, device, attempt, requests, [], map[], now);
    case OpCompleteUpload(user, w, device, attempt, requests, heads, now) =>
      UploadSteps(cfg, verify, db, user, w, device, attempt, [], requests, heads, now);
    case OpDevUpload(user, w, device, id, sha, size, blobMatches, putFails) =>
      if UploadBytesDev(cfg, db, user, w, device, id, sha, size, blobMatches, putFails).Ok? {
        DevUploadStep(cfg, verify, db, user, w, device, id, sha, size, blobMatches, putFails);
      }
    case OpPublish(user, params, skip) =>
      if Publish(verify, db, user, params, skip).Ok? {
        PublishStep(verify, db, user, params, skip);
      }
    case OpCollect(user, w, dryRun, now, limit, locked, orphans, blobFails) =>
      if w in db.workspaces && OrphanListing(db.workspaces[w].objects, now, limit, locked, orphans) {
        ListingHolds(db.workspaces[w].objects, now, limit, locked, orphans);
        if Collect(db, user, w, dryRun, orphans, blobFails).Ok? {
          CollectStep(verify, db, user, w, dryRun, orphans, blobFails);
        }
      }
    case OpRecalculate(user, w) =>
      if Recalculate(db, user, w).Ok? {
        RecalculateStep(verify, db, user, w);
      }
  }

  lemma SignedStays(verify: Verifier, before: Workspace, after: Workspace)
    requires AllSigned(verify, before) && LogStep(verify, before, after)
    ensures AllSigned(verify, after)
  {
    hide PayloadOfRow;
    forall i | 0 <= i < |after.commits| ensures SignedBy(verify, after.devices, after.commits[i]) {
      if i < |before.commits| {
        assert after.commits[i] == before.commits[i] && SignedBy(verify, before.devices, before.commits[i]);
      }
    }
  }

  lemma StepKeepsSigned(verify: Verifier, db: Db, after: Db)
    requires DbSigned(verify, db) && DbStep(verify, db, after)
    ensures DbSigned(verify, after)
  {
    hide SignedBy, DevicesKept;
    forall w | w in after.workspaces ensures AllSigned(verify, after.workspaces[w]) {
      if w in db.workspaces {
        SignedStays(verify, db.workspaces[w], after.workspaces[w]);
      }
    }
  }

  lemma KeptTransitive(a: map<Uuid, Device>, b: map<Uuid, Device>, c: map<Uuid, Device>)
    requires DevicesKept(a, b) && DevicesKept(b, c)
    ensures DevicesKept(a, c)
  {
  }

  lemma {:induction false} RunKeepsSigned(cfg: Config, verify: Verifier, db: Db, ops: seq<Op>)
    requires DbSigned(verify, db)
    ensures DbSigned(verify, Run(cfg, verify, db, ops))
    ensures forall w | w in db.workspaces ::
              && w in Run(cfg, verify, db, ops).workspaces
              && DevicesKept(db.workspaces[w].devices, Run(cfg, verify, db, ops).workspaces[w].devices)
    decreases |ops|
  {
    hide Step, SignedBy;
    if ops != [] {
      var next := Step(cfg, verify, db, ops[0]);
      StepIsLogStep(cfg, verify, db, ops[0]);
      StepKeepsSigned(verify, db, next);
      RunKeepsSigned(cfg, verify, next, ops[1..]);
      forall w | w in db.workspaces
        ensures w in Run(cfg, verify, db, ops).workspaces
        ensures DevicesKept(db.workspaces[w].devices, Run(cfg, verify, db, ops).workspaces[w].devices)
      {
        KeptTransitive(
          db.workspaces[w].devices, next.workspaces[w].devices, Run(cfg, verify, db, ops).workspaces[w].devices);
      }
    }
  }

  /** In every reachable state each commit of each log is signed by the key of its author's device. */
  lemma EveryCommitIsSigned(cfg: Config, verify: Verifier, ops: seq<Op>, w: Uuid, i: nat)
    requires var db := Run(cfg, verify, EMPTY_DB, ops); w in db.workspaces && i < |db.workspaces[w].commits|
    ensures var ws := Run(cfg, verify, EMPTY_DB, ops).workspaces[w];
            var c := ws.commits[i];
            && c.author in ws.devices && |ws.devices[c.author].signingKey| == 32
            && verify(ws.devices[c.author].signingKey, PayloadOfRow(c), c.signature)
  {
    hide Run, PayloadOfRow;
    RunKeepsSigned(cfg, verify, EMPTY_DB, ops);
    assert AllSigned(verify, Run(cfg, verify, EMPTY_DB, ops).workspaces[w]);
    assert SignedBy(verify, Run(cfg, verify, EMPTY_DB, ops).workspaces[w].devices,
                    Run(cfg, verify, EMPTY_DB, ops).workspaces[w].commits[i]);
  }

  /** A device keeps its user and its key in every continuation, and once revoked it stays revoked. */
  lemma DeviceKeysNeverChange(cfg: Config, verify: Verifier, ops: seq<Op>, later: seq<Op>, w: Uuid, d: Uuid)
    requires var db := Run(cfg, verify, EMPTY_DB, ops); w in db.workspaces && d in db.workspaces[w].devices
    ensures var db := Run(cfg, verify, EMPTY_DB, ops);
            var after := Run(cfg, verify, db, later);
            && w in after.workspaces && d in after.workspaces[w].devices
            && var was, now := db.workspaces[w].devices[d], after.workspaces[w].devices[d];
            && now.user == was.user && now.signingKey == was.signingKey && (was.revoked ==> now.revoked)
  {
    hide Run, SignedBy;
    RunKeepsSigned(cfg, verify, EMPTY_DB, ops);
    RunKeepsSigned(cfg, verify, Run(cfg, verify, EMPTY_DB, ops), later);
  }
}
