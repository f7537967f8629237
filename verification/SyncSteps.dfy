/**
 Every transaction of the sync service as one step of a state machine over the database,
 and the invariant that each step keeps.
 */
module SyncSteps {
  import opened Text
  import opened SyncRows
  import opened SyncUsage
  import opened SyncUploads
  import opened SyncCommits

  // ----- Workspaces, devices and accounts

  /** CreateWorkspace; id is the fresh workspace id. */
  function CreateWorkspace(cfg: Config, db: Db, user: Uuid, cryptoVersion: string, id: Uuid): Result<Db> {
    var account := EnsureAccount(db, user).accounts[user];
    :- Need(Trim(cryptoVersion) != "", InvalidArgument);
    :- Need(account.workspaces < cfg.maxWorkspaces,
            QuotaExceeded(WorkspaceCount, cfg.maxWorkspaces, account.workspaces, 1));
    :- Need(id != NIL && id !in db.workspaces, UniqueViolation);
    Ok(Write(db, id, EmptyWorkspace(user), user, account.(workspaces := account.workspaces + 1)))
  }

  /** RegisterDevice; id is the fresh device id. */
  function RegisterDevice(db: Db, user: Uuid, w: Uuid, id: Uuid, signingKey: Bytes): Result<Db> {
    var keyOk := |signingKey| == PUBLIC_KEY_SIZE;
    :- Need(keyOk, InvalidArgument);
    var ws :- Authorize(db, user, w);
    :- Need(id != NIL && id !in ws.devices, UniqueViolation);
    Ok(db.(workspaces := db.workspaces[w := ws.(devices := ws.devices[id := Device(user, signingKey, 0, false)])]))
  }

  /** DeleteWorkspace: deleting a workspace one does not own changes no workspace row. */
  ghost function DeleteWorkspace(db: Db, user: Uuid, w: Uuid): Db {
    var workspaces :=
      if Authorize(db, user, w).Ok? then db.workspaces[w := db.workspaces[w].(deleted := true)] else db.workspaces;
    Db(db.accounts[user := RecountAccount(workspaces, user)], workspaces, db.nextSeq)
  }

  function WipedObject(o: SyncObject): SyncObject { o.(state := Deleted, expiresAt := None) }

  function Wiped(ws: Workspace): Workspace {
    ws.(deleted := true,
        objects := map id | id in ws.objects :: WipedObject(ws.objects[id]),
        devices := map d | d in ws.devices :: ws.devices[d].(revoked := true),
        usage := Usage(0, 0, 0))
  }

  /** The sync part of DeleteAccount. */
  function DeleteAccount(db: Db, user: Uuid): Db {
    Db(if user in db.accounts then db.accounts[user := Account(0, 0, 0)] else db.accounts,
       map w | w in db.workspaces ::
         if db.workspaces[w].owner == user then Wiped(db.workspaces[w]) else db.workspaces[w],
       db.nextSeq)
  }

  // ----- Collection and recounting

  const DEFAULT_GC_ORPHAN_LIMIT := 100

  function OrphanLimit(limit: int): int {
    if limit <= 0 then DEFAULT_GC_ORPHAN_LIMIT else limit
  }

  predicate Eligible(o: SyncObject, now: int) {
    (o.state == Reserved || o.state == Pending || o.state == Failed) && Expired(o, now)
  }

  predicate ListedBefore(objects: map<string, SyncObject>, a: string, b: string)
    requires a in objects && b in objects && objects[a].expiresAt.Some? && objects[b].expiresAt.Some?
  {
    objects[a].expiresAt.value < objects[b].expiresAt.value
    || (objects[a].expiresAt.value == objects[b].expiresAt.value && LexLe(a, b))
  }

  /** What ListExpiredOrphanSyncObjectsForUpdate may return while other transactions hold the locked rows. */
  predicate OrphanListing(
      objects: map<string, SyncObject>, now: int, limit: int, locked: set<string>, orphans: seq<string>) {
    && |orphans| <= OrphanLimit(limit)
    && (forall id | id in orphans :: id in objects && Eligible(objects[id], now) && id !in locked)
    && (forall i, j | 0 <= i < j < |orphans| ::
      orphans[i] != orphans[j] && ListedBefore(objects, orphans[i], orphans[j]))
    && (forall id | id in objects && Eligible(objects[id], now) && id !in locked && id !in orphans ::
          |orphans| == OrphanLimit(limit) && forall o | o in orphans :: ListedBefore(objects, o, id))
  }

  function MarkedDeleted(objects: map<string, SyncObject>, ids: seq<string>): map<string, SyncObject>
    requires forall id | id in ids :: id in objects
  {
    if ids == [] then objects else
      var id := ids[|ids| - 1];
      MarkedDeleted(objects, ids[..|ids| - 1])[id := WipedObject(objects[id])]
  }

  /** RunWorkspaceGC; orphans is the listing it works on, blobFails whether the store fails to delete a blob. */
  ghost function Collect(db: Db, user: Uuid, w: Uuid, dryRun: bool, orphans: seq<string>, blobFails: bool): Result<Db>
    requires w in db.workspaces ==> forall id | id in orphans :: id in db.workspaces[w].objects
  {
    var ws :- Authorize(db, user, w);
    var ensured := EnsureAccount(db, user);
    if dryRun || orphans == [] then Ok(ensured) else
      :- Need(!blobFails, StoreUnavailable);
      var objects := MarkedDeleted(ws.objects, orphans);
      var workspaces := db.workspaces[w := ws.(objects := objects, usage := Recount(objects))];
      Ok(Db(ensured.accounts[user := RecountAccount(workspaces, user)], workspaces, db.nextSeq))
  }

  /** RecalculateSyncUsage. */
  ghost function Recalculate(db: Db, user: Uuid, w: Uuid): Result<Db> {
    var ws :- Authorize(db, user, w);
    var workspaces := db.workspaces[w := ws.(usage := Recount(ws.objects))];
    Ok(Db(db.accounts[user := RecountAccount(workspaces, user)], workspaces, db.nextSeq))
  }

  // ----- The state machine

  datatype Op =
    | OpCreateWorkspace(user: Uuid, cryptoVersion: string, w: Uuid)
    | OpDeleteWorkspace(user: Uuid, w: Uuid)
    | OpDeleteAccount(user: Uuid)
    | OpRegisterDevice(user: Uuid, w: Uuid, device: Uuid, signingKey: Bytes)
    | OpReserve(user: Uuid, w: Uuid, device: Uuid, reservations: seq<ReserveRequest>, ids: seq<string>, now: int)
    | OpCreateUpload(user: Uuid, w: Uuid, device: Uuid, attempt: string, uploads: seq<UploadRequest>, now: int)
    | OpCompleteUpload(
        user: Uuid, w: Uuid, device: Uuid, attempt: string, completes: seq<CompleteRequest>,
        heads: map<string, HeadReply>, now: int)
    | OpDevUpload(
        user: Uuid, w: Uuid, device: Uuid, objectId: string, sha: string, size: int, blobMatches: bool, putFails: bool)
    | OpPublish(user: Uuid, params: PublishParams, skip: nat)
    | OpCollect(
        user: Uuid, w: Uuid, dryRun: bool, now: int, limit: int, locked: set<string>, orphans: seq<string>,
        blobFails: bool)
    | OpRecalculate(user: Uuid, w: Uuid)

  /** A transaction that fails leaves the database as it was. */
  function Committed(db: Db, r: Result<Db>): Db {
    if r.Ok? then r.value else db
  }

  ghost function Step(cfg: Config, verify: Verifier, db: Db, op: Op): Db {
    match op
    case OpCreateWorkspace(user, version, w) => Committed(db, CreateWorkspace(cfg, db, user, version, w))
    case OpDeleteWorkspace(user, w) => DeleteWorkspace(db, user, w)
    case OpDeleteAccount(user) => DeleteAccount(db, user)
    case OpRegisterDevice(user, w, device, key) => Committed(db, RegisterDevice(db, user, w, device, key))
    case OpReserve(user, w, device, requests, ids, now) =>
      Committed(db, Reserve(cfg, db, user, w, device, requests, ids, now))
    case OpCreateUpload(user, w, device, attempt, requests, now) =>
      Committed(db, CreateUploadBatch(cfg, db, user, w, device, attempt, requests, now))
    case OpCompleteUpload(user, w, device, attempt, requests, heads, now) =>
      var r := CompleteUploadBatch(cfg, db, user, w, device, attempt, requests, heads, now);
      if r.Ok? then r.value.0 else db
    case OpDevUpload(user, w, device, id, sha, size, blobMatches, putFails) =>
      Committed(db, UploadBytesDev(cfg, db, user, w, device, id, sha, size, blobMatches, putFails))
    case OpPublish(user, params, skip) =>
      var r := Publish(verify, db, user, params, skip);
      if r.Ok? then r.value.0 else db
    case OpCollect(user, w, dryRun, now, limit, locked, orphans, blobFails) =>
      if w in db.workspaces && OrphanListing(db.workspaces[w].objects, now, limit, locked, orphans)
      then Committed(db, Collect(db, user, w, dryRun, orphans, blobFails))
      else db
    case OpRecalculate(user, w) => Committed(db, Recalculate(db, user, w))
  }

  ghost function Run(cfg: Config, verify: Verifier, db: Db, ops: seq<Op>): Db
    decreases |ops|
  {
    if ops == [] then db else Run(cfg, verify, Step(cfg, verify, db, ops[0]), ops[1..])
  }

  // ----- The invariant

  predicate ValidConfig(cfg: Config) {
    0 <= cfg.maxWorkspaces && 0 <= cfg.maxPending && 0 <= cfg.maxPerWorkspace && 0 <= cfg.maxTotalPerUser
  }

  ghost predicate WorkspaceOk(cfg: Config, ws: Workspace) {
    && UsageOk(ws)
    && RowsOk(cfg, ws.objects)
    && LogOk(ws)
    && (!ws.deleted ==> AllHeld(ws))
  }

  predicate LogIn(w: Uuid, commits: seq<Commit>, nextSeq: nat) {
    forall i | 0 <= i < |commits| :: commits[i].workspace == w && commits[i].serverSeq < nextSeq
  }

  ghost predicate Inv(cfg: Config, db: Db) {
    && (forall w | w in db.workspaces :: WorkspaceOk(cfg, db.workspaces[w]))
    && (forall w | w in db.workspaces :: LogIn(w, db.workspaces[w].commits, db.nextSeq))
    && AccountsOk(db)
    && QuotasOk(cfg, db)
  }

  /** What a step may do to what is already there: workspaces stay, logs grow at the end, and in a workspace that is
      still live available objects stay as they are. */
  predicate WorkspaceGrows(before: Workspace, after: Workspace) {
    && after.owner == before.owner
    && before.commits <= after.commits
    && (!after.deleted ==> !before.deleted && RowsKept(before.objects, after.objects))
  }

  predicate Grows(before: Db, after: Db) {
    forall w | w in before.workspaces ::
      w in after.workspaces && WorkspaceGrows(before.workspaces[w], after.workspaces[w])
  }

  lemma GrowsTransitive(a: Db, b: Db, c: Db)
    requires Grows(a, b) && Grows(b, c)
    ensures Grows(a, c)
  {
    forall w | w in a.workspaces ensures w in c.workspaces && WorkspaceGrows(a.workspaces[w], c.workspaces[w]) {
      assert w in b.workspaces;
      assert WorkspaceGrows(a.workspaces[w], b.workspaces[w]) && WorkspaceGrows(b.workspaces[w], c.workspaces[w]);
    }
  }

  // ----- Each step keeps the invariant

  /** A write to one workspace and its owner's account keeps the invariant if it keeps the workspace's part, moves
      the account with the workspace, and stays within the limits. */
  lemma WriteKeeps(cfg: Config, db: Db, w: Uuid, ws: Workspace, account: Account, nextSeq: nat)
    requires Inv(cfg, db) && w in db.workspaces && !db.workspaces[w].deleted && db.nextSeq <= nextSeq
    requires ws.owner == db.workspaces[w].owner && !ws.deleted && WorkspaceOk(cfg, ws) && LogIn(w, ws.commits, nextSeq)
    requires db.workspaces[w].commits <= ws.commits && RowsKept(db.workspaces[w].objects, ws.objects)
    requires ws.owner in db.accounts
    requires var was := db.accounts[ws.owner];
             && account.workspaces == was.workspaces
             && account.storage - was.storage == ws.usage.storage - db.workspaces[w].usage.storage
             && account.pending - was.pending == ws.usage.pending - db.workspaces[w].usage.pending
    requires WorkspaceQuotaOk(cfg, ws.usage) && AccountQuotaOk(cfg, account)
    ensures var after := Write(db, w, ws, ws.owner, account).(nextSeq := nextSeq);
            Inv(cfg, after) && Grows(db, after)
  {
    hide WorkspaceOk, RowsKept, RecountAccount;
    AccountsFollow(db, w, ws, account);
    var after := Write(db, w, ws, ws.owner, account).(nextSeq := nextSeq);
    forall v | v in after.workspaces ensures LogIn(v, after.workspaces[v].commits, nextSeq) {
      if v != w { assert LogIn(v, db.workspaces[v].commits, db.nextSeq); }
    }
    forall v | v in db.workspaces ensures WorkspaceGrows(db.workspaces[v], after.workspaces[v]) {
      RowsKeptSelf(db.workspaces[v].objects);
    }
  }

  lemma RowsKeptSelf(objects: map<string, SyncObject>)
    ensures RowsKept(objects, objects)
  {
  }

  lemma GrowsSelf(db: Db)
    ensures Grows(db, db)
  {
  }

  lemma HeldStays(ws: Workspace, objects: map<string, SyncObject>)
    requires AllHeld(ws) && RowsKept(ws.objects, objects)
    ensures AllHeld(ws.(objects := objects))
  {
    forall i | 0 <= i < |ws.commits| ensures ObjectsHeld(objects, ws.commits[i]) {
      assert ObjectsHeld(ws.objects, ws.commits[i]);
    }
  }

  lemma LogStays(ws: Workspace, objects: map<string, SyncObject>, usage: Usage)
    requires LogOk(ws) && RowsKept(ws.objects, objects)
    ensures LogOk(ws.(objects := objects, usage := usage))
  {
    hide Chained, SeqsRise, LastSeqsOk, CursorsOk;
    var after := ws.(objects := objects, usage := usage);
    assert Chained(after.commits) && HeadOk(after);
    assert SeqsRise(after) && LastSeqsOk(after) && CursorsOk(after) by { LogStaysRest(ws, after); }
  }

  lemma LogStaysRest(ws: Workspace, after: Workspace)
    requires SeqsRise(ws) && LastSeqsOk(ws) && CursorsOk(ws)
    requires after.commits == ws.commits && after.devices == ws.devices && after.cursors == ws.cursors
    ensures SeqsRise(after) && LastSeqsOk(after) && CursorsOk(after)
  {
  }

  /** Changing only object rows and their counters. */
  lemma ObjectsChange(cfg: Config, ws: Workspace, objects: map<string, SyncObject>, usage: Usage)
    requires WorkspaceOk(cfg, ws) && !ws.deleted
    requires RowsKept(ws.objects, objects) && RowsOk(cfg, objects) && usage == Recount(objects)
    ensures WorkspaceOk(cfg, ws.(objects := objects, usage := usage))
  {
    HeldStays(ws, objects);
    LogStays(ws, objects, usage);
    assert AllHeld(ws.(objects := objects, usage := usage));
  }

  /** What the invariant says about a live workspace and its owner's account. */
  lemma InvAt(cfg: Config, db: Db, w: Uuid)
    requires Inv(cfg, db) && w in db.workspaces && !db.workspaces[w].deleted
    ensures var ws := db.workspaces[w];
            && WorkspaceOk(cfg, ws) && ws.usage == Recount(ws.objects) && RowsOk(cfg, ws.objects)
            && LogOk(ws) && AllHeld(ws) && LogIn(w, ws.commits, db.nextSeq)
            && ws.owner in db.accounts && db.accounts[ws.owner] == RecountAccount(db.workspaces, ws.owner)
            && WorkspaceQuotaOk(cfg, ws.usage) && AccountQuotaOk(cfg, db.accounts[ws.owner])
  {
  }

  /** A write of object rows and counters to a live workspace and its owner's account. */
  lemma ObjectsWriteKeeps(
      cfg: Config, db: Db, w: Uuid, objects: map<string, SyncObject>, usage: Usage, account: Account)
    requires Inv(cfg, db) && w in db.workspaces && !db.workspaces[w].deleted && db.workspaces[w].owner in db.accounts
    requires var ws := db.workspaces[w];
             && RowsKept(ws.objects, objects) && RowsOk(cfg, objects) && usage == Recount(objects)
             && var was := db.accounts[ws.owner];
             && account.workspaces == was.workspaces
             && account.storage - was.storage == usage.storage - ws.usage.storage
             && account.pending - was.pending == usage.pending - ws.usage.pending
             && WorkspaceQuotaOk(cfg, usage) && AccountQuotaOk(cfg, account)
    ensures var ws := db.workspaces[w];
            var after := Write(db, w, ws.(objects := objects, usage := usage), ws.owner, account);
            Inv(cfg, after) && Grows(db, after)
  {
    hide RowsKept, RowsOk, Recount, RecountAccount, LogOk, UsageOk, AllHeld, Grows;
    InvAt(cfg, db, w);
    var ws := db.workspaces[w];
    hide WorkspaceOk, LogIn;
    ObjectsChange(cfg, ws, objects, usage);
    assert ws.commits <= ws.commits;
    hide Inv;
    WriteKeeps(cfg, db, w, ws.(objects := objects, usage := usage), account, db.nextSeq);
  }

  lemma ReserveKeeps(
      cfg: Config, db: Db, user: Uuid, w: Uuid, device: Uuid, requests: seq<ReserveRequest>, ids: seq<string>, now: int)
    requires Inv(cfg, db) && Reserve(cfg, db, user, w, device, requests, ids, now).Ok?
    ensures var after := Reserve(cfg, db, user, w, device, requests, ids, now).value;
            Inv(cfg, after) && Grows(db, after)
  {
    hide Inv, Grows, RowsKept, RowsOk, Recount, RecountAccount, LogOk, WorkspaceOk, AllHeld, ReserveAll, LogIn;
    var ws := db.workspaces[w];
    InvAt(cfg, db, w);
    ReserveAllKeeps(ws.objects, cfg, device, requests, ids, now);
    var objects := ReserveAll(ws.objects, cfg, device, requests, ids, now).value;
    ObjectsWriteKeeps(cfg, db, w, objects, ws.usage, db.accounts[user]);
    assert db.accounts[user := db.accounts[user]] == db.accounts;
    assert ws.(objects := objects, usage := ws.usage) == ws.(objects := objects);
  }

  lemma CreateUploadKeeps(
      cfg: Config, db: Db, user: Uuid, w: Uuid, device: Uuid, attempt: string, rawRequests: seq<UploadRequest>,
      now: int)
    requires Inv(cfg, db) && CreateUploadBatch(cfg, db, user, w, device, attempt, rawRequests, now).Ok?
    ensures var after := CreateUploadBatch(cfg, db, user, w, device, attempt, rawRequests, now).value;
            Inv(cfg, after) && Grows(db, after)
  {
    hide Inv, Grows, RowsKept, RowsOk, Recount, RecountAccount, LogOk, WorkspaceOk, AllHeld, LogIn, Trim,
      CleanUploads, BatchCheck;
    hide MarkedPending, AddedBytes;
    var requests := CleanUploads(rawRequests);
    var ws := db.workspaces[w];
    var expires := now + cfg.pendingAge;
    InvAt(cfg, db, w);
    CreateBatchKeeps(cfg, ws, device, requests, now, expires);
    var objects := MarkedPending(ws.objects, requests, |requests|, expires);
    var added := AddedBytes(ws, requests, |requests|);
    var account := db.accounts[user];
    QuotaCheckExact(cfg, account, ws.usage, added);
    ObjectsWriteKeeps(
      cfg, db, w, objects, ws.usage.(pending := ws.usage.pending + added),
        account.(pending := account.pending + added));
  }

  lemma CompleteUploadKeeps(
      cfg: Config, db: Db, user: Uuid, w: Uuid, device: Uuid, attempt: string,
      rawRequests: seq<CompleteRequest>, heads: map<string, HeadReply>, now: int)
    requires Inv(cfg, db) && CompleteUploadBatch(cfg, db, user, w, device, attempt, rawRequests, heads, now).Ok?
    ensures var after := CompleteUploadBatch(cfg, db, user, w, device, attempt, rawRequests, heads, now).value.0;
            Inv(cfg, after) && Grows(db, after)
  {
    hide Inv, Grows, RowsKept, RowsOk, Recount, RecountAccount, LogOk, WorkspaceOk, AllHeld, LogIn, Trim,
      CleanCompletes, CompleteFirst;
    var requests := CleanCompletes(rawRequests);
    var ws := db.workspaces[w];
    InvAt(cfg, db, w);
    var start := Tx(ws.objects, ws.usage, db.accounts[user], []);
    CompleteFirstKeeps(cfg, start, device, requests, |requests|, heads, now);
    var tx := CompleteFirst(start, device, requests, |requests|, heads, now).value;
    ObjectsWriteKeeps(cfg, db, w, tx.objects, tx.usage, tx.account);
  }

  lemma DevUploadKeeps(
      cfg: Config, db: Db, user: Uuid, w: Uuid, device: Uuid,
      id: string, sha: string, size: int, blobMatches: bool, putFails: bool)
    requires Inv(cfg, db) && UploadBytesDev(cfg, db, user, w, device, id, sha, size, blobMatches, putFails).Ok?
    ensures var after := UploadBytesDev(cfg, db, user, w, device, id, sha, size, blobMatches, putFails).value;
            Inv(cfg, after) && Grows(db, after)
  {
    hide Inv, Grows, Recount, RecountAccount, LogOk, WorkspaceOk, AllHeld, LogIn, NormalDigest, IsSha256Hex;
    var ws := db.workspaces[w];
    var o := ws.objects[id];
    InvAt(cfg, db, w);
    GrowsSelf(db);
    if o.state != Available {
      // A row of the local store is never Pending, so nothing was charged for it yet.
      assert o.state == Reserved && cfg.provider == Local;
      var next := AfterDevUpload(ws, id, NormalDigest(sha), size);
      LocalNothingPending(cfg, ws.objects);
      DevUploadUsage(ws, id, NormalDigest(sha), size);
      var account := db.accounts[user];
      LocalAccountNothingPending(cfg, db, user);
      ObjectsWriteKeeps(cfg, db, w, next.objects, next.usage, account.(storage := account.storage + size));
      assert next == ws.(objects := next.objects, usage := next.usage);
    }
  }

  lemma LocalNothingPending(cfg: Config, objects: map<string, SyncObject>)
    requires cfg.provider == Local && RowsOk(cfg, objects)
    ensures Recount(objects).pending == 0
  {
    TotalZero(objects, PendingBytes);
  }

  lemma LocalAccountNothingPending(cfg: Config, db: Db, user: Uuid)
    requires cfg.provider == Local && Inv(cfg, db)
    ensures RecountAccount(db.workspaces, user).pending == 0
  {
    forall w | w in db.workspaces ensures LivePending(user)(db.workspaces[w]) == 0 {
      assert WorkspaceOk(cfg, db.workspaces[w]);
      LocalNothingPending(cfg, db.workspaces[w].objects);
    }
    TotalZero(db.workspaces, LivePending(user));
  }

  // ----- Workspaces, devices and accounts keep it

  lemma {:induction false} TotalNonNegative<K(!new), V>(m: map<K, V>, weight: V -> int)
    requires forall k | k in m :: weight(m[k]) >= 0
    ensures Total(m, weight) >= 0
    decreases |m|
  {
    if m != map[] {
      var k :| k in m;
      TotalRemove(m, k, weight);
      TotalNonNegative(m - {k}, weight);
    }
  }

  lemma UsageNonNegative(cfg: Config, ws: Workspace)
    requires UsageOk(ws) && RowsOk(cfg, ws.objects)
    ensures ws.usage.storage >= 0 && ws.usage.pending >= 0
  {
    TotalNonNegative(ws.objects, AvailableBytes);
    TotalNonNegative(ws.objects, PendingBytes);
  }

  /** A user without an account row has no live workspace. */
  lemma NoAccountNothingLive(db: Db, user: Uuid)
    requires AccountsOk(db) && user !in db.accounts
    ensures RecountAccount(db.workspaces, user) == Account(0, 0, 0)
  {
    TotalZero(db.workspaces, LiveOne(user));
    TotalZero(db.workspaces, LiveStorage(user));
    TotalZero(db.workspaces, LivePending(user));
  }

  lemma EnsureAccountKeeps(cfg: Config, db: Db, user: Uuid)
    requires ValidConfig(cfg) && Inv(cfg, db)
    ensures Inv(cfg, EnsureAccount(db, user))
    ensures EnsureAccount(db, user).accounts[user] == RecountAccount(db.workspaces, user)
    ensures Grows(db, EnsureAccount(db, user))
  {
    hide WorkspaceOk, LogIn, RecountAccount;
    if user !in db.accounts { NoAccountNothingLive(db, user); }
  }

  lemma EmptyWorkspaceOk(cfg: Config, user: Uuid)
    ensures WorkspaceOk(cfg, EmptyWorkspace(user))
  {
  }

  lemma CreateWorkspaceKeeps(cfg: Config, db: Db, user: Uuid, version: string, id: Uuid)
    requires ValidConfig(cfg) && Inv(cfg, db) && CreateWorkspace(cfg, db, user, version, id).Ok?
    ensures var after := CreateWorkspace(cfg, db, user, version, id).value;
            Inv(cfg, after) && Grows(db, after)
  {
    hide WorkspaceOk, LogIn, RecountAccount, Trim, AccountsOk, QuotasOk, WorkspaceGrows;
    EnsureAccountKeeps(cfg, db, user);
    EmptyWorkspaceOk(cfg, user);
    LogInEmpty(id, db.nextSeq);
    var after := CreateWorkspace(cfg, db, user, version, id).value;
    CreatedAccounts(cfg, EnsureAccount(db, user), user, id);
    assert after == Write(EnsureAccount(db, user), id, EmptyWorkspace(user), user, after.accounts[user]);
    forall w | w in db.workspaces ensures WorkspaceGrows(db.workspaces[w], after.workspaces[w]) {
      GrowsInPlace(db.workspaces[w]);
    }
  }

  lemma GrowsInPlace(ws: Workspace)
    ensures WorkspaceGrows(ws, ws)
  {
  }

  lemma CreatedAccounts(cfg: Config, db: Db, user: Uuid, id: Uuid)
    requires ValidConfig(cfg) && AccountsOk(db) && QuotasOk(cfg, db)
    requires user in db.accounts && id !in db.workspaces && db.accounts[user].workspaces < cfg.maxWorkspaces
    ensures var account := db.accounts[user];
            var after := Write(db, id, EmptyWorkspace(user), user, account.(workspaces := account.workspaces + 1));
            AccountsOk(after) && QuotasOk(cfg, after)
  {
    hide RecountAccount;
    forall u | u in db.accounts {
      RecountNewWorkspace(db.workspaces, id, user, u);
    }
  }

  lemma LogInEmpty(w: Uuid, nextSeq: nat)
    ensures LogIn(w, [], nextSeq)
  {
  }

  lemma RecountNewWorkspace(workspaces: map<Uuid, Workspace>, id: Uuid, owner: Uuid, user: Uuid)
    requires id !in workspaces
    ensures RecountAccount(workspaces[id := EmptyWorkspace(owner)], user)
         == var a := RecountAccount(workspaces, user);
            if user == owner then a.(workspaces := a.workspaces + 1) else a
  {
    TotalUpdate(workspaces, id, EmptyWorkspace(owner), LiveOne(user));
    TotalUpdate(workspaces, id, EmptyWorkspace(owner), LiveStorage(user));
    TotalUpdate(workspaces, id, EmptyWorkspace(owner), LivePending(user));
  }

  lemma {:induction false} LastByNone(commits: seq<Commit>, d: Uuid)
    requires forall i | 0 <= i < |commits| :: commits[i].author != d
    ensures LastBy(commits, d).None?
  {
    if commits != [] { LastByNone(commits[..|commits| - 1], d); }
  }

  lemma RegisterDeviceKeeps(cfg: Config, db: Db, user: Uuid, w: Uuid, id: Uuid, signingKey: Bytes)
    requires Inv(cfg, db) && RegisterDevice(db, user, w, id, signingKey).Ok?
    ensures var after := RegisterDevice(db, user, w, id, signingKey).value;
            Inv(cfg, after) && Grows(db, after)
  {
    hide Inv, Grows, Recount, RecountAccount;
    InvAt(cfg, db, w);
    var ws := db.workspaces[w];
    var next := ws.(devices := ws.devices[id := Device(user, signingKey, 0, false)]);
    LastByNone(ws.commits, id);
    DevicesAdded(ws, next, id);
    RowsKeptSelf(ws.objects);
    WriteKeeps(cfg, db, w, next, db.accounts[user], db.nextSeq);
    assert db.accounts[user := db.accounts[user]] == db.accounts;
  }

  lemma DevicesAdded(ws: Workspace, next: Workspace, id: Uuid)
    requires LogOk(ws) && id !in ws.devices && LastBy(ws.commits, id).None?
    requires id in next.devices && next.devices[id].lastSeq == 0
    requires next == ws.(devices := ws.devices[id := next.devices[id]])
    ensures LogOk(next)
  {
    hide Chained, LastBy, LastCheckpointBy, Earlier;
    assert SeqsRise(next);
    assert LinksOk(next) && HeadOk(next);
    forall d | d in next.devices
      ensures next.devices[d].lastSeq == (if LastBy(ws.commits, d).Some?
          then LastBy(ws.commits, d).value.deviceSeq else 0)
    {}
    assert CursorsOk(next);
  }

  lemma DeleteWorkspaceKeeps(cfg: Config, db: Db, user: Uuid, w: Uuid)
    requires ValidConfig(cfg) && Inv(cfg, db)
    ensures Inv(cfg, DeleteWorkspace(db, user, w)) && Grows(db, DeleteWorkspace(db, user, w))
  {
    hide Grows, LogIn, RecountAccount, RowsOk, LogOk, Recount, QuotasOk, AccountsOk;
    var ensured := EnsureAccount(db, user);
    EnsureAccountKeeps(cfg, db, user);
    if Authorize(db, user, w).Ok? {
      var ws := db.workspaces[w];
      assert WorkspaceOk(cfg, ws);
      UsageNonNegative(cfg, ws);
      GoneStillOk(cfg, ws);
      hide WorkspaceOk;
      DeletedAccounts(cfg, ensured, user, w);
      DeletedGrows(db, w);
      var after := DeleteWorkspace(db, user, w);
      assert after.accounts == ensured.accounts[user := after.accounts[user]];
      assert LogIn(w, ws.commits, db.nextSeq);
    } else {
      assert ensured.accounts[user := ensured.accounts[user]] == ensured.accounts;
    }
  }

  lemma DeletedGrows(db: Db, w: Uuid)
    requires w in db.workspaces
    ensures forall after: Db | after.workspaces == db.workspaces[w := db.workspaces[w].(deleted := true)] ::
        Grows(db, after)
  {
  }

  lemma GoneStillOk(cfg: Config, ws: Workspace)
    requires WorkspaceOk(cfg, ws)
    ensures WorkspaceOk(cfg, ws.(deleted := true))
  {
    LogStaysRest(ws, ws.(deleted := true));
  }

  lemma DeletedAccounts(cfg: Config, db: Db, user: Uuid, w: Uuid)
    requires AccountsOk(db) && QuotasOk(cfg, db) && user in db.accounts
    requires w in db.workspaces && Live(user, db.workspaces[w])
    requires db.workspaces[w].usage.storage >= 0 && db.workspaces[w].usage.pending >= 0
    ensures var workspaces := db.workspaces[w := db.workspaces[w].(deleted := true)];
            var after := Db(db.accounts[user := RecountAccount(workspaces, user)], workspaces, db.nextSeq);
            AccountsOk(after) && QuotasOk(cfg, after)
  {
    hide RecountAccount;
    var gone := db.workspaces[w].(deleted := true);
    forall u {
      RecountAccountUpdate(db.workspaces, w, gone, u);
    }
  }

  lemma WipedOk(cfg: Config, ws: Workspace)
    requires WorkspaceOk(cfg, ws)
    ensures WorkspaceOk(cfg, Wiped(ws))
  {
    var after := Wiped(ws);
    TotalZero(after.objects, AvailableBytes);
    TotalZero(after.objects, AvailableOne);
    TotalZero(after.objects, PendingBytes);
    WipedLog(ws);
  }

  lemma WipedLog(ws: Workspace)
    requires LogOk(ws)
    ensures LogOk(Wiped(ws))
  {
    hide Chained, LastBy, LastCheckpointBy;
    var after := Wiped(ws);
    assert HeadOk(after) && LinksOk(after);
    assert SeqsRise(after) && LastSeqsOk(after) && CursorsOk(after);
  }

  lemma DeleteAccountKeeps(cfg: Config, db: Db, user: Uuid)
    requires ValidConfig(cfg) && Inv(cfg, db)
    ensures Inv(cfg, DeleteAccount(db, user)) && Grows(db, DeleteAccount(db, user))
  {
    hide WorkspaceOk, RecountAccount, AccountsOk, QuotasOk;
    var after := DeleteAccount(db, user);
    forall w | w in db.workspaces
      ensures WorkspaceOk(cfg, after.workspaces[w])
      ensures LogIn(w, after.workspaces[w].commits, after.nextSeq)
      ensures WorkspaceGrows(db.workspaces[w], after.workspaces[w])
    {
      assert WorkspaceOk(cfg, db.workspaces[w]) && LogIn(w, db.workspaces[w].commits, db.nextSeq);
      WipedOk(cfg, db.workspaces[w]);
    }
    DeletedAccountAccounts(cfg, db, user);
  }

  lemma DeletedAccountAccounts(cfg: Config, db: Db, user: Uuid)
    requires ValidConfig(cfg) && AccountsOk(db) && QuotasOk(cfg, db)
    ensures AccountsOk(DeleteAccount(db, user)) && QuotasOk(cfg, DeleteAccount(db, user))
  {
    hide RecountAccount;
    forall u {
      DeletedAccountRecount(db, user, u);
    }
  }

  lemma DeletedAccountRecount(db: Db, user: Uuid, u: Uuid)
    ensures RecountAccount(DeleteAccount(db, user).workspaces, u)
         == if u == user then Account(0, 0, 0) else RecountAccount(db.workspaces, u)
  {
    var after := DeleteAccount(db, user).workspaces;
    if u == user {
      TotalZero(after, LiveOne(u));
      TotalZero(after, LiveStorage(u));
      TotalZero(after, LivePending(u));
    } else {
      TotalSame(after, db.workspaces, LiveOne(u));
      TotalSame(after, db.workspaces, LiveStorage(u));
      TotalSame(after, db.workspaces, LivePending(u));
    }
  }

  // ----- Publishing keeps it

  lemma PublishKeeps(cfg: Config, verify: Verifier, db: Db, user: Uuid, p: PublishParams, skip: nat)
    requires Inv(cfg, db) && Publish(verify, db, user, p, skip).Ok?
    ensures var after := Publish(verify, db, user, p, skip).value.0;
            Inv(cfg, after) && Grows(db, after)
  {
    hide Inv, Grows, Recount, RecountAccount, Cleaned, IsSha256Hex, PublishCheck, LogOk, AllHeld, AfterPublish, RowsOk;
    var n := Normalize(p).value;
    var w := n.workspace;
    var ws := db.workspaces[w];
    GrowsSelf(db);
    if FindCommit(ws.commits, n.commitId).None? {
      InvAt(cfg, db, w);
      var c := RowOf(n, db.nextSeq + skip);
      PublishExtends(verify, ws, user, p, db.nextSeq + skip);
      var next := AfterPublish(ws, c);
      PublishedRest(ws, c);
      assert LogIn(w, next.commits, db.nextSeq + skip + 1);
      RowsKeptSelf(ws.objects);
      WriteKeeps(cfg, db, w, next, db.accounts[user], db.nextSeq + skip + 1);
      assert db.accounts[user := db.accounts[user]] == db.accounts;
    }
  }

  lemma PublishedRest(ws: Workspace, c: Commit)
    requires c.author in ws.devices && forall o | o in c.referenced :: o in ws.objects
    ensures var next := AfterPublish(ws, c);
            && next.owner == ws.owner && next.deleted == ws.deleted && next.objects == ws.objects
            && next.usage == ws.usage
            && next.commits == ws.commits + [c]
  {
  }

  // ----- Collecting keeps it

  lemma {:induction false} MarkedDeletedRows(objects: map<string, SyncObject>, ids: seq<string>)
    requires forall id | id in ids :: id in objects
    ensures var after := MarkedDeleted(objects, ids);
            && after.Keys == objects.Keys
            && (forall id | id in objects :: after[id] == if id in ids then WipedObject(objects[id]) else objects[id])
  {
    if ids != [] {
      var n := |ids| - 1;
      MarkedDeletedRows(objects, ids[..n]);
      assert ids == ids[..n] + [ids[n]];
    }
  }

  lemma {:induction false} MarkedDeletedUsage(cfg: Config, objects: map<string, SyncObject>, ids: seq<string>)
    requires forall id | id in ids :: id in objects && objects[id].state != Available
    requires RowsOk(cfg, objects)
    ensures var before, after := Recount(objects), Recount(MarkedDeleted(objects, ids));
            after.storage == before.storage && after.count == before.count && after.pending <= before.pending
  {
    hide Recount;
    if ids != [] {
      var n := |ids| - 1;
      MarkedDeletedUsage(cfg, objects, ids[..n]);
      MarkedDeletedRows(objects, ids[..n]);
      MarkOneDeleted(cfg, MarkedDeleted(objects, ids[..n]), ids[n], objects[ids[n]]);
    }
  }

  lemma MarkedDeletedKeeps(cfg: Config, objects: map<string, SyncObject>, ids: seq<string>)
    requires forall id | id in ids :: id in objects && objects[id].state != Available
    requires RowsOk(cfg, objects)
    ensures var after := MarkedDeleted(objects, ids);
            && RowsKept(objects, after) && RowsOk(cfg, after)
            && Recount(after).storage == Recount(objects).storage
            && Recount(after).pending <= Recount(objects).pending
  {
    hide Recount, MarkedDeleted;
    MarkedDeletedRows(objects, ids);
    MarkedDeletedUsage(cfg, objects, ids);
  }

  lemma MarkOneDeleted(cfg: Config, objects: map<string, SyncObject>, id: string, o: SyncObject)
    requires id in objects && objects[id].state != Available && RowsOk(cfg, objects)
    ensures var before, after := Recount(objects), Recount(objects[id := WipedObject(o)]);
            after.storage == before.storage && after.count == before.count && after.pending <= before.pending
  {
    RecountUpdate(objects, id, WipedObject(o));
  }

  lemma CollectKeeps(
      cfg: Config, db: Db, user: Uuid, w: Uuid, dryRun: bool,
      now: int, limit: int, locked: set<string>, orphans: seq<string>, blobFails: bool)
    requires ValidConfig(cfg) && Inv(cfg, db) && w in db.workspaces
    requires OrphanListing(db.workspaces[w].objects, now, limit, locked, orphans)
    requires Collect(db, user, w, dryRun, orphans, blobFails).Ok?
    ensures var after := Collect(db, user, w, dryRun, orphans, blobFails).value;
            Inv(cfg, after) && Grows(db, after)
  {
    hide Inv, Grows, Recount, RecountAccount, RowsOk, RowsKept, LogOk, WorkspaceOk, AllHeld, LogIn, LexLe;
    EnsureAccountKeeps(cfg, db, user);
    InvAt(cfg, db, w);
    if !dryRun && orphans != [] {
      var ws := db.workspaces[w];
      var objects := MarkedDeleted(ws.objects, orphans);
      MarkedDeletedKeeps(cfg, ws.objects, orphans);
      var next := ws.(objects := objects, usage := Recount(objects));
      RecountAccountUpdate(db.workspaces, w, next, user);
      ObjectsWriteKeeps(cfg, db, w, objects, Recount(objects), RecountAccount(db.workspaces[w := next], user));
    }
  }

  /** No commit of the workspace names the object, neither as its body nor among its references. */
  predicate Unneeded(ws: Workspace, id: string) {
    && (forall i | 0 <= i < |ws.commits| :: ws.commits[i].bodyId != id && id !in ws.commits[i].referenced)
    && (forall l | l in ws.links :: l.objectId != id)
  }

  lemma NeededIsAvailable(ws: Workspace, id: string)
    requires AllHeld(ws) && LinksOk(ws) && id in ws.objects && ws.objects[id].state != Available
    ensures Unneeded(ws, id)
  {
    forall i | 0 <= i < |ws.commits| ensures ws.commits[i].bodyId != id && id !in ws.commits[i].referenced {
      assert ObjectsHeld(ws.objects, ws.commits[i]);
    }
    forall l | l in ws.links ensures l.objectId != id {
      var i :| 0 <= i < |ws.commits| && LinkOf(ws.commits[i], l);
      assert ObjectsHeld(ws.objects, ws.commits[i]);
    }
  }

  /** Wiping the listed rows leaves every other row and workspace as it was. */
  predicate WipesOnly(db: Db, after: Db, w: Uuid, ids: seq<string>)
    requires w in db.workspaces
  {
    && after.workspaces.Keys == db.workspaces.Keys && after.nextSeq == db.nextSeq
    && (forall v | v in db.workspaces && v != w :: after.workspaces[v] == db.workspaces[v])
    && var was, now := db.workspaces[w], after.workspaces[w];
    && now == was.(objects := now.objects, usage := now.usage) && now.objects.Keys == was.objects.Keys
    && forall id | id in was.objects ::
         now.objects[id] == if id in ids then WipedObject(was.objects[id]) else was.objects[id]
  }

  lemma CollectWipes(db: Db, user: Uuid, w: Uuid, dryRun: bool, orphans: seq<string>, blobFails: bool)
    requires w in db.workspaces && forall id | id in orphans :: id in db.workspaces[w].objects
    requires Collect(db, user, w, dryRun, orphans, blobFails).Ok?
    ensures !db.workspaces[w].deleted
    ensures WipesOnly(db, Collect(db, user, w, dryRun, orphans, blobFails).value, w, if dryRun then [] else orphans)
  {
    hide Recount, RecountAccount, MarkedDeleted;
    MarkedDeletedRows(db.workspaces[w].objects, orphans);
  }

  /** A collection wipes exactly the listed rows: each had expired unfinished, and no commit needs it. */
  lemma CollectWipesOrphansOnly(
      cfg: Config, db: Db, user: Uuid, w: Uuid, dryRun: bool,
      now: int, limit: int, locked: set<string>, orphans: seq<string>, blobFails: bool)
    requires ValidConfig(cfg) && Inv(cfg, db) && w in db.workspaces
    requires OrphanListing(db.workspaces[w].objects, now, limit, locked, orphans)
    requires Collect(db, user, w, dryRun, orphans, blobFails).Ok?
    ensures WipesOnly(db, Collect(db, user, w, dryRun, orphans, blobFails).value, w, if dryRun then [] else orphans)
    ensures forall id | id in orphans ::
              Eligible(db.workspaces[w].objects[id], now) && Unneeded(db.workspaces[w], id)
  {
    hide WipesOnly, Unneeded, Inv, AllHeld, LinksOk, Eligible, ListedBefore, Collect;
    CollectWipes(db, user, w, dryRun, orphans, blobFails);
    HeldIn(cfg, db, w);
    ListedUnneeded(db.workspaces[w], now, limit, locked, orphans);
  }

  lemma HeldIn(cfg: Config, db: Db, w: Uuid)
    requires Inv(cfg, db) && w in db.workspaces && !db.workspaces[w].deleted
    ensures AllHeld(db.workspaces[w]) && LinksOk(db.workspaces[w])
  {
    hide AllHeld, LinksOk, Chained, SeqsRise, LastSeqsOk, CursorsOk, RowsOk, Recount, LogIn, AccountsOk, QuotasOk;
    assert WorkspaceOk(cfg, db.workspaces[w]);
  }

  lemma ListedUnneeded(ws: Workspace, now: int, limit: int, locked: set<string>, orphans: seq<string>)
    requires AllHeld(ws) && LinksOk(ws) && OrphanListing(ws.objects, now, limit, locked, orphans)
    ensures forall id | id in orphans :: Unneeded(ws, id)
  {
    hide AllHeld, LinksOk, Unneeded, ListedBefore;
    forall id | id in orphans ensures Unneeded(ws, id) {
      NeededIsAvailable(ws, id);
    }
  }

  /** In a state the invariant describes, recounting finds nothing to correct. */
  lemma RecalculateChangesNothing(cfg: Config, db: Db, user: Uuid, w: Uuid)
    requires Inv(cfg, db) && Authorize(db, user, w).Ok?
    ensures Recalculate(db, user, w) == Ok(db)
  {
    hide Recount, RecountAccount, LogOk, AllHeld, RowsOk, LogIn;
    InvAt(cfg, db, w);
    var ws := db.workspaces[w];
    assert ws.(usage := Recount(ws.objects)) == ws;
    assert db.workspaces[w := ws] == db.workspaces;
    assert db.accounts[user := db.accounts[user]] == db.accounts;
  }

  // ----- Every step, every run

  lemma StepKeeps(cfg: Config, verify: Verifier, db: Db, op: Op)
    requires ValidConfig(cfg) && Inv(cfg, db)
    ensures Inv(cfg, Step(cfg, verify, db, op)) && Grows(db, Step(cfg, verify, db, op))
  {
    hide Inv, Grows, CreateWorkspace, DeleteWorkspace, DeleteAccount, RegisterDevice, Reserve, CreateUploadBatch;
    hide CompleteUploadBatch, UploadBytesDev, Publish, Collect, OrphanListing;
    GrowsSelf(db);
    match op
    case OpCreateWorkspace(user, version, w) =>
      if CreateWorkspace(cfg, db, user, version, w).Ok? { CreateWorkspaceKeeps(cfg, db, user, version, w); }
    case OpDeleteWorkspace(user, w) => DeleteWorkspaceKeeps(cfg, db, user, w);
    case OpDeleteAccount(user) => DeleteAccountKeeps(cfg, db, user);
    case OpRegisterDevice(user, w, device, key) =>
      if RegisterDevice(db, user, w, device, key).Ok? { RegisterDeviceKeeps(cfg, db, user, w, device, key); }
    case OpReserve(user, w, device, requests, ids, now) =>
      if Reserve(cfg, db, user, w, device, requests, ids, now).Ok? {
        ReserveKeeps(cfg, db, user, w, device, requests, ids, now);
      }
    case OpCreateUpload(user, w, device, attempt, requests, now) =>
      if CreateUploadBatch(cfg, db, user, w, device, attempt, requests, now).Ok? {
        CreateUploadKeeps(cfg, db, user, w, device, attempt, requests, now);
      }
    case OpCompleteUpload(user, w, device, attempt, requests, heads, now) =>
      if CompleteUploadBatch(cfg, db, user, w, device, attempt, requests, heads, now).Ok? {
        CompleteUploadKeeps(cfg, db, user, w, device, attempt, requests, heads, now);
      }
    case OpDevUpload(user, w, device, id, sha, size, blobMatches, putFails) =>
      if UploadBytesDev(cfg, db, user, w, device, id, sha, size, blobMatches, putFails).Ok? {
        DevUploadKeeps(cfg, db, user, w, device, id, sha, size, blobMatches, putFails);
      }
    case OpPublish(user, params, skip) =>
      if Publish(verify, db, user, params, skip).Ok? { PublishKeeps(cfg, verify, db, user, params, skip); }
    case OpCollect(user, w, dryRun, now, limit, locked, orphans, blobFails) =>
      if w in db.workspaces && OrphanListing(db.workspaces[w].objects, now, limit, locked, orphans) {
        ListingHolds(db.workspaces[w].objects, now, limit, locked, orphans);
        if Collect(db, user, w, dryRun, orphans, blobFails).Ok? {
          CollectKeeps(cfg, db, user, w, dryRun, now, limit, locked, orphans, blobFails);
        }
      }
    case OpRecalculate(user, w) =>
      if Authorize(db, user, w).Ok? { RecalculateChangesNothing(cfg, db, user, w); }
  }

  lemma ListingHolds(objects: map<string, SyncObject>, now: int, limit: int, locked: set<string>, orphans: seq<string>)
    requires OrphanListing(objects, now, limit, locked, orphans)
    ensures forall id | id in orphans :: id in objects
  {
  }

  lemma {:induction false} RunKeeps(cfg: Config, verify: Verifier, db: Db, ops: seq<Op>)
    requires ValidConfig(cfg) && Inv(cfg, db)
    ensures Inv(cfg, Run(cfg, verify, db, ops)) && Grows(db, Run(cfg, verify, db, ops))
    decreases |ops|
  {
    hide Inv, Grows, Step;
    if ops == [] {
      GrowsSelf(db);
    } else {
      var next := Step(cfg, verify, db, ops[0]);
      StepKeeps(cfg, verify, db, ops[0]);
      RunKeeps(cfg, verify, next, ops[1..]);
      GrowsTransitive(db, next, Run(cfg, verify, next, ops[1..]));
    }
  }
}
