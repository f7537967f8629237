/**
 Object reservation and upload (presign.go, and ReserveObjectIDs and UploadObjectBytesDev of
 service.go): the life of an object row and the bytes charged for it.
 */
module SyncUploads {
  import opened Text
  import opened SyncRows
  import opened SyncUsage

  const MAX_OBJECT_TRANSFER_BATCH := 100

  // ----- Reserve

  datatype ReserveRequest = ReserveRequest(clientRef: string, kind: Option<ObjectKind>)

  /** ReserveObjectIDs; ids are the freshly drawn random object ids, one per request. */
  function Reserve(
      cfg: Config, db: Db, user: Uuid, w: Uuid, device: Uuid,
      requests: seq<ReserveRequest>, ids: seq<string>, now: int): Result<Db>
  {
    var batchOk := 1 <= |requests| <= MAX_OBJECT_TRANSFER_BATCH;
    :- Need(batchOk, InvalidArgument);
    var ws :- Authorize(db, user, w);
    :- Need(ActiveDevice(ws, user, device), PermissionDenied);
    :- Need(|ids| == |requests|, StoreUnavailable);
    var objects :- ReserveAll(ws.objects, cfg, device, requests, ids, now);
    Ok(db.(workspaces := db.workspaces[w := ws.(objects := objects)]))
  }

  function ReservedRow(cfg: Config, kind: ObjectKind, device: Uuid, now: int): SyncObject {
    SyncObject(kind, cfg.provider, "", 0, Reserved, device, Some(now + cfg.pendingAge), None)
  }

  function ReserveAll(
      objects: map<string, SyncObject>, cfg: Config, device: Uuid,
      requests: seq<ReserveRequest>, ids: seq<string>, now: int): Result<map<string, SyncObject>>
    requires |ids| == |requests|
    decreases |requests|
  {
    if requests == [] then Ok(objects) else
      :- Need(Trim(requests[0].clientRef) != "" && requests[0].kind.Some?, InvalidArgument);
      :- Need(ids[0] !in objects, UniqueViolation);
      ReserveAll(
        objects[ids[0] := ReservedRow(cfg, requests[0].kind.value, device, now)],
        cfg, device, requests[1..], ids[1..], now)
  }

  // ----- Create upload batch

  datatype UploadRequest = UploadRequest(objectId: string, kind: Option<ObjectKind>, sha: string, size: int)

  /** The requests with their ids trimmed and their digests normalised, as the loop reads them. */
  function CleanUploads(requests: seq<UploadRequest>): (r: seq<UploadRequest>)
    ensures |r| == |requests|
  {
    seq(|requests|, i requires 0 <= i < |requests| =>
      requests[i].(objectId := Trim(requests[i].objectId), sha := NormalDigest(requests[i].sha)))
  }

  /** The checks on one request of a batch, in the order they are made. */
  function RequestCheck(
      cfg: Config, ws: Workspace, device: Uuid, r: UploadRequest, duplicate: bool, now: int): Check
  {
    var id := r.objectId;
    if id == "" || duplicate then Fail(InvalidArgument)
    else if r.kind.None? then Fail(InvalidArgument)
    else if CheckDescriptor(r.sha, r.size).Fail? then CheckDescriptor(r.sha, r.size)
    else if r.size > cfg.maxSingleBlob then Fail(QuotaExceeded(SingleBlobBytes, cfg.maxSingleBlob, 0, r.size))
    else if !LiveObject(ws, id) then Fail(PermissionDenied)
    else
      var o := ws.objects[id];
      if o.createdBy != device then Fail(PermissionDenied)
      else if o.kind != r.kind.value then Fail(ObjectMetadataMismatch)
      else if o.provider != cfg.provider then Fail(ObjectMetadataMismatch)
      else if o.state == Reserved then Pass
      else if o.state == Pending then
        if o.sha != r.sha || o.size != r.size then Fail(ObjectMetadataMismatch)
        else if Expired(o, now) then Fail(ObjectNotAvailable)
        else Pass
      else Fail(ObjectNotAvailable)
  }

  predicate RepeatedUpload(requests: seq<UploadRequest>, i: nat)
    requires i < |requests|
  {
    exists j | 0 <= j < i :: requests[j].objectId == requests[i].objectId
  }

  function UploadCheck(
      cfg: Config, ws: Workspace, device: Uuid, requests: seq<UploadRequest>, i: nat, now: int): Check
    requires i < |requests|
  {
    RequestCheck(cfg, ws, device, requests[i], RepeatedUpload(requests, i), now)
  }

  /** The first failing check among the first n requests. */
  function BatchCheck(
      cfg: Config, ws: Workspace, device: Uuid, requests: seq<UploadRequest>, n: nat, now: int): Check
    requires n <= |requests|
  {
    if n == 0 then Pass else
      var earlier := BatchCheck(cfg, ws, device, requests, n - 1, now);
      if earlier.Fail? then earlier else UploadCheck(cfg, ws, device, requests, n - 1, now)
  }

  /** Bytes that the first n requests newly put in flight: a retried Pending object is already charged. */
  function AddedBytes(ws: Workspace, requests: seq<UploadRequest>, n: nat): int
    requires n <= |requests|
    requires forall i | 0 <= i < n :: requests[i].objectId in ws.objects
  {
    if n == 0 then 0 else
      AddedBytes(ws, requests, n - 1)
      + if ws.objects[requests[n - 1].objectId].state == Reserved then requests[n - 1].size else 0
  }

  function PendingRow(o: SyncObject, r: UploadRequest, expires: int): SyncObject {
    o.(state := Pending, sha := r.sha, size := r.size, expiresAt := Some(expires), errorReason := None)
  }

  /** The object rows after MarkSyncObjectPending for the first n requests. */
  function MarkedPending(
      objects: map<string, SyncObject>, requests: seq<UploadRequest>, n: nat, expires: int): map<string, SyncObject>
    requires n <= |requests|
    requires forall i | 0 <= i < n :: requests[i].objectId in objects
  {
    if n == 0 then objects else
      var id := requests[n - 1].objectId;
      MarkedPending(objects, requests, n - 1, expires)[id := PendingRow(objects[id], requests[n - 1], expires)]
  }

  lemma {:induction false} BatchPassed(
      cfg: Config, ws: Workspace, device: Uuid, requests: seq<UploadRequest>, n: nat, now: int)
    requires n <= |requests|
    ensures BatchCheck(cfg, ws, device, requests, n, now).Pass?
       <==> forall i | 0 <= i < n :: UploadCheck(cfg, ws, device, requests, i, now).Pass?
  {
    if n > 0 { BatchPassed(cfg, ws, device, requests, n - 1, now); }
  }

  /** The batch reports the failure of the first request that fails. */
  lemma {:induction false} BatchFails(
      cfg: Config, ws: Workspace, device: Uuid, requests: seq<UploadRequest>, i: nat, n: nat, now: int)
    requires i < n <= |requests|
    requires BatchCheck(cfg, ws, device, requests, i, now).Pass?
    requires UploadCheck(cfg, ws, device, requests, i, now).Fail?
    ensures BatchCheck(cfg, ws, device, requests, n, now) == UploadCheck(cfg, ws, device, requests, i, now)
    decreases n
  {
    if i + 1 < n { BatchFails(cfg, ws, device, requests, i, n - 1, now); }
  }

  /** CreateObjectUploadBatch, without the presigned URLs. */
  function CreateUploadBatch(
      cfg: Config, db: Db, user: Uuid, w: Uuid, device: Uuid, attempt: string,
      rawRequests: seq<UploadRequest>, now: int): Result<Db>
  {
    var requests := CleanUploads(rawRequests);
    :- Need(Trim(attempt) != "", InvalidArgument);
    :- Need(1 <= |requests| <= MAX_OBJECT_TRANSFER_BATCH, InvalidArgument);
    // Only the S3 store can presign.
    :- Need(cfg.provider == S3Compatible, NotImplemented);
    var ws :- Authorize(db, user, w);
    :- Need(ActiveDevice(ws, user, device), PermissionDenied);
    :- Need(user in db.accounts, RowMissing);
    :- BatchCheck(cfg, ws, device, requests, |requests|, now);
    assert forall i | 0 <= i < |requests| :: requests[i].objectId in ws.objects by {
      BatchAdmitted(cfg, ws, device, requests, now);
    }
    var added := AddedBytes(ws, requests, |requests|);
    var account := db.accounts[user];
    :- CheckUploadBatchQuota(cfg, account, ws.usage, added);
    Ok(Write(
      db, w,
      ws.(objects := MarkedPending(ws.objects, requests, |requests|, now + cfg.pendingAge),
          usage := ws.usage.(pending := ws.usage.pending + added)),
      user, account.(pending := account.pending + added)))
  }

  // ----- Complete upload batch

  datatype CompleteRequest = CompleteRequest(objectId: string, sha: string, size: int)

  function CleanCompletes(requests: seq<CompleteRequest>): (r: seq<CompleteRequest>)
    ensures |r| == |requests|
  {
    seq(|requests|, i requires 0 <= i < |requests| =>
      requests[i].(objectId := Trim(requests[i].objectId), sha := NormalDigest(requests[i].sha)))
  }

  /** What the object store says about a storage key. */
  datatype HeadReply = NotFound | StoreDown | Found(size: int, sha: string)

  datatype Verdict = Reject(error: SyncError) | Keep | FailWith(reason: ErrorReason) | Finish

  datatype UploadResult = UploadResult(row: SyncObject, reason: Option<ErrorReason>)

  /** What completing does to one object row. */
  function CompleteVerdict(o: SyncObject, device: Uuid, r: CompleteRequest, reply: HeadReply, now: int): Verdict {
    if o.createdBy != device then Reject(PermissionDenied)
    else if o.state == Available then
      if o.sha == r.sha && o.size == r.size then Keep else Reject(ObjectMetadataMismatch)
    else if o.state != Pending then Reject(ObjectNotAvailable)
    else if Expired(o, now) then FailWith(UploadExpired)
    else if o.size != r.size then FailWith(SizeMismatch)
    else if o.sha != r.sha then FailWith(ChecksumMismatch)
    else match reply
      case NotFound => FailWith(StorageProviderError)
      case StoreDown => Reject(StoreUnavailable)
      case Found(size, sha) =>
        if size != o.size then FailWith(SizeMismatch)
        else if NormalDigest(sha) != o.sha then FailWith(ChecksumMismatch)
        else Finish
  }

  /** The part of a transaction's view that completing uploads changes. */
  datatype Tx = Tx(objects: map<string, SyncObject>, usage: Usage, account: Account, results: seq<UploadResult>)

  function FailObject(tx: Tx, id: string, reason: ErrorReason): Tx
    requires id in tx.objects
  {
    var o := tx.objects[id];
    var failed := o.(state := Failed, errorReason := Some(reason));
    var released := if o.size > 0 then o.size else 0;
    Tx(tx.objects[id := failed],
       tx.usage.(pending := tx.usage.pending - released),
       tx.account.(pending := tx.account.pending - released),
       tx.results + [UploadResult(failed, Some(reason))])
  }

  function FinishObject(tx: Tx, id: string): Tx
    requires id in tx.objects
  {
    var o := tx.objects[id];
    var available := o.(state := Available, expiresAt := None, errorReason := None);
    Tx(tx.objects[id := available],
       Usage(tx.usage.storage + o.size, tx.usage.count + 1, tx.usage.pending - o.size),
       tx.account.(storage := tx.account.storage + o.size, pending := tx.account.pending - o.size),
       tx.results + [UploadResult(available, None)])
  }

  function HeadOf(heads: map<string, HeadReply>, id: string): HeadReply {
    if id in heads then heads[id] else NotFound
  }

  predicate RepeatedComplete(requests: seq<CompleteRequest>, i: nat)
    requires i < |requests|
  {
    exists j | 0 <= j < i :: requests[j].objectId == requests[i].objectId
  }

  function CompleteOne(
      tx: Tx, device: Uuid, requests: seq<CompleteRequest>, i: nat, heads: map<string, HeadReply>, now: int): Result<Tx>
    requires i < |requests|
  {
    CompleteRow(tx, device, requests[i], RepeatedComplete(requests, i), heads, now)
  }

  function CompleteRow(
      tx: Tx, device: Uuid, r: CompleteRequest, duplicate: bool, heads: map<string, HeadReply>, now: int): Result<Tx>
  {
    var id := r.objectId;
    :- Need(id != "" && !duplicate, InvalidArgument);
    :- CheckDescriptor(r.sha, r.size);
    :- Need(id in tx.objects && tx.objects[id].state != Deleted, PermissionDenied);
    match CompleteVerdict(tx.objects[id], device, r, HeadOf(heads, id), now)
    case Reject(e) => Err(e)
    case Keep => Ok(tx.(results := tx.results + [UploadResult(tx.objects[id], None)]))
    case FailWith(reason) => Ok(FailObject(tx, id, reason))
    case Finish => Ok(FinishObject(tx, id))
  }

  function CompleteFirst(
      tx: Tx, device: Uuid, requests: seq<CompleteRequest>, n: nat, heads: map<string, HeadReply>, now: int): Result<Tx>
    requires n <= |requests|
  {
    if n == 0 then Ok(tx) else
      var before :- CompleteFirst(tx, device, requests, n - 1, heads, now);
      CompleteOne(before, device, requests, n - 1, heads, now)
  }

  /** CompleteObjectUploadBatch; heads is the object store's answer for each object. */
  function CompleteUploadBatch(
      cfg: Config, db: Db, user: Uuid, w: Uuid, device: Uuid, attempt: string,
      rawRequests: seq<CompleteRequest>, heads: map<string, HeadReply>, now: int): Result<(Db, seq<UploadResult>)>
  {
    var requests := CleanCompletes(rawRequests);
    :- Need(Trim(attempt) != "", InvalidArgument);
    :- Need(1 <= |requests| <= MAX_OBJECT_TRANSFER_BATCH, InvalidArgument);
    :- Need(cfg.provider == S3Compatible, NotImplemented);
    var ws :- Authorize(db, user, w);
    :- Need(ActiveDevice(ws, user, device), PermissionDenied);
    :- Need(user in db.accounts, RowMissing);
    var start := Tx(ws.objects, ws.usage, db.accounts[user], []);
    var tx :- CompleteFirst(start, device, requests, |requests|, heads, now);
    Ok((Write(db, w, ws.(objects := tx.objects, usage := tx.usage), user, tx.account), tx.results))
  }

  // ----- Direct byte upload of the local development store

  /** UploadObjectBytesDev; blobMatches says whether the bytes have the stated size and digest. */
  function UploadBytesDev(
      cfg: Config, db: Db, user: Uuid, w: Uuid, device: Uuid,
      id: string, sha: string, size: int, blobMatches: bool, putFails: bool): Result<Db>
  {
    var digest := NormalDigest(sha);
    :- Need(cfg.devBytesEnabled, DevBytesDisabled);
    :- CheckDescriptor(digest, size);
    :- Need(blobMatches, ObjectMetadataMismatch);
    :- Need(size <= cfg.maxSingleBlob, QuotaExceeded(SingleBlobBytes, cfg.maxSingleBlob, 0, size));
    var ws :- Authorize(db, user, w);
    :- Need(ActiveDevice(ws, user, device), PermissionDenied);
    :- Need(user in db.accounts, RowMissing);
    var account := db.accounts[user];
    :- Need(account.storage + size <= cfg.maxTotalPerUser,
            QuotaExceeded(UserTotalStorageBytes, cfg.maxTotalPerUser, account.storage, size));
    :- Need(ws.usage.storage + size <= cfg.maxPerWorkspace,
            QuotaExceeded(WorkspaceStorageBytes, cfg.maxPerWorkspace, ws.usage.storage, size));
    :- Need(LiveObject(ws, id), PermissionDenied);
    var o := ws.objects[id];
    :- Need(o.provider == Local, DevBytesDisabled);
    if o.state == Available then
      if o.sha == digest && o.size == size then Ok(db) else Err(ObjectMetadataMismatch)
    else if o.state != Reserved && o.state != Pending then
      Err(ObjectNotAvailable)
    else if putFails then
      Err(StoreUnavailable)
    else
      Ok(Write(db, w, AfterDevUpload(ws, id, digest, size), user,
               account.(storage := account.storage + size)))
  }

  function AfterDevUpload(ws: Workspace, id: string, sha: string, size: int): Workspace
    requires id in ws.objects
  {
    var o := ws.objects[id].(state := Available, sha := sha, size := size, expiresAt := None, errorReason := None);
    ws.(objects := ws.objects[id := o],
        usage := ws.usage.(storage := ws.usage.storage + size, count := ws.usage.count + 1))
  }

  // ----- What the uploads keep

  /** What every step does to object rows: none disappears or changes kind, and one that is available never changes
      again. */
  predicate RowsKept(before: map<string, SyncObject>, after: map<string, SyncObject>) {
    && before.Keys <= after.Keys
    && (forall id | id in before :: after[id].kind == before[id].kind)
    && (forall id | id in before && before[id].state == Available :: after[id] == before[id])
  }

  /** Every row belongs to the configured store, and the local store, which cannot presign, has nothing in flight. */
  predicate RowsOk(cfg: Config, objects: map<string, SyncObject>) {
    forall id | id in objects ::
      && objects[id].provider == cfg.provider
      && (objects[id].state == Pending ==> objects[id].provider == S3Compatible)
      && (objects[id].state == Pending || objects[id].state == Available ==> objects[id].size > 0)
  }

  lemma RecountReserved(objects: map<string, SyncObject>, id: string, row: SyncObject)
    requires id !in objects && row.state == Reserved
    ensures Recount(objects[id := row]) == Recount(objects)
  {
    RecountUpdate(objects, id, row);
  }

  /** Reserving adds one Reserved row per request and touches no other row. */
  lemma {:induction false} ReserveAllRows(
      objects: map<string, SyncObject>, cfg: Config, device: Uuid,
      requests: seq<ReserveRequest>, ids: seq<string>, now: int)
    requires |ids| == |requests| && ReserveAll(objects, cfg, device, requests, ids, now).Ok?
    ensures var after := ReserveAll(objects, cfg, device, requests, ids, now).value;
            && after.Keys == objects.Keys + (set id | id in ids)
            && (forall id | id in objects :: after[id] == objects[id])
            && (forall i | 0 <= i < |ids| ::
                  ids[i] !in objects && requests[i].kind.Some?
                    && after[ids[i]] == ReservedRow(cfg, requests[i].kind.value, device, now))
    decreases |requests|
  {
    hide Trim;
    if requests != [] {
      var row := ReservedRow(cfg, requests[0].kind.value, device, now);
      ReserveAllRows(objects[ids[0] := row], cfg, device, requests[1..], ids[1..], now);
      assert ids == [ids[0]] + ids[1..];
      forall i | 0 < i < |ids| ensures ids[i] !in objects && ids[i] != ids[0] {
        assert ids[i] == ids[1..][i - 1];
      }
    }
  }

  lemma {:induction false} ReserveAllUsage(
      objects: map<string, SyncObject>, cfg: Config, device: Uuid,
      requests: seq<ReserveRequest>, ids: seq<string>, now: int)
    requires |ids| == |requests| && ReserveAll(objects, cfg, device, requests, ids, now).Ok?
    ensures Recount(ReserveAll(objects, cfg, device, requests, ids, now).value) == Recount(objects)
    decreases |requests|
  {
    hide Trim, Recount;
    if requests != [] {
      var row := ReservedRow(cfg, requests[0].kind.value, device, now);
      RecountReserved(objects, ids[0], row);
      ReserveAllUsage(objects[ids[0] := row], cfg, device, requests[1..], ids[1..], now);
    }
  }

  lemma ReserveAllKeeps(
      objects: map<string, SyncObject>, cfg: Config, device: Uuid,
      requests: seq<ReserveRequest>, ids: seq<string>, now: int)
    requires |ids| == |requests| && RowsOk(cfg, objects)
    requires ReserveAll(objects, cfg, device, requests, ids, now).Ok?
    ensures var after := ReserveAll(objects, cfg, device, requests, ids, now).value;
            Recount(after) == Recount(objects) && RowsKept(objects, after) && RowsOk(cfg, after)
  {
    hide ReserveAll, Recount;
    ReserveAllRows(objects, cfg, device, requests, ids, now);
    ReserveAllUsage(objects, cfg, device, requests, ids, now);
    var after := ReserveAll(objects, cfg, device, requests, ids, now).value;
    forall id | id in after
      ensures after[id].provider == cfg.provider
      ensures after[id].state == Pending ==> after[id].provider == S3Compatible
      ensures after[id].state == Pending || after[id].state == Available ==> after[id].size > 0
    {
      if id !in objects {
        var i :| 0 <= i < |ids| && ids[i] == id;
      }
    }
  }

  /** The requests of a batch that passed its checks name distinct rows that are Reserved or Pending as described. */
  predicate Admitted(objects: map<string, SyncObject>, requests: seq<UploadRequest>, n: nat)
    requires n <= |requests|
  {
    && (forall i, j | 0 <= i < j < n :: requests[i].objectId != requests[j].objectId)
    && (forall i | 0 <= i < n :: AdmittedOne(objects, requests[i]))
  }

  predicate AdmittedOne(objects: map<string, SyncObject>, r: UploadRequest) {
    var id := r.objectId;
    && id in objects && r.size > 0
    && (objects[id].state == Reserved
        || (objects[id].state == Pending && objects[id].sha == r.sha && objects[id].size == r.size))
  }

  lemma BatchAdmitted(cfg: Config, ws: Workspace, device: Uuid, requests: seq<UploadRequest>, now: int)
    requires BatchCheck(cfg, ws, device, requests, |requests|, now).Pass?
    ensures Admitted(ws.objects, requests, |requests|)
  {
    BatchPassed(cfg, ws, device, requests, |requests|, now);
    forall i, j | 0 <= i < j < |requests| ensures requests[i].objectId != requests[j].objectId {
      assert UploadCheck(cfg, ws, device, requests, j, now).Pass?;
    }
    forall i | 0 <= i < |requests|
      ensures AdmittedOne(ws.objects, requests[i])
    {
      assert UploadCheck(cfg, ws, device, requests, i, now).Pass?;
    }
  }

  /** Row by row: a requested object is Pending with the requested digest and size, every other row is unchanged. */
  lemma {:induction false} MarkedPendingRows(
      objects: map<string, SyncObject>, requests: seq<UploadRequest>, n: nat, expires: int)
    requires n <= |requests| && Admitted(objects, requests, n)
    ensures var after := MarkedPending(objects, requests, n, expires);
            && after.Keys == objects.Keys
            && (forall i | 0 <= i < n ::
                  var id := requests[i].objectId; after[id] == PendingRow(objects[id], requests[i], expires))
            && (forall id | id in objects && (forall i | 0 <= i < n :: requests[i].objectId != id) ::
                  after[id] == objects[id])
  {
    if n > 0 { MarkedPendingRows(objects, requests, n - 1, expires); }
  }

  lemma MarkOnePendingUsage(objects: map<string, SyncObject>, r: UploadRequest, expires: int)
    requires AdmittedOne(objects, r)
    ensures var id := r.objectId;
            var added := if objects[id].state == Reserved then r.size else 0;
            Recount(objects[id := PendingRow(objects[id], r, expires)])
            == Recount(objects).(pending := Recount(objects).pending + added)
  {
    RecountUpdate(objects, r.objectId, PendingRow(objects[r.objectId], r, expires));
  }

  /** The bytes charged for a batch are exactly the growth of the bytes in flight. */
  lemma {:induction false} MarkedPendingUsage(ws: Workspace, requests: seq<UploadRequest>, n: nat, expires: int)
    requires n <= |requests| && Admitted(ws.objects, requests, n)
    ensures Recount(MarkedPending(ws.objects, requests, n, expires))
         == Recount(ws.objects).(pending := Recount(ws.objects).pending + AddedBytes(ws, requests, n))
  {
    hide Recount;
    if n > 0 {
      MarkedPendingUsage(ws, requests, n - 1, expires);
      MarkedPendingRows(ws.objects, requests, n - 1, expires);
      var mid := MarkedPending(ws.objects, requests, n - 1, expires);
      assert mid[requests[n - 1].objectId] == ws.objects[requests[n - 1].objectId];
      MarkOnePendingUsage(mid, requests[n - 1], expires);
    }
  }

  /** Everything an upload batch that was accepted does to a workspace. */
  lemma CreateBatchKeeps(
      cfg: Config, ws: Workspace, device: Uuid, requests: seq<UploadRequest>, now: int, expires: int)
    requires RowsOk(cfg, ws.objects) && cfg.provider == S3Compatible
    requires BatchCheck(cfg, ws, device, requests, |requests|, now).Pass?
    ensures Admitted(ws.objects, requests, |requests|)
    ensures var after := MarkedPending(ws.objects, requests, |requests|, expires);
            && RowsOk(cfg, after)
            && RowsKept(ws.objects, after)
            && Recount(after) == Recount(ws.objects).(pending :=
                 Recount(ws.objects).pending + AddedBytes(ws, requests, |requests|))
  {
    BatchAdmitted(cfg, ws, device, requests, now);
    MarkedPendingRows(ws.objects, requests, |requests|, expires);
    MarkedPendingUsage(ws, requests, |requests|, expires);
    var after := MarkedPending(ws.objects, requests, |requests|, expires);
    forall id | id in ws.objects
      ensures after[id] == ws.objects[id]
           || exists i | 0 <= i < |requests| ::
             requests[i].objectId == id && after[id] == PendingRow(ws.objects[id], requests[i], expires)
    {
      if exists i | 0 <= i < |requests| :: requests[i].objectId == id {
        var i :| 0 <= i < |requests| && requests[i].objectId == id;
        assert after[id] == PendingRow(ws.objects[id], requests[i], expires);
      }
    }
  }

  /** The counters agree with the rows before and after, the account moves with the workspace, and nothing grows in
      total. */
  ghost predicate Balanced(cfg: Config, before: Tx, after: Tx) {
    && after.usage == Recount(after.objects)
    && RowsOk(cfg, after.objects)
    && RowsKept(before.objects, after.objects)
    && after.objects.Keys == before.objects.Keys
    && after.account.workspaces == before.account.workspaces
    && after.account.storage - before.account.storage == after.usage.storage - before.usage.storage
    && after.account.pending - before.account.pending == after.usage.pending - before.usage.pending
    && after.usage.storage + after.usage.pending <= before.usage.storage + before.usage.pending
    && after.usage.pending <= before.usage.pending
  }

  lemma BalancedTransitive(cfg: Config, a: Tx, b: Tx, c: Tx)
    requires Balanced(cfg, a, b) && Balanced(cfg, b, c)
    ensures Balanced(cfg, a, c)
  {
    forall id | id in a.objects
      ensures c.objects[id].kind == a.objects[id].kind
      ensures a.objects[id].state == Available ==> c.objects[id] == a.objects[id]
    {
      assert id in b.objects;
    }
  }

  /** One completion moves exactly the object's bytes between the counters its state change moves them between. */
  lemma CompleteOneKeeps(
      cfg: Config, tx: Tx, device: Uuid, requests: seq<CompleteRequest>, i: nat, heads: map<string, HeadReply>,
      now: int)
    requires i < |requests| && RowsOk(cfg, tx.objects) && tx.usage == Recount(tx.objects)
    requires CompleteOne(tx, device, requests, i, heads, now).Ok?
    ensures Balanced(cfg, tx, CompleteOne(tx, device, requests, i, heads, now).value)
  {
    var id := requests[i].objectId;
    var after := CompleteOne(tx, device, requests, i, heads, now).value;
    if after.objects != tx.objects {
      RecountUpdate(tx.objects, id, after.objects[id]);
    }
  }

  lemma {:induction false} CompleteFirstKeeps(
      cfg: Config, tx: Tx, device: Uuid, requests: seq<CompleteRequest>, n: nat, heads: map<string, HeadReply>,
      now: int)
    requires n <= |requests| && RowsOk(cfg, tx.objects) && tx.usage == Recount(tx.objects)
    requires CompleteFirst(tx, device, requests, n, heads, now).Ok?
    ensures Balanced(cfg, tx, CompleteFirst(tx, device, requests, n, heads, now).value)
  {
    hide CompleteOne, Recount;
    if n > 0 {
      CompleteFirstKeeps(cfg, tx, device, requests, n - 1, heads, now);
      var mid := CompleteFirst(tx, device, requests, n - 1, heads, now).value;
      CompleteOneKeeps(cfg, mid, device, requests, n - 1, heads, now);
      BalancedTransitive(cfg, tx, mid, CompleteOne(mid, device, requests, n - 1, heads, now).value);
    }
  }

  /** The row completing leaves behind, as a function of the row it found. */
  function CompletedRow(o: SyncObject, device: Uuid, r: CompleteRequest, reply: HeadReply, now: int): SyncObject {
    match CompleteVerdict(o, device, r, reply, now)
    case FailWith(reason) => o.(state := Failed, errorReason := Some(reason))
    case Finish => o.(state := Available, expiresAt := None, errorReason := None)
    case _ => o
  }

  lemma CompleteOneRow(
      tx: Tx, device: Uuid, requests: seq<CompleteRequest>, i: nat, heads: map<string, HeadReply>, now: int)
    requires i < |requests| && CompleteOne(tx, device, requests, i, heads, now).Ok?
    ensures var id := requests[i].objectId;
            var after := CompleteOne(tx, device, requests, i, heads, now).value;
            && (forall j | 0 <= j < i :: requests[j].objectId != id)
            && id in tx.objects
            && !CompleteVerdict(tx.objects[id], device, requests[i], HeadOf(heads, id), now).Reject?
            && var row := CompletedRow(tx.objects[id], device, requests[i], HeadOf(heads, id), now);
            && after.objects == tx.objects[id := row]
            && |after.results| == |tx.results| + 1
            && after.results[..|tx.results|] == tx.results
            && after.results[|tx.results|].row == row
  {
  }

  /** What completing did to the object of one request, in terms of the row as it was before the batch. */
  predicate CompletedAs(
      before: Tx, after: Tx, device: Uuid, r: CompleteRequest, result: nat, heads: map<string, HeadReply>, now: int)
    requires result < |after.results|
  {
    var id := r.objectId;
    && id in before.objects && id in after.objects
    && !CompleteVerdict(before.objects[id], device, r, HeadOf(heads, id), now).Reject?
    && after.objects[id] == CompletedRow(before.objects[id], device, r, HeadOf(heads, id), now)
    && after.results[result].row == after.objects[id]
  }

  ghost predicate CompletedAll(
      before: Tx, after: Tx, device: Uuid, requests: seq<CompleteRequest>, n: nat, heads: map<string, HeadReply>,
      now: int)
    requires n <= |requests|
  {
    && after.objects.Keys == before.objects.Keys
    && |after.results| == |before.results| + n
    && (forall i | 0 <= i < n :: CompletedAs(before, after, device, requests[i], |before.results| + i, heads, now))
    && (forall id | id in before.objects && (forall i | 0 <= i < n :: requests[i].objectId != id) ::
          after.objects[id] == before.objects[id])
  }

  lemma CompletedAllStep(
      before: Tx, mid: Tx, after: Tx, device: Uuid, requests: seq<CompleteRequest>, n: nat,
      heads: map<string, HeadReply>, now: int)
    requires n < |requests| && CompletedAll(before, mid, device, requests, n, heads, now)
    requires var id := requests[n].objectId;
             && (forall j | 0 <= j < n :: requests[j].objectId != id)
             && id in mid.objects && |after.results| == |mid.results| + 1
             && after.objects == mid.objects[id := after.results[|mid.results|].row]
             && after.results[..|mid.results|] == mid.results
             && CompletedAs(mid, after, device, requests[n], |mid.results|, heads, now)
    ensures CompletedAll(before, after, device, requests, n + 1, heads, now)
  {
    forall i | 0 <= i < n
      ensures CompletedAs(before, after, device, requests[i], |before.results| + i, heads, now)
    {
      assert CompletedAs(before, mid, device, requests[i], |before.results| + i, heads, now);
      assert after.results[|before.results| + i] == after.results[..|mid.results|][|before.results| + i];
    }
  }

  /** Row by row: each request decides the fate of its own object from the row as it was before the batch, and
      reports that row. */
  lemma {:induction false} CompletedRows(
      tx: Tx, device: Uuid, requests: seq<CompleteRequest>, n: nat, heads: map<string, HeadReply>, now: int)
    requires n <= |requests| && CompleteFirst(tx, device, requests, n, heads, now).Ok?
    ensures CompletedAll(tx, CompleteFirst(tx, device, requests, n, heads, now).value, device, requests, n, heads, now)
  {
    if n > 0 {
      CompletedRows(tx, device, requests, n - 1, heads, now);
      var mid := CompleteFirst(tx, device, requests, n - 1, heads, now).value;
      CompleteOneRow(mid, device, requests, n - 1, heads, now);
      var after := CompleteOne(mid, device, requests, n - 1, heads, now).value;
      CompletedAllStep(tx, mid, after, device, requests, n - 1, heads, now);
    }
  }

  /** Finishing needs the client, the row and the store to agree: an object becomes available only with the bytes it
      announced. */
  lemma BecomesAvailable(o: SyncObject, device: Uuid, r: CompleteRequest, reply: HeadReply, now: int)
    requires o.state != Available
    ensures CompletedRow(o, device, r, reply, now).state == Available
       <==> && o.createdBy == device && o.state == Pending && !Expired(o, now)
            && o.size == r.size && o.sha == r.sha
            && reply.Found? && reply.size == o.size && NormalDigest(reply.sha) == o.sha
  {
  }

  /** The direct path never releases pending bytes, so it keeps the accounts right exactly when the object was not
      in flight. */
  lemma DevUploadUsage(ws: Workspace, id: string, sha: string, size: int)
    requires UsageOk(ws) && id in ws.objects && size > 0
    requires ws.objects[id].state == Reserved || (ws.objects[id].state == Pending && ws.objects[id].size > 0)
    ensures UsageOk(AfterDevUpload(ws, id, sha, size)) <==> ws.objects[id].state == Reserved
  {
    RecountUpdate(ws.objects, id, AfterDevUpload(ws, id, sha, size).objects[id]);
  }

  /** After a direct upload of a Pending object the counters no longer agree with the rows. */
  lemma DevUploadMiscounts(sha: string, size: int)
    requires size > 0
    ensures
      var row := SyncObject(CommitBody, Local, sha, size, Pending, 1, None, None);
      var ws := EmptyWorkspace(1).(objects := map["o" := row], usage := Recount(map["o" := row]));
      UsageOk(ws) && !UsageOk(AfterDevUpload(ws, "o", sha, size))
  {
    hide Recount;
    var row := SyncObject(CommitBody, Local, sha, size, Pending, 1, None, None);
    DevUploadUsage(EmptyWorkspace(1).(objects := map["o" := row], usage := Recount(map["o" := row])), "o", sha, size);
  }
}
