/**
 When reservations and uploads are accepted and what becomes of each row (presign.go and
 service.go), said of the requests and the rows alone, and the way of an object from its
 reservation to its being available.
 */
module SyncUploadRules {
  import opened Text
  import opened SyncRows
  import opened SyncUsage
  import opened SyncUploads

  /** The workspace is the user's and live, and the device is theirs and not revoked. */
  predicate MayUpload(db: Db, user: Uuid, w: Uuid, device: Uuid) {
    && w in db.workspaces && db.workspaces[w].owner == user && !db.workspaces[w].deleted
    && device in db.workspaces[w].devices
    && db.workspaces[w].devices[device].user == user && !db.workspaces[w].devices[device].revoked
  }

  predicate Past(o: SyncObject, now: int) {
    o.expiresAt.Some? && now >= o.expiresAt.value
  }

  // ----- Reserving

  predicate ReservationsFit(objects: map<string, SyncObject>, requests: seq<ReserveRequest>, ids: seq<string>)
    requires |ids| == |requests|
  {
    && (forall i | 0 <= i < |requests| :: Trim(requests[i].clientRef) != "" && requests[i].kind.Some?)
    && (forall i | 0 <= i < |ids| :: ids[i] !in objects)
    && (forall i, j | 0 <= i < j < |ids| :: ids[i] != ids[j])
  }

  lemma {:induction false} ReserveAllExactly(
      objects: map<string, SyncObject>, cfg: Config, device: Uuid,
      requests: seq<ReserveRequest>, ids: seq<string>, now: int)
    requires |ids| == |requests|
    ensures ReserveAll(objects, cfg, device, requests, ids, now).Ok? <==> ReservationsFit(objects, requests, ids)
    decreases |requests|
  {
    hide Trim;
    if requests != [] && Trim(requests[0].clientRef) != "" && requests[0].kind.Some? && ids[0] !in objects {
      var rest, more := requests[1..], ids[1..];
      var next := objects[ids[0] := ReservedRow(cfg, requests[0].kind.value, device, now)];
      ReserveAllExactly(next, cfg, device, rest, more, now);
      assert forall i | 0 <= i < |rest| :: rest[i] == requests[i + 1] && more[i] == ids[i + 1];
      if ReservationsFit(next, rest, more) {
        forall i | 0 <= i < |requests| ensures Trim(requests[i].clientRef) != "" && requests[i].kind.Some? {
          assert i > 0 ==> requests[i] == rest[i - 1];
        }
        forall i | 0 <= i < |ids| ensures ids[i] !in objects {
          assert i > 0 ==> ids[i] == more[i - 1];
        }
        forall i, j | 0 <= i < j < |ids| ensures ids[i] != ids[j] {
          assert ids[j] == more[j - 1] && (i > 0 ==> ids[i] == more[i - 1]);
        }
      }
    }
  }

  /** Reserving succeeds exactly for a batch of 1 to 100 well-formed requests with fresh distinct ids. */
  lemma ReservedExactly(
      cfg: Config, db: Db, user: Uuid, w: Uuid, device: Uuid,
      requests: seq<ReserveRequest>, ids: seq<string>, now: int)
    ensures Reserve(cfg, db, user, w, device, requests, ids, now).Ok?
       <==> && 1 <= |requests| <= 100 && MayUpload(db, user, w, device) && |ids| == |requests|
            && ReservationsFit(db.workspaces[w].objects, requests, ids)
  {
    hide ReserveAll, ReservationsFit;
    if MayUpload(db, user, w, device) && |ids| == |requests| {
      ReserveAllExactly(db.workspaces[w].objects, cfg, device, requests, ids, now);
    }
  }

  /** A reserved row belongs to its device and the configured store, is empty, and lapses after the pending age. */
  lemma ReservedRows(
      cfg: Config, db: Db, user: Uuid, w: Uuid, device: Uuid,
      requests: seq<ReserveRequest>, ids: seq<string>, now: int)
    requires Reserve(cfg, db, user, w, device, requests, ids, now).Ok?
    ensures
      var after := Reserve(cfg, db, user, w, device, requests, ids, now).value;
      && w in db.workspaces && |ids| == |requests|
      && after == db.(workspaces := db.workspaces[w := db.workspaces[w].(objects := after.workspaces[w].objects)])
      && var was, now' := db.workspaces[w].objects, after.workspaces[w].objects;
      && now'.Keys == was.Keys + (set id | id in ids) && (forall id | id in was :: now'[id] == was[id])
      && forall i | 0 <= i < |ids| ::
           && requests[i].kind.Some? && ids[i] !in was
           && now'[ids[i]] == SyncObject(requests[i].kind.value, cfg.provider, "", 0, Reserved, device,
                                         Some(now + cfg.pendingAge), None)
  {
    hide ReserveAll;
    ReserveAllRows(db.workspaces[w].objects, cfg, device, requests, ids, now);
  }

  // ----- Starting an upload

  /** What one request of an upload batch needs, with its id trimmed and its digest normalised. */
  predicate UploadFits(cfg: Config, ws: Workspace, device: Uuid, r: UploadRequest, now: int) {
    var id, sha := Trim(r.objectId), NormalDigest(r.sha);
    && id != "" && id in ws.objects && r.kind.Some? && IsSha256Hex(sha) && 1 <= r.size <= cfg.maxSingleBlob
    && var o := ws.objects[id];
    && o.createdBy == device && o.kind == r.kind.value && o.provider == cfg.provider
    && (o.state == Reserved || (o.state == Pending && o.sha == sha && o.size == r.size && !Past(o, now)))
  }

  predicate DistinctUploads(requests: seq<UploadRequest>) {
    forall i, j | 0 <= i < j < |requests| :: Trim(requests[i].objectId) != Trim(requests[j].objectId)
  }

  lemma RequestExactly(cfg: Config, ws: Workspace, device: Uuid, r: UploadRequest, duplicate: bool, now: int)
    ensures
      var clean := r.(objectId := Trim(r.objectId), sha := NormalDigest(r.sha));
      RequestCheck(cfg, ws, device, clean, duplicate, now).Pass? <==> !duplicate && UploadFits(cfg, ws, device, r, now)
  {
    hide Trim, NormalDigest, IsSha256Hex;
  }

  lemma BatchExactly(cfg: Config, ws: Workspace, device: Uuid, raw: seq<UploadRequest>, now: int)
    ensures BatchCheck(cfg, ws, device, CleanUploads(raw), |raw|, now).Pass?
       <==> DistinctUploads(raw) && forall i | 0 <= i < |raw| :: UploadFits(cfg, ws, device, raw[i], now)
  {
    hide Trim, NormalDigest, RequestCheck, UploadFits, BatchCheck;
    var requests := CleanUploads(raw);
    BatchPassed(cfg, ws, device, requests, |raw|, now);
    forall i | 0 <= i < |raw|
      ensures UploadCheck(cfg, ws, device, requests, i, now).Pass?
         <==> !RepeatedUpload(requests, i) && UploadFits(cfg, ws, device, raw[i], now)
    {
      RequestExactly(cfg, ws, device, raw[i], RepeatedUpload(requests, i), now);
    }
    assert DistinctUploads(raw) <==> forall i | 0 <= i < |raw| :: !RepeatedUpload(requests, i) by {
      RepeatsAreDuplicates(raw);
    }
  }

  lemma RepeatsAreDuplicates(raw: seq<UploadRequest>)
    ensures DistinctUploads(raw) <==> forall i | 0 <= i < |raw| :: !RepeatedUpload(CleanUploads(raw), i)
  {
    hide Trim, NormalDigest;
    var requests := CleanUploads(raw);
    assert forall i | 0 <= i < |raw| :: requests[i].objectId == Trim(raw[i].objectId);
    if !DistinctUploads(raw) {
      var i, j :| 0 <= i < j < |raw| && Trim(raw[i].objectId) == Trim(raw[j].objectId);
      assert RepeatedUpload(requests, j);
    }
  }

  /** The bytes a batch adds stay within the three limits. */
  predicate WithinQuota(cfg: Config, usage: Usage, account: Account, added: int) {
    && usage.pending + added <= cfg.maxPending
    && account.storage + account.pending + added <= cfg.maxTotalPerUser
    && usage.storage + usage.pending + added <= cfg.maxPerWorkspace
  }

  predicate Startable(
      cfg: Config, db: Db, user: Uuid, w: Uuid, device: Uuid, attempt: string, raw: seq<UploadRequest>, now: int)
  {
    && Trim(attempt) != "" && 1 <= |raw| <= 100 && cfg.provider == S3Compatible
    && MayUpload(db, user, w, device) && user in db.accounts
    && DistinctUploads(raw) && forall i | 0 <= i < |raw| :: UploadFits(cfg, db.workspaces[w], device, raw[i], now)
  }

  lemma FittingRows(cfg: Config, ws: Workspace, device: Uuid, raw: seq<UploadRequest>, now: int)
    requires forall i | 0 <= i < |raw| :: UploadFits(cfg, ws, device, raw[i], now)
    ensures forall i | 0 <= i < |raw| :: CleanUploads(raw)[i].objectId in ws.objects
  {
    hide Trim, NormalDigest, IsSha256Hex;
    forall i | 0 <= i < |raw| ensures CleanUploads(raw)[i].objectId in ws.objects {
      assert UploadFits(cfg, ws, device, raw[i], now);
    }
  }

  /** An upload batch is accepted exactly when every request fits its row, no row is named twice, and the bytes that
      are not yet charged fit the quotas. */
  lemma StartedExactly(
      cfg: Config, db: Db, user: Uuid, w: Uuid, device: Uuid, attempt: string, raw: seq<UploadRequest>, now: int)
    ensures CreateUploadBatch(cfg, db, user, w, device, attempt, raw, now).Ok?
       <==> && Startable(cfg, db, user, w, device, attempt, raw, now)
            && assert forall i | 0 <= i < |raw| :: CleanUploads(raw)[i].objectId in db.workspaces[w].objects by {
                 FittingRows(cfg, db.workspaces[w], device, raw, now);
               }
               var added := AddedBytes(db.workspaces[w], CleanUploads(raw), |raw|);
               WithinQuota(cfg, db.workspaces[w].usage, db.accounts[user], added)
  {
    hide Trim, CleanUploads, AddedBytes, BatchCheck, UploadFits, DistinctUploads, MarkedPending, CheckUploadBatchQuota;
    if MayUpload(db, user, w, device) && user in db.accounts {
      var ws := db.workspaces[w];
      BatchExactly(cfg, ws, device, raw, now);
      if forall i | 0 <= i < |raw| :: UploadFits(cfg, ws, device, raw[i], now) {
        FittingRows(cfg, ws, device, raw, now);
        QuotaCheckExact(cfg, db.accounts[user], ws.usage, AddedBytes(ws, CleanUploads(raw), |raw|));
      }
    }
  }

  /** After an accepted batch each requested row is Pending with the announced digest and size, lapses after the
      pending age, and is otherwise as it was; no other row changes. */
  lemma StartedRows(
      cfg: Config, db: Db, user: Uuid, w: Uuid, device: Uuid, attempt: string, raw: seq<UploadRequest>, now: int)
    requires CreateUploadBatch(cfg, db, user, w, device, attempt, raw, now).Ok?
    ensures
      var after := CreateUploadBatch(cfg, db, user, w, device, attempt, raw, now).value;
      && w in db.workspaces && w in after.workspaces && after.nextSeq == db.nextSeq
      && var was, now' := db.workspaces[w], after.workspaces[w];
      && now' == was.(objects := now'.objects, usage := now'.usage) && now'.objects.Keys == was.objects.Keys
      && (forall v | v in db.workspaces && v != w :: v in after.workspaces && after.workspaces[v] == db.workspaces[v])
      && (forall i | 0 <= i < |raw| ::
            var id := Trim(raw[i].objectId);
            && id in was.objects
            && var o, p := was.objects[id], now'.objects[id];
            && p.state == Pending && p.sha == NormalDigest(raw[i].sha) && p.size == raw[i].size
            && p.expiresAt == Some(now + cfg.pendingAge) && p.errorReason == None
            && p.kind == o.kind && p.provider == o.provider && p.createdBy == o.createdBy)
      && (forall id | id in was.objects && (forall i | 0 <= i < |raw| :: Trim(raw[i].objectId) != id) ::
            now'.objects[id] == was.objects[id])
  {
    hide Trim, NormalDigest, AddedBytes, BatchCheck, MarkedPending, CheckUploadBatchQuota, RequestCheck;
    var ws, requests := db.workspaces[w], CleanUploads(raw);
    BatchAdmitted(cfg, ws, device, requests, now);
    MarkedPendingRows(ws.objects, requests, |raw|, now + cfg.pendingAge);
    assert forall i | 0 <= i < |raw| :: requests[i].objectId == Trim(raw[i].objectId);
  }

  /** Each error of one request, by its cause: what it asks, whose row it names, or the row's state. */
  lemma RequestErrors(cfg: Config, ws: Workspace, device: Uuid, r: UploadRequest, duplicate: bool, now: int)
    ensures
      var c := RequestCheck(cfg, ws, device, r, duplicate, now);
      var malformed := r.objectId == "" || duplicate || r.kind.None? || !IsSha256Hex(r.sha);
      var oversized := r.size > cfg.maxSingleBlob;
      var known := r.objectId in ws.objects && ws.objects[r.objectId].state != Deleted
                   && ws.objects[r.objectId].createdBy == device;
      && (c == Fail(InvalidArgument) <==> malformed)
      && (c == Fail(QuotaExceeded(SingleBlobBytes, cfg.maxSingleBlob, 0, r.size)) <==>
            !malformed && r.size >= 1 && oversized)
      && (c == Fail(PermissionDenied) <==> !malformed && r.size >= 1 && !oversized && !known)
      && (!malformed && r.size < 1 ==> c == Fail(ObjectMetadataMismatch))
      && (!malformed && r.size >= 1 && !oversized && known ==>
            var o := ws.objects[r.objectId];
            var misfit := o.kind != r.kind.value || o.provider != cfg.provider;
            var differs := o.state == Pending && (o.sha != r.sha || o.size != r.size);
            && (c == Fail(ObjectMetadataMismatch) <==> misfit || differs)
            && (c == Fail(ObjectNotAvailable) <==>
                  !misfit && !differs && (o.state == Available || o.state == Failed
                                               || (o.state == Pending && Past(o, now)))))
  {
    hide IsSha256Hex;
  }

  // ----- Completing an upload

  predicate DistinctCompletes(raw: seq<CompleteRequest>) {
    forall i, j | 0 <= i < j < |raw| :: Trim(raw[i].objectId) != Trim(raw[j].objectId)
  }

  /** The device's row is available as described, or in flight with the store answering whenever it is asked: the
      store is asked about a row that has not lapsed and is as described. */
  predicate CompleteFits(
      objects: map<string, SyncObject>, device: Uuid, id: string, sha: string, size: int,
      heads: map<string, HeadReply>, now: int)
  {
    && id != "" && IsSha256Hex(sha) && size >= 1 && id in objects && objects[id].createdBy == device
    && var o := objects[id];
    var agrees := o.sha == sha && o.size == size;
    (o.state == Available && agrees)
    || (o.state == Pending && (agrees && !Past(o, now) ==> id !in heads || heads[id] != StoreDown))
  }

  lemma CompleteOneExactly(
      tx: Tx, device: Uuid, r: CompleteRequest, duplicate: bool, heads: map<string, HeadReply>, now: int)
    ensures CompleteRow(tx, device, r, duplicate, heads, now).Ok?
       <==> !duplicate && CompleteFits(tx.objects, device, r.objectId, r.sha, r.size, heads, now)
  {
    hide IsSha256Hex, NormalDigest, FailObject, FinishObject;
  }

  lemma SameFit(
      before: map<string, SyncObject>, after: map<string, SyncObject>, device: Uuid, r: CompleteRequest,
      heads: map<string, HeadReply>, now: int)
    requires before.Keys == after.Keys && (r.objectId in before ==> before[r.objectId] == after[r.objectId])
    ensures CompleteFits(before, device, r.objectId, r.sha, r.size, heads, now)
       <==> CompleteFits(after, device, r.objectId, r.sha, r.size, heads, now)
  {
    hide IsSha256Hex;
  }

  lemma {:induction false} CompleteFirstExactly(
      tx: Tx, device: Uuid, requests: seq<CompleteRequest>, n: nat, heads: map<string, HeadReply>, now: int)
    requires n <= |requests|
    ensures CompleteFirst(tx, device, requests, n, heads, now).Ok?
       <==> forall i | 0 <= i < n ::
              && !RepeatedComplete(requests, i)
              && CompleteFits(tx.objects, device, requests[i].objectId, requests[i].sha, requests[i].size, heads, now)
  {
    hide CompleteFits, CompleteRow, CompletedAs, RepeatedComplete;
    if n > 0 {
      CompleteFirstExactly(tx, device, requests, n - 1, heads, now);
      if CompleteFirst(tx, device, requests, n - 1, heads, now).Ok? {
        var mid, r := CompleteFirst(tx, device, requests, n - 1, heads, now).value, requests[n - 1];
        CompleteOneExactly(mid, device, r, RepeatedComplete(requests, n - 1), heads, now);
        CompletedRows(tx, device, requests, n - 1, heads, now);
        if !RepeatedComplete(requests, n - 1) {
          NotRepeated(requests, n - 1);
          SameFit(tx.objects, mid.objects, device, r, heads, now);
        }
      }
    }
  }

  lemma NotRepeated(requests: seq<CompleteRequest>, i: nat)
    requires i < |requests|
    ensures RepeatedComplete(requests, i) <==> !forall j | 0 <= j < i :: requests[j].objectId != requests[i].objectId
  {
  }

  lemma CompleteRepeats(raw: seq<CompleteRequest>)
    ensures DistinctCompletes(raw) <==> forall i | 0 <= i < |raw| :: !RepeatedComplete(CleanCompletes(raw), i)
  {
    hide Trim, NormalDigest;
    var requests := CleanCompletes(raw);
    assert forall i | 0 <= i < |raw| :: requests[i].objectId == Trim(raw[i].objectId);
    if !DistinctCompletes(raw) {
      var i, j :| 0 <= i < j < |raw| && Trim(raw[i].objectId) == Trim(raw[j].objectId);
      assert RepeatedComplete(requests, j);
    }
  }

  predicate Completable(
      cfg: Config, db: Db, user: Uuid, w: Uuid, device: Uuid, attempt: string,
      raw: seq<CompleteRequest>, heads: map<string, HeadReply>, now: int)
  {
    && Trim(attempt) != "" && 1 <= |raw| <= 100 && cfg.provider == S3Compatible
    && MayUpload(db, user, w, device) && user in db.accounts && DistinctCompletes(raw)
    && forall i | 0 <= i < |raw| ::
         CompleteFits(db.workspaces[w].objects, device, Trim(raw[i].objectId), NormalDigest(raw[i].sha), raw[i].size,
                      heads, now)
  }

  /** A completion is accepted exactly when no row is named twice and each request fits its row as it was before. */
  lemma CompletedExactly(
      cfg: Config, db: Db, user: Uuid, w: Uuid, device: Uuid, attempt: string,
      raw: seq<CompleteRequest>, heads: map<string, HeadReply>, now: int)
    ensures CompleteUploadBatch(cfg, db, user, w, device, attempt, raw, heads, now).Ok?
       <==> Completable(cfg, db, user, w, device, attempt, raw, heads, now)
  {
    hide Trim, NormalDigest, CompleteFits, CompleteFirst, RepeatedComplete, DistinctCompletes;
    if MayUpload(db, user, w, device) && user in db.accounts {
      var ws, requests := db.workspaces[w], CleanCompletes(raw);
      var start := Tx(ws.objects, ws.usage, db.accounts[user], []);
      CompleteFirstExactly(start, device, requests, |requests|, heads, now);
      CompleteRepeats(raw);
      assert forall i | 0 <= i < |raw| ::
        requests[i] == CompleteRequest(Trim(raw[i].objectId), NormalDigest(raw[i].sha), raw[i].size);
    }
  }

  /** Why a row in flight fails: it lapsed, or the store has no object, or the first of size and digest that the
      client or else the store states differently. */
  lemma FailureReasons(o: SyncObject, device: Uuid, r: CompleteRequest, reply: HeadReply, now: int)
    requires o.createdBy == device && o.state == Pending
    ensures
      var row := CompletedRow(o, device, r, reply, now);
      var agrees := o.sha == r.sha && o.size == r.size;
      var asked := !Past(o, now) && agrees;
      && (row.state == Failed ==> row == o.(state := Failed, errorReason := row.errorReason))
      && (row.state == Failed && row.errorReason == Some(UploadExpired) <==> Past(o, now))
      && (row.state == Failed && row.errorReason == Some(StorageProviderError) <==> asked && reply.NotFound?)
      && (row.state == Failed && row.errorReason == Some(SizeMismatch) <==>
            !Past(o, now) && (o.size != r.size || (agrees && reply.Found? && reply.size != o.size)))
      && (row.state == Failed && row.errorReason == Some(ChecksumMismatch) <==>
            !Past(o, now) && o.size == r.size
                 && (o.sha != r.sha
                     || (reply.Found? && reply.size == o.size && NormalDigest(reply.sha) != o.sha)))
      && (asked && reply.Found? && reply.size == o.size && NormalDigest(reply.sha) == o.sha ==>
            row == o.(state := Available, expiresAt := None, errorReason := None))
  {
    hide NormalDigest;
  }

  /** Each result carries the reason of a failure and none otherwise. */
  lemma {:induction false} ReasonsReported(
      tx: Tx, device: Uuid, requests: seq<CompleteRequest>, n: nat, heads: map<string, HeadReply>, now: int)
    requires n <= |requests| && CompleteFirst(tx, device, requests, n, heads, now).Ok?
    ensures
      var results := CompleteFirst(tx, device, requests, n, heads, now).value.results;
      && |results| == |tx.results| + n
      && forall i | |tx.results| <= i < |results| ::
           results[i].reason == if results[i].row.state == Failed then results[i].row.errorReason else None
  {
    hide CompleteVerdict, RepeatedComplete, IsSha256Hex;
    if n > 0 {
      ReasonsReported(tx, device, requests, n - 1, heads, now);
      var mid := CompleteFirst(tx, device, requests, n - 1, heads, now).value;
      OneReason(mid, device, requests[n - 1], RepeatedComplete(requests, n - 1), heads, now);
    }
  }

  lemma OneReason(
      tx: Tx, device: Uuid, r: CompleteRequest, duplicate: bool, heads: map<string, HeadReply>, now: int)
    requires CompleteRow(tx, device, r, duplicate, heads, now).Ok?
    ensures
      var results := CompleteRow(tx, device, r, duplicate, heads, now).value.results;
      && |results| == |tx.results| + 1 && results[..|tx.results|] == tx.results
      && var last := results[|tx.results|];
      last.reason == if last.row.state == Failed then last.row.errorReason else None
  {
    hide IsSha256Hex, NormalDigest;
  }

  /** After an accepted completion: each named row is what its own request made of it, each result reports that row
      and the reason of a failure, and nothing else in the workspace but the counters changes. */
  lemma CompletedDb(
      cfg: Config, db: Db, user: Uuid, w: Uuid, device: Uuid, attempt: string,
      raw: seq<CompleteRequest>, heads: map<string, HeadReply>, now: int)
    requires CompleteUploadBatch(cfg, db, user, w, device, attempt, raw, heads, now).Ok?
    ensures
      var (after, results) := CompleteUploadBatch(cfg, db, user, w, device, attempt, raw, heads, now).value;
      && w in db.workspaces && w in after.workspaces && |results| == |raw| && after.nextSeq == db.nextSeq
      && var was, now' := db.workspaces[w], after.workspaces[w];
      && now' == was.(objects := now'.objects, usage := now'.usage) && now'.objects.Keys == was.objects.Keys
      && (forall i | 0 <= i < |raw| ::
            var id := Trim(raw[i].objectId);
            var clean := CompleteRequest(id, NormalDigest(raw[i].sha), raw[i].size);
            && id in was.objects
            && now'.objects[id] == CompletedRow(was.objects[id], device, clean, HeadOf(heads, id), now)
            && results[i].row == now'.objects[id]
            && results[i].reason == if now'.objects[id].state == Failed then now'.objects[id].errorReason else None)
      && (forall id | id in was.objects && (forall i | 0 <= i < |raw| :: Trim(raw[i].objectId) != id) ::
            now'.objects[id] == was.objects[id])
  {
    hide Trim, NormalDigest, CompleteFirst, CompletedRow, CompleteVerdict;
    var ws, requests := db.workspaces[w], CleanCompletes(raw);
    var start := Tx(ws.objects, ws.usage, db.accounts[user], []);
    CompletedRows(start, device, requests, |raw|, heads, now);
    ReasonsReported(start, device, requests, |raw|, heads, now);
    var tx := CompleteFirst(start, device, requests, |raw|, heads, now).value;
    forall i | 0 <= i < |raw|
      ensures requests[i] == CompleteRequest(Trim(raw[i].objectId), NormalDigest(raw[i].sha), raw[i].size)
      ensures CompletedAs(start, tx, device, requests[i], i, heads, now)
    {
      assert CompletedAs(start, tx, device, requests[i], |start.results| + i, heads, now);
    }
  }

  // ----- From a started upload to an available object

  /** Request c describes the object of request r, and the store holds it as described. */
  predicate Delivers(r: UploadRequest, c: CompleteRequest, heads: map<string, HeadReply>) {
    var id, sha := Trim(r.objectId), NormalDigest(r.sha);
    && Trim(c.objectId) == id && NormalDigest(c.sha) == sha && c.size == r.size
    && id in heads && heads[id].Found? && heads[id].size == r.size && NormalDigest(heads[id].sha) == sha
  }

  lemma DeliveredFits(
      cfg: Config, db: Db, user: Uuid, w: Uuid, device: Uuid, attempt: string, raw: seq<UploadRequest>, now: int,
      i: nat, c: CompleteRequest, heads: map<string, HeadReply>, later: int)
    requires CreateUploadBatch(cfg, db, user, w, device, attempt, raw, now).Ok? && w in db.workspaces
    requires i < |raw| && Delivers(raw[i], c, heads) && later < now + cfg.pendingAge
    ensures
      var after := CreateUploadBatch(cfg, db, user, w, device, attempt, raw, now).value;
      var id, clean := Trim(c.objectId), CompleteRequest(Trim(c.objectId), NormalDigest(c.sha), c.size);
      && w in after.workspaces && id in after.workspaces[w].objects && id in db.workspaces[w].objects
      && CompleteFits(after.workspaces[w].objects, device, id, NormalDigest(c.sha), c.size, heads, later)
      && var o := db.workspaces[w].objects[id];
      CompletedRow(after.workspaces[w].objects[id], device, clean, HeadOf(heads, id), later)
        == SyncObject(o.kind, o.provider, NormalDigest(raw[i].sha), raw[i].size, Available, o.createdBy, None, None)
  {
    hide Trim, NormalDigest, IsSha256Hex, CreateUploadBatch;
    StartedExactly(cfg, db, user, w, device, attempt, raw, now);
    StartedRows(cfg, db, user, w, device, attempt, raw, now);
    assert UploadFits(cfg, db.workspaces[w], device, raw[i], now);
  }

  /** The protocol delivers: objects of an accepted batch that the same device completes before the deadline, with the
      store holding what was announced, are available with what was announced. Element j of pick is the request of
      the batch that completion j finishes. */
  lemma UploadDelivers(
      cfg: Config, db: Db, user: Uuid, w: Uuid, device: Uuid, attempt: string, raw: seq<UploadRequest>, now: int,
      again: string, pick: seq<nat>, completes: seq<CompleteRequest>, heads: map<string, HeadReply>, later: int)
    requires CreateUploadBatch(cfg, db, user, w, device, attempt, raw, now).Ok? && w in db.workspaces
    requires later < now + cfg.pendingAge && Trim(again) != "" && 1 <= |completes| <= 100
    requires |pick| == |completes| && forall j, k | 0 <= j < k < |pick| :: pick[j] != pick[k]
    requires forall j | 0 <= j < |pick| :: pick[j] < |raw| && Delivers(raw[pick[j]], completes[j], heads)
    ensures
      var mid := CreateUploadBatch(cfg, db, user, w, device, attempt, raw, now).value;
      var done := CompleteUploadBatch(cfg, mid, user, w, device, again, completes, heads, later);
      && done.Ok? && w in done.value.0.workspaces && |done.value.1| == |completes|
      && forall j | 0 <= j < |completes| ::
           var id := Trim(completes[j].objectId);
           && id in db.workspaces[w].objects && id in done.value.0.workspaces[w].objects
           && done.value.1[j] == UploadResult(done.value.0.workspaces[w].objects[id], None)
           && var o, r := db.workspaces[w].objects[id], raw[pick[j]];
           done.value.0.workspaces[w].objects[id]
             == SyncObject(o.kind, o.provider, NormalDigest(r.sha), r.size, Available, o.createdBy, None, None)
  {
    hide Trim, NormalDigest, CreateUploadBatch, CompleteUploadBatch, CompleteFits, CompletedRow, UploadFits;
    var mid := CreateUploadBatch(cfg, db, user, w, device, attempt, raw, now).value;
    StartedKeepsAccess(cfg, db, user, w, device, attempt, raw, now);
    forall j | 0 <= j < |completes|
      ensures CompleteFits(mid.workspaces[w].objects, device, Trim(completes[j].objectId),
                           NormalDigest(completes[j].sha), completes[j].size, heads, later)
    {
      DeliveredFits(cfg, db, user, w, device, attempt, raw, now, pick[j], completes[j], heads, later);
    }
    forall j, k | 0 <= j < k < |completes| ensures Trim(completes[j].objectId) != Trim(completes[k].objectId) {
      assert Trim(raw[pick[j]].objectId) != Trim(raw[pick[k]].objectId);
    }
    CompletedExactly(cfg, mid, user, w, device, again, completes, heads, later);
    CompletedDb(cfg, mid, user, w, device, again, completes, heads, later);
    var done := CompleteUploadBatch(cfg, mid, user, w, device, again, completes, heads, later).value;
    forall j | 0 <= j < |completes|
      ensures
        var id := Trim(completes[j].objectId);
        && id in db.workspaces[w].objects && id in done.0.workspaces[w].objects
        && done.1[j] == UploadResult(done.0.workspaces[w].objects[id], None)
        && var o, r := db.workspaces[w].objects[id], raw[pick[j]];
        done.0.workspaces[w].objects[id]
          == SyncObject(o.kind, o.provider, NormalDigest(r.sha), r.size, Available, o.createdBy, None, None)
    {
      DeliveredFits(cfg, db, user, w, device, attempt, raw, now, pick[j], completes[j], heads, later);
    }
  }

  lemma StartedKeepsAccess(
      cfg: Config, db: Db, user: Uuid, w: Uuid, device: Uuid, attempt: string, raw: seq<UploadRequest>, now: int)
    requires CreateUploadBatch(cfg, db, user, w, device, attempt, raw, now).Ok?
    ensures
      var after := CreateUploadBatch(cfg, db, user, w, device, attempt, raw, now).value;
      && cfg.provider == S3Compatible && DistinctUploads(raw)
      && MayUpload(after, user, w, device) && user in after.accounts
  {
    hide Trim, AddedBytes, BatchCheck, MarkedPending, CheckUploadBatchQuota, UploadFits, DistinctUploads;
    StartedExactly(cfg, db, user, w, device, attempt, raw, now);
  }

  /** An object of an accepted batch that is completed at the deadline or later fails as expired, whatever the store
      holds. */
  lemma UploadLapses(
      cfg: Config, db: Db, user: Uuid, w: Uuid, device: Uuid, attempt: string, raw: seq<UploadRequest>, now: int,
      again: string, completes: seq<CompleteRequest>, heads: map<string, HeadReply>, later: int, i: nat, j: nat)
    requires CreateUploadBatch(cfg, db, user, w, device, attempt, raw, now).Ok?
    requires
      var mid := CreateUploadBatch(cfg, db, user, w, device, attempt, raw, now).value;
      CompleteUploadBatch(cfg, mid, user, w, device, again, completes, heads, later).Ok?
    requires i < |raw| && j < |completes| && Trim(raw[i].objectId) == Trim(completes[j].objectId)
    requires later >= now + cfg.pendingAge
    ensures
      var mid := CreateUploadBatch(cfg, db, user, w, device, attempt, raw, now).value;
      var (after, results) := CompleteUploadBatch(cfg, mid, user, w, device, again, completes, heads, later).value;
      && |results| == |completes| && results[j].reason == Some(UploadExpired)
      && results[j].row.state == Failed && results[j].row.errorReason == Some(UploadExpired)
      && w in after.workspaces && Trim(raw[i].objectId) in after.workspaces[w].objects
      && after.workspaces[w].objects[Trim(raw[i].objectId)] == results[j].row
  {
    hide Trim, NormalDigest, IsSha256Hex, CreateUploadBatch, CompleteUploadBatch, CompletedRow;
    var mid := CreateUploadBatch(cfg, db, user, w, device, attempt, raw, now).value;
    StartedExactly(cfg, db, user, w, device, attempt, raw, now);
    StartedRows(cfg, db, user, w, device, attempt, raw, now);
    CompletedDb(cfg, mid, user, w, device, again, completes, heads, later);
    var id := Trim(completes[j].objectId);
    var clean := CompleteRequest(id, NormalDigest(completes[j].sha), completes[j].size);
    assert UploadFits(cfg, db.workspaces[w], device, raw[i], now);
    FailureReasons(mid.workspaces[w].objects[id], device, clean, HeadOf(heads, id), later);
  }
}
