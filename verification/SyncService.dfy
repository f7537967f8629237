/**
 The sync service as it runs: an object that holds the rows and changes them in
 transactions, with the loops of presign.go, commit.go, gc.go and quota.go. Each method is
 proved to make exactly the step that SyncSteps and its companions describe.
 */
module SyncService {
  import opened Text
  import opened SyncRows
  import opened SyncUsage
  import opened SyncUploads
  import opened SyncCommits
  import opened SyncGc
  import opened SyncSteps

  // ----- Normalising ids

  method NormalizeIDsPreserveOrder(values: seq<string>) returns (out: seq<string>)
    ensures out == TrimAll(values)
  {
    out := [];
    for i := 0 to |values|
      invariant out + TrimAll(values[i..]) == TrimAll(values)
    {
      var trimmed := Trim(values[i]);
      assert values[i..][1..] == values[i + 1..];
      if trimmed != "" {
        out := out + [trimmed];
      }
    }
  }

  method HasDuplicate(values: seq<string>) returns (found: bool)
    ensures found <==> !NoDuplicates(values)
  {
    var seen: set<string> := {};
    for i := 0 to |values|
      invariant forall v :: v in seen <==> v in values[..i]
      invariant NoDuplicates(values[..i])
    {
      if values[i] in seen {
        var j :| 0 <= j < i && values[..i][j] == values[i];
        assert values[j] == values[i];
        return true;
      }
      seen := seen + {values[i]};
      assert values[..i + 1] == values[..i] + [values[i]];
    }
    assert values[..|values|] == values;
    found := false;
  }

  method NormalizePublishCommitParams(p: PublishParams) returns (r: Result<PublishParams>)
    ensures r == Normalize(p)
  {
    var n := p.(
      commitId := Trim(p.commitId),
      expectedHead := Trim(p.expectedHead),
      bodyId := Trim(p.bodyId),
      bodySha := NormalDigest(p.bodySha));
    if n.workspace == NIL || n.commitId == "" || n.author == NIL || n.bodyId == ""
       || n.deviceSeq <= 0 || n.bodySize <= 0 || |n.signature| != SIGNATURE_SIZE {
      return Err(InvalidArgument);
    }
    if n.kind.None? || !IsSha256Hex(n.bodySha) {
      return Err(InvalidArgument);
    }
    var parents := NormalizeIDsPreserveOrder(p.parents);
    var duplicateParent := HasDuplicate(parents);
    if duplicateParent {
      return Err(InvalidCommitParent);
    }
    var referenced := NormalizeIDsPreserveOrder(p.referenced);
    referenced := Sort(referenced);
    var duplicateReference := HasDuplicate(referenced);
    if duplicateReference || n.bodyId in referenced {
      return Err(InvalidArgument);
    }
    return Ok(n.(parents := parents, referenced := referenced));
  }

  // ----- The service

  datatype GcReport = GcReport(
    graph: Graph, orphanCandidates: seq<string>, deletedOrphans: seq<string>,
    before: (Account, Usage), after: (Account, Usage))

  class Service {
    const cfg: Config
    var accounts: map<Uuid, Account>
    var workspaces: map<Uuid, Workspace>
    var nextSeq: nat

    function Rows(): Db
      reads this
    {
      Db(accounts, workspaces, nextSeq)
    }

    constructor (cfg: Config)
      ensures this.cfg == cfg && Rows() == EMPTY_DB
    {
      this.cfg := cfg;
      accounts, workspaces, nextSeq := map[], map[], 1;
    }

    method CreateObjectUploadBatch(
        user: Uuid, w: Uuid, device: Uuid, attempt: string, rawRequests: seq<UploadRequest>, now: int)
      returns (r: Result<seq<string>>)
      modifies this
      ensures var spec := CreateUploadBatch(cfg, old(Rows()), user, w, device, attempt, rawRequests, now);
              if spec.Ok?
              then Rows() == spec.value && r.Ok? && |r.value| == |rawRequests|
                   && forall i | 0 <= i < |rawRequests| :: r.value[i] == Trim(rawRequests[i].objectId)
              else Rows() == old(Rows()) && r == Err(spec.error)
    {
      hide Trim, NormalDigest, BatchCheck, AddedBytes;
      if Trim(attempt) == "" || |rawRequests| == 0 || |rawRequests| > MAX_OBJECT_TRANSFER_BATCH {
        return Err(InvalidArgument);
      }
      if cfg.provider != S3Compatible {
        return Err(NotImplemented);
      }
      var ws :- Authorize(Rows(), user, w);
      :- Need(ActiveDevice(ws, user, device), PermissionDenied);
      :- Need(user in accounts, RowMissing);
      ghost var requests := CleanUploads(rawRequests);
      var candidates, added := PlanUploads(ws, device, rawRequests, now);
      if candidates.Err? {
        return Err(candidates.error);
      }
      var account := accounts[user];
      :- CheckUploadBatchQuota(cfg, account, ws.usage, added);
      var objects := ws.objects;
      var targets := [];
      assert forall i | 0 <= i < |requests| :: requests[i].objectId in ws.objects by {
        BatchAdmitted(cfg, ws, device, requests, now);
      }
      for i := 0 to |candidates.value|
        invariant objects == MarkedPending(ws.objects, requests, i, now + cfg.pendingAge)
        invariant |targets| == i && forall j | 0 <= j < i :: targets[j] == requests[j].objectId
        invariant Rows() == old(Rows())
      {
        var item := candidates.value[i];
        objects := objects[item.objectId := PendingRow(ws.objects[item.objectId], item, now + cfg.pendingAge)];
        targets := targets + [item.objectId];
      }
      workspaces := workspaces[
        w := ws.(objects := objects, usage := ws.usage.(pending := ws.usage.pending + added))];
      accounts := accounts[user := account.(pending := account.pending + added)];
      return Ok(targets);
    }

    /** The first loop of CreateObjectUploadBatch: check each request, note it as a candidate, add up new bytes. */
    method PlanUploads(ws: Workspace, device: Uuid, rawRequests: seq<UploadRequest>, now: int)
      returns (candidates: Result<seq<UploadRequest>>, added: int)
      ensures var requests := CleanUploads(rawRequests);
              var check := BatchCheck(cfg, ws, device, requests, |requests|, now);
              if check.Fail? then candidates == Err(check.error)
              else
                && candidates == Ok(requests)
                && (forall i | 0 <= i < |requests| :: requests[i].objectId in ws.objects)
                && added == AddedBytes(ws, requests, |requests|)
    {
      hide Trim, NormalDigest, RequestCheck;
      ghost var requests := CleanUploads(rawRequests);
      added := 0;
      var list: seq<UploadRequest> := [];
      var seen: set<string> := {};
      for i := 0 to |rawRequests|
        invariant BatchCheck(cfg, ws, device, requests, i, now).Pass?
        invariant list == requests[..i]
        invariant forall id :: id in seen <==> exists j | 0 <= j < i :: requests[j].objectId == id
        invariant forall j | 0 <= j < i :: requests[j].objectId in ws.objects
        invariant added == AddedBytes(ws, requests, i)
      {
        var request := rawRequests[i].(objectId := Trim(rawRequests[i].objectId),
          sha := NormalDigest(rawRequests[i].sha));
        assert request == requests[i];
        var check := RequestCheck(cfg, ws, device, request, request.objectId in seen, now);
        assert check == UploadCheck(cfg, ws, device, requests, i, now);
        if check.Fail? {
          BatchFails(cfg, ws, device, requests, i, |requests|, now);
          return Err(check.error), added;
        }
        PassedNamesRow(cfg, ws, device, requests, i, now);
        seen := seen + {request.objectId};
        if ws.objects[request.objectId].state == Reserved {
          added := added + request.size;
        }
        list := list + [request];
      }
      assert requests[..|requests|] == requests;
      return Ok(list), added;
    }

    method CompleteObjectUploadBatch(
        user: Uuid, w: Uuid, device: Uuid, attempt: string,
        rawRequests: seq<CompleteRequest>, heads: map<string, HeadReply>, now: int)
      returns (r: Result<seq<UploadResult>>)
      modifies this
      ensures var spec := CompleteUploadBatch(cfg, old(Rows()), user, w, device, attempt, rawRequests, heads, now);
              if spec.Ok?
              then Rows() == spec.value.0 && r == Ok(spec.value.1)
              else Rows() == old(Rows()) && r == Err(spec.error)
    {
      hide Trim, NormalDigest, CompleteRow;
      if Trim(attempt) == "" || |rawRequests| == 0 || |rawRequests| > MAX_OBJECT_TRANSFER_BATCH {
        return Err(InvalidArgument);
      }
      if cfg.provider != S3Compatible {
        return Err(NotImplemented);
      }
      var ws :- Authorize(Rows(), user, w);
      :- Need(ActiveDevice(ws, user, device), PermissionDenied);
      :- Need(user in accounts, RowMissing);
      ghost var requests := CleanCompletes(rawRequests);
      ghost var start := Tx(ws.objects, ws.usage, accounts[user], []);
      var tx := Tx(ws.objects, ws.usage, accounts[user], []);
      var seen: set<string> := {};
      for i := 0 to |rawRequests|
        invariant CompleteFirst(start, device, requests, i, heads, now) == Ok(tx)
        invariant forall id :: id in seen <==> exists j | 0 <= j < i :: requests[j].objectId == id
        invariant Rows() == old(Rows())
      {
        var request := rawRequests[i].(objectId := Trim(rawRequests[i].objectId),
          sha := NormalDigest(rawRequests[i].sha));
        assert request == requests[i];
        var next := CompleteRow(tx, device, request, request.objectId in seen, heads, now);
        assert next == CompleteOne(tx, device, requests, i, heads, now);
        if next.Err? {
          CompleteFails(start, device, requests, i, |requests|, heads, now);
          return Err(next.error);
        }
        seen := seen + {request.objectId};
        tx := next.value;
      }
      workspaces := workspaces[w := ws.(objects := tx.objects, usage := tx.usage)];
      accounts := accounts[user := tx.account];
      return Ok(tx.results);
    }

    method PublishCommit(verify: Verifier, user: Uuid, p: PublishParams, skip: nat) returns (r: Result<PublishResult>)
      modifies this
      ensures var spec := Publish(verify, old(Rows()), user, p, skip);
              if spec.Ok?
              then Rows() == spec.value.0 && r == Ok(spec.value.1)
              else Rows() == old(Rows()) && r == Err(spec.error)
    {
      hide Normalize, PublishCheck, FindCommit;
      var normalized := NormalizePublishCommitParams(p);
      if normalized.Err? {
        return Err(normalized.error);
      }
      var n := normalized.value;
      var ws :- Authorize(Rows(), user, n.workspace);
      var existing := FindCommit(ws.commits, n.commitId);
      if existing.Some? {
        if !MatchesPayload(existing.value, PayloadOf(n), n.signature) {
          return Err(DuplicateCommitPayload);
        }
        return Ok(PublishResult(existing.value, ws.headVersion, true));
      }
      var check := PublishCheck(verify, ws, user, n);
      if check.Fail? {
        return Err(check.error);
      }
      PublishOutcome(verify, Rows(), user, p, skip);
      var commit := RowOf(n, nextSeq + skip);
      var links := LinkCommitObjects(ws, commit);
      var device := ws.devices[commit.author];
      var updated := ws.(
        commits := ws.commits + [commit],
        links := links,
        devices := ws.devices[commit.author := device.(lastSeq := commit.deviceSeq)],
        cursors := ws.cursors[commit.author := NextCursor(ws, commit)],
        head := ToText(commit.id),
        headVersion := ws.headVersion + 1);
      workspaces := workspaces[n.workspace := updated];
      nextSeq := nextSeq + skip + 1;
      return Ok(PublishResult(commit, updated.headVersion, false));
    }

    method LinkCommitObjects(ws: Workspace, c: Commit) returns (links: map<Link, ObjectRole>)
      requires forall o | o in c.referenced :: o in ws.objects
      ensures links == AddLinks(AddLink(ws.links, Link(c.id, c.bodyId), BodyRole), c.id, c.referenced, ws.objects)
    {
      links := AddLink(ws.links, Link(c.id, c.bodyId), BodyRole);
      ghost var all := AddLinks(links, c.id, c.referenced, ws.objects);
      assert c.referenced[0..] == c.referenced;
      for i := 0 to |c.referenced|
        invariant AddLinks(links, c.id, c.referenced[i..], ws.objects) == all
      {
        var o := c.referenced[i];
        assert c.referenced[i..][1..] == c.referenced[i + 1..];
        links := AddLink(links, Link(c.id, o), RoleOf(ws.objects[o].kind));
      }
    }

    method RunWorkspaceGC(
        user: Uuid, w: Uuid, dryRun: bool, now: int, limit: int, ghost locked: set<string>,
        orphans: seq<string>, linkRows: seq<Link>, blobFails: bool)
      returns (r: Result<GcReport>)
      requires w in workspaces ==> OrphanListing(workspaces[w].objects, now, limit, locked, orphans)
      modifies this
      ensures var spec := Collect(old(Rows()), user, w, dryRun, orphans, blobFails);
              if spec.Err? then Rows() == old(Rows()) && r == Err(spec.error)
              else
                && Rows() == spec.value && r.Ok?
                && var ws := old(workspaces)[w];
                && r.value.graph == BuildGraph(ws.head, Newest(ws.commits), linkRows)
                && r.value.orphanCandidates == orphans
                && r.value.deletedOrphans == (if dryRun then [] else orphans)
                && r.value.before == (EnsureAccount(old(Rows()), user).accounts[user], ws.usage)
                && r.value.after == (accounts[user], workspaces[w].usage)
    {
      hide BuildGraph, OrphanListing, Recount, RecountAccount, MarkedDeleted;
      var ws :- Authorize(Rows(), user, w);
      ListingHolds(ws.objects, now, limit, locked, orphans);
      var account := if user in accounts then accounts[user] else Account(0, 0, 0);
      var before := (account, ws.usage);
      var graph := BuildReachableObjectGraph(ws.head, Newest(ws.commits), linkRows);
      if dryRun || |orphans| == 0 {
        accounts := accounts[user := account];
        assert Rows() == EnsureAccount(old(Rows()), user);
        return Ok(GcReport(graph, orphans, [], before, before));
      }
      if blobFails {
        return Err(StoreUnavailable);
      }
      var objects := DeleteOrphans(ws.objects, orphans);
      var usage := RecalculateUsageWorkspace(objects);
      var updated := workspaces[w := ws.(objects := objects, usage := usage)];
      var recounted := RecalculateUsageAccount(updated, user);
      workspaces := updated;
      accounts := accounts[user := recounted];
      assert Rows() == Collect(old(Rows()), user, w, dryRun, orphans, blobFails).value;
      return Ok(GcReport(graph, orphans, orphans, before, (recounted, usage)));
    }

    method DeleteOrphans(rows: map<string, SyncObject>, orphans: seq<string>) returns (objects: map<string, SyncObject>)
      requires forall id | id in orphans :: id in rows
      ensures objects == MarkedDeleted(rows, orphans)
    {
      objects := rows;
      for i := 0 to |orphans|
        invariant objects == MarkedDeleted(rows, orphans[..i])
      {
        objects := objects[orphans[i] := WipedObject(rows[orphans[i]])];
        assert orphans[..i + 1][..i] == orphans[..i];
      }
      assert orphans[..|orphans|] == orphans;
    }

    method RecalculateSyncUsage(user: Uuid, w: Uuid) returns (r: Result<(Account, Usage)>)
      modifies this
      ensures var spec := Recalculate(old(Rows()), user, w);
              if spec.Ok?
              then Rows() == spec.value && r == Ok((accounts[user], workspaces[w].usage))
              else Rows() == old(Rows()) && r == Err(spec.error)
    {
      var ws :- Authorize(Rows(), user, w);
      var usage := RecalculateUsageWorkspace(ws.objects);
      workspaces := workspaces[w := ws.(usage := usage)];
      var account := RecalculateUsageAccount(workspaces, user);
      accounts := accounts[user := account];
      return Ok((account, usage));
    }
  }

  lemma PassedNamesRow(cfg: Config, ws: Workspace, device: Uuid, requests: seq<UploadRequest>, i: nat, now: int)
    requires i < |requests| && UploadCheck(cfg, ws, device, requests, i, now).Pass?
    ensures requests[i].objectId in ws.objects
  {
  }

  /** A completion batch stops at the first request that is rejected. */
  lemma {:induction false} CompleteFails(
      tx: Tx, device: Uuid, requests: seq<CompleteRequest>, i: nat, n: nat, heads: map<string, HeadReply>, now: int)
    requires i < n <= |requests|
    requires CompleteFirst(tx, device, requests, i, heads, now).Ok?
    requires CompleteOne(CompleteFirst(tx, device, requests, i, heads, now).value, device, requests, i, heads, now).Err?
    ensures CompleteFirst(tx, device, requests, n, heads, now)
         == CompleteOne(CompleteFirst(tx, device, requests, i, heads, now).value, device, requests, i, heads, now)
    decreases n
  {
    hide CompleteOne;
    if i + 1 < n { CompleteFails(tx, device, requests, i, n - 1, heads, now); }
  }
}
