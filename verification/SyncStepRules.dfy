/**
 What the other transactions of the sync service accept and write (service.go, gc.go and
 account deletion), said of the rows alone: workspaces and devices, the development upload,
 deletion for good, and which rows a collection clears.
 */
module SyncStepRules {
  import opened Text
  import opened SyncRows
  import opened SyncUsage
  import opened SyncUploads
  import opened SyncCommits
  import opened SyncGc
  import opened SyncSteps
  import opened SyncUploadRules

  predicate OwnsLive(db: Db, user: Uuid, w: Uuid) {
    w in db.workspaces && db.workspaces[w].owner == user && !db.workspaces[w].deleted
  }

  // ----- Workspaces and devices

  /** A user has the workspaces of the account row, and none without one. */
  function WorkspaceCountOf(db: Db, user: Uuid): int {
    if user in db.accounts then db.accounts[user].workspaces else 0
  }

  /** A workspace is created exactly for a named crypto version, a fresh id and a user below the limit; it starts
      empty, live and owned by that user, and the user's count rises by one. */
  lemma CreatedExactly(cfg: Config, db: Db, user: Uuid, version: string, id: Uuid)
    ensures
      var r := CreateWorkspace(cfg, db, user, version, id);
      && (r.Ok? <==> Trim(version) != "" && WorkspaceCountOf(db, user) < cfg.maxWorkspaces
                     && id != 0 && id !in db.workspaces)
      && (r.Ok? ==>
            var after := r.value;
            && after.workspaces.Keys == db.workspaces.Keys + {id} && after.nextSeq == db.nextSeq
            && (forall w | w in db.workspaces :: after.workspaces[w] == db.workspaces[w])
            && after.workspaces[id] == Workspace(user, false, None, 0, map[], map[], map[], [], map[], Usage(0, 0, 0))
            && after.accounts.Keys == db.accounts.Keys + {user}
            && (forall u | u in db.accounts && u != user :: after.accounts[u] == db.accounts[u])
            && WorkspaceCountOf(after, user) == WorkspaceCountOf(db, user) + 1
            && after.accounts[user].storage == (if user in db.accounts then db.accounts[user].storage else 0)
            && after.accounts[user].pending == (if user in db.accounts then db.accounts[user].pending else 0))
      && (Trim(version) != "" && WorkspaceCountOf(db, user) >= cfg.maxWorkspaces ==>
            r == Err(QuotaExceeded(WorkspaceCount, cfg.maxWorkspaces, WorkspaceCountOf(db, user), 1)))
  {
    hide Trim;
  }

  /** A device is registered exactly with a 32-byte key and a fresh id in one's own live workspace; it starts unrevoked
      at sequence zero with that key, and nothing else changes. */
  lemma RegisteredExactly(db: Db, user: Uuid, w: Uuid, id: Uuid, key: Bytes)
    ensures
      var r := RegisterDevice(db, user, w, id, key);
      && (r.Ok? <==> |key| == 32 && OwnsLive(db, user, w) && id != 0 && id !in db.workspaces[w].devices)
      && (r.Ok? ==>
            var after := r.value;
            && after == db.(workspaces := after.workspaces) && after.workspaces.Keys == db.workspaces.Keys
            && (forall v | v in db.workspaces && v != w :: after.workspaces[v] == db.workspaces[v])
            && var was, now := db.workspaces[w], after.workspaces[w];
            && now == was.(devices := now.devices) && now.devices.Keys == was.devices.Keys + {id}
            && (forall d | d in was.devices :: now.devices[d] == was.devices[d])
            && now.devices[id].user == user && now.devices[id].signingKey == key
            && now.devices[id].lastSeq == 0 && !now.devices[id].revoked)
  {
  }

  // ----- The development upload

  predicate DevUploadFits(
      cfg: Config, db: Db, user: Uuid, w: Uuid, device: Uuid, id: string, sha: string, size: int)
  {
    && cfg.devBytesEnabled && IsSha256Hex(NormalDigest(sha)) && 1 <= size <= cfg.maxSingleBlob
    && MayUpload(db, user, w, device) && user in db.accounts
    && db.accounts[user].storage + size <= cfg.maxTotalPerUser
    && db.workspaces[w].usage.storage + size <= cfg.maxPerWorkspace
    && id in db.workspaces[w].objects && db.workspaces[w].objects[id].provider == Local
  }

  /** A development upload succeeds exactly when the limits hold and the row is the local store's and open, or is
      already available with the same digest and size, in which case nothing changes. */
  lemma DevUploadedExactly(
      cfg: Config, db: Db, user: Uuid, w: Uuid, device: Uuid,
      id: string, sha: string, size: int, blobMatches: bool, putFails: bool)
    ensures
      var r := UploadBytesDev(cfg, db, user, w, device, id, sha, size, blobMatches, putFails);
      && (r.Ok? <==>
            && blobMatches && DevUploadFits(cfg, db, user, w, device, id, sha, size)
            && var o := db.workspaces[w].objects[id];
            || (o.state == Available && o.sha == NormalDigest(sha) && o.size == size)
            || ((o.state == Reserved || o.state == Pending) && !putFails))
      && (r.Ok? && db.workspaces[w].objects[id].state == Available ==> r.value == db)
  {
    hide Trim, NormalDigest, IsSha256Hex;
  }

  /** The row it writes, and the counters it moves. */
  lemma DevUploadedRows(
      cfg: Config, db: Db, user: Uuid, w: Uuid, device: Uuid,
      id: string, sha: string, size: int, blobMatches: bool, putFails: bool)
    requires UploadBytesDev(cfg, db, user, w, device, id, sha, size, blobMatches, putFails).Ok?
    requires w in db.workspaces && id in db.workspaces[w].objects && db.workspaces[w].objects[id].state != Available
    ensures
      var after := UploadBytesDev(cfg, db, user, w, device, id, sha, size, blobMatches, putFails).value;
      && w in after.workspaces && user in db.accounts && user in after.accounts && after.nextSeq == db.nextSeq
      && (forall v | v in db.workspaces && v != w :: v in after.workspaces && after.workspaces[v] == db.workspaces[v])
      && var was, now := db.workspaces[w], after.workspaces[w];
      && now == was.(objects := now.objects, usage := now.usage) && now.objects.Keys == was.objects.Keys
      && (forall x | x in was.objects && x != id :: now.objects[x] == was.objects[x])
      && var o := was.objects[id];
      && now.objects[id] == SyncObject(o.kind, Local, NormalDigest(sha), size, Available, o.createdBy, None, None)
      && now.usage == Usage(was.usage.storage + size, was.usage.count + 1, was.usage.pending)
      && after.accounts[user].storage == db.accounts[user].storage + size
      && after.accounts[user].pending == db.accounts[user].pending
  {
    hide Trim, NormalDigest, IsSha256Hex;
  }

  // ----- Deletion

  /** Deleting marks one's own live workspace and nothing else; a workspace that is not one's own is left alone. */
  lemma DeletedExactly(db: Db, user: Uuid, w: Uuid)
    ensures
      var after := DeleteWorkspace(db, user, w);
      && after.workspaces.Keys == db.workspaces.Keys && after.nextSeq == db.nextSeq
      && (forall v | v in db.workspaces ::
            && after.workspaces[v] == db.workspaces[v].(deleted := after.workspaces[v].deleted)
            && (after.workspaces[v].deleted <==>
                  db.workspaces[v].deleted || (v == w && db.workspaces[v].owner == user)))
      && after.accounts.Keys == db.accounts.Keys + {user}
      && (forall u | u in db.accounts && u != user :: after.accounts[u] == db.accounts[u])
      && after.accounts[user] == RecountAccount(after.workspaces, user)
  {
    hide RecountAccount;
  }

  /** Deleting an account empties it: its workspaces are deleted, their devices revoked and their objects wiped, and
      nobody else's rows change. */
  lemma AccountDeletedExactly(db: Db, user: Uuid)
    ensures
      var after := DeleteAccount(db, user);
      && after.workspaces.Keys == db.workspaces.Keys && after.accounts.Keys == db.accounts.Keys
      && after.nextSeq == db.nextSeq
      && (user in after.accounts ==> after.accounts[user] == Account(0, 0, 0))
      && (forall u | u in db.accounts && u != user :: after.accounts[u] == db.accounts[u])
      && (forall w | w in db.workspaces && db.workspaces[w].owner != user :: after.workspaces[w] == db.workspaces[w])
      && forall w | w in db.workspaces && db.workspaces[w].owner == user ::
           var was, now := db.workspaces[w], after.workspaces[w];
           && now.deleted && now.owner == user && now.commits == was.commits && now.usage == Usage(0, 0, 0)
           && now.head == was.head && now.headVersion == was.headVersion
           && now.cursors == was.cursors && now.links == was.links
           && now.devices.Keys == was.devices.Keys && now.objects.Keys == was.objects.Keys
           && (forall d | d in was.devices :: now.devices[d] == was.devices[d].(revoked := true))
           && (forall o | o in was.objects ::
                 now.objects[o] == was.objects[o].(state := Deleted, expiresAt := None))
  {
  }

  /** Nobody gets back into a deleted workspace, whatever happens later. */
  lemma DeletedForGood(
      cfg: Config, verify: Verifier, db: Db, user: Uuid, w: Uuid, later: seq<Op>, anyone: Uuid)
    requires ValidConfig(cfg) && Inv(cfg, db) && OwnsLive(db, user, w)
    ensures Authorize(Run(cfg, verify, DeleteWorkspace(db, user, w), later), anyone, w) == Err(PermissionDenied)
    ensures Authorize(Run(cfg, verify, DeleteAccount(db, user), later), anyone, w) == Err(PermissionDenied)
  {
    hide Run, Inv, DeleteWorkspace, DeleteAccount, Grows, WorkspaceGrows;
    StepKeeps(cfg, verify, db, OpDeleteWorkspace(user, w));
    StepKeeps(cfg, verify, db, OpDeleteAccount(user));
    DeletedExactly(db, user, w);
    AccountDeletedExactly(db, user);
    StaysDeleted(cfg, verify, DeleteWorkspace(db, user, w), later, w);
    StaysDeleted(cfg, verify, DeleteAccount(db, user), later, w);
  }

  lemma StaysDeleted(cfg: Config, verify: Verifier, db: Db, later: seq<Op>, w: Uuid)
    requires ValidConfig(cfg) && Inv(cfg, db) && w in db.workspaces && db.workspaces[w].deleted
    ensures w in Run(cfg, verify, db, later).workspaces && Run(cfg, verify, db, later).workspaces[w].deleted
  {
    hide Run, Inv, RowsKept;
    RunKeeps(cfg, verify, db, later);
    assert WorkspaceGrows(db.workspaces[w], Run(cfg, verify, db, later).workspaces[w]);
  }

  // ----- Recounting

  /** Recounting sets the counters to what the rows say, whatever they said before, and changes no row. */
  lemma RecalculateCorrects(db: Db, user: Uuid, w: Uuid)
    ensures
      var r := Recalculate(db, user, w);
      && (r.Ok? <==> OwnsLive(db, user, w))
      && (r.Ok? ==>
            var after := r.value;
            && after.workspaces.Keys == db.workspaces.Keys && after.nextSeq == db.nextSeq
            && (forall v | v in db.workspaces && v != w :: after.workspaces[v] == db.workspaces[v])
            && after.workspaces[w] == db.workspaces[w].(usage := after.workspaces[w].usage)
            && after.workspaces[w].usage == Recount(after.workspaces[w].objects)
            && user in after.accounts && after.accounts[user] == RecountAccount(after.workspaces, user)
            && (forall u | u in db.accounts && u != user :: u in after.accounts && after.accounts[u] == db.accounts[u]))
  {
    hide Recount, RecountAccount;
  }

  // ----- Which rows a collection clears

  /** A reservation or upload that never finished and whose deadline has passed. */
  predicate Lapsed(o: SyncObject, now: int) {
    o.state != Available && o.state != Deleted && Past(o, now)
  }

  /** A collection is refused exactly when the workspace is not the user's own or the store fails on a row to
      delete. */
  lemma CollectedExactly(db: Db, user: Uuid, w: Uuid, dryRun: bool, orphans: seq<string>, blobFails: bool)
    requires w in db.workspaces ==> forall id | id in orphans :: id in db.workspaces[w].objects
    ensures Collect(db, user, w, dryRun, orphans, blobFails).Ok?
       <==> OwnsLive(db, user, w) && (dryRun || orphans == [] || !blobFails)
  {
    hide Recount, RecountAccount, MarkedDeleted;
  }

  /** Every row a collection changes had lapsed and is wiped; a lapsed row that nobody else holds is left only when the
      collection reached its limit, 100 unless a positive one was asked for, on rows that lapsed no later. */
  lemma CollectionClears(
      db: Db, user: Uuid, w: Uuid, now: int, limit: int, locked: set<string>, orphans: seq<string>)
    requires w in db.workspaces && OrphanListing(db.workspaces[w].objects, now, limit, locked, orphans)
    requires forall id | id in orphans :: id in db.workspaces[w].objects
    requires Collect(db, user, w, false, orphans, false).Ok?
    ensures
      var after := Collect(db, user, w, false, orphans, false).value;
      && w in after.workspaces
      && var was, now' := db.workspaces[w].objects, after.workspaces[w].objects;
      && now'.Keys == was.Keys
      && (forall id | id in was && now'[id] != was[id] ::
            && Lapsed(was[id], now) && id !in locked
            && now'[id] == was[id].(state := Deleted, expiresAt := None))
      && forall id | id in was && now'[id] == was[id] && Lapsed(was[id], now) && id !in locked ::
           && |orphans| == (if limit <= 0 then 100 else limit)
           && forall o | o in orphans ::
                o in was && was[o].expiresAt.Some? && was[o].expiresAt.value <= was[id].expiresAt.value
  {
    hide Recount, RecountAccount, Collect, LexLe;
    CollectWipes(db, user, w, false, orphans, false);
  }

  /** A dry run leaves every row as it was. */
  lemma DryRunChangesNothing(db: Db, user: Uuid, w: Uuid, orphans: seq<string>, blobFails: bool)
    requires w in db.workspaces && forall id | id in orphans :: id in db.workspaces[w].objects
    requires Collect(db, user, w, true, orphans, blobFails).Ok?
    ensures
      var after := Collect(db, user, w, true, orphans, blobFails).value;
      && after.workspaces == db.workspaces && after.nextSeq == db.nextSeq
      && forall u | u in db.accounts :: u in after.accounts && after.accounts[u] == db.accounts[u]
  {
    hide Recount, RecountAccount, MarkedDeleted;
  }

  // ----- Which role a link has

  /** In a log that publishing built, each link's role is the one of its object's kind. */
  lemma LinkRoles(ws: Workspace, l: Link)
    requires LinksOk(ws) && l in ws.links
    ensures
      && l.objectId in ws.objects
      && var kind, role := ws.objects[l.objectId].kind, ws.links[l];
      && (role == BodyRole <==> kind == CommitBody) && (role == ContentPackRole <==> kind == ContentPack)
      && (role == CheckpointPackRole <==> kind == CheckpointPack) && (role == LargeObjectRole <==> kind == LargeObject)
  {
  }

  // ----- There is always a listing

  predicate Dated(objects: map<string, SyncObject>, ids: set<string>) {
    forall id | id in ids :: id in objects && objects[id].expiresAt.Some?
  }

  lemma ListedTotal(objects: map<string, SyncObject>, a: string, b: string)
    requires Dated(objects, {a, b})
    ensures ListedBefore(objects, a, b) || ListedBefore(objects, b, a)
  {
    assert a in {a, b} && b in {a, b};
    LexTotal(a, b);
  }

  lemma ListedTransitive(objects: map<string, SyncObject>, a: string, b: string, c: string)
    requires Dated(objects, {a, b, c}) && ListedBefore(objects, a, b) && ListedBefore(objects, b, c)
    ensures ListedBefore(objects, a, c)
  {
    assert a in {a, b, c} && b in {a, b, c} && c in {a, b, c};
    if LexLe(a, b) && LexLe(b, c) { LexTransitive(a, b, c); }
  }

  lemma {:induction false} Least(objects: map<string, SyncObject>, ids: set<string>) returns (least: string)
    requires ids != {} && Dated(objects, ids)
    ensures least in ids && forall id | id in ids :: ListedBefore(objects, least, id)
    decreases |ids|
  {
    hide ListedBefore;
    var a :| a in ids;
    ListedTotal(objects, a, a);
    least := a;
    if ids != {a} {
      var rest := ids - {a};
      assert rest != {} by {
        var b :| b in ids && b != a;
        assert b in rest;
      }
      var b := Least(objects, rest);
      ListedTotal(objects, a, b);
      if ListedBefore(objects, a, b) {
        forall id | id in ids ensures ListedBefore(objects, a, id) {
          if id != a { ListedTransitive(objects, a, b, id); }
        }
      } else {
        least := b;
      }
    }
  }

  /** The first n of a set of dated rows, in listing order. */
  predicate FirstOf(objects: map<string, SyncObject>, ids: set<string>, n: nat, list: seq<string>)
    requires Dated(objects, ids)
  {
    && |list| <= n
    && (forall id | id in list :: id in ids)
    && (forall i, j | 0 <= i < j < |list| :: list[i] != list[j] && ListedBefore(objects, list[i], list[j]))
    && (forall id | id in ids && id !in list :: |list| == n && forall o | o in list :: ListedBefore(objects, o, id))
  }

  lemma {:induction false} TakeFirst(objects: map<string, SyncObject>, ids: set<string>, n: nat)
    returns (list: seq<string>)
    requires Dated(objects, ids)
    ensures FirstOf(objects, ids, n, list)
    decreases n
  {
    hide ListedBefore;
    list := [];
    if n > 0 && ids != {} {
      var least := Least(objects, ids);
      var rest := TakeFirst(objects, ids - {least}, n - 1);
      list := [least] + rest;
      forall i, j | 0 <= i < j < |list| ensures list[i] != list[j] && ListedBefore(objects, list[i], list[j]) {
        assert list[j] == rest[j - 1] && list[j] in rest;
        if i > 0 { assert list[i] == rest[i - 1]; }
      }
    }
  }

  /** Whatever the rows, the clock, the limit and the locks, there is a listing to collect. */
  lemma ListingExists(objects: map<string, SyncObject>, now: int, limit: int, locked: set<string>)
    returns (orphans: seq<string>)
    ensures OrphanListing(objects, now, limit, locked, orphans)
  {
    hide ListedBefore;
    var ids := set id | id in objects && Eligible(objects[id], now) && id !in locked;
    orphans := TakeFirst(objects, ids, OrphanLimit(limit));
  }

  // ----- Which objects the graph names

  predicate Names(c: Commit, o: string) {
    o == c.bodyId || o in c.referenced
  }

  lemma NamedByCommits(commits: seq<Commit>, links: seq<Link>, ids: set<string>, o: string)
    requires o != ""
    requires forall l | l in links :: exists c | c in commits :: c.id == l.commitId && Names(c, l.objectId)
    ensures o in ObjectsOfAll(commits, links, ids) <==> exists c | c in commits :: c.id in ids && Names(c, o)
  {
    if o in ObjectsOfAll(commits, links, ids) {
      var id :| id in ids && o in ObjectsOf(commits, links, id);
      if l :| l in links && l.commitId == id && l.objectId == o {
        var c :| c in commits && c.id == l.commitId && Names(c, l.objectId);
      } else {
        var c :| c in commits && c.id == id && o in FieldObjects(c);
        assert Names(c, o);
      }
    }
    if c :| c in commits && c.id in ids && Names(c, o) {
      assert o in FieldObjects(c);
      assert o in ObjectsOf(commits, links, c.id);
    }
  }

  /** The graph of a log names exactly the objects its commits name, and preserves exactly those that the commits from
      the latest checkpoint on name. */
  lemma GraphObjects(ws: Workspace, links: seq<Link>, o: string) returns (k: nat)
    requires LogOk(ws) && ws.commits != [] && o != "" && forall l | l in links :: l in ws.links
    ensures IsLatestCheckpoint(ws.commits, k)
    ensures
      var g := BuildGraph(ws.head, Newest(ws.commits), links);
      && (o in g.objectIds <==> exists c | c in ws.commits :: Names(c, o))
      && (o in g.preservedObjectIds <==> exists c | c in ws.commits[k..] :: Names(c, o))
  {
    hide ObjectsOfAll, ReachableIds, ById, OldHistory, LatestCheckpoint, PreservedIds, SeqsRise, LastSeqsOk, CursorsOk;
    k := GraphOfLog(ws, links);
    var commits := Newest(ws.commits);
    LinksNamed(ws, links);
    NamedByCommits(commits, links, Ids(ws.commits), o);
    NamedByCommits(commits, links, Ids(ws.commits[k..]), o);
    SameMembers(ws.commits);
    SuffixById(ws.commits, k);
  }

  lemma LinksNamed(ws: Workspace, links: seq<Link>)
    requires LinksOk(ws) && forall l | l in links :: l in ws.links
    ensures forall l | l in links :: exists c | c in Newest(ws.commits) :: c.id == l.commitId && Names(c, l.objectId)
  {
    forall l | l in links ensures exists c | c in Newest(ws.commits) :: c.id == l.commitId && Names(c, l.objectId) {
      var i :| 0 <= i < |ws.commits| && LinkOf(ws.commits[i], l);
      assert Newest(ws.commits)[|ws.commits| - 1 - i] == ws.commits[i];
    }
  }

  lemma SameMembers(commits: seq<Commit>)
    ensures forall c :: c in Newest(commits) <==> c in commits
    ensures forall c | c in commits :: c.id in Ids(commits)
  {
    forall c | c in commits ensures c in Newest(commits) {
      var i :| 0 <= i < |commits| && commits[i] == c;
      assert Newest(commits)[|commits| - 1 - i] == c;
    }
  }

  lemma SuffixById(commits: seq<Commit>, k: nat)
    requires DistinctIds(commits) && k < |commits|
    ensures forall c | c in commits :: c.id in Ids(commits[k..]) <==> c in commits[k..]
  {
    forall c | c in commits && c.id in Ids(commits[k..]) ensures c in commits[k..] {
      var d :| d in commits[k..] && d.id == c.id;
      var i :| 0 <= i < |commits| && commits[i] == c;
      var j :| 0 <= j < |commits[k..]| && commits[k..][j] == d;
      assert commits[k + j] == d;
      assert i == k + j;
    }
  }
}
