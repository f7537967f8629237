/**
 Byte accounting (quota.go and the usage queries). The usage rows are counters kept up to
 date one update at a time; the reference is a recount of the object and workspace rows.
 */
module SyncUsage {
  import opened Text
  import opened SyncRows

  // ----- Sums over the rows of a table

  ghost function Total<K(!new), V>(m: map<K, V>, weight: V -> int): int
    decreases |m|
  {
    if m == map[] then 0 else
      var k :| k in m;
      weight(m[k]) + Total(m - {k}, weight)
  }

  lemma {:induction false} TotalRemove<K(!new), V>(m: map<K, V>, k: K, weight: V -> int)
    requires k in m
    ensures Total(m, weight) == weight(m[k]) + Total(m - {k}, weight)
    decreases |m|
  {
    var j :| j in m && Total(m, weight) == weight(m[j]) + Total(m - {j}, weight);
    if j != k {
      TotalRemove(m - {j}, k, weight);
      TotalRemove(m - {k}, j, weight);
      assert m - {j} - {k} == m - {k} - {j};
    }
  }

  /** Writing one row changes a sum by the difference of the two weights. */
  lemma TotalUpdate<K(!new), V>(m: map<K, V>, k: K, v: V, weight: V -> int)
    ensures Total(m[k := v], weight)
         == Total(m, weight) + weight(v) - (if k in m then weight(m[k]) else 0)
  {
    TotalRemove(m[k := v], k, weight);
    if k in m {
      TotalRemove(m, k, weight);
      assert m[k := v] - {k} == m - {k};
    } else {
      assert m[k := v] - {k} == m;
    }
  }

  lemma {:induction false} TotalSame<K(!new), V>(m: map<K, V>, n: map<K, V>, weight: V -> int)
    requires m.Keys == n.Keys && forall k | k in m :: weight(m[k]) == weight(n[k])
    ensures Total(m, weight) == Total(n, weight)
    decreases |m|
  {
    if m != map[] {
      var k :| k in m;
      TotalRemove(m, k, weight);
      TotalRemove(n, k, weight);
      TotalSame(m - {k}, n - {k}, weight);
    } else {
      assert n == map[];
    }
  }

  lemma {:induction false} TotalZero<K(!new), V>(m: map<K, V>, weight: V -> int)
    requires forall k | k in m :: weight(m[k]) == 0
    ensures Total(m, weight) == 0
    decreases |m|
  {
    if m != map[] {
      var k :| k in m;
      TotalRemove(m, k, weight);
      TotalZero(m - {k}, weight);
    }
  }

  // ----- What the counters stand for

  function AvailableBytes(o: SyncObject): int { if o.state == Available then o.size else 0 }
  function AvailableOne(o: SyncObject): int { if o.state == Available then 1 else 0 }
  function PendingBytes(o: SyncObject): int { if o.state == Pending then o.size else 0 }

  /** RecalculateSyncUsageWorkspace. */
  ghost function Recount(objects: map<string, SyncObject>): Usage {
    Usage(Total(objects, AvailableBytes), Total(objects, AvailableOne), Total(objects, PendingBytes))
  }

  function Live(user: Uuid, ws: Workspace): bool { ws.owner == user && !ws.deleted }
  function LiveOne(user: Uuid): Workspace -> int { ws => if Live(user, ws) then 1 else 0 }
  function LiveStorage(user: Uuid): Workspace -> int { ws => if Live(user, ws) then ws.usage.storage else 0 }
  function LivePending(user: Uuid): Workspace -> int { ws => if Live(user, ws) then ws.usage.pending else 0 }

  /** RecalculateSyncUsageAccount. */
  ghost function RecountAccount(workspaces: map<Uuid, Workspace>, user: Uuid): Account {
    Account(
      Total(workspaces, LiveOne(user)),
      Total(workspaces, LiveStorage(user)),
      Total(workspaces, LivePending(user)))
  }

  ghost predicate UsageOk(ws: Workspace) {
    ws.usage == Recount(ws.objects)
  }

  ghost predicate AccountsOk(db: Db) {
    && (forall u | u in db.accounts :: db.accounts[u] == RecountAccount(db.workspaces, u))
    && (forall w | w in db.workspaces && !db.workspaces[w].deleted :: db.workspaces[w].owner in db.accounts)
  }

  predicate WorkspaceQuotaOk(cfg: Config, usage: Usage) {
    && usage.pending <= cfg.maxPending
    && usage.storage + usage.pending <= cfg.maxPerWorkspace
  }

  predicate AccountQuotaOk(cfg: Config, account: Account) {
    && account.storage + account.pending <= cfg.maxTotalPerUser
    && account.workspaces <= cfg.maxWorkspaces
  }

  predicate QuotasOk(cfg: Config, db: Db) {
    && (forall w | w in db.workspaces :: WorkspaceQuotaOk(cfg, db.workspaces[w].usage))
    && (forall u | u in db.accounts :: AccountQuotaOk(cfg, db.accounts[u]))
  }

  /** checkUploadBatchQuota. */
  function CheckUploadBatchQuota(cfg: Config, account: Account, usage: Usage, additional: int): Check {
    if usage.pending + additional > cfg.maxPending then
      Fail(QuotaExceeded(PendingUploadBytes, cfg.maxPending, usage.pending, additional))
    else if account.storage + account.pending + additional > cfg.maxTotalPerUser then
      Fail(QuotaExceeded(UserTotalStorageBytes, cfg.maxTotalPerUser, account.storage + account.pending, additional))
    else if usage.storage + usage.pending + additional > cfg.maxPerWorkspace then
      Fail(QuotaExceeded(WorkspaceStorageBytes, cfg.maxPerWorkspace, usage.storage + usage.pending, additional))
    else
      Pass
  }

  /** The check passes exactly when no limit would be exceeded by the added bytes, and an error names a limit that
      would. */
  lemma QuotaCheckExact(cfg: Config, account: Account, usage: Usage, additional: int)
    ensures CheckUploadBatchQuota(cfg, account, usage, additional).Pass?
       <==> WorkspaceQuotaOk(cfg, usage.(pending := usage.pending + additional))
            && account.storage + (account.pending + additional) <= cfg.maxTotalPerUser
    ensures var c := CheckUploadBatchQuota(cfg, account, usage, additional);
            c.Fail? ==> c.error.QuotaExceeded? && c.error.current + c.error.requested > c.error.max
  {
  }

  // ----- Writing one row

  lemma RecountUpdate(objects: map<string, SyncObject>, id: string, o: SyncObject)
    ensures var was := if id in objects then objects[id] else o.(state := Deleted);
            var before, after := Recount(objects), Recount(objects[id := o]);
            && after.storage == before.storage + AvailableBytes(o) - AvailableBytes(was)
            && after.count == before.count + AvailableOne(o) - AvailableOne(was)
            && after.pending == before.pending + PendingBytes(o) - PendingBytes(was)
  {
    TotalUpdate(objects, id, o, AvailableBytes);
    TotalUpdate(objects, id, o, AvailableOne);
    TotalUpdate(objects, id, o, PendingBytes);
  }

  lemma RecountAccountUpdate(workspaces: map<Uuid, Workspace>, w: Uuid, ws: Workspace, user: Uuid)
    requires w in workspaces
    ensures var was := workspaces[w];
            var before, after := RecountAccount(workspaces, user), RecountAccount(workspaces[w := ws], user);
            && after.workspaces == before.workspaces + LiveOne(user)(ws) - LiveOne(user)(was)
            && after.storage == before.storage + LiveStorage(user)(ws) - LiveStorage(user)(was)
            && after.pending == before.pending + LivePending(user)(ws) - LivePending(user)(was)
  {
    TotalUpdate(workspaces, w, ws, LiveOne(user));
    TotalUpdate(workspaces, w, ws, LiveStorage(user));
    TotalUpdate(workspaces, w, ws, LivePending(user));
  }

  /** When a workspace counter and its owner's account move by the same amounts, every account still agrees with a
      recount. */
  lemma AccountsFollow(db: Db, w: Uuid, ws: Workspace, account: Account)
    requires AccountsOk(db) && w in db.workspaces && !db.workspaces[w].deleted
    requires ws.owner == db.workspaces[w].owner && !ws.deleted
    requires var was := db.accounts[ws.owner];
             && account.workspaces == was.workspaces
             && account.storage - was.storage == ws.usage.storage - db.workspaces[w].usage.storage
             && account.pending - was.pending == ws.usage.pending - db.workspaces[w].usage.pending
    ensures AccountsOk(Write(db, w, ws, ws.owner, account))
  {
    forall u | u in db.accounts
      ensures Write(db, w, ws, ws.owner, account).accounts[u] == RecountAccount(db.workspaces[w := ws], u)
    {
      RecountAccountUpdate(db.workspaces, w, ws, u);
    }
  }

  // ----- The recount queries as loops over rows

  method RecalculateUsageWorkspace(objects: map<string, SyncObject>) returns (usage: Usage)
    ensures usage == Recount(objects)
  {
    usage := Usage(0, 0, 0);
    var rest := objects;
    while rest != map[]
      invariant rest.Keys <= objects.Keys
      invariant Usage(
                  usage.storage + Recount(rest).storage,
                  usage.count + Recount(rest).count,
                  usage.pending + Recount(rest).pending) == Recount(objects)
      decreases |rest|
    {
      var id :| id in rest;
      var o := rest[id];
      TotalRemove(rest, id, AvailableBytes);
      TotalRemove(rest, id, AvailableOne);
      TotalRemove(rest, id, PendingBytes);
      usage := Usage(
        usage.storage + AvailableBytes(o),
        usage.count + AvailableOne(o),
        usage.pending + PendingBytes(o));
      rest := rest - {id};
    }
  }

  lemma RecountAccountRemove(workspaces: map<Uuid, Workspace>, w: Uuid, user: Uuid)
    requires w in workspaces
    ensures RecountAccount(workspaces, user) == AddRow(user, workspaces[w], RecountAccount(workspaces - {w}, user))
  {
    TotalRemove(workspaces, w, LiveOne(user));
    TotalRemove(workspaces, w, LiveStorage(user));
    TotalRemove(workspaces, w, LivePending(user));
  }

  function AddRow(user: Uuid, ws: Workspace, account: Account): Account {
    if Live(user, ws)
    then Account(account.workspaces + 1, account.storage + ws.usage.storage, account.pending + ws.usage.pending)
    else account
  }

  function Plus(a: Account, b: Account): Account {
    Account(a.workspaces + b.workspaces, a.storage + b.storage, a.pending + b.pending)
  }

  method RecalculateUsageAccount(workspaces: map<Uuid, Workspace>, user: Uuid) returns (account: Account)
    ensures account == RecountAccount(workspaces, user)
  {
    account := Account(0, 0, 0);
    var rest := workspaces;
    while rest != map[]
      invariant Plus(account, RecountAccount(rest, user)) == RecountAccount(workspaces, user)
      decreases |rest|
    {
      var w :| w in rest;
      RecountAccountRemove(rest, w, user);
      account := AddRow(user, rest[w], account);
      rest := rest - {w};
    }
  }
}
