/**
 The rows of the sync database: accounts, workspaces, devices, objects, commits and the
 links between commits and objects, together with the errors of the sync service.
 */
module SyncRows {
  import opened Text

  type Uuid = nat
  type Bytes = seq<bv8>

  const NIL: Uuid := 0
  const SIGNATURE_SIZE := 64
  const PUBLIC_KEY_SIZE := 32

  datatype ObjectKind = CommitBody | ContentPack | CheckpointPack | LargeObject
  datatype ObjectRole = BodyRole | ContentPackRole | CheckpointPackRole | LargeObjectRole
  datatype CommitKind = Incremental | Merge | Checkpoint
  datatype UploadState = Reserved | Pending | Available | Failed | Deleted
  datatype Provider = Local | S3Compatible
  datatype ErrorReason = UploadExpired | ChecksumMismatch | SizeMismatch | StorageProviderError

  datatype QuotaLimit =
    | SingleBlobBytes
    | PendingUploadBytes
    | UserTotalStorageBytes
    | WorkspaceStorageBytes
    | WorkspaceCount

  datatype SyncError =
    | PermissionDenied
    | InvalidArgument
    | ObjectNotAvailable
    | ObjectMetadataMismatch
    | NotImplemented
    | DevBytesDisabled
    | DuplicateCommitPayload
    | DuplicateDeviceSeq
    | InvalidCommitParent
    | InvalidSignature
    | HeadConflict(currentHead: string, headVersion: nat)
    | QuotaExceeded(limit: QuotaLimit, max: int, current: int, requested: int)
    | RowMissing
    | UniqueViolation
    | StoreUnavailable

  datatype Result<+T> = Ok(value: T) | Err(error: SyncError) {
    predicate IsFailure() { Err? }
    function PropagateFailure<U>(): Result<U>
      requires Err?
    {
      Err(error)
    }
    function Extract(): T
      requires Ok?
    {
      value
    }
  }

  /** A condition that a transaction checks; a failed one aborts it with an error. */
  datatype Check = Pass | Fail(error: SyncError) {
    predicate IsFailure() { Fail? }
    function PropagateFailure<U>(): Result<U>
      requires Fail?
    {
      Err(error)
    }
  }

  function Need(condition: bool, error: SyncError): Check {
    if condition then Pass else Fail(error)
  }

  /** sync_objects. A row is deleted exactly when its state is Deleted. */
  datatype SyncObject = SyncObject(
    kind: ObjectKind,
    provider: Provider,
    sha: string,
    size: int,
    state: UploadState,
    createdBy: Uuid,
    expiresAt: Option<int>,
    errorReason: Option<ErrorReason>)

  /** sync_commits. */
  datatype Commit = Commit(
    workspace: Uuid,
    id: string,
    kind: CommitKind,
    expectedHead: Option<string>,
    author: Uuid,
    deviceSeq: int,
    parents: seq<string>,
    bodyId: string,
    bodySha: string,
    bodySize: int,
    referenced: seq<string>,
    signature: Bytes,
    serverSeq: nat)

  /** sync_devices. */
  datatype Device = Device(user: Uuid, signingKey: Bytes, lastSeq: int, revoked: bool)

  /** sync_device_cursors. */
  datatype Cursor = Cursor(lastSeen: Option<string>, lastCheckpoint: Option<string>)

  /** The key of a sync_commit_objects row. */
  datatype Link = Link(commitId: string, objectId: string)

  /** sync_usage_workspaces. */
  datatype Usage = Usage(storage: int, count: int, pending: int)

  /** sync_usage_accounts. */
  datatype Account = Account(workspaces: int, storage: int, pending: int)

  /** A sync_workspaces row with the rows that belong to it; commits are in server order. */
  datatype Workspace = Workspace(
    owner: Uuid,
    deleted: bool,
    head: Option<string>,
    headVersion: nat,
    devices: map<Uuid, Device>,
    cursors: map<Uuid, Cursor>,
    objects: map<string, SyncObject>,
    commits: seq<Commit>,
    links: map<Link, ObjectRole>,
    usage: Usage)

  /** The database; nextSeq is the next value of the server_seq identity column. */
  datatype Db = Db(accounts: map<Uuid, Account>, workspaces: map<Uuid, Workspace>, nextSeq: nat)

  datatype Config = Config(
    provider: Provider,
    devBytesEnabled: bool,
    maxWorkspaces: int,
    maxSingleBlob: int,
    maxPending: int,
    maxTotalPerUser: int,
    maxPerWorkspace: int,
    pendingAge: int)

  const EMPTY_DB := Db(map[], map[], 1)

  function EmptyWorkspace(owner: Uuid): Workspace {
    Workspace(owner, false, None, 0, map[], map[], map[], [], map[], Usage(0, 0, 0))
  }

  // database.Text and textValue: an empty string is stored as NULL.
  function ToText(s: string): Option<string> {
    if s == "" then None else Some(s)
  }

  function TextValue(t: Option<string>): string {
    if t.Some? then t.value else ""
  }

  function Authorize(db: Db, user: Uuid, w: Uuid): Result<Workspace> {
    if w in db.workspaces && db.workspaces[w].owner == user && !db.workspaces[w].deleted
    then Ok(db.workspaces[w])
    else Err(PermissionDenied)
  }

  predicate ActiveDevice(ws: Workspace, user: Uuid, device: Uuid) {
    device in ws.devices && ws.devices[device].user == user && !ws.devices[device].revoked
  }

  /** A row that GetSyncObject would return: present and not deleted. */
  predicate LiveObject(ws: Workspace, id: string) {
    id in ws.objects && ws.objects[id].state != Deleted
  }

  function EnsureAccount(db: Db, user: Uuid): Db {
    if user in db.accounts then db else db.(accounts := db.accounts[user := Account(0, 0, 0)])
  }

  /** A transaction's writes to one workspace and its owner's account. */
  function Write(db: Db, w: Uuid, ws: Workspace, user: Uuid, account: Account): Db {
    db.(workspaces := db.workspaces[w := ws], accounts := db.accounts[user := account])
  }

  function Expired(o: SyncObject, now: int): bool {
    o.expiresAt.Some? && o.expiresAt.value <= now
  }

  /** validateCiphertextDescriptor, on a digest that is already trimmed and in lower case. */
  function CheckDescriptor(digest: string, size: int): Check {
    if !IsSha256Hex(digest) then Fail(InvalidArgument)
    else if size <= 0 then Fail(ObjectMetadataMismatch)
    else Pass
  }
}
