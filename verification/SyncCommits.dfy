/**
 Publishing commits (commit.go): normalising a request, the payload its signature covers,
 the checks against the workspace, and the rows a publish writes.
 */
module SyncCommits {
  import opened Text
  import opened SyncRows

  datatype PublishParams = PublishParams(
    workspace: Uuid,
    commitId: string,
    kind: Option<CommitKind>,
    expectedHead: string,
    parents: seq<string>,
    author: Uuid,
    deviceSeq: int,
    bodyId: string,
    bodySha: string,
    bodySize: int,
    referenced: seq<string>,
    signature: Bytes)

  // ----- Normalisation

  /** normalizeIDsPreserveOrder. */
  function TrimAll(ids: seq<string>): seq<string> {
    if ids == [] then []
    else if Trim(ids[0]) == "" then TrimAll(ids[1..])
    else [Trim(ids[0])] + TrimAll(ids[1..])
  }

  predicate NoDuplicates(ids: seq<string>) {
    forall i, j | 0 <= i < j < |ids| :: ids[i] != ids[j]
  }

  /** normalizePublishCommitParams. */
  function Normalize(p: PublishParams): (r: Result<PublishParams>)
    ensures r.Ok? ==> r.value.kind.Some? && r.value.workspace == p.workspace && r.value.signature == p.signature
    ensures r.Ok? ==> r.value.commitId == Trim(p.commitId) && r.value.expectedHead == Trim(p.expectedHead)
  {
    var n := Cleaned(p);
    :- Need(
         && n.workspace != NIL && n.commitId != "" && n.author != NIL && n.bodyId != ""
         && n.deviceSeq > 0 && n.bodySize > 0 && |n.signature| == SIGNATURE_SIZE,
         InvalidArgument);
    :- Need(n.kind.Some?, InvalidArgument);
    :- Need(IsSha256Hex(n.bodySha), InvalidArgument);
    :- Need(NoDuplicates(n.parents), InvalidCommitParent);
    :- Need(NoDuplicates(n.referenced), InvalidArgument);
    :- Need(n.bodyId !in n.referenced, InvalidArgument);
    Ok(n)
  }

  function Cleaned(p: PublishParams): PublishParams {
    p.(commitId := Trim(p.commitId),
       expectedHead := Trim(p.expectedHead),
       bodyId := Trim(p.bodyId),
       bodySha := NormalDigest(p.bodySha),
       parents := TrimAll(p.parents),
       referenced := Sort(TrimAll(p.referenced)))
  }

  predicate CleanIds(ids: seq<string>) {
    forall i | 0 <= i < |ids| :: ids[i] != "" && Trim(ids[i]) == ids[i]
  }

  lemma {:induction false} TrimAllClean(ids: seq<string>)
    ensures CleanIds(TrimAll(ids))
  {
    if ids != [] {
      TrimFixed(ids[0]);
      TrimAllClean(ids[1..]);
    }
  }

  lemma {:induction false} TrimAllFixed(ids: seq<string>)
    requires CleanIds(ids)
    ensures TrimAll(ids) == ids
  {
    if ids != [] {
      assert forall i | 0 <= i < |ids[1..]| :: ids[1..][i] == ids[i + 1];
      TrimAllFixed(ids[1..]);
    }
  }

  lemma SortKeepsClean(ids: seq<string>)
    requires CleanIds(ids)
    ensures CleanIds(Sort(ids))
  {
    hide Trim, Sort;
    SortCorrect(ids);
    forall i | 0 <= i < |Sort(ids)| ensures Sort(ids)[i] != "" && Trim(Sort(ids)[i]) == Sort(ids)[i] {
      assert Sort(ids)[i] in multiset(Sort(ids));
    }
  }

  /** Cleaning ids and then sorting them is idempotent. */
  lemma SortedIdsFixed(ids: seq<string>)
    ensures Sort(TrimAll(Sort(TrimAll(ids)))) == Sort(TrimAll(ids))
  {
    var clean := TrimAll(ids);
    TrimAllClean(ids);
    SortKeepsClean(clean);
    TrimAllFixed(Sort(clean));
    SortIdempotent(clean);
  }

  /** What a normalised request satisfies: clean distinct parents, and clean, distinct, sorted references without
      the body. */
  lemma NormalForm(p: PublishParams)
    requires Normalize(p).Ok?
    ensures var n := Normalize(p).value;
            && CleanIds([n.commitId, n.bodyId]) && Trim(n.expectedHead) == n.expectedHead && IsSha256Hex(n.bodySha)
            && CleanIds(n.parents) && NoDuplicates(n.parents)
            && CleanIds(n.referenced) && NoDuplicates(n.referenced) && Sorted(n.referenced)
            && n.bodyId !in n.referenced
            && n.parents == TrimAll(p.parents) && multiset(n.referenced) == multiset(TrimAll(p.referenced))
  {
    hide Trim, TrimAll, Sort, IsSha256Hex, NormalDigest, CleanIds;
    TrimFixed(p.commitId);
    TrimFixed(p.expectedHead);
    TrimFixed(p.bodyId);
    TrimAllClean(p.parents);
    TrimAllClean(p.referenced);
    SortCorrect(TrimAll(p.referenced));
    SortKeepsClean(TrimAll(p.referenced));
    CleanPair(Trim(p.commitId), Trim(p.bodyId));
  }

  lemma CleanPair(a: string, b: string)
    requires a != "" && b != "" && Trim(a) == a && Trim(b) == b
    ensures CleanIds([a, b])
  {
    hide Trim;
  }

  lemma CleanedIdempotent(p: PublishParams)
    ensures Cleaned(Cleaned(p)) == Cleaned(p)
  {
    TrimFixed(p.commitId);
    TrimFixed(p.expectedHead);
    TrimFixed(p.bodyId);
    NormalDigestIdempotent(p.bodySha);
    TrimAllClean(p.parents);
    TrimAllFixed(TrimAll(p.parents));
    SortedIdsFixed(p.referenced);
  }

  /** A normalised request normalises to itself. */
  lemma NormalizeIdempotent(p: PublishParams)
    requires Normalize(p).Ok?
    ensures Normalize(Normalize(p).value) == Normalize(p)
  {
    hide Cleaned, IsSha256Hex;
    CleanedIdempotent(p);
  }

  // ----- The signed payload

  /** commitSignaturePayload; its JSON encoding is injective, so payloads stand for their bytes. */
  datatype Payload = Payload(
    workspace: Uuid,
    commitId: string,
    kind: CommitKind,
    expectedHead: string,
    parents: seq<string>,
    author: Uuid,
    deviceSeq: int,
    bodyId: string,
    bodySha: string,
    bodySize: int,
    referenced: seq<string>)

  type Verifier = (Bytes, Payload, Bytes) -> bool

  function PayloadOf(p: PublishParams): Payload
    requires p.kind.Some?
  {
    Payload(p.workspace, p.commitId, p.kind.value, p.expectedHead, p.parents, p.author, p.deviceSeq,
            p.bodyId, p.bodySha, p.bodySize, p.referenced)
  }

  function PayloadOfRow(c: Commit): Payload {
    PayloadOf(PublishParams(
      c.workspace, c.id, Some(c.kind), TextValue(c.expectedHead), c.parents, c.author, c.deviceSeq,
      c.bodyId, c.bodySha, c.bodySize, Sort(TrimAll(c.referenced)), c.signature))
  }

  function RowOf(p: PublishParams, serverSeq: nat): Commit
    requires p.kind.Some?
  {
    Commit(p.workspace, p.commitId, p.kind.value, ToText(p.expectedHead), p.author, p.deviceSeq, p.parents,
           p.bodyId, p.bodySha, p.bodySize, p.referenced, p.signature, serverSeq)
  }

  predicate MatchesPayload(c: Commit, payload: Payload, signature: Bytes) {
    PayloadOfRow(c) == payload && c.signature == signature
  }

  /** The payload of a normalised request survives the trip through its stored row. */
  lemma PayloadRoundTrip(p: PublishParams, serverSeq: nat)
    requires Normalize(p).Ok?
    ensures var n := Normalize(p).value;
            PayloadOfRow(RowOf(n, serverSeq)) == PayloadOf(n) && RowOf(n, serverSeq).signature == p.signature
  {
    hide Trim, TrimAll, Sort, NormalDigest, IsSha256Hex;
    SortedIdsFixed(p.referenced);
  }

  // ----- Checks against the workspace

  function FindCommit(commits: seq<Commit>, id: string): Option<Commit> {
    if commits == [] then None
    else if commits[0].id == id then Some(commits[0])
    else FindCommit(commits[1..], id)
  }

  function ValidateParents(ws: Workspace, p: PublishParams): Check
    requires p.kind.Some?
  {
    if p.kind.value == Checkpoint && p.expectedHead == "" then
      Need(p.parents == [], InvalidCommitParent)
    else
      var shape :=
        match p.kind.value
        case Checkpoint => |p.parents| == 1 && p.parents[0] == p.expectedHead
        case Incremental => p.expectedHead != "" && |p.parents| == 1 && p.parents[0] == p.expectedHead
        case Merge => p.expectedHead != "" && |p.parents| >= 2 && p.expectedHead in p.parents;
      Need(shape && forall q | q in p.parents :: FindCommit(ws.commits, q).Some?, InvalidCommitParent)
  }

  /** The first referenced object that a commit may not reference, in id order. */
  function ReferenceCheck(ws: Workspace, referenced: seq<string>): Check
    requires forall o | o in referenced :: LiveObject(ws, o)
  {
    if referenced == [] then Pass else
      assert LiveObject(ws, referenced[0]);
      if ws.objects[referenced[0]].state != Available then Fail(ObjectNotAvailable)
      else if ws.objects[referenced[0]].kind == CommitBody then Fail(InvalidArgument)
      else ReferenceCheck(ws, referenced[1..])
  }

  predicate HasCheckpointPack(ws: Workspace, referenced: seq<string>) {
    exists o | o in referenced :: o in ws.objects && ws.objects[o].kind == CheckpointPack
  }

  function ValidateObjects(ws: Workspace, p: PublishParams): Check
    requires p.kind.Some?
  {
    if !LiveObject(ws, p.bodyId) then Fail(ObjectNotAvailable)
    else
      var body := ws.objects[p.bodyId];
      if body.state != Available || body.kind != CommitBody then Fail(ObjectNotAvailable)
      else if body.sha != p.bodySha || body.size != p.bodySize then Fail(ObjectMetadataMismatch)
      else if !(forall o | o in p.referenced :: LiveObject(ws, o)) then Fail(ObjectNotAvailable)
      else if ReferenceCheck(ws, p.referenced).Fail? then ReferenceCheck(ws, p.referenced)
      else Need(p.kind.value == Checkpoint ==> HasCheckpointPack(ws, p.referenced), ObjectNotAvailable)
  }

  // ----- The rows a publish writes

  function RoleOf(kind: ObjectKind): ObjectRole {
    match kind
    case CommitBody => BodyRole
    case ContentPack => ContentPackRole
    case CheckpointPack => CheckpointPackRole
    case LargeObject => LargeObjectRole
  }

  /** CreateSyncCommitObject: an existing link is left as it is. */
  function AddLink(links: map<Link, ObjectRole>, link: Link, role: ObjectRole): map<Link, ObjectRole> {
    if link in links then links else links[link := role]
  }

  function AddLinks(
      links: map<Link, ObjectRole>, commitId: string,
      referenced: seq<string>, objects: map<string, SyncObject>): map<Link, ObjectRole>
    requires forall o | o in referenced :: o in objects
    decreases |referenced|
  {
    if referenced == [] then links else
      var o := referenced[0];
      AddLinks(AddLink(links, Link(commitId, o), RoleOf(objects[o].kind)), commitId, referenced[1..], objects)
  }

  function NextCursor(ws: Workspace, c: Commit): Cursor {
    var was := if c.author in ws.cursors then ws.cursors[c.author].lastCheckpoint else None;
    Cursor(Some(c.id), if c.kind == Checkpoint then Some(c.id) else was)
  }

  function AfterPublish(ws: Workspace, c: Commit): Workspace
    requires c.author in ws.devices && forall o | o in c.referenced :: o in ws.objects
  {
    ws.(commits := ws.commits + [c],
        links := AddLinks(AddLink(ws.links, Link(c.id, c.bodyId), BodyRole), c.id, c.referenced, ws.objects),
        devices := ws.devices[c.author := ws.devices[c.author].(lastSeq := c.deviceSeq)],
        cursors := ws.cursors[c.author := NextCursor(ws, c)],
        head := ToText(c.id),
        headVersion := ws.headVersion + 1)
  }

  datatype PublishResult = PublishResult(commit: Commit, headVersion: nat, idempotent: bool)

  /** The checks on a commit id the workspace does not have yet. */
  function PublishCheck(verify: Verifier, ws: Workspace, user: Uuid, n: PublishParams): Check
    requires n.kind.Some?
  {
    var currentHead := TextValue(ws.head);
    if currentHead != n.expectedHead then Fail(HeadConflict(currentHead, ws.headVersion))
    else if !ActiveDevice(ws, user, n.author) then Fail(PermissionDenied)
    else
      var device := ws.devices[n.author];
      if n.deviceSeq <= device.lastSeq then Fail(DuplicateDeviceSeq)
      else if |device.signingKey| != PUBLIC_KEY_SIZE then Fail(InvalidSignature)
      else if !verify(device.signingKey, PayloadOf(n), n.signature) then Fail(InvalidSignature)
      else if ValidateParents(ws, n).Fail? then ValidateParents(ws, n)
      else ValidateObjects(ws, n)
  }

  /** PublishCommit; skip is how many server_seq values aborted inserts have used up since the last one. */
  function Publish(verify: Verifier, db: Db, user: Uuid, p: PublishParams, skip: nat): Result<(Db, PublishResult)> {
    var n :- Normalize(p);
    var ws :- Authorize(db, user, n.workspace);
    var existing := FindCommit(ws.commits, n.commitId);
    if existing.Some? then
      if MatchesPayload(existing.value, PayloadOf(n), n.signature)
      then Ok((db, PublishResult(existing.value, ws.headVersion, true)))
      else Err(DuplicateCommitPayload)
    else
      :- PublishCheck(verify, ws, user, n);
      var c := RowOf(n, db.nextSeq + skip);
      var ws' := AfterPublish(ws, c);
      Ok((db.(workspaces := db.workspaces[n.workspace := ws'], nextSeq := db.nextSeq + skip + 1),
          PublishResult(c, ws'.headVersion, false)))
  }

  /** What a successful publish did: it found the commit in the log, or appended it. */
  lemma PublishOutcome(verify: Verifier, db: Db, user: Uuid, p: PublishParams, skip: nat)
    requires Publish(verify, db, user, p, skip).Ok?
    ensures Normalize(p).Ok? && Authorize(db, user, p.workspace).Ok?
    ensures var n := Normalize(p).value;
            var ws := db.workspaces[p.workspace];
            var (after, result) := Publish(verify, db, user, p, skip).value;
            if result.idempotent then
              && after == db
              && FindCommit(ws.commits, n.commitId) == Some(result.commit)
              && MatchesPayload(result.commit, PayloadOf(n), p.signature)
            else
              && FindCommit(ws.commits, n.commitId).None?
              && PublishCheck(verify, ws, user, n).Pass?
              && result.commit == RowOf(n, db.nextSeq + skip)
              && result.commit.author in ws.devices && (forall o | o in result.commit.referenced :: o in ws.objects)
              && after == db.(workspaces := db.workspaces[p.workspace := AfterPublish(ws, result.commit)],
                              nextSeq := db.nextSeq + skip + 1)
  {
  }

  // ----- What the commit log is

  lemma {:induction false} FindCommitFinds(commits: seq<Commit>, id: string)
    ensures FindCommit(commits, id).None? <==> forall i | 0 <= i < |commits| :: commits[i].id != id
    ensures FindCommit(commits, id).Some? ==>
        FindCommit(commits, id).value in commits && FindCommit(commits, id).value.id == id
  {
    if commits != [] {
      FindCommitFinds(commits[1..], id);
      assert forall i | 0 < i < |commits| :: commits[i] == commits[1..][i - 1];
      assert commits == [commits[0]] + commits[1..];
    }
  }

  lemma FindCommitUnique(commits: seq<Commit>, k: nat)
    requires k < |commits| && DistinctIds(commits)
    ensures FindCommit(commits, commits[k].id) == Some(commits[k])
  {
    FindCommitFinds(commits, commits[k].id);
  }

  predicate DistinctIds(commits: seq<Commit>) {
    forall i, j | 0 <= i < j < |commits| :: commits[i].id != commits[j].id
  }

  predicate Earlier(commits: seq<Commit>, i: nat, id: string)
    requires i <= |commits|
  {
    exists j | 0 <= j < i :: commits[j].id == id
  }

  /** A commit's place in the chain: it names its predecessor as the head it saw and as a parent, and every parent
      is earlier. */
  predicate Linked(commits: seq<Commit>, i: nat)
    requires i < |commits|
  {
    var c := commits[i];
    && c.id != ""
    && c.expectedHead == (if i == 0 then None else Some(commits[i - 1].id))
    && (if i == 0 then c.kind == Checkpoint && c.parents == [] else commits[i - 1].id in c.parents)
    && (forall q | q in c.parents :: Earlier(commits, i, q))
    && NoDuplicates(c.parents)
    && (c.kind == Merge ==> |c.parents| >= 2)
    && (c.kind != Merge ==> |c.parents| <= 1)
  }

  predicate Chained(commits: seq<Commit>) {
    && DistinctIds(commits)
    && (forall i | 0 <= i < |commits| :: Linked(commits, i))
    && (forall i, j | 0 <= i < j < |commits| :: commits[i].serverSeq < commits[j].serverSeq)
  }

  predicate HeadOk(ws: Workspace) {
    && ws.head == (if ws.commits == [] then None else Some(ws.commits[|ws.commits| - 1].id))
    && ws.headVersion == |ws.commits|
  }

  function LastBy(commits: seq<Commit>, d: Uuid): Option<Commit> {
    if commits == [] then None
    else if commits[|commits| - 1].author == d then Some(commits[|commits| - 1])
    else LastBy(commits[..|commits| - 1], d)
  }

  function LastCheckpointBy(commits: seq<Commit>, d: Uuid): Option<Commit> {
    if commits == [] then None
    else if commits[|commits| - 1].author == d && commits[|commits| - 1].kind == Checkpoint
    then Some(commits[|commits| - 1])
    else LastCheckpointBy(commits[..|commits| - 1], d)
  }

  /** Each device's sequence numbers rise along the log. */
  predicate SeqsRise(ws: Workspace) {
    && (forall i, j | 0 <= i < j < |ws.commits| && ws.commits[i].author == ws.commits[j].author ::
          ws.commits[i].deviceSeq < ws.commits[j].deviceSeq)
    && (forall i | 0 <= i < |ws.commits| ::
          && ws.commits[i].author in ws.devices
          && 0 < ws.commits[i].deviceSeq <= ws.devices[ws.commits[i].author].lastSeq)
  }

  /** A device row holds the sequence number of the device's latest commit. */
  predicate LastSeqsOk(ws: Workspace) {
    forall d | d in ws.devices ::
      ws.devices[d].lastSeq == (if LastBy(ws.commits, d).Some? then LastBy(ws.commits, d).value.deviceSeq else 0)
  }

  /** A device's cursor names its latest commit and its latest checkpoint. */
  ghost predicate CursorsOk(ws: Workspace) {
    forall d ::
      && (d in ws.cursors <==> LastBy(ws.commits, d).Some?)
      && (d in ws.cursors ==>
            ws.cursors[d] == Cursor(IdOf(LastBy(ws.commits, d)), IdOf(LastCheckpointBy(ws.commits, d))))
  }

  function IdOf(c: Option<Commit>): Option<string> {
    if c.Some? then Some(c.value.id) else None
  }

  /** A commit's objects are there to be downloaded, with the digest and size the commit signed for its body. */
  predicate ObjectsHeld(objects: map<string, SyncObject>, c: Commit) {
    && c.bodyId in objects && c.bodyId !in c.referenced
    && objects[c.bodyId].state == Available && objects[c.bodyId].kind == CommitBody
    && objects[c.bodyId].sha == c.bodySha && objects[c.bodyId].size == c.bodySize
    && (forall o | o in c.referenced :: o in objects && objects[o].state == Available && objects[o].kind != CommitBody)
    && (c.kind == Checkpoint ==> exists o | o in c.referenced :: objects[o].kind == CheckpointPack)
  }

  predicate AllHeld(ws: Workspace) {
    forall i | 0 <= i < |ws.commits| :: ObjectsHeld(ws.objects, ws.commits[i])
  }

  predicate LinkOf(c: Commit, l: Link) {
    l.commitId == c.id && (l.objectId == c.bodyId || l.objectId in c.referenced)
  }

  /** The link table holds exactly the objects each commit names, each under the role of its kind. */
  ghost predicate LinksOk(ws: Workspace) {
    && (forall l | l in ws.links :: l.objectId in ws.objects && ws.links[l] == RoleOf(ws.objects[l.objectId].kind))
    && (forall l | l in ws.links :: exists i | 0 <= i < |ws.commits| :: LinkOf(ws.commits[i], l))
    && (forall i, l | 0 <= i < |ws.commits| && LinkOf(ws.commits[i], l) :: l in ws.links)
  }

  ghost predicate LogOk(ws: Workspace) {
    && Chained(ws.commits) && HeadOk(ws) && LinksOk(ws)
    && SeqsRise(ws) && LastSeqsOk(ws) && CursorsOk(ws)
  }

  // ----- A publish extends the log

  lemma ReferencesAvailable(ws: Workspace, referenced: seq<string>)
    requires forall o | o in referenced :: LiveObject(ws, o)
    ensures ReferenceCheck(ws, referenced).Pass?
       <==> forall o | o in referenced :: ws.objects[o].state == Available && ws.objects[o].kind != CommitBody
  {
    if referenced != [] {
      ReferencesAvailable(ws, referenced[1..]);
      assert referenced == [referenced[0]] + referenced[1..];
    }
  }

  lemma PublishedHeld(ws: Workspace, n: PublishParams, serverSeq: nat)
    requires n.kind.Some? && n.bodyId !in n.referenced && ValidateObjects(ws, n).Pass?
    ensures ObjectsHeld(ws.objects, RowOf(n, serverSeq))
  {
    ReferencesAvailable(ws, n.referenced);
  }

  lemma LinkedStays(commits: seq<Commit>, c: Commit, i: nat)
    requires i < |commits| && Linked(commits, i)
    ensures Linked(commits + [c], i)
  {
    var log := commits + [c];
    forall q | q in log[i].parents ensures Earlier(log, i, q) {
      assert Earlier(commits, i, q);
      var j :| 0 <= j < i && commits[j].id == q;
      assert log[j].id == q;
    }
  }

  lemma FoundIsEarlier(commits: seq<Commit>, c: Commit, q: string)
    requires FindCommit(commits, q).Some?
    ensures Earlier(commits + [c], |commits|, q)
  {
    FindCommitFinds(commits, q);
    var j :| 0 <= j < |commits| && commits[j] == FindCommit(commits, q).value;
    assert (commits + [c])[j].id == q;
  }

  lemma LinkedNew(ws: Workspace, n: PublishParams, serverSeq: nat)
    requires Chained(ws.commits) && HeadOk(ws)
    requires n.kind.Some? && n.commitId != "" && NoDuplicates(n.parents)
    requires TextValue(ws.head) == n.expectedHead && ValidateParents(ws, n).Pass?
    ensures Linked(ws.commits + [RowOf(n, serverSeq)], |ws.commits|)
  {
    var c := RowOf(n, serverSeq);
    var k := |ws.commits|;
    assert k > 0 ==> Linked(ws.commits, k - 1);
    hide Chained, FindCommit, Earlier;
    forall q | q in c.parents ensures Earlier(ws.commits + [c], k, q) {
      FoundIsEarlier(ws.commits, c, q);
    }
  }

  lemma ChainExtends(ws: Workspace, n: PublishParams, serverSeq: nat)
    requires Chained(ws.commits) && HeadOk(ws)
    requires n.kind.Some? && n.commitId != "" && NoDuplicates(n.parents)
    requires FindCommit(ws.commits, n.commitId).None?
    requires TextValue(ws.head) == n.expectedHead && ValidateParents(ws, n).Pass?
    requires forall i | 0 <= i < |ws.commits| :: ws.commits[i].serverSeq < serverSeq
    ensures Chained(ws.commits + [RowOf(n, serverSeq)])
  {
    hide Linked, ValidateParents, FindCommit;
    var c := RowOf(n, serverSeq);
    FindCommitFinds(ws.commits, n.commitId);
    LinkedNew(ws, n, serverSeq);
    forall i | 0 <= i < |ws.commits| ensures Linked(ws.commits + [c], i) {
      LinkedStays(ws.commits, c, i);
    }
  }

  lemma LastByExtends(commits: seq<Commit>, c: Commit, d: Uuid)
    ensures LastBy(commits + [c], d) == (if d == c.author then Some(c) else LastBy(commits, d))
    ensures LastCheckpointBy(commits + [c], d)
         == (if d == c.author && c.kind == Checkpoint then Some(c) else LastCheckpointBy(commits, d))
  {
    assert (commits + [c])[..|commits + [c]| - 1] == commits;
  }

  lemma DevicesExtend(ws: Workspace, c: Commit)
    requires SeqsRise(ws) && LastSeqsOk(ws) && CursorsOk(ws) && c.author in ws.devices
    requires forall o | o in c.referenced :: o in ws.objects
    requires c.deviceSeq > ws.devices[c.author].lastSeq && c.deviceSeq > 0
    ensures var after := AfterPublish(ws, c);
            SeqsRise(after) && LastSeqsOk(after) && CursorsOk(after)
  {
    SeqsExtend(ws, c);
    LastSeqsExtend(ws, c);
    CursorsExtend(ws, c);
  }

  lemma SeqsExtend(ws: Workspace, c: Commit)
    requires SeqsRise(ws) && c.author in ws.devices
    requires forall o | o in c.referenced :: o in ws.objects
    requires c.deviceSeq > ws.devices[c.author].lastSeq && c.deviceSeq > 0
    ensures SeqsRise(AfterPublish(ws, c))
  {
    var after := AfterPublish(ws, c);
    forall i | 0 <= i < |after.commits|
      ensures after.commits[i].author in after.devices
      ensures 0 < after.commits[i].deviceSeq <= after.devices[after.commits[i].author].lastSeq
    {
      if i < |ws.commits| { assert after.commits[i] == ws.commits[i]; }
    }
  }

  lemma LastSeqsExtend(ws: Workspace, c: Commit)
    requires LastSeqsOk(ws) && c.author in ws.devices
    requires forall o | o in c.referenced :: o in ws.objects
    ensures LastSeqsOk(AfterPublish(ws, c))
  {
    var after := AfterPublish(ws, c);
    forall d | d in after.devices
      ensures after.devices[d].lastSeq
           == (if LastBy(after.commits, d).Some? then LastBy(after.commits, d).value.deviceSeq else 0)
    {
      LastByExtends(ws.commits, c, d);
    }
  }

  lemma CursorsExtend(ws: Workspace, c: Commit)
    requires CursorsOk(ws) && c.author in ws.devices
    requires forall o | o in c.referenced :: o in ws.objects
    ensures CursorsOk(AfterPublish(ws, c))
  {
    var after := AfterPublish(ws, c);
    forall d
      ensures d in after.cursors <==> LastBy(after.commits, d).Some?
      ensures d in after.cursors ==>
                after.cursors[d] == Cursor(IdOf(LastBy(after.commits, d)), IdOf(LastCheckpointBy(after.commits, d)))
    {
      LastByExtends(ws.commits, c, d);
      LastByAuthor(ws.commits, d);
    }
  }

  lemma {:induction false} LastByAuthor(commits: seq<Commit>, d: Uuid)
    ensures LastBy(commits, d).None? ==> LastCheckpointBy(commits, d).None?
  {
    if commits != [] { LastByAuthor(commits[..|commits| - 1], d); }
  }

  lemma {:induction false} AddLinksKeys(
      links: map<Link, ObjectRole>, commitId: string, referenced: seq<string>, objects: map<string, SyncObject>)
    requires forall o | o in referenced :: o in objects
    ensures forall l :: l in AddLinks(links, commitId, referenced, objects)
                   <==> l in links || (l.commitId == commitId && l.objectId in referenced)
    ensures forall l | l in links :: AddLinks(links, commitId, referenced, objects)[l] == links[l]
    ensures forall o | o in referenced && Link(commitId, o) !in links ::
              AddLinks(links, commitId, referenced, objects)[Link(commitId, o)] == RoleOf(objects[o].kind)
    decreases |referenced|
  {
    if referenced != [] {
      AddLinksKeys(
        AddLink(links, Link(commitId, referenced[0]), RoleOf(objects[referenced[0]].kind)),
        commitId, referenced[1..], objects);
      assert referenced == [referenced[0]] + referenced[1..];
    }
  }

  lemma LinksExtend(ws: Workspace, c: Commit)
    requires LinksOk(ws) && c.author in ws.devices && FindCommit(ws.commits, c.id).None?
    requires ObjectsHeld(ws.objects, c)
    ensures LinksOk(AfterPublish(ws, c))
  {
    var after := AfterPublish(ws, c);
    var k := |ws.commits|;
    var withBody := AddLink(ws.links, Link(c.id, c.bodyId), BodyRole);
    AddLinksKeys(withBody, c.id, c.referenced, ws.objects);
    FindCommitFinds(ws.commits, c.id);
    forall l | l in after.links
      ensures l.objectId in ws.objects && after.links[l] == RoleOf(ws.objects[l.objectId].kind)
    {
      if l !in withBody { assert l == Link(c.id, l.objectId); }
    }
    forall l | l in after.links ensures exists i | 0 <= i < |after.commits| :: LinkOf(after.commits[i], l) {
      if l in ws.links {
        var i :| 0 <= i < k && LinkOf(ws.commits[i], l);
        assert LinkOf(after.commits[i], l);
      } else {
        assert LinkOf(after.commits[k], l);
      }
    }
    forall i, l | 0 <= i < |after.commits| && LinkOf(after.commits[i], l) ensures l in after.links {
      if i < k {
        assert LinkOf(ws.commits[i], l);
      }
    }
  }

  /** Publishing keeps the log a chain, whatever was published before. */
  lemma PublishExtends(verify: Verifier, ws: Workspace, user: Uuid, p: PublishParams, serverSeq: nat)
    requires LogOk(ws) && AllHeld(ws) && Normalize(p).Ok?
    requires var n := Normalize(p).value;
             FindCommit(ws.commits, n.commitId).None? && PublishCheck(verify, ws, user, n).Pass?
    requires forall i | 0 <= i < |ws.commits| :: ws.commits[i].serverSeq < serverSeq
    ensures var c := RowOf(Normalize(p).value, serverSeq);
            && c.author in ws.devices && (forall o | o in c.referenced :: o in ws.objects)
            && LogOk(AfterPublish(ws, c)) && AllHeld(AfterPublish(ws, c))
  {
    hide Cleaned, IsSha256Hex, Chained, LinksOk, SeqsRise, LastSeqsOk, CursorsOk;
    var n := Normalize(p).value;
    var c := RowOf(n, serverSeq);
    PublishedHeld(ws, n, serverSeq);
    ChainExtends(ws, n, serverSeq);
    DevicesExtend(ws, c);
    LinksExtend(ws, c);
    forall i | 0 <= i < |ws.commits| + 1 ensures ObjectsHeld(ws.objects, (ws.commits + [c])[i]) {
      if i < |ws.commits| { assert ObjectsHeld(ws.objects, ws.commits[i]); }
    }
  }
}
