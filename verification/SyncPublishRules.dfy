/**
 When a publish is accepted, what it is refused with, and what it writes (commit.go), said of the
 request and the rows alone.
 */
module SyncPublishRules {
  import opened Text
  import opened SyncRows
  import opened SyncCommits

  // ----- Well-formed requests

  /** Everything about a request but its lists. */
  predicate FieldsOk(p: PublishParams) {
    && p.workspace != 0 && Trim(p.commitId) != "" && p.author != 0 && Trim(p.bodyId) != ""
    && p.deviceSeq >= 1 && p.bodySize >= 1 && |p.signature| == 64
    && p.kind.Some? && IsSha256Hex(NormalDigest(p.bodySha))
  }

  /** Every id occurs once. */
  ghost predicate OnceEach(ids: seq<string>) {
    forall id :: multiset(ids)[id] <= 1
  }

  lemma RepeatCounts(ids: seq<string>, i: nat, j: nat)
    requires i < j < |ids| && ids[i] == ids[j]
    ensures multiset(ids)[ids[i]] >= 2
  {
    assert ids == ids[..j] + ids[j..];
    assert ids[i] in ids[..j] && ids[j] in ids[j..];
    assert multiset(ids[..j])[ids[i]] >= 1 && multiset(ids[j..])[ids[i]] >= 1;
  }

  lemma {:induction false} CountRepeats(ids: seq<string>, id: string) returns (i: nat, j: nat)
    requires multiset(ids)[id] >= 2
    ensures i < j < |ids| && ids[i] == ids[j] == id
    decreases |ids|
  {
    var n := |ids| - 1;
    assert ids == ids[..n] + [ids[n]];
    if multiset(ids[..n])[id] >= 2 {
      i, j := CountRepeats(ids[..n], id);
    } else {
      assert id in ids[..n];
      i :| 0 <= i < n && ids[..n][i] == id;
      j := n;
    }
  }

  lemma OnceEachIndexed(ids: seq<string>)
    ensures OnceEach(ids) <==> NoDuplicates(ids)
  {
    if i, j :| 0 <= i < j < |ids| && ids[i] == ids[j] {
      RepeatCounts(ids, i, j);
    }
    if id :| multiset(ids)[id] > 1 {
      var i, j := CountRepeats(ids, id);
    }
  }

  lemma SortKeepsOnce(ids: seq<string>)
    ensures NoDuplicates(Sort(ids)) <==> NoDuplicates(ids)
    ensures forall id :: id in Sort(ids) <==> id in ids
  {
    hide Sort;
    SortCorrect(ids);
    OnceEachIndexed(ids);
    OnceEachIndexed(Sort(ids));
    assert forall id :: id in Sort(ids) <==> id in multiset(Sort(ids));
  }

  /** A request is well formed exactly when its fields are, no parent or reference is repeated, and the body is not
      referenced. */
  lemma NormalizesExactly(p: PublishParams)
    ensures Normalize(p).Ok?
       <==> && FieldsOk(p) && NoDuplicates(TrimAll(p.parents)) && NoDuplicates(TrimAll(p.referenced))
            && Trim(p.bodyId) !in TrimAll(p.referenced)
    ensures Normalize(p).Err? ==>
      Normalize(p).error ==
        if FieldsOk(p) && !NoDuplicates(TrimAll(p.parents)) then InvalidCommitParent else InvalidArgument
  {
    hide Trim, TrimAll, Sort, IsSha256Hex, NormalDigest, NoDuplicates;
    SortKeepsOnce(TrimAll(p.referenced));
  }

  /** What normalising makes of each field. */
  lemma NormalizedFields(p: PublishParams)
    requires Normalize(p).Ok?
    ensures
      var n := Normalize(p).value;
      && n.workspace == p.workspace && n.commitId == Trim(p.commitId) && n.kind == p.kind
      && n.expectedHead == Trim(p.expectedHead) && n.author == p.author && n.deviceSeq == p.deviceSeq
      && n.parents == TrimAll(p.parents) && n.bodyId == Trim(p.bodyId) && n.bodySha == NormalDigest(p.bodySha)
      && n.bodySize == p.bodySize && n.signature == p.signature
      && n.referenced == Sort(TrimAll(p.referenced))
  {
    hide Trim, TrimAll, Sort, IsSha256Hex, NormalDigest;
  }

  // ----- Acceptance

  predicate InLog(commits: seq<Commit>, id: string) {
    exists i | 0 <= i < |commits| :: commits[i].id == id
  }

  /** The parents a commit of each kind needs, all of them already in the log. */
  predicate ParentsFit(commits: seq<Commit>, n: PublishParams)
    requires n.kind.Some?
  {
    && (n.kind == Some(Checkpoint) ==> n.parents == if n.expectedHead == "" then [] else [n.expectedHead])
    && (n.kind == Some(Incremental) ==> n.expectedHead != "" && n.parents == [n.expectedHead])
    && (n.kind == Some(Merge) ==> n.expectedHead != "" && n.expectedHead in n.parents && |n.parents| >= 2)
    && (forall q | q in n.parents :: InLog(commits, q))
  }

  predicate BodyThere(objects: map<string, SyncObject>, n: PublishParams) {
    n.bodyId in objects && objects[n.bodyId].state == Available && objects[n.bodyId].kind == CommitBody
  }

  predicate ReferencesFit(objects: map<string, SyncObject>, n: PublishParams) {
    && (forall o | o in n.referenced :: o in objects && objects[o].state == Available && objects[o].kind != CommitBody)
    && (n.kind == Some(Checkpoint) ==>
          exists o | o in n.referenced :: o in objects && objects[o].kind == CheckpointPack)
  }

  /** An active device of the user, in turn, with a key that verifies the payload. */
  predicate DeviceSigns(verify: Verifier, ws: Workspace, user: Uuid, n: PublishParams)
    requires n.kind.Some?
  {
    && n.author in ws.devices
    && var device := ws.devices[n.author];
    && device.user == user && !device.revoked && device.lastSeq < n.deviceSeq
    && |device.signingKey| == 32 && verify(device.signingKey, PayloadOf(n), n.signature)
  }

  predicate Acceptable(verify: Verifier, ws: Workspace, user: Uuid, n: PublishParams)
    requires n.kind.Some?
  {
    && n.expectedHead == TextValue(ws.head) && DeviceSigns(verify, ws, user, n) && ParentsFit(ws.commits, n)
    && BodyThere(ws.objects, n) && ws.objects[n.bodyId].sha == n.bodySha && ws.objects[n.bodyId].size == n.bodySize
    && ReferencesFit(ws.objects, n)
  }

  lemma ParentsExactly(ws: Workspace, n: PublishParams)
    requires n.kind.Some?
    ensures ValidateParents(ws, n) == if ParentsFit(ws.commits, n) then Pass else Fail(InvalidCommitParent)
  {
    hide FindCommit;
    forall q | q in n.parents ensures FindCommit(ws.commits, q).Some? <==> InLog(ws.commits, q) {
      FindCommitFinds(ws.commits, q);
    }
    if n.kind != Some(Merge) && |n.parents| == 1 {
      assert n.parents == [n.parents[0]];
    }
  }

  lemma {:induction false} ReferencesExactly(ws: Workspace, referenced: seq<string>)
    requires forall o | o in referenced :: LiveObject(ws, o)
    ensures ReferenceCheck(ws, referenced).Pass?
       <==> forall o | o in referenced :: ws.objects[o].state == Available && ws.objects[o].kind != CommitBody
    ensures ReferenceCheck(ws, referenced).Fail? ==>
      ReferenceCheck(ws, referenced).error in {ObjectNotAvailable, InvalidArgument}
    decreases |referenced|
  {
    if referenced != [] {
      ReferencesExactly(ws, referenced[1..]);
      assert referenced == [referenced[0]] + referenced[1..];
    }
  }

  /** A commit may not refer to the object: it is not available, or it is some commit's body. */
  predicate Unfit(ws: Workspace, o: string) {
    o in ws.objects && (ws.objects[o].state != Available || ws.objects[o].kind == CommitBody)
  }

  predicate FirstUnfit(ws: Workspace, referenced: seq<string>, i: nat)
    requires i < |referenced|
  {
    Unfit(ws, referenced[i]) && forall j | 0 <= j < i :: !Unfit(ws, referenced[j])
  }

  /** The first object a commit may not refer to decides what it is refused with. */
  lemma {:induction false} ReferenceRefusal(ws: Workspace, referenced: seq<string>) returns (i: nat)
    requires (forall o | o in referenced :: LiveObject(ws, o)) && ReferenceCheck(ws, referenced).Fail?
    ensures i < |referenced| && FirstUnfit(ws, referenced, i)
    ensures ReferenceCheck(ws, referenced)
         == Fail(if ws.objects[referenced[i]].state != Available then ObjectNotAvailable else InvalidArgument)
    decreases |referenced|
  {
    assert LiveObject(ws, referenced[0]);
    if Unfit(ws, referenced[0]) {
      i := 0;
    } else {
      var j := ReferenceRefusal(ws, referenced[1..]);
      i := j + 1;
      assert forall k | 0 < k < i :: referenced[k] == referenced[1..][k - 1];
    }
  }

  lemma ObjectsExactly(ws: Workspace, n: PublishParams)
    requires n.kind.Some?
    ensures ValidateObjects(ws, n).Pass?
       <==> && BodyThere(ws.objects, n) && ws.objects[n.bodyId].sha == n.bodySha
            && ws.objects[n.bodyId].size == n.bodySize && ReferencesFit(ws.objects, n)
    ensures !BodyThere(ws.objects, n) ==> ValidateObjects(ws, n) == Fail(ObjectNotAvailable)
    ensures BodyThere(ws.objects, n) ==>
      (ValidateObjects(ws, n) == Fail(ObjectMetadataMismatch)
       <==> ws.objects[n.bodyId].sha != n.bodySha || ws.objects[n.bodyId].size != n.bodySize)
    ensures ValidateObjects(ws, n) == Fail(InvalidArgument)
      ==> exists o | o in n.referenced :: o in ws.objects && ws.objects[o].kind == CommitBody
    ensures ValidateObjects(ws, n).Fail? ==>
      ValidateObjects(ws, n).error in {ObjectNotAvailable, ObjectMetadataMismatch, InvalidArgument}
  {
    if forall o | o in n.referenced :: LiveObject(ws, o) {
      ReferencesExactly(ws, n.referenced);
      if ReferenceCheck(ws, n.referenced).Fail? {
        var i := ReferenceRefusal(ws, n.referenced);
      }
    } else {
      var o :| o in n.referenced && !LiveObject(ws, o);
      assert !ReferencesFit(ws.objects, n);
    }
  }

  lemma ChecksExactly(verify: Verifier, ws: Workspace, user: Uuid, n: PublishParams)
    requires n.kind.Some?
    ensures PublishCheck(verify, ws, user, n).Pass? <==> Acceptable(verify, ws, user, n)
  {
    hide ValidateParents, ValidateObjects, ParentsFit, BodyThere, ReferencesFit;
    ParentsExactly(ws, n);
    ObjectsExactly(ws, n);
  }

  /** A commit with a new id is accepted exactly when head, device, sequence, signature, parents and objects all fit. */
  lemma AcceptedExactly(verify: Verifier, db: Db, user: Uuid, p: PublishParams, skip: nat)
    requires Normalize(p).Ok? && Authorize(db, user, p.workspace).Ok?
    requires !InLog(db.workspaces[p.workspace].commits, Trim(p.commitId))
    ensures Publish(verify, db, user, p, skip).Ok?
       <==> Acceptable(verify, db.workspaces[p.workspace], user, Normalize(p).value)
  {
    hide Normalize, Trim, PublishCheck, FindCommit, AfterPublish, Acceptable, MatchesPayload;
    var ws := db.workspaces[p.workspace];
    FindCommitFinds(ws.commits, Trim(p.commitId));
    ChecksExactly(verify, ws, user, Normalize(p).value);
  }

  /** Which refusal a commit with a new id meets: the first of these that applies. */
  lemma RefusedWith(verify: Verifier, db: Db, user: Uuid, p: PublishParams, skip: nat)
    requires Normalize(p).Ok? && Authorize(db, user, p.workspace).Ok?
    requires !InLog(db.workspaces[p.workspace].commits, Trim(p.commitId))
    requires Publish(verify, db, user, p, skip).Err?
    ensures
      var ws, n, e := db.workspaces[p.workspace], Normalize(p).value, Publish(verify, db, user, p, skip).error;
      if n.expectedHead != TextValue(ws.head) then e == HeadConflict(TextValue(ws.head), ws.headVersion)
      else if !(n.author in ws.devices && ws.devices[n.author].user == user && !ws.devices[n.author].revoked) then
        e == PermissionDenied
      else if n.deviceSeq <= ws.devices[n.author].lastSeq then e == DuplicateDeviceSeq
      else if !DeviceSigns(verify, ws, user, n) then e == InvalidSignature
      else if !ParentsFit(ws.commits, n) then e == InvalidCommitParent
      else if !BodyThere(ws.objects, n) then e == ObjectNotAvailable
      else if ws.objects[n.bodyId].sha != n.bodySha || ws.objects[n.bodyId].size != n.bodySize then
        e == ObjectMetadataMismatch
      else
        && !ReferencesFit(ws.objects, n) && (e == ObjectNotAvailable || e == InvalidArgument)
        && (e == InvalidArgument ==>
              exists o | o in n.referenced :: o in ws.objects && ws.objects[o].kind == CommitBody)
  {
    hide Normalize, Trim, FindCommit, AfterPublish, MatchesPayload;
    hide ValidateParents, ValidateObjects, ParentsFit, BodyThere, ReferencesFit;
    var ws := db.workspaces[p.workspace];
    FindCommitFinds(ws.commits, Trim(p.commitId));
    ParentsExactly(ws, Normalize(p).value);
    ObjectsExactly(ws, Normalize(p).value);
  }

  /** Requests that are not well formed or come from someone else never reach the log. */
  lemma TurnedAway(verify: Verifier, db: Db, user: Uuid, p: PublishParams, skip: nat)
    ensures Normalize(p).Err? ==> Publish(verify, db, user, p, skip) == Err(Normalize(p).error)
    ensures Normalize(p).Ok? && !(p.workspace in db.workspaces && db.workspaces[p.workspace].owner == user
                                  && !db.workspaces[p.workspace].deleted)
      ==> Publish(verify, db, user, p, skip) == Err(PermissionDenied)
  {
    hide Normalize, PublishCheck, FindCommit, AfterPublish, MatchesPayload;
  }

  /** A publish answers with the version of the head it left behind. */
  lemma AnsweredVersion(verify: Verifier, db: Db, user: Uuid, p: PublishParams, skip: nat)
    requires Publish(verify, db, user, p, skip).Ok?
    ensures
      var (after, result) := Publish(verify, db, user, p, skip).value;
      p.workspace in after.workspaces && result.headVersion == after.workspaces[p.workspace].headVersion
  {
    hide PublishCheck, FindCommit, AddLinks, Normalize, MatchesPayload;
  }

  /** What an accepted publish writes: the commit at the end, the head on it, its device's sequence; nothing else
      moves. */
  lemma PublishedExactly(verify: Verifier, db: Db, user: Uuid, p: PublishParams, skip: nat)
    requires Publish(verify, db, user, p, skip).Ok? && !Publish(verify, db, user, p, skip).value.1.idempotent
    ensures
      var (after, result) := Publish(verify, db, user, p, skip).value;
      var c := result.commit;
      && p.workspace in db.workspaces && p.workspace in after.workspaces
      && after.accounts == db.accounts && after.workspaces.Keys == db.workspaces.Keys
      && (forall v | v in db.workspaces && v != p.workspace :: after.workspaces[v] == db.workspaces[v])
      && var was, now := db.workspaces[p.workspace], after.workspaces[p.workspace];
      && now.commits == was.commits + [c] && now.head == Some(Trim(p.commitId))
      && now.headVersion == was.headVersion + 1 == result.headVersion
      && now.owner == was.owner && now.deleted == was.deleted && now.objects == was.objects && now.usage == was.usage
      && p.author in was.devices
      && now.devices == was.devices[p.author := was.devices[p.author].(lastSeq := p.deviceSeq)]
      && db.nextSeq <= c.serverSeq < after.nextSeq
  {
    hide Publish, PublishCheck, FindCommit, AddLinks, TrimAll, Sort, NormalDigest, IsSha256Hex, Trim;
    PublishOutcome(verify, db, user, p, skip);
    AnsweredVersion(verify, db, user, p, skip);
    NormalizedFields(p);
  }

  /** Every field of the stored commit comes from the request. */
  lemma StoredFields(verify: Verifier, db: Db, user: Uuid, p: PublishParams, skip: nat)
    requires Publish(verify, db, user, p, skip).Ok? && !Publish(verify, db, user, p, skip).value.1.idempotent
    ensures
      var c := Publish(verify, db, user, p, skip).value.1.commit;
      && c.workspace == p.workspace && c.id == Trim(p.commitId) && Some(c.kind) == p.kind
      && TextValue(c.expectedHead) == Trim(p.expectedHead) && c.author == p.author && c.deviceSeq == p.deviceSeq
      && c.parents == TrimAll(p.parents) && c.bodyId == Trim(p.bodyId) && c.bodySha == NormalDigest(p.bodySha)
      && c.bodySize == p.bodySize && c.referenced == Sort(TrimAll(p.referenced)) && c.signature == p.signature
  {
    hide Publish, PublishCheck, FindCommit, Normalize, AfterPublish, Trim, TrimAll, Sort, NormalDigest;
    PublishOutcome(verify, db, user, p, skip);
    NormalizedFields(p);
  }

  /** The signature covers everything: two requests with one payload differ in their signatures at most. */
  lemma PayloadPinsRequest(a: PublishParams, b: PublishParams)
    requires a.kind.Some? && b.kind.Some? && PayloadOf(a) == PayloadOf(b)
    ensures a == b.(signature := a.signature)
  {
  }
}
