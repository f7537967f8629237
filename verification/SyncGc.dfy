/**
 The collector (gc.go) and the latest checkpoint (checkpoint.go): which commits and objects
 the head reaches, what the latest checkpoint preserves, and which expired orphans go.
 */
module SyncGc {
  import opened Text
  import opened SyncRows
  import opened SyncUsage
  import opened SyncUploads
  import opened SyncCommits

  datatype CheckpointInfo = CheckpointInfo(commitId: string, serverSeq: nat)
  datatype CommitCandidate = CommitCandidate(commitId: string, kind: CommitKind, serverSeq: nat)

  /** SyncReachableGraph. */
  datatype Graph = Graph(
    head: string,
    commitIds: set<string>,
    objectIds: set<string>,
    preservedCommitIds: set<string>,
    preservedObjectIds: set<string>,
    latest: Option<CheckpointInfo>,
    oldHistory: seq<CommitCandidate>)

  // ----- Reachability

  type CommitMap = map<string, Commit>

  predicate IsNode(m: CommitMap, id: string) {
    id != "" && id in m
  }

  /** A walk along parent links through commits that exist. */
  predicate IsPath(m: CommitMap, p: seq<string>) {
    && p != []
    && (forall k | 0 <= k < |p| :: IsNode(m, p[k]))
    && (forall k | 0 <= k < |p| - 1 :: p[k + 1] in m[p[k]].parents)
  }

  ghost predicate Reaches(m: CommitMap, from: string, to: string) {
    exists p :: IsPath(m, p) && p[0] == from && p[|p| - 1] == to
  }

  lemma ReachesSelf(m: CommitMap, id: string)
    requires IsNode(m, id)
    ensures Reaches(m, id, id)
  {
    assert IsPath(m, [id]);
  }

  lemma ReachesStep(m: CommitMap, id: string, parent: string, to: string)
    requires IsNode(m, id) && parent in m[id].parents && Reaches(m, parent, to)
    ensures Reaches(m, id, to)
  {
    var p :| IsPath(m, p) && p[0] == parent && p[|p| - 1] == to;
    assert IsPath(m, [id] + p);
  }

  /** Nodes whose existing parents are all among the given ids. */
  predicate ClosedOver(m: CommitMap, nodes: set<string>, ids: set<string>) {
    forall v, q | v in nodes && v in m && q in m[v].parents && IsNode(m, q) :: q in ids
  }

  lemma {:induction false} ClosedHoldsPath(m: CommitMap, ids: set<string>, p: seq<string>)
    requires IsPath(m, p) && p[0] in ids && ClosedOver(m, ids, ids)
    ensures p[|p| - 1] in ids
  {
    if |p| > 1 {
      assert p[1] in m[p[0]].parents && IsNode(m, p[1]);
      assert forall k | 0 <= k < |p[1..]| :: p[1..][k] == p[k + 1];
      ClosedHoldsPath(m, ids, p[1..]);
    }
  }

  /** visitReachableCommits: adds what the commit reaches to the visited set. */
  method VisitReachableCommits(id: string, m: CommitMap, visited: set<string>) returns (all: set<string>)
    ensures visited <= all
    ensures IsNode(m, id) ==> id in all
    ensures forall v | v in all - visited :: IsNode(m, v) && Reaches(m, id, v)
    ensures ClosedOver(m, all - visited, all)
    decreases m.Keys - visited
  {
    all := visited;
    if id == "" || id in visited || id !in m {
      return;
    }
    all := all + {id};
    var parents := m[id].parents;
    ReachesSelf(m, id);
    for i := 0 to |parents|
      invariant visited + {id} <= all
      invariant forall v | v in all - visited :: IsNode(m, v) && Reaches(m, id, v)
      invariant ClosedOver(m, all - visited - {id}, all)
      invariant forall k | 0 <= k < i && IsNode(m, parents[k]) :: parents[k] in all
    {
      ghost var before := all;
      assert m.Keys - all < m.Keys - visited by {
        assert id in m.Keys - visited && id !in m.Keys - all;
      }
      all := VisitReachableCommits(parents[i], m, all);
      forall v | v in all - before ensures Reaches(m, id, v) {
        ReachesStep(m, id, parents[i], v);
      }
    }
  }

  ghost function ReachableIds(m: CommitMap, head: string): set<string> {
    set id | id in m && Reaches(m, head, id)
  }

  /** Started from nothing, the visit returns exactly what the head reaches. */
  method VisitFromHead(head: string, m: CommitMap) returns (all: set<string>)
    ensures all == ReachableIds(m, head)
  {
    all := VisitReachableCommits(head, m, {});
    assert forall v | v in all :: v in all - {};
    forall id | id in m && Reaches(m, head, id) ensures id in all {
      var p :| IsPath(m, p) && p[0] == head && p[|p| - 1] == id;
      assert all - {} == all;
      ClosedHoldsPath(m, all, p);
    }
  }

  // ----- The graph, as a function of the rows

  function ById(commits: seq<Commit>): CommitMap {
    if commits == [] then map[]
    else ById(commits[..|commits| - 1])[commits[|commits| - 1].id := commits[|commits| - 1]]
  }

  /** The objects a commit row names. */
  function FieldObjects(c: Commit): set<string> {
    set o | o in [c.bodyId] + c.referenced && o != ""
  }

  /** The objects of a commit id, from the link rows and from the fields of the commit rows. */
  ghost function ObjectsOf(commits: seq<Commit>, links: seq<Link>, id: string): set<string> {
    (set l | l in links && l.commitId == id :: l.objectId)
    + (set c, o | c in commits && c.id == id && o in FieldObjects(c) :: o)
  }

  ghost function ObjectsOfAll(commits: seq<Commit>, links: seq<Link>, ids: set<string>): set<string> {
    set id, o | id in ids && o in ObjectsOf(commits, links, id) :: o
  }

  /** latestCheckpointFromCommits. */
  function LatestCheckpoint(commits: seq<Commit>): Option<CheckpointInfo> {
    if commits == [] then None
    else if commits[0].kind == Checkpoint then Some(CheckpointInfo(commits[0].id, commits[0].serverSeq))
    else LatestCheckpoint(commits[1..])
  }

  function PreservedIds(commits: seq<Commit>, from: nat): set<string> {
    set c | c in commits && c.serverSeq >= from :: c.id
  }

  function OldHistory(commits: seq<Commit>, reachable: set<string>, from: nat): seq<CommitCandidate> {
    if commits == [] then [] else
      var c := commits[|commits| - 1];
      OldHistory(commits[..|commits| - 1], reachable, from)
      + if c.id in reachable && c.serverSeq < from then [CommitCandidate(c.id, c.kind, c.serverSeq)] else []
  }

  /** buildReachableObjectGraph on commits listed newest first. */
  ghost function BuildGraph(head: Option<string>, commits: seq<Commit>, links: seq<Link>): Graph {
    var reachable := ReachableIds(ById(commits), TextValue(head));
    var latest := LatestCheckpoint(commits);
    var preserved := if latest.Some? then PreservedIds(commits, latest.value.serverSeq) else reachable;
    Graph(
      TextValue(head),
      reachable,
      ObjectsOfAll(commits, links, reachable),
      preserved,
      ObjectsOfAll(commits, links, preserved),
      latest,
      if latest.Some? then OldHistory(commits, reachable, latest.value.serverSeq) else [])
  }

  // ----- The graph, as the loops that fill it in

  method LatestCheckpointFromCommits(commits: seq<Commit>) returns (latest: Option<CheckpointInfo>)
    ensures latest == LatestCheckpoint(commits)
  {
    for i := 0 to |commits|
      invariant LatestCheckpoint(commits) == LatestCheckpoint(commits[i..])
    {
      if commits[i].kind == Checkpoint {
        return Some(CheckpointInfo(commits[i].id, commits[i].serverSeq));
      }
      assert commits[i..][1..] == commits[i + 1..];
    }
    latest := None;
  }

  function Entry(m: map<string, set<string>>, id: string): set<string> {
    if id in m then m[id] else {}
  }

  method CollectLinks(links: seq<Link>) returns (byCommit: map<string, set<string>>)
    ensures forall id :: Entry(byCommit, id) == ObjectsOf([], links, id)
  {
    byCommit := map[];
    for i := 0 to |links|
      invariant forall id :: Entry(byCommit, id) == ObjectsOf([], links[..i], id)
    {
      var l := links[i];
      ghost var before := byCommit;
      byCommit := byCommit[l.commitId := Entry(byCommit, l.commitId) + {l.objectId}];
      assert links[..i + 1] == links[..i] + [l];
      forall id ensures Entry(byCommit, id) == ObjectsOf([], links[..i + 1], id) {
        assert Entry(before, id) == ObjectsOf([], links[..i], id);
      }
    }
    assert links[..|links|] == links;
  }

  method CollectFields(commits: seq<Commit>, links: seq<Link>, fromLinks: map<string, set<string>>)
    returns (byId: CommitMap, byCommit: map<string, set<string>>)
    requires forall id :: Entry(fromLinks, id) == ObjectsOf([], links, id)
    ensures byId == ById(commits)
    ensures forall id :: Entry(byCommit, id) == ObjectsOf(commits, links, id)
  {
    byId, byCommit := map[], fromLinks;
    for i := 0 to |commits|
      invariant byId == ById(commits[..i])
      invariant forall id :: Entry(byCommit, id) == ObjectsOf(commits[..i], links, id)
    {
      var c := commits[i];
      ghost var before := byCommit;
      assert commits[..i + 1] == commits[..i] + [c] && commits[..i + 1][..i] == commits[..i];
      byId := byId[c.id := c];
      byCommit := byCommit[c.id := Entry(byCommit, c.id) + FieldObjects(c)];
      forall id ensures Entry(byCommit, id) == ObjectsOf(commits[..i + 1], links, id) {
        ObjectsOfExtends(commits[..i], c, links, id);
        assert Entry(before, id) == ObjectsOf(commits[..i], links, id);
      }
    }
    assert commits[..|commits|] == commits;
  }

  lemma ObjectsOfExtends(commits: seq<Commit>, c: Commit, links: seq<Link>, id: string)
    ensures ObjectsOf(commits + [c], links, id)
         == ObjectsOf(commits, links, id) + (if c.id == id then FieldObjects(c) else {})
  {
    var more := commits + [c];
    forall o | o in ObjectsOf(commits, links, id) || (c.id == id && o in FieldObjects(c))
      ensures o in ObjectsOf(more, links, id)
    {
      if o !in (set l | l in links && l.commitId == id :: l.objectId) {
        if c.id == id && o in FieldObjects(c) {
          assert c in more;
        } else {
          var d :| d in commits && d.id == id && o in FieldObjects(d);
          assert d in more;
        }
      }
    }
  }

  method CollectObjects(byCommit: map<string, set<string>>, ids: set<string>, commits: seq<Commit>, links: seq<Link>)
    returns (objects: set<string>)
    requires forall id :: Entry(byCommit, id) == ObjectsOf(commits, links, id)
    ensures objects == ObjectsOfAll(commits, links, ids)
  {
    objects := {};
    var rest := ids;
    while rest != {}
      invariant rest <= ids
      invariant objects == ObjectsOfAll(commits, links, ids - rest)
      decreases |rest|
    {
      var id :| id in rest;
      ghost var done := ids - rest;
      assert Entry(byCommit, id) == ObjectsOf(commits, links, id);
      objects := objects + Entry(byCommit, id);
      rest := rest - {id};
      assert ids - rest == done + {id};
    }
    assert ids - rest == ids;
  }

  method SplitAtCheckpoint(commits: seq<Commit>, reachable: set<string>, from: nat)
    returns (preserved: set<string>, oldHistory: seq<CommitCandidate>)
    ensures preserved == PreservedIds(commits, from)
    ensures oldHistory == OldHistory(commits, reachable, from)
  {
    preserved, oldHistory := {}, [];
    for i := 0 to |commits|
      invariant preserved == PreservedIds(commits[..i], from)
      invariant oldHistory == OldHistory(commits[..i], reachable, from)
    {
      var c := commits[i];
      assert commits[..i + 1] == commits[..i] + [c] && commits[..i + 1][..i] == commits[..i];
      if c.serverSeq >= from {
        preserved := preserved + {c.id};
      }
      if c.id in reachable && c.serverSeq < from {
        oldHistory := oldHistory + [CommitCandidate(c.id, c.kind, c.serverSeq)];
      }
    }
    assert commits[..|commits|] == commits;
  }

  method BuildReachableObjectGraph(head: Option<string>, commits: seq<Commit>, links: seq<Link>) returns (g: Graph)
    ensures g == BuildGraph(head, commits, links)
  {
    var fromLinks := CollectLinks(links);
    var byId, byCommit := CollectFields(commits, links, fromLinks);
    var latest := LatestCheckpointFromCommits(commits);
    var reachable := VisitFromHead(TextValue(head), byId);
    var reachableObjects := CollectObjects(byCommit, reachable, commits, links);
    if latest.None? {
      return Graph(TextValue(head), reachable, reachableObjects, reachable, reachableObjects, latest, []);
    }
    var preserved, oldHistory := SplitAtCheckpoint(commits, reachable, latest.value.serverSeq);
    var preservedObjects := CollectObjects(byCommit, preserved, commits, links);
    g := Graph(TextValue(head), reachable, reachableObjects, preserved, preservedObjects, latest, oldHistory);
  }

  // ----- The graph of a log that publishing built

  /** ListSyncCommitsByWorkspaceDesc: newest first. */
  function Newest(commits: seq<Commit>): (r: seq<Commit>)
    ensures |r| == |commits|
    ensures forall i | 0 <= i < |r| :: r[i] == commits[|commits| - 1 - i]
  {
    seq(|commits|, i requires 0 <= i < |commits| => commits[|commits| - 1 - i])
  }

  lemma {:induction false} ByIdOfDistinct(commits: seq<Commit>)
    requires DistinctIds(commits)
    ensures forall i | 0 <= i < |commits| ::
        commits[i].id in ById(commits) && ById(commits)[commits[i].id] == commits[i]
    ensures forall id | id in ById(commits) :: exists i | 0 <= i < |commits| :: commits[i].id == id
  {
    if commits != [] {
      var n := |commits| - 1;
      ByIdOfDistinct(commits[..n]);
      forall id | id in ById(commits) ensures exists i | 0 <= i < |commits| :: commits[i].id == id {
        if id in ById(commits[..n]) {
          var i :| 0 <= i < n && commits[..n][i].id == id;
          assert commits[i].id == id;
        } else {
          assert commits[n].id == id;
        }
      }
    }
  }

  /** A log's commits by id, as the collector sees them. */
  lemma LogById(commits: seq<Commit>)
    requires Chained(commits)
    ensures var m := ById(Newest(commits));
            && (forall i | 0 <= i < |commits| :: commits[i].id in m && m[commits[i].id] == commits[i])
            && (forall id | id in m :: exists i | 0 <= i < |commits| :: commits[i].id == id)
  {
    var r := Newest(commits);
    ByIdOfDistinct(r);
    var m := ById(r);
    forall i | 0 <= i < |commits| ensures commits[i].id in m && m[commits[i].id] == commits[i] {
      assert r[|commits| - 1 - i] == commits[i];
    }
    forall id | id in m ensures exists i | 0 <= i < |commits| :: commits[i].id == id {
      var i :| 0 <= i < |r| && r[i].id == id;
      assert commits[|commits| - 1 - i].id == id;
    }
  }

  lemma {:induction false} LaterReachesEarlier(commits: seq<Commit>, i: nat, j: nat)
    requires Chained(commits) && j <= i < |commits|
    ensures Reaches(ById(Newest(commits)), commits[i].id, commits[j].id)
    decreases i
  {
    hide ById, Reaches;
    var m := ById(Newest(commits));
    LogById(commits);
    assert Linked(commits, i) && Linked(commits, j);
    hide Linked, Chained;
    if i == j {
      ReachesSelf(m, commits[i].id);
    } else {
      LaterReachesEarlier(commits, i - 1, j);
      ReachesStep(m, commits[i].id, commits[i - 1].id, commits[j].id);
    }
  }

  function Ids(commits: seq<Commit>): set<string> {
    set c | c in commits :: c.id
  }

  /** Every commit ever published is reachable from the head. */
  lemma HeadReachesAll(ws: Workspace)
    requires Chained(ws.commits) && HeadOk(ws)
    ensures ReachableIds(ById(Newest(ws.commits)), TextValue(ws.head)) == Ids(ws.commits)
  {
    var m := ById(Newest(ws.commits));
    LogById(ws.commits);
    forall j | 0 <= j < |ws.commits|
      ensures ws.commits[j].id in ReachableIds(m, TextValue(ws.head))
    {
      LaterReachesEarlier(ws.commits, |ws.commits| - 1, j);
    }
    forall id | id in ReachableIds(m, TextValue(ws.head)) ensures id in Ids(ws.commits) {
      var i :| 0 <= i < |ws.commits| && ws.commits[i].id == id;
      assert ws.commits[i] in ws.commits;
    }
  }

  /** The index of the newest checkpoint. */
  predicate IsLatestCheckpoint(commits: seq<Commit>, k: nat) {
    && k < |commits| && commits[k].kind == Checkpoint
    && forall j | k < j < |commits| :: commits[j].kind != Checkpoint
  }

  lemma {:induction false} LatestOfNewest(commits: seq<Commit>, k: nat, i: nat)
    requires IsLatestCheckpoint(commits, k) && i <= |commits| - 1 - k
    ensures LatestCheckpoint(Newest(commits)[i..]) == Some(CheckpointInfo(commits[k].id, commits[k].serverSeq))
    decreases |commits| - i
  {
    var r := Newest(commits);
    assert r[i..][0] == commits[|commits| - 1 - i];
    if i < |commits| - 1 - k {
      assert r[i..][1..] == r[i + 1..];
      LatestOfNewest(commits, k, i + 1);
    }
  }

  lemma {:induction false} FirstIsCheckpoint(commits: seq<Commit>) returns (k: nat)
    requires commits != [] && commits[0].kind == Checkpoint
    ensures IsLatestCheckpoint(commits, k)
  {
    var n := |commits| - 1;
    if commits[n].kind == Checkpoint {
      k := n;
    } else {
      k := FirstIsCheckpoint(commits[..n]);
      assert commits[..n][k] == commits[k];
      forall j | k < j < |commits| ensures commits[j].kind != Checkpoint {
        if j < n { assert commits[..n][j] == commits[j]; }
      }
    }
  }

  function Candidate(c: Commit): CommitCandidate {
    CommitCandidate(c.id, c.kind, c.serverSeq)
  }

  function Candidates(commits: seq<Commit>): (r: seq<CommitCandidate>)
    ensures |r| == |commits|
    ensures forall i | 0 <= i < |r| :: r[i] == Candidate(commits[i])
  {
    seq(|commits|, i requires 0 <= i < |commits| => Candidate(commits[i]))
  }

  lemma {:induction false} OldOfConcat(a: seq<Commit>, b: seq<Commit>, reachable: set<string>, from: nat)
    ensures OldHistory(a + b, reachable, from) == OldHistory(a, reachable, from) + OldHistory(b, reachable, from)
  {
    if b == [] {
      assert a + b == a;
    } else {
      var n := |b| - 1;
      OldOfConcat(a, b[..n], reachable, from);
      assert (a + b)[..|a + b| - 1] == a + b[..n];
    }
  }

  lemma {:induction false} OldOfNew(commits: seq<Commit>, reachable: set<string>, from: nat)
    requires forall i | 0 <= i < |commits| :: commits[i].serverSeq >= from
    ensures OldHistory(commits, reachable, from) == []
  {
    if commits != [] { OldOfNew(commits[..|commits| - 1], reachable, from); }
  }

  lemma {:induction false} OldOfOld(commits: seq<Commit>, reachable: set<string>, from: nat)
    requires forall i | 0 <= i < |commits| :: commits[i].serverSeq < from && commits[i].id in reachable
    ensures OldHistory(commits, reachable, from) == Candidates(commits)
  {
    if commits != [] { OldOfOld(commits[..|commits| - 1], reachable, from); }
  }

  lemma OldOfNewest(commits: seq<Commit>, k: nat)
    requires Chained(commits) && k < |commits|
    ensures OldHistory(Newest(commits), Ids(commits), commits[k].serverSeq) == Candidates(Newest(commits[..k]))
  {
    var recent, former := Newest(commits[k..]), Newest(commits[..k]);
    assert Newest(commits) == recent + former;
    OldOfConcat(recent, former, Ids(commits), commits[k].serverSeq);
    OldOfNew(recent, Ids(commits), commits[k].serverSeq);
    forall i | 0 <= i < |former| ensures former[i].serverSeq < commits[k].serverSeq && former[i].id in Ids(commits) {
      assert former[i] == commits[k - 1 - i] && commits[k - 1 - i] in commits;
    }
    OldOfOld(former, Ids(commits), commits[k].serverSeq);
  }

  /** The collector's report on any log that publishing can build: everything is reachable, what the latest checkpoint
      preserves is the suffix from it, and the old history is the rest, newest first. */
  lemma GraphOfLog(ws: Workspace, links: seq<Link>) returns (k: nat)
    requires LogOk(ws) && ws.commits != []
    ensures IsLatestCheckpoint(ws.commits, k)
    ensures var g := BuildGraph(ws.head, Newest(ws.commits), links);
            && g.head == ws.commits[|ws.commits| - 1].id
            && g.commitIds == Ids(ws.commits)
            && g.latest == Some(CheckpointInfo(ws.commits[k].id, ws.commits[k].serverSeq))
            && g.preservedCommitIds == Ids(ws.commits[k..])
            && g.oldHistory == Candidates(Newest(ws.commits[..k]))
  {
    hide ReachableIds, ObjectsOfAll, ById, LinksOk, SeqsRise, LastSeqsOk, CursorsOk;
    var commits := ws.commits;
    var r := Newest(commits);
    assert Linked(commits, 0);
    hide Linked, Chained;
    k := FirstIsCheckpoint(commits);
    HeadReachesAll(ws);
    LatestOfNewest(commits, k, 0);
    assert r[0..] == r;
    PreservedOfNewest(commits, k);
    OldOfNewest(commits, k);
  }

  lemma PreservedOfNewest(commits: seq<Commit>, k: nat)
    requires Chained(commits) && k < |commits|
    ensures PreservedIds(Newest(commits), commits[k].serverSeq) == Ids(commits[k..])
  {
    var r := Newest(commits);
    forall c | c in r && c.serverSeq >= commits[k].serverSeq ensures c in commits[k..] {
      var i :| 0 <= i < |r| && r[i] == c;
      assert commits[k..][|commits| - 1 - i - k] == c;
    }
    forall c | c in commits[k..] ensures c in r && c.serverSeq >= commits[k].serverSeq {
      var i :| 0 <= i < |commits[k..]| && commits[k..][i] == c;
      assert r[|commits| - 1 - (k + i)] == c;
    }
  }

  /** Preserved commits and old history partition the log. */
  lemma PreservedAndOldPartition(ws: Workspace, links: seq<Link>)
    requires LogOk(ws)
    ensures var g := BuildGraph(ws.head, Newest(ws.commits), links);
            var oldIds := set c | c in g.oldHistory :: c.commitId;
            && g.preservedCommitIds + oldIds == Ids(ws.commits)
            && g.preservedCommitIds !! oldIds
  {
    if ws.commits == [] {
      HeadReachesAll(ws);
    } else {
      var k := GraphOfLog(ws, links);
      OldIds(ws.commits, k);
    }
  }

  lemma OldIds(commits: seq<Commit>, k: nat)
    requires DistinctIds(commits) && k < |commits|
    ensures (set c | c in Candidates(Newest(commits[..k])) :: c.commitId) == Ids(commits[..k])
    ensures Ids(commits[k..]) + Ids(commits[..k]) == Ids(commits)
    ensures Ids(commits[k..]) !! Ids(commits[..k])
  {
    var r := Newest(commits[..k]);
    var cs := Candidates(r);
    forall c | c in cs ensures c.commitId in Ids(commits[..k]) {
      var i :| 0 <= i < |cs| && cs[i] == c;
      assert commits[..k][k - 1 - i] in commits[..k];
    }
    forall c | c in commits[..k] ensures c.id in set d | d in cs :: d.commitId {
      var i :| 0 <= i < k && commits[..k][i] == c;
      assert cs[k - 1 - i] in cs;
    }
    forall c | c in commits ensures c in commits[..k] || c in commits[k..] {
      assert commits == commits[..k] + commits[k..];
    }
  }

  /** Following expected-head links n times. */
  function FollowHeads(m: CommitMap, id: string, n: nat): string
    decreases n
  {
    if n == 0 || id !in m then id else FollowHeads(m, TextValue(m[id].expectedHead), n - 1)
  }

  lemma {:induction false} FollowAlongLog(commits: seq<Commit>, i: nat, n: nat)
    requires Chained(commits) && i < |commits| && n <= i
    ensures FollowHeads(ById(Newest(commits)), commits[i].id, n) == commits[i - n].id
    decreases n
  {
    LogById(commits);
    assert Linked(commits, i);
    if n > 0 { FollowAlongLog(commits, i - 1, n - 1); }
  }

  /** From the head, the walk along expected heads meets only preserved commits until it arrives at the latest
      checkpoint. */
  lemma WalkStaysPreserved(ws: Workspace, links: seq<Link>) returns (steps: nat)
    requires LogOk(ws) && ws.commits != []
    ensures var g := BuildGraph(ws.head, Newest(ws.commits), links);
            var m := ById(Newest(ws.commits));
            && g.latest.Some?
            && FollowHeads(m, g.head, steps) == g.latest.value.commitId
            && forall n | 0 <= n <= steps :: FollowHeads(m, g.head, n) in g.preservedCommitIds
  {
    hide BuildGraph, ById, Chained, LinksOk, SeqsRise, LastSeqsOk, CursorsOk;
    var k := GraphOfLog(ws, links);
    var last := |ws.commits| - 1;
    steps := last - k;
    var m := ById(Newest(ws.commits));
    forall n | 0 <= n <= steps
      ensures FollowHeads(m, ws.commits[last].id, n) == ws.commits[last - n].id
      ensures ws.commits[last - n].id in Ids(ws.commits[k..])
    {
      FollowAlongLog(ws.commits, last, n);
      assert ws.commits[k..][last - n - k] == ws.commits[last - n];
    }
  }
}
