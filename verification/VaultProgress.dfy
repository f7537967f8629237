/**
 What saves through vault_fs.ts come to: only a vault change rejects one, a save that has its
 turn ends as its checksum decides, every save can come to its turn, and which paths share a
 queue.
 */
module VaultProgress {
  import opened Text
  import opened VaultWrites

  // ----- Rejection

  predicate RejectedAreStale(w: World) {
    forall id: nat | id < |w.ops| && w.ops[id].stage == Done(Rejected) :: w.ops[id].generation < w.generation
  }

  lemma NextKeepsRejected(env: Env, w: World, step: Step)
    requires RejectedAreStale(w) && forall j: nat | j < |w.ops| :: w.ops[j].generation <= w.generation
    ensures RejectedAreStale(Next(env, w, step))
  {
    hide KeyOf, PathOk;
  }

  /** In every run, a rejected call was made before a vault change. */
  lemma {:induction false} OnlyVaultChangesReject(env: Env, files: Files, steps: seq<Step>, id: nat)
    requires id < |Run(env, Initial(files), steps).ops|
    ensures
      var w := Run(env, Initial(files), steps);
      w.ops[id].stage == Done(Rejected) ==> w.ops[id].generation < w.generation
  {
    RunKeepsRejected(env, files, steps);
  }

  lemma {:induction false} RunKeepsRejected(env: Env, files: Files, steps: seq<Step>)
    ensures RejectedAreStale(Run(env, Initial(files), steps))
    decreases |steps|
  {
    hide Next, KeyOf;
    if steps != [] {
      var n := |steps| - 1;
      RunKeepsRejected(env, files, steps[..n]);
      RunKeeps(env, files, steps[..n]);
      NextKeepsRejected(env, Run(env, Initial(files), steps[..n]), steps[n]);
    }
  }

  /** A call whose predecessors have settled is sent if no vault change came since it was made, and rejected
      otherwise; nothing else changes. */
  lemma StartSends(env: Env, w: World, id: nat)
    requires id < |w.ops| && w.ops[id].stage == Queued && w.ops[id].generation <= w.generation
    requires w.ops[id].after.Some? ==> w.ops[id].after.value < |w.ops| && w.ops[w.ops[id].after.value].stage.Done?
    ensures
      var v := Next(env, w, Start(id));
      && |v.ops| == |w.ops| && (forall k: nat | k < |w.ops| && k != id :: v.ops[k] == w.ops[k])
      && v == w.(ops := v.ops) && v.ops[id] == w.ops[id].(stage := v.ops[id].stage)
      && (w.ops[id].generation == w.generation ==> v.ops[id].stage == Sent)
      && (w.ops[id].generation < w.generation ==> v.ops[id].stage == Done(Rejected))
  {
  }

  /** A call waits as long as the call it is chained to has not settled. */
  lemma StartWaits(env: Env, w: World, id: nat)
    requires id < |w.ops| && w.ops[id].after.Some? && w.ops[id].after.value < |w.ops|
    requires !w.ops[w.ops[id].after.value].stage.Done?
    ensures Next(env, w, Start(id)) == w
  {
  }

  // ----- One turn

  /** The steps of a call that nothing disturbs. */
  function Turn(id: nat, file: string): seq<Step> {
    [Start(id), Locate(id, Some(file)), Check(id, true), Write(id, Complete)]
  }

  lemma RunFour(env: Env, w: World, a: Step, b: Step, c: Step, d: Step)
    ensures Run(env, w, [a, b, c, d]) == Next(env, Next(env, Next(env, Next(env, w, a), b), c), d)
  {
    hide Next;
    var steps := [a, b, c, d];
    assert steps[..3] == [a, b, c] && [a, b, c][..2] == [a, b] && [a, b][..1] == [a] && [a][..0] == [];
    RunOne(env, w, a);
    assert Run(env, w, [a, b]) == Next(env, Run(env, w, [a]), b);
    assert Run(env, w, [a, b, c]) == Next(env, Run(env, w, [a, b]), c);
  }

  lemma RunOne(env: Env, w: World, a: Step)
    ensures Run(env, w, [a]) == Next(env, w, a)
  {
    hide Next;
    assert [a][..0] == [];
    assert Run(env, w, []) == w;
  }

  /** An undisturbed turn: the call ends Written, with its content on disk, exactly when the file had the checksum it
      named or already that content; otherwise it reports both checksums and leaves the file. */
  lemma TurnOutcome(env: Env, w: World, id: nat, file: string)
    requires Ready(w, id) && w.ops[id].generation == w.generation
    requires env.home(file) == KeyOf(env, w.ops[id].path) && file in w.files
    ensures
      var v, op, current := Run(env, w, Turn(id, file)), w.ops[id], w.files[file];
      && |v.ops| == |w.ops| && (forall k: nat | k < |w.ops| && k != id :: v.ops[k] == w.ops[k])
      && v.ops[id] == op.(stage := v.ops[id].stage) && v.queue == w.queue && v.generation == w.generation
      && if current == op.content || env.checksum(current) == op.checksum
         then v.ops[id].stage == Done(Written(env.checksum(op.content))) && v.files == w.files[file := op.content]
         else v.ops[id].stage == Done(Conflicted(op.checksum, env.checksum(current))) && v.files == w.files
  {
    hide KeyOf;
    var op, current := w.ops[id], w.files[file];
    var w1 := Next(env, w, Start(id));
    var w2 := Next(env, w1, Locate(id, Some(file)));
    var w3 := Next(env, w2, Check(id, true));
    RunFour(env, w, Start(id), Locate(id, Some(file)), Check(id, true), Write(id, Complete));
    assert w2.ops == w.ops[id := op.(stage := Located(file))] && w2.files == w.files;
    if current == op.content {
      assert w.files[file := op.content] == w.files;
    }
  }

  lemma {:induction false} RunAppends(env: Env, w: World, a: seq<Step>, b: seq<Step>)
    ensures Run(env, w, a + b) == Run(env, Run(env, w, a), b)
    decreases |b|
  {
    hide Next;
    if b == [] {
      assert a + b == a;
    } else {
      var n := |b| - 1;
      RunAppends(env, w, a, b[..n]);
      assert (a + b)[..|a + b| - 1] == a + b[..n];
    }
  }

  ghost predicate Settled(env: Env, w: World, key: string) {
    forall k: nat | k < |w.ops| && KeyOf(env, w.ops[k].path) == key :: w.ops[k].stage.Done?
  }

  /** A new call in a world whose queue is right: it comes last and is ready once its predecessors have settled. */
  lemma Enqueued(env: Env, w: World, path: string, content: string, checksum: string)
    requires QueueOk(env, w) && PathOk(path)
    ensures
      var v, n := Next(env, w, Enqueue(path, content, checksum)), |w.ops|;
      && |v.ops| == n + 1 && v.ops[..n] == w.ops && v.files == w.files && v.generation == w.generation
      && v.ops[n].path == path && v.ops[n].content == content && v.ops[n].checksum == checksum
      && v.ops[n].generation == w.generation && v.ops[n].stage == Queued
      && (v.ops[n].after.Some? ==> v.ops[n].after.value < n)
      && (Settled(env, w, KeyOf(env, path)) ==> Ready(v, n))
  {
    hide KeyOf, PathOk;
    assert KeyOk(env, w, KeyOf(env, path));
  }

  /** From any reachable world, a save that nothing else of its path is in the way of, and that names the checksum the
      file has, ends Written with its content on disk and no other file or call changed. */
  lemma SaveAlone(env: Env, files: Files, steps: seq<Step>, path: string, content: string, file: string)
    requires
      var w := Run(env, Initial(files), steps);
      PathOk(path) && Settled(env, w, KeyOf(env, path)) && env.home(file) == KeyOf(env, path) && file in w.files
    ensures
      var w := Run(env, Initial(files), steps);
      var n, checksum := |w.ops|, env.checksum(w.files[file]);
      var v := Run(env, w, [Enqueue(path, content, checksum)] + Turn(n, file));
      && |v.ops| == n + 1 && v.ops[..n] == w.ops
      && v.ops[n].stage == Done(Written(env.checksum(content))) && v.files == w.files[file := content]
  {
    hide KeyOf, PathOk, Next, QueueOk, LogOk, FilesOk, Settled;
    RunKeeps(env, files, steps);
    var w := Run(env, Initial(files), steps);
    var n, checksum := |w.ops|, env.checksum(w.files[file]);
    RunAppends(env, w, [Enqueue(path, content, checksum)], Turn(n, file));
    RunOne(env, w, Enqueue(path, content, checksum));
    Enqueued(env, w, path, content, checksum);
    var w1 := Next(env, w, Enqueue(path, content, checksum));
    TurnOutcome(env, w1, n, file);
    var v := Run(env, w1, Turn(n, file));
    assert forall k: nat | k < n :: v.ops[k] == w1.ops[..n][k];
  }

  /** Two saves of one path made back to back: the second waits for the first and is judged by what the first wrote,
      so it ends Written exactly when it named the first one's content, or wants it itself. */
  lemma SecondSaveSeesFirst(
      env: Env, files: Files, steps: seq<Step>, path: string, first: string, second: string, named: string,
      file: string)
    requires
      var w := Run(env, Initial(files), steps);
      PathOk(path) && Settled(env, w, KeyOf(env, path)) && env.home(file) == KeyOf(env, path) && file in w.files
    ensures
      var w := Run(env, Initial(files), steps);
      var n, checksum := |w.ops|, env.checksum(w.files[file]);
      var queued := Run(env, w, [Enqueue(path, first, checksum), Enqueue(path, second, named)]);
      var v := Run(env, Run(env, queued, Turn(n, file)), Turn(n + 1, file));
      && Next(env, queued, Start(n + 1)) == queued
      && |v.ops| == n + 2 && v.ops[n].stage == Done(Written(env.checksum(first)))
      && if first == second || env.checksum(first) == named
         then v.ops[n + 1].stage == Done(Written(env.checksum(second))) && v.files == w.files[file := second]
         else v.ops[n + 1].stage == Done(Conflicted(named, env.checksum(first))) && v.files == w.files[file := first]
  {
    hide KeyOf, PathOk, LogOk, FilesOk, Settled, Ready, DoStart, DoLocate, DoCheck, DoWrite;
    RunKeeps(env, files, steps);
    var w := Run(env, Initial(files), steps);
    var n, checksum := |w.ops|, env.checksum(w.files[file]);
    var a, b := Enqueue(path, first, checksum), Enqueue(path, second, named);
    assert [a, b] == [a] + [b];
    RunAppends(env, w, [a], [b]);
    RunOne(env, w, a);
    var w1 := Next(env, w, a);
    RunOne(env, w1, b);
    var queued := Next(env, w1, b);
    Enqueued(env, w, path, first, checksum);
    NextKeepsQueue(env, w, a);
    Enqueued(env, w1, path, second, named);
    QueuedBehind(env, w, path, first, checksum, second, named);
    hide Next, QueueOk;
    FirstStays(w1, queued, n);
    TurnOutcome(env, queued, n, file);
    var mid := Run(env, queued, Turn(n, file));
    FollowerReady(mid, queued, n);
    TurnOutcome(env, mid, n + 1, file);
    StartWaits(env, queued, n + 1);
  }

  lemma QueuedBehind(
      env: Env, w: World, path: string, first: string, checksum: string, second: string, named: string)
    requires PathOk(path)
    ensures
      var queued := Next(env, Next(env, w, Enqueue(path, first, checksum)), Enqueue(path, second, named));
      |queued.ops| == |w.ops| + 2 && queued.ops[|w.ops| + 1].after == Some(|w.ops|)
  {
    hide KeyOf, PathOk;
  }

  lemma FirstStays(w1: World, queued: World, n: nat)
    requires |w1.ops| == n + 1 && |queued.ops| == n + 2 && queued.ops[..n + 1] == w1.ops && Ready(w1, n)
    requires w1.ops[n].after.Some? ==> w1.ops[n].after.value < n
    ensures queued.ops[n] == w1.ops[n] && Ready(queued, n)
  {
    assert queued.ops[..n + 1][n] == w1.ops[n];
    if w1.ops[n].after.Some? {
      assert queued.ops[..n + 1][w1.ops[n].after.value] == w1.ops[w1.ops[n].after.value];
    }
  }

  lemma FollowerReady(mid: World, queued: World, n: nat)
    requires |queued.ops| == n + 2 == |mid.ops| && mid.ops[n + 1] == queued.ops[n + 1]
    requires queued.ops[n + 1].stage == Queued && queued.ops[n + 1].after == Some(n) && mid.ops[n].stage.Done?
    ensures Ready(mid, n + 1)
  {
  }

  /** The four ways a sent call fails: no such file in the open vault, an unreadable or vanished file, a write that
      breaks off, and a finished write that could not be announced; only the last two leave the file changed. */
  lemma FailuresFail(env: Env, w: World, id: nat, left: Option<string>)
    requires id < |w.ops|
    ensures w.ops[id].stage == Sent ==>
              var v := Next(env, w, Locate(id, None));
              v == w.(ops := v.ops) && |v.ops| == |w.ops| && v.ops[id].stage == Done(Failed)
    ensures w.ops[id].stage.Located? ==>
              && var v := Next(env, w, Check(id, false));
              && v == w.(ops := v.ops) && |v.ops| == |w.ops| && v.ops[id].stage == Done(Failed)
              && (w.ops[id].stage.file !in w.files ==> Next(env, w, Check(id, true)) == v)
    ensures w.ops[id].stage.Planned? ==>
              && var file := w.ops[id].stage.file;
              && var broken, quiet := Next(env, w, Write(id, Broken(left))), Next(env, w, Write(id, Unnotified));
              && |broken.ops| == |quiet.ops| == |w.ops|
              && broken.ops[id].stage == quiet.ops[id].stage == Done(Failed)
              && Look(broken.files, file) == left && Look(quiet.files, file) == Some(w.ops[id].content)
              && forall other | other != file ::
                   Look(broken.files, other) == Look(quiet.files, other) == Look(w.files, other)
  {
    hide KeyOf;
  }

  // ----- Every call settles

  lemma NextKeepsDone(env: Env, w: World, step: Step, id: nat)
    requires id < |w.ops| && w.ops[id].stage.Done?
    ensures id < |Next(env, w, step).ops| && Next(env, w, step).ops[id] == w.ops[id]
  {
    hide KeyOf, PathOk;
  }

  /** What a call answered is final. */
  lemma {:induction false} DoneIsFinal(env: Env, w: World, steps: seq<Step>, id: nat)
    requires id < |w.ops| && w.ops[id].stage.Done?
    ensures id < |Run(env, w, steps).ops| && Run(env, w, steps).ops[id] == w.ops[id]
    decreases |steps|
  {
    hide Next;
    if steps != [] {
      var n := |steps| - 1;
      DoneIsFinal(env, w, steps[..n], id);
      NextKeepsDone(env, Run(env, w, steps[..n]), steps[n], id);
    }
  }

  function Rank(stage: Stage): nat {
    match stage
    case Queued => 4
    case Sent => 3
    case Located(_) => 2
    case Planned(_, _) => 1
    case Done(_) => 0
  }

  /** Later calls are as they were. */
  predicate LaterKept(w: World, v: World, id: nat) {
    |v.ops| == |w.ops| && forall k: nat | id < k < |w.ops| :: v.ops[k] == w.ops[k]
  }

  /** The next step of a call that is not waiting brings it closer to its answer. */
  function Forward(w: World, id: nat): Step
    requires id < |w.ops| && !w.ops[id].stage.Done?
  {
    match w.ops[id].stage
    case Queued => Start(id)
    case Sent => Locate(id, None)
    case Located(_) => Check(id, false)
    case Planned(_, _) => Write(id, Complete)
  }

  lemma ForwardAdvances(env: Env, w: World, id: nat)
    requires id < |w.ops| && !w.ops[id].stage.Done? && (w.ops[id].stage.Queued? ==> Ready(w, id))
    ensures
      var v := Next(env, w, Forward(w, id));
      LaterKept(w, v, id) && Rank(v.ops[id].stage) < Rank(w.ops[id].stage)
  {
    hide KeyOf;
  }

  lemma {:induction false} CanSettle(env: Env, w: World, id: nat) returns (more: seq<Step>)
    requires QueueOk(env, w) && id < |w.ops|
    ensures
      var v := Run(env, w, more);
      QueueOk(env, v) && LaterKept(w, v, id) && v.ops[id].stage.Done?
    decreases id, Rank(w.ops[id].stage)
  {
    if w.ops[id].stage.Done? {
      more := [];
    } else if w.ops[id].stage.Queued? && !Ready(w, id) {
      assert ChainedOk(env, w, id);
      var i := w.ops[id].after.value;
      var before := CanSettle(env, w, i);
      var w1 := Run(env, w, before);
      assert Ready(w1, id);
      hide QueueOk, Ready, Forward;
      var rest := SettleFrom(env, w1, id);
      RunAppends(env, w, before, rest);
      more := before + rest;
    } else {
      hide QueueOk, Ready;
      more := SettleFrom(env, w, id);
    }
  }

  /** A call that is not waiting. */
  lemma {:induction false} SettleFrom(env: Env, w: World, id: nat) returns (more: seq<Step>)
    requires QueueOk(env, w) && id < |w.ops| && (w.ops[id].stage.Queued? ==> Ready(w, id))
    ensures
      var v := Run(env, w, more);
      QueueOk(env, v) && LaterKept(w, v, id) && v.ops[id].stage.Done?
    decreases Rank(w.ops[id].stage)
  {
    hide QueueOk, Ready, Forward, Next;
    if w.ops[id].stage.Done? {
      more := [];
    } else {
      var step := Forward(w, id);
      var w1 := Next(env, w, step);
      ForwardAdvances(env, w, id);
      NextKeepsQueue(env, w, step);
      var rest := SettleFrom(env, w1, id);
      RunOne(env, w, step);
      RunAppends(env, w, [step], rest);
      more := [step] + rest;
    }
  }

  /** No save waits for ever on its predecessors: from every reachable world there is a way on in which it is
      answered. */
  lemma EveryCallCanSettle(env: Env, files: Files, steps: seq<Step>, id: nat) returns (more: seq<Step>)
    requires id < |Run(env, Initial(files), steps).ops|
    ensures
      var v := Run(env, Run(env, Initial(files), steps), more);
      id < |v.ops| && v.ops[id].stage.Done?
  {
    hide LogOk, FilesOk, QueueOk, Run;
    RunKeeps(env, files, steps);
    more := CanSettle(env, Run(env, Initial(files), steps), id);
  }

  /** Cleaning up after a settled call drops its map entry, unless a later call has taken the entry over. */
  lemma ForgetDrops(env: Env, w: World, id: nat)
    requires id < |w.ops| && w.ops[id].stage.Done?
    ensures
      var v, key := Next(env, w, Forget(id)), KeyOf(env, w.ops[id].path);
      && v == w.(queue := v.queue)
      && (forall k :: k in v.queue <==> k in w.queue && !(k == key && w.queue[k] == id))
      && (forall k | k in v.queue :: v.queue[k] == w.queue[k])
  {
    hide KeyOf;
  }

  // ----- Which paths share a queue

  predicate IsSeparator(c: char) {
    c == '/' || c == '\\'
  }

  /** A segment of a path, between separators or ends. */
  predicate SegmentAt(path: string, segment: string, i: nat) {
    && i + |segment| <= |path| && path[i..i + |segment|] == segment
    && (forall c | c in segment :: !IsSeparator(c))
    && (i == 0 || IsSeparator(path[i - 1])) && (i + |segment| == |path| || IsSeparator(path[i + |segment|]))
  }

  lemma SegmentsAre(path: string, segment: string, i: nat)
    requires segment == ".."
    ensures PartAt(Slashes(path), '/', segment, i) <==> SegmentAt(path, segment, i)
  {
    var s := Slashes(path);
    if i + |segment| <= |path| {
      assert s[i..i + 2] == [s[i], s[i + 1]] && path[i..i + 2] == [path[i], path[i + 1]];
    }
  }

  /** A path is accepted exactly when it is empty or is relative, has no null character and no parent segment. */
  lemma PathOkExactly(path: string)
    ensures PathOk(path)
       <==> path == "" || (&& !(exists i | 0 <= i < |path| :: path[i] as int == 0)
                           && !IsSeparator(path[0])
                           && !(&& |path| >= 3 && IsSeparator(path[2]) && path[1] == ':'
                                && (65 <= path[0] as int <= 90 || 97 <= path[0] as int <= 122))
                           && !(exists i: nat :: SegmentAt(path, "..", i)))
  {
    PartsExactly(Slashes(path), '/', "..");
    forall i: nat ensures PartAt(Slashes(path), '/', "..", i) <==> SegmentAt(path, "..", i) {
      SegmentsAre(path, "..", i);
    }
    hide PartAt, SegmentAt, SplitOn, Slashes;
    NoNull(path);
  }

  lemma NoNull(path: string)
    ensures '\0' in path <==> exists i | 0 <= i < |path| :: path[i] as int == 0
  {
    if i :| 0 <= i < |path| && path[i] as int == 0 {
      assert path[i] == '\0';
    }
  }

  /** The kind of separator does not matter. */
  lemma SeparatorsAlike(env: Env, path: string)
    ensures KeyOf(env, Slashes(path)) == KeyOf(env, path)
  {
    assert Slashes(Slashes(path)) == Slashes(path);
  }

  predicate Segments(parts: seq<string>) {
    forall i | 0 <= i < |parts| :: parts[i] != "" && parts[i] != "." && '/' !in parts[i]
  }

  lemma {:induction false} KeptAreSegments(parts: seq<string>)
    requires forall i | 0 <= i < |parts| :: '/' !in parts[i]
    ensures Segments(KeptParts(parts))
  {
    if parts != [] { KeptAreSegments(parts[1..]); }
  }

  lemma {:induction false} KeptFixed(parts: seq<string>)
    requires Segments(parts)
    ensures KeptParts(parts) == parts
  {
    if parts != [] {
      assert forall i | 0 <= i < |parts[1..]| :: parts[1..][i] == parts[i + 1];
      KeptFixed(parts[1..]);
    }
  }

  /** Each part is kept or dropped on its own. */
  lemma {:induction false} KeptConcat(a: seq<string>, b: seq<string>)
    ensures KeptParts(a + b) == KeptParts(a) + KeptParts(b)
  {
    if a == [] {
      assert a + b == b;
    } else {
      KeptConcat(a[1..], b);
      assert (a + b)[1..] == a[1..] + b;
      var first := if a[0] == "" || a[0] == "." then [] else [a[0]];
      var x, y := KeptParts(a[1..]), KeptParts(b);
      assert KeptParts(a + b) == first + (x + y);
      assert first + (x + y) == (first + x) + y;
    }
  }

  lemma {:induction false} SplitJoined(parts: seq<string>)
    requires parts != [] && Segments(parts)
    ensures SplitOn(Join(parts), '/') == parts
  {
    hide SplitOn, SplitOnce;
    if |parts| == 1 {
      SplitNone(parts[0], '/');
    } else {
      assert forall i | 0 <= i < |parts[1..]| :: parts[1..][i] == parts[i + 1];
      SplitJoined(parts[1..]);
      SplitFirst(parts[0], '/', Join(parts[1..]));
      assert parts == [parts[0]] + parts[1..];
    }
  }

  lemma SplitHasNone(s: string, c: char)
    ensures forall i | 0 <= i < |SplitOn(s, c)| :: c !in SplitOn(s, c)[i]
  {
    hide SplitOn, PartAt;
    forall i | 0 <= i < |SplitOn(s, c)| ensures c !in SplitOn(s, c)[i] {
      var part := SplitOn(s, c)[i];
      PartsExactly(s, c, part);
      var k: nat :| PartAt(s, c, part, k);
      assert c !in part by { PartHasNone(s, c, part, k); }
    }
  }

  lemma PartHasNone(s: string, c: char, part: string, i: nat)
    requires PartAt(s, c, part, i)
    ensures c !in part
  {
  }

  /** The segments of a path that name something: without empty ones and single dots. */
  function SegmentsOf(path: string): seq<string> {
    KeptParts(SplitOn(Slashes(path), '/'))
  }

  /** Paths with the same segments share a queue. Under a case folding that keeps texts apart, only those do. */
  lemma SameQueueExactly(env: Env, a: string, b: string)
    ensures SegmentsOf(a) == SegmentsOf(b) ==> KeyOf(env, a) == KeyOf(env, b)
    ensures (forall s, t | env.lower(s) == env.lower(t) :: s == t) && KeyOf(env, a) == KeyOf(env, b) ==>
              SegmentsOf(a) == SegmentsOf(b)
  {
    hide SplitOn, Slashes;
    SplitHasNone(Slashes(a), '/');
    SplitHasNone(Slashes(b), '/');
    KeptAreSegments(SplitOn(Slashes(a), '/'));
    KeptAreSegments(SplitOn(Slashes(b), '/'));
    if Join(SegmentsOf(a)) == Join(SegmentsOf(b)) {
      JoinInjective(SegmentsOf(a), SegmentsOf(b));
    }
  }

  lemma JoinInjective(a: seq<string>, b: seq<string>)
    requires Segments(a) && Segments(b) && Join(a) == Join(b)
    ensures a == b
  {
    hide SplitOn;
    if a == [] {
      JoinEmpty(b);
    } else if b == [] {
      JoinEmpty(a);
    } else {
      SplitJoined(a);
      SplitJoined(b);
    }
  }

  lemma JoinEmpty(parts: seq<string>)
    requires Segments(parts) && Join(parts) == ""
    ensures parts == []
  {
  }
}
