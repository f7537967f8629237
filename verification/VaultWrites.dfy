/**
 Saves through vault_fs.ts and the vault_write_with_checksum command: a queue of writes per
 normalised path, a generation counter that vault changes advance, and a command that reads
 and plans in one step and writes in another. Any other step may come in between.
 */
module VaultWrites {
  import opened Text

  /** What the model leaves to the platform: case folding, the checksum, and the key under which each file is
      reached. */
  datatype Env = Env(lower: string -> string, checksum: string -> string, home: string -> string)

  // ----- Paths

  function Slashes(path: string): string {
    seq(|path|, i requires 0 <= i < |path| => if path[i] == '\\' then '/' else path[i])
  }

  function KeptParts(parts: seq<string>): seq<string> {
    if parts == [] then []
    else (if parts[0] == "" || parts[0] == "." then [] else [parts[0]]) + KeptParts(parts[1..])
  }

  function Join(parts: seq<string>): string {
    if parts == [] then "" else if |parts| == 1 then parts[0] else parts[0] + "/" + Join(parts[1..])
  }

  function KeyOf(env: Env, path: string): string {
    env.lower(Join(KeptParts(SplitOn(Slashes(path), '/'))))
  }

  predicate IsLetter(c: char) {
    'a' <= c <= 'z' || 'A' <= c <= 'Z'
  }

  /** validateVaultPath: relative, without parent segments or null characters; the empty path is the vault itself. */
  predicate PathOk(path: string) {
    path == ""
    || (&& '\0' !in path
        && path[0] != '/' && path[0] != '\\'
        && !(|path| >= 3 && IsLetter(path[0]) && path[1] == ':' && path[2] in "/\\")
        && ".." !in SplitOn(Slashes(path), '/'))
  }

  // ----- The write command

  datatype Plan = Conflict(expected: string, actual: string) | Unchanged(checksum: string) | Changed(checksum: string)

  function PlanChecksumWrite(env: Env, current: string, next: string, expected: string): Plan {
    var actual := env.checksum(current);
    if current == next then Unchanged(actual)
    else if actual != expected then Conflict(expected, actual)
    else Changed(env.checksum(next))
  }

  datatype Outcome = Rejected | Failed | Conflicted(expected: string, actual: string) | Written(checksum: string)

  datatype Stage =
    | Queued
    | Sent
    | Located(file: string)
    | Planned(file: string, seen: string)
    | Done(outcome: Outcome)

  /** One call of writeFileWithChecksum; after names the call it was chained to. */
  datatype Op = Op(path: string, content: string, checksum: string, generation: nat, after: Option<nat>, stage: Stage)

  /** What happened to files, in order; Torn is a write the system reported as failed. */
  datatype Entry =
    | Checked(id: nat, file: string, content: string)
    | Wrote(id: nat, file: string, content: string)
    | Torn(id: nat, file: string, left: Option<string>)
    | Outside(file: string, left: Option<string>)

  type Files = map<string, string>

  datatype World = World(ops: seq<Op>, queue: map<string, nat>, generation: nat, files: Files, log: seq<Entry>)

  datatype WriteResult = Broken(left: Option<string>) | Unnotified | Complete

  datatype Step =
    | Enqueue(path: string, content: string, checksum: string)
    | Start(id: nat)
    | Forget(id: nat)
    | Locate(id: nat, found: Option<string>)
    | Check(id: nat, readable: bool)
    | Write(id: nat, result: WriteResult)
    | ChangeVault
    | TouchOutside(touched: string, left: Option<string>)

  function Put(files: Files, file: string, content: Option<string>): Files {
    if content.Some? then files[file := content.value] else files - {file}
  }

  function Look(files: Files, file: string): Option<string> {
    if file in files then Some(files[file]) else None
  }

  function SetStage(w: World, id: nat, stage: Stage): World
    requires id < |w.ops|
  {
    w.(ops := w.ops[id := w.ops[id].(stage := stage)])
  }

  function DoEnqueue(env: Env, w: World, path: string, content: string, checksum: string): World {
    if !PathOk(path) then w
    else
      var key := KeyOf(env, path);
      var after := if key in w.queue then Some(w.queue[key]) else None;
      w.(ops := w.ops + [Op(path, content, checksum, w.generation, after, Queued)], queue := w.queue[key := |w.ops|])
  }

  /** The predecessor has settled, whether or not it succeeded. */
  predicate Ready(w: World, id: nat) {
    && id < |w.ops| && w.ops[id].stage.Queued?
    && (w.ops[id].after.Some? ==> w.ops[id].after.value < |w.ops| && w.ops[w.ops[id].after.value].stage.Done?)
  }

  function DoStart(w: World, id: nat): World {
    if !Ready(w, id) then w
    else SetStage(w, id, if w.ops[id].generation != w.generation then Done(Rejected) else Sent)
  }

  function DoForget(env: Env, w: World, id: nat): World {
    if id < |w.ops| && w.ops[id].stage.Done? then
      var key := KeyOf(env, w.ops[id].path);
      if key in w.queue && w.queue[key] == id then w.(queue := w.queue - {key}) else w
    else w
  }

  /** The command finds the file in the vault open at that moment, or fails. */
  function DoLocate(env: Env, w: World, id: nat, found: Option<string>): World {
    if !(id < |w.ops| && w.ops[id].stage.Sent?) then w
    else if found.None? then SetStage(w, id, Done(Failed))
    else if env.home(found.value) != KeyOf(env, w.ops[id].path) then w
    else SetStage(w, id, Located(found.value))
  }

  function DoCheck(env: Env, w: World, id: nat, readable: bool): World {
    if !(id < |w.ops| && w.ops[id].stage.Located?) then w
    else
      var op := w.ops[id];
      var file := op.stage.file;
      if !readable || file !in w.files then SetStage(w, id, Done(Failed))
      else
        var current := w.files[file];
        var stage :=
          match PlanChecksumWrite(env, current, op.content, op.checksum)
          case Conflict(expected, actual) => Done(Conflicted(expected, actual))
          case Unchanged(checksum) => Done(Written(checksum))
          case Changed(_) => Planned(file, current);
        SetStage(w, id, stage).(log := w.log + [Checked(id, file, current)])
  }

  function DoWrite(env: Env, w: World, id: nat, result: WriteResult): World {
    if !(id < |w.ops| && w.ops[id].stage.Planned?) then w
    else
      var op := w.ops[id];
      var file := op.stage.file;
      match result
      case Broken(left) =>
        SetStage(w, id, Done(Failed)).(files := Put(w.files, file, left), log := w.log + [Torn(id, file, left)])
      case Unnotified =>
        SetStage(w, id, Done(Failed))
          .(files := w.files[file := op.content], log := w.log + [Wrote(id, file, op.content)])
      case Complete =>
        SetStage(w, id, Done(Written(env.checksum(op.content))))
          .(files := w.files[file := op.content], log := w.log + [Wrote(id, file, op.content)])
  }

  function Next(env: Env, w: World, step: Step): World {
    match step
    case Enqueue(path, content, checksum) => DoEnqueue(env, w, path, content, checksum)
    case Start(id) => DoStart(w, id)
    case Forget(id) => DoForget(env, w, id)
    case Locate(id, found) => DoLocate(env, w, id, found)
    case Check(id, readable) => DoCheck(env, w, id, readable)
    case Write(id, result) => DoWrite(env, w, id, result)
    case ChangeVault => w.(generation := w.generation + 1)
    case TouchOutside(file, left) => w.(files := Put(w.files, file, left), log := w.log + [Outside(file, left)])
  }

  function Run(env: Env, w: World, steps: seq<Step>): World
    decreases |steps|
  {
    if steps == [] then w else Next(env, Run(env, w, steps[..|steps| - 1]), steps[|steps| - 1])
  }

  function Initial(files: Files): World {
    World([], map[], 0, files, [])
  }

  // ----- The queue

  predicate InFlight(op: Op) {
    !op.stage.Queued? && !op.stage.Done?
  }

  ghost predicate SameKey(env: Env, w: World, i: nat, j: nat)
    requires i < |w.ops| && j < |w.ops|
  {
    KeyOf(env, w.ops[i].path) == KeyOf(env, w.ops[j].path)
  }

  /** Every earlier call under the same key has settled. */
  ghost predicate EarlierDone(env: Env, w: World, j: nat)
    requires j < |w.ops|
  {
    forall i: nat | i < j && SameKey(env, w, i, j) :: w.ops[i].stage.Done?
  }

  /** The call was chained to the latest earlier one under its key, or had nothing left to wait for. */
  ghost predicate ChainedOk(env: Env, w: World, j: nat)
    requires j < |w.ops|
  {
    match w.ops[j].after
    case None => EarlierDone(env, w, j)
    case Some(i) => i < j && SameKey(env, w, i, j) && forall k: nat | i < k < j :: !SameKey(env, w, k, j)
  }

  /** The map holds the latest call of a key; a key it lacks has none that is unsettled. */
  ghost predicate KeyOk(env: Env, w: World, key: string) {
    if key in w.queue then
      && w.queue[key] < |w.ops| && KeyOf(env, w.ops[w.queue[key]].path) == key
      && forall k: nat | w.queue[key] < k < |w.ops| :: KeyOf(env, w.ops[k].path) != key
    else
      forall k: nat | k < |w.ops| && KeyOf(env, w.ops[k].path) == key :: w.ops[k].stage.Done?
  }

  ghost predicate QueueOk(env: Env, w: World) {
    && (forall key :: KeyOk(env, w, key))
    && (forall j: nat | j < |w.ops| :: ChainedOk(env, w, j))
    && (forall j: nat | j < |w.ops| && !w.ops[j].stage.Queued? :: EarlierDone(env, w, j))
    && (forall j: nat | j < |w.ops| :: w.ops[j].generation <= w.generation)
  }

  lemma ReadyMeansFirst(env: Env, w: World, id: nat)
    requires QueueOk(env, w) && Ready(w, id)
    ensures EarlierDone(env, w, id)
  {
    hide KeyOf;
    assert ChainedOk(env, w, id);
    if w.ops[id].after.Some? {
      var i := w.ops[id].after.value;
      assert EarlierDone(env, w, i);
      forall k: nat | k < id && SameKey(env, w, k, id) ensures w.ops[k].stage.Done? {
        assert k < i ==> SameKey(env, w, k, i);
      }
    }
  }

  /** Moving one call to a later stage keeps the queue right. */
  lemma AdvanceKeepsQueue(env: Env, w: World, id: nat, stage: Stage, v: World)
    requires QueueOk(env, w) && id < |w.ops|
    requires !w.ops[id].stage.Done? && !stage.Queued? && EarlierDone(env, w, id)
    requires v.ops == SetStage(w, id, stage).ops && v.queue == w.queue && v.generation == w.generation
    ensures QueueOk(env, v)
  {
    hide KeyOf;
    forall key ensures KeyOk(env, v, key) {
      assert KeyOk(env, w, key);
    }
    forall j: nat | j < |v.ops| ensures ChainedOk(env, v, j) {
      assert ChainedOk(env, w, j);
      assert forall k: nat | k < j :: SameKey(env, v, k, j) == SameKey(env, w, k, j);
    }
    forall j: nat | j < |v.ops| && !v.ops[j].stage.Queued? ensures EarlierDone(env, v, j) {
      assert EarlierDone(env, w, j);
      assert forall k: nat | k < j :: SameKey(env, v, k, j) == SameKey(env, w, k, j);
    }
  }

  lemma EnqueueKeepsQueue(env: Env, w: World, path: string, content: string, checksum: string)
    requires QueueOk(env, w)
    ensures QueueOk(env, DoEnqueue(env, w, path, content, checksum))
  {
    hide KeyOf, PathOk;
    if PathOk(path) {
      var v := DoEnqueue(env, w, path, content, checksum);
      var n, mine := |w.ops|, KeyOf(env, path);
      assert KeyOf(env, v.ops[n].path) == mine && v.ops[..n] == w.ops;
      assert KeyOk(env, w, mine);
      forall key ensures KeyOk(env, v, key) {
        assert KeyOk(env, w, key);
      }
      assert forall i: nat, j: nat | i < n && j < n :: SameKey(env, v, i, j) == SameKey(env, w, i, j);
      forall j: nat | j < n ensures ChainedOk(env, v, j) {
        assert ChainedOk(env, w, j);
        assert EarlierDone(env, w, j) ==> EarlierDone(env, v, j);
      }
      assert ChainedOk(env, v, n);
      forall j: nat | j < n && !v.ops[j].stage.Queued? ensures EarlierDone(env, v, j) {
        assert EarlierDone(env, w, j);
      }
    }
  }

  lemma ForgetKeepsQueue(env: Env, w: World, id: nat)
    requires QueueOk(env, w)
    ensures QueueOk(env, DoForget(env, w, id))
  {
    hide KeyOf;
    var v := DoForget(env, w, id);
    if v != w {
      var mine := KeyOf(env, w.ops[id].path);
      assert v.ops == w.ops && v.queue == w.queue - {mine} && v.generation == w.generation;
      assert KeyOk(env, w, mine) && EarlierDone(env, w, id);
      forall key ensures KeyOk(env, v, key) {
        assert KeyOk(env, w, key);
        if key == mine {
          forall k: nat | k < |v.ops| && KeyOf(env, v.ops[k].path) == key ensures v.ops[k].stage.Done? {
            assert k < id ==> SameKey(env, w, k, id);
          }
        }
      }
      SameOpsKeepChains(env, w, v);
    }
  }

  lemma SameOpsKeepChains(env: Env, w: World, v: World)
    requires v.ops == w.ops && v.generation >= w.generation && QueueOk(env, w)
    requires forall key :: KeyOk(env, v, key)
    ensures QueueOk(env, v)
  {
    hide KeyOf;
    forall j: nat | j < |v.ops|
      ensures ChainedOk(env, v, j)
      ensures v.ops[j].stage.Queued? || EarlierDone(env, v, j)
    {
      assert ChainedOk(env, w, j);
      assert forall i: nat | i < j :: SameKey(env, v, i, j) == SameKey(env, w, i, j);
      assert EarlierDone(env, w, j) ==> EarlierDone(env, v, j);
    }
  }

  lemma NextKeepsQueue(env: Env, w: World, step: Step)
    requires QueueOk(env, w)
    ensures QueueOk(env, Next(env, w, step))
  {
    hide KeyOf, QueueOk, PathOk, Ready;
    var v := Next(env, w, step);
    match step
    case Enqueue(path, content, checksum) => EnqueueKeepsQueue(env, w, path, content, checksum);
    case Start(id) =>
      if Ready(w, id) {
        StartKeepsQueue(env, w, id);
      }
    case Forget(id) => ForgetKeepsQueue(env, w, id);
    case Locate(id, _) => InFlightKeepsQueue(env, w, id, v);
    case Check(id, _) => InFlightKeepsQueue(env, w, id, v);
    case Write(id, _) => InFlightKeepsQueue(env, w, id, v);
    case ChangeVault => QueueIgnoresFiles(env, w, v);
    case TouchOutside(_, _) => QueueIgnoresFiles(env, w, v);
  }

  lemma StartKeepsQueue(env: Env, w: World, id: nat)
    requires QueueOk(env, w) && Ready(w, id)
    ensures QueueOk(env, DoStart(w, id))
  {
    ReadyMeansFirst(env, w, id);
    hide QueueOk;
    var v := DoStart(w, id);
    AdvanceKeepsQueue(env, w, id, v.ops[id].stage, v);
  }

  lemma InFlightKeepsQueue(env: Env, w: World, id: nat, v: World)
    requires QueueOk(env, w)
    requires v == w
      || (&& id < |w.ops| && InFlight(w.ops[id]) && |v.ops| == |w.ops| && !v.ops[id].stage.Queued?
          && v.ops == SetStage(w, id, v.ops[id].stage).ops && v.queue == w.queue && v.generation == w.generation)
    ensures QueueOk(env, v)
  {
    if v != w {
      assert EarlierDone(env, w, id);
      AdvanceKeepsQueue(env, w, id, v.ops[id].stage, v);
    }
  }

  lemma QueueIgnoresFiles(env: Env, w: World, v: World)
    requires QueueOk(env, w) && v.ops == w.ops && v.queue == w.queue && v.generation >= w.generation
    ensures QueueOk(env, v)
  {
    forall key ensures KeyOk(env, v, key) {
      assert KeyOk(env, w, key);
    }
    SameOpsKeepChains(env, w, v);
  }

  lemma AtMostOneInFlight(env: Env, w: World, i: nat, j: nat)
    requires QueueOk(env, w) && i < |w.ops| && j < |w.ops|
    ensures InFlight(w.ops[i]) && InFlight(w.ops[j]) && SameKey(env, w, i, j) ==> i == j
  {
    hide KeyOf;
    if InFlight(w.ops[i]) && InFlight(w.ops[j]) {
      assert EarlierDone(env, w, i) && EarlierDone(env, w, j);
    }
    assert SameKey(env, w, i, j) == SameKey(env, w, j, i);
  }

  /** Something under the key can always move: a queued call never waits on nothing. */
  lemma {:induction false} SomeoneCanMove(env: Env, w: World, j: nat) returns (i: nat)
    requires QueueOk(env, w) && j < |w.ops| && w.ops[j].stage.Queued?
    ensures i <= j && SameKey(env, w, i, j) && (Ready(w, i) || InFlight(w.ops[i]))
    decreases j
  {
    assert ChainedOk(env, w, j);
    if w.ops[j].after.Some? && w.ops[w.ops[j].after.value].stage.Queued? {
      i := SomeoneCanMove(env, w, w.ops[j].after.value);
    } else if w.ops[j].after.Some? && !w.ops[w.ops[j].after.value].stage.Done? {
      i := w.ops[j].after.value;
    } else {
      i := j;
    }
  }

  // ----- The files

  predicate Touches(e: Entry, file: string) {
    e.file == file && !e.Checked?
  }

  function Left(e: Entry): Option<string>
    requires !e.Checked?
  {
    if e.Wrote? then Some(e.content) else e.left
  }

  /** The content of a file after the logged events. */
  function ContentAfter(files: Files, log: seq<Entry>, file: string): Option<string>
    decreases |log|
  {
    if log == [] then Look(files, file)
    else if Touches(log[|log| - 1], file) then Left(log[|log| - 1])
    else ContentAfter(files, log[..|log| - 1], file)
  }

  /** Event i is the call's check, and up to event j only outsiders touched the file. */
  predicate CheckedAt(log: seq<Entry>, id: nat, file: string, seen: string, i: nat, j: nat) {
    && i < j <= |log| && log[i] == Checked(id, file, seen)
    && forall k | i < k < j && Touches(log[k], file) :: log[k].Outside?
  }

  ghost predicate CheckedBefore(log: seq<Entry>, id: nat, file: string, seen: string, j: nat) {
    exists i: nat :: CheckedAt(log, id, file, seen, i, j)
  }

  predicate By(e: Entry, id: nat) {
    !e.Outside? && e.id == id
  }

  predicate NoEntry(log: seq<Entry>, id: nat) {
    forall e | e in log :: !By(e, id)
  }

  predicate NoWrite(log: seq<Entry>, id: nat) {
    forall e | e in log && By(e, id) :: e.Checked?
  }

  /** The content on disk is what the caller's checksum named, and differs from what they want to write. */
  predicate Matches(env: Env, op: Op, seen: string) {
    env.checksum(seen) == op.checksum && seen != op.content
  }

  ghost predicate StageOk(env: Env, log: seq<Entry>, op: Op, id: nat) {
    match op.stage
    case Queued => NoEntry(log, id)
    case Sent => NoEntry(log, id)
    case Located(file) => NoEntry(log, id) && env.home(file) == KeyOf(env, op.path)
    case Planned(file, seen) =>
      && NoWrite(log, id) && env.home(file) == KeyOf(env, op.path)
      && CheckedBefore(log, id, file, seen, |log|) && Matches(env, op, seen)
    case Done(Rejected) => NoEntry(log, id)
    case Done(Written(sum)) => sum == env.checksum(op.content) && WrittenFor(log, op, id)
    case Done(_) => true
  }

  /** The call wrote its content, or found it there. */
  ghost predicate WrittenFor(log: seq<Entry>, op: Op, id: nat) {
    exists file :: Wrote(id, file, op.content) in log || Checked(id, file, op.content) in log
  }

  ghost predicate WroteOk(env: Env, w: World, j: nat)
    requires j < |w.log| && w.log[j].Wrote?
  {
    var e := w.log[j];
    && e.id < |w.ops| && w.ops[e.id].stage.Done? && e.content == w.ops[e.id].content
    && NoWrite(w.log[..j], e.id)
    && exists seen :: CheckedBefore(w.log, e.id, e.file, seen, j) && Matches(env, w.ops[e.id], seen)
  }

  ghost predicate LogOk(env: Env, w: World) {
    && (forall e | e in w.log && !e.Outside? :: e.id < |w.ops|)
    && (forall id: nat | id < |w.ops| :: StageOk(env, w.log, w.ops[id], id))
    && (forall j: nat | j < |w.log| && w.log[j].Wrote? :: WroteOk(env, w, j))
  }

  ghost predicate FilesOk(files: Files, w: World) {
    forall file :: Look(w.files, file) == ContentAfter(files, w.log, file)
  }

  ghost predicate Inv(env: Env, files: Files, w: World) {
    QueueOk(env, w) && LogOk(env, w) && FilesOk(files, w)
  }

  lemma NextKeepsFiles(env: Env, files: Files, w: World, step: Step)
    requires FilesOk(files, w)
    ensures FilesOk(files, Next(env, w, step))
  {
    hide KeyOf, PathOk;
    var v := Next(env, w, step);
    if v.log != w.log {
      assert |v.log| == |w.log| + 1 && v.log[..|w.log|] == w.log;
      forall file ensures Look(v.files, file) == ContentAfter(files, v.log, file) {
        assert Look(w.files, file) == ContentAfter(files, w.log, file);
      }
    } else {
      assert v.files == w.files;
    }
  }

  lemma CheckedAtStays(log: seq<Entry>, more: seq<Entry>, id: nat, file: string, seen: string, j: nat)
    requires CheckedBefore(log, id, file, seen, j)
    ensures CheckedBefore(log + more, id, file, seen, j)
  {
    var i: nat :| CheckedAt(log, id, file, seen, i, j);
    assert CheckedAt(log + more, id, file, seen, i, j);
  }

  lemma AppendKeepsStage(env: Env, log: seq<Entry>, e: Entry, op: Op, id: nat)
    requires StageOk(env, log, op, id) && !By(e, id)
    requires op.stage.Planned? && Touches(e, op.stage.file) ==> e.Outside?
    ensures StageOk(env, log + [e], op, id)
  {
    hide KeyOf;
    var after := log + [e];
    assert forall x | x in after :: x in log || x == e;
    if op.stage.Planned? {
      var i: nat :| CheckedAt(log, id, op.stage.file, op.stage.seen, i, |log|);
      assert CheckedAt(after, id, op.stage.file, op.stage.seen, i, |after|);
    } else if op.stage.Done? && op.stage.outcome.Written? {
      var file :| Wrote(id, file, op.content) in log || Checked(id, file, op.content) in log;
      assert Wrote(id, file, op.content) in after || Checked(id, file, op.content) in after;
    }
  }

  /** Settled calls keep their fields. */
  predicate SettledKept(w: World, v: World) {
    |w.ops| <= |v.ops| && forall k: nat | k < |w.ops| && w.ops[k].stage.Done? :: v.ops[k] == w.ops[k]
  }

  lemma OldWritesStay(env: Env, w: World, v: World, j: nat)
    requires j < |w.log| && w.log[j].Wrote? && WroteOk(env, w, j)
    requires SettledKept(w, v) && w.log <= v.log
    ensures WroteOk(env, v, j)
  {
    hide Matches;
    var e := w.log[j];
    var seen :| CheckedBefore(w.log, e.id, e.file, seen, j) && Matches(env, w.ops[e.id], seen);
    assert v.log == w.log + v.log[|w.log|..];
    CheckedAtStays(w.log, v.log[|w.log|..], e.id, e.file, seen, j);
    assert v.log[..j] == w.log[..j];
  }

  /** Calls other than id are untouched, and the log grew by at most one entry that is id's own or an outsider's. */
  predicate OnlyThisCall(w: World, v: World, id: nat) {
    && id < |w.ops| == |v.ops| && !w.ops[id].stage.Done?
    && (forall k: nat | k < |w.ops| && k != id :: v.ops[k] == w.ops[k])
    && v.ops[id] == w.ops[id].(stage := v.ops[id].stage)
    && (v.log == w.log || (|v.log| == |w.log| + 1 && w.log <= v.log && By(v.log[|w.log|], id)))
  }

  lemma CallKeepsLog(env: Env, w: World, v: World, id: nat)
    requires QueueOk(env, w) && LogOk(env, w) && OnlyThisCall(w, v, id)
    requires StageOk(env, v.log, v.ops[id], id)
    requires v.log != w.log && Touches(v.log[|w.log|], v.log[|w.log|].file)
      ==> InFlight(w.ops[id]) && env.home(v.log[|w.log|].file) == KeyOf(env, w.ops[id].path)
    requires v.log != w.log && v.log[|w.log|].Wrote? ==> WroteOk(env, v, |w.log|)
    ensures LogOk(env, v)
  {
    forall k: nat | k < |v.ops| ensures StageOk(env, v.log, v.ops[k], k) {
      if k != id && v.log != w.log {
        var e := v.log[|w.log|];
        assert v.log == w.log + [e];
        AtMostOneInFlight(env, w, id, k);
        assert StageOk(env, w.log, w.ops[k], k);
        AppendKeepsStage(env, w.log, e, w.ops[k], k);
      }
    }
    forall j: nat | j < |v.log| && v.log[j].Wrote? ensures WroteOk(env, v, j) {
      if j < |w.log| {
        OldWritesStay(env, w, v, j);
      }
    }
  }

  lemma StartKeepsLog(env: Env, w: World, id: nat)
    requires QueueOk(env, w) && LogOk(env, w)
    ensures LogOk(env, DoStart(w, id))
  {
    hide KeyOf, QueueOk, WroteOk;
    if Ready(w, id) {
      assert StageOk(env, w.log, w.ops[id], id);
      CallKeepsLog(env, w, DoStart(w, id), id);
    }
  }

  lemma LocateKeepsLog(env: Env, w: World, id: nat, found: Option<string>)
    requires QueueOk(env, w) && LogOk(env, w)
    ensures LogOk(env, DoLocate(env, w, id, found))
  {
    hide KeyOf, QueueOk, WroteOk;
    var v := DoLocate(env, w, id, found);
    if v != w {
      assert StageOk(env, w.log, w.ops[id], id);
      CallKeepsLog(env, w, v, id);
    }
  }

  lemma CheckKeepsLog(env: Env, w: World, id: nat, readable: bool)
    requires QueueOk(env, w) && LogOk(env, w)
    ensures LogOk(env, DoCheck(env, w, id, readable))
  {
    hide KeyOf, QueueOk, WroteOk, LogOk;
    var v := DoCheck(env, w, id, readable);
    if v != w {
      assert StageOk(env, w.log, w.ops[id], id) by { LogStage(env, w, id); }
      if v.log != w.log {
        var file, seen := w.ops[id].stage.file, v.log[|w.log|].content;
        assert v.log == w.log + [Checked(id, file, seen)];
        assert CheckedAt(v.log, id, file, seen, |w.log|, |v.log|);
        assert Checked(id, file, seen) in v.log;
        assert StageOk(env, v.log, v.ops[id], id);
      }
      CallKeepsLog(env, w, v, id);
    }
  }

  lemma LogStage(env: Env, w: World, id: nat)
    requires LogOk(env, w) && id < |w.ops|
    ensures StageOk(env, w.log, w.ops[id], id)
  {
  }

  lemma WriteKeepsLog(env: Env, w: World, id: nat, result: WriteResult)
    requires QueueOk(env, w) && LogOk(env, w)
    ensures LogOk(env, DoWrite(env, w, id, result))
  {
    hide KeyOf, QueueOk, LogOk, Matches;
    var v := DoWrite(env, w, id, result);
    if v != w {
      var file, seen := w.ops[id].stage.file, w.ops[id].stage.seen;
      var e := v.log[|w.log|];
      LogStage(env, w, id);
      assert v.log == w.log + [e] && v.log[..|w.log|] == w.log && e in v.log;
      CheckedAtStays(w.log, [e], id, file, seen, |w.log|);
      assert Matches(env, v.ops[id], seen) by { MatchesIgnoresStage(env, w.ops[id], v.ops[id], seen); }
      assert e.Wrote? ==> WroteOk(env, v, |w.log|);
      CallKeepsLog(env, w, v, id);
    }
  }

  lemma MatchesIgnoresStage(env: Env, a: Op, b: Op, seen: string)
    requires a.content == b.content && a.checksum == b.checksum
    ensures Matches(env, a, seen) == Matches(env, b, seen)
  {
  }

  lemma EnqueueKeepsLog(env: Env, w: World, path: string, content: string, checksum: string)
    requires LogOk(env, w)
    ensures LogOk(env, DoEnqueue(env, w, path, content, checksum))
  {
    hide KeyOf, PathOk;
    var v := DoEnqueue(env, w, path, content, checksum);
    if v != w {
      assert StageOk(env, v.log, v.ops[|w.ops|], |w.ops|);
      assert forall k: nat | k < |w.ops| :: v.ops[k] == w.ops[k];
      forall j: nat | j < |v.log| && v.log[j].Wrote? ensures WroteOk(env, v, j) {
        OldWritesStay(env, w, v, j);
      }
    }
  }

  lemma TouchKeepsLog(env: Env, w: World, file: string, left: Option<string>)
    requires LogOk(env, w)
    ensures LogOk(env, Next(env, w, TouchOutside(file, left)))
  {
    hide KeyOf;
    var v := Next(env, w, TouchOutside(file, left));
    forall k: nat | k < |v.ops| ensures StageOk(env, v.log, v.ops[k], k) {
      AppendKeepsStage(env, w.log, Outside(file, left), w.ops[k], k);
    }
    forall j: nat | j < |v.log| && v.log[j].Wrote? ensures WroteOk(env, v, j) {
      OldWritesStay(env, w, v, j);
    }
  }

  lemma NextKeepsLog(env: Env, w: World, step: Step)
    requires QueueOk(env, w) && LogOk(env, w)
    ensures LogOk(env, Next(env, w, step))
  {
    hide QueueOk, DoEnqueue, DoStart, DoForget, DoLocate, DoCheck, DoWrite, LogOk;
    match step
    case Enqueue(path, content, checksum) => EnqueueKeepsLog(env, w, path, content, checksum);
    case Start(id) => StartKeepsLog(env, w, id);
    case Forget(id) => LogIgnoresQueue(env, w, DoForget(env, w, id)) by { ForgetOnlyQueue(env, w, id); }
    case Locate(id, found) => LocateKeepsLog(env, w, id, found);
    case Check(id, readable) => CheckKeepsLog(env, w, id, readable);
    case Write(id, result) => WriteKeepsLog(env, w, id, result);
    case ChangeVault => LogIgnoresQueue(env, w, Next(env, w, step));
    case TouchOutside(file, left) => TouchKeepsLog(env, w, file, left);
  }

  lemma ForgetOnlyQueue(env: Env, w: World, id: nat)
    ensures DoForget(env, w, id).ops == w.ops && DoForget(env, w, id).log == w.log
  {
  }

  lemma LogIgnoresQueue(env: Env, w: World, v: World)
    requires LogOk(env, w) && v.ops == w.ops && v.log == w.log
    ensures LogOk(env, v)
  {
    forall j: nat | j < |v.log| && v.log[j].Wrote? ensures WroteOk(env, v, j) {
      OldWritesStay(env, w, v, j);
    }
  }

  lemma {:induction false} RunKeeps(env: Env, files: Files, steps: seq<Step>)
    ensures Inv(env, files, Run(env, Initial(files), steps))
    decreases |steps|
  {
    hide Next, KeyOf;
    if steps != [] {
      var n := |steps| - 1;
      var w := Run(env, Initial(files), steps[..n]);
      RunKeeps(env, files, steps[..n]);
      NextKeepsQueue(env, w, steps[n]);
      NextKeepsLog(env, w, steps[n]);
      NextKeepsFiles(env, files, w, steps[n]);
      hide QueueOk, LogOk, FilesOk;
    }
  }

  // ----- What every run gives

  /** In every run, at most one write per normalised path is under way. */
  lemma OneWriteAtATime(env: Env, files: Files, steps: seq<Step>, i: nat, j: nat)
    requires var w := Run(env, Initial(files), steps);
      i < |w.ops| && j < |w.ops| && InFlight(w.ops[i]) && InFlight(w.ops[j]) && SameKey(env, w, i, j)
    ensures i == j
  {
    RunKeeps(env, files, steps);
    AtMostOneInFlight(env, Run(env, Initial(files), steps), i, j);
  }

  lemma {:induction false} QuietSince(files: Files, log: seq<Entry>, file: string, i: nat)
    requires i <= |log| && forall k | i <= k < |log| :: !Touches(log[k], file)
    ensures ContentAfter(files, log, file) == ContentAfter(files, log[..i], file)
    decreases |log|
  {
    if i < |log| {
      var n := |log| - 1;
      QuietSince(files, log[..n], file, i);
      assert log[..n][..i] == log[..i];
    } else {
      assert log[..i] == log;
    }
  }

  /** Each check logged the content the file then had. */
  ghost predicate ChecksTrue(files: Files, log: seq<Entry>) {
    forall k: nat | k < |log| && log[k].Checked? :: ContentAfter(files, log[..k], log[k].file) == Some(log[k].content)
  }

  lemma {:induction false} RunChecksTrue(env: Env, files: Files, steps: seq<Step>)
    ensures ChecksTrue(files, Run(env, Initial(files), steps).log)
    decreases |steps|
  {
    hide KeyOf, PathOk;
    if steps != [] {
      var n := |steps| - 1;
      var w := Run(env, Initial(files), steps[..n]);
      RunChecksTrue(env, files, steps[..n]);
      RunKeeps(env, files, steps[..n]);
      CheckLogsContent(env, files, w, steps[n]);
    }
  }

  lemma CheckLogsContent(env: Env, files: Files, w: World, step: Step)
    requires FilesOk(files, w) && ChecksTrue(files, w.log)
    ensures ChecksTrue(files, Next(env, w, step).log)
  {
    hide KeyOf, PathOk, ContentAfter;
    var v := Next(env, w, step);
    assert w.log <= v.log && |v.log| <= |w.log| + 1;
    forall k: nat | k < |v.log| && v.log[k].Checked?
      ensures ContentAfter(files, v.log[..k], v.log[k].file) == Some(v.log[k].content)
    {
      if k < |w.log| {
        assert v.log[..k] == w.log[..k];
      } else {
        assert v.log[..k] == w.log;
        assert Look(w.files, v.log[k].file) == ContentAfter(files, w.log, v.log[k].file);
      }
    }
  }

  lemma WriteReplaces(env: Env, files: Files, w: World, j: nat) returns (i: nat, seen: string)
    requires LogOk(env, w) && ChecksTrue(files, w.log) && j < |w.log| && w.log[j].Wrote?
    ensures
      var e := w.log[j];
      && CheckedAt(w.log, e.id, e.file, seen, i, j)
      && e.id < |w.ops| && e.content == w.ops[e.id].content && env.checksum(seen) == w.ops[e.id].checksum
      && ((forall k | i < k < j && Touches(w.log[k], e.file) :: !w.log[k].Outside?)
          ==> ContentAfter(files, w.log[..j], e.file) == Some(seen))
  {
    hide StageOk, ContentAfter;
    var e := w.log[j];
    assert WroteOk(env, w, j);
    seen :| CheckedBefore(w.log, e.id, e.file, seen, j) && Matches(env, w.ops[e.id], seen);
    i :| CheckedAt(w.log, e.id, e.file, seen, i, j);
    assert ContentAfter(files, w.log[..i], e.file) == Some(seen);
    if forall k | i < k < j && Touches(w.log[k], e.file) :: !w.log[k].Outside? {
      QuietSince(files, w.log[..j], e.file, i);
      assert w.log[..j][..i] == w.log[..i];
    }
  }

  /**
   In every run, each content a call put on disk had been planned over content with the checksum
   its caller named, and only outsiders touched the file since. If none did, that is the very
   content replaced.
   */
  lemma WritesReplaceWhatWasNamed(env: Env, files: Files, steps: seq<Step>, j: nat) returns (i: nat, seen: string)
    requires var w := Run(env, Initial(files), steps); j < |w.log| && w.log[j].Wrote?
    ensures
      var w := Run(env, Initial(files), steps);
      var e := w.log[j];
      && CheckedAt(w.log, e.id, e.file, seen, i, j)
      && e.id < |w.ops| && e.content == w.ops[e.id].content && env.checksum(seen) == w.ops[e.id].checksum
      && ((forall k | i < k < j && Touches(w.log[k], e.file) :: !w.log[k].Outside?)
          ==> ContentAfter(files, w.log[..j], e.file) == Some(seen))
  {
    hide LogOk, ChecksTrue, ContentAfter, Next;
    RunKeeps(env, files, steps);
    RunChecksTrue(env, files, steps);
    i, seen := WriteReplaces(env, files, Run(env, Initial(files), steps), j);
  }

  /** Two writes of one file with no other change between them: the second caller named the first one's content. */
  lemma NoUpdateIsLost(env: Env, files: Files, steps: seq<Step>, a: nat, b: nat)
    requires
      var w := Run(env, Initial(files), steps);
      && a < b < |w.log| && w.log[a].Wrote? && w.log[b].Wrote? && w.log[a].file == w.log[b].file
      && forall k | a < k < b :: !Touches(w.log[k], w.log[b].file)
    ensures
      var w := Run(env, Initial(files), steps);
      w.log[b].id < |w.ops| && env.checksum(w.log[a].content) == w.ops[w.log[b].id].checksum
  {
    var w := Run(env, Initial(files), steps);
    hide Run;
    var file := w.log[b].file;
    var i, seen := WritesReplaceWhatWasNamed(env, files, steps, b);
    var log := w.log[..b];
    assert Touches(w.log[a], file);
    assert forall k | a + 1 <= k < |log| :: log[k] == w.log[k];
    QuietSince(files, log, file, a + 1);
    assert log[..a + 1][a] == w.log[a];
  }

  /**
   A Written answer: the call wrote the content asked for over content with the named checksum, or
   found it there. What it found had the named checksum exactly when it differed from the content
   asked for or that content has this checksum itself.
   */
  lemma WrittenMeans(env: Env, files: Files, steps: seq<Step>, id: nat)
    requires var w := Run(env, Initial(files), steps);
      id < |w.ops| && w.ops[id].stage.Done? && w.ops[id].stage.outcome.Written?
    ensures
      var w := Run(env, Initial(files), steps);
      var op := w.ops[id];
      && op.stage.outcome.checksum == env.checksum(op.content)
      && exists file, seen :: Checked(id, file, seen) in w.log
           && (seen == op.content || (Wrote(id, file, op.content) in w.log && env.checksum(seen) == op.checksum))
           && (env.checksum(seen) == op.checksum <==> seen != op.content || env.checksum(op.content) == op.checksum)
  {
    hide KeyOf, Next;
    RunKeeps(env, files, steps);
    var w := Run(env, Initial(files), steps);
    var op := w.ops[id];
    LogStage(env, w, id);
    var file :| Wrote(id, file, op.content) in w.log || Checked(id, file, op.content) in w.log;
    if Wrote(id, file, op.content) in w.log {
      var j :| 0 <= j < |w.log| && w.log[j] == Wrote(id, file, op.content);
      var i, seen := WritesReplaceWhatWasNamed(env, files, steps, j);
      assert Checked(id, file, seen) in w.log;
    }
  }

  lemma WriteShows(log: seq<Entry>, i: nat, j: nat)
    ensures i < j <= |log| && log[i].Wrote? ==> !NoWrite(log[..j], log[i].id)
  {
    if i < j <= |log| {
      assert log[i] in log[..j];
    }
  }

  /** A call writes to its file at most once. */
  lemma OneWritePerCall(env: Env, files: Files, steps: seq<Step>, i: nat, j: nat)
    requires var w := Run(env, Initial(files), steps);
      i < |w.log| && j < |w.log| && w.log[i].Wrote? && w.log[j].Wrote? && w.log[i].id == w.log[j].id
    ensures i == j
  {
    hide KeyOf, Next;
    RunKeeps(env, files, steps);
    var w := Run(env, Initial(files), steps);
    assert WroteOk(env, w, i) && WroteOk(env, w, j);
    WriteShows(w.log, i, j);
    WriteShows(w.log, j, i);
  }

  predicate Stale(w: World, id: nat) {
    && id < |w.ops| && w.ops[id].generation < w.generation
    && (w.ops[id].stage == Queued || w.ops[id].stage == Done(Rejected))
  }

  lemma NextKeepsStale(env: Env, w: World, step: Step, id: nat)
    requires Stale(w, id)
    ensures Stale(Next(env, w, step), id)
  {
    hide KeyOf, PathOk;
  }

  /** A call still queued when the vault changes never starts: it stays queued or is rejected, in every continuation. */
  lemma {:induction false} StaleNeverStarts(env: Env, w: World, steps: seq<Step>, id: nat)
    requires id < |w.ops| && w.ops[id].stage.Queued? && w.ops[id].generation < w.generation
    ensures Stale(Run(env, w, steps), id)
    decreases |steps|
  {
    hide Next;
    if steps != [] {
      var n := |steps| - 1;
      StaleNeverStarts(env, w, steps[..n], id);
      NextKeepsStale(env, Run(env, w, steps[..n]), steps[n], id);
    }
  }

  /** ... and touches no file. */
  lemma RejectedTouchesNothing(env: Env, files: Files, steps: seq<Step>, id: nat)
    requires var w := Run(env, Initial(files), steps);
      id < |w.ops| && (w.ops[id].stage == Queued || w.ops[id].stage == Done(Rejected))
    ensures NoEntry(Run(env, Initial(files), steps).log, id)
  {
    hide KeyOf, Next;
    RunKeeps(env, files, steps);
    LogStage(env, Run(env, Initial(files), steps), id);
  }

  /**
   A Written answer does not by itself mean the file had the checksum the caller named:
   content that is already there is reported as written whatever the checksum.
   */
  lemma WrittenDespiteStaleChecksum(env: Env, path: string, file: string, content: string, checksum: string)
    requires PathOk(path) && env.home(file) == KeyOf(env, path) && env.checksum(content) != checksum
    ensures
      var steps := [Enqueue(path, content, checksum), Start(0), Locate(0, Some(file)), Check(0, true)];
      Run(env, Initial(map[file := content]), steps).ops
        == [Op(path, content, checksum, 0, None, Done(Written(env.checksum(content))))]
  {
    hide KeyOf, PathOk;
    var start := Initial(map[file := content]);
    var steps := [Enqueue(path, content, checksum), Start(0), Locate(0, Some(file)), Check(0, true)];
    var w1 := Next(env, start, steps[0]);
    var w2 := Next(env, w1, steps[1]);
    var w3 := Next(env, w2, steps[2]);
    assert steps[..1] == [steps[0]] && steps[..1][..0] == [];
    assert steps[..2][..1] == steps[..1] && steps[..3][..2] == steps[..2];
    assert Run(env, start, steps[..0]) == start;
    assert Run(env, start, steps[..1]) == w1;
    assert Run(env, start, steps[..2]) == w2;
    assert Run(env, start, steps[..3]) == w3;
    assert w3.ops[0].stage == Located(file) && w3.files == map[file := content];
  }

  /** The plan goes ahead exactly when the content has the named checksum or is already what is wanted. */
  lemma PlanExact(env: Env, current: string, next: string, expected: string)
    ensures
      var plan := PlanChecksumWrite(env, current, next, expected);
      && (!plan.Conflict? <==> env.checksum(current) == expected || current == next)
      && (plan.Conflict? ==> plan.expected == expected && plan.actual == env.checksum(current))
      && (plan.Unchanged? <==> current == next)
      && (!plan.Conflict? ==> plan.checksum == env.checksum(next))
      && (!plan.Conflict? ==>
        (env.checksum(current) == expected <==> current != next || env.checksum(next) == expected))
  {
  }

  // ----- The module's own state

  /** The map, the counter and the promises of vault_fs.ts, with what the command does left outside. */
  class VaultFs {
    const env: Env
    var calls: seq<Op>
    var checksumWrites: map<string, nat>
    var vaultGeneration: nat

    constructor (env: Env)
      ensures this.env == env && forall files :: Seen(files, []) == Initial(files)
    {
      this.env := env;
      calls, checksumWrites, vaultGeneration := [], map[], 0;
    }

    /** This state beside given files and events. */
    ghost function Seen(files: Files, log: seq<Entry>): World
      reads this
    {
      World(calls, checksumWrites, vaultGeneration, files, log)
    }

    method WriteFileWithChecksum(path: string, content: string, checksum: string) returns (call: Option<nat>)
      modifies this
      ensures call.Some? <==> PathOk(path)
      ensures call.Some? ==> call.value == |old(calls)|
      ensures forall files, log ::
          Seen(files, log) == Next(env, old(Seen(files, log)), Enqueue(path, content, checksum))
    {
      hide KeyOf;
      if !PathOk(path) {
        return None;
      }
      var key := KeyOf(env, path);
      var after := if key in checksumWrites then Some(checksumWrites[key]) else None;
      call := Some(|calls|);
      calls := calls + [Op(path, content, checksum, vaultGeneration, after, Queued)];
      checksumWrites := checksumWrites[key := call.value];
    }

    /** The chained callback: runs once the predecessor has settled. */
    method Then(call: nat)
      requires forall files, log :: Ready(Seen(files, log), call)
      modifies this
      ensures forall files, log :: Seen(files, log) == Next(env, old(Seen(files, log)), Start(call))
    {
      assert Ready(Seen(map[], []), call);
      var stage := if calls[call].generation != vaultGeneration then Done(Rejected) else Sent;
      calls := calls[call := calls[call].(stage := stage)];
    }

    /** The cleanup callback: drops the map entry unless a later call has taken it. */
    method Finally(call: nat)
      requires call < |calls| && calls[call].stage.Done?
      modifies this
      ensures forall files, log :: Seen(files, log) == Next(env, old(Seen(files, log)), Forget(call))
    {
      hide KeyOf;
      var key := KeyOf(env, calls[call].path);
      if key in checksumWrites && checksumWrites[key] == call {
        checksumWrites := checksumWrites - {key};
      }
    }

    method ChangeGeneration()
      modifies this
      ensures forall files, log :: Seen(files, log) == Next(env, old(Seen(files, log)), ChangeVault)
    {
      vaultGeneration := vaultGeneration + 1;
    }
  }
}
