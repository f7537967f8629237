/**
 Refreshing the desktop's stored tokens (auth_commands.rs, auth.rs) against a server that takes
 each refresh token once (service.go, auth.sql). Any number of tasks refresh at the same time;
 one lock, held across the request, orders them.
 */
module TokenRefresh {
  import opened Text

  /** Refresh tokens are told apart by number; the server never issues one twice. */
  datatype Tokens = Tokens(access: nat, refresh: nat)

  datatype Result = NoTokens | Got(tokens: Tokens) | Failed | Unauthenticated

  /** A task between two of its awaits. */
  datatype Stage =
    | Starting
    | Waiting(observed: Tokens)
    | Locked(observed: Tokens)
    | Sending(current: Tokens)
    | Granted(current: Tokens, granted: Tokens)
    | Refused(current: Tokens)
    | Finished(result: Result)

  /** force asks for a refresh even if the access token is still good. */
  datatype Task = Task(force: bool, stage: Stage)

  /** sent lists the refresh tokens that reached the server, in order. */
  datatype World = World(
    stored: Option<Tokens>,
    lock: Option<nat>,
    tasks: seq<Task>,
    live: set<nat>,
    issued: nat,
    sent: seq<nat>)

  /** soon: the access token read expires soon. readable: the secure storage could be read. */
  datatype Step =
    | Spawn(force: bool)
    | Observe(id: nat, readable: bool, soon: bool)
    | TakeLock(id: nat)
    | Recheck(id: nat, readable: bool, soon: bool)
    | Serve(id: nat, reached: bool)
    | Settle(id: nat, kept: bool)

  function Move(w: World, id: nat, stage: Stage): World
    requires id < |w.tasks|
  {
    w.(tasks := w.tasks[id := w.tasks[id].(stage := stage)])
  }

  /** Finishing drops the guard. */
  function Done(w: World, id: nat, result: Result): World
    requires id < |w.tasks|
  {
    Move(w, id, Finished(result)).(lock := None)
  }

  function DoObserve(w: World, id: nat, readable: bool, soon: bool): World {
    if !(id < |w.tasks| && w.tasks[id].stage.Starting?) then w
    else if !readable then Move(w, id, Finished(Failed))
    else if w.stored.None? then Move(w, id, Finished(NoTokens))
    else if !w.tasks[id].force && !soon then Move(w, id, Finished(Got(w.stored.value)))
    else Move(w, id, Waiting(w.stored.value))
  }

  function DoTakeLock(w: World, id: nat): World {
    if id < |w.tasks| && w.tasks[id].stage.Waiting? && w.lock.None?
    then Move(w, id, Locked(w.tasks[id].stage.observed)).(lock := Some(id))
    else w
  }

  function DoRecheck(w: World, id: nat, readable: bool, soon: bool): World {
    if !(id < |w.tasks| && w.tasks[id].stage.Locked?) then w
    else if !readable then Done(w, id, Failed)
    else if w.stored.None? then Done(w, id, NoTokens)
    else if w.stored.value.refresh != w.tasks[id].stage.observed.refresh then Done(w, id, Got(w.stored.value))
    else if !w.tasks[id].force && !soon then Done(w, id, Got(w.stored.value))
    else Move(w, id, Sending(w.stored.value))
  }

  /** One transaction: consume the refresh token if it is live, and issue the next. */
  function DoServe(w: World, id: nat, reached: bool): World {
    if !(id < |w.tasks| && w.tasks[id].stage.Sending?) then w
    else if !reached then Done(w, id, Failed)
    else
      var current := w.tasks[id].stage.current;
      var v := w.(sent := w.sent + [current.refresh]);
      if current.refresh !in w.live then Move(v, id, Refused(current))
      else
        var next := Tokens(w.issued, w.issued);
        Move(v, id, Granted(current, next)).(live := w.live - {current.refresh} + {w.issued}, issued := w.issued + 1)
  }

  /** kept is false where the reply is lost on its way or cannot be written to storage. */
  function DoSettle(w: World, id: nat, kept: bool): World {
    if id < |w.tasks| && w.tasks[id].stage.Granted? then
      var stage := w.tasks[id].stage;
      if !kept then Done(w, id, Failed)
      else if w.stored.Some? && w.stored.value.refresh == stage.current.refresh
      then Done(w, id, Got(stage.granted)).(stored := Some(stage.granted))
      else Done(w, id, if w.stored.Some? then Got(w.stored.value) else NoTokens)
    else if id < |w.tasks| && w.tasks[id].stage.Refused? then
      var current := w.tasks[id].stage.current;
      if !kept then Done(w, id, Failed)
      else if w.stored.Some? && w.stored.value.refresh == current.refresh
      then Done(w, id, Unauthenticated).(stored := None)
      else Done(w, id, Unauthenticated)
    else w
  }

  function Next(w: World, step: Step): World {
    match step
    case Spawn(force) => w.(tasks := w.tasks + [Task(force, Starting)])
    case Observe(id, readable, soon) => DoObserve(w, id, readable, soon)
    case TakeLock(id) => DoTakeLock(w, id)
    case Recheck(id, readable, soon) => DoRecheck(w, id, readable, soon)
    case Serve(id, reached) => DoServe(w, id, reached)
    case Settle(id, kept) => DoSettle(w, id, kept)
  }

  function Run(w: World, steps: seq<Step>): World
    decreases |steps|
  {
    if steps == [] then w else Next(Run(w, steps[..|steps| - 1]), steps[|steps| - 1])
  }

  /** Just logged in: the stored refresh token is the session's live one. */
  function LoggedIn(access: nat, refresh: nat): World {
    World(Some(Tokens(access, refresh)), None, [], {refresh}, refresh + 1, [])
  }

  // ----- What refreshing keeps

  predicate Distinct(s: seq<nat>) {
    forall i, j | 0 <= i < j < |s| :: s[i] != s[j]
  }

  predicate HoldsLock(s: Stage) {
    s.Locked? || s.Sending? || s.Granted? || s.Refused?
  }

  /** Under the lock the stored token is live until the server grants the next one. */
  predicate HolderOk(stored: Tokens, live: set<nat>, s: Stage) {
    match s
    case Locked(_) => live == {stored.refresh}
    case Sending(current) => current == stored && live == {stored.refresh}
    case Granted(current, granted) =>
      current == stored && live == {granted.refresh} && stored.refresh != granted.refresh
    case _ => false
  }

  predicate LockOk(w: World) {
    && w.stored.Some? && w.stored.value.refresh < w.issued
    && (w.lock.None? ==> w.live == {w.stored.value.refresh})
    && (w.lock.Some? ==>
          && w.lock.value < |w.tasks| && HolderOk(w.stored.value, w.live, w.tasks[w.lock.value].stage))
  }

  predicate TasksOk(w: World) {
    forall id | 0 <= id < |w.tasks| ::
      && (HoldsLock(w.tasks[id].stage) ==> w.lock == Some(id))
      && w.tasks[id].stage != Finished(Unauthenticated)
  }

  /** Tokens that reached the server did so once, and are no longer live. */
  predicate SentOk(w: World) {
    && Distinct(w.sent) && (forall t | t in w.sent :: t !in w.live && t < w.issued)
    && (forall t | t in w.live :: t < w.issued)
  }

  predicate Inv(w: World) {
    LockOk(w) && TasksOk(w) && SentOk(w)
  }

  /** The step throws away a granted token. */
  predicate Loses(w: World, step: Step) {
    step.Settle? && !step.kept && step.id < |w.tasks| && w.tasks[step.id].stage.Granted?
  }

  lemma ServeKeeps(w: World, id: nat, reached: bool)
    requires Inv(w)
    ensures Inv(DoServe(w, id, reached))
  {
  }

  lemma SettleKeeps(w: World, id: nat, kept: bool)
    requires Inv(w) && !Loses(w, Settle(id, kept))
    ensures Inv(DoSettle(w, id, kept))
  {
  }

  lemma WaitKeeps(w: World, step: Step)
    requires Inv(w) && !step.Serve? && !step.Settle?
    ensures Inv(Next(w, step))
  {
  }

  /** After a lost grant the stored token is dead although the lock is free. */
  lemma LossStrands(w: World, id: nat)
    requires Inv(w) && Loses(w, Settle(id, false))
    ensures
      var v := DoSettle(w, id, false);
      v.lock.None? && v.stored == w.stored && v.stored.Some? && v.stored.value.refresh !in v.live
  {
  }

  /** A step keeps everything in order exactly when it does not throw a granted token away. */
  lemma OnlyLossBreaks(w: World, step: Step)
    requires Inv(w)
    ensures Inv(Next(w, step)) <==> !Loses(w, step)
  {
    if Loses(w, step) {
      var v := Next(w, step);
      assert v.lock.None? && v.live == w.live && v.stored == w.stored;
      LossStrands(w, step.id);
    } else {
      match step
      case Serve(id, reached) => ServeKeeps(w, id, reached);
      case Settle(id, kept) => SettleKeeps(w, id, kept);
      case _ => WaitKeeps(w, step);
    }
  }

  predicate NoneLost(w: World, steps: seq<Step>)
    decreases |steps|
  {
    steps == []
    || (NoneLost(w, steps[..|steps| - 1]) && !Loses(Run(w, steps[..|steps| - 1]), steps[|steps| - 1]))
  }

  lemma FreshOk(access: nat, refresh: nat)
    ensures Inv(LoggedIn(access, refresh))
  {
  }

  lemma {:induction false} RunKeeps(access: nat, refresh: nat, steps: seq<Step>)
    requires NoneLost(LoggedIn(access, refresh), steps)
    ensures Inv(Run(LoggedIn(access, refresh), steps))
    decreases |steps|
  {
    hide Next, Inv;
    if steps != [] {
      var n := |steps| - 1;
      RunKeeps(access, refresh, steps[..n]);
      OnlyLossBreaks(Run(LoggedIn(access, refresh), steps[..n]), steps[n]);
    } else {
      assert Inv(LoggedIn(access, refresh)) by { FreshOk(access, refresh); }
    }
  }

  /** Each refresh token reaches the server at most once. */
  lemma EachTokenSentOnce(access: nat, refresh: nat, steps: seq<Step>)
    requires NoneLost(LoggedIn(access, refresh), steps)
    ensures Distinct(Run(LoggedIn(access, refresh), steps).sent)
  {
    RunKeeps(access, refresh, steps);
  }

  /** No task is refused, and whenever the lock is free the stored token is the one the server takes next. */
  lemma NobodyRefused(access: nat, refresh: nat, steps: seq<Step>)
    requires NoneLost(LoggedIn(access, refresh), steps)
    ensures
      var w := Run(LoggedIn(access, refresh), steps);
      && (forall id | 0 <= id < |w.tasks| ::
        w.tasks[id].stage != Finished(Unauthenticated) && !w.tasks[id].stage.Refused?)
      && w.stored.Some? && (w.lock.None? ==> w.live == {w.stored.value.refresh})
  {
    RunKeeps(access, refresh, steps);
  }

  /** The stored token, if any, is dead, and so is any that a task is about to send; nothing granted is on its way. */
  predicate Stranded(w: World) {
    && (w.stored.Some? ==> w.stored.value.refresh !in w.live && w.stored.value.refresh < w.issued)
    && forall id | 0 <= id < |w.tasks| ::
         && !w.tasks[id].stage.Granted?
         && (w.tasks[id].stage.Sending? ==> w.tasks[id].stage.current.refresh !in w.live)
  }

  lemma LossStrandsAll(w: World, id: nat)
    requires Inv(w) && Loses(w, Settle(id, false))
    ensures Stranded(DoSettle(w, id, false))
  {
    assert w.lock == Some(id);
  }

  lemma StrandedStays(w: World, step: Step)
    requires Stranded(w)
    ensures Stranded(Next(w, step)) && Next(w, step).live == w.live
  {
  }

  lemma {:induction false} StrandedForever(w: World, steps: seq<Step>)
    requires Stranded(w)
    ensures Stranded(Run(w, steps)) && Run(w, steps).live == w.live
    decreases |steps|
  {
    hide Next;
    if steps != [] {
      StrandedForever(w, steps[..|steps| - 1]);
      StrandedStays(Run(w, steps[..|steps| - 1]), steps[|steps| - 1]);
    }
  }

  /** After a lost grant no refresh is ever granted again, whatever happens: only a new login helps. */
  lemma LossIsPermanent(w: World, id: nat, more: seq<Step>)
    requires Inv(w) && Loses(w, Settle(id, false))
    ensures
      var v := Run(Next(w, Settle(id, false)), more);
      && (forall k | 0 <= k < |v.tasks| :: !v.tasks[k].stage.Granted?)
      && v.live == w.live && (v.stored.Some? ==> v.stored.value.refresh !in v.live)
  {
    hide Inv, Run;
    LossStrandsAll(w, id);
    StrandedForever(Next(w, Settle(id, false)), more);
  }

  lemma OneStep(w: World, steps: seq<Step>, step: Step)
    ensures Run(w, steps + [step]) == Next(Run(w, steps), step) && Run(w, []) == w
  {
    hide Next;
    assert (steps + [step])[..|steps|] == steps;
  }

  lemma SixSteps(w: World, a: Step, b: Step, c: Step, d: Step, e: Step, f: Step)
    ensures Run(w, [a, b, c, d, e]) == Next(Next(Next(Next(Next(w, a), b), c), d), e)
    ensures Run(w, [a, b, c, d, e, f]) == Next(Next(Next(Next(Next(Next(w, a), b), c), d), e), f)
  {
    hide Next, Run;
    OneStep(w, [], a);
    assert [] + [a] == [a] && [a] + [b] == [a, b] && [a, b] + [c] == [a, b, c] && [a, b, c] + [d] == [a, b, c, d];
    assert [a, b, c, d] + [e] == [a, b, c, d, e] && [a, b, c, d, e] + [f] == [a, b, c, d, e, f];
    OneStep(w, [a], b);
    OneStep(w, [a, b], c);
    OneStep(w, [a, b, c], d);
    OneStep(w, [a, b, c, d], e);
    OneStep(w, [a, b, c, d, e], f);
  }

  /** A run that loses a grant, from any login: the server has moved on to a token nobody holds. */
  lemma LosingRun(access: nat, refresh: nat)
    ensures
      var steps := [Spawn(true), Observe(0, true, true), TakeLock(0), Recheck(0, true, true), Serve(0, true),
        Settle(0, false)];
      var w := Run(LoggedIn(access, refresh), steps);
      && !NoneLost(LoggedIn(access, refresh), steps)
      && Stranded(w) && w.stored == Some(Tokens(access, refresh)) && w.lock.None? && w.live == {refresh + 1}
  {
    var w, tokens := LoggedIn(access, refresh), Tokens(access, refresh);
    var five := [Spawn(true), Observe(0, true, true), TakeLock(0), Recheck(0, true, true), Serve(0, true)];
    SixSteps(w, Spawn(true), Observe(0, true, true), TakeLock(0), Recheck(0, true, true), Serve(0, true),
      Settle(0, false));
    var w1 := Next(w, Spawn(true));
    assert w1.tasks[0] == Task(true, Starting);
    var w2 := Next(w1, Observe(0, true, true));
    assert w2.tasks[0] == Task(true, Waiting(tokens));
    var w3 := Next(w2, TakeLock(0));
    assert w3.tasks[0] == Task(true, Locked(tokens));
    var w4 := Next(w3, Recheck(0, true, true));
    assert w4.tasks[0] == Task(true, Sending(tokens));
    var w5 := Next(w4, Serve(0, true));
    assert w5.tasks[0].stage.Granted? && w5.live == {refresh + 1} && w5.stored == Some(tokens);
    assert Run(w, five) == w5;
    hide Run;
    var steps := five + [Settle(0, false)];
    assert steps ==
        [Spawn(true), Observe(0, true, true), TakeLock(0), Recheck(0, true, true), Serve(0, true), Settle(0, false)];
    assert steps[..|steps| - 1] == five && Loses(w5, steps[|steps| - 1]);
  }

  /** And the next forced refresh is refused and clears the stored tokens. */
  lemma StrandedLogsOut(w: World)
    requires Stranded(w) && w.stored.Some? && w.lock.None?
    ensures
      var id := |w.tasks|;
      var v := Run(w, [Spawn(true), Observe(id, true, true), TakeLock(id), Recheck(id, true, true), Serve(id, true),
        Settle(id, true)]);
      |v.tasks| == id + 1 && v.tasks[id].stage == Finished(Unauthenticated) && v.stored.None?
  {
    var id, tokens := |w.tasks|, w.stored.value;
    SixSteps(w, Spawn(true), Observe(id, true, true), TakeLock(id), Recheck(id, true, true), Serve(id, true),
      Settle(id, true));
    var w1 := Next(w, Spawn(true));
    assert w1.tasks[id] == Task(true, Starting);
    var w2 := Next(w1, Observe(id, true, true));
    assert w2.tasks[id] == Task(true, Waiting(tokens));
    var w3 := Next(w2, TakeLock(id));
    assert w3.tasks[id] == Task(true, Locked(tokens));
    var w4 := Next(w3, Recheck(id, true, true));
    assert w4.tasks[id] == Task(true, Sending(tokens)) && w4.live == w.live && w4.stored == w.stored;
    var w5 := Next(w4, Serve(id, true));
    assert w5.tasks[id] == Task(true, Refused(tokens)) && w5.stored == w.stored;
  }

  // ----- The code between the awaits

  /** The server's side of one session. */
  class TokenServer {
    var live: set<nat>
    var issued: nat
    var sent: seq<nat>

    constructor (refresh: nat)
      ensures live == {refresh} && issued == refresh + 1 && sent == []
    {
      live, issued, sent := {refresh}, refresh + 1, [];
    }

    /** refreshTokens: consume the row and issue the next pair, or report an invalid token. */
    method RefreshTokens(token: nat) returns (pair: Option<Tokens>)
      modifies this
      ensures sent == old(sent) + [token]
      ensures token in old(live) ==>
        && pair == Some(Tokens(old(issued), old(issued))) && issued == old(issued) + 1
        && live == old(live) - {token} + {old(issued)}
      ensures token !in old(live) ==> pair.None? && live == old(live) && issued == old(issued)
    {
      sent := sent + [token];
      if token !in live {
        return None;
      }
      live := live - {token} + {issued};
      pair := Some(Tokens(issued, issued));
      issued := issued + 1;
    }
  }

  /** The desktop's stored tokens, lock and tasks; the server may be reached from any task. */
  class Desktop {
    const server: TokenServer
    var stored: Option<Tokens>
    var lock: Option<nat>
    var tasks: seq<Task>

    constructor (server: TokenServer, tokens: Tokens)
      ensures this.server == server && stored == Some(tokens) && lock.None? && tasks == []
    {
      this.server := server;
      stored, lock, tasks := Some(tokens), None, [];
    }

    ghost function View(): World
      reads this, server
    {
      World(stored, lock, tasks, server.live, server.issued, server.sent)
    }

    method Settled(id: nat, result: Result)
      requires id < |tasks|
      modifies this
      ensures View() == Done(old(View()), id, result)
    {
      tasks := tasks[id := tasks[id].(stage := Finished(result))];
      lock := None;
    }

    /** refresh_stored_tokens from the lock to the request. */
    method AfterLock(id: nat, readable: bool, soon: bool)
      requires id < |tasks| && tasks[id].stage.Locked?
      modifies this
      ensures View() == DoRecheck(old(View()), id, readable, soon)
    {
      if !readable {
        Settled(id, Failed);
        return;
      }
      if stored.None? {
        Settled(id, NoTokens);
        return;
      }
      var current := stored.value;
      if current.refresh != tasks[id].stage.observed.refresh || (!tasks[id].force && !soon) {
        Settled(id, Got(current));
        return;
      }
      tasks := tasks[id := tasks[id].(stage := Sending(current))];
    }

    /** The request, if it gets through. */
    method Request(id: nat, reached: bool)
      requires id < |tasks| && tasks[id].stage.Sending?
      modifies this, server
      ensures View() == DoServe(old(View()), id, reached)
    {
      if !reached {
        Settled(id, Failed);
        return;
      }
      var current := tasks[id].stage.current;
      var pair := server.RefreshTokens(current.refresh);
      var stage := if pair.Some? then Granted(current, pair.value) else Refused(current);
      tasks := tasks[id := tasks[id].(stage := stage)];
    }

    /** refresh_stored_tokens from the reply to its end: replace or clear only the tokens the request was made with. */
    method AfterReply(id: nat, kept: bool)
      requires id < |tasks| && (tasks[id].stage.Granted? || tasks[id].stage.Refused?)
      modifies this
      ensures View() == DoSettle(old(View()), id, kept)
    {
      var stage := tasks[id].stage;
      if !kept {
        Settled(id, Failed);
        return;
      }
      var matches := stored.Some? && stored.value.refresh == stage.current.refresh;
      if stage.Granted? {
        if matches {
          stored := Some(stage.granted);
        }
        Settled(id, if stored.Some? then Got(stored.value) else NoTokens);
      } else {
        if matches {
          stored := None;
        }
        Settled(id, Unauthenticated);
      }
    }
  }
}
