/**
 What a refresh of the stored tokens comes to (auth_commands.rs): an undisturbed one stores
 and returns the next pair, one that finds the work done returns it without a request, and
 one that is not needed asks nobody.
 */
module TokenOutcomes {
  import opened Text
  import opened TokenRefresh

  // ----- One request at a time

  predicate HoldersOk(w: World) {
    forall id: nat | id < |w.tasks| && HoldsLock(w.tasks[id].stage) :: w.lock == Some(id)
  }

  lemma NextKeepsHolders(w: World, step: Step)
    requires HoldersOk(w)
    ensures HoldersOk(Next(w, step))
  {
  }

  lemma {:induction false} RunKeepsHolders(w: World, steps: seq<Step>)
    requires HoldersOk(w)
    ensures HoldersOk(Run(w, steps))
    decreases |steps|
  {
    hide Next;
    if steps != [] {
      RunKeepsHolders(w, steps[..|steps| - 1]);
      NextKeepsHolders(Run(w, steps[..|steps| - 1]), steps[|steps| - 1]);
    }
  }

  /** In every run, lost replies or not, at most one task is between taking the lock and its answer. */
  lemma OneAtATime(access: nat, refresh: nat, steps: seq<Step>, i: nat, j: nat)
    requires
      var w := Run(LoggedIn(access, refresh), steps);
      && i < |w.tasks| && j < |w.tasks| && HoldsLock(w.tasks[i].stage) && HoldsLock(w.tasks[j].stage)
    ensures i == j
  {
    RunKeepsHolders(LoggedIn(access, refresh), steps);
  }

  // ----- A task on its own

  /** The steps of a task that nothing disturbs. */
  function Refresh(id: nat, force: bool, soon: bool): seq<Step> {
    [Spawn(force), Observe(id, true, soon), TakeLock(id), Recheck(id, true, soon), Serve(id, true), Settle(id, true)]
  }

  /** With the lock free and the stored token live, an undisturbed refresh that is forced or due sends that token once,
      and stores and returns the pair the server issues for it, which is live from then on. */
  lemma QuietRefresh(w: World, force: bool, soon: bool)
    requires w.lock.None? && w.stored.Some? && w.stored.value.refresh in w.live && (force || soon)
    ensures
      var id, pair := |w.tasks|, Tokens(w.issued, w.issued);
      var v := Run(w, Refresh(id, force, soon));
      && |v.tasks| == id + 1 && v.tasks[id].stage == Finished(Got(pair)) && v.tasks[..id] == w.tasks
      && v.stored == Some(pair) && v.lock.None?
      && v.sent == w.sent + [w.stored.value.refresh]
      && v.live == w.live - {w.stored.value.refresh} + {pair.refresh} && v.issued == w.issued + 1
  {
    var id, tokens := |w.tasks|, w.stored.value;
    SixSteps(w, Spawn(force), Observe(id, true, soon), TakeLock(id), Recheck(id, true, soon), Serve(id, true),
      Settle(id, true));
    hide Run;
    var w1 := Next(w, Spawn(force));
    assert w1.tasks[id] == Task(force, Starting);
    var w2 := Next(w1, Observe(id, true, soon));
    assert w2.tasks[id] == Task(force, Waiting(tokens));
    var w3 := Next(w2, TakeLock(id));
    assert w3.tasks[id] == Task(force, Locked(tokens));
    var w4 := Next(w3, Recheck(id, true, soon));
    assert w4.tasks[id] == Task(force, Sending(tokens)) && w4.live == w.live && w4.stored == w.stored;
    var w5 := Next(w4, Serve(id, true));
    assert w5.tasks[id] == Task(force, Granted(tokens, Tokens(w.issued, w.issued))) && w5.stored == w.stored;
    assert w5.tasks[..id] == w.tasks;
  }

  /** In every run without a lost reply, whenever the lock is free a refresh that nothing disturbs succeeds. */
  lemma RefreshSucceeds(access: nat, refresh: nat, steps: seq<Step>, force: bool, soon: bool)
    requires NoneLost(LoggedIn(access, refresh), steps) && (force || soon)
    requires Run(LoggedIn(access, refresh), steps).lock.None?
    ensures
      var w := Run(LoggedIn(access, refresh), steps);
      var v := Run(w, Refresh(|w.tasks|, force, soon));
      && v.stored == Some(Tokens(w.issued, w.issued)) && v.live == {w.issued}
      && |v.tasks| == |w.tasks| + 1 && v.tasks[|w.tasks|].stage == Finished(Got(Tokens(w.issued, w.issued)))
  {
    hide Run;
    RunKeeps(access, refresh, steps);
    QuietRefresh(Run(LoggedIn(access, refresh), steps), force, soon);
  }

  /** A task that is neither forced nor due returns the stored tokens at once and touches nothing. */
  lemma NotDue(w: World, id: nat)
    requires id < |w.tasks| && w.tasks[id] == Task(false, Starting) && w.stored.Some?
    ensures Next(w, Observe(id, true, false)) == w.(tasks := w.tasks[id := Task(false, Finished(Got(w.stored.value)))])
  {
  }

  /** A task that finds another token stored than the one it saw returns that one without a request. */
  lemma FindsWorkDone(w: World, id: nat, soon: bool)
    requires id < |w.tasks| && w.tasks[id].stage.Waiting? && w.lock.None? && w.stored.Some?
    requires w.tasks[id].stage.observed.refresh != w.stored.value.refresh
    ensures
      var v := Next(Next(w, TakeLock(id)), Recheck(id, true, soon));
      && v == w.(tasks := v.tasks) && |v.tasks| == |w.tasks|
      && v.tasks[id].stage == Finished(Got(w.stored.value))
      && forall k: nat | k < |w.tasks| && k != id :: v.tasks[k] == w.tasks[k]
  {
    var w1 := Next(w, TakeLock(id));
    assert w1.tasks[id] == w.tasks[id].(stage := Locked(w.tasks[id].stage.observed));
  }

  /** Two tasks that saw the same token: whichever comes second returns what the first one got, and the token is sent
      once. */
  lemma SecondCoalesces(w: World, first: nat, second: nat, soon: bool, late: bool)
    requires first < |w.tasks| && second < |w.tasks| && first != second
    requires w.lock.None? && w.stored.Some? && w.stored.value.refresh in w.live && w.stored.value.refresh < w.issued
    requires w.tasks[first] == Task(true, Waiting(w.stored.value))
    requires w.tasks[second].stage == Waiting(w.stored.value)
    ensures
      var done := Next(Next(Next(Next(w, TakeLock(first)), Recheck(first, true, soon)), Serve(first, true)),
                       Settle(first, true));
      var v := Next(Next(done, TakeLock(second)), Recheck(second, true, late));
      && |v.tasks| == |w.tasks| && v.tasks[first].stage == Finished(Got(Tokens(w.issued, w.issued)))
      && v.tasks[second].stage == v.tasks[first].stage && v.sent == w.sent + [w.stored.value.refresh]
      && v.stored == Some(Tokens(w.issued, w.issued)) && v.lock.None?
  {
    var tokens := w.stored.value;
    var w1 := Next(w, TakeLock(first));
    assert w1.tasks[first] == Task(true, Locked(tokens));
    var w2 := Next(w1, Recheck(first, true, soon));
    assert w2.tasks[first] == Task(true, Sending(tokens)) && w2.live == w.live && w2.stored == w.stored;
    var w3 := Next(w2, Serve(first, true));
    assert w3.tasks[first] == Task(true, Granted(tokens, Tokens(w.issued, w.issued))) && w3.stored == w.stored;
    var done := Next(w3, Settle(first, true));
    assert done.stored == Some(Tokens(w.issued, w.issued)) && done.lock.None? && done.sent == w.sent + [tokens.refresh];
    assert done.tasks[second] == w.tasks[second];
    hide Next;
    FindsWorkDone(done, second, late);
  }

  // ----- Waiting and failing

  /** While a task holds the lock the others wait. */
  lemma LockedOut(w: World, id: nat)
    requires w.lock.Some?
    ensures Next(w, TakeLock(id)) == w
  {
  }

  /** Without a reachable server, or with unreadable storage, a task fails, frees the lock it held and leaves the tokens
      as they were; without stored tokens it says so. */
  lemma FailuresLeaveTokens(w: World, id: nat, soon: bool)
    requires id < |w.tasks|
    ensures w.tasks[id].stage.Starting? ==>
              var v := Next(w, Observe(id, false, soon));
              v == w.(tasks := v.tasks) && |v.tasks| == |w.tasks| && v.tasks[id].stage == Finished(Failed)
    ensures w.tasks[id].stage.Starting? && w.stored.None? ==>
              var v := Next(w, Observe(id, true, soon));
              v == w.(tasks := v.tasks) && |v.tasks| == |w.tasks| && v.tasks[id].stage == Finished(NoTokens)
    ensures w.tasks[id].stage.Locked? ==>
              var v := Next(w, Recheck(id, false, soon));
              && v == w.(tasks := v.tasks, lock := None) && |v.tasks| == |w.tasks|
              && v.tasks[id].stage == Finished(Failed)
    ensures w.tasks[id].stage.Locked? && w.stored.None? ==>
              var v := Next(w, Recheck(id, true, soon));
              && v == w.(tasks := v.tasks, lock := None) && |v.tasks| == |w.tasks|
              && v.tasks[id].stage == Finished(NoTokens)
    ensures w.tasks[id].stage.Sending? ==>
              var v := Next(w, Serve(id, false));
              && v == w.(tasks := v.tasks, lock := None) && |v.tasks| == |w.tasks|
              && v.tasks[id].stage == Finished(Failed)
  {
  }

  /** An answer that comes after the stored tokens changed leaves them: a grant returns them, a refusal clears
      nothing. */
  lemma LateAnswerLeavesTokens(w: World, id: nat)
    requires id < |w.tasks| && (w.tasks[id].stage.Granted? || w.tasks[id].stage.Refused?)
    requires w.stored.Some? && w.stored.value.refresh != w.tasks[id].stage.current.refresh
    ensures
      var v := Next(w, Settle(id, true));
      && v == w.(tasks := v.tasks, lock := None) && |v.tasks| == |w.tasks|
      && v.tasks[id].stage
           == Finished(if w.tasks[id].stage.Granted? then Got(w.stored.value) else Unauthenticated)
  {
  }
}
