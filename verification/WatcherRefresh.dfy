/**
 Coalescing refreshes after file-watcher events (watcher_refresh.ts): a timer delays a refresh,
 requests made while one runs are served by the next round of its loop.
 */
module WatcherRefresh {
  import opened Text

  /**
   timer is the variable of the code, armed the timeouts the platform still holds, active the
   refreshes under way. asked counts requests; handled is that count when a refresh last
   began or the requests were last cancelled.
   */
  datatype State = State(
    timer: Option<nat>,
    pending: bool,
    running: bool,
    armed: set<nat>,
    timers: nat,
    active: nat,
    asked: nat,
    handled: nat)

  datatype Step = Schedule | Cancel | Fire(id: nat) | Finish(ok: bool)

  const IDLE := State(None, false, false, {}, 0, 0, 0, 0)

  function ClearTimer(s: State): State {
    if s.timer.Some? then s.(armed := s.armed - {s.timer.value}) else s
  }

  function ScheduleTimer(s: State): State {
    var c := ClearTimer(s);
    c.(timer := Some(c.timers), armed := c.armed + {c.timers}, timers := c.timers + 1)
  }

  /** A round of the loop: the refresh that begins serves every request made so far. */
  function BeginRefresh(s: State): State {
    s.(pending := false, running := true, active := s.active + 1, handled := s.asked)
  }

  function DoFire(s: State, id: nat): State {
    if id !in s.armed then s
    else
      var fired := s.(timer := None, armed := s.armed - {id});
      if fired.running || !fired.pending then fired else BeginRefresh(fired)
  }

  function DoFinish(s: State, ok: bool): State {
    if s.active == 0 then s
    else
      var ended := s.(active := s.active - 1);
      if ok && ended.pending then BeginRefresh(ended)
      else
        var stopped := ended.(running := false);
        if stopped.pending && stopped.timer.None? then ScheduleTimer(stopped) else stopped
  }

  function Next(s: State, step: Step): State {
    match step
    case Schedule => ScheduleTimer(s.(pending := true, asked := s.asked + 1))
    case Cancel => ClearTimer(s).(timer := None, pending := false, handled := s.asked)
    case Fire(id) => DoFire(s, id)
    case Finish(ok) => DoFinish(s, ok)
  }

  function Run(steps: seq<Step>): State
    decreases |steps|
  {
    if steps == [] then IDLE else Next(Run(steps[..|steps| - 1]), steps[|steps| - 1])
  }

  predicate Inv(s: State) {
    && s.armed == (if s.timer.Some? then {s.timer.value} else {})
    && (s.timer.Some? ==> s.timer.value < s.timers)
    && s.active == (if s.running then 1 else 0)
    && (s.pending ==> s.timer.Some? || s.running)
    && s.handled <= s.asked && (s.pending <==> s.handled < s.asked)
  }

  lemma NextKeeps(s: State, step: Step)
    requires Inv(s)
    ensures Inv(Next(s, step))
  {
  }

  lemma {:induction false} RunKeeps(steps: seq<Step>)
    ensures Inv(Run(steps))
    decreases |steps|
  {
    hide Next;
    if steps != [] {
      RunKeeps(steps[..|steps| - 1]);
      NextKeeps(Run(steps[..|steps| - 1]), steps[|steps| - 1]);
    }
  }

  /** In every run at most one refresh is under way and at most one timeout is armed. */
  lemma OneRefreshAtATime(steps: seq<Step>)
    ensures Run(steps).active <= 1 && |Run(steps).armed| <= 1
  {
    RunKeeps(steps);
  }

  /** With no timeout armed and no refresh under way, every request has been served or cancelled. */
  lemma NothingForgotten(steps: seq<Step>)
    ensures var s := Run(steps); s.armed == {} && s.active == 0 ==> s.handled == s.asked
  {
    RunKeeps(steps);
  }

  /** A waiting request is served as soon as the timeout fires and the refresh under way, if any, succeeds. */
  lemma WaitingIsServed(steps: seq<Step>)
    requires Run(steps).pending
    ensures
      var s := Run(steps);
      if s.running then var t := Next(s, Finish(true)); t.active == 1 && t.handled == s.asked
      else s.timer.Some? && var t := Next(s, Fire(s.timer.value)); t.active == 1 && t.handled == s.asked
  {
    RunKeeps(steps);
  }

  /** A refresh that fails leaves waiting requests with an armed timeout. */
  lemma FailureRetries(steps: seq<Step>)
    requires Run(steps).pending && Run(steps).running
    ensures
      var t := Next(Run(steps), Finish(false));
      t.pending && t.active == 0 && t.timer.Some? && t.armed == {t.timer.value}
  {
    RunKeeps(steps);
  }

  /** Each request starts the timeout anew: only the new one is armed, the one before does nothing any more, and a
      refresh under way goes on. */
  lemma RequestRestartsTimer(steps: seq<Step>)
    ensures
      var s := Run(steps);
      var t := Next(s, Schedule);
      && t.pending && t.timer.Some? && t.armed == {t.timer.value} && t.asked == s.asked + 1 && t.handled == s.handled
      && t.timer.value !in s.armed && t.running == s.running && t.active == s.active
      && (s.timer.Some? ==> Next(t, Fire(s.timer.value)) == t)
  {
    RunKeeps(steps);
  }

  /** Cancelling drops every waiting request and the timeout, and leaves a refresh under way alone. */
  lemma CancelDrops(steps: seq<Step>, id: nat)
    ensures
      var s := Run(steps);
      var t := Next(s, Cancel);
      && !t.pending && t.timer.None? && t.armed == {} && t.handled == t.asked == s.asked
      && t.running == s.running && t.active == s.active && Next(t, Fire(id)) == t
  {
    RunKeeps(steps);
  }

  /** A timeout that fires starts one refresh if a request waits and none runs; while one runs it leaves the request
      waiting for the next round, and with nothing waiting it starts nothing. */
  lemma FiringStartsOne(steps: seq<Step>)
    requires Run(steps).timer.Some?
    ensures
      var s := Run(steps);
      var t := Next(s, Fire(s.timer.value));
      && t.timer.None? && t.armed == {}
      && (t.active == s.active + 1 <==> s.pending && !s.running) && (t.pending <==> s.pending && s.running)
      && (s.running ==> t.running && t.active == s.active && t.handled == s.handled)
  {
    RunKeeps(steps);
  }

  /** A refresh that ends with nothing waiting ends the loop. */
  lemma LoopEnds(steps: seq<Step>, ok: bool)
    requires Run(steps).running && !Run(steps).pending
    ensures
      var s := Run(steps);
      var t := Next(s, Finish(ok));
      !t.running && t.active == 0 && !t.pending && t.timer == s.timer && t.armed == s.armed
  {
    RunKeeps(steps);
  }

  /** The closure's variables and callbacks, with the loop cut at its await. */
  class Scheduler {
    var timer: Option<nat>
    var pending: bool
    var running: bool
    var armed: set<nat>
    var timers: nat
    ghost var active: nat
    ghost var asked: nat
    ghost var handled: nat

    constructor ()
      ensures View() == IDLE
    {
      timer, pending, running, armed, timers := None, false, false, {}, 0;
      active, asked, handled := 0, 0, 0;
    }

    ghost function View(): State
      reads this
    {
      State(timer, pending, running, armed, timers, active, asked, handled)
    }

    method ArmTimer()
      modifies this
      ensures View() == ScheduleTimer(old(View()))
    {
      if timer.Some? {
        armed := armed - {timer.value};
      }
      timer := Some(timers);
      armed := armed + {timers};
      timers := timers + 1;
    }

    method Schedule()
      modifies this
      ensures View() == Next(old(View()), Step.Schedule)
    {
      pending := true;
      asked := asked + 1;
      ArmTimer();
    }

    method Cancel()
      modifies this
      ensures View() == Next(old(View()), Step.Cancel)
    {
      pending := false;
      handled := asked;
      if timer.Some? {
        armed := armed - {timer.value};
        timer := None;
      }
    }

    /** The timeout's callback, up to the first await of the loop. */
    method Fire(id: nat)
      requires id in armed
      modifies this
      ensures View() == Next(old(View()), Step.Fire(id))
    {
      armed := armed - {id};
      timer := None;
      if running || !pending {
        return;
      }
      running := true;
      pending := false;
      active, handled := active + 1, asked;
    }

    /** From the end of one refresh to the next await, or to the end of the loop. */
    method AfterRefresh(ok: bool)
      requires active > 0
      modifies this
      ensures View() == Next(old(View()), Finish(ok))
    {
      active := active - 1;
      if ok && pending {
        running, pending := true, false;
        active, handled := active + 1, asked;
        return;
      }
      running := false;
      if pending && timer.None? {
        ArmTimer();
      }
    }
  }
}
