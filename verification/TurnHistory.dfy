/**
 The messages that turns leave behind (run_turn_inner in session.rs), and what each request
 built from them contains. A turn may stop anywhere: cancelled, failed, or at its round limit.
 */
module TurnHistory {
  import opened Text
  import opened HistoryCompaction

  predicate Answers(result: Message, call: ToolCall) {
    && result.ToolResult? && result.callId == call.callId && result.toolName == call.toolName
    && result.toolCallId == call.toolCallId && result.providerCallId == call.providerCallId
  }

  /** Message j made the calls, and the messages up to i answer them one by one in order. */
  predicate AnsweredFrom(messages: seq<Message>, j: nat, i: nat) {
    && j < i < |messages| && messages[j].Assistant? && i - j <= |messages[j].calls|
    && forall k | j < k <= i :: Answers(messages[k], messages[j].calls[k - j - 1])
  }

  /** Every tool result stands in an unbroken run of answers right after the message that made its call. */
  ghost predicate ResultsAnswered(messages: seq<Message>) {
    forall i: nat | i < |messages| && messages[i].ToolResult? :: exists j: nat :: AnsweredFrom(messages, j, i)
  }

  // ----- Turns as steps

  datatype Turns = Turns(messages: seq<Message>, running: bool, calls: seq<ToolCall>)

  datatype Step =
    | StartTurn(content: string, context: Option<string>)
    | Reply(text: string, calls: seq<ToolCall>)
    | Answer(output: string, isError: bool)
    | Stop

  function ResultOf(call: ToolCall, output: string, isError: bool): Message {
    ToolResult(call.callId, call.toolName, output, isError, call.toolCallId, call.providerCallId)
  }

  function Next(t: Turns, step: Step): Turns {
    match step
    case StartTurn(content, context) => if t.running then t else Turns(t.messages + [User(content, context)], true, [])
    case Reply(text, calls) =>
      if !t.running || t.calls != [] then t
      else if text == "" && calls == [] then t.(running := false)
      else Turns(t.messages + [Assistant(text, calls)], calls != [], calls)
    case Answer(output, isError) =>
      if !t.running || t.calls == [] then t
      else t.(messages := t.messages + [ResultOf(t.calls[0], output, isError)], calls := t.calls[1..])
    case Stop => t.(running := false, calls := [])
  }

  function Run(t: Turns, steps: seq<Step>): Turns
    decreases |steps|
  {
    if steps == [] then t else Next(Run(t, steps[..|steps| - 1]), steps[|steps| - 1])
  }

  const NO_TURNS := Turns([], false, [])

  /** The calls still open are the last ones of the message at j, and what follows it answers the others. */
  predicate OpenFrom(t: Turns, j: nat) {
    var done := |t.messages| - j - 1;
    && j < |t.messages| && t.messages[j].Assistant? && done <= |t.messages[j].calls|
    && t.calls == t.messages[j].calls[done..]
    && (done > 0 ==> AnsweredFrom(t.messages, j, |t.messages| - 1))
  }

  ghost predicate Inv(t: Turns) {
    ResultsAnswered(t.messages) && (t.calls != [] ==> exists j: nat :: OpenFrom(t, j))
  }

  lemma AnsweredStays(messages: seq<Message>, more: seq<Message>, j: nat, i: nat)
    requires AnsweredFrom(messages, j, i)
    ensures AnsweredFrom(messages + more, j, i)
  {
  }

  lemma AppendKeeps(messages: seq<Message>, m: Message)
    requires ResultsAnswered(messages)
    requires m.ToolResult? ==> exists j: nat :: AnsweredFrom(messages + [m], j, |messages|)
    ensures ResultsAnswered(messages + [m])
  {
    var after := messages + [m];
    forall i: nat | i < |after| && after[i].ToolResult? ensures exists j: nat :: AnsweredFrom(after, j, i) {
      if i < |messages| {
        var j: nat :| AnsweredFrom(messages, j, i);
        AnsweredStays(messages, [m], j, i);
      }
    }
  }

  lemma AnswerKeeps(t: Turns, output: string, isError: bool)
    requires Inv(t) && t.running && t.calls != []
    ensures Inv(Next(t, Answer(output, isError)))
  {
    var j: nat :| OpenFrom(t, j);
    var u := Next(t, Answer(output, isError));
    var n := |t.messages|;
    var done := n - j - 1;
    assert t.calls[0] == t.messages[j].calls[done];
    assert forall k | j < k < n :: u.messages[k] == t.messages[k];
    assert AnsweredFrom(u.messages, j, n);
    AppendKeeps(t.messages, u.messages[n]);
    assert OpenFrom(u, j);
  }

  lemma NextKeeps(t: Turns, step: Step)
    requires Inv(t)
    ensures Inv(Next(t, step))
  {
    hide ResultsAnswered;
    match step
    case StartTurn(content, context) => AppendKeeps(t.messages, User(content, context));
    case Reply(text, calls) =>
      AppendKeeps(t.messages, Assistant(text, calls));
      var u := Next(t, step);
      if u.calls != [] && u != t {
        assert OpenFrom(u, |t.messages|);
      }
    case Answer(output, isError) =>
      if t.running && t.calls != [] {
        AnswerKeeps(t, output, isError);
      }
    case Stop =>
  }

  /** In every run of turns, each tool result directly continues the answers to the message that called for it. */
  lemma {:induction false} RunAnswered(steps: seq<Step>)
    ensures Inv(Run(NO_TURNS, steps))
    decreases |steps|
  {
    hide Next;
    if steps != [] {
      RunAnswered(steps[..|steps| - 1]);
      NextKeeps(Run(NO_TURNS, steps[..|steps| - 1]), steps[|steps| - 1]);
    }
  }

  lemma SuffixAnswered(messages: seq<Message>, k: nat)
    requires ResultsAnswered(messages) && k < |messages| && messages[k].User?
    ensures ResultsAnswered(messages[k..])
  {
    var kept := messages[k..];
    forall i: nat | i < |kept| && kept[i].ToolResult? ensures exists j: nat :: AnsweredFrom(kept, j, i) {
      assert kept[i] == messages[k + i];
      var j: nat :| AnsweredFrom(messages, j, k + i);
      UserBreaksAnswers(messages, j, k + i, k);
      forall x | j - k < x <= i ensures Answers(kept[x], kept[j - k].calls[x - (j - k) - 1]) {
        assert Answers(messages[k + x], messages[j].calls[k + x - j - 1]);
      }
      assert AnsweredFrom(kept, j - k, i);
    }
  }

  lemma UserBreaksAnswers(messages: seq<Message>, j: nat, i: nat, k: nat)
    requires AnsweredFrom(messages, j, i) && k <= i && messages[k].User?
    ensures k < j
  {
  }

  lemma PrefixedAnswered(front: seq<Message>, messages: seq<Message>)
    requires ResultsAnswered(messages) && forall x | 0 <= x < |front| :: !front[x].ToolResult?
    ensures ResultsAnswered(front + messages)
  {
    var n := |front|;
    var all := front + messages;
    forall i: nat | i < |all| && all[i].ToolResult? ensures exists j: nat :: AnsweredFrom(all, j, i) {
      var j: nat :| AnsweredFrom(messages, j, i - n);
      forall x | n + j < x <= i ensures Answers(all[x], all[n + j].calls[x - (n + j) - 1]) {
        assert Answers(messages[x - n], messages[j].calls[x - n - j - 1]);
      }
      assert AnsweredFrom(all, n + j, i);
    }
  }

  /** Compaction never separates a tool result from its call. */
  lemma CompactKeepsAnswers(messages: seq<Message>, describe: seq<Message> -> string)
    requires ResultsAnswered(messages)
    ensures ResultsAnswered(Compact(messages, describe))
  {
    hide ResultsAnswered, Compact;
    var k := CompactShape(messages, describe);
    if k > 0 {
      var summary :| IsSummary(summary) && Compact(messages, describe) == summary + messages[k..];
      hide UserTurns;
      SuffixAnswered(messages, k);
      PrefixedAnswered(summary, messages[k..]);
    }
  }

  /** In every run of turns, every request keeps the call of each tool result it contains. */
  lemma RequestsKeepCalls(steps: seq<Step>, describe: seq<Message> -> string)
    ensures ResultsAnswered(Compact(Run(NO_TURNS, steps).messages, describe))
  {
    RunAnswered(steps);
    CompactKeepsAnswers(Run(NO_TURNS, steps).messages, describe);
  }

  // ----- The loop of one turn

  /** What the tool host gave for a call; None stands for an error or a cancellation. */
  type Given = Option<(string, bool)>

  /** What the model backend did in a round; Broken stands for an error or a cancellation before the reply is
      complete. */
  datatype Round = Broken | Replied(text: string, calls: seq<ToolCall>, given: seq<Given>)

  /** The results pushed for a message's calls, up to the first that fails. */
  function Results(calls: seq<ToolCall>, given: seq<Given>): (r: seq<Message>)
    ensures |r| <= |calls|
    decreases |calls|
  {
    if calls == [] || given == [] || given[0].None? then []
    else [ResultOf(calls[0], given[0].value.0, given[0].value.1)] + Results(calls[1..], given[1..])
  }

  /** The messages one round adds. */
  function RoundMessages(r: Round): seq<Message> {
    if r.Broken? || (r.text == "" && r.calls == []) then []
    else [Assistant(r.text, r.calls)] + Results(r.calls, r.given)
  }

  /** Another round follows one whose calls were all answered. */
  predicate GoesOn(r: Round) {
    r.Replied? && r.calls != [] && |Results(r.calls, r.given)| == |r.calls|
  }

  function TurnMessages(rounds: seq<Round>, limit: nat): seq<Message>
    decreases limit
  {
    if limit == 0 || rounds == [] then []
    else RoundMessages(rounds[0]) + if GoesOn(rounds[0]) then TurnMessages(rounds[1..], limit - 1) else []
  }

  /** How many requests a turn sends: one to begin with, and one after each round that goes on. */
  function RoundsBegun(rounds: seq<Round>, limit: nat): nat
    decreases limit
  {
    if limit == 0 then 0
    else if rounds == [] || !GoesOn(rounds[0]) then 1
    else 1 + RoundsBegun(rounds[1..], limit - 1)
  }

  // ----- The loop and the steps leave the same messages

  function AnswerSteps(calls: seq<ToolCall>, given: seq<Given>): seq<Step>
    decreases |calls|
  {
    if calls == [] || given == [] || given[0].None? then []
    else [Answer(given[0].value.0, given[0].value.1)] + AnswerSteps(calls[1..], given[1..])
  }

  function RoundSteps(r: Round): seq<Step> {
    if r.Broken? then [] else [Reply(r.text, r.calls)] + AnswerSteps(r.calls, r.given)
  }

  function TurnSteps(rounds: seq<Round>, limit: nat): seq<Step>
    decreases limit
  {
    if limit == 0 || rounds == [] then []
    else RoundSteps(rounds[0]) + if GoesOn(rounds[0]) then TurnSteps(rounds[1..], limit - 1) else []
  }

  lemma {:induction false} RunAppends(t: Turns, a: seq<Step>, b: seq<Step>)
    ensures Run(t, a + b) == Run(Run(t, a), b)
    decreases |b|
  {
    hide Next;
    if b == [] {
      assert a + b == a;
    } else {
      var n := |b| - 1;
      RunAppends(t, a, b[..n]);
      assert (a + b)[..|a + b| - 1] == a + b[..n];
    }
  }

  lemma RunFirst(t: Turns, step: Step, more: seq<Step>)
    ensures Run(t, [step] + more) == Run(Next(t, step), more)
  {
    hide Next;
    RunAppends(t, [step], more);
    assert [step][..0] == [];
    assert Run(t, []) == t;
  }

  /** Answering the first open call. */
  lemma AnswerOne(t: Turns, given: (string, bool))
    requires t.running && t.calls != []
    ensures Next(t, Answer(given.0, given.1))
         == t.(messages := t.messages + [ResultOf(t.calls[0], given.0, given.1)], calls := t.calls[1..])
  {
  }

  lemma {:induction false} AnswersRun(t: Turns, given: seq<Given>)
    requires t.running
    ensures
      var r := Results(t.calls, given);
      Run(t, AnswerSteps(t.calls, given)) == t.(messages := t.messages + r, calls := t.calls[|r|..])
    decreases |t.calls|
  {
    hide Next, ResultOf;
    assert Run(t, []) == t;
    hide Run;
    if t.calls == [] || given == [] || given[0].None? {
      assert t.messages + [] == t.messages && t.calls[0..] == t.calls;
    } else {
      var first, rest := [ResultOf(t.calls[0], given[0].value.0, given[0].value.1)], Results(t.calls[1..], given[1..]);
      var step := Answer(given[0].value.0, given[0].value.1);
      AnswerOne(t, given[0].value);
      RunFirst(t, step, AnswerSteps(t.calls[1..], given[1..]));
      AnswersRun(Next(t, step), given[1..]);
      assert t.calls[1..][|rest|..] == t.calls[1 + |rest|..];
      assert t.messages + (first + rest) == (t.messages + first) + rest;
    }
  }

  lemma RoundRuns(t: Turns, r: Round)
    requires t.running && t.calls == []
    ensures
      var u := Run(t, RoundSteps(r));
      u.messages == t.messages + RoundMessages(r) && (GoesOn(r) ==> u.running && u.calls == [])
  {
    hide Results, AnswerSteps;
    if r.Broken? {
      assert t.messages + [] == t.messages;
    } else {
      var step := Reply(r.text, r.calls);
      var u := Next(t, step);
      RunFirst(t, step, AnswerSteps(r.calls, r.given));
      if r.calls == [] {
        assert AnswerSteps(r.calls, r.given) == [] by { NoCalls(r.given); }
        NoCalls(r.given);
        assert Run(u, []) == u;
      } else {
        AnswersRun(u, r.given);
        var results := Results(r.calls, r.given);
        assert t.messages + ([Assistant(r.text, r.calls)] + results) == u.messages + results;
      }
    }
  }

  lemma NoCalls(given: seq<Given>)
    ensures AnswerSteps([], given) == [] && Results([], given) == []
  {
  }

  lemma RunsJoin(t: Turns, first: seq<Step>, later: seq<Step>, added: seq<Message>, rest: seq<Message>)
    requires Run(t, first).messages == t.messages + added
    requires Run(Run(t, first), later).messages == t.messages + added + rest
    ensures Run(t, first + later).messages == t.messages + (added + rest)
  {
    hide Run;
    RunAppends(t, first, later);
    assert t.messages + (added + rest) == t.messages + added + rest;
  }

  lemma TurnUnfolds(rounds: seq<Round>, limit: nat)
    ensures limit == 0 || rounds == [] ==> TurnSteps(rounds, limit) == [] && TurnMessages(rounds, limit) == []
    ensures limit > 0 && rounds != [] ==>
      var more := GoesOn(rounds[0]);
      && TurnSteps(rounds, limit) == RoundSteps(rounds[0]) + (if more then TurnSteps(rounds[1..], limit - 1) else [])
      && TurnMessages(rounds, limit)
           == RoundMessages(rounds[0]) + (if more then TurnMessages(rounds[1..], limit - 1) else [])
  {
  }

  lemma {:induction false} RoundsRun(t: Turns, rounds: seq<Round>, limit: nat)
    requires t.running && t.calls == []
    ensures Run(t, TurnSteps(rounds, limit)).messages == t.messages + TurnMessages(rounds, limit)
    decreases limit
  {
    hide RoundSteps, RoundMessages, GoesOn, Next, TurnSteps, TurnMessages;
    assert Run(t, []) == t;
    TurnUnfolds(rounds, limit);
    hide Run;
    if limit == 0 || rounds == [] {
      assert t.messages + [] == t.messages;
    } else {
      RoundRuns(t, rounds[0]);
      var first, added := RoundSteps(rounds[0]), RoundMessages(rounds[0]);
      if GoesOn(rounds[0]) {
        RoundsRun(Run(t, first), rounds[1..], limit - 1);
        RunsJoin(t, first, TurnSteps(rounds[1..], limit - 1), added, TurnMessages(rounds[1..], limit - 1));
      } else {
        assert first + [] == first && added + [] == added;
      }
    }
  }

  /** What the loop of one turn leaves behind is what the steps of that turn leave behind, so every law about runs of
      steps is one about the loop. */
  lemma TurnIsSteps(t: Turns, content: string, context: Option<string>, rounds: seq<Round>, limit: nat)
    requires !t.running
    ensures
      Run(t, [StartTurn(content, context)] + TurnSteps(rounds, limit)).messages
        == t.messages + [User(content, context)] + TurnMessages(rounds, limit)
  {
    RunFirst(t, StartTurn(content, context), TurnSteps(rounds, limit));
    RoundsRun(Next(t, StartTurn(content, context)), rounds, limit);
  }

  /** All the first n rounds went on. */
  predicate AllGoOn(rounds: seq<Round>, n: nat) {
    n <= |rounds| && forall k | 0 <= k < n :: GoesOn(rounds[k])
  }

  /** The messages of one round more. */
  lemma {:induction false} OneRoundMore(rounds: seq<Round>, n: nat)
    requires n < |rounds| && AllGoOn(rounds, n)
    ensures TurnMessages(rounds, n + 1) == TurnMessages(rounds, n) + RoundMessages(rounds[n])
    decreases n
  {
    hide RoundMessages, GoesOn;
    if n == 0 {
      assert TurnMessages(rounds[1..], 0) == [];
    } else {
      assert forall k | 0 <= k < n - 1 :: rounds[1..][k] == rounds[k + 1];
      OneRoundMore(rounds[1..], n - 1);
      assert GoesOn(rounds[0]);
    }
  }

  lemma {:induction false} BegunAre(rounds: seq<Round>, limit: nat, n: nat)
    requires n < limit && AllGoOn(rounds, n)
    ensures n == |rounds| || !GoesOn(rounds[n]) ==> RoundsBegun(rounds, limit) == n + 1
    ensures n < |rounds| && n + 1 == limit ==> RoundsBegun(rounds, limit) == n + 1
    decreases n
  {
    hide GoesOn;
    if n > 0 {
      assert GoesOn(rounds[0]);
      assert forall k | 0 <= k < |rounds| - 1 :: rounds[1..][k] == rounds[k + 1];
      BegunAre(rounds[1..], limit - 1, n - 1);
    }
  }

  /** The request was compacted from the history as it was at some point. */
  ghost predicate IsRequestOf(request: seq<Message>, messages: seq<Message>, describe: seq<Message> -> string) {
    exists n: nat :: n <= |messages| && request == Compact(messages[..n], describe)
  }

  lemma WholeRequest(messages: seq<Message>, describe: seq<Message> -> string)
    ensures IsRequestOf(Compact(messages, describe), messages, describe)
  {
    hide Compact;
    assert messages[..|messages|] == messages;
  }

  lemma LongerHistory(
      request: seq<Message>, messages: seq<Message>, more: seq<Message>, describe: seq<Message> -> string)
    requires IsRequestOf(request, messages, describe)
    ensures IsRequestOf(request, messages + more, describe)
  {
    hide Compact;
    var n: nat :| n <= |messages| && request == Compact(messages[..n], describe);
    assert (messages + more)[..n] == messages[..n];
  }

  /** Each request keeps its calls and was compacted from the history after as many rounds as came before it. */
  ghost predicate RequestsOk(
      requests: seq<seq<Message>>, messages: seq<Message>, start: seq<Message>, rounds: seq<Round>,
      describe: seq<Message> -> string)
  {
    forall k | 0 <= k < |requests| ::
      && ResultsAnswered(requests[k]) && IsRequestOf(requests[k], messages, describe)
      && requests[k] == Compact(start + TurnMessages(rounds, k), describe)
  }

  lemma RequestAdded(
      requests: seq<seq<Message>>, messages: seq<Message>, start: seq<Message>, rounds: seq<Round>,
      describe: seq<Message> -> string)
    requires RequestsOk(requests, messages, start, rounds, describe) && ResultsAnswered(messages)
    requires messages == start + TurnMessages(rounds, |requests|)
    ensures RequestsOk(requests + [Compact(messages, describe)], messages, start, rounds, describe)
  {
    hide ResultsAnswered, Compact, IsRequestOf, TurnMessages;
    CompactKeepsAnswers(messages, describe);
    WholeRequest(messages, describe);
  }

  lemma HistoryGrew(
      requests: seq<seq<Message>>, messages: seq<Message>, more: seq<Message>, start: seq<Message>, rounds: seq<Round>,
      describe: seq<Message> -> string)
    requires RequestsOk(requests, messages, start, rounds, describe)
    ensures RequestsOk(requests, messages + more, start, rounds, describe)
  {
    hide ResultsAnswered, Compact, IsRequestOf, TurnMessages;
    forall k | 0 <= k < |requests| ensures IsRequestOf(requests[k], messages + more, describe) {
      LongerHistory(requests[k], messages, more, describe);
    }
  }

  lemma RequestsAre(
      requests: seq<seq<Message>>, messages: seq<Message>, start: seq<Message>, rounds: seq<Round>,
      describe: seq<Message> -> string)
    requires RequestsOk(requests, messages, start, rounds, describe)
    ensures forall k | 0 <= k < |requests| ::
      && ResultsAnswered(requests[k]) && IsRequestOf(requests[k], messages, describe)
      && requests[k] == Compact(start + TurnMessages(rounds, k), describe)
  {
    hide ResultsAnswered, Compact, IsRequestOf, TurnMessages;
  }

  lemma NoRounds(start: seq<Message>, rounds: seq<Round>, describe: seq<Message> -> string)
    ensures start == start + TurnMessages(rounds, 0) && RoundsBegun(rounds, 0) == 0
    ensures RequestsOk([], start, start, rounds, describe)
  {
  }

  lemma {:induction false} LastRound(rounds: seq<Round>, limit: nat, n: nat)
    requires n < limit && AllGoOn(rounds, n)
    ensures n == |rounds| ==> TurnMessages(rounds, limit) == TurnMessages(rounds, n)
    ensures n < |rounds| && !GoesOn(rounds[n]) ==> TurnMessages(rounds, limit) == TurnMessages(rounds, n + 1)
    decreases n
  {
    hide RoundMessages, GoesOn;
    if n > 0 {
      assert GoesOn(rounds[0]);
      assert forall k | 0 <= k < |rounds| - 1 :: rounds[1..][k] == rounds[k + 1];
      LastRound(rounds[1..], limit - 1, n - 1);
    }
  }

  class Session {
    var messages: seq<Message>

    constructor ()
      ensures messages == []
    {
      messages := [];
    }

    /** run_turn_inner: one user message, then rounds of reply and tool calls. */
    method RunTurn(
        content: string, context: Option<string>, rounds: seq<Round>, limit: nat, describe: seq<Message> -> string)
      returns (requests: seq<seq<Message>>)
      requires ResultsAnswered(messages)
      modifies this
      ensures messages == old(messages) + [User(content, context)] + TurnMessages(rounds, limit)
      ensures ResultsAnswered(messages)
      ensures |requests| == RoundsBegun(rounds, limit)
      ensures forall k | 0 <= k < |requests| ::
          && ResultsAnswered(requests[k]) && IsRequestOf(requests[k], messages, describe)
          && requests[k] == Compact(old(messages) + [User(content, context)] + TurnMessages(rounds, k), describe)
    {
      hide ResultsAnswered, Compact, RoundMessages, GoesOn, IsRequestOf, RequestsOk, TurnMessages, RoundsBegun;
      requests := [];
      AppendKeeps(messages, User(content, context));
      messages := messages + [User(content, context)];
      ghost var start := messages;
      NoRounds(start, rounds, describe);
      for round := 0 to limit
        invariant ResultsAnswered(messages) && RequestsOk(requests, messages, start, rounds, describe)
        invariant AllGoOn(rounds, round) && messages == start + TurnMessages(rounds, round)
        invariant |requests| == round && (round == limit ==> RoundsBegun(rounds, limit) == round)
      {
        var request := CompactHistoryForModel(messages, describe);
        RequestAdded(requests, messages, start, rounds, describe);
        requests := requests + [request];
        BegunAre(rounds, limit, round);
        LastRound(rounds, limit, round);
        if round == |rounds| {
          RequestsAre(requests, messages, start, rounds, describe);
          return;
        }
        OneRoundMore(rounds, round);
        ghost var before := messages;
        var goOn := RunRound(rounds[round]);
        HistoryGrew(requests, before, RoundMessages(rounds[round]), start, rounds, describe);
        if !goOn {
          RequestsAre(requests, messages, start, rounds, describe);
          return;
        }
      }
      RequestsAre(requests, messages, start, rounds, describe);
    }

    method RunRound(r: Round) returns (goOn: bool)
      requires ResultsAnswered(messages)
      modifies this
      ensures messages == old(messages) + RoundMessages(r) && ResultsAnswered(messages)
      ensures goOn == GoesOn(r)
    {
      hide ResultsAnswered, AnsweredFrom;
      if r.Broken? {
        return false;
      }
      if r.text != "" || r.calls != [] {
        AppendKeeps(messages, Assistant(r.text, r.calls));
        messages := messages + [Assistant(r.text, r.calls)];
      }
      if r.calls == [] {
        return false;
      }
      goOn := AnswerCalls(r.calls, r.given);
    }

    method AnswerCalls(calls: seq<ToolCall>, given: seq<Given>) returns (all: bool)
      requires ResultsAnswered(messages) && messages != []
      requires messages[|messages| - 1].Assistant? && messages[|messages| - 1].calls == calls
      modifies this
      ensures ResultsAnswered(messages) && messages == old(messages) + Results(calls, given)
      ensures all <==> |Results(calls, given)| == |calls|
    {
      hide ResultsAnswered;
      ghost var j := |messages| - 1;
      for k := 0 to |calls|
        invariant ResultsAnswered(messages) && old(messages) <= messages && |messages| == j + 1 + k && k <= |given|
        invariant messages + Results(calls[k..], given[k..]) == old(messages) + Results(calls, given)
        invariant forall x | j < x < |messages| :: Answers(messages[x], calls[x - j - 1])
      {
        assert calls[k..][0] == calls[k] && calls[k..][1..] == calls[k + 1..];
        if k >= |given| || given[k].None? {
          assert Results(calls[k..], given[k..]) == [];
          return false;
        }
        assert given[k..][0] == given[k] && given[k..][1..] == given[k + 1..];
        var result := ResultOf(calls[k], given[k].value.0, given[k].value.1);
        ghost var after := messages + [result];
        assert AnsweredFrom(after, j, |messages|) by {
          assert after[j].calls == calls;
        }
        AppendKeeps(messages, result);
        messages := messages + [result];
      }
      all := true;
    }
  }
}
