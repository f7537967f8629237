/**
 Fitting a conversation into one model request (session.rs): keep the newest messages under a
 byte cap but never fewer than three user turns, and summarise what is left out.
 */
module HistoryCompaction {
  import opened Text

  const HARD_CAP := 65536
  const SUMMARY_MAX := 8192
  const MIN_USER_TURNS := 3
  const SUMMARY_MIN := 128
  const NOTICE :=
    "[Internal context: Earlier conversation turns were compacted to stay within the context budget. "
    + "The next assistant message is a background summary of omitted history. "
    + "Treat it as prior conversation context, not as a new user request.]"
  const PREFIX := "Background summary of earlier conversation:\n"

  /** Arguments stand for their JSON text, a signature for its bytes. */
  datatype ToolCall = ToolCall(
    callId: string,
    toolName: string,
    arguments: string,
    signature: Option<seq<bv8>>,
    toolCallId: Option<string>,
    providerCallId: Option<string>)

  datatype Message =
    | System(content: string)
    | User(content: string, context: Option<string>)
    | Assistant(content: string, calls: seq<ToolCall>)
    | ToolResult(
        callId: string,
        toolName: string,
        output: string,
        isError: bool,
        toolCallId: Option<string>,
        providerCallId: Option<string>)

  // ----- Sizes in bytes of UTF-8

  function CharBytes(c: char): nat {
    if c < '\U{80}' then 1 else if c < '\U{800}' then 2 else if c < '\U{10000}' then 3 else 4
  }

  function Bytes(text: string): nat {
    if text == "" then 0 else Bytes(text[..|text| - 1]) + CharBytes(text[|text| - 1])
  }

  function OptionBytes(text: Option<string>): nat {
    if text.Some? then Bytes(text.value) else 0
  }

  function CallBytes(call: ToolCall): nat {
    Bytes(call.callId) + Bytes(call.toolName) + Bytes(call.arguments)
    + (if call.signature.Some? then |call.signature.value| else 0)
    + OptionBytes(call.toolCallId) + OptionBytes(call.providerCallId)
  }

  function CallsBytes(calls: seq<ToolCall>): nat {
    if calls == [] then 0 else CallBytes(calls[0]) + CallsBytes(calls[1..])
  }

  /** model_input_size */
  function MessageBytes(m: Message): nat {
    match m
    case System(content) => Bytes(content)
    case User(content, _) => Bytes(content)
    case Assistant(content, calls) => Bytes(content) + CallsBytes(calls)
    case ToolResult(callId, toolName, output, _, toolCallId, providerCallId) =>
      Bytes(callId) + Bytes(toolName) + Bytes(output) + OptionBytes(toolCallId) + OptionBytes(providerCallId)
  }

  function TotalBytes(messages: seq<Message>): nat {
    if messages == [] then 0 else MessageBytes(messages[0]) + TotalBytes(messages[1..])
  }

  function UserTurns(messages: seq<Message>): nat {
    if messages == [] then 0 else (if messages[0].User? then 1 else 0) + UserTurns(messages[1..])
  }

  lemma {:induction false} TotalsAdd(a: seq<Message>, b: seq<Message>)
    ensures TotalBytes(a + b) == TotalBytes(a) + TotalBytes(b)
    ensures UserTurns(a + b) == UserTurns(a) + UserTurns(b)
  {
    if a == [] {
      assert a + b == b;
    } else {
      assert (a + b)[1..] == a[1..] + b;
      TotalsAdd(a[1..], b);
    }
  }

  lemma {:induction false} BytesAdd(a: string, b: string)
    ensures Bytes(a + b) == Bytes(a) + Bytes(b)
    decreases |b|
  {
    if b == "" {
      assert a + b == a;
    } else {
      assert (a + b)[..|a + b| - 1] == a + b[..|b| - 1];
      BytesAdd(a, b[..|b| - 1]);
    }
  }

  // ----- Truncation

  /** The longest prefix within a number of bytes, counted in characters, given one of n. */
  function FitFrom(text: string, limit: nat, n: nat): (m: nat)
    requires n <= |text| && Bytes(text[..n]) <= limit
    ensures n <= m <= |text| && Bytes(text[..m]) <= limit
    ensures m < |text| ==> Bytes(text[..m + 1]) > limit
    decreases |text| - n
  {
    if n < |text| && Bytes(text[..n + 1]) <= limit then FitFrom(text, limit, n + 1) else n
  }

  function Dots(n: nat): string {
    seq(n, i => '.')
  }

  function Truncate(text: string, max: nat): string {
    if max == 0 then ""
    else if Bytes(text) <= max then text
    else if max <= 3 then Dots(max)
    else text[..FitFrom(text, max - 3, 0)] + "..."
  }

  lemma {:induction false} DotsBytes(n: nat)
    ensures Bytes(Dots(n)) == n
  {
    if n > 0 {
      assert Dots(n)[..n - 1] == Dots(n - 1);
      DotsBytes(n - 1);
    }
  }

  /** Truncated text fits; it is the text itself, or the longest prefix that leaves room for the dots. */
  lemma TruncateFits(text: string, max: nat)
    ensures Bytes(Truncate(text, max)) <= max
    ensures Bytes(text) <= max ==> Truncate(text, max) == text
    ensures Bytes(text) > max && max <= 3 ==>
      |Truncate(text, max)| == max && forall i | 0 <= i < max :: Truncate(text, max)[i] == '.'
    ensures Bytes(text) > max > 3 ==>
      exists n: nat ::
        n < |text| && Truncate(text, max) == text[..n] + "..." && Bytes(text[..n]) + 3 <= max < Bytes(text[..n + 1]) + 3
  {
    if max > 0 && Bytes(text) > max {
      if max <= 3 {
        DotsBytes(max);
      } else {
        var n := FitFrom(text, max - 3, 0);
        assert text[..|text|] == text;
        BytesAdd(text[..n], "...");
        assert "..." == Dots(3);
        DotsBytes(3);
        assert n < |text|;
      }
    } else if max == 0 {
      ZeroBytes(text);
    }
  }

  lemma {:induction false} ZeroBytes(text: string)
    ensures Bytes(text) == 0 ==> text == ""
  {
  }

  method TruncateTextBytes(text: string, max: nat) returns (r: string)
    ensures r == Truncate(text, max)
  {
    if max == 0 {
      return "";
    }
    if Bytes(text) <= max {
      return text;
    }
    if max <= 3 {
      return Dots(max);
    }
    var cutoff := max - 3;
    var end, bytes := 0, 0;
    while end < |text|
      invariant end <= |text| && bytes == Bytes(text[..end]) <= cutoff
      invariant FitFrom(text, cutoff, 0) == FitFrom(text, cutoff, end)
    {
      assert text[..end + 1][..end] == text[..end];
      var next := bytes + CharBytes(text[end]);
      if next > cutoff {
        break;
      }
      end, bytes := end + 1, next;
    }
    if end == 0 {
      assert text[..0] + "..." == "...";
      return "...";
    }
    r := text[..end] + "...";
  }

  // ----- Which messages to keep

  /** The backward scan: from the kept suffix that starts at i, where it ends up. */
  function ScanFrom(messages: seq<Message>, i: nat, bytes: nat, users: nat): (k: nat)
    requires i <= |messages|
    ensures k <= i
    decreases i
  {
    if i == 0 then 0
    else
      var m := messages[i - 1];
      if users >= MIN_USER_TURNS && bytes + MessageBytes(m) > HARD_CAP then i
      else ScanFrom(messages, i - 1, bytes + MessageBytes(m), users + if m.User? then 1 else 0)
  }

  function NextUser(messages: seq<Message>, i: nat): (k: nat)
    requires i <= |messages|
    ensures i <= k <= |messages| && (k < |messages| ==> messages[k].User?)
    ensures forall j | i <= j < k :: !messages[j].User?
    decreases |messages| - i
  {
    if i < |messages| && !messages[i].User? then NextUser(messages, i + 1) else i
  }

  /** Where the kept part starts; 0 keeps everything. */
  function Boundary(messages: seq<Message>): (k: nat)
    ensures k <= |messages|
  {
    var start := ScanFrom(messages, |messages|, 0, 0);
    if start == 0 then 0 else NextUser(messages, start)
  }

  /** The two messages that stand for the omitted ones; text is the summary before it is cut to size. */
  function SummaryMessages(omitted: seq<Message>, text: string, max: nat): seq<Message> {
    var overhead := Bytes(NOTICE) + Bytes(PREFIX);
    if max <= overhead || omitted == [] || max - overhead < SUMMARY_MIN then []
    else
      var summary := Truncate(text, max - overhead);
      if AllSpace(summary) then [] else [User(NOTICE, None), Assistant(PREFIX + summary, [])]
  }

  function SummaryBudget(kept: nat): nat {
    var room := if kept <= HARD_CAP then HARD_CAP - kept else 0;
    if room <= SUMMARY_MAX then room else SUMMARY_MAX
  }

  /** compact_history_for_model; describe gives the summary text of the omitted messages. */
  function Compact(messages: seq<Message>, describe: seq<Message> -> string): seq<Message> {
    var k := Boundary(messages);
    if k == 0 then messages
    else
      SummaryMessages(messages[..k], describe(messages[..k]), SummaryBudget(TotalBytes(messages[k..]))) + messages[k..]
  }

  // ----- What the scan guarantees

  /** A stretch of the scan: the kept suffix fits, or it is still short of user turns, or it just reached them. */
  predicate KeptOk(messages: seq<Message>, i: nat)
    requires i <= |messages|
  {
    var kept := messages[i..];
    || UserTurns(kept) < MIN_USER_TURNS
    || TotalBytes(kept) <= HARD_CAP
    || (UserTurns(kept) == MIN_USER_TURNS && messages[i].User?)
  }

  lemma OneMore(messages: seq<Message>, i: nat)
    requires 0 < i <= |messages|
    ensures TotalBytes(messages[i - 1..]) == TotalBytes(messages[i..]) + MessageBytes(messages[i - 1])
    ensures UserTurns(messages[i - 1..]) == UserTurns(messages[i..]) + if messages[i - 1].User? then 1 else 0
  {
    assert messages[i - 1..][1..] == messages[i..];
  }

  lemma NonEmptySuffix(messages: seq<Message>, i: nat)
    requires i <= |messages| && UserTurns(messages[i..]) > 0
    ensures i < |messages|
  {
  }

  lemma {:induction false} ScanKeeps(messages: seq<Message>, i: nat)
    requires i <= |messages| && KeptOk(messages, i)
    ensures
      var k := ScanFrom(messages, i, TotalBytes(messages[i..]), UserTurns(messages[i..]));
      KeptOk(messages, k) && (k > 0 ==> UserTurns(messages[k..]) >= MIN_USER_TURNS)
    decreases i
  {
    hide MessageBytes, TotalBytes, UserTurns;
    if i > 0 {
      OneMore(messages, i);
      var m := messages[i - 1];
      if !(UserTurns(messages[i..]) >= MIN_USER_TURNS && TotalBytes(messages[i..]) + MessageBytes(m) > HARD_CAP) {
        ScanKeeps(messages, i - 1);
      }
    }
  }

  lemma {:induction false} SkipKeepsUsers(messages: seq<Message>, i: nat)
    requires i <= |messages|
    ensures
      var k := NextUser(messages, i);
      && UserTurns(messages[k..]) == UserTurns(messages[i..])
      && TotalBytes(messages[k..]) <= TotalBytes(messages[i..])
    decreases |messages| - i
  {
    if i < |messages| && !messages[i].User? {
      OneMore(messages, i + 1);
      SkipKeepsUsers(messages, i + 1);
    }
  }

  /** The kept part is everything, or starts at a user message and holds at least three; it fits, or is as short as
      that allows. */
  lemma BoundaryOk(messages: seq<Message>)
    ensures
      var k := Boundary(messages);
      && KeptOk(messages, k)
      && (k > 0 ==> UserTurns(messages[k..]) >= MIN_USER_TURNS && k < |messages| && messages[k].User?)
  {
    var n := |messages|;
    assert messages[n..] == [];
    ScanKeeps(messages, n);
    var start := ScanFrom(messages, n, 0, 0);
    if start > 0 {
      SkipKeepsUsers(messages, start);
      NonEmptySuffix(messages, NextUser(messages, start));
    }
  }

  predicate IsSummary(s: seq<Message>) {
    s == [] || (|s| == 2 && s[0] == User(NOTICE, None) && s[1].Assistant? && s[1].calls == [])
  }

  lemma PairBytes(a: Message, b: Message)
    ensures TotalBytes([a, b]) == MessageBytes(a) + MessageBytes(b)
  {
    hide MessageBytes;
    assert [a, b][1..] == [b] && [b][1..] == [];
    assert TotalBytes([b]) == MessageBytes(b) + TotalBytes([]);
  }

  lemma SummaryFits(omitted: seq<Message>, text: string, max: nat)
    ensures
      var s := SummaryMessages(omitted, text, max);
      TotalBytes(s) <= max && IsSummary(s) && (max == 0 ==> s == [])
  {
    hide Bytes;
    var overhead := Bytes(NOTICE) + Bytes(PREFIX);
    if max > overhead {
      var summary := Truncate(text, max - overhead);
      TruncateFits(text, max - overhead);
      BytesAdd(PREFIX, summary);
      PairBytes(User(NOTICE, None), Assistant(PREFIX + summary, []));
    }
  }

  /** Unchanged, or an optional two-message summary before a suffix that starts at a user message and holds the last
      three. */
  lemma CompactShape(messages: seq<Message>, describe: seq<Message> -> string) returns (k: nat)
    ensures k <= |messages|
    ensures k == 0 ==> Compact(messages, describe) == messages
    ensures k > 0 ==>
      && k < |messages| && messages[k].User? && UserTurns(messages[k..]) >= MIN_USER_TURNS
      && exists summary :: IsSummary(summary) && Compact(messages, describe) == summary + messages[k..]
  {
    hide Truncate, Bytes;
    k := Boundary(messages);
    BoundaryOk(messages);
    hide Boundary, SummaryMessages, TotalBytes;
    if k > 0 {
      SummaryFits(messages[..k], describe(messages[..k]), SummaryBudget(TotalBytes(messages[k..])));
    }
  }

  lemma SummaryLeavesRoom(summary: seq<Message>, kept: seq<Message>)
    requires TotalBytes(summary) <= SummaryBudget(TotalBytes(kept))
    requires SummaryBudget(TotalBytes(kept)) == 0 ==> summary == []
    ensures TotalBytes(kept) <= HARD_CAP ==> TotalBytes(summary + kept) <= HARD_CAP
    ensures TotalBytes(kept) > HARD_CAP ==> summary + kept == kept
  {
    hide TotalBytes;
    TotalsAdd(summary, kept);
    assert summary == [] ==> summary + kept == kept;
  }

  /** The request fits the cap, unless the history has fewer than three user turns or what is left is just the last
      three, raw. */
  lemma CompactFits(messages: seq<Message>, describe: seq<Message> -> string)
    ensures
      var r := Compact(messages, describe);
      var k := Boundary(messages);
      || TotalBytes(r) <= HARD_CAP
      || UserTurns(messages) < MIN_USER_TURNS
      || (k < |messages| && messages[k].User? && UserTurns(messages[k..]) == MIN_USER_TURNS && r == messages[k..])
  {
    BoundaryOk(messages);
    hide MessageBytes, Bytes, Truncate, Boundary, SummaryMessages, TotalBytes, UserTurns, IsSummary, SummaryBudget;
    var k := Boundary(messages);
    assert messages[0..] == messages;
    var kept := messages[k..];
    var budget := SummaryBudget(TotalBytes(kept));
    if k > 0 {
      var summary := SummaryMessages(messages[..k], describe(messages[..k]), budget);
      SummaryFits(messages[..k], describe(messages[..k]), budget);
      SummaryLeavesRoom(summary, kept);
    } else {
      NonEmptyIfTurns(messages);
    }
  }

  lemma NonEmptyIfTurns(messages: seq<Message>)
    ensures UserTurns(messages) > 0 ==> messages != []
  {
  }

  lemma {:induction false} SuffixGrows(messages: seq<Message>, i: nat, j: nat)
    requires j <= i <= |messages|
    ensures TotalBytes(messages[i..]) <= TotalBytes(messages[j..])
        && UserTurns(messages[i..]) <= UserTurns(messages[j..])
    decreases i - j
  {
    hide MessageBytes, TotalBytes, UserTurns;
    if j < i {
      OneMore(messages, i);
      SuffixGrows(messages, i - 1, j);
    }
  }

  lemma {:induction false} ScanReachesStart(messages: seq<Message>, i: nat)
    requires 0 < i <= |messages|
    ensures ScanFrom(messages, i, TotalBytes(messages[i..]), UserTurns(messages[i..])) == 0
       <==> TotalBytes(messages) <= HARD_CAP || UserTurns(messages[1..]) < MIN_USER_TURNS
    decreases i
  {
    hide MessageBytes, TotalBytes, UserTurns;
    OneMore(messages, i);
    assert messages[0..] == messages;
    SuffixGrows(messages, i, 1);
    SuffixGrows(messages, i - 1, 0);
    if i > 1 && !(UserTurns(messages[i..]) >= MIN_USER_TURNS && TotalBytes(messages[i - 1..]) > HARD_CAP) {
      ScanReachesStart(messages, i - 1);
    }
  }

  /** Nothing is left out exactly when everything fits or three user turns would not remain without the first
      message. */
  lemma CompactsExactlyWhen(messages: seq<Message>)
    requires messages != []
    ensures Boundary(messages) == 0 <==> TotalBytes(messages) <= HARD_CAP || UserTurns(messages[1..]) < MIN_USER_TURNS
  {
    assert messages[|messages|..] == [];
    ScanReachesStart(messages, |messages|);
  }

  lemma {:induction false} ScanStopsAtCap(messages: seq<Message>, i: nat)
    requires i <= |messages|
    ensures
      var k := ScanFrom(messages, i, TotalBytes(messages[i..]), UserTurns(messages[i..]));
      k > 0 ==> TotalBytes(messages[k - 1..]) > HARD_CAP
    decreases i
  {
    hide MessageBytes, TotalBytes, UserTurns;
    if i > 0 {
      OneMore(messages, i);
      if !(UserTurns(messages[i..]) >= MIN_USER_TURNS && TotalBytes(messages[i - 1..]) > HARD_CAP) {
        ScanStopsAtCap(messages, i - 1);
      }
    }
  }

  /** The kept part is as long as the cap allows: from any earlier user message on, the history is too large. */
  lemma KeepsAllThatFits(messages: seq<Message>, j: nat)
    requires j < Boundary(messages) && messages[j].User?
    ensures TotalBytes(messages[j..]) > HARD_CAP
  {
    assert messages[|messages|..] == [];
    ScanStopsAtCap(messages, |messages|);
    hide MessageBytes, TotalBytes, UserTurns;
    var start := ScanFrom(messages, |messages|, 0, 0);
    assert j < start;
    SuffixGrows(messages, start - 1, j);
  }

  // ----- The same in plain numbers

  /** A place to cut: a user message with at least three from it on, from where the history fits 65536 bytes or has no
      more than those three, while from every earlier user message on it is larger. */
  predicate RightCut(messages: seq<Message>, k: nat) {
    && 0 < k < |messages| && messages[k].User? && UserTurns(messages[k..]) >= 3
    && (TotalBytes(messages[k..]) <= 65536 || UserTurns(messages[k..]) == 3)
    && forall j | 0 <= j < k && messages[j].User? :: TotalBytes(messages[j..]) > 65536
  }

  lemma UserCounts(messages: seq<Message>, i: nat, j: nat)
    requires i < j <= |messages| && messages[i].User?
    ensures UserTurns(messages[i..]) > UserTurns(messages[j..])
  {
    OneMore(messages, i + 1);
    SuffixGrows(messages, j, i + 1);
  }

  /** There is at most one such place. */
  lemma OneRightCut(messages: seq<Message>, j: nat, k: nat)
    requires RightCut(messages, j) && RightCut(messages, k)
    ensures j == k
  {
    hide TotalBytes, UserTurns;
    if j < k {
      UserCounts(messages, j, k);
    } else if k < j {
      UserCounts(messages, k, j);
    }
  }

  /** Nothing is cut off exactly when the history fits 65536 bytes or has fewer than three user messages after its
      first message; otherwise the cut is at the one right place. */
  lemma CutsExactly(messages: seq<Message>)
    requires messages != []
    ensures Boundary(messages) == 0 <==> TotalBytes(messages) <= 65536 || UserTurns(messages[1..]) < 3
    ensures Boundary(messages) > 0 ==> RightCut(messages, Boundary(messages))
  {
    CompactsExactlyWhen(messages);
    BoundaryOk(messages);
    var k := Boundary(messages);
    hide Boundary, TotalBytes, UserTurns;
    forall j | 0 <= j < k && messages[j].User? ensures TotalBytes(messages[j..]) > 65536 {
      KeepsAllThatFits(messages, j);
    }
  }

  /** With a cut at k, a summary goes in front exactly when at least 128 of the bytes left, and never more than 8192,
      remain beside the fixed texts, and the text is not blank; it is the text cut to that size. */
  lemma SummaryExactly(messages: seq<Message>, describe: seq<Message> -> string)
    requires Boundary(messages) > 0
    ensures
      var k := Boundary(messages);
      var left := 65536 - TotalBytes(messages[k..]);
      var space := (if left <= 8192 then left else 8192) - Bytes(NOTICE) - Bytes(PREFIX);
      Compact(messages, describe) ==
        if space >= 128 && !AllSpace(Truncate(describe(messages[..k]), space))
        then [User(NOTICE, None), Assistant(PREFIX + Truncate(describe(messages[..k]), space), [])] + messages[k..]
        else messages[k..]
  {
    hide Boundary, TotalBytes, Bytes, Truncate, AllSpace;
    var k := Boundary(messages);
    assert messages[..k] != [];
    assert [] + messages[k..] == messages[k..];
  }

  /** Sizes by code point, as UTF-8 has them. */
  lemma CharBytesAre(c: char)
    ensures CharBytes(c) == 1 <==> c as int < 0x80
    ensures CharBytes(c) == 2 <==> 0x80 <= c as int < 0x800
    ensures CharBytes(c) == 3 <==> 0x800 <= c as int < 0x10000
    ensures CharBytes(c) == 4 <==> 0x10000 <= c as int
  {
  }

  /** All the text of a message that a model is sent. */
  function TextOf(m: Message): string {
    match m
    case System(content) => content
    case User(content, _) => content
    case Assistant(content, calls) => content + CallTexts(calls)
    case ToolResult(callId, toolName, output, _, toolCallId, providerCallId) =>
      callId + toolName + output + OrEmpty(toolCallId) + OrEmpty(providerCallId)
  }

  function OrEmpty(text: Option<string>): string {
    if text.Some? then text.value else ""
  }

  function CallTexts(calls: seq<ToolCall>): string {
    if calls == [] then "" else
      calls[0].callId + calls[0].toolName + calls[0].arguments + OrEmpty(calls[0].toolCallId)
      + OrEmpty(calls[0].providerCallId) + CallTexts(calls[1..])
  }

  function SignatureBytes(calls: seq<ToolCall>): nat {
    if calls == [] then 0 else
      (if calls[0].signature.Some? then |calls[0].signature.value| else 0) + SignatureBytes(calls[1..])
  }

  lemma FiveAdd(a: string, b: string, c: string, d: string, e: string)
    ensures Bytes(a + b + c + d + e) == Bytes(a) + Bytes(b) + Bytes(c) + Bytes(d) + Bytes(e)
  {
    hide Bytes;
    BytesAdd(a, b);
    BytesAdd(a + b, c);
    BytesAdd(a + b + c, d);
    BytesAdd(a + b + c + d, e);
  }

  lemma {:induction false} CallsBytesAre(calls: seq<ToolCall>)
    ensures CallsBytes(calls) == Bytes(CallTexts(calls)) + SignatureBytes(calls)
  {
    if calls != [] {
      hide Bytes;
      var c := calls[0];
      CallsBytesAre(calls[1..]);
      FiveAdd(c.callId, c.toolName, c.arguments, OrEmpty(c.toolCallId), OrEmpty(c.providerCallId));
      BytesAdd(c.callId + c.toolName + c.arguments + OrEmpty(c.toolCallId) + OrEmpty(c.providerCallId),
               CallTexts(calls[1..]));
      OrEmptyBytes(c.toolCallId);
      OrEmptyBytes(c.providerCallId);
    }
  }

  lemma OrEmptyBytes(text: Option<string>)
    ensures OptionBytes(text) == Bytes(OrEmpty(text))
  {
  }

  /** A message counts for the bytes of all its text and of its signatures. */
  lemma MessageBytesAre(m: Message)
    ensures MessageBytes(m) == Bytes(TextOf(m)) + if m.Assistant? then SignatureBytes(m.calls) else 0
  {
    hide Bytes, CallsBytes, CallTexts;
    if m.Assistant? {
      CallsBytesAre(m.calls);
      BytesAdd(m.content, CallTexts(m.calls));
    } else if m.ToolResult? {
      OrEmptyBytes(m.toolCallId);
      OrEmptyBytes(m.providerCallId);
      FiveAdd(m.callId, m.toolName, m.output, OrEmpty(m.toolCallId), OrEmpty(m.providerCallId));
    }
  }

  /** The loops of the code. */
  method CompactHistoryForModel(messages: seq<Message>, describe: seq<Message> -> string)
    returns (compacted: seq<Message>)
    ensures compacted == Compact(messages, describe)
  {
    hide MessageBytes, Bytes, SummaryMessages;
    if messages == [] {
      return [];
    }
    var kept, keptBytes: nat, userTurns: nat := 0, 0, 0;
    while kept < |messages|
      invariant kept <= |messages|
      invariant ScanFrom(messages, |messages|, 0, 0) == ScanFrom(messages, |messages| - kept, keptBytes, userTurns)
    {
      var message := messages[|messages| - kept - 1];
      if userTurns >= MIN_USER_TURNS && keptBytes + MessageBytes(message) > HARD_CAP {
        break;
      }
      keptBytes := keptBytes + MessageBytes(message);
      if message.User? {
        userTurns := userTurns + 1;
      }
      kept := kept + 1;
    }
    if kept == |messages| {
      return messages;
    }
    var omitted := |messages| - kept;
    while omitted < |messages| && !messages[omitted].User?
      invariant omitted <= |messages|
      invariant NextUser(messages, |messages| - kept) == NextUser(messages, omitted)
    {
      omitted := omitted + 1;
    }
    compacted := SummaryMessages(messages[..omitted], describe(messages[..omitted]),
      SummaryBudget(TotalBytes(messages[omitted..])));
    compacted := compacted + messages[omitted..];
  }
}
