/**
 Finding wikilinks in Markdown (wikilink.rs): code regions are blanked out first, then the text
 is scanned for [[target]] and [[target|alias]].
 */
module Wikilink {
  import opened Text

  datatype Link = Link(target: string, alias: Option<string>)

  datatype Extracted = Extracted(target: string, alias: Option<string>, ordinal: nat)

  // ----- Masking code

  function MaskChar(c: char): char {
    if c == '\n' || c == '\r' then c else ' '
  }

  function Masked(s: string): string {
    seq(|s|, i requires 0 <= i < |s| => MaskChar(s[i]))
  }

  function CountRun(chars: string, start: nat, needle: char): (n: nat)
    ensures n > 0 ==> start + n <= |chars|
    decreases |chars| - start
  {
    if start < |chars| && chars[start] == needle then 1 + CountRun(chars, start + 1, needle) else 0
  }

  predicate LineStart(chars: string, idx: nat)
    requires idx <= |chars|
  {
    idx == 0 || chars[idx - 1] == '\n'
  }

  /** A run of at least three backticks or tildes at the start of a line. */
  predicate FenceAt(chars: string, idx: nat)
    requires idx < |chars|
  {
    && (chars[idx] == '`' || chars[idx] == '~')
    && LineStart(chars, idx) && CountRun(chars, idx, chars[idx]) >= 3
  }

  /** The position after the next line break. */
  function LineEnd(chars: string, idx: nat): (end: nat)
    requires idx <= |chars|
    ensures idx <= end <= |chars| && (idx < |chars| ==> idx < end)
    decreases |chars| - idx
  {
    if idx == |chars| then idx else if chars[idx] == '\n' then idx + 1 else LineEnd(chars, idx + 1)
  }

  /** Where the fenced block that began at start ends: after its closing fence line, or with the text. */
  function FenceEnd(chars: string, start: nat, fence: char, len: nat, idx: nat): (end: nat)
    requires start <= idx <= |chars|
    ensures idx <= end <= |chars| && (idx < |chars| ==> idx < end)
    decreases |chars| - idx
  {
    if idx == |chars| then idx
    else if idx != start && LineStart(chars, idx) && CountRun(chars, idx, fence) >= len then LineEnd(chars, idx)
    else FenceEnd(chars, start, fence, len, idx + 1)
  }

  function FindBackticks(chars: string, start: nat, len: nat): (at: Option<nat>)
    requires len > 0
    ensures at.Some? ==> start <= at.value && at.value + len <= |chars|
    decreases |chars| - start
  {
    if start >= |chars| then None
    else if chars[start] == '`' && CountRun(chars, start, '`') >= len then Some(start)
    else FindBackticks(chars, start + 1, len)
  }

  /** The end of the code region that starts at idx, or idx where none does. */
  function CodeEnd(chars: string, idx: nat): (end: nat)
    requires idx < |chars|
    ensures idx <= end <= |chars|
  {
    if FenceAt(chars, idx) then FenceEnd(chars, idx, chars[idx], CountRun(chars, idx, chars[idx]), idx)
    else if chars[idx] == '`' then
      var len := CountRun(chars, idx, '`');
      var close := FindBackticks(chars, idx + len, len);
      if close.Some? then close.value + len else idx
    else idx
  }

  function MaskFrom(chars: string, idx: nat): string
    requires idx <= |chars|
    decreases |chars| - idx
  {
    if idx == |chars| then ""
    else
      var end := CodeEnd(chars, idx);
      if end > idx then Masked(chars[idx..end]) + MaskFrom(chars, end)
      else [chars[idx]] + MaskFrom(chars, idx + 1)
  }

  /** mask_code_regions */
  function Mask(chars: string): string {
    MaskFrom(chars, 0)
  }

  /** Same length, every line break in place, and characters changed only into spaces. */
  predicate MaskedOk(out: string, s: string) {
    |out| == |s| && forall i | 0 <= i < |s| :: out[i] == s[i] || (out[i] == ' ' && s[i] != '\n' && s[i] != '\r')
  }

  lemma MaskedOkJoins(a: string, s: string, b: string, t: string)
    requires MaskedOk(a, s) && MaskedOk(b, t)
    ensures MaskedOk(a + b, s + t)
  {
  }

  lemma {:induction false} MaskFromKeeps(chars: string, idx: nat)
    requires idx <= |chars|
    ensures MaskedOk(MaskFrom(chars, idx), chars[idx..])
    decreases |chars| - idx
  {
    hide CodeEnd, Masked;
    if idx < |chars| {
      var end := CodeEnd(chars, idx);
      var next := if end > idx then end else idx + 1;
      var here := if end > idx then Masked(chars[idx..end]) else [chars[idx]];
      assert MaskedOk(here, chars[idx..next]) by { MaskedIsOk(chars[idx..next]); }
      MaskFromKeeps(chars, next);
      hide MaskedOk;
      MaskedOkJoins(here, chars[idx..next], MaskFrom(chars, next), chars[next..]);
      assert chars[idx..] == chars[idx..next] + chars[next..];
    }
  }

  lemma MaskedIsOk(s: string)
    ensures MaskedOk(Masked(s), s) && MaskedOk(s, s)
  {
  }

  /** Masking keeps the length and every line break, and changes other characters only into spaces. */
  lemma MaskKeepsLines(chars: string)
    ensures |Mask(chars)| == |chars|
    ensures forall i | 0 <= i < |chars| ::
        Mask(chars)[i] == chars[i] || (Mask(chars)[i] == ' ' && chars[i] != '\n' && chars[i] != '\r')
  {
    MaskFromKeeps(chars, 0);
    assert chars[0..] == chars;
  }

  // ----- Scanning

  /** From inside a link: the position of the closing brackets and of the first bar before them. */
  function FindClose(chars: string, cursor: nat, bar: Option<nat>): (r: Option<(nat, Option<nat>)>)
    requires bar.Some? ==> bar.value < cursor
    ensures r.Some? ==>
      && cursor <= r.value.0 && r.value.0 + 1 < |chars|
      && (r.value.1.Some? ==> r.value.1.value < r.value.0 && (r.value.1 == bar || cursor <= r.value.1.value))
    decreases |chars| - cursor
  {
    if cursor + 1 >= |chars| || chars[cursor] == '\n' || chars[cursor] == '\r' then None
    else if chars[cursor] == '|' && bar.None? then FindClose(chars, cursor + 1, Some(cursor))
    else if chars[cursor] == ']' && chars[cursor + 1] == ']' then Some((cursor, bar))
    else FindClose(chars, cursor + 1, bar)
  }

  /** finalize_candidate: both parts trimmed, and neither may be blank. */
  function Finalize(target: string, alias: Option<string>): seq<Link> {
    var t := Trim(target);
    if t == "" || (alias.Some? && Trim(alias.value) == "") then []
    else [Link(t, if alias.Some? then Some(Trim(alias.value)) else None)]
  }

  function Candidate(chars: string, start: nat, close: nat, bar: Option<nat>): seq<Link>
    requires start <= close <= |chars| && (bar.Some? ==> start <= bar.value < close)
  {
    if bar.Some? then Finalize(chars[start..bar.value], Some(chars[bar.value + 1..close]))
    else Finalize(chars[start..close], None)
  }

  function ScanFrom(chars: string, idx: nat): seq<Link>
    decreases |chars| - idx
  {
    if idx + 1 >= |chars| then []
    else if chars[idx] != '[' || chars[idx + 1] != '[' then ScanFrom(chars, idx + 1)
    else
      var r := FindClose(chars, idx + 2, None);
      if r.None? then ScanFrom(chars, idx + 2)
      else Candidate(chars, idx + 2, r.value.0, r.value.1) + ScanFrom(chars, r.value.0 + 2)
  }

  function Numbered(links: seq<Link>): seq<Extracted> {
    seq(|links|, i requires 0 <= i < |links| => Extracted(links[i].target, links[i].alias, i))
  }

  /** extract_wikilinks */
  function Extract(markdown: string): seq<Extracted> {
    Numbered(ScanFrom(Mask(markdown), 0))
  }

  // ----- Rendered text gives its links back

  /** A code span between runs of backticks, or a block between fence lines; info is the rest of the opening line. */
  datatype Piece =
    | Plain(text: string)
    | Linked(link: Link)
    | Code(ticks: nat, body: string)
    | Fenced(mark: char, len: nat, info: string, body: string)

  predicate Free(s: string, bad: string) {
    forall i | 0 <= i < |s| :: s[i] !in bad
  }

  /** No run of backticks as long as the span's own, and none at either end. */
  predicate SpanBody(body: string, ticks: nat) {
    && body != "" && body[0] != '`' && body[|body| - 1] != '`'
    && forall i | 0 <= i < |body| :: CountRun(body, i, '`') < ticks
  }

  /** No line of the block, each ended by a line break, starts with a run as long as its fence. */
  predicate BlockLines(lines: string, mark: char, len: nat) {
    forall i | 0 <= i < |lines| && LineStart(lines, i) :: CountRun(lines, i, mark) < len
  }

  /** Plain text cannot open a link or code; link parts are trimmed and stay on one line; code does not close itself. */
  predicate Clean(p: Piece) {
    match p
    case Plain(text) => Free(text, "[`~")
    case Linked(Link(target, alias)) =>
      && target != "" && Trimmed(target) && Free(target, "]|\n\r`~")
      && (alias.Some? ==> alias.value != "" && Trimmed(alias.value) && Free(alias.value, "]\n\r`~"))
    case Code(ticks, body) => ticks > 0 && SpanBody(body, ticks)
    case Fenced(mark, len, info, body) =>
      && (mark == '`' || mark == '~') && len >= 3 && Free(info, "\n") && (info != "" ==> info[0] != mark)
      && BlockLines(body + "\n", mark, len)
  }

  /** Whether the text up to and including a piece ends with a line break, or is empty. */
  predicate EndsLine(p: Piece, lineStart: bool) {
    var r := RenderPiece(p);
    if r == "" then lineStart else r[|r| - 1] == '\n'
  }

  /** Fenced blocks begin on a line of their own; three backticks there would open one, so spans of that many do not. */
  predicate FitsLine(p: Piece, lineStart: bool) {
    (p.Fenced? ==> lineStart) && (p.Code? && p.ticks >= 3 ==> !lineStart)
  }

  /** Every piece is clean and stands where it is what it is meant to be. */
  predicate WellPlaced(pieces: seq<Piece>, lineStart: bool)
    decreases |pieces|
  {
    pieces == []
    || (&& Clean(pieces[0]) && FitsLine(pieces[0], lineStart)
        && WellPlaced(pieces[1..], EndsLine(pieces[0], lineStart)))
  }

  function Inside(link: Link): string {
    if link.alias.Some? then link.target + "|" + link.alias.value else link.target
  }

  function Repeat(c: char, n: nat): string {
    seq(n, i => c)
  }

  function RenderPiece(p: Piece): string {
    match p
    case Plain(text) => text
    case Linked(link) => "[[" + Inside(link) + "]]"
    case Code(ticks, body) => Repeat('`', ticks) + (body + Repeat('`', ticks))
    case Fenced(mark, len, info, body) =>
      Repeat(mark, len) + ((info + "\n") + ((body + "\n") + (Repeat(mark, len) + "\n")))
  }

  function Render(pieces: seq<Piece>): string {
    if pieces == [] then "" else RenderPiece(pieces[0]) + Render(pieces[1..])
  }

  function LinksOf(pieces: seq<Piece>): seq<Link> {
    if pieces == [] then []
    else (if pieces[0].Linked? then [pieces[0].link] else []) + LinksOf(pieces[1..])
  }

  /** The rendered text once its code is blank. */
  function MaskedPiece(p: Piece): string {
    if p.Code? || p.Fenced? then Masked(RenderPiece(p)) else RenderPiece(p)
  }

  function MaskedRender(pieces: seq<Piece>): string {
    if pieces == [] then "" else MaskedPiece(pieces[0]) + MaskedRender(pieces[1..])
  }

  lemma MaskStep(chars: string, idx: nat)
    requires idx < |chars| && chars[idx] != '`' && chars[idx] != '~'
    ensures MaskFrom(chars, idx) == [chars[idx]] + MaskFrom(chars, idx + 1)
  {
    assert CodeEnd(chars, idx) == idx;
    hide CodeEnd;
  }

  lemma {:induction false} MaskSkips(chars: string, idx: nat, end: nat)
    requires idx <= end <= |chars| && forall i | idx <= i < end :: chars[i] != '`' && chars[i] != '~'
    ensures MaskFrom(chars, idx) == chars[idx..end] + MaskFrom(chars, end)
    decreases end - idx
  {
    hide MaskFrom;
    if idx < end {
      MaskStep(chars, idx);
      MaskSkips(chars, idx + 1, end);
      assert chars[idx..end] == [chars[idx]] + chars[idx + 1..end];
    }
  }

  lemma {:induction false} FindsBackticks(chars: string, start: nat, at: nat, len: nat)
    requires 0 < len && start <= at < |chars| && CountRun(chars, at, '`') >= len
    requires forall i | start <= i < at :: CountRun(chars, i, '`') < len
    ensures FindBackticks(chars, start, len) == Some(at)
    decreases at - start
  {
    if start < at {
      FindsBackticks(chars, start + 1, at, len);
    }
  }

  /** A code span of any length of run is found whole: up to the first run at least as long as the one that opens it. */
  lemma SpanRegion(chars: string, idx: nat, len: nat, close: nat)
    requires 0 < len && idx + len <= close < |chars| && !FenceAt(chars, idx)
    requires CountRun(chars, idx, '`') == len && CountRun(chars, close, '`') >= len
    requires forall i | idx + len <= i < close :: CountRun(chars, i, '`') < len
    ensures CodeEnd(chars, idx) == close + len
  {
    FindsBackticks(chars, idx + len, close, len);
  }

  lemma MaskCode(all: string, idx: nat)
    requires idx < |all| && CodeEnd(all, idx) > idx
    ensures MaskFrom(all, idx) == Masked(all[idx..CodeEnd(all, idx)]) + MaskFrom(all, CodeEnd(all, idx))
  {
    hide CodeEnd, Masked;
  }

  /** A string stands in the text from idx on. */
  predicate StandsAt(all: string, idx: nat, s: string) {
    idx + |s| <= |all| && all[idx..idx + |s|] == s
  }

  lemma StandsEach(all: string, idx: nat, s: string)
    requires StandsAt(all, idx, s)
    ensures forall i | idx <= i < idx + |s| :: all[i] == s[i - idx]
  {
    forall i | idx <= i < idx + |s| ensures all[i] == s[i - idx] {
      assert all[i] == all[idx..idx + |s|][i - idx];
    }
  }

  lemma StandsSplit(all: string, idx: nat, a: string, b: string)
    requires idx <= |all| && all[idx..] == a + b
    ensures StandsAt(all, idx, a) && all[idx + |a|..] == b
  {
    assert |all| == idx + |a| + |b|;
    assert all[idx..idx + |a|] == all[idx..][..|a|];
    assert all[idx + |a|..] == all[idx..][|a|..];
  }

  /** A string that stands in the text does so part by part. */
  lemma StandsParts(all: string, idx: nat, a: string, b: string)
    requires StandsAt(all, idx, a + b)
    ensures StandsAt(all, idx, a) && StandsAt(all, idx + |a|, b)
  {
    var s := all[idx..idx + |a + b|];
    assert all[idx..idx + |a|] == s[..|a|] == a;
    assert all[idx + |a|..idx + |a| + |b|] == s[|a|..] == b;
  }

  /** A run inside a string that does not end with it has the same length in the text. */
  lemma {:induction false} RunWithin(all: string, idx: nat, s: string, i: nat, c: char)
    requires StandsAt(all, idx, s) && i < |s| && s[|s| - 1] != c
    ensures CountRun(all, idx + i, c) == CountRun(s, i, c)
    decreases |s| - i
  {
    StandsEach(all, idx, s);
    if s[i] == c {
      RunWithin(all, idx, s, i + 1, c);
    }
  }

  lemma {:induction false} RunOfRepeat(all: string, idx: nat, c: char, n: nat)
    requires StandsAt(all, idx, Repeat(c, n))
    ensures CountRun(all, idx, c) == n + CountRun(all, idx + n, c)
    decreases n
  {
    if n > 0 {
      StandsEach(all, idx, Repeat(c, n));
      assert Repeat(c, n) == Repeat(c, 1) + Repeat(c, n - 1);
      StandsParts(all, idx, Repeat(c, 1), Repeat(c, n - 1));
      RunOfRepeat(all, idx + 1, c, n - 1);
    }
  }

  lemma StandsIs(all: string, idx: nat, s: string)
    requires StandsAt(all, idx, s)
    ensures idx + |s| <= |all| && all[idx..idx + |s|] == s
  {
  }

  lemma MaskCodeAt(all: string, idx: nat, r: string)
    requires StandsAt(all, idx, r) && r != "" && idx < |all| && CodeEnd(all, idx) == idx + |r|
    ensures MaskFrom(all, idx) == Masked(r) + MaskFrom(all, idx + |r|)
  {
    hide MaskFrom, Masked, CodeEnd, StandsAt;
    StandsIs(all, idx, r);
    MaskCode(all, idx);
  }

  lemma SpanParts(all: string, idx: nat, ticks: nat, body: string)
    requires StandsAt(all, idx, RenderPiece(Code(ticks, body)))
    ensures StandsAt(all, idx, Repeat('`', ticks)) && StandsAt(all, idx + ticks, body)
    ensures StandsAt(all, idx + ticks + |body|, Repeat('`', ticks)) && idx + ticks + |body| + ticks <= |all|
  {
    hide StandsAt;
    var run := Repeat('`', ticks);
    StandsParts(all, idx, run, body + run);
    StandsParts(all, idx + ticks, body, run);
    StandsFits(all, idx + ticks + |body|, run);
  }

  lemma SpanRuns(all: string, idx: nat, ticks: nat, body: string)
    requires ticks > 0 && SpanBody(body, ticks) && StandsAt(all, idx, RenderPiece(Code(ticks, body)))
    ensures
      var close := idx + ticks + |body|;
      && close + ticks <= |all| && CountRun(all, idx, '`') == ticks && CountRun(all, close, '`') >= ticks
      && forall i | idx + ticks <= i < close :: CountRun(all, i, '`') < ticks
  {
    hide StandsAt, RenderPiece, Repeat;
    var close := idx + ticks + |body|;
    SpanParts(all, idx, ticks, body);
    RunOfRepeat(all, idx, '`', ticks);
    RunOfRepeat(all, close, '`', ticks);
    RunWithin(all, idx + ticks, body, 0, '`');
    assert CountRun(body, 0, '`') == 0;
    hide CountRun;
    forall i | idx + ticks <= i < close ensures CountRun(all, i, '`') < ticks {
      RunWithin(all, idx + ticks, body, i - idx - ticks, '`');
    }
  }

  lemma SpanRegionAt(all: string, idx: nat, ticks: nat, body: string)
    requires ticks > 0 && SpanBody(body, ticks) && StandsAt(all, idx, RenderPiece(Code(ticks, body)))
    requires ticks >= 3 ==> !LineStart(all, idx)
    ensures idx < |all| && CodeEnd(all, idx) == idx + 2 * ticks + |body|
  {
    hide CodeEnd, RenderPiece, StandsAt, SpanBody;
    SpanRuns(all, idx, ticks, body);
    assert all[idx] == '`';
    hide CountRun;
    SpanRegion(all, idx, ticks, idx + ticks + |body|);
  }

  lemma {:induction false} FenceGoesOn(chars: string, start: nat, mark: char, len: nat, idx: nat, close: nat)
    requires start <= idx <= close < |chars|
    requires forall i | idx <= i < close && i != start && LineStart(chars, i) :: CountRun(chars, i, mark) < len
    ensures FenceEnd(chars, start, mark, len, idx) == FenceEnd(chars, start, mark, len, close)
    decreases close - idx
  {
    if idx < close {
      FenceGoesOn(chars, start, mark, len, idx + 1, close);
    }
  }

  /**
   A fenced block is found whole, whatever its fence and the rest of its opening line: up to the end
   of the first later line that starts with a run at least as long.
   */
  lemma FencedRegion(all: string, idx: nat, close: nat)
    requires idx < close < |all| && FenceAt(all, idx) && LineStart(all, close)
    requires CountRun(all, close, all[idx]) >= CountRun(all, idx, all[idx])
    requires forall i | idx < i < close && LineStart(all, i) ::
        CountRun(all, i, all[idx]) < CountRun(all, idx, all[idx])
    ensures CodeEnd(all, idx) == LineEnd(all, close)
  {
    FenceGoesOn(all, idx, all[idx], CountRun(all, idx, all[idx]), idx, close);
  }

  lemma {:induction false} LineEndAt(chars: string, idx: nat, end: nat)
    requires idx <= end < |chars| && chars[end] == '\n' && forall i | idx <= i < end :: chars[i] != '\n'
    ensures LineEnd(chars, idx) == end + 1
    decreases end - idx
  {
    if idx < end {
      LineEndAt(chars, idx + 1, end);
    }
  }

  /** Where the parts of a fenced block stand. */
  lemma FenceParts(all: string, idx: nat, mark: char, len: nat, info: string, body: string)
    requires StandsAt(all, idx, RenderPiece(Fenced(mark, len, info, body)))
    ensures
      var head, lines := idx + len, idx + len + |info| + 1;
      var close := lines + |body| + 1;
      && StandsAt(all, idx, Repeat(mark, len)) && StandsAt(all, head, info + "\n") && StandsAt(all, lines, body + "\n")
      && StandsAt(all, close, Repeat(mark, len)) && StandsAt(all, close + len, "\n")
  {
    hide StandsAt;
    var fence, first, rest := Repeat(mark, len), info + "\n", body + "\n";
    StandsParts(all, idx, fence, first + (rest + (fence + "\n")));
    StandsParts(all, idx + len, first, rest + (fence + "\n"));
    StandsParts(all, idx + len + |first|, rest, fence + "\n");
    StandsParts(all, idx + len + |first| + |rest|, fence, "\n");
  }

  lemma NoBreakInRun(all: string, idx: nat, mark: char, len: nat)
    requires StandsAt(all, idx, Repeat(mark, len)) && mark != '\n'
    ensures idx + len <= |all| && forall k | idx <= k < idx + len :: all[k] != '\n'
  {
    StandsEach(all, idx, Repeat(mark, len));
  }

  lemma NoBreakInLine(all: string, from: nat, info: string)
    requires StandsAt(all, from, info + "\n") && Free(info, "\n")
    ensures from + |info| <= |all| && forall k | from <= k < from + |info| :: all[k] != '\n'
  {
    StandsEach(all, from, info + "\n");
    forall k | from <= k < from + |info| ensures all[k] != '\n' {
      assert all[k] == (info + "\n")[k - from] == info[k - from];
    }
  }

  lemma FencedClean(mark: char, len: nat, info: string, body: string)
    requires Clean(Fenced(mark, len, info, body))
    ensures mark != '\n' && (mark == '`' || mark == '~') && len >= 3 && Free(info, "\n")
  {
  }

  lemma OpeningLine(all: string, idx: nat, mark: char, len: nat, info: string, body: string)
    requires Clean(Fenced(mark, len, info, body)) && StandsAt(all, idx, RenderPiece(Fenced(mark, len, info, body)))
    ensures idx + len + |info| <= |all| && forall k | idx <= k < idx + len + |info| :: all[k] != '\n'
  {
    hide RenderPiece, StandsAt, Clean, Free, Repeat;
    FencedClean(mark, len, info, body);
    FenceParts(all, idx, mark, len, info, body);
    NoBreakInRun(all, idx, mark, len);
    NoBreakInLine(all, idx + len, info);
  }

  lemma LineRun(all: string, from: nat, lines: string, mark: char, len: nat, i: nat)
    requires StandsAt(all, from, lines) && BlockLines(lines, mark, len)
    requires from <= i < from + |lines| && i <= |all| && LineStart(all, i) && lines[|lines| - 1] != mark
    ensures CountRun(all, i, mark) < len
  {
    StandsEach(all, from, lines);
    hide CountRun, StandsAt;
    assert LineStart(lines, i - from);
    RunWithin(all, from, lines, i - from, mark);
  }

  /** Between the fences of a clean block no line starts with a run that would close it. */
  lemma NoEarlyClose(all: string, idx: nat, mark: char, len: nat, info: string, body: string, i: nat)
    requires Clean(Fenced(mark, len, info, body)) && StandsAt(all, idx, RenderPiece(Fenced(mark, len, info, body)))
    requires idx < i < idx + len + |info| + |body| + 2 && i <= |all| && LineStart(all, i)
    ensures CountRun(all, i, mark) < len
  {
    hide RenderPiece, StandsAt, CountRun, BlockLines;
    FenceParts(all, idx, mark, len, info, body);
    OpeningLine(all, idx, mark, len, info, body);
    LineRun(all, idx + len + |info| + 1, body + "\n", mark, len, i);
  }

  lemma OpeningRun(all: string, idx: nat, mark: char, len: nat, rest: string)
    requires StandsAt(all, idx, Repeat(mark, len)) && StandsAt(all, idx + len, rest)
    requires len > 0 && rest != "" && rest[0] != mark
    ensures idx < |all| && all[idx] == mark && CountRun(all, idx, mark) == len
  {
    StandsEach(all, idx + len, rest);
    StandsFits(all, idx + len, rest);
    hide StandsAt, Repeat;
    RunOfRepeat(all, idx, mark, len);
  }

  lemma ClosingRun(all: string, close: nat, mark: char, len: nat)
    requires StandsAt(all, close, Repeat(mark, len)) && StandsAt(all, close + len, "\n") && mark != '\n'
    ensures close + len < |all| && CountRun(all, close, mark) >= len && LineEnd(all, close) == close + len + 1
  {
    StandsEach(all, close, Repeat(mark, len));
    StandsEach(all, close + len, "\n");
    StandsFits(all, close + len, "\n");
    hide StandsAt;
    RunOfRepeat(all, close, mark, len);
    LineEndAt(all, close, close + len);
  }

  lemma BreakBefore(all: string, from: nat, text: string)
    requires StandsAt(all, from, text + "\n")
    ensures from + |text| < |all| && all[from + |text|] == '\n'
  {
    StandsEach(all, from, text + "\n");
    StandsFits(all, from, text + "\n");
  }

  /** The runs at both ends of a clean block are its fence, the closing one alone on its line. */
  lemma FenceRuns(all: string, idx: nat, mark: char, len: nat, info: string, body: string)
    requires Clean(Fenced(mark, len, info, body)) && StandsAt(all, idx, RenderPiece(Fenced(mark, len, info, body)))
    ensures
      var close := idx + len + |info| + |body| + 2;
      && close + len < |all| && all[idx] == mark && CountRun(all, idx, mark) == len
      && all[close - 1] == '\n' && CountRun(all, close, mark) >= len && LineEnd(all, close) == close + len + 1
  {
    hide RenderPiece, StandsAt, CountRun, LineEnd, BlockLines, Free;
    FenceParts(all, idx, mark, len, info, body);
    OpeningRun(all, idx, mark, len, info + "\n");
    BreakBefore(all, idx + len + |info| + 1, body);
    ClosingRun(all, idx + len + |info| + |body| + 2, mark, len);
  }

  lemma FencedRegionAt(all: string, idx: nat, mark: char, len: nat, info: string, body: string)
    requires Clean(Fenced(mark, len, info, body)) && StandsAt(all, idx, RenderPiece(Fenced(mark, len, info, body)))
    requires LineStart(all, idx)
    ensures idx < |all| && CodeEnd(all, idx) == idx + 2 * len + |info| + |body| + 3
  {
    hide RenderPiece, CodeEnd, StandsAt, Clean, CountRun, LineEnd, Free, BlockLines;
    var close := idx + len + |info| + |body| + 2;
    FencedClean(mark, len, info, body);
    FenceRuns(all, idx, mark, len, info, body);
    forall i | idx < i < close && LineStart(all, i) ensures CountRun(all, i, mark) < len {
      NoEarlyClose(all, idx, mark, len, info, body, i);
    }
    FencedRegion(all, idx, close);
  }

  lemma MaskTextAt(all: string, idx: nat, r: string)
    requires StandsAt(all, idx, r) && forall i | 0 <= i < |r| :: r[i] != '`' && r[i] != '~'
    ensures MaskFrom(all, idx) == r + MaskFrom(all, idx + |r|)
  {
    hide MaskFrom;
    StandsEach(all, idx, r);
    MaskSkips(all, idx, idx + |r|);
  }

  lemma NoCodeInside(p: Piece)
    requires Clean(p) && !p.Code? && !p.Fenced?
    ensures forall i | 0 <= i < |RenderPiece(p)| :: RenderPiece(p)[i] != '`' && RenderPiece(p)[i] != '~'
  {
    if p.Linked? {
      var inside := Inside(p.link);
      forall i | 0 <= i < |inside| ensures inside[i] != '`' && inside[i] != '~' {
        if p.link.alias.Some? && i > |p.link.target| {
          assert inside[i] == p.link.alias.value[i - |p.link.target| - 1];
        }
      }
    }
  }

  lemma CodeLengths(ticks: nat, span: string, mark: char, len: nat, info: string, block: string)
    ensures |RenderPiece(Code(ticks, span))| == 2 * ticks + |span|
    ensures |RenderPiece(Fenced(mark, len, info, block))| == 2 * len + |info| + |block| + 3
  {
  }

  lemma CodeFacts(p: Piece)
    requires Clean(p)
    ensures p.Code? ==> p.ticks > 0 && SpanBody(p.body, p.ticks)
    ensures p.Fenced? ==> p.len >= 3
  {
  }

  /** Code of any kind is found whole. */
  lemma CodeRegion(all: string, idx: nat, p: Piece)
    requires Clean(p) && (p.Code? || p.Fenced?)
    requires StandsAt(all, idx, RenderPiece(p)) && FitsLine(p, LineStart(all, idx))
    ensures idx < |all| && CodeEnd(all, idx) == idx + |RenderPiece(p)| && RenderPiece(p) != ""
  {
    hide SpanBody, StandsAt, RenderPiece, CodeEnd, LineStart, Clean;
    CodeFacts(p);
    if p.Code? {
      CodeLengths(p.ticks, p.body, '`', 3, "", "");
      SpanRegionAt(all, idx, p.ticks, p.body);
    } else {
      CodeLengths(1, "", p.mark, p.len, p.info, p.body);
      FencedRegionAt(all, idx, p.mark, p.len, p.info, p.body);
    }
  }

  /** A clean piece of code is masked whole, and any other clean piece is left as it is. */
  lemma MaskOnePiece(all: string, idx: nat, p: Piece)
    requires Clean(p) && StandsAt(all, idx, RenderPiece(p)) && FitsLine(p, LineStart(all, idx))
    ensures MaskFrom(all, idx) == MaskedPiece(p) + MaskFrom(all, idx + |RenderPiece(p)|)
  {
    hide MaskFrom, Masked, StandsAt, RenderPiece, CodeEnd, LineStart, Clean, FitsLine;
    if p.Code? || p.Fenced? {
      CodeRegion(all, idx, p);
      MaskCodeAt(all, idx, RenderPiece(p));
    } else {
      NoCodeInside(p);
      MaskTextAt(all, idx, RenderPiece(p));
    }
  }

  lemma {:induction false} MaskRendered(all: string, idx: nat, pieces: seq<Piece>)
    requires idx <= |all| && all[idx..] == Render(pieces) && WellPlaced(pieces, LineStart(all, idx))
    ensures MaskFrom(all, idx) == MaskedRender(pieces)
    decreases |pieces|
  {
    hide RenderPiece, MaskedPiece, Clean, CodeEnd, LineStart, EndsLine, FitsLine;
    if pieces != [] {
      hide MaskFrom, StandsAt;
      var p, rest := pieces[0], pieces[1..];
      StandsSplit(all, idx, RenderPiece(p), Render(rest));
      MaskOnePiece(all, idx, p);
      StandsFits(all, idx, RenderPiece(p));
      LineStartAfter(all, idx, p);
      MaskRendered(all, idx + |RenderPiece(p)|, rest);
    }
  }

  lemma LineStartAfter(all: string, idx: nat, p: Piece)
    requires StandsAt(all, idx, RenderPiece(p))
    ensures LineStart(all, idx + |RenderPiece(p)|) == EndsLine(p, LineStart(all, idx))
  {
    hide RenderPiece;
    StandsEach(all, idx, RenderPiece(p));
  }

  lemma StandsFits(all: string, idx: nat, s: string)
    requires StandsAt(all, idx, s)
    ensures idx + |s| <= |all|
  {
  }

  lemma {:induction false} ScanSkips(chars: string, idx: nat, end: nat)
    requires idx <= end <= |chars| && forall i | idx <= i < end :: chars[i] != '['
    ensures ScanFrom(chars, idx) == ScanFrom(chars, end)
    decreases end - idx
  {
    if idx < end {
      ScanSkips(chars, idx + 1, end);
    }
  }

  /** No bracket, bar or line break on the way: the search goes on. */
  lemma {:induction false} CloseSkips(chars: string, cursor: nat, end: nat, bar: Option<nat>)
    requires cursor <= end < |chars| && (bar.Some? ==> bar.value < cursor)
    requires forall i | cursor <= i < end :: chars[i] !in "]\n\r" && (bar.None? ==> chars[i] != '|')
    ensures FindClose(chars, cursor, bar) == FindClose(chars, end, bar)
    decreases end - cursor
  {
    if cursor < end {
      CloseSkips(chars, cursor + 1, end, bar);
    }
  }

  lemma ScanAtLink(chars: string, idx: nat, close: nat, bar: Option<nat>, found: seq<Link>)
    requires idx + 1 < |chars| && chars[idx] == '[' && chars[idx + 1] == '['
    requires FindClose(chars, idx + 2, None) == Some((close, bar)) && Candidate(chars, idx + 2, close, bar) == found
    ensures ScanFrom(chars, idx) == found + ScanFrom(chars, close + 2)
  {
    hide FindClose, Candidate;
  }

  lemma LinkPlaced(all: string, idx: nat, link: Link)
    requires StandsAt(all, idx, RenderPiece(Linked(link)))
    ensures InsideAt(all, link, idx + 2) && all[idx] == '[' && all[idx + 1] == '['
    ensures |RenderPiece(Linked(link))| == |Inside(link)| + 4
  {
    hide Inside;
    var r, inside := RenderPiece(Linked(link)), Inside(link);
    StandsEach(all, idx, r);
    assert |r| == |inside| + 4 && r[0] == '[' && r[1] == '[' && r[|r| - 2] == ']' && r[|r| - 1] == ']';
    forall i | 0 <= i < |inside| ensures all[idx + 2 + i] == inside[i] {
      assert all[idx + 2 + i] == r[2 + i];
    }
    assert all[idx + 2..idx + 2 + |inside|] == inside;
  }

  lemma InsideFits(chars: string, link: Link, start: nat)
    requires InsideAt(chars, link, start)
    ensures start + |Inside(link)| + 1 < |chars|
  {
  }

  /** A link that stands at some place is read back, and the scan goes on after it. */
  lemma ScanLinkAt(chars: string, link: Link, idx: nat)
    requires Clean(Linked(link)) && InsideAt(chars, link, idx + 2) && chars[idx] == '[' && chars[idx + 1] == '['
    ensures ScanFrom(chars, idx) == [link] + ScanFrom(chars, idx + |Inside(link)| + 4)
  {
    hide ScanFrom, FindClose, Candidate, Clean, Inside, InsideAt;
    var start, close := idx + 2, idx + 2 + |Inside(link)|;
    InsideFits(chars, link, start);
    LinkCloses(chars, link, start);
    LinkCandidate(chars, link, start);
    ScanAtLink(chars, idx, close, LinkBar(link, start), [link]);
  }

  function LinkBar(link: Link, start: nat): Option<nat> {
    if link.alias.Some? then Some(start + |link.target|) else None
  }

  /** The link's inner text stands at start, followed by its closing brackets. */
  predicate InsideAt(chars: string, link: Link, start: nat) {
    var close := start + |Inside(link)|;
    && close + 1 < |chars| && chars[start..close] == Inside(link) && chars[close] == ']' && chars[close + 1] == ']'
  }

  lemma LinkCloses(chars: string, link: Link, start: nat)
    requires Clean(Linked(link)) && InsideAt(chars, link, start)
    ensures FindClose(chars, start, None) == Some((start + |Inside(link)|, LinkBar(link, start)))
  {
    var inside := Inside(link);
    var close := start + |inside|;
    var mid := start + |link.target|;
    assert forall i | start <= i < close :: chars[i] == chars[start..close][i - start];
    assert forall i | start <= i < mid :: chars[i] == link.target[i - start];
    CloseSkips(chars, start, mid, None);
    if link.alias.Some? {
      assert chars[mid] == inside[|link.target|] == '|';
      forall i | mid + 1 <= i < close ensures chars[i] == link.alias.value[i - mid - 1] {
        assert inside[i - start] == link.alias.value[i - mid - 1];
      }
      CloseSkips(chars, mid + 1, close, Some(mid));
    }
  }

  lemma LinkCandidate(chars: string, link: Link, start: nat)
    requires Clean(Linked(link)) && InsideAt(chars, link, start)
    ensures Candidate(chars, start, start + |Inside(link)|, LinkBar(link, start)) == [link]
  {
    hide Trim, Free;
    var inside := Inside(link);
    var close := start + |inside|;
    TrimFixed(link.target);
    if link.alias.Some? {
      var mid := start + |link.target|;
      TrimFixed(link.alias.value);
      assert chars[start..mid] == chars[start..close][..|link.target|] == link.target;
      assert chars[mid + 1..close] == chars[start..close][|link.target| + 1..] == link.alias.value;
    }
  }

  lemma NothingOpens(p: Piece)
    requires Clean(p) && !p.Linked?
    ensures forall i | 0 <= i < |MaskedPiece(p)| :: MaskedPiece(p)[i] != '['
  {
  }

  lemma ScanTextAt(all: string, idx: nat, m: string)
    requires StandsAt(all, idx, m) && forall i | 0 <= i < |m| :: m[i] != '['
    ensures ScanFrom(all, idx) == ScanFrom(all, idx + |m|)
  {
    hide ScanFrom;
    StandsEach(all, idx, m);
    ScanSkips(all, idx, idx + |m|);
  }

  lemma ScanOnePiece(all: string, idx: nat, p: Piece)
    requires Clean(p) && StandsAt(all, idx, MaskedPiece(p))
    ensures
      var after := ScanFrom(all, idx + |MaskedPiece(p)|);
      ScanFrom(all, idx) == if p.Linked? then [p.link] + after else after
  {
    hide ScanFrom, RenderPiece, Masked, Clean, StandsAt, InsideAt;
    if p.Linked? {
      LinkPlaced(all, idx, p.link);
      ScanLinkAt(all, p.link, idx);
    } else {
      NothingOpens(p);
      hide MaskedPiece;
      ScanTextAt(all, idx, MaskedPiece(p));
    }
  }

  lemma {:induction false} ScanRendered(all: string, idx: nat, pieces: seq<Piece>, lineStart: bool)
    requires WellPlaced(pieces, lineStart) && idx <= |all| && all[idx..] == MaskedRender(pieces)
    ensures ScanFrom(all, idx) == LinksOf(pieces)
    decreases |pieces|
  {
    hide MaskedPiece, Clean, EndsLine, FitsLine;
    if pieces != [] {
      hide ScanFrom, StandsAt;
      var p, rest := pieces[0], pieces[1..];
      StandsSplit(all, idx, MaskedPiece(p), MaskedRender(rest));
      ScanOnePiece(all, idx, p);
      StandsFits(all, idx, MaskedPiece(p));
      ScanRendered(all, idx + |MaskedPiece(p)|, rest, EndsLine(p, lineStart));
      assert [] + LinksOf(rest) == LinksOf(rest);
    }
  }

  /**
   Clean links rendered between plain text, code spans and fenced blocks come back exactly, in
   order and numbered from zero; nothing inside code is taken for a link.
   */
  lemma ExtractReturnsLinks(pieces: seq<Piece>)
    requires WellPlaced(pieces, true)
    ensures Extract(Render(pieces)) == Numbered(LinksOf(pieces))
  {
    hide MaskFrom, ScanFrom, Render, MaskedRender, LinksOf, WellPlaced, Numbered;
    var text, blank := Render(pieces), MaskedRender(pieces);
    assert text[0..] == text && blank[0..] == blank;
    MaskRendered(text, 0, pieces);
    ScanRendered(blank, 0, pieces, true);
  }

  // ----- The loops of the code

  method CountRunLoop(chars: string, start: nat, needle: char) returns (count: nat)
    ensures count == CountRun(chars, start, needle)
  {
    count := 0;
    var idx := start;
    while idx < |chars| && chars[idx] == needle
      invariant start <= idx && count + CountRun(chars, idx, needle) == CountRun(chars, start, needle)
      decreases |chars| - idx
    {
      count, idx := count + 1, idx + 1;
    }
  }

  method MaskFencedBlock(chars: string, start: nat, fence: char, len: nat, output: string)
    returns (idx: nat, out: string)
    requires start < |chars|
    ensures idx == FenceEnd(chars, start, fence, len, start)
    ensures out == output + Masked(chars[start..idx])
  {
    idx, out := start, output;
    while idx < |chars|
      invariant start <= idx <= |chars| && out == output + Masked(chars[start..idx])
      invariant FenceEnd(chars, start, fence, len, idx) == FenceEnd(chars, start, fence, len, start)
    {
      if idx != start && LineStart(chars, idx) {
        var run := CountRunLoop(chars, idx, fence);
        if run >= len {
          ghost var goal := LineEnd(chars, idx);
          while idx < |chars|
            invariant start <= idx <= |chars| && out == output + Masked(chars[start..idx])
            invariant LineEnd(chars, idx) == goal
          {
            var c := chars[idx];
            MaskedGrows(chars, start, idx);
            out := out + [MaskChar(c)];
            idx := idx + 1;
            if c == '\n' {
              assert idx == goal;
              return;
            }
          }
          return;
        }
      }
      MaskedGrows(chars, start, idx);
      out := out + [MaskChar(chars[idx])];
      idx := idx + 1;
    }
  }

  lemma MaskedGrows(chars: string, start: nat, idx: nat)
    requires start <= idx < |chars|
    ensures Masked(chars[start..idx + 1]) == Masked(chars[start..idx]) + [MaskChar(chars[idx])]
  {
  }

  method FindBacktickRun(chars: string, start: nat, len: nat) returns (at: Option<nat>)
    requires len > 0
    ensures at == FindBackticks(chars, start, len)
  {
    var idx := start;
    while idx < |chars|
      invariant start <= idx && FindBackticks(chars, idx, len) == FindBackticks(chars, start, len)
      decreases |chars| - idx
    {
      if chars[idx] == '`' {
        var run := CountRunLoop(chars, idx, '`');
        if run >= len {
          return Some(idx);
        }
      }
      idx := idx + 1;
    }
    at := None;
  }

  /** Masks the code region that starts at idx, if one does. */
  method MaskRegion(chars: string, idx: nat, output: string) returns (end: nat, out: string)
    requires idx < |chars|
    ensures end == CodeEnd(chars, idx)
    ensures out == if end > idx then output + Masked(chars[idx..end]) else output
  {
    hide FenceEnd, FindBackticks, Masked;
    end, out := idx, output;
    if FenceAt(chars, idx) {
      var run := CountRunLoop(chars, idx, chars[idx]);
      end, out := MaskFencedBlock(chars, idx, chars[idx], run, output);
    } else if chars[idx] == '`' {
      var run := CountRunLoop(chars, idx, '`');
      var close := FindBacktickRun(chars, idx + run, run);
      if close.Some? {
        end := close.value + run;
        out := output + Masked(chars[idx..end]);
      }
    }
  }

  lemma MaskAdvances(chars: string, idx: nat, output: string)
    requires idx < |chars|
    ensures
      var end := CodeEnd(chars, idx);
      output + MaskFrom(chars, idx) ==
        if end > idx then (output + Masked(chars[idx..end])) + MaskFrom(chars, end)
        else (output + [chars[idx]]) + MaskFrom(chars, idx + 1)
  {
    hide CodeEnd, Masked;
  }

  method MaskCodeRegions(chars: string) returns (output: string)
    ensures output == Mask(chars)
  {
    hide CodeEnd, Masked;
    output := "";
    var idx := 0;
    while idx < |chars|
      invariant idx <= |chars| && output + MaskFrom(chars, idx) == Mask(chars)
      decreases |chars| - idx
    {
      hide MaskFrom;
      MaskAdvances(chars, idx, output);
      var end;
      end, output := MaskRegion(chars, idx, output);
      if end > idx {
        idx := end;
      } else {
        output := output + [chars[idx]];
        idx := idx + 1;
      }
    }
  }

  method ScanTextForWikilinks(chars: string) returns (results: seq<Link>)
    ensures results == ScanFrom(chars, 0)
  {
    hide Candidate;
    results := [];
    var idx := 0;
    while idx + 1 < |chars|
      invariant results + ScanFrom(chars, idx) == ScanFrom(chars, 0)
      decreases |chars| - idx
    {
      if chars[idx] != '[' || chars[idx + 1] != '[' {
        idx := idx + 1;
        continue;
      }
      var found := FindCloseLoop(chars, idx + 2);
      if found.Some? {
        results := results + Candidate(chars, idx + 2, found.value.0, found.value.1);
        idx := found.value.0 + 2;
      } else {
        idx := idx + 2;
      }
    }
  }

  method FindCloseLoop(chars: string, start: nat) returns (found: Option<(nat, Option<nat>)>)
    ensures found == FindClose(chars, start, None)
  {
    var cursor, bar: Option<nat> := start, None;
    while cursor + 1 < |chars|
      invariant start <= cursor && (bar.Some? ==> bar.value < cursor)
      invariant FindClose(chars, cursor, bar) == FindClose(chars, start, None)
      decreases |chars| - cursor
    {
      if chars[cursor] == '\n' || chars[cursor] == '\r' {
        return None;
      }
      if chars[cursor] == '|' && bar.None? {
        bar, cursor := Some(cursor), cursor + 1;
        continue;
      }
      if chars[cursor] == ']' && chars[cursor + 1] == ']' {
        return Some((cursor, bar));
      }
      cursor := cursor + 1;
    }
    found := None;
  }

  method ExtractWikilinks(markdown: string) returns (links: seq<Extracted>)
    ensures links == Extract(markdown)
  {
    hide Mask, ScanFrom;
    var sanitized := MaskCodeRegions(markdown);
    var found := ScanTextForWikilinks(sanitized);
    links := [];
    for ordinal := 0 to |found|
      invariant |links| == ordinal && forall i | 0 <= i < ordinal ::
          links[i] == Extracted(found[i].target, found[i].alias, i)
    {
      links := links + [Extracted(found[ordinal].target, found[ordinal].alias, ordinal)];
    }
  }
}
