/**
 Splitting a long block into overlapping chunks for the index (chunk.rs): windows of at most
 1000 characters that prefer to end after a sentence or line, each overlapping the one before.
 */
module ChunkSplit {
  import opened Text

  const CHUNK_MAX := 1000
  const OVERLAP := 100
  const TARGET := 850

  predicate IsBoundary(c: char) {
    c == '\n' || c == '.' || c == '!' || c == '?' || c == '\U{3002}' || c == '\U{FF01}' || c == '\U{FF1F}'
  }

  /** A window may end at idx: the character before it closes a sentence or line. */
  predicate EndsAt(chars: string, idx: nat)
    requires 0 < idx <= |chars|
  {
    IsBoundary(chars[idx - 1])
  }

  /** The last place in [from, to) where a window may end. */
  function LastEnd(chars: string, from: nat, limit: nat): (idx: Option<nat>)
    requires 0 < from && limit <= |chars| + 1
    ensures idx.Some? ==>
        from <= idx.value < limit && EndsAt(chars, idx.value) && forall k | idx.value < k < limit :: !EndsAt(chars, k)
    ensures idx.None? ==> forall k | from <= k < limit :: !EndsAt(chars, k)
    decreases limit
  {
    if limit <= from then None
    else if EndsAt(chars, limit - 1) then Some(limit - 1)
    else LastEnd(chars, from, limit - 1)
  }

  /** Where the window that starts at start ends: after the last boundary past the overlap, or as far as it may go. */
  function WindowEnd(chars: string, start: nat): (end: nat)
    requires start < |chars|
    ensures start < end <= |chars| && end <= start + CHUNK_MAX
    ensures end < |chars| ==> end > start + OVERLAP
  {
    if start + CHUNK_MAX >= |chars| then |chars|
    else
      var idx := LastEnd(chars, start + OVERLAP + 1, start + CHUNK_MAX);
      if idx.Some? then idx.value else start + CHUNK_MAX
  }

  datatype Window = Window(start: nat, end: nat)

  function NextStart(start: nat, end: nat): nat {
    var next := if end >= OVERLAP then end - OVERLAP else 0;
    if next <= start then end else next
  }

  function Windows(chars: string, start: nat): (ws: seq<Window>)
    requires start < |chars|
    ensures ws != []
    decreases |chars| - start
  {
    var end := WindowEnd(chars, start);
    if end == |chars| then [Window(start, end)] else [Window(start, end)] + Windows(chars, NextStart(start, end))
  }

  function Parts(chars: string, ws: seq<Window>): seq<string>
    requires forall w | w in ws :: w.start <= w.end <= |chars|
  {
    if ws == [] then []
    else
      var last := ws[|ws| - 1];
      var text := Trim(chars[last.start..last.end]);
      Parts(chars, ws[..|ws| - 1]) + if text == "" then [] else [text]
  }

  /** Windows follow each other with an overlap of exactly 100 characters, up to the end of the text. */
  predicate Chained(chars: string, start: nat, ws: seq<Window>) {
    && ws != [] && ws[0].start == start && ws[|ws| - 1].end == |chars|
    && (forall k | 0 <= k < |ws| :: ws[k].start < ws[k].end <= |chars| && ws[k].end <= ws[k].start + CHUNK_MAX)
    && (forall k | 0 <= k < |ws| - 1 :: ws[k + 1].start == ws[k].end - OVERLAP)
  }

  lemma {:induction false} WindowsChained(chars: string, start: nat)
    requires start < |chars|
    ensures Chained(chars, start, Windows(chars, start))
    decreases |chars| - start
  {
    hide LastEnd;
    var ws, end := Windows(chars, start), WindowEnd(chars, start);
    if end < |chars| {
      var next := NextStart(start, end);
      var rest := Windows(chars, next);
      WindowsChained(chars, next);
      assert ws == [Window(start, end)] + rest && next == end - OVERLAP;
      forall k | 0 <= k < |ws| - 1 ensures ws[k + 1].start == ws[k].end - OVERLAP {
        if k > 0 {
          assert ws[k + 1] == rest[k - 1 + 1] && ws[k] == rest[k - 1];
        }
      }
    }
  }

  /** The window after next starts at least 900 characters on. */
  lemma TwoWindowsAdvance(chars: string, start: nat, end: nat, end2: nat)
    requires start < |chars| && end == WindowEnd(chars, start) < |chars|
    requires end2 == WindowEnd(chars, NextStart(start, end)) < |chars|
    ensures NextStart(NextStart(start, end), end2) >= start + CHUNK_MAX - OVERLAP
  {
    hide LastEnd;
    var next := NextStart(start, end);
    var idx := LastEnd(chars, start + OVERLAP + 1, start + CHUNK_MAX);
    if idx.Some? {
      var idx2 := LastEnd(chars, next + OVERLAP + 1, next + CHUNK_MAX);
      assert idx2.Some? ==> EndsAt(chars, idx2.value);
    }
  }

  predicate Advances(ws: seq<Window>) {
    forall k | 0 <= k < |ws| - 2 :: ws[k + 2].start >= ws[k].start + (CHUNK_MAX - OVERLAP)
  }

  lemma {:induction false} WindowsAdvance(chars: string, start: nat)
    requires start < |chars|
    ensures Advances(Windows(chars, start))
    decreases |chars| - start
  {
    hide LastEnd;
    var ws, end := Windows(chars, start), WindowEnd(chars, start);
    if end < |chars| {
      var next := NextStart(start, end);
      var rest := Windows(chars, next);
      WindowsAdvance(chars, next);
      assert ws == [Window(start, end)] + rest;
      var end2 := WindowEnd(chars, next);
      if end2 < |chars| {
        TwoWindowsAdvance(chars, start, end, end2);
        assert rest == [Window(next, end2)] + Windows(chars, NextStart(next, end2));
        assert ws[2] == Windows(chars, NextStart(next, end2))[0];
        WindowsChained(chars, NextStart(next, end2));
      }
      forall k | 0 <= k < |ws| - 2 ensures ws[k + 2].start >= ws[k].start + (CHUNK_MAX - OVERLAP) {
        if k > 0 {
          assert ws[k + 2] == rest[k - 1 + 2] && ws[k] == rest[k - 1];
        }
      }
    }
  }

  lemma {:induction false} EvenStarts(ws: seq<Window>, j: nat)
    requires Advances(ws) && 2 * j < |ws|
    ensures ws[2 * j].start >= 900 * j
  {
    if j > 0 {
      EvenStarts(ws, j - 1);
      assert ws[2 * j - 2 + 2].start >= ws[2 * j - 2].start + (CHUNK_MAX - OVERLAP);
    }
  }

  /** A text of n characters has at most 2 * (n / 900) + 2 windows. */
  lemma FewWindows(chars: string)
    requires |chars| > CHUNK_MAX
    ensures |Windows(chars, 0)| <= 2 * (|chars| / 900) + 2
  {
    var ws := Windows(chars, 0);
    WindowsChained(chars, 0);
    WindowsAdvance(chars, 0);
    hide Windows;
    var j := (|ws| - 1) / 2;
    EvenStarts(ws, j);
    assert ws[2 * j].start < |chars|;
    Quotient(j, |chars|);
  }

  lemma Quotient(j: nat, n: nat)
    requires 900 * j < n
    ensures j <= n / 900
  {
  }

  // ----- No text is lost

  lemma {:induction false} WindowsCover(chars: string, start: nat, i: nat) returns (k: nat)
    requires start <= i < |chars|
    ensures k < |Windows(chars, start)| && Windows(chars, start)[k].start <= i < Windows(chars, start)[k].end
    decreases |chars| - start
  {
    hide LastEnd;
    var end := WindowEnd(chars, start);
    if i < end {
      k := 0;
    } else {
      k := WindowsCover(chars, NextStart(start, end), i);
      k := k + 1;
    }
  }

  lemma {:induction false} PartOf(chars: string, ws: seq<Window>, k: nat)
    requires (forall w | w in ws :: w.start <= w.end <= |chars|) && k < |ws|
    requires Trim(chars[ws[k].start..ws[k].end]) != ""
    ensures Trim(chars[ws[k].start..ws[k].end]) in Parts(chars, ws)
    decreases |ws|
  {
    hide Trim;
    if k < |ws| - 1 {
      assert ws[..|ws| - 1][k] == ws[k];
      PartOf(chars, ws[..|ws| - 1], k);
    }
  }

  /** split_chunk_text */
  function Split(input: string): seq<string> {
    if |input| <= CHUNK_MAX then [Trim(input)]
    else
      WindowsChained(input, 0);
      Parts(input, Windows(input, 0))
  }

  lemma InTheMiddle(pre: string, part: string, post: string, j: nat)
    requires AllSpace(pre) && AllSpace(post) && j < |pre + part + post| && !IsSpace((pre + part + post)[j])
    ensures |pre| <= j < |pre| + |part| && (pre + part + post)[|pre|..|pre| + |part|] == part
  {
    hide IsSpace;
  }

  /** Trimmed text still holds every character that is not white space, at its place. */
  lemma TrimHolds(text: string, j: nat) returns (a: nat)
    requires j < |text| && !IsSpace(text[j])
    ensures a + |Trim(text)| <= |text| && text[a..a + |Trim(text)|] == Trim(text) && a <= j < a + |Trim(text)|
  {
    var pre, post := TrimSplits(text);
    hide Trim, IsSpace, AllSpace;
    InTheMiddle(pre, Trim(text), post, j);
    a := |pre|;
  }

  lemma SliceOfSlice(s: string, from: nat, limit: nat, a: nat, b: nat)
    requires from <= limit <= |s| && a <= b <= limit - from
    ensures s[from..limit][a..b] == s[from + a..from + b]
  {
    var inner, direct := s[from..limit][a..b], s[from + a..from + b];
    forall k | 0 <= k < b - a ensures inner[k] == direct[k] {
      assert inner[k] == s[from..limit][a + k];
    }
  }

  lemma TrimmedStretch(s: string, from: nat, limit: nat, i: nat) returns (part: string, a: nat)
    requires from <= i < limit <= |s| && !IsSpace(s[i])
    ensures part == Trim(s[from..limit])
    ensures a + |part| <= |s| && s[a..a + |part|] == part && a <= i < a + |part|
  {
    hide Trim, IsSpace;
    part := Trim(s[from..limit]);
    var b := TrimHolds(s[from..limit], i - from);
    SliceOfSlice(s, from, limit, b, b + |part|);
    a := from + b;
  }

  /** Every character that is not white space is in some chunk, which is a stretch of the input around it. */
  lemma NothingLost(input: string, i: nat) returns (part: string, a: nat)
    requires i < |input| && !IsSpace(input[i])
    ensures part in Split(input) && a + |part| <= |input| && input[a..a + |part|] == part && a <= i < a + |part|
  {
    hide Trim, IsSpace;
    if |input| <= CHUNK_MAX {
      part := Trim(input);
      a := TrimHolds(input, i);
    } else {
      WindowsChained(input, 0);
      var ws := Windows(input, 0);
      var k := WindowsCover(input, 0, i);
      hide Windows, Parts;
      part, a := TrimmedStretch(input, ws[k].start, ws[k].end, i);
      PartOf(input, ws, k);
    }
  }

  // ----- What a chunk is

  /** Full stop, exclamation mark and question mark, their full-width forms, and the line feed. */
  predicate Closes(c: char) {
    c as int in {10, 33, 46, 63, 0x3002, 0xFF01, 0xFF1F}
  }

  /** A window goes to the end of the text if 1000 characters reach it. Otherwise it ends after the last closing
      character that leaves it longer than 100 and shorter than 1000, or takes 1000 if there is none. */
  lemma WindowEndExactly(chars: string, start: nat, end: nat)
    requires start < |chars|
    ensures end == WindowEnd(chars, start) <==>
      if start + 1000 >= |chars| then end == |chars|
      else
        || (&& start + 101 <= end < start + 1000 && Closes(chars[end - 1])
            && forall k | end <= k < start + 999 :: !Closes(chars[k]))
        || (end == start + 1000 && forall k | start + 100 <= k < start + 999 :: !Closes(chars[k]))
  {
    hide LastEnd;
    if start + 1000 < |chars| {
      var found := LastEnd(chars, start + 101, start + 1000);
      forall k | start + 100 <= k < start + 999
        ensures EndsAt(chars, k + 1) <==> Closes(chars[k])
        ensures Closes(chars[k]) ==> found.Some? && k + 1 <= found.value
      {
        assert found.None? || found.value < k + 1 ==> !EndsAt(chars, k + 1);
      }
    }
  }

  lemma {:induction false} PartsFrom(chars: string, ws: seq<Window>, part: string) returns (k: nat)
    requires (forall w | w in ws :: w.start <= w.end <= |chars|) && part in Parts(chars, ws)
    ensures k < |ws| && part == Trim(chars[ws[k].start..ws[k].end]) && part != ""
    decreases |ws|
  {
    hide Trim;
    var n := |ws| - 1;
    if part in Parts(chars, ws[..n]) {
      k := PartsFrom(chars, ws[..n], part);
    } else {
      k := n;
    }
  }

  lemma TrimShorter(text: string)
    ensures |Trim(text)| <= |text| && Trimmed(Trim(text))
  {
    var pre, post := TrimSplits(text);
    assert |pre + Trim(text) + post| == |pre| + |Trim(text)| + |post|;
  }

  /** Every chunk is trimmed and at most 1000 characters long. A text of more than 1000 has no empty chunk; any other is
      one chunk, the whole of it trimmed. */
  lemma ChunksAre(input: string, part: string)
    requires part in Split(input)
    ensures Trimmed(part) && |part| <= 1000 && (|input| > 1000 ==> part != "")
    ensures |input| <= 1000 ==> Split(input) == [Trim(input)]
  {
    hide Trim, IsSpace;
    if |input| <= 1000 {
      TrimShorter(input);
    } else {
      WindowsChained(input, 0);
      var ws := Windows(input, 0);
      hide Windows;
      var k := PartsFrom(input, ws, part);
      TrimShorter(input[ws[k].start..ws[k].end]);
    }
  }

  // ----- The loops of the code

  method SearchBack(chars: string, from: nat, limit: nat) returns (idx: Option<nat>)
    requires 0 < from && limit <= |chars| + 1
    ensures idx == LastEnd(chars, from, limit)
  {
    var k: nat := limit;
    while k > from
      invariant k <= limit && LastEnd(chars, from, limit) == LastEnd(chars, from, k)
    {
      k := k - 1;
      if EndsAt(chars, k) {
        return Some(k);
      }
    }
    idx := None;
  }

  lemma SearchInTwo(chars: string, from: nat, mid: nat, limit: nat)
    requires 0 < from <= mid <= limit <= |chars| + 1
    ensures LastEnd(chars, from, limit) ==
      if LastEnd(chars, mid, limit).Some? then LastEnd(chars, mid, limit) else LastEnd(chars, from, mid)
  {
  }

  method FindEnd(chars: string, start: nat) returns (end: nat)
    requires start < |chars|
    ensures end == WindowEnd(chars, start)
  {
    hide LastEnd;
    var upper := if start + CHUNK_MAX <= |chars| then start + CHUNK_MAX else |chars|;
    end := upper;
    if upper < |chars| {
      var target := start + TARGET;
      var boundary := SearchBack(chars, target, upper);
      if boundary.None? {
        boundary := SearchBack(chars, start + OVERLAP + 1, target);
      }
      SearchInTwo(chars, start + OVERLAP + 1, target, upper);
      if boundary.Some? {
        end := boundary.value;
      }
    }
  }

  method SplitChunkText(input: string) returns (parts: seq<string>)
    ensures parts == Split(input)
  {
    hide Trim, WindowEnd, Parts;
    if |input| <= CHUNK_MAX {
      return [Trim(input)];
    }
    WindowsChained(input, 0);
    parts := [];
    ghost var goal := Windows(input, 0);
    ghost var done: seq<Window> := [];
    assert parts == Parts(input, done) by { NoParts(input); }
    var start := 0;
    while start < |input|
      invariant start < |input| ==> done + Windows(input, start) == goal
      invariant start >= |input| ==> done == goal
      invariant start <= |input|
      invariant forall w | w in done :: w.start <= w.end <= |input|
      invariant parts == Parts(input, done)
      decreases |input| - start
    {
      var end := FindEnd(input, start);
      AddPart(input, done, Window(start, end));
      done := done + [Window(start, end)];
      var trimmed := Trim(input[start..end]);
      if trimmed != "" {
        parts := parts + [trimmed];
      }
      if end == |input| {
        break;
      }
      start := NextStart(start, end);
    }
  }

  lemma NoParts(chars: string)
    ensures Parts(chars, []) == []
  {
  }

  lemma AddPart(chars: string, ws: seq<Window>, w: Window)
    requires (forall x | x in ws :: x.start <= x.end <= |chars|) && w.start <= w.end <= |chars|
    ensures (forall x | x in ws + [w] :: x.start <= x.end <= |chars|)
    ensures
      var text := Trim(chars[w.start..w.end]);
      Parts(chars, ws + [w]) == Parts(chars, ws) + if text == "" then [] else [text]
  {
    hide Trim;
    assert (ws + [w])[..|ws|] == ws;
  }
}
