/**
 What the wikilink extractor does with any text at all (wikilink.rs), stray brackets and
 unclosed code included: which stretch each code region covers, where a link ends, and that
 the scan reads exactly the leftmost links that do not overlap.
 */
module WikilinkScan {
  import opened Text
  import opened Wikilink

  // ----- Code regions

  /** A fence that no later line closes runs to the end of the text. */
  lemma {:induction false} FenceRunsOn(chars: string, start: nat, mark: char, len: nat, idx: nat)
    requires start <= idx <= |chars|
    requires forall i | idx <= i < |chars| && i != start && LineStart(chars, i) :: CountRun(chars, i, mark) < len
    ensures FenceEnd(chars, start, mark, len, idx) == |chars|
    decreases |chars| - idx
  {
    if idx < |chars| { FenceRunsOn(chars, start, mark, len, idx + 1); }
  }

  lemma {:induction false} NoBackticks(chars: string, start: nat, len: nat)
    requires len > 0 && forall i | start <= i < |chars| :: CountRun(chars, i, '`') < len
    ensures FindBackticks(chars, start, len).None?
    decreases |chars| - start
  {
    if start < |chars| { NoBackticks(chars, start + 1, len); }
  }

  /** Without a closing run, a fence covers the rest of the text and a run of backticks covers nothing; no other
      character starts code. */
  lemma UnclosedCode(chars: string, idx: nat)
    requires idx < |chars|
    ensures FenceAt(chars, idx)
            && (forall i | idx < i < |chars| && LineStart(chars, i) ::
                  CountRun(chars, i, chars[idx]) < CountRun(chars, idx, chars[idx]))
        ==> CodeEnd(chars, idx) == |chars|
    ensures !FenceAt(chars, idx) && chars[idx] == '`'
            && (forall i | idx + CountRun(chars, idx, '`') <= i < |chars| ::
                  CountRun(chars, i, '`') < CountRun(chars, idx, '`'))
        ==> CodeEnd(chars, idx) == idx
    ensures chars[idx] != '`' && chars[idx] != '~' ==> CodeEnd(chars, idx) == idx
  {
    hide FenceEnd, FindBackticks;
    if FenceAt(chars, idx) {
      var mark, len := chars[idx], CountRun(chars, idx, chars[idx]);
      if forall i | idx < i < |chars| && LineStart(chars, i) :: CountRun(chars, i, mark) < len {
        FenceRunsOn(chars, idx, mark, len, idx);
      }
    } else if chars[idx] == '`' {
      var len := CountRun(chars, idx, '`');
      assert len > 0;
      if forall i | idx + len <= i < |chars| :: CountRun(chars, i, '`') < len {
        NoBackticks(chars, idx + len, len);
      }
    }
  }

  /** A stretch of code. */
  datatype Region = Region(start: nat, end: nat)

  predicate RegionsOk(chars: string, regions: seq<Region>, from: nat)
    decreases |regions|
  {
    regions == []
    || (&& from <= regions[0].start < regions[0].end <= |chars|
        && CodeEnd(chars, regions[0].start) == regions[0].end
        && RegionsOk(chars, regions[1..], regions[0].end))
  }

  predicate InRegion(regions: seq<Region>, i: nat) {
    exists r | r in regions :: r.start <= i < r.end
  }

  /** Position i of the text in a masked output from idx on: blank inside code except for line breaks, and as it is
      elsewhere. */
  predicate MaskedAt(chars: string, out: string, idx: nat, regions: seq<Region>, i: nat)
    requires idx <= i < |chars| && |out| == |chars| - idx
  {
    if InRegion(regions, i) then out[i - idx] == (if chars[i] == '\n' || chars[i] == '\r' then chars[i] else ' ')
    else out[i - idx] == chars[i] && CodeEnd(chars, i) == i
  }

  /** Masking blanks exactly the code regions, taken from left to right without overlap; where it leaves a character,
      no region starts. */
  lemma {:induction false} MaskExactly(chars: string, idx: nat) returns (regions: seq<Region>)
    requires idx <= |chars|
    ensures RegionsOk(chars, regions, idx) && forall r | r in regions :: r.start >= idx
    ensures |MaskFrom(chars, idx)| == |chars| - idx
    ensures forall i | idx <= i < |chars| :: MaskedAt(chars, MaskFrom(chars, idx), idx, regions, i)
    decreases |chars| - idx
  {
    hide CodeEnd;
    regions := [];
    if idx < |chars| {
      var end := CodeEnd(chars, idx);
      if end > idx {
        var rest := MaskExactly(chars, end);
        regions := [Region(idx, end)] + rest;
        RegionAdded(chars, idx, end, rest);
      } else {
        regions := MaskExactly(chars, idx + 1);
        RegionsFrom(chars, regions, idx, idx + 1);
        NoRegionHere(chars, idx, idx + 1, regions);
      }
    }
  }

  lemma RegionsFrom(chars: string, regions: seq<Region>, from: nat, later: nat)
    requires RegionsOk(chars, regions, later) && from <= later
    ensures RegionsOk(chars, regions, from)
  {
  }

  lemma NoRegionHere(chars: string, idx: nat, next: nat, regions: seq<Region>)
    requires idx < |chars| && next == idx + 1 && CodeEnd(chars, idx) == idx
    requires forall r | r in regions :: r.start >= next
    requires |MaskFrom(chars, next)| == |chars| - next
    requires forall i | next <= i < |chars| :: MaskedAt(chars, MaskFrom(chars, next), next, regions, i)
    ensures |MaskFrom(chars, idx)| == |chars| - idx
    ensures forall i | idx <= i < |chars| :: MaskedAt(chars, MaskFrom(chars, idx), idx, regions, i)
  {
    hide CodeEnd;
    var out, rest := MaskFrom(chars, idx), MaskFrom(chars, next);
    assert out == [chars[idx]] + rest;
    hide MaskFrom;
    forall i | idx <= i < |chars| ensures MaskedAt(chars, out, idx, regions, i) {
      if i > idx { assert MaskedAt(chars, rest, next, regions, i) && out[i - idx] == rest[i - next]; }
    }
  }

  lemma RegionAdded(chars: string, idx: nat, end: nat, rest: seq<Region>)
    requires idx < end <= |chars| && CodeEnd(chars, idx) == end && forall r | r in rest :: r.start >= end
    requires |MaskFrom(chars, end)| == |chars| - end
    requires forall i | end <= i < |chars| :: MaskedAt(chars, MaskFrom(chars, end), end, rest, i)
    ensures |MaskFrom(chars, idx)| == |chars| - idx
    ensures
      var regions := [Region(idx, end)] + rest;
      forall i | idx <= i < |chars| :: MaskedAt(chars, MaskFrom(chars, idx), idx, regions, i)
  {
    hide CodeEnd;
    var out, later := MaskFrom(chars, idx), MaskFrom(chars, end);
    var regions := [Region(idx, end)] + rest;
    assert out == Masked(chars[idx..end]) + later;
    hide MaskFrom;
    assert regions[0] in regions;
    forall i | idx <= i < |chars| ensures MaskedAt(chars, out, idx, regions, i) {
      if i >= end {
        assert MaskedAt(chars, later, end, rest, i) && out[i - idx] == later[i - end];
        SameCover(regions[0], rest, i);
      } else {
        assert InRegion(regions, i);
      }
    }
  }

  lemma SameCover(first: Region, rest: seq<Region>, i: nat)
    requires i >= first.end
    ensures InRegion([first] + rest, i) <==> InRegion(rest, i)
  {
    if InRegion(rest, i) {
      var r :| r in rest && r.start <= i < r.end;
      assert r in [first] + rest;
    }
  }

  // ----- Where a link ends

  predicate Brackets(chars: string, i: nat, c: char) {
    i + 1 < |chars| && chars[i] == c && chars[i + 1] == c
  }

  /** The first closing brackets from start on, with no line break before them. */
  predicate ClosesAt(chars: string, start: nat, close: nat) {
    && start <= close && Brackets(chars, close, ']')
    && forall k | start <= k < close :: chars[k] != '\n' && chars[k] != '\r' && !Brackets(chars, k, ']')
  }

  ghost predicate Closable(chars: string, start: nat) {
    exists close: nat :: ClosesAt(chars, start, close)
  }

  /** The first bar between the two places, if there is one. */
  predicate FirstBar(chars: string, start: nat, close: nat, bar: Option<nat>)
    requires close <= |chars|
  {
    match bar
    case None => forall k | start <= k < close :: chars[k] != '|'
    case Some(b) => start <= b < close && chars[b] == '|' && forall k | start <= k < b :: chars[k] != '|'
  }

  /** The bar that the search carries along: the one it has, or the first one it meets. */
  predicate Carried(chars: string, cursor: nat, close: nat, had: Option<nat>, bar: Option<nat>)
    requires close <= |chars|
  {
    if had.Some? then bar == had else FirstBar(chars, cursor, close, bar)
  }

  lemma {:induction false} FindsClose(chars: string, cursor: nat, had: Option<nat>)
    requires had.Some? ==> had.value < cursor
    ensures
      var r := FindClose(chars, cursor, had);
      && (r.Some? ==>
            && r.value.0 <= |chars| && ClosesAt(chars, cursor, r.value.0)
            && Carried(chars, cursor, r.value.0, had, r.value.1))
      && (r.None? ==> !Closable(chars, cursor))
    decreases |chars| - cursor
  {
    if cursor + 1 >= |chars| || chars[cursor] == '\n' || chars[cursor] == '\r' {
      NotHere(chars, cursor);
    } else if !Brackets(chars, cursor, ']') {
      var next := if chars[cursor] == '|' && had.None? then Some(cursor) else had;
      FindsClose(chars, cursor + 1, next);
      forall close: nat ensures ClosesAt(chars, cursor, close) <==> ClosesAt(chars, cursor + 1, close) {
        OneOn(chars, cursor, close);
      }
    }
  }

  lemma NotHere(chars: string, cursor: nat)
    requires cursor + 1 >= |chars| || chars[cursor] == '\n' || chars[cursor] == '\r'
    ensures !Closable(chars, cursor)
  {
  }

  lemma OneOn(chars: string, cursor: nat, close: nat)
    requires cursor + 1 < |chars| && chars[cursor] != '\n' && chars[cursor] != '\r' && !Brackets(chars, cursor, ']')
    ensures ClosesAt(chars, cursor, close) <==> ClosesAt(chars, cursor + 1, close)
  {
  }

  lemma OneClose(chars: string, start: nat, a: nat, b: nat)
    requires ClosesAt(chars, start, a) && ClosesAt(chars, start, b)
    ensures a == b
  {
  }

  /** A link that opens before start ends at the first closing brackets on the same line, with the first bar before
      them; without such brackets there is none. */
  lemma CloseExactly(chars: string, start: nat, close: nat, bar: Option<nat>)
    ensures FindClose(chars, start, None) == Some((close, bar))
       <==> ClosesAt(chars, start, close) && FirstBar(chars, start, close, bar)
  {
    FindsClose(chars, start, None);
    var r := FindClose(chars, start, None);
    hide FindClose;
    if ClosesAt(chars, start, close) {
      OneClose(chars, start, close, r.value.0);
    }
  }

  // ----- What the scan reads

  /** Where a link stands: its opening brackets, its closing ones and its bar. */
  datatype Span = Span(open: nat, close: nat, bar: Option<nat>)

  predicate Genuine(chars: string, s: Span) {
    && Brackets(chars, s.open, '[') && ClosesAt(chars, s.open + 2, s.close)
    && FirstBar(chars, s.open + 2, s.close, s.bar)
  }

  /** What a span reads as: its parts without white space around them, or nothing if one of them is blank. */
  function ReadSpan(chars: string, s: Span): seq<Link>
    requires Genuine(chars, s)
  {
    var end := if s.bar.Some? then s.bar.value else s.close;
    var target := Trim(chars[s.open + 2..end]);
    var alias := if s.bar.Some? then Some(Trim(chars[s.bar.value + 1..s.close])) else None;
    if target == "" || alias == Some("") then [] else [Link(target, alias)]
  }

  function ReadAll(chars: string, spans: seq<Span>): seq<Link>
    requires forall s | s in spans :: Genuine(chars, s)
  {
    if spans == [] then [] else ReadSpan(chars, spans[0]) + ReadAll(chars, spans[1..])
  }

  /** In order, from a place on, without overlap. */
  predicate InTurn(spans: seq<Span>, from: nat)
    decreases |spans|
  {
    spans == [] || (from <= spans[0].open && InTurn(spans[1..], spans[0].close + 2))
  }

  predicate Covers(s: Span, i: nat) {
    s.open <= i < s.close + 2
  }

  /** Every place from idx on where a link could start lies inside one that was read. */
  ghost predicate Complete(chars: string, spans: seq<Span>, idx: nat) {
    forall i: nat | idx <= i && Brackets(chars, i, '[') && Closable(chars, i + 2) ::
      exists s | s in spans :: Covers(s, i)
  }

  /** The spans are what the scan reads from a place on. */
  ghost predicate Scanned(chars: string, idx: nat, spans: seq<Span>) {
    && (forall s | s in spans :: Genuine(chars, s)) && InTurn(spans, idx) && Complete(chars, spans, idx)
    && ScanFrom(chars, idx) == ReadAll(chars, spans)
  }

  lemma CandidateReads(chars: string, s: Span)
    requires Genuine(chars, s)
    ensures Candidate(chars, s.open + 2, s.close, s.bar) == ReadSpan(chars, s)
  {
    hide Trim;
  }

  lemma {:induction false} InTurnFrom(spans: seq<Span>, from: nat, later: nat)
    requires InTurn(spans, later) && from <= later
    ensures InTurn(spans, from)
  {
  }

  lemma OpenBracketPasses(chars: string, i: nat)
    requires i + 1 < |chars| && chars[i] == '[' && Closable(chars, i + 1)
    ensures Closable(chars, i)
  {
    var close: nat :| ClosesAt(chars, i + 1, close);
    OneOn(chars, i, close);
  }

  /** After brackets that nothing closes, none that overlap them can be closed either. */
  lemma SkipsNothing(chars: string, idx: nat)
    requires Brackets(chars, idx, '[') && !Closable(chars, idx + 2)
    ensures Brackets(chars, idx + 1, '[') ==> !Closable(chars, idx + 3)
  {
    if idx + 3 < |chars| && chars[idx + 2] == '[' && Closable(chars, idx + 3) {
      OpenBracketPasses(chars, idx + 2);
    }
  }

  lemma CompleteFrom(chars: string, spans: seq<Span>, idx: nat, later: nat)
    requires Complete(chars, spans, later) && idx <= later
    requires forall i: nat | idx <= i < later :: !(Brackets(chars, i, '[') && Closable(chars, i + 2))
    ensures Complete(chars, spans, idx)
  {
    hide Closable, Brackets;
  }

  lemma CompleteWith(chars: string, s: Span, rest: seq<Span>)
    requires Complete(chars, rest, s.close + 2)
    ensures Complete(chars, [s] + rest, s.open)
  {
    hide Closable, Brackets;
    forall i: nat | s.open <= i && Brackets(chars, i, '[') && Closable(chars, i + 2)
      ensures exists x | x in [s] + rest :: Covers(x, i)
    {
      if i < s.close + 2 {
        assert s in [s] + rest && Covers(s, i);
      } else {
        var x :| x in rest && Covers(x, i);
        assert x in [s] + rest;
      }
    }
  }

  /** The scan from any place on reads links that stand in the text, in order and without overlap, and reads every
      link: wherever brackets open that close on their line, a link was read that covers the place. */
  lemma {:induction false} ScanExactly(chars: string, idx: nat) returns (spans: seq<Span>)
    ensures Scanned(chars, idx, spans)
    decreases |chars| - idx
  {
    hide Closable, FindClose, Candidate, ReadSpan;
    if idx + 1 >= |chars| {
      spans := [];
    } else if !Brackets(chars, idx, '[') {
      spans := ScanExactly(chars, idx + 1);
      InTurnFrom(spans, idx, idx + 1);
      CompleteFrom(chars, spans, idx, idx + 1);
    } else {
      var r := FindClose(chars, idx + 2, None);
      FindsClose(chars, idx + 2, None);
      if r.None? {
        spans := ScanExactly(chars, idx + 2);
        SkipsNothing(chars, idx);
        InTurnFrom(spans, idx, idx + 2);
        CompleteFrom(chars, spans, idx, idx + 2);
      } else {
        var s := Span(idx, r.value.0, r.value.1);
        var rest := ScanExactly(chars, s.close + 2);
        spans := AddSpan(chars, s, rest);
      }
    }
  }

  lemma AddSpan(chars: string, s: Span, rest: seq<Span>) returns (spans: seq<Span>)
    requires Genuine(chars, s) && FindClose(chars, s.open + 2, None) == Some((s.close, s.bar))
    requires Scanned(chars, s.close + 2, rest)
    ensures Scanned(chars, s.open, spans)
  {
    hide Closable, FindClose, Candidate, ReadSpan;
    spans := [s] + rest;
    CandidateReads(chars, s);
    CompleteWith(chars, s, rest);
    assert spans[1..] == rest;
  }

  /** The extracted links, for any text: those the scan reads in the text with its code blanked, numbered in order. */
  lemma ExtractExactly(markdown: string) returns (spans: seq<Span>)
    ensures Scanned(Mask(markdown), 0, spans)
    ensures
      var links, found := ReadAll(Mask(markdown), spans), Extract(markdown);
      && |found| == |links|
      && forall i | 0 <= i < |found| ::
           found[i].target == links[i].target && found[i].alias == links[i].alias && found[i].ordinal == i
  {
    hide ScanFrom, MaskFrom;
    spans := ScanExactly(Mask(markdown), 0);
  }
}
