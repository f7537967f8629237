/**
 String operations that the server (Go) and the desktop crates (Rust) share: trimming of
 Unicode white space, ASCII lower-casing, and the byte-wise order used for sorting ids.
 */
module Text {

  datatype Option<+T> = None | Some(value: T)

  /** The Unicode White_Space property, as both strings.TrimSpace and str::trim use it. */
  predicate IsSpace(c: char) {
    var n := c as int;
    || 0x09 <= n <= 0x0D || n == 0x20 || n == 0x85 || n == 0xA0 || n == 0x1680
    || 0x2000 <= n <= 0x200A || n == 0x2028 || n == 0x2029 || n == 0x202F || n == 0x205F || n == 0x3000
  }

  function TrimLeft(s: string): string {
    if s != [] && IsSpace(s[0]) then TrimLeft(s[1..]) else s
  }

  function TrimRight(s: string): string {
    if s != [] && IsSpace(s[|s| - 1]) then TrimRight(s[..|s| - 1]) else s
  }

  function Trim(s: string): string {
    TrimRight(TrimLeft(s))
  }

  predicate AllSpace(s: string) {
    forall i | 0 <= i < |s| :: IsSpace(s[i])
  }

  /** A string with no white space at either end. */
  predicate Trimmed(s: string) {
    s == [] || (!IsSpace(s[0]) && !IsSpace(s[|s| - 1]))
  }

  lemma {:induction false} TrimLeftSplits(s: string) returns (pre: string)
    ensures s == pre + TrimLeft(s) && AllSpace(pre)
    ensures TrimLeft(s) == [] || !IsSpace(TrimLeft(s)[0])
  {
    if s != [] && IsSpace(s[0]) {
      var rest := TrimLeftSplits(s[1..]);
      pre := [s[0]] + rest;
    } else {
      pre := [];
    }
  }

  lemma {:induction false} TrimRightSplits(s: string) returns (post: string)
    ensures s == TrimRight(s) + post && AllSpace(post)
    ensures TrimRight(s) == [] || !IsSpace(TrimRight(s)[|TrimRight(s)| - 1])
  {
    if s != [] && IsSpace(s[|s| - 1]) {
      var rest := TrimRightSplits(s[..|s| - 1]);
      post := rest + [s[|s| - 1]];
    } else {
      post := [];
    }
  }

  /** Trimming removes a run of white space at each end and nothing else. */
  lemma TrimSplits(s: string) returns (pre: string, post: string)
    ensures s == pre + Trim(s) + post
    ensures AllSpace(pre) && AllSpace(post) && Trimmed(Trim(s))
  {
    pre := TrimLeftSplits(s);
    post := TrimRightSplits(TrimLeft(s));
    if Trim(s) != [] {
      assert Trim(s)[0] == TrimLeft(s)[0];
    }
  }

  /** The strings trimming leaves alone are exactly the trimmed ones, so it is idempotent. */
  lemma TrimFixed(s: string)
    ensures Trim(s) == s <==> Trimmed(s)
    ensures Trim(Trim(s)) == Trim(s)
  {
    var pre, post := TrimSplits(s);
  }

  // ----- ASCII lower case and hexadecimal digests

  function LowerChar(c: char): char {
    if 'A' <= c <= 'Z' then c - 'A' + 'a' else c
  }

  function Lower(s: string): (r: string)
    ensures |r| == |s|
  {
    seq(|s|, i requires 0 <= i < |s| => LowerChar(s[i]))
  }

  /** Lower case changes exactly the 26 capital letters, each by 32. */
  lemma LowerIs(s: string, i: nat)
    requires i < |s|
    ensures Lower(s)[i] as int == s[i] as int + if 65 <= s[i] as int <= 90 then 32 else 0
  {
  }

  predicate IsHexDigit(c: char) {
    '0' <= c <= '9' || 'a' <= c <= 'f' || 'A' <= c <= 'F'
  }

  const SHA256_HEX_LENGTH := 64

  predicate IsSha256Hex(s: string) {
    |s| == SHA256_HEX_LENGTH && forall i | 0 <= i < |s| :: IsHexDigit(s[i])
  }

  /** The digest form both validators reduce their argument to. */
  function NormalDigest(s: string): string {
    Lower(Trim(s))
  }

  lemma LowerTrimmed(s: string)
    requires Trimmed(s)
    ensures Trimmed(Lower(s)) && Lower(Lower(s)) == Lower(s)
  {
    assert Lower(Lower(s)) == Lower(s);
  }

  lemma NormalDigestIdempotent(s: string)
    ensures NormalDigest(NormalDigest(s)) == NormalDigest(s)
  {
    var pre, post := TrimSplits(s);
    LowerTrimmed(Trim(s));
    TrimFixed(Lower(Trim(s)));
  }

  // ----- Sorting

  /** Byte-wise order of UTF-8 strings, which is the order of their code points. */
  predicate LexLe(a: string, b: string) {
    a == [] || (b != [] && (a[0] < b[0] || (a[0] == b[0] && LexLe(a[1..], b[1..]))))
  }

  lemma {:induction false} LexTotal(a: string, b: string)
    ensures LexLe(a, b) || LexLe(b, a)
    ensures LexLe(a, b) && LexLe(b, a) ==> a == b
  {
    if a != [] && b != [] && a[0] == b[0] {
      LexTotal(a[1..], b[1..]);
      assert a == [a[0]] + a[1..] && b == [b[0]] + b[1..];
    }
  }

  lemma {:induction false} LexTransitive(a: string, b: string, c: string)
    requires LexLe(a, b) && LexLe(b, c)
    ensures LexLe(a, c)
  {
    if a != [] && a[0] == b[0] && b[0] == c[0] {
      LexTransitive(a[1..], b[1..], c[1..]);
    }
  }

  predicate Sorted(s: seq<string>) {
    forall i, j | 0 <= i < j < |s| :: LexLe(s[i], s[j])
  }

  function Insert(x: string, s: seq<string>): seq<string> {
    if s == [] then [x]
    else if LexLe(x, s[0]) then [x] + s
    else [s[0]] + Insert(x, s[1..])
  }

  function Sort(s: seq<string>): seq<string> {
    if s == [] then [] else Insert(s[0], Sort(s[1..]))
  }

  lemma {:induction false} InsertSorted(x: string, s: seq<string>)
    requires Sorted(s)
    ensures Sorted(Insert(x, s)) && multiset(Insert(x, s)) == multiset(s) + multiset{x}
  {
    hide LexLe;
    if s == [] {
    } else if LexLe(x, s[0]) {
      forall i | 0 <= i < |s| ensures LexLe(x, s[i]) {
        if i > 0 { LexTransitive(x, s[0], s[i]); }
      }
    } else {
      InsertSorted(x, s[1..]);
      LexTotal(x, s[0]);
      var t := Insert(x, s[1..]);
      assert s == [s[0]] + s[1..];
      forall i | 0 <= i < |t| ensures LexLe(s[0], t[i]) {
        assert t[i] in multiset(t);
        if t[i] != x { assert t[i] in multiset(s[1..]); }
      }
    }
  }

  /** Sort returns the ordered permutation of its argument. */
  lemma {:induction false} SortCorrect(s: seq<string>)
    ensures Sorted(Sort(s)) && multiset(Sort(s)) == multiset(s)
  {
    if s != [] {
      SortCorrect(s[1..]);
      InsertSorted(s[0], Sort(s[1..]));
      assert s == [s[0]] + s[1..];
    }
  }

  lemma SortedFirst(s: seq<string>, x: string)
    requires Sorted(s) && s != [] && x in multiset(s)
    ensures LexLe(s[0], x)
  {
    LexTotal(x, x);
  }

  lemma SortedTail(s: seq<string>)
    requires Sorted(s) && s != []
    ensures Sorted(s[1..]) && multiset(s[1..]) == multiset(s) - multiset{s[0]}
  {
    assert s == [s[0]] + s[1..];
  }

  /** There is only one such permutation, so every correct sort computes the same list. */
  lemma {:induction false} SortUnique(a: seq<string>, b: seq<string>)
    requires Sorted(a) && Sorted(b) && multiset(a) == multiset(b)
    ensures a == b
  {
    hide Sorted, LexLe;
    assert |a| == |multiset(a)| == |b|;
    if a != [] {
      SortedFirst(a, b[0]);
      SortedFirst(b, a[0]);
      LexTotal(a[0], b[0]);
      SortedTail(a);
      SortedTail(b);
      SortUnique(a[1..], b[1..]);
      assert a == [a[0]] + a[1..] && b == [b[0]] + b[1..];
    }
  }

  lemma SortIdempotent(s: seq<string>)
    ensures Sort(Sort(s)) == Sort(s)
  {
    SortCorrect(s);
    SortCorrect(Sort(s));
    SortUnique(Sort(Sort(s)), Sort(s));
  }

  // ----- Splitting

  /** The pieces between occurrences of a character. */
  function SplitOn(s: string, c: char): (parts: seq<string>)
    ensures parts != []
  {
    if s == [] then [""]
    else if s[0] == c then [""] + SplitOn(s[1..], c)
    else
      var rest := SplitOn(s[1..], c);
      [[s[0]] + rest[0]] + rest[1..]
  }

  /** str::split_once, at the first occurrence. */
  function SplitOnce(s: string, c: char): Option<(string, string)> {
    if s == [] then None
    else if s[0] == c then Some(("", s[1..]))
    else
      var rest := SplitOnce(s[1..], c);
      if rest.None? then None else Some(([s[0]] + rest.value.0, rest.value.1))
  }

  lemma {:induction false} SplitFirst(a: string, c: char, b: string)
    requires c !in a
    ensures SplitOn(a + [c] + b, c) == [a] + SplitOn(b, c)
    ensures SplitOnce(a + [c] + b, c) == Some((a, b))
  {
    var s := a + [c] + b;
    if a == [] {
      assert s[1..] == b;
    } else {
      assert s[1..] == a[1..] + [c] + b;
      SplitFirst(a[1..], c, b);
      assert a == [a[0]] + a[1..];
    }
  }

  lemma {:induction false} SplitNone(a: string, c: char)
    requires c !in a
    ensures SplitOn(a, c) == [a]
  {
    if a != [] {
      SplitNone(a[1..], c);
      assert a == [a[0]] + a[1..];
    }
  }

  lemma {:induction false} FirstOccurrence(s: string, c: char) returns (k: nat)
    requires c in s
    ensures k < |s| && s[k] == c && c !in s[..k]
  {
    if s[0] == c {
      k := 0;
    } else {
      k := FirstOccurrence(s[1..], c);
      k := k + 1;
      assert s[..k] == [s[0]] + s[1..][..k - 1];
    }
  }

  /** A stretch without the separator, between separators or ends. */
  predicate PartAt(s: string, c: char, part: string, i: nat) {
    && i + |part| <= |s| && s[i..i + |part|] == part && c !in part
    && (i == 0 || s[i - 1] == c) && (i + |part| == |s| || s[i + |part|] == c)
  }

  lemma WholeOrFirst(s: string, c: char, part: string, i: nat, k: nat)
    requires PartAt(s, c, part, i) && k <= |s| && c !in s[..k] && (k == |s| || s[k] == c)
    ensures i == 0 ==> part == s[..k]
    ensures i > 0 ==> i > k
  {
    assert forall j | 0 <= j < k :: s[..k][j] == s[j];
    assert forall j | 0 <= j < |part| :: part[j] == s[i + j];
    assert i == 0 ==> k >= |part|;
    assert i == 0 ==> |part| >= k;
  }

  lemma WholePart(s: string, c: char)
    requires c !in s
    ensures PartAt(s, c, s, 0)
  {
  }

  lemma FirstPart(s: string, c: char, k: nat)
    requires k < |s| && s[k] == c && c !in s[..k]
    ensures PartAt(s, c, s[..k], 0)
  {
  }

  lemma NoneBefore(s: string, c: char, part: string, i: nat)
    requires PartAt(s, c, part, i) && c !in s
    ensures i == 0
  {
  }

  /** Parts after a separator are the parts of what follows it. */
  lemma ShiftPart(s: string, c: char, part: string, k: nat, i: nat)
    requires k < |s| && s[k] == c
    ensures PartAt(s[k + 1..], c, part, i) <==> PartAt(s, c, part, k + 1 + i)
  {
    var b := s[k + 1..];
    if i + |part| <= |b| {
      assert b[i..i + |part|] == s[k + 1 + i..k + 1 + i + |part|];
    }
  }

  /** Splitting yields exactly the stretches between separators. */
  lemma {:induction false} PartsExactly(s: string, c: char, part: string)
    ensures part in SplitOn(s, c) <==> exists i: nat :: PartAt(s, c, part, i)
    decreases |s|
  {
    hide SplitOn, SplitOnce, PartAt;
    if c !in s {
      SplitNone(s, c);
      assert s[..|s|] == s;
      WholePart(s, c);
      if i: nat :| PartAt(s, c, part, i) {
        NoneBefore(s, c, part, i);
        WholeOrFirst(s, c, part, i, |s|);
      }
    } else {
      var k := FirstOccurrence(s, c);
      var b := s[k + 1..];
      assert s == s[..k] + [c] + b;
      SplitFirst(s[..k], c, b);
      PartsExactly(b, c, part);
      FirstPart(s, c, k);
      forall i: nat ensures PartAt(b, c, part, i) <==> PartAt(s, c, part, k + 1 + i) {
        ShiftPart(s, c, part, k, i);
      }
      if i: nat :| PartAt(s, c, part, i) {
        WholeOrFirst(s, c, part, i, k);
        if i > 0 { assert PartAt(b, c, part, i - k - 1) <==> PartAt(s, c, part, k + 1 + (i - k - 1)); }
      }
    }
  }
}
