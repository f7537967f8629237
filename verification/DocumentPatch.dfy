/**
 Turning freshly parsed Markdown into one editor transaction (document_mutations.ts):
 attribute-only changes re-mark nodes where they stand, anything else becomes a splice
 between the first and the last difference.

 The editor's documents are trees; a position counts the tokens before it.
 */
module DocumentPatch {
  import opened Text

  datatype Markup = Markup(kind: string, attrs: map<string, string>, marks: seq<string>)

  datatype Node =
    | TextNode(text: string, marks: seq<string>)
    | Leaf(markup: Markup)
    | Branch(markup: Markup, children: seq<Node>)

  datatype Token =
    | Char(c: char, marks: seq<string>)
    | Atom(markup: Markup)
    | Open(markup: Markup)
    | Close(markup: Markup)

  // ----- Sizes and tokens

  function NodeSize(node: Node): nat
    decreases node
  {
    match node
    case TextNode(text, _) => |text|
    case Leaf(_) => 1
    case Branch(_, children) => 2 + Size(children)
  }

  function Size(nodes: seq<Node>): nat
    decreases nodes
  {
    if nodes == [] then 0 else NodeSize(nodes[0]) + Size(nodes[1..])
  }

  function Chars(text: string, marks: seq<string>): seq<Token> {
    seq(|text|, i requires 0 <= i < |text| => Char(text[i], marks))
  }

  function NodeTokens(node: Node): (t: seq<Token>)
    ensures |t| == NodeSize(node)
    decreases node
  {
    match node
    case TextNode(text, marks) => Chars(text, marks)
    case Leaf(markup) => [Atom(markup)]
    case Branch(markup, children) => [Open(markup)] + Tokens(children) + [Close(markup)]
  }

  function Tokens(nodes: seq<Node>): (t: seq<Token>)
    ensures |t| == Size(nodes)
    decreases nodes
  {
    if nodes == [] then [] else NodeTokens(nodes[0]) + Tokens(nodes[1..])
  }

  /** What the editor keeps true of content: no empty text, and neighbouring texts with equal marks joined. */
  predicate NormalNode(node: Node)
    decreases node
  {
    match node
    case TextNode(text, _) => text != ""
    case Leaf(_) => true
    case Branch(_, children) => Normal(children)
  }

  predicate Joinable(a: Node, b: Node) {
    a.TextNode? && b.TextNode? && a.marks == b.marks
  }

  predicate Normal(nodes: seq<Node>)
    decreases nodes
  {
    nodes == []
    || (NormalNode(nodes[0]) && Normal(nodes[1..]) && (|nodes| > 1 ==> !Joinable(nodes[0], nodes[1])))
  }

  // ----- Collecting attribute changes

  datatype Change = Change(position: int, markup: Markup)

  /** The two nodes are of one type; text and leaves are types of their own. */
  predicate SameType(a: Node, b: Node) {
    match a
    case TextNode(_, _) => b.TextNode?
    case Leaf(markup) => b.Leaf? && b.markup.kind == markup.kind
    case Branch(markup, _) => b.Branch? && b.markup.kind == markup.kind
  }

  /** collectAttributes: what to re-mark, or None where the trees differ in more than that. */
  function CollectNode(a: Node, b: Node, position: int): Option<seq<Change>>
    decreases a
  {
    if !SameType(a, b) then None
    else if a.TextNode? then if a == b then Some([]) else None
    else if a.markup != b.markup && position < 0 then None
    else
      var own := if a.markup == b.markup then [] else [Change(position, b.markup)];
      if a.Leaf? then Some(own)
      else if |a.children| != |b.children| then None
      else
        var inner := CollectList(a.children, b.children, position + 1);
        if inner.None? then None else Some(own + inner.value)
  }

  function CollectList(a: seq<Node>, b: seq<Node>, position: int): Option<seq<Change>>
    requires |a| == |b|
    decreases a
  {
    if a == [] then Some([])
    else
      var first := CollectNode(a[0], b[0], position);
      if first.None? then None
      else
        var rest := CollectList(a[1..], b[1..], position + NodeSize(a[0]));
        if rest.None? then None else Some(first.value + rest.value)
  }

  // ----- Applying attribute changes one after another

  function Remarked(node: Node, markup: Markup): Node {
    match node
    case TextNode(text, _) => node
    case Leaf(m) => Leaf(Markup(m.kind, markup.attrs, markup.marks))
    case Branch(m, children) => Branch(Markup(m.kind, markup.attrs, markup.marks), children)
  }

  /** setNodeMarkup on the node that starts at a position; its type stays. */
  function SetNodeMarkup(nodes: seq<Node>, position: int, markup: Markup): seq<Node>
    decreases nodes
  {
    if nodes == [] || position < 0 then nodes
    else if position == 0 then [Remarked(nodes[0], markup)] + nodes[1..]
    else if position >= NodeSize(nodes[0]) then
      [nodes[0]] + SetNodeMarkup(nodes[1..], position - NodeSize(nodes[0]), markup)
    else if nodes[0].Branch? then
      [Branch(nodes[0].markup, SetNodeMarkup(nodes[0].children, position - 1, markup))] + nodes[1..]
    else nodes
  }

  function ApplyChanges(nodes: seq<Node>, base: int, changes: seq<Change>): seq<Node>
    decreases |changes|
  {
    if changes == [] then nodes
    else ApplyChanges(SetNodeMarkup(nodes, changes[0].position - base, changes[0].markup), base, changes[1..])
  }

  lemma {:induction false} SetKeepsSize(nodes: seq<Node>, position: int, markup: Markup)
    ensures Size(SetNodeMarkup(nodes, position, markup)) == Size(nodes)
    ensures |SetNodeMarkup(nodes, position, markup)| == |nodes|
    decreases nodes
  {
    if nodes == [] || position < 0 {
    } else {
      var after := SetNodeMarkup(nodes, position, markup);
      if position == 0 {
      } else if position >= NodeSize(nodes[0]) {
        SetKeepsSize(nodes[1..], position - NodeSize(nodes[0]), markup);
      } else if nodes[0].Branch? {
        SetKeepsSize(nodes[0].children, position - 1, markup);
      }
      assert after[1..] == if 0 < position && position >= NodeSize(nodes[0])
        then SetNodeMarkup(nodes[1..], position - NodeSize(nodes[0]), markup) else nodes[1..];
    }
  }

  /** Every change starts within a stretch of positions. */
  predicate Within(changes: seq<Change>, from: int, to: int) {
    forall c | c in changes :: from <= c.position < to
  }

  lemma {:induction false} ApplyToFirst(node: Node, rest: seq<Node>, base: int, changes: seq<Change>)
    requires Within(changes, base, base + NodeSize(node))
    ensures |ApplyChanges([node], base, changes)| == 1
    ensures NodeSize(ApplyChanges([node], base, changes)[0]) == NodeSize(node)
    ensures ApplyChanges([node] + rest, base, changes) == ApplyChanges([node], base, changes) + rest
    decreases |changes|
  {
    if changes != [] {
      var c := changes[0];
      var q := c.position - base;
      SetKeepsSize([node], q, c.markup);
      var one := SetNodeMarkup([node], q, c.markup);
      assert one == [one[0]] && Size(one) == NodeSize(one[0]) + Size(one[1..])
          && Size([node]) == NodeSize(node) + Size([node][1..]);
      assert SetNodeMarkup([node] + rest, q, c.markup) == one + rest by {
        assert ([node] + rest)[1..] == rest && ([node] + rest)[0] == node && [node][1..] == [];
      }
      ApplyToFirst(one[0], rest, base, changes[1..]);
    }
  }

  lemma {:induction false} ApplyToRest(node: Node, rest: seq<Node>, base: int, changes: seq<Change>)
    requires NodeSize(node) > 0 && forall c | c in changes :: c.position >= base + NodeSize(node)
    ensures ApplyChanges([node] + rest, base, changes) == [node] + ApplyChanges(rest, base + NodeSize(node), changes)
    decreases |changes|
  {
    if changes != [] {
      var c := changes[0];
      var q := c.position - base;
      assert ([node] + rest)[1..] == rest;
      ApplyToRest(node, SetNodeMarkup(rest, q - NodeSize(node), c.markup), base, changes[1..]);
    }
  }

  lemma {:induction false} ApplyInside(markup: Markup, children: seq<Node>, base: int, changes: seq<Change>)
    requires Within(changes, base + 1, base + 1 + Size(children))
    ensures ApplyChanges([Branch(markup, children)], base, changes)
         == [Branch(markup, ApplyChanges(children, base + 1, changes))]
    decreases |changes|
  {
    if changes != [] {
      var c := changes[0];
      var q := c.position - base;
      var inner := SetNodeMarkup(children, q - 1, c.markup);
      SetKeepsSize(children, q - 1, c.markup);
      var node := Branch(markup, children);
      assert SetNodeMarkup([node], q, c.markup) == [Branch(markup, inner)] + [node][1..];
      assert [Branch(markup, inner)] + [node][1..] == [Branch(markup, inner)];
      ApplyInside(markup, inner, base, changes[1..]);
    }
  }

  lemma {:induction false} ApplyInTurn(nodes: seq<Node>, base: int, first: seq<Change>, second: seq<Change>)
    ensures ApplyChanges(nodes, base, first + second) == ApplyChanges(ApplyChanges(nodes, base, first), base, second)
    decreases |first|
  {
    if first == [] {
      assert first + second == second;
    } else {
      assert (first + second)[1..] == first[1..] + second;
      ApplyInTurn(SetNodeMarkup(nodes, first[0].position - base, first[0].markup), base, first[1..], second);
    }
  }

  lemma ApplyFirstThenRest(
      a: Node, tail: seq<Node>, b: Node, bs: seq<Node>, base: int, first: seq<Change>, rest: seq<Change>)
    requires NodeSize(a) == NodeSize(b) > 0
    requires Within(first, base, base + NodeSize(a)) && ApplyChanges([a], base, first) == [b]
    requires (forall c | c in rest :: c.position >= base + NodeSize(a))
          && ApplyChanges(tail, base + NodeSize(a), rest) == bs
    ensures ApplyChanges([a] + tail, base, first + rest) == [b] + bs
  {
    hide NodeSize, ApplyChanges;
    ApplyInTurn([a] + tail, base, first, rest);
    ApplyToFirst(a, tail, base, first);
    ApplyToRest(b, tail, base, rest);
  }

  lemma {:induction false} CollectedNode(a: Node, b: Node, position: int)
    requires NormalNode(a) && CollectNode(a, b, position).Some?
    ensures NodeSize(b) == NodeSize(a)
    ensures Within(CollectNode(a, b, position).value, position, position + NodeSize(a))
    ensures position >= 0 ==> ApplyChanges([a], position, CollectNode(a, b, position).value) == [b]
    decreases a
  {
    if !a.TextNode? {
      var own := if a.markup == b.markup then [] else [Change(position, b.markup)];
      var marked := if a.markup == b.markup then a else Remarked(a, b.markup);
      assert ApplyChanges([a], position, own) == [marked] by {
        if own != [] {
          assert SetNodeMarkup([a], 0, b.markup) == [marked] + [a][1..];
          assert [marked] + [a][1..] == [marked] && own[1..] == [];
        }
      }
      if a.Branch? {
        var inner := CollectList(a.children, b.children, position + 1).value;
        CollectedList(a.children, b.children, position + 1);
        ApplyInTurn([a], position, own, inner);
        ApplyInside(b.markup, a.children, position, inner);
      } else {
        assert own + [] == own;
      }
    }
  }

  lemma {:induction false} CollectedList(a: seq<Node>, b: seq<Node>, position: int)
    requires Normal(a) && |a| == |b| && CollectList(a, b, position).Some?
    ensures Size(b) == Size(a)
    ensures Within(CollectList(a, b, position).value, position, position + Size(a))
    ensures position >= 0 ==> ApplyChanges(a, position, CollectList(a, b, position).value) == b
    decreases a
  {
    if a != [] {
      var size := NodeSize(a[0]);
      var first, rest := CollectNode(a[0], b[0], position).value, CollectList(a[1..], b[1..], position + size).value;
      CollectedNode(a[0], b[0], position);
      CollectedList(a[1..], b[1..], position + size);
      if position >= 0 {
        ApplyFirstThenRest(a[0], a[1..], b[0], b[1..], position, first, rest);
        assert a == [a[0]] + a[1..] && b == [b[0]] + b[1..];
      }
    }
  }

  /** Re-marking nodes one by one, each at the position it had at first, gives the new content. */
  lemma AttributesReachParsed(doc: Node, parsed: Node)
    requires doc.Branch? && Normal(doc.children) && CollectNode(doc, parsed, -1).Some?
    ensures parsed.Branch? && ApplyChanges(doc.children, 0, CollectNode(doc, parsed, -1).value) == parsed.children
    ensures doc.markup == parsed.markup
  {
    CollectedList(doc.children, parsed.children, 0);
    assert [] + CollectList(doc.children, parsed.children, 0).value
      == CollectList(doc.children, parsed.children, 0).value;
  }

  lemma {:induction false} CollectNothingNode(a: Node, position: int)
    ensures CollectNode(a, a, position) == Some([])
    decreases a
  {
    if a.Branch? {
      CollectNothing(a.children, position + 1);
      var none: seq<Change> := [];
      assert none + none == none;
    }
  }

  lemma {:induction false} CollectNothing(a: seq<Node>, position: int)
    ensures CollectList(a, a, position) == Some([])
    decreases a
  {
    if a != [] {
      CollectNothingNode(a[0], position);
      CollectNothing(a[1..], position + NodeSize(a[0]));
      var none: seq<Change> := [];
      assert none + none == none;
    }
  }

  // ----- Tokens determine content

  predicate Ends(t: seq<Token>) {
    t == [] || t[0].Close?
  }

  lemma FirstToken(nodes: seq<Node>, tail: seq<Token>)
    requires nodes != [] && NormalNode(nodes[0])
    ensures
      var t := Tokens(nodes) + tail;
      && t != []
      && match nodes[0]
         case TextNode(text, marks) => t[0] == Char(text[0], marks)
         case Leaf(markup) => t[0] == Atom(markup)
         case Branch(markup, _) => t[0] == Open(markup)
  {
    var t := Tokens(nodes) + tail;
    assert |NodeTokens(nodes[0])| > 0;
    assert t[0] == NodeTokens(nodes[0])[0];
  }

  /** After a text node comes nothing that could continue it. */
  lemma TextEnds(nodes: seq<Node>, tail: seq<Token>, marks: seq<string>)
    requires Normal(nodes) && Ends(tail) && (nodes != [] ==> !Joinable(TextNode("", marks), nodes[0]))
    ensures var t := Tokens(nodes) + tail; t != [] && t[0].Char? ==> t[0].marks != marks
  {
    if nodes != [] {
      FirstToken(nodes, tail);
    } else {
      assert Tokens(nodes) + tail == tail;
    }
  }

  lemma RunContinues(s: string, t: string, marks: seq<string>, x: seq<Token>, y: seq<Token>)
    requires Chars(s, marks) + x == Chars(t, marks) + y && |s| < |t|
    ensures x != [] && x[0].Char? && x[0].marks == marks
  {
    var z := Chars(s, marks) + x;
    assert |z| == |Chars(t, marks)| + |y|;
    assert z[|s|] == Chars(t, marks)[|s|];
  }

  lemma EqualRuns(s: string, t: string, marks: seq<string>, x: seq<Token>, y: seq<Token>)
    requires Chars(s, marks) + x == Chars(t, marks) + y
    requires x != [] && x[0].Char? ==> x[0].marks != marks
    requires y != [] && y[0].Char? ==> y[0].marks != marks
    ensures s == t && x == y
  {
    assert |s| == |t| by {
      if |s| < |t| {
        RunContinues(s, t, marks, x, y);
      }
      if |t| < |s| {
        RunContinues(t, s, marks, y, x);
      }
    }
    var z := Chars(s, marks) + x;
    assert x == z[|s|..] && y == z[|s|..];
    assert Chars(s, marks) == z[..|s|] && Chars(t, marks) == z[..|s|];
    forall i | 0 <= i < |s| ensures s[i] == t[i] {
      assert Chars(s, marks)[i] == Chars(t, marks)[i];
    }
  }

  lemma Unfold(nodes: seq<Node>, tail: seq<Token>)
    requires nodes != [] && Normal(nodes)
    ensures Tokens(nodes) + tail == NodeTokens(nodes[0]) + (Tokens(nodes[1..]) + tail)
    ensures NormalNode(nodes[0]) && Normal(nodes[1..])
    ensures |nodes| > 1 ==> !Joinable(nodes[0], nodes[1])
  {
  }

  lemma FirstTokenOpens(nodes: seq<Node>, tail: seq<Token>)
    requires nodes != [] && Normal(nodes)
    ensures !Ends(Tokens(nodes) + tail)
  {
    FirstToken(nodes, tail);
  }

  lemma {:induction false} TokensDetermine(a: seq<Node>, b: seq<Node>, x: seq<Token>, y: seq<Token>)
    requires Normal(a) && Normal(b) && Ends(x) && Ends(y) && Tokens(a) + x == Tokens(b) + y
    ensures a == b && x == y
    decreases a, 1
  {
    hide NodeTokens, Normal, NormalNode;
    if a == [] || b == [] {
      assert a == [] ==> Tokens(a) + x == x;
      assert b == [] ==> Tokens(b) + y == y;
      if a != [] {
        FirstTokenOpens(a, x);
      }
      if b != [] {
        FirstTokenOpens(b, y);
      }
    } else {
      hide Tokens;
      Unfold(a, x);
      Unfold(b, y);
      FirstDetermines(a, b, x, y);
      TokensDetermine(a[1..], b[1..], x, y);
      assert a == [a[0]] + a[1..] && b == [b[0]] + b[1..];
    }
  }

  lemma {:induction false} FirstDetermines(a: seq<Node>, b: seq<Node>, x: seq<Token>, y: seq<Token>)
    requires a != [] && b != [] && Normal(a) && Normal(b) && Ends(x) && Ends(y)
    requires NodeTokens(a[0]) + (Tokens(a[1..]) + x) == NodeTokens(b[0]) + (Tokens(b[1..]) + y)
    ensures a[0] == b[0] && Tokens(a[1..]) + x == Tokens(b[1..]) + y
    decreases a, 0
  {
    hide Tokens, Normal, NormalNode, Joinable;
    Unfold(a, x);
    Unfold(b, y);
    FirstToken(a, x);
    FirstToken(b, y);
    var n, m := a[0], b[0];
    var restA, restB := Tokens(a[1..]) + x, Tokens(b[1..]) + y;
    if n.TextNode? {
      SameMarksJoin(a, n.marks);
      SameMarksJoin(b, n.marks);
      TextEnds(a[1..], x, n.marks);
      TextEnds(b[1..], y, n.marks);
      EqualRuns(n.text, m.text, n.marks, restA, restB);
    } else if n.Leaf? {
      DropFirst(Atom(n.markup), restA, restB);
    } else {
      var close := [Close(n.markup)];
      BranchSplits(n, restA);
      BranchSplits(m, restB);
      DropFirst(Open(n.markup), Tokens(n.children) + (close + restA), Tokens(m.children) + (close + restB));
      assert Normal(n.children) && Normal(m.children) by { ChildrenNormal(n); ChildrenNormal(m); }
      TokensDetermine(n.children, m.children, close + restA, close + restB);
      DropFirst(close[0], restA, restB);
    }
  }

  lemma ChildrenNormal(n: Node)
    requires n.Branch? && NormalNode(n)
    ensures Normal(n.children)
  {
  }

  lemma SameMarksJoin(a: seq<Node>, marks: seq<string>)
    requires a != [] && a[0].TextNode? && a[0].marks == marks && (|a| > 1 ==> !Joinable(a[0], a[1]))
    ensures a[1..] != [] ==> !Joinable(TextNode("", marks), a[1..][0])
  {
  }

  lemma DropFirst(t: Token, a: seq<Token>, b: seq<Token>)
    requires [t] + a == [t] + b
    ensures a == b
  {
    assert a == ([t] + a)[1..] && b == ([t] + b)[1..];
  }

  lemma BranchSplits(n: Node, rest: seq<Token>)
    requires n.Branch?
    ensures NodeTokens(n) + rest == [Open(n.markup)] + (Tokens(n.children) + ([Close(n.markup)] + rest))
  {
  }

  // ----- The splice

  /** The length of the longest common prefix: where findDiffStart finds the first difference. */
  function CommonPrefix(s: seq<Token>, t: seq<Token>): (n: nat)
    ensures n <= |s| && n <= |t| && s[..n] == t[..n]
    ensures n < |s| && n < |t| ==> s[n] != t[n]
    decreases |s|
  {
    if s == [] || t == [] || s[0] != t[0] then 0 else
      var n := CommonPrefix(s[1..], t[1..]);
      assert s[..n + 1] == [s[0]] + s[1..][..n] && t[..n + 1] == [t[0]] + t[1..][..n];
      n + 1
  }

  /** The last n tokens agree. */
  predicate SameEnd(s: seq<Token>, t: seq<Token>, n: nat) {
    n <= |s| && n <= |t| && forall i | |s| - n <= i < |s| :: s[i] == t[i + (|t| - |s|)]
  }

  /** The length of the longest common suffix, given one of length n: how far from the end findDiffEnd finds the
      last difference. */
  function CommonSuffixFrom(s: seq<Token>, t: seq<Token>, n: nat): (m: nat)
    requires SameEnd(s, t, n)
    ensures SameEnd(s, t, m)
    ensures m < |s| && m < |t| ==> s[|s| - 1 - m] != t[|t| - 1 - m]
    decreases |s| - n
  {
    if n == |s| || n == |t| || s[|s| - 1 - n] != t[|t| - 1 - n] then n else CommonSuffixFrom(s, t, n + 1)
  }

  function CommonSuffix(s: seq<Token>, t: seq<Token>): (n: nat)
    ensures SameEnd(s, t, n)
    ensures n < |s| && n < |t| ==> s[|s| - 1 - n] != t[|t| - 1 - n]
  {
    CommonSuffixFrom(s, t, 0)
  }

  function FindDiffStart(s: seq<Token>, t: seq<Token>): Option<nat> {
    if s == t then None else Some(CommonPrefix(s, t))
  }

  function FindDiffEnd(s: seq<Token>, t: seq<Token>): Option<(nat, nat)> {
    if s == t then None else Some((|s| - CommonSuffix(s, t), |t| - CommonSuffix(s, t)))
  }

  datatype Transaction = Remark(changes: seq<Change>) | Replace(from: int, to: int, slice: seq<Token>)

  function Min(a: int, b: int): int {
    if a <= b then a else b
  }

  /** The ends of the splice in the old and the new content: past the overlap of prefix and suffix, if they overlap. */
  function SpliceEnd(start: int, end: int, other: int): int {
    var overlap := start - Min(end, other);
    if overlap > 0 then end + overlap else end
  }

  lemma SpliceEndsRight(sizeS: int, sizeT: int, start: int, n: int)
    requires 0 <= start <= sizeS && start <= sizeT && 0 <= n <= sizeS && n <= sizeT
    ensures
      var k := sizeS - SpliceEnd(start, sizeS - n, sizeT - n);
      && k == sizeT - SpliceEnd(start, sizeT - n, sizeS - n)
      && 0 <= k <= n && start + k <= sizeS && start + k <= sizeT
      && (k < n ==> start + k == sizeS || start + k == sizeT)
  {
  }

  function SpliceOf(s: seq<Token>, t: seq<Token>, start: nat, end: (nat, nat)): Transaction
    requires start <= SpliceEnd(start, end.1, end.0) <= |t|
  {
    Replace(start, SpliceEnd(start, end.0, end.1), t[start..SpliceEnd(start, end.1, end.0)])
  }

  /** documentChangeTransaction, from the old document and the parsed one. */
  function DocumentChange(doc: Node, parsed: Node): Option<Transaction>
    requires doc.Branch? && parsed.Branch?
  {
    var changes := CollectNode(doc, parsed, -1);
    if changes.Some? then
      if changes.value == [] then None else Some(Remark(changes.value))
    else
      var s := Tokens(doc.children);
      var t := Tokens(parsed.children);
      var start := FindDiffStart(s, t);
      if start.None? then None
      else
        var end := FindDiffEnd(s, t);
        if end.None? then None
        else
          SpliceEndsRight(|s|, |t|, start.value, |s| - end.value.0);
          Some(SpliceOf(s, t, start.value, end.value))
  }

  /** The splice of two token sequences turns the first into the second and cannot be narrowed at either end. */
  predicate Splices(s: seq<Token>, t: seq<Token>, change: Transaction) {
    change.Replace? && 0 <= change.from <= change.to <= |s| && TurnsInto(s, t, change) && Narrowest(s, t, change)
  }

  predicate TurnsInto(s: seq<Token>, t: seq<Token>, change: Transaction)
    requires change.Replace? && 0 <= change.from <= change.to <= |s|
  {
    s[..change.from] + change.slice + s[change.to..] == t
  }

  predicate Narrowest(s: seq<Token>, t: seq<Token>, change: Transaction)
    requires change.Replace? && 0 <= change.from <= change.to <= |s|
  {
    && (change.from < |s| && change.from < |t| ==> s[change.from] != t[change.from])
    && (change.to > change.from && |change.slice| > 0 ==> s[change.to - 1] != change.slice[|change.slice| - 1])
  }

  /** Prefix and suffix may overlap; moving both ends past the overlap keeps the suffixes equal. */
  lemma SpliceFits(s: seq<Token>, t: seq<Token>)
    requires s != t
    ensures
      var start, end := FindDiffStart(s, t).value, FindDiffEnd(s, t).value;
      start <= SpliceEnd(start, end.1, end.0) <= |t| && Splices(s, t, SpliceOf(s, t, start, end))
  {
    var start, n := CommonPrefix(s, t), CommonSuffix(s, t);
    hide CommonPrefix, CommonSuffix, Splices;
    SpliceEndsRight(|s|, |t|, start, n);
    hide SameEnd;
    SpliceBetween(s, t, start, n, |s| - SpliceEnd(start, |s| - n, |t| - n));
  }

  lemma SpliceBetween(s: seq<Token>, t: seq<Token>, start: nat, n: nat, k: nat)
    requires start + k <= |s| && start + k <= |t| && s[..start] == t[..start]
    requires start < |s| && start < |t| ==> s[start] != t[start]
    requires k <= n && SameEnd(s, t, n)
    requires n < |s| && n < |t| ==> s[|s| - 1 - n] != t[|t| - 1 - n]
    requires k < n ==> start + k == |s| || start + k == |t|
    ensures Splices(s, t, Replace(start, |s| - k, t[start..|t| - k]))
  {
    hide TurnsInto;
    ShorterEnd(s, t, n, k);
    SpliceWorks(s, t, start, k);
    hide SameEnd;
  }

  lemma ShorterEnd(s: seq<Token>, t: seq<Token>, n: nat, k: nat)
    requires k <= n && SameEnd(s, t, n)
    ensures SameEnd(s, t, k)
  {
  }

  lemma SpliceWorks(s: seq<Token>, t: seq<Token>, start: nat, k: nat)
    requires start + k <= |s| && start + k <= |t| && s[..start] == t[..start] && SameEnd(s, t, k)
    ensures TurnsInto(s, t, Replace(start, |s| - k, t[start..|t| - k]))
  {
    var z := s[..start] + t[start..|t| - k] + s[|s| - k..];
    forall j | 0 <= j < |t| ensures z[j] == t[j] {
      if j < start {
        assert z[j] == s[..start][j] && t[j] == t[..start][j];
      } else if j >= |t| - k {
        assert z[j] == s[j - (|t| - |s|)];
      }
    }
  }

  /** What a transaction makes of some content. */
  ghost predicate Gives(content: seq<Node>, change: Transaction, result: seq<Node>) {
    match change
    case Remark(changes) => result == ApplyChanges(content, 0, changes)
    case Replace(from, to, slice) =>
      && 0 <= from <= to <= Size(content)
      && Normal(result) && Tokens(result) == Tokens(content)[..from] + slice + Tokens(content)[to..]
  }

  lemma SameTokensSameContent(a: seq<Node>, b: seq<Node>)
    requires Normal(a) && Normal(b)
    ensures Tokens(a) == Tokens(b) <==> a == b
  {
    if Tokens(a) == Tokens(b) {
      assert Tokens(a) + [] == Tokens(b) + [];
      TokensDetermine(a, b, [], []);
    }
  }

  lemma RemarkGivesParsed(doc: Node, parsed: Node)
    requires doc.Branch? && parsed.Branch? && Normal(doc.children) && CollectNode(doc, parsed, -1).Some?
    ensures CollectNode(doc, parsed, -1).value == [] <==> doc.children == parsed.children
    ensures ApplyChanges(doc.children, 0, CollectNode(doc, parsed, -1).value) == parsed.children
  {
    hide CollectNode, ApplyChanges;
    AttributesReachParsed(doc, parsed);
    NoChangesNoEffect(doc.children);
    if doc.children == parsed.children {
      CollectNothingNode(doc, -1);
      assert doc == parsed;
    }
  }

  lemma SpliceGivesParsed(doc: seq<Node>, parsed: seq<Node>, change: Transaction, result: seq<Node>)
    requires Normal(doc) && Normal(parsed) && Splices(Tokens(doc), Tokens(parsed), change)
    ensures Gives(doc, change, result) <==> result == parsed
  {
    hide Tokens, Size, Normal;
    if Normal(result) {
      SameTokensSameContent(result, parsed);
    }
  }

  /** The transaction gives exactly the parsed content; there is none only where the contents agree already. */
  lemma TransactionGivesParsed(doc: Node, parsed: Node, result: seq<Node>)
    requires doc.Branch? && parsed.Branch? && Normal(doc.children) && Normal(parsed.children)
    ensures
      var change := DocumentChange(doc, parsed);
      && (change.None? <==> doc.children == parsed.children)
      && (change.Some? ==> (Gives(doc.children, change.value, result) <==> result == parsed.children))
  {
    hide CollectNode, CommonPrefix, CommonSuffix, Tokens, Size, Normal, ApplyChanges, Splices, SpliceOf, SpliceEnd;
    if CollectNode(doc, parsed, -1).Some? {
      RemarkGivesParsed(doc, parsed);
    } else {
      SameTokensSameContent(doc.children, parsed.children);
      if doc.children != parsed.children {
        SpliceFits(Tokens(doc.children), Tokens(parsed.children));
        SpliceGivesParsed(doc.children, parsed.children, DocumentChange(doc, parsed).value, result);
      }
    }
  }

  lemma NoChangesNoEffect(nodes: seq<Node>)
    ensures ApplyChanges(nodes, 0, []) == nodes
  {
  }

  /** Re-marking keeps every position: the document has the size it had. */
  lemma RemarkKeepsPositions(doc: Node, parsed: Node)
    requires doc.Branch? && parsed.Branch? && Normal(doc.children) && CollectNode(doc, parsed, -1).Some?
    ensures Size(parsed.children) == Size(doc.children)
  {
    CollectedList(doc.children, parsed.children, 0);
  }

  /** A splice leaves alone everything before the first difference and after the last one, and no larger part could
      be left alone. */
  lemma SpliceIsTight(doc: Node, parsed: Node)
    requires doc.Branch? && parsed.Branch? && DocumentChange(doc, parsed).Some?
        && DocumentChange(doc, parsed).value.Replace?
    ensures Splices(Tokens(doc.children), Tokens(parsed.children), DocumentChange(doc, parsed).value)
  {
    hide CollectNode, CommonPrefix, CommonSuffix, Tokens, Size, Splices, SpliceOf, SpliceEnd;
    SpliceFits(Tokens(doc.children), Tokens(parsed.children));
  }

  // ----- The code's own form: a recursion that pushes onto one array

  method CollectAttributes(previous: Node, next: Node, position: int, attributes: seq<Change>)
    returns (same: bool, pushed: seq<Change>)
    ensures same <==> CollectNode(previous, next, position).Some?
    ensures same ==> pushed == attributes + CollectNode(previous, next, position).value
    decreases previous
  {
    pushed := attributes;
    assert attributes + [] == attributes;
    if !SameType(previous, next) || (previous.Branch? && |previous.children| != |next.children|) {
      return false, pushed;
    }
    if previous.TextNode? {
      return previous == next, pushed;
    }
    if previous.markup != next.markup {
      if position < 0 {
        return false, pushed;
      }
      pushed := pushed + [Change(position, next.markup)];
    }
    ghost var own := if previous.markup == next.markup then [] else [Change(position, next.markup)];
    if previous.Branch? {
      ghost var before := pushed;
      var childPosition := position + 1;
      ghost var inner := CollectList(previous.children, next.children, childPosition);
      for index := 0 to |previous.children|
        invariant inner.Some? <==> CollectList(previous.children[index..], next.children[index..], childPosition).Some?
        invariant inner.Some? ==>
          before + inner.value ==
            pushed + CollectList(previous.children[index..], next.children[index..], childPosition).value
      {
        same, pushed := CollectAttributes(previous.children[index], next.children[index], childPosition, pushed);
        assert previous.children[index..][1..] == previous.children[index + 1..];
        assert next.children[index..][1..] == next.children[index + 1..];
        if !same {
          return;
        }
        childPosition := childPosition + NodeSize(previous.children[index]);
      }
      assert pushed == before + inner.value == attributes + (own + inner.value);
    }
    same := true;
  }

  method DocumentChangeTransaction(doc: Node, parsed: Node) returns (change: Option<Transaction>)
    requires doc.Branch? && parsed.Branch?
    ensures change == DocumentChange(doc, parsed)
  {
    hide CollectNode, Tokens, Size, CommonPrefix, CommonSuffix;
    var same, attributes := CollectAttributes(doc, parsed, -1, []);
    if same {
      assert [] + CollectNode(doc, parsed, -1).value == CollectNode(doc, parsed, -1).value;
      return if attributes == [] then None else Some(Remark(attributes));
    }
    var s, t := Tokens(doc.children), Tokens(parsed.children);
    var start := FindDiffStart(s, t);
    if start.None? {
      return None;
    }
    var end := FindDiffEnd(s, t);
    var overlap := start.value - Min(end.value.0, end.value.1);
    var oldEnd := if overlap > 0 then end.value.0 + overlap else end.value.0;
    var newEnd := if overlap > 0 then end.value.1 + overlap else end.value.1;
    SpliceEndsRight(|s|, |t|, start.value, |s| - end.value.0);
    change := Some(Replace(start.value, oldEnd, t[start.value..newEnd]));
  }
}
