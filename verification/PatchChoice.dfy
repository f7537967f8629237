/**
 Which kind of transaction document_mutations.ts chooses, and what an attribute transaction
 re-marks: it is chosen exactly when the two documents differ in attributes and marks alone,
 and it re-marks exactly the nodes that differ, once each and in document order.
 */
module PatchChoice {
  import opened Text
  import opened DocumentPatch

  // ----- When the attribute path is taken

  /** A node without its attributes and marks; text stays as it is. */
  function Bare(node: Node): Node
    decreases node
  {
    match node
    case TextNode(_, _) => node
    case Leaf(markup) => Leaf(Markup(markup.kind, map[], []))
    case Branch(markup, children) => Branch(Markup(markup.kind, map[], []), BareAll(children))
  }

  function BareAll(nodes: seq<Node>): (r: seq<Node>)
    ensures |r| == |nodes|
    decreases nodes
  {
    if nodes == [] then [] else [Bare(nodes[0])] + BareAll(nodes[1..])
  }

  lemma BareParts(a: seq<Node>, b: seq<Node>)
    requires |a| == |b| && a != []
    ensures BareAll(a) == BareAll(b) <==> Bare(a[0]) == Bare(b[0]) && BareAll(a[1..]) == BareAll(b[1..])
  {
    var x, y := BareAll(a), BareAll(b);
    assert x[0] == Bare(a[0]) && x[1..] == BareAll(a[1..]);
    assert y[0] == Bare(b[0]) && y[1..] == BareAll(b[1..]);
  }

  lemma {:induction false} CollectsNodeExactly(a: Node, b: Node, position: int)
    requires position >= -1
    ensures CollectNode(a, b, position).Some?
       <==> Bare(a) == Bare(b) && (position < 0 && !a.TextNode? ==> b.markup == a.markup)
    decreases a
  {
    if a.Branch? && b.Branch? && |a.children| == |b.children| {
      CollectsListExactly(a.children, b.children, position + 1);
    }
  }

  lemma {:induction false} CollectsListExactly(a: seq<Node>, b: seq<Node>, position: int)
    requires |a| == |b| && position >= 0
    ensures CollectList(a, b, position).Some? <==> BareAll(a) == BareAll(b)
    decreases a
  {
    if a != [] {
      CollectsNodeExactly(a[0], b[0], position);
      CollectsListExactly(a[1..], b[1..], position + NodeSize(a[0]));
      BareParts(a, b);
    }
  }

  /** Nodes are re-marked in place exactly when the contents differ, and in nothing but attributes and marks below an
      unchanged root; everything else that differs is spliced. */
  lemma RemarksExactly(doc: Node, parsed: Node)
    requires doc.Branch? && parsed.Branch? && Normal(doc.children) && Normal(parsed.children)
    ensures
      var change := DocumentChange(doc, parsed);
      change.Some? && change.value.Remark? <==>
        && doc.children != parsed.children && doc.markup == parsed.markup
        && BareAll(doc.children) == BareAll(parsed.children)
  {
    hide CollectNode, Tokens, Size, Normal, CommonPrefix, CommonSuffix, SpliceEnd;
    CollectsNodeExactly(doc, parsed, -1);
    if CollectNode(doc, parsed, -1).Some? {
      RemarkGivesParsed(doc, parsed);
    }
  }

  // ----- What it re-marks

  /** A token that starts a node carries another markup in the second list; the change names that one. */
  predicate ChangedAt(s: seq<Token>, t: seq<Token>, position: int, c: Change)
    requires |s| == |t|
  {
    && position <= c.position < position + |s|
    && var k := c.position - position;
    && s[k] != t[k] && (t[k].Open? || t[k].Atom?) && t[k].markup == c.markup
  }

  lemma ChangedInConcat(s: seq<Token>, s': seq<Token>, t: seq<Token>, t': seq<Token>, position: int, c: Change)
    requires |s| == |t| && |s'| == |t'|
    ensures ChangedAt(s + s', t + t', position, c)
       <==> ChangedAt(s, t, position, c) || ChangedAt(s', t', position + |s|, c)
  {
  }

  /** In order of position, no position twice. */
  predicate Rising(changes: seq<Change>) {
    forall i, j | 0 <= i < j < |changes| :: changes[i].position < changes[j].position
  }

  lemma RisingConcat(a: seq<Change>, b: seq<Change>, middle: int)
    requires Rising(a) && Rising(b)
    requires (forall c | c in a :: c.position < middle) && (forall c | c in b :: c.position >= middle)
    ensures Rising(a + b)
  {
    var all := a + b;
    forall i, j | 0 <= i < j < |all| ensures all[i].position < all[j].position {
      if i < |a| { assert all[i] in a; }
      if j >= |a| { assert all[j] in b; }
    }
  }

  /** The collected changes are exactly the nodes whose markup differs, in document order. */
  ghost predicate CollectedExactly(s: seq<Token>, t: seq<Token>, position: int, changes: seq<Change>) {
    |s| == |t| && Rising(changes) && forall c :: c in changes <==> ChangedAt(s, t, position, c)
  }

  lemma ExactConcat(
      s: seq<Token>, s': seq<Token>, t: seq<Token>, t': seq<Token>, position: int, a: seq<Change>, b: seq<Change>)
    requires CollectedExactly(s, t, position, a) && CollectedExactly(s', t', position + |s|, b)
    ensures CollectedExactly(s + s', t + t', position, a + b)
  {
    RisingConcat(a, b, position + |s|);
    forall c ensures c in a + b <==> ChangedAt(s + s', t + t', position, c) {
      ChangedInConcat(s, s', t, t', position, c);
    }
  }

  lemma ExactOwn(open: Token, open': Token, position: int)
    requires (open.Open? && open'.Open?) || (open.Atom? && open'.Atom?)
    ensures
      var own := if open.markup == open'.markup then [] else [Change(position, open'.markup)];
      CollectedExactly([open], [open'], position, own)
  {
  }

  lemma ExactClose(a: Markup, b: Markup, position: int)
    ensures CollectedExactly([Close(a)], [Close(b)], position, [])
  {
  }

  lemma ExactNothing(s: seq<Token>, position: int)
    ensures CollectedExactly(s, s, position, [])
  {
  }

  lemma {:induction false} ChangesOfNode(a: Node, b: Node, position: int)
    requires CollectNode(a, b, position).Some?
    ensures CollectedExactly(NodeTokens(a), NodeTokens(b), position, CollectNode(a, b, position).value)
    decreases a
  {
    hide CollectedExactly;
    if a.TextNode? {
      ExactNothing(NodeTokens(a), position);
    } else if a.Leaf? {
      ExactOwn(Atom(a.markup), Atom(b.markup), position);
    } else {
      var own := if a.markup == b.markup then [] else [Change(position, b.markup)];
      var inner := CollectList(a.children, b.children, position + 1).value;
      ChangesOfList(a.children, b.children, position + 1);
      ChangesOfBranch(a, b, position, own, inner);
    }
  }

  lemma ChangesOfBranch(a: Node, b: Node, position: int, own: seq<Change>, inner: seq<Change>)
    requires a.Branch? && b.Branch?
    requires own == if a.markup == b.markup then [] else [Change(position, b.markup)]
    requires CollectedExactly(Tokens(a.children), Tokens(b.children), position + 1, inner)
    ensures CollectedExactly(NodeTokens(a), NodeTokens(b), position, own + inner)
  {
    hide Tokens;
    var x, y := Tokens(a.children), Tokens(b.children);
    ExactOwn(Open(a.markup), Open(b.markup), position);
    ExactClose(a.markup, b.markup, position + 1 + |x|);
    assert |x| == |y|;
    hide CollectedExactly;
    ExactConcat([Open(a.markup)], x, [Open(b.markup)], y, position, own, inner);
    ExactConcat(
      [Open(a.markup)] + x, [Close(a.markup)], [Open(b.markup)] + y, [Close(b.markup)], position, own + inner, []);
    assert own + inner + [] == own + inner;
  }

  lemma {:induction false} ChangesOfList(a: seq<Node>, b: seq<Node>, position: int)
    requires |a| == |b| && CollectList(a, b, position).Some?
    ensures CollectedExactly(Tokens(a), Tokens(b), position, CollectList(a, b, position).value)
    decreases a
  {
    hide CollectedExactly;
    if a == [] {
      ExactNothing([], position);
    } else {
      var size := NodeSize(a[0]);
      ChangesOfNode(a[0], b[0], position);
      ChangesOfList(a[1..], b[1..], position + size);
      ExactConcat(
        NodeTokens(a[0]), Tokens(a[1..]), NodeTokens(b[0]), Tokens(b[1..]), position,
        CollectNode(a[0], b[0], position).value, CollectList(a[1..], b[1..], position + size).value);
    }
  }

  /** An attribute transaction re-marks exactly the nodes whose attributes or marks differ, each once, in document
      order and with the parsed markup. */
  lemma RemarksWhatDiffers(doc: Node, parsed: Node, c: Change)
    requires doc.Branch? && parsed.Branch?
    requires DocumentChange(doc, parsed).Some? && DocumentChange(doc, parsed).value.Remark?
    ensures
      var changes, s, t := DocumentChange(doc, parsed).value.changes, Tokens(doc.children), Tokens(parsed.children);
      |s| == |t| && Rising(changes) && (c in changes <==> ChangedAt(s, t, 0, c))
  {
    hide Tokens, Size, CommonPrefix, CommonSuffix, SpliceEnd;
    var inner := CollectList(doc.children, parsed.children, 0).value;
    assert [] + inner == inner;
    ChangesOfList(doc.children, parsed.children, 0);
  }
}
