/**
 Recursive annotation variations (section 8.2.5 of the PGN Specification and Implementation Guide)
 read structurally: a variation offers alternatives to the move it follows, and a comment belongs to
 the move it follows or, at the start of a variation, to the next move. The stack machine gives
 well-formed move text exactly this meaning.
 */
module RavMeaning {
  import opened Common
  import opened MoveTree

  /** A line of moves, each with the comments and the alternatives written after it. */
  datatype Line = End | Then(san: string, comments: seq<string>, alternatives: Alternatives, rest: Line)

  /** Variations with the comments after the opening and after the closing bracket. */
  datatype Alternatives = NoMore | Or(lead: seq<string>, line: Line, after: seq<string>, more: Alternatives)

  function Comments(texts: seq<string>): seq<Token> {
    if texts == [] then [] else Comments(texts[..|texts| - 1]) + [Comment(texts[|texts| - 1])]
  }

  function Text(line: Line): seq<Token> {
    match line
    case End => []
    case Then(san, comments, alternatives, rest) =>
      [Move(san)] + Comments(comments) + AlternativesText(alternatives) + Text(rest)
  }

  function AlternativesText(a: Alternatives): seq<Token> {
    match a
    case NoMore => []
    case Or(lead, line, after, more) =>
      [Open] + Comments(lead) + Text(line) + [Close] + Comments(after) + AlternativesText(more)
  }

  /** Nodes so far, and comments that still wait for a move. */
  datatype Partial = Partial(nodes: seq<Node>, pending: seq<string>)

  function Noting(nodes: seq<Node>, n: nat, texts: seq<string>): seq<Node>
    requires n < |nodes|
  {
    if texts == [] then nodes else nodes[n := nodes[n].(comments := nodes[n].comments + texts)]
  }

  predicate Extends(a: seq<Node>, b: seq<Node>) {
    |a| <= |b| && forall i :: 0 <= i < |a| ==> a[i].parent == b[i].parent
  }

  /** The first move of a line below p, with the comments that waited for it and those said of it. */
  function First(a: Partial, p: nat, line: Line, mainline: bool): (r: Partial)
    requires p < |a.nodes| && line.Then?
    ensures Extends(a.nodes, r.nodes) && |r.nodes| == |a.nodes| + 1
  {
    var nodes := a.nodes;
    var node := Node(Some(p), Below(nodes, p), nodes[p].ply + 1, mainline, line.san, a.pending, line.comments);
    Partial(nodes + [node], [])
  }

  /** What a line adds below p; alternatives to its first move hang below p as well. */
  function Attach(a: Partial, p: nat, line: Line, mainline: bool): (r: Partial)
    requires p < |a.nodes|
    ensures Extends(a.nodes, r.nodes)
    decreases line
  {
    if line.End? then a
    else
      var n := |a.nodes|;
      Attach(AttachAll(First(a, p, line, mainline), p, n, line.alternatives), n, line.rest, mainline)
  }

  /** The alternatives to move n below p; what is written after a variation is said of move n. */
  function AttachAll(a: Partial, p: nat, n: nat, alternatives: Alternatives): (r: Partial)
    requires p < |a.nodes| && n < |a.nodes|
    ensures Extends(a.nodes, r.nodes)
    decreases alternatives
  {
    match alternatives
    case NoMore => a
    case Or(lead, line, after, more) =>
      var b := Attach(Partial(a.nodes, a.pending + lead), p, line, false);
      AttachAll(Partial(Noting(b.nodes, n, after), b.pending), p, n, more)
  }

  lemma {:induction false} FeedAppend(t: Tree, a: seq<Token>, b: seq<Token>)
    requires Shape(t)
    ensures Feed(t, a + b) == Feed(Feed(t, a), b)
    decreases |b|
  {
    if b == [] {
      assert a + b == a;
    } else {
      assert (a + b)[..|a + b| - 1] == a + b[..|b| - 1];
      FeedAppend(t, a, b[..|b| - 1]);
    }
  }

  lemma FeedOne(t: Tree, token: Token)
    requires Shape(t)
    ensures Feed(t, [token]) == Step(t, token)
  {
    assert [token][..0] == [];
    assert Feed(t, []) == t;
  }

  ghost predicate Ready(t: Tree) { Shape(t) && CountsMatch(t) && Numbered(t.nodes) }

  /** The issues and the stack are as they were. */
  predicate SameContext(t: Tree, r: Tree) {
    r.stack == t.stack && r.orphans == t.orphans && r.unmatched == t.unmatched
  }

  lemma StepReady(t: Tree, token: Token)
    requires Ready(t)
    ensures Ready(Step(t, token))
  {
    StepKeepsNumbers(t, token);
  }

  lemma NotingMore(nodes: seq<Node>, n: nat, texts: seq<string>, text: string)
    requires n < |nodes|
    ensures var noted := Noting(nodes, n, texts);
            noted[n := noted[n].(comments := noted[n].comments + [text])] == Noting(nodes, n, texts + [text])
  {
    assert nodes[n].comments + [] == nodes[n].comments;
    assert nodes[n].comments + texts + [text] == nodes[n].comments + (texts + [text]);
  }

  /** Comments go to the current move or, right after an opening bracket, wait for the next one. */
  function Said(t: Tree, texts: seq<string>): Tree
    requires t.current < |t.nodes|
  {
    if t.atStart then t.(pending := t.pending + texts) else t.(nodes := Noting(t.nodes, t.current, texts))
  }

  lemma SaidMore(t: Tree, texts: seq<string>, text: string)
    requires Shape(t) && Shape(Said(t, texts))
    ensures Step(Said(t, texts), Comment(text)) == Said(t, texts + [text])
  {
    if t.atStart {
      assert t.pending + texts + [text] == t.pending + (texts + [text]);
    } else {
      NotingMore(t.nodes, t.current, texts, text);
    }
  }

  lemma {:induction false} ReadComments(t: Tree, texts: seq<string>)
    requires Ready(t)
    ensures Feed(t, Comments(texts)) == Said(t, texts) && Ready(Said(t, texts))
    decreases |texts|
  {
    if texts == [] {
      assert Feed(t, []) == t && t.pending + [] == t.pending;
      return;
    }
    var init, last := texts[..|texts| - 1], texts[|texts| - 1];
    assert texts == init + [last];
    ReadComments(t, init);
    hide Said, Step, Feed, Numbered, CountsMatch;
    FeedAppend(t, Comments(init), [Comment(last)]);
    FeedOne(Said(t, init), Comment(last));
    StepReady(Said(t, init), Comment(last));
    SaidMore(t, init, last);
  }

  /** A move and what is said of it. */
  lemma ReadMove(t: Tree, san: string, comments: seq<string>)
    requires Ready(t)
    ensures var r := Feed(Step(t, Move(san)), Comments(comments));
            && Ready(r) && SameContext(t, r) && r.current == |t.nodes| && r.pending == []
            && r.nodes == t.nodes + [Node(Some(t.current), Below(t.nodes, t.current), t.nodes[t.current].ply + 1,
                                          t.stack == [], san, t.pending, comments)]
  {
    StepReady(t, Move(san));
    ReadComments(Step(t, Move(san)), comments);
    NotingLast(t.nodes, Step(t, Move(san)).nodes[|t.nodes|], comments);
    hide Feed, Ready, Below, Noting;
  }

  lemma NotingLast(nodes: seq<Node>, node: Node, comments: seq<string>)
    requires node.comments == []
    ensures Noting(nodes + [node], |nodes|, comments) == nodes + [node.(comments := comments)]
  {
    assert [] + comments == comments;
  }

  /** Reading a line adds its nodes below the current one and leaves every open variation as it was. */
  lemma {:induction false} ReadLine(t: Tree, line: Line)
    requires Ready(t)
    ensures var r := Feed(t, Text(line));
            && Ready(r) && SameContext(t, r)
            && Partial(r.nodes, r.pending) == Attach(Partial(t.nodes, t.pending), t.current, line, t.stack == [])
    decreases line
  {
    if line.End? {
      assert Feed(t, []) == t;
      return;
    }
    var t1 := ReadFirst(t, line);
    ReadAlternatives(t1, t.current, line.alternatives);
    var t2 := Feed(t1, AlternativesText(line.alternatives));
    ReadLine(t2, line.rest);
    LineInPieces(t, line);
    AttachThen(Partial(t.nodes, t.pending), t.current, line, t.stack == []);
    hide Attach, AttachAll, First, Feed, Extends;
  }

  lemma ReadFirst(t: Tree, line: Line) returns (r: Tree)
    requires Ready(t) && line.Then?
    ensures r == Feed(Step(t, Move(line.san)), Comments(line.comments))
    ensures Ready(r) && SameContext(t, r) && r.current == |t.nodes| < |r.nodes|
    ensures Partial(r.nodes, r.pending) == First(Partial(t.nodes, t.pending), t.current, line, t.stack == [])
    ensures r.nodes[r.current].parent == Some(t.current)
  {
    hide Numbered, CountsMatch, Below, Comments, Feed, Step, Extends;
    ReadMove(t, line.san, line.comments);
    r := Feed(Step(t, Move(line.san)), Comments(line.comments));
  }

  lemma AttachThen(a: Partial, p: nat, line: Line, mainline: bool)
    requires p < |a.nodes| && line.Then?
    ensures Attach(a, p, line, mainline) ==
            Attach(AttachAll(First(a, p, line, mainline), p, |a.nodes|, line.alternatives),
                   |a.nodes|, line.rest, mainline)
  {
    hide First, Extends;
  }

  lemma LineInPieces(t: Tree, line: Line)
    requires Shape(t) && line.Then?
    ensures Feed(t, Text(line)) ==
            Feed(Feed(Feed(Step(t, Move(line.san)), Comments(line.comments)), AlternativesText(line.alternatives)),
                 Text(line.rest))
  {
    hide Feed;
    var a, b, c := [Move(line.san)], Comments(line.comments), AlternativesText(line.alternatives);
    FeedAppend(t, a + b + c, Text(line.rest));
    FeedAppend(t, a + b, c);
    FeedAppend(t, a, b);
    FeedOne(t, Move(line.san));
  }

  lemma VariationInPieces(t: Tree, a: Alternatives)
    requires Shape(t) && a.Or?
    ensures Feed(t, AlternativesText(a)) ==
            Feed(Feed(Step(Feed(Feed(Step(t, Open), Comments(a.lead)), Text(a.line)), Close), Comments(a.after)),
                 AlternativesText(a.more))
  {
    hide Feed;
    var lead, line, after := Comments(a.lead), Text(a.line), Comments(a.after);
    FeedAppend(t, [Open] + lead + line + [Close] + after, AlternativesText(a.more));
    FeedAppend(t, [Open] + lead + line + [Close], after);
    FeedAppend(t, [Open] + lead + line, [Close]);
    FeedAppend(t, [Open] + lead, line);
    FeedAppend(t, [Open], lead);
    FeedOne(t, Open);
    FeedOne(Feed(Feed(Step(t, Open), lead), line), Close);
  }

  /** One variation, from its opening bracket to what is said after its closing one. */
  lemma ReadVariation(t: Tree, p: nat, t2: Tree, t3: Tree, a: Alternatives)
    requires Ready(t) && a.Or? && p < |t.nodes| && t.nodes[t.current].parent == Some(p)
    requires t2 == Feed(Step(t, Open), Comments(a.lead)) && Ready(t3) && SameContext(t2, t3)
    requires Partial(t3.nodes, t3.pending) == Attach(Partial(t2.nodes, t2.pending), t2.current, a.line, t2.stack == [])
    ensures t2.current == p && t2.stack == t.stack + [t.current] && t2.nodes == t.nodes
            && t2.pending == t.pending + a.lead
    ensures var r := Feed(Step(t3, Close), Comments(a.after));
            && Ready(r) && SameContext(t, r) && r.current == t.current && t.current < |t3.nodes|
            && r.nodes == Noting(t3.nodes, t.current, a.after) && r.pending == t3.pending
            && r.nodes[t.current].parent == Some(p)
  {
    hide Attach, Feed;
    StepReady(t, Open);
    ReadComments(Step(t, Open), a.lead);
    StepReady(t3, Close);
    ReadComments(Step(t3, Close), a.after);
  }

  /** Alternatives to the current move hang below its parent, and reading returns to the move. */
  lemma {:induction false} ReadAlternatives(t: Tree, p: nat, a: Alternatives)
    requires Ready(t) && p < |t.nodes| && t.nodes[t.current].parent == Some(p)
    ensures var r := Feed(t, AlternativesText(a));
            && Ready(r) && SameContext(t, r) && r.current == t.current
            && Partial(r.nodes, r.pending) == AttachAll(Partial(t.nodes, t.pending), p, t.current, a)
    decreases a
  {
    match a
    case NoMore => assert Feed(t, []) == t;
    case Or(lead, line, after, more) =>
      StepReady(t, Open);
      ReadComments(Step(t, Open), lead);
      var t2 := Feed(Step(t, Open), Comments(lead));
      ReadLine(t2, line);
      var t3 := Feed(t2, Text(line));
      ReadVariation(t, p, t2, t3, a);
      var t4 := Feed(Step(t3, Close), Comments(after));
      ReadAlternatives(t4, p, more);
      VariationInPieces(t, a);
      hide Feed, Ready, Attach, AttachAll;
      AttachOr(Partial(t.nodes, t.pending), p, t.current, a);
  }

  lemma AttachOr(a: Partial, p: nat, n: nat, alternatives: Alternatives)
    requires p < |a.nodes| && n < |a.nodes| && alternatives.Or?
    ensures var b := Attach(Partial(a.nodes, a.pending + alternatives.lead), p, alternatives.line, false);
            AttachAll(a, p, n, alternatives) ==
            AttachAll(Partial(Noting(b.nodes, n, alternatives.after), b.pending), p, n, alternatives.more)
  {
  }

  /** The meaning of a whole game: opening comments are the root's, as are those no move followed. */
  function Meaning(intro: seq<string>, line: Line): seq<Node> {
    var a := Attach(Partial(Noting([ROOT], 0, intro), []), 0, line, true);
    a.nodes[0 := a.nodes[0].(starting := a.nodes[0].starting + a.pending)]
  }

  /** Well-formed move text with comments gets its structural meaning, node by node, with no bracket issue. */
  lemma BuilderMeansRav(intro: seq<string>, line: Line)
    ensures var t := Build(Comments(intro) + Text(line));
            t.nodes == Meaning(intro, line) && t.stack == [] && t.orphans == 0 && t.unmatched == 0
  {
    FeedKeepsNumbers([]);
    assert Feed(START, []) == START;
    ReadComments(START, intro);
    var t := Feed(START, Comments(intro));
    ReadLine(t, line);
    FeedAppend(START, Comments(intro), Text(line));
  }
}
