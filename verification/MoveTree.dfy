/**
 Turning a stream of PGN tokens, balanced or not, into a variation tree: a current node, a stack of
 nodes to return to when a variation closes, and a count of children per node.
 */
module MoveTree {
  import opened Common

  datatype Token = Move(san: string) | Open | Close | Comment(text: string) | Other

  datatype Node = Node(
    parent: Option<nat>, variation: nat, ply: nat, mainline: bool, san: string,
    starting: seq<string>, comments: seq<string>)

  const ROOT := Node(None, 0, 0, true, "", [], [])

  /** `orphans` counts variation_without_move issues, `unmatched` counts unmatched_variation_end issues. */
  datatype Tree = Tree(
    nodes: seq<Node>, current: nat, stack: seq<nat>, children: map<nat, nat>,
    pending: seq<string>, atStart: bool, orphans: nat, unmatched: nat)

  const START := Tree([ROOT], 0, [], map[], [], false, 0, 0)

  /** Parents precede their children; every index in use names a node. */
  ghost predicate Shape(t: Tree) {
    && |t.nodes| > 0 && t.nodes[0].parent == None
    && t.current < |t.nodes|
    && (forall i :: 0 <= i < |t.stack| ==> t.stack[i] < |t.nodes|)
    && (forall i :: 0 < i < |t.nodes| ==> t.nodes[i].parent.Some? && t.nodes[i].parent.value < i)
  }

  function Count(children: map<nat, nat>, p: nat): nat {
    if p in children then children[p] else 0
  }

  function Step(t: Tree, token: Token): (r: Tree)
    requires Shape(t)
    ensures Shape(r)
  {
    match token
    case Open =>
      var parent := t.nodes[t.current].parent;
      t.(stack := t.stack + [t.current], current := if parent.Some? then parent.value else 0, atStart := true,
         orphans := if parent.Some? then t.orphans else t.orphans + 1)
    case Close =>
      if t.stack == [] then t.(unmatched := t.unmatched + 1, atStart := false)
      else t.(current := t.stack[|t.stack| - 1], stack := t.stack[..|t.stack| - 1], atStart := false)
    case Move(san) =>
      var p := t.current;
      var node := Node(Some(p), Count(t.children, p), t.nodes[p].ply + 1, t.stack == [], san, t.pending, []);
      t.(nodes := t.nodes + [node], children := t.children[p := node.variation + 1], pending := [],
         current := |t.nodes|, atStart := false)
    case Comment(text) =>
      if t.atStart then t.(pending := t.pending + [text])
      else
        var node := t.nodes[t.current];
        t.(nodes := t.nodes[t.current := node.(comments := node.comments + [text])])
    case Other => t
  }

  /** The tree after all tokens have been read. */
  function Feed(t: Tree, tokens: seq<Token>): (r: Tree)
    requires Shape(t)
    ensures Shape(r)
    decreases |tokens|
  {
    if tokens == [] then t else Step(Feed(t, tokens[..|tokens| - 1]), tokens[|tokens| - 1])
  }

  /** Comments still waiting for a move end up at the root. */
  function Finish(t: Tree): Tree
    requires Shape(t)
  {
    t.(nodes := t.nodes[0 := t.nodes[0].(starting := t.nodes[0].starting + t.pending)], pending := [])
  }

  function Build(tokens: seq<Token>): (r: Tree)
    ensures Shape(r)
  {
    Finish(Feed(START, tokens))
  }

  /** The state of the token loop. */
  class TreeBuilder {
    var nodes: seq<Node>
    var current: nat
    var rav: seq<nat>
    var children: map<nat, nat>
    var pending: seq<string>
    var atStart: bool
    var orphans: nat
    var unmatched: nat

    ghost function View(): Tree
      reads this
    {
      Tree(nodes, current, rav, children, pending, atStart, orphans, unmatched)
    }

    constructor ()
      ensures View() == START
    {
      nodes, current, rav, children := [ROOT], 0, [], map[];
      pending, atStart, orphans, unmatched := [], false, 0, 0;
    }

    method Read(token: Token)
      requires Shape(View())
      modifies this
      ensures View() == Step(old(View()), token)
    {
      match token
      case Open =>
        rav := rav + [current];
        var parent := nodes[current].parent;
        if parent.None? { orphans := orphans + 1; }
        current := if parent.Some? then parent.value else 0;
        atStart := true;
      case Close =>
        if rav != [] {
          current := rav[|rav| - 1];
          rav := rav[..|rav| - 1];
        } else {
          unmatched := unmatched + 1;
        }
        atStart := false;
      case Move(san) =>
        var variation := if current in children then children[current] else 0;
        var node := Node(Some(current), variation, nodes[current].ply + 1, rav == [], san, pending, []);
        pending := [];
        children := children[current := variation + 1];
        nodes := nodes + [node];
        current := |nodes| - 1;
        atStart := false;
      case Comment(text) =>
        if atStart {
          pending := pending + [text];
        } else {
          var node := nodes[current];
          nodes := nodes[current := node.(comments := node.comments + [text])];
        }
      case Other =>
    }
  }

  /** The token loop of one game, and what happens to comments that found no move. */
  method Parse(tokens: seq<Token>) returns (b: TreeBuilder)
    ensures fresh(b) && b.View() == Build(tokens)
  {
    hide Step;
    b := new TreeBuilder();
    for i := 0 to |tokens|
      invariant fresh(b) && b.View() == Feed(START, tokens[..i])
    {
      assert tokens[..i + 1][..i] == tokens[..i];
      b.Read(tokens[i]);
    }
    assert tokens[..|tokens|] == tokens;
    HasRoot(b.View());
    b.nodes := b.nodes[0 := b.nodes[0].(starting := b.nodes[0].starting + b.pending)];
    b.pending := [];
  }

  lemma HasRoot(t: Tree)
    requires Shape(t)
    ensures |t.nodes| > 0
  {
  }

  // ---- The mainline ----

  /** Indices of the played moves, in order. */
  function Played(nodes: seq<Node>): seq<nat> {
    if |nodes| <= 1 then []
    else Played(nodes[..|nodes| - 1]) + if nodes[|nodes| - 1].mainline then [|nodes| - 1] else []
  }

  /** The node the game has reached: the last played one, or the root. */
  function Tip(nodes: seq<Node>): nat {
    if Played(nodes) == [] then 0 else Played(nodes)[|Played(nodes)| - 1]
  }

  /** The i-th played move hangs below the one before it, at ply i + 1. */
  ghost predicate Link(nodes: seq<Node>, p: seq<nat>, i: nat)
    requires i < |p| && p[i] < |nodes|
  {
    nodes[p[i]].ply == i + 1 && nodes[p[i]].parent == Some(if i == 0 then 0 else p[i - 1])
  }

  ghost predicate Links(nodes: seq<Node>, p: seq<nat>) {
    && (forall i :: 0 <= i < |p| ==> 0 < p[i] < |nodes| && nodes[p[i]].mainline)
    && (forall i {:trigger Link(nodes, p, i)} :: 0 <= i < |p| ==> Link(nodes, p, i))
  }

  /** The played moves form one chain from the root, with plies 1, 2, 3 and so on. */
  ghost predicate Chain(nodes: seq<Node>) { Links(nodes, Played(nodes)) }

  /** Where the mainline resumes: here when no variation is open, else at the bottom of the stack. */
  ghost predicate Resumes(t: Tree) {
    if t.stack == [] then t.current == Tip(t.nodes) else t.stack[0] == Tip(t.nodes)
  }

  lemma {:induction false} PlayedSameShape(a: seq<Node>, b: seq<Node>)
    requires |a| == |b| && forall i :: 0 <= i < |a| ==> a[i].mainline == b[i].mainline
    ensures Played(a) == Played(b)
    decreases |a|
  {
    if |a| > 1 { PlayedSameShape(a[..|a| - 1], b[..|b| - 1]); }
  }

  /** What the chain depends on is untouched by comments. */
  ghost predicate SameOutline(a: seq<Node>, b: seq<Node>) {
    |a| == |b| && forall i :: 0 <= i < |a| ==>
      && a[i].parent == b[i].parent && a[i].ply == b[i].ply && a[i].mainline == b[i].mainline
      && a[i].variation == b[i].variation
  }

  lemma ChainSame(a: seq<Node>, b: seq<Node>)
    requires SameOutline(a, b) && Chain(a)
    ensures Chain(b) && Played(b) == Played(a)
  {
    PlayedSameShape(a, b);
    forall i | 0 <= i < |Played(a)| ensures Link(b, Played(a), i) { assert Link(a, Played(a), i); }
  }

  lemma PlayedGrows(nodes: seq<Node>, node: Node)
    requires |nodes| > 0
    ensures Played(nodes + [node]) == Played(nodes) + if node.mainline then [|nodes| as nat] else []
  {
    assert (nodes + [node])[..|nodes|] == nodes;
  }

  lemma LinksStay(nodes: seq<Node>, p: seq<nat>, node: Node)
    requires Links(nodes, p)
    ensures Links(nodes + [node], p)
  {
    forall i | 0 <= i < |p| ensures Link(nodes + [node], p, i) { assert Link(nodes, p, i); }
  }

  lemma LinksExtend(nodes: seq<Node>, p: seq<nat>, k: nat)
    requires Links(nodes, p) && 0 < k < |nodes| && nodes[k].mainline
    requires nodes[k].ply == |p| + 1 && nodes[k].parent == Some(if p == [] then 0 else p[|p| - 1])
    ensures Links(nodes, p + [k])
  {
    var q := p + [k];
    forall i | 0 <= i < |q| ensures Link(nodes, q, i) { assert i < |p| ==> Link(nodes, p, i); }
  }

  lemma ChainGrows(nodes: seq<Node>, node: Node)
    requires |nodes| > 0 && Chain(nodes) && nodes[0].ply == 0
    requires node.mainline ==> node.parent == Some(Tip(nodes)) && node.ply == nodes[Tip(nodes)].ply + 1
    ensures Chain(nodes + [node])
    ensures Tip(nodes + [node]) == if node.mainline then |nodes| else Tip(nodes)
  {
    hide Played;
    PlayedGrows(nodes, node);
    var p := Played(nodes);
    LinksStay(nodes, p, node);
    assert |p| > 0 ==> Link(nodes, p, |p| - 1);
    hide Links;
    if node.mainline { LinksExtend(nodes + [node], p, |nodes|); } else { assert Played(nodes + [node]) == p; }
  }

  /** Every move is one ply below its parent. */
  ghost predicate Plies(nodes: seq<Node>) {
    && |nodes| > 0 && nodes[0].ply == 0
    && (forall i :: 0 < i < |nodes| ==> FollowsParent(nodes, i))
  }

  ghost predicate FollowsParent(nodes: seq<Node>, i: nat) {
    && i < |nodes| && nodes[i].parent.Some? && nodes[i].parent.value < i
    && nodes[i].ply == nodes[nodes[i].parent.value].ply + 1
  }

  lemma PliesKept(t: Tree, token: Token)
    requires Shape(t) && Plies(t.nodes)
    ensures Plies(Step(t, token).nodes)
  {
    var r := Step(t, token).nodes;
    forall i | 0 < i < |r| ensures FollowsParent(r, i) {
      if i < |t.nodes| { assert FollowsParent(t.nodes, i); }
    }
  }

  lemma StepKeepsChain(t: Tree, token: Token)
    requires Shape(t) && Chain(t.nodes) && Resumes(t) && t.nodes[0].ply == 0
    ensures Chain(Step(t, token).nodes) && Resumes(Step(t, token))
  {
    hide Chain, Played;
    var r := Step(t, token);
    match token
    case Move(_) => ChainGrows(t.nodes, r.nodes[|t.nodes|]);
    case Comment(_) => ChainSame(t.nodes, r.nodes);
    case _ =>
  }

  lemma {:induction false} FeedKeepsChain(tokens: seq<Token>)
    ensures Chain(Feed(START, tokens).nodes) && Resumes(Feed(START, tokens)) && Plies(Feed(START, tokens).nodes)
    decreases |tokens|
  {
    if tokens != [] {
      FeedKeepsChain(tokens[..|tokens| - 1]);
      PliesKept(Feed(START, tokens[..|tokens| - 1]), tokens[|tokens| - 1]);
      StepKeepsChain(Feed(START, tokens[..|tokens| - 1]), tokens[|tokens| - 1]);
    }
  }

  /**
   For every token sequence: parents precede children, ply is the parent's plus one, and the played
   moves are a chain with plies 1..n, so their number is the last ply and clock i belongs to ply i + 1.
   */
  lemma MainlineIsAChain(tokens: seq<Token>)
    ensures var nodes := Build(tokens).nodes;
            && Plies(nodes) && Chain(nodes)
            && Tip(nodes) < |nodes| && nodes[Tip(nodes)].ply == |Played(nodes)|
  {
    hide Chain, Plies, Feed;
    FeedKeepsChain(tokens);
    ChainSame(Feed(START, tokens).nodes, Build(tokens).nodes);
    PliesSame(Feed(START, tokens).nodes, Build(tokens).nodes);
    TipPly(Build(tokens).nodes);
  }

  lemma PliesSame(a: seq<Node>, b: seq<Node>)
    requires SameOutline(a, b) && Plies(a)
    ensures Plies(b)
  {
    forall i | 0 < i < |b| ensures FollowsParent(b, i) { assert FollowsParent(a, i); }
  }

  lemma TipPly(nodes: seq<Node>)
    requires Chain(nodes) && Plies(nodes)
    ensures Tip(nodes) < |nodes| && nodes[Tip(nodes)].ply == |Played(nodes)|
  {
    hide Played;
    var p := Played(nodes);
    assert |p| > 0 ==> Link(nodes, p, |p| - 1);
  }

  /** The node a provider's i-th clock is attached to. */
  function ClockNode(t: Tree, i: nat): Option<nat> {
    var played := Played(t.nodes);
    if i < |played| then Some(played[i]) else None
  }

  lemma ClockLandsOnItsPly(tokens: seq<Token>, i: nat)
    ensures var t, node := Build(tokens), ClockNode(Build(tokens), i);
            && (node.Some? <==> i < |Played(t.nodes)|)
            && (node.Some? ==>
                  node.value < |t.nodes| && t.nodes[node.value].mainline && t.nodes[node.value].ply == i + 1)
  {
    MainlineIsAChain(tokens);
    var nodes := Build(tokens).nodes;
    if i < |Played(nodes)| { assert Link(nodes, Played(nodes), i); }
  }

  // ---- Variation numbers ----

  /** How many of the nodes hang below p. */
  function Below(nodes: seq<Node>, p: nat): nat {
    if nodes == [] then 0
    else Below(nodes[..|nodes| - 1], p) + if nodes[|nodes| - 1].parent == Some(p) then 1 else 0
  }

  lemma {:induction false} BelowSame(a: seq<Node>, b: seq<Node>, p: nat)
    requires |a| == |b| && forall i :: 0 <= i < |a| ==> a[i].parent == b[i].parent
    ensures Below(a, p) == Below(b, p)
    decreases |a|
  {
    if a != [] { BelowSame(a[..|a| - 1], b[..|b| - 1], p); }
  }

  lemma {:induction false} BelowGrows(nodes: seq<Node>, k: nat, p: nat)
    requires k <= |nodes|
    ensures Below(nodes[..k], p) <= Below(nodes, p)
    ensures (forall i :: k <= i < |nodes| ==> nodes[i].parent != Some(p)) ==> Below(nodes[..k], p) == Below(nodes, p)
    decreases |nodes|
  {
    if k < |nodes| {
      assert nodes[..|nodes| - 1][..k] == nodes[..k];
      BelowGrows(nodes[..|nodes| - 1], k, p);
    } else {
      assert nodes[..k] == nodes;
    }
  }

  ghost predicate CountsMatch(t: Tree) { forall p :: Count(t.children, p) == Below(t.nodes, p) }

  /** A node's variation number is how many siblings came before it. */
  ghost predicate Numbered(nodes: seq<Node>) {
    forall i :: 0 < i < |nodes| ==>
      nodes[i].parent.Some? && nodes[i].variation == Below(nodes[..i], nodes[i].parent.value)
  }

  lemma NumbersGrow(nodes: seq<Node>, node: Node)
    requires |nodes| > 0 && Numbered(nodes) && node.parent.Some? && node.variation == Below(nodes, node.parent.value)
    ensures Numbered(nodes + [node])
    ensures forall p :: Below(nodes + [node], p) == Below(nodes, p) + if p == node.parent.value then 1 else 0
  {
    var more := nodes + [node];
    assert more[..|nodes|] == nodes;
    forall i | 0 < i < |more|
      ensures more[i].parent.Some? && more[i].variation == Below(more[..i], more[i].parent.value)
    {
      if i < |nodes| { assert more[..i] == nodes[..i]; }
    }
  }

  lemma StepKeepsNumbers(t: Tree, token: Token)
    requires Shape(t) && CountsMatch(t) && Numbered(t.nodes)
    ensures CountsMatch(Step(t, token)) && Numbered(Step(t, token).nodes)
  {
    hide Numbered, Below;
    var r := Step(t, token);
    if token.Move? { NumbersGrow(t.nodes, r.nodes[|t.nodes|]); } else { SameParents(t.nodes, r.nodes); }
  }

  lemma SameParents(a: seq<Node>, b: seq<Node>)
    requires |a| == |b| && forall i :: 0 <= i < |a| ==> a[i].parent == b[i].parent && a[i].variation == b[i].variation
    ensures forall p :: Below(a, p) == Below(b, p)
    ensures Numbered(a) ==> Numbered(b)
  {
    forall p ensures Below(a, p) == Below(b, p) { BelowSame(a, b, p); }
    forall i, p | 0 <= i < |a| ensures Below(a[..i], p) == Below(b[..i], p) { BelowSame(a[..i], b[..i], p); }
  }

  lemma {:induction false} FeedKeepsNumbers(tokens: seq<Token>)
    ensures CountsMatch(Feed(START, tokens)) && Numbered(Feed(START, tokens).nodes)
    decreases |tokens|
  {
    if tokens != [] {
      FeedKeepsNumbers(tokens[..|tokens| - 1]);
      StepKeepsNumbers(Feed(START, tokens[..|tokens| - 1]), tokens[|tokens| - 1]);
    }
  }

  /** Siblings are numbered 0, 1, 2 and so on in the order they were read. */
  lemma VariationsAreNumbered(tokens: seq<Token>)
    ensures Numbered(Build(tokens).nodes)
  {
    FeedKeepsNumbers(tokens);
    SameParents(Feed(START, tokens).nodes, Build(tokens).nodes);
  }
}
