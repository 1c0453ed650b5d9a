/** What the variation tree means: mainline numbering, bracket balance, and lossless comments. */
module MoveTreeTheorems {
  import opened Common
  import opened MoveTree

  function Init(tokens: seq<Token>): seq<Token>
    requires tokens != []
  {
    tokens[..|tokens| - 1]
  }

  function Last(tokens: seq<Token>): Token
    requires tokens != []
  {
    tokens[|tokens| - 1]
  }

  // ---- When is the mainline variation 0 everywhere? ----

  /** Open variations; a surplus closing bracket is ignored. */
  function Depth(tokens: seq<Token>): nat {
    if tokens == [] then 0
    else match Last(tokens)
      case Open => Depth(Init(tokens)) + 1
      case Close => if Depth(Init(tokens)) == 0 then 0 else Depth(Init(tokens)) - 1
      case _ => Depth(Init(tokens))
  }

  predicate HasMove(tokens: seq<Token>) {
    tokens != [] && (HasMove(Init(tokens)) || Last(tokens).Move?)
  }

  /** Some move stands outside every variation. */
  predicate HasPlayedMove(tokens: seq<Token>) {
    tokens != [] && (HasPlayedMove(Init(tokens)) || (Last(tokens).Move? && Depth(Init(tokens)) == 0))
  }

  /** The first move of all stands outside every variation. */
  predicate FirstMovePlayed(tokens: seq<Token>) {
    && tokens != []
    && if HasMove(Init(tokens)) then FirstMovePlayed(Init(tokens)) else Last(tokens).Move? && Depth(Init(tokens)) == 0
  }

  /** Nothing hangs below the tip of the game yet, and no open variation stands on it. */
  ghost predicate TipIsBare(t: Tree) {
    var tip := Tip(t.nodes);
    tip != 0 ==>
      && Below(t.nodes, tip) == 0
      && (t.stack != [] ==> t.current != tip && forall i :: 1 <= i < |t.stack| ==> t.stack[i] != tip)
  }

  ghost predicate MainlineFirst(nodes: seq<Node>) {
    forall i :: 0 < i < |nodes| && nodes[i].mainline ==> nodes[i].variation == 0
  }

  ghost predicate FirstIsPlayed(nodes: seq<Node>) { |nodes| > 1 && nodes[1].mainline }

  lemma {:induction false} BelowZero(nodes: seq<Node>, p: nat)
    ensures Below(nodes, p) == 0 <==> forall i :: 0 <= i < |nodes| ==> nodes[i].parent != Some(p)
    decreases |nodes|
  {
    if nodes != [] { BelowZero(nodes[..|nodes| - 1], p); }
  }

  lemma {:induction false} PlayedWithin(nodes: seq<Node>)
    ensures forall i :: 0 <= i < |Played(nodes)| ==> 0 < Played(nodes)[i] < |nodes|
    ensures Played(nodes) == [] <==> forall i :: 0 < i < |nodes| ==> !nodes[i].mainline
    decreases |nodes|
  {
    if |nodes| > 1 {
      var init, last := nodes[..|nodes| - 1], nodes[|nodes| - 1];
      PlayedWithin(init);
      assert nodes == init + [last];
      PlayedGrows(init, last);
      hide Played;
      assert forall i :: 0 < i < |init| ==> init[i].mainline == nodes[i].mainline;
    }
  }

  lemma MoveBare(t: Tree, san: string)
    requires Shape(t) && Resumes(t) && TipIsBare(t)
    ensures TipIsBare(Step(t, Move(san)))
  {
    hide Played, Below;
    var r, n := Step(t, Move(san)), |t.nodes|;
    PlayedGrows(t.nodes, r.nodes[n]);
    PlayedWithin(t.nodes);
    BelowZero(r.nodes, Tip(r.nodes));
    if t.stack != [] {
      BelowZero(t.nodes, Tip(t.nodes));
      assert Tip(r.nodes) == Tip(t.nodes);
    } else {
      assert Tip(r.nodes) == n;
    }
  }

  lemma OpenBare(t: Tree)
    requires Shape(t) && Resumes(t) && TipIsBare(t)
    ensures TipIsBare(Step(t, Open))
  {
    hide Played;
    BelowZero(t.nodes, Tip(t.nodes));
    PlayedWithin(t.nodes);
  }

  lemma StepKeepsBare(t: Tree, token: Token)
    requires Shape(t) && Resumes(t) && TipIsBare(t)
    ensures TipIsBare(Step(t, token))
  {
    match token
    case Move(san) => MoveBare(t, san);
    case Open => OpenBare(t);
    case Comment(_) =>
      PlayedSameShape(t.nodes, Step(t, token).nodes);
      BelowSame(t.nodes, Step(t, token).nodes, Tip(t.nodes));
    case _ =>
  }

  /** A new mainline move is its parent's first child unless a variation came before any played move. */
  lemma NewMoveFirst(t: Tree, san: string)
    requires Shape(t) && Resumes(t) && TipIsBare(t) && CountsMatch(t)
    ensures var node := Step(t, Move(san)).nodes[|t.nodes|];
            node.mainline ==> (node.variation == 0 <==> Tip(t.nodes) != 0 || |t.nodes| == 1)
  {
    BelowZero(t.nodes, 0);
    if |t.nodes| > 1 { assert t.nodes[1].parent == Some(0); }
  }

  ghost predicate Exact(nodes: seq<Node>) {
    MainlineFirst(nodes) <==> (Played(nodes) == [] || FirstIsPlayed(nodes))
  }

  lemma StepKeepsExact(t: Tree, token: Token)
    requires Shape(t) && Resumes(t) && TipIsBare(t) && CountsMatch(t) && Exact(t.nodes)
    ensures Exact(Step(t, token).nodes)
  {
    hide Played, Tip, TipIsBare, CountsMatch;
    var r := Step(t, token);
    PlayedWithin(t.nodes);
    PlayedWithin(r.nodes);
    TipZero(t.nodes);
    match token
    case Move(san) =>
      NewMoveFirst(t, san);
      var node := r.nodes[|t.nodes|];
      assert forall i :: 0 < i < |t.nodes| ==> r.nodes[i] == t.nodes[i];
      assert MainlineFirst(r.nodes) <==> MainlineFirst(t.nodes) && (node.mainline ==> node.variation == 0);
    case Comment(_) => PlayedSameShape(t.nodes, r.nodes);
    case _ =>
  }

  lemma TipZero(nodes: seq<Node>)
    ensures Tip(nodes) == 0 <==> Played(nodes) == []
  {
    PlayedWithin(nodes);
  }

  /** How the tree and the text agree on depth, moves and played moves. */
  ghost predicate Reads(t: Tree, tokens: seq<Token>) {
    && |t.stack| == Depth(tokens) && |t.nodes| > 0
    && (|t.nodes| > 1 <==> HasMove(tokens))
    && (FirstIsPlayed(t.nodes) <==> FirstMovePlayed(tokens))
    && (Played(t.nodes) != [] <==> HasPlayedMove(tokens))
  }

  /** One token at a time. */
  lemma Unfold(tokens: seq<Token>)
    requires tokens != []
    ensures var init, last := Init(tokens), Last(tokens);
            && Feed(START, tokens) == Step(Feed(START, init), last)
            && Depth(tokens) == (if last.Open? then Depth(init) + 1
                                 else if last.Close? && Depth(init) > 0 then Depth(init) - 1 else Depth(init))
            && (HasMove(tokens) <==> HasMove(init) || last.Move?)
            && (HasPlayedMove(tokens) <==> HasPlayedMove(init) || (last.Move? && Depth(init) == 0))
            && (FirstMovePlayed(tokens) <==>
                if HasMove(init) then FirstMovePlayed(init) else last.Move? && Depth(init) == 0)
            && Excess(tokens) == Excess(init) + (if last.Open? then 1 else if last.Close? then -1 else 0)
  {
  }

  lemma StepReads(tokens: seq<Token>)
    requires tokens != [] && Reads(Feed(START, Init(tokens)), Init(tokens))
    ensures Reads(Feed(START, tokens), tokens)
  {
    hide Played, Feed, Depth, HasMove, HasPlayedMove, FirstMovePlayed;
    Unfold(tokens);
    StepOutline(Feed(START, Init(tokens)), Last(tokens));
  }

  lemma StepOutline(t: Tree, token: Token)
    requires Shape(t)
    ensures var r := Step(t, token);
            && |r.nodes| == |t.nodes| + (if token.Move? then 1 else 0)
            && (forall i :: 0 <= i < |t.nodes| ==> r.nodes[i].mainline == t.nodes[i].mainline)
            && (token.Move? ==> r.nodes[|t.nodes|].mainline == (t.stack == []))
            && (Played(r.nodes) == [] <==> Played(t.nodes) == [] && !(token.Move? && t.stack == []))
  {
    hide Played;
    var r := Step(t, token);
    if token.Move? { PlayedGrows(t.nodes, r.nodes[|t.nodes|]); } else { PlayedSameShape(t.nodes, r.nodes); }
  }

  /** Without a variation_without_move issue the first move is a played one. */
  ghost predicate NoOrphans(t: Tree, tokens: seq<Token>) {
    t.orphans == 0 ==> if HasMove(tokens) then FirstMovePlayed(tokens) else t.stack == [] && t.current == 0
  }

  lemma StepNoOrphans(tokens: seq<Token>)
    requires tokens != [] && Reads(Feed(START, Init(tokens)), Init(tokens))
             && NoOrphans(Feed(START, Init(tokens)), Init(tokens))
    ensures NoOrphans(Feed(START, tokens), tokens)
  {
    hide Played, Feed, Depth, HasMove, HasPlayedMove, FirstMovePlayed;
    Unfold(tokens);
    assert Feed(START, Init(tokens)).nodes[0].parent == None;
  }

  lemma {:induction false} FeedReads(tokens: seq<Token>)
    ensures Reads(Feed(START, tokens), tokens) && NoOrphans(Feed(START, tokens), tokens)
    ensures TipIsBare(Feed(START, tokens)) && Exact(Feed(START, tokens).nodes)
    decreases |tokens|
  {
    if tokens != [] {
      FeedReads(Init(tokens));
      hide Reads, NoOrphans, Exact, TipIsBare, Step;
      StepReads(tokens);
      StepNoOrphans(tokens);
      FeedKeepsChain(Init(tokens));
      FeedKeepsNumbers(Init(tokens));
      StepKeepsBare(Feed(START, Init(tokens)), Last(tokens));
      StepKeepsExact(Feed(START, Init(tokens)), Last(tokens));
    }
  }

  /**
   Every played move is its parent's variation 0 exactly when no variation with a move precedes the
   first played move; in particular whenever no variation_without_move issue was recorded.
   */
  lemma MainlineIsFirstVariation(tokens: seq<Token>)
    ensures MainlineFirst(Build(tokens).nodes) <==> (HasPlayedMove(tokens) ==> FirstMovePlayed(tokens))
    ensures Build(tokens).orphans == 0 ==> MainlineFirst(Build(tokens).nodes)
  {
    FeedReads(tokens);
    hide Played, Feed;
    var nodes := Feed(START, tokens).nodes;
    PlayedWithin(nodes);
    assert |nodes| == |Build(tokens).nodes| && forall i :: 0 < i < |nodes| ==> nodes[i] == Build(tokens).nodes[i];
    assert MainlineFirst(nodes) <==> MainlineFirst(Build(tokens).nodes);
  }

  /** A bracket before the first move makes the first played move variation 1 of the root. */
  lemma DisplacedMainline()
    ensures var t := Build([Open, Move("d4"), Close, Move("e4")]);
            |t.nodes| == 3 && t.nodes[2].mainline && t.nodes[2].variation == 1 && t.orphans == 1
  {
    var tokens := [Open, Move("d4"), Close, Move("e4")];
    assert tokens[..3] == [Open, Move("d4"), Close];
    assert tokens[..3][..2] == [Open, Move("d4")];
    assert tokens[..3][..2][..1] == [Open];
    assert [Open][..0] == [];
    var t1 := Feed(START, [Open]);
    assert t1 == Step(START, Open);
    var t2 := Feed(START, [Open, Move("d4")]);
    assert t2 == Step(t1, Move("d4"));
    var t3 := Feed(START, [Open, Move("d4"), Close]);
    assert t3 == Step(t2, Close);
  }

  // ---- Balance ----

  function Excess(tokens: seq<Token>): int {
    if tokens == [] then 0
    else Excess(Init(tokens)) + match Last(tokens) case Open => 1 case Close => -1 case _ => 0
  }

  /** Every closing bracket has an opening one before it. */
  ghost predicate Nested(tokens: seq<Token>) { forall i :: 0 <= i <= |tokens| ==> Excess(tokens[..i]) >= 0 }

  lemma {:induction false} FeedBalance(tokens: seq<Token>)
    ensures Feed(START, tokens).unmatched == 0 <==> Nested(tokens)
    ensures Nested(tokens) ==> |Feed(START, tokens).stack| == Excess(tokens)
    decreases |tokens|
  {
    if tokens != [] {
      var init := Init(tokens);
      FeedBalance(init);
      Unfold(tokens);
      hide Feed, Excess;
      assert forall i :: 0 <= i <= |init| ==> init[..i] == tokens[..i];
      assert tokens[..|tokens|] == tokens;
      assert Nested(tokens) <==> Nested(init) && Excess(tokens) >= 0;
    } else {
      assert forall i :: 0 <= i <= |tokens| ==> tokens[..i] == [];
    }
  }

  /** The bracket issues are absent exactly when the brackets balance. */
  lemma BracketIssuesExact(tokens: seq<Token>)
    ensures Build(tokens).unmatched == 0 && Build(tokens).stack == [] <==> Nested(tokens) && Excess(tokens) == 0
  {
    FeedBalance(tokens);
  }

  // ---- Text with stray brackets ----

  /** The tokens without closing brackets that close nothing. */
  function WithoutStray(tokens: seq<Token>): (r: seq<Token>)
    ensures |r| <= |tokens|
  {
    if tokens == [] then []
    else
      var kept := WithoutStray(Init(tokens));
      if Last(tokens).Close? && Excess(kept) == 0 then kept else kept + [Last(tokens)]
  }

  /** The last bracket or move, if any, is an opening bracket. */
  predicate JustOpened(tokens: seq<Token>) {
    tokens != [] && (Last(tokens).Open? || ((Last(tokens).Comment? || Last(tokens).Other?) && JustOpened(Init(tokens))))
  }

  /** Where the tree of the tokens differs from that of the kept ones, and where comments go next. */
  ghost predicate Aside(t: Tree, u: Tree, stray: nat, depth: int, waiting: bool) {
    t == u.(unmatched := stray) && |t.stack| == depth && t.atStart == waiting && (t.atStart ==> t.stack != [])
  }

  /** Counting issues does not change what a token does. */
  lemma StepAside(t: Tree, u: Tree, token: Token, stray: nat, depth: int, waiting: bool)
    requires Shape(t) && Shape(u) && Aside(t, u, stray, depth, waiting)
    ensures var opens := token.Open? || ((token.Comment? || token.Other?) && waiting);
            if token.Close? && depth == 0 then Aside(Step(t, token), u, stray + 1, depth, opens)
            else Aside(Step(t, token), Step(u, token), stray,
                       depth + (if token.Open? then 1 else if token.Close? then -1 else 0), opens)
  {
  }

  /** The statement of the theorem below. */
  ghost predicate StrayAside(tokens: seq<Token>) {
    var kept := WithoutStray(tokens);
    Aside(Feed(START, tokens), Feed(START, kept), |tokens| - |kept|, Excess(kept), JustOpened(tokens))
  }

  lemma OneMoreAside(tokens: seq<Token>, last: Token)
    requires StrayAside(tokens)
    ensures StrayAside(tokens + [last])
  {
    var kept := WithoutStray(tokens);
    hide Feed, Excess, Step, WithoutStray, JustOpened, Aside;
    KeptMore(tokens, last);
    FeedMore(tokens, last);
    FeedMore(kept, last);
    StepAside(Feed(START, tokens), Feed(START, kept), last, |tokens| - |kept|, Excess(kept), JustOpened(tokens));
  }

  lemma {:induction false} AllAside(tokens: seq<Token>)
    ensures StrayAside(tokens)
  {
    if tokens == [] { return; }
    hide StrayAside;
    AllAside(Init(tokens));
    OneMoreAside(Init(tokens), Last(tokens));
    assert Init(tokens) + [Last(tokens)] == tokens;
  }

  /**
   A stray closing bracket counts as an issue and changes nothing else: any text gets the tree of the
   text without them. A comment waits for the next move exactly right after an opening bracket.
   */
  lemma StrayClosesChangeNothing(tokens: seq<Token>)
    ensures var kept := WithoutStray(tokens);
            && Build(tokens) == Build(kept).(unmatched := |tokens| - |kept|) && |Build(tokens).stack| == Excess(kept)
    ensures Feed(START, tokens).atStart <==> JustOpened(tokens)
  {
    AllAside(tokens);
    hide Feed, Excess, WithoutStray, JustOpened;
  }

  lemma KeptMore(tokens: seq<Token>, last: Token)
    ensures var kept := WithoutStray(tokens);
            && WithoutStray(tokens + [last]) == (if last.Close? && Excess(kept) == 0 then kept else kept + [last])
            && (JustOpened(tokens + [last]) <==> last.Open? || ((last.Comment? || last.Other?) && JustOpened(tokens)))
  {
    assert (tokens + [last])[..|tokens|] == tokens;
  }

  lemma FeedMore(tokens: seq<Token>, token: Token)
    ensures Feed(START, tokens + [token]) == Step(Feed(START, tokens), token)
    ensures Excess(tokens + [token]) == Excess(tokens) + (if token.Open? then 1 else if token.Close? then -1 else 0)
  {
    assert (tokens + [token])[..|tokens|] == tokens;
  }

  // ---- Nothing said is lost ----

  function Said(tokens: seq<Token>): multiset<string> {
    if tokens == [] then multiset{}
    else Said(Init(tokens)) + if Last(tokens).Comment? then multiset{Last(tokens).text} else multiset{}
  }

  function Noted(nodes: seq<Node>): multiset<string> {
    if nodes == [] then multiset{}
    else
      var last := nodes[|nodes| - 1];
      Noted(nodes[..|nodes| - 1]) + multiset(last.starting) + multiset(last.comments)
  }

  lemma {:induction false} NotedAt(nodes: seq<Node>, i: nat, text: seq<string>, node: Node)
    requires i < |nodes|
    requires multiset(node.starting) + multiset(node.comments)
          == multiset(nodes[i].starting) + multiset(nodes[i].comments) + multiset(text)
    ensures Noted(nodes[i := node]) == Noted(nodes) + multiset(text)
    decreases |nodes|
  {
    var n := |nodes| - 1;
    if i < n {
      assert nodes[i := node][..n] == nodes[..n][i := node];
      NotedAt(nodes[..n], i, text, node);
      NotedLast(nodes);
      NotedLast(nodes[i := node]);
      hide Noted;
    } else {
      assert nodes[i := node][..n] == nodes[..n];
      NotedLast(nodes);
      NotedLast(nodes[i := node]);
      hide Noted;
    }
  }

  function Notes(node: Node): multiset<string> { multiset(node.starting) + multiset(node.comments) }

  lemma NotedLast(nodes: seq<Node>)
    requires nodes != []
    ensures Noted(nodes) == Noted(nodes[..|nodes| - 1]) + Notes(nodes[|nodes| - 1])
  {
  }

  lemma StepNotes(t: Tree, token: Token)
    requires Shape(t)
    ensures var r := Step(t, token);
            Noted(r.nodes) + multiset(r.pending)
            == Noted(t.nodes) + multiset(t.pending) + if token.Comment? then multiset{token.text} else multiset{}
  {
    var r := Step(t, token);
    match token
    case Move(_) => assert r.nodes[..|t.nodes|] == t.nodes;
    case Comment(text) =>
      if !t.atStart {
        var node := t.nodes[t.current];
        assert multiset(node.comments + [text]) == multiset(node.comments) + multiset([text]);
        NotedAt(t.nodes, t.current, [text], r.nodes[t.current]);
      }
    case _ =>
  }

  lemma {:induction false} FeedNotes(tokens: seq<Token>)
    ensures var t := Feed(START, tokens); Noted(t.nodes) + multiset(t.pending) == Said(tokens)
    decreases |tokens|
  {
    if tokens != [] {
      FeedNotes(Init(tokens));
      StepNotes(Feed(START, Init(tokens)), Last(tokens));
    } else {
      assert START.nodes[..0] == [];
    }
  }

  /** Every comment of the text sits on exactly one node, as often as it was written. */
  lemma CommentsAreKept(tokens: seq<Token>)
    ensures Noted(Build(tokens).nodes) == Said(tokens)
  {
    FeedNotes(tokens);
    var t := Feed(START, tokens);
    assert multiset(t.nodes[0].starting + t.pending) == multiset(t.nodes[0].starting) + multiset(t.pending);
    NotedAt(t.nodes, 0, t.pending, t.nodes[0].(starting := t.nodes[0].starting + t.pending));
  }
}
