/**
 The lossless lexical record of a PGN text: recognised spans, the gaps between them that hold more
 than white space, and an export that rebuilds the text from those records up to white space.
 */
module TokenCover {
  import opened Common

  /** The characters Python's `str.strip` removes. */
  predicate Space(c: char) {
    || '\U{9}' <= c <= '\U{d}' || '\U{1c}' <= c <= '\U{20}' || c == '\U{85}' || c == '\U{a0}' || c == '\U{1680}'
    || '\U{2000}' <= c <= '\U{200a}' || c == '\U{2028}' || c == '\U{2029}' || c == '\U{202f}' || c == '\U{205f}'
    || c == '\U{3000}'
  }

  const BOM := '\U{feff}'

  function Ink(s: string): string {
    if s == [] then [] else (if Space(s[0]) then [] else [s[0]]) + Ink(s[1..])
  }

  predicate Blank(s: string) { forall i :: 0 <= i < |s| ==> Space(s[i]) }

  function StripLeft(s: string): string {
    if s != [] && Space(s[0]) then StripLeft(s[1..]) else s
  }

  function StripRight(s: string): string {
    if s != [] && Space(s[|s| - 1]) then StripRight(s[..|s| - 1]) else s
  }

  function Strip(s: string): string { StripRight(StripLeft(s)) }

  lemma {:induction false} InkAppend(a: string, b: string)
    ensures Ink(a + b) == Ink(a) + Ink(b)
  {
    if a == [] {
      assert a + b == b;
    } else {
      assert (a + b)[1..] == a[1..] + b;
      InkAppend(a[1..], b);
    }
  }

  lemma {:induction false} BlankHasNoInk(s: string)
    ensures Blank(s) <==> Ink(s) == []
  {
    if s != [] {
      BlankHasNoInk(s[1..]);
      assert Blank(s) <==> Space(s[0]) && Blank(s[1..]) by {
        assert forall i :: 0 < i < |s| ==> s[i] == s[1..][i - 1];
      }
    }
  }

  lemma {:induction false} StripLeftInk(s: string)
    ensures Ink(StripLeft(s)) == Ink(s) && (StripLeft(s) != [] ==> !Space(StripLeft(s)[0]))
  {
    if s != [] && Space(s[0]) { StripLeftInk(s[1..]); }
  }

  lemma {:induction false} StripRightInk(s: string)
    ensures Ink(StripRight(s)) == Ink(s) && (StripRight(s) != [] ==> !Space(StripRight(s)[|StripRight(s)| - 1]))
    decreases |s|
  {
    if s != [] && Space(s[|s| - 1]) {
      var init, last := s[..|s| - 1], s[|s| - 1..];
      assert s == init + last;
      InkAppend(init, last);
      StripRightInk(init);
    }
  }

  /** Stripping keeps every visible character and leaves nothing exactly of a blank text. */
  lemma StripKeepsInk(s: string)
    ensures Ink(Strip(s)) == Ink(s)
    ensures Strip(s) == [] <==> Blank(s)
  {
    StripLeftInk(s);
    StripRightInk(StripLeft(s));
    BlankHasNoInk(s);
    var r := Strip(s);
    if r != [] {
      assert r == r[..|r| - 1] + [r[|r| - 1]];
      InkAppend(r[..|r| - 1], [r[|r| - 1]]);
    }
  }

  /** Stripping takes blanks off both ends and nothing else: the kept part begins and ends with a visible character. */
  ghost predicate Trimmed(s: string, from: nat, to: nat) {
    && from <= to <= |s| && Blank(s[..from]) && Blank(s[to..])
    && (from < to ==> !Space(s[from]) && !Space(s[to - 1]))
  }

  lemma {:induction false} StripLeftTrims(s: string) returns (from: nat)
    ensures from <= |s| && StripLeft(s) == s[from..] && Blank(s[..from])
    ensures from < |s| ==> !Space(s[from])
  {
    from := 0;
    if s != [] && Space(s[0]) {
      var rest := StripLeftTrims(s[1..]);
      from := rest + 1;
      assert s[from..] == s[1..][rest..];
      assert forall i :: 0 < i < from ==> s[i] == s[1..][..rest][i - 1];
    }
  }

  lemma {:induction false} StripRightTrims(s: string) returns (to: nat)
    ensures to <= |s| && StripRight(s) == s[..to] && Blank(s[to..])
    ensures 0 < to ==> !Space(s[to - 1])
    decreases |s|
  {
    to := |s|;
    if s != [] && Space(s[|s| - 1]) {
      var init := s[..|s| - 1];
      to := StripRightTrims(init);
      assert s[..to] == init[..to];
      assert forall i :: to <= i < |init| ==> s[i] == init[to..][i - to];
    }
  }

  lemma StripTrims(s: string) returns (from: nat, to: nat)
    ensures Trimmed(s, from, to) && Strip(s) == s[from..to]
  {
    from := StripLeftTrims(s);
    var n := StripRightTrims(s[from..]);
    to := from + n;
    assert s[from..][..n] == s[from..to] && s[from..][n..] == s[to..];
  }

  // ---- Tokens ----

  datatype Kind = ByteOrderMark | Gap | Tail | Header | Escape | CommentToEol | Plain

  datatype Span = Span(start: nat, end: nat, kind: Kind)

  datatype Lexeme = Lexeme(kind: Kind, text: string, start: nat, end: nat)

  predicate Synthetic(kind: Kind) { kind == ByteOrderMark || kind == Gap || kind == Tail }

  function From(text: string): nat { if text != [] && text[0] == BOM then 1 else 0 }

  /** Ordered, disjoint matches of the grammar, none of them a kind the tokenizer adds itself. */
  ghost predicate Matches(text: string, spans: seq<Span>) {
    && (forall i :: 0 <= i < |spans| ==>
          From(text) <= spans[i].start <= spans[i].end <= |text| && !Synthetic(spans[i].kind))
    && (forall i, k :: 0 <= i < k < |spans| ==> spans[i].end <= spans[k].start)
  }

  /** Tokens are slices of text[..upto], in order and disjoint, and all that lies between them is blank. */
  ghost predicate Covers(text: string, tokens: seq<Lexeme>, upto: nat)
    requires upto <= |text|
    decreases |tokens|
  {
    if tokens == [] then Blank(text[..upto])
    else
      var last := tokens[|tokens| - 1];
      && last.start <= last.end <= upto && last.text == text[last.start..last.end]
      && Blank(text[last.end..upto]) && Covers(text, tokens[..|tokens| - 1], last.start)
  }

  /** The tokens that came from the grammar, as spans. */
  function Recognised(tokens: seq<Lexeme>): seq<Span> {
    if tokens == [] then []
    else
      var last := tokens[|tokens| - 1];
      Recognised(tokens[..|tokens| - 1]) + if Synthetic(last.kind) then [] else [Span(last.start, last.end, last.kind)]
  }

  ghost predicate GapsMatter(tokens: seq<Lexeme>) {
    forall i :: 0 <= i < |tokens| && (tokens[i].kind == Gap || tokens[i].kind == Tail) ==> !Blank(tokens[i].text)
  }

  /**
   Where the tokens of the tokenizer's own kinds stand: the mark first, the tail last, and a gap right
   before a token of the grammar. There is no tail yet unless `done`.
   */
  ghost predicate OwnTokens(text: string, tokens: seq<Lexeme>, done: bool) {
    && (text != [] && text[0] == '\U{feff}' ==> tokens != [] && tokens[0] == Lexeme(ByteOrderMark, text[..1], 0, 1))
    && (forall i :: 0 <= i < |tokens| && tokens[i].kind == ByteOrderMark ==>
          i == 0 && text != [] && text[0] == '\U{feff}')
    && (forall i :: 0 <= i < |tokens| && tokens[i].kind == Tail ==>
          done && i == |tokens| - 1 && tokens[i].end == |text|)
    && (forall i :: 0 <= i < |tokens| && tokens[i].kind == Gap ==>
          i + 1 < |tokens| && tokens[i].end == tokens[i + 1].start && !Synthetic(tokens[i + 1].kind))
  }

  lemma CoverMore(text: string, tokens: seq<Lexeme>, mid: nat, token: Lexeme)
    requires mid <= token.start <= token.end <= |text| && token.text == text[token.start..token.end]
    requires Covers(text, tokens, mid) && Blank(text[mid..token.start])
    ensures Covers(text, tokens + [token], token.end)
    ensures Recognised(tokens + [token]) ==
            Recognised(tokens) + if Synthetic(token.kind) then [] else [Span(token.start, token.end, token.kind)]
  {
    CoverBlank(text, tokens, mid, token.start);
    assert (tokens + [token])[..|tokens|] == tokens;
  }

  lemma CoverBlank(text: string, tokens: seq<Lexeme>, mid: nat, upto: nat)
    requires mid <= upto <= |text| && Covers(text, tokens, mid) && Blank(text[mid..upto])
    ensures Covers(text, tokens, upto)
  {
    var from := if tokens == [] then 0 else tokens[|tokens| - 1].end;
    assert text[from..upto] == text[from..mid] + text[mid..upto];
    assert text[..upto] == text[0..upto] && text[..mid] == text[0..mid];
  }

  function Slice(text: string, kind: Kind, start: nat, end: nat): Lexeme
    requires start <= end <= |text|
  {
    Lexeme(kind, text[start..end], start, end)
  }

  /** Keeps what lies between the last token and position `to`, if it is more than white space. */
  method KeepGap(text: string, tokens: seq<Lexeme>, end: nat, to: nat, kind: Kind) returns (more: seq<Lexeme>)
    requires end <= to <= |text| && Covers(text, tokens, end) && GapsMatter(tokens) && (kind == Gap || kind == Tail)
    ensures Covers(text, more, to) && GapsMatter(more) && Recognised(more) == Recognised(tokens)
    ensures more == tokens || more == tokens + [Lexeme(kind, text[end..to], end, to)]
  {
    hide Covers, Recognised, Strip, Space;
    StripKeepsInk(text[end..to]);
    if Strip(text[end..to]) != [] {
      EmptyIsBlank(text, end);
      CoverMore(text, tokens, end, Slice(text, kind, end, to));
      more := tokens + [Slice(text, kind, end, to)];
    } else {
      CoverBlank(text, tokens, end, to);
      more := tokens;
    }
  }

  /** The token loop: what the grammar missed is kept as gap and tail tokens. */
  method Tokenize(text: string, spans: seq<Span>) returns (tokens: seq<Lexeme>)
    requires Matches(text, spans)
    ensures Covers(text, tokens, |text|) && Recognised(tokens) == spans && GapsMatter(tokens)
    ensures OwnTokens(text, tokens, true)
  {
    hide Covers, Recognised, Blank, OwnTokens;
    OwnStart(text);
    tokens := [];
    EmptyCover(text);
    EmptyIsBlank(text, 0);
    var end: nat := 0;
    if From(text) == 1 {
      CoverMore(text, [], 0, Slice(text, ByteOrderMark, 0, 1));
      tokens := [] + [Slice(text, ByteOrderMark, 0, 1)];
      end := 1;
    }
    for i := 0 to |spans|
      invariant end <= |text| && end == if i == 0 then From(text) else spans[i - 1].end
      invariant Covers(text, tokens, end) && Recognised(tokens) == spans[..i] && GapsMatter(tokens)
      invariant OwnTokens(text, tokens, false)
    {
      var s := spans[i];
      OwnNext(text, tokens, Slice(text, s.kind, s.start, s.end), end);
      tokens := KeepGap(text, tokens, end, s.start, Gap);
      EmptyIsBlank(text, s.start);
      CoverMore(text, tokens, s.start, Slice(text, s.kind, s.start, s.end));
      tokens := tokens + [Slice(text, s.kind, s.start, s.end)];
      end := s.end;
      assert spans[..i + 1] == spans[..i] + [s];
    }
    assert spans[..|spans|] == spans;
    OwnTail(text, tokens, Slice(text, Tail, end, |text|));
    tokens := KeepGap(text, tokens, end, |text|, Tail);
  }

  lemma OwnStart(text: string)
    ensures var first := if From(text) == 1 then [Slice(text, ByteOrderMark, 0, 1)] else [];
            OwnTokens(text, first, false)
  {
    assert From(text) == 1 ==> text[0..1] == text[..1];
  }

  lemma OwnNext(text: string, tokens: seq<Lexeme>, token: Lexeme, end: nat)
    requires OwnTokens(text, tokens, false) && !Synthetic(token.kind) && end <= token.start <= |text|
    ensures OwnTokens(text, tokens + [token], false)
    ensures OwnTokens(text, tokens + [Lexeme(Gap, text[end..token.start], end, token.start)] + [token], false)
  {
    var gap := Lexeme(Gap, text[end..token.start], end, token.start);
    var more := tokens + [gap] + [token];
    assert more[|tokens|] == gap && more[|tokens| + 1] == token;
    assert forall i :: 0 <= i < |tokens| ==> more[i] == tokens[i];
  }

  lemma OwnTail(text: string, tokens: seq<Lexeme>, tail: Lexeme)
    requires OwnTokens(text, tokens, false) && tail.kind == Tail && tail.end == |text|
    ensures OwnTokens(text, tokens, true) && OwnTokens(text, tokens + [tail], true)
  {
  }

  lemma EmptyCover(text: string)
    ensures Covers(text, [], 0) && Recognised([]) == []
  {
  }

  lemma EmptyIsBlank(text: string, i: nat)
    requires i <= |text|
    ensures Blank(text[i..i])
  {
  }

  // ---- Exactly once ----

  predicate Holds(token: Lexeme, i: nat) { token.start <= i < token.end }

  /** Every visible character lies in exactly one token, and tokens stand in text order. */
  lemma {:induction false} CoveredExactlyOnce(text: string, tokens: seq<Lexeme>, upto: nat, i: nat)
    requires upto <= |text| && Covers(text, tokens, upto) && i < upto && !Space(text[i])
    ensures exists k :: 0 <= k < |tokens| && Holds(tokens[k], i)
    ensures forall j, k :: 0 <= j < k < |tokens| ==> !(Holds(tokens[j], i) && Holds(tokens[k], i))
    decreases |tokens|
  {
    InkIsNotBlank(text, i);
    if tokens != [] {
      var n := |tokens| - 1;
      var last := tokens[n];
      TokensEndBy(text, tokens[..n], last.start);
      if i < last.start {
        CoveredExactlyOnce(text, tokens[..n], last.start, i);
        var k :| 0 <= k < n && Holds(tokens[..n][k], i);
        assert Holds(tokens[k], i);
        forall j, k | 0 <= j < k < |tokens| ensures !(Holds(tokens[j], i) && Holds(tokens[k], i)) {
          if k < n { assert tokens[..n][j] == tokens[j] && tokens[..n][k] == tokens[k]; }
        }
      } else {
        assert Holds(tokens[n], i);
        forall j | 0 <= j < n ensures !Holds(tokens[j], i) { assert tokens[..n][j] == tokens[j]; }
      }
    }
  }

  lemma InkIsNotBlank(text: string, i: nat)
    requires i < |text| && !Space(text[i])
    ensures forall a, b :: 0 <= a <= i < b <= |text| ==> !Blank(text[a..b])
    ensures forall b :: i < b <= |text| ==> !Blank(text[..b])
  {
    forall a, b | 0 <= a <= i < b <= |text| ensures !Blank(text[a..b]) { assert text[a..b][i - a] == text[i]; }
    forall b | i < b <= |text| ensures !Blank(text[..b]) { assert text[..b][i] == text[i]; }
  }

  lemma {:induction false} TokensEndBy(text: string, tokens: seq<Lexeme>, upto: nat)
    requires upto <= |text| && Covers(text, tokens, upto)
    ensures forall j :: 0 <= j < |tokens| ==> tokens[j].end <= upto
    decreases |tokens|
  {
    if tokens != [] {
      var n := |tokens| - 1;
      TokensEndBy(text, tokens[..n], tokens[n].start);
      forall j | 0 <= j < n ensures tokens[j].end <= upto { assert tokens[..n][j] == tokens[j]; }
    }
  }

  // ---- Export ----

  predicate InHeaders(kind: Kind) { kind == ByteOrderMark || kind == Header }

  function Body(token: Lexeme): string {
    match token.kind
    case ByteOrderMark => token.text
    case Header => token.text + "\n"
    case Escape => "\n" + (token.text + "\n")
    case CommentToEol => token.text + "\n"
    case _ => token.text + " "
  }

  // ---- Layout ----

  /** No token before i is one of the moves section, and i is. */
  ghost predicate OpensMoves(tokens: seq<Lexeme>, i: nat)
    requires i < |tokens|
  {
    && tokens[i].kind != ByteOrderMark && tokens[i].kind != Header
    && forall k :: 0 <= k < i ==> tokens[k].kind == ByteOrderMark || tokens[k].kind == Header
  }

  /** The position after the first i tokens and what closes the last of them: one character, but none after a mark. */
  ghost function Edge(tokens: seq<Lexeme>, at: seq<nat>, i: nat): nat
    requires i <= |tokens| && i <= |at|
  {
    if i == 0 then 0
    else at[i - 1] + |tokens[i - 1].text| + if tokens[i - 1].kind == ByteOrderMark then 0 else 1
  }

  /**
   Token i stands at at[i], right after its predecessor's close. An empty line goes before the moves, and
   an escape begins a line of its own. A line break closes a header, an escape and a comment to the end
   of its line; a blank closes any other token.
   */
  ghost predicate InPlace(tokens: seq<Lexeme>, raw: string, at: seq<nat>, i: nat)
    requires i < |tokens| && i < |at|
  {
    var kind, end := tokens[i].kind, at[i] + |tokens[i].text|;
    var opens, breaks := OpensMoves(tokens, i), kind == Escape;
    && at[i] == Edge(tokens, at, i) + (if opens then 1 else 0) + (if breaks then 1 else 0)
    && end <= |raw| && raw[at[i]..end] == tokens[i].text
    && (opens || breaks ==> raw[at[i] - 1] == '\n')
    && (opens && breaks ==> raw[at[i] - 2] == '\n')
    && (kind == Header || kind == Escape || kind == CommentToEol ==> end < |raw| && raw[end] == '\n')
    && (kind == Gap || kind == Tail || kind == Plain ==> end < |raw| && raw[end] == ' ')
  }

  /** The first |at| tokens, laid out, with nothing else between or after them. */
  ghost predicate LaidOut(tokens: seq<Lexeme>, raw: string, at: seq<nat>) {
    && |at| <= |tokens| && |raw| == Edge(tokens, at, |at|)
    && forall i :: 0 <= i < |at| ==> InPlace(tokens, raw, at, i)
  }

  lemma InPlaceStays(tokens: seq<Lexeme>, raw: string, at: seq<nat>, i: nat, more: string, next: nat)
    requires i < |tokens| && i < |at| && InPlace(tokens, raw, at, i)
    ensures InPlace(tokens, raw + more, at + [next], i)
  {
    hide OpensMoves;
    var end := at[i] + |tokens[i].text|;
    assert (raw + more)[at[i]..end] == raw[at[i]..end];
  }

  lemma LayOutOneMore(tokens: seq<Lexeme>, raw: string, at: seq<nat>, opening: string)
    requires |at| < |tokens| && LaidOut(tokens, raw, at)
    requires opening == if OpensMoves(tokens, |at|) then "\n" else ""
    ensures var token := tokens[|at|];
            var more := opening + Body(token);
            LaidOut(tokens, raw + more, at + [|raw| + |opening| + if token.kind == Escape then 1 else 0])
  {
    var n, token := |at|, tokens[|at|];
    var more := opening + Body(token);
    var pos := |raw| + |opening| + if token.kind == Escape then 1 else 0;
    forall i | 0 <= i < n ensures InPlace(tokens, raw + more, at + [pos], i) {
      InPlaceStays(tokens, raw, at, i, more, pos);
    }
    LastInPlace(tokens, raw, at, opening);
    hide InPlace, OpensMoves, Body;
  }

  lemma LastInPlace(tokens: seq<Lexeme>, raw: string, at: seq<nat>, opening: string)
    requires |at| < |tokens| && |raw| == Edge(tokens, at, |at|)
    requires opening == if OpensMoves(tokens, |at|) then "\n" else ""
    ensures var n, token := |at|, tokens[|at|];
            var more := opening + Body(token);
            var all := at + [|raw| + |opening| + if token.kind == Escape then 1 else 0];
            InPlace(tokens, raw + more, all, n) && |raw + more| == Edge(tokens, all, n + 1)
  {
    var n, token := |at|, tokens[|at|];
    var pos := |raw| + |opening| + if token.kind == Escape then 1 else 0;
    hide OpensMoves, Edge, Body, Close, InPlace;
    EdgeGrows(tokens, at, pos);
    BodyInPlace(token, raw, opening);
    PlacedLast(tokens, raw + (opening + Body(token)), at + [pos], n, opening);
  }

  lemma EdgeGrows(tokens: seq<Lexeme>, at: seq<nat>, pos: nat)
    requires |at| < |tokens|
    ensures Edge(tokens, at + [pos], |at|) == Edge(tokens, at, |at|)
    ensures var token := tokens[|at|];
            Edge(tokens, at + [pos], |at| + 1) == pos + |token.text| + |Close(token.kind)|
  {
  }

  lemma PlacedLast(tokens: seq<Lexeme>, raw: string, at: seq<nat>, n: nat, opening: string)
    requires n < |tokens| && n < |at| && opening == if OpensMoves(tokens, n) then "\n" else ""
    requires var token, pos := tokens[n], at[n];
             var end, close := pos + |token.text|, Close(token.kind);
             && pos == Edge(tokens, at, n) + |opening| + (if token.kind == Escape then 1 else 0)
             && |raw| == end + |close| && raw[pos..end] == token.text
             && (opening != "" || token.kind == Escape ==> raw[pos - 1] == '\n')
             && (opening != "" && token.kind == Escape ==> raw[pos - 2] == '\n')
             && (close != "" ==> raw[end] == close[0])
    ensures InPlace(tokens, raw, at, n)
  {
    hide OpensMoves, Edge;
  }

  /** A token's text in the output, between what opens and what closes it. */
  lemma BodyInPlace(token: Lexeme, raw: string, opening: string)
    requires opening == "\n" || opening == ""
    ensures var pos := |raw| + |opening| + if token.kind == Escape then 1 else 0;
            var whole, end, close := raw + (opening + Body(token)), pos + |token.text|, Close(token.kind);
            && |whole| == end + |close| && whole[pos..end] == token.text
            && (opening != "" || token.kind == Escape ==> whole[pos - 1] == '\n')
            && (opening != "" && token.kind == Escape ==> whole[pos - 2] == '\n')
            && (close != "" ==> whole[end] == close[0])
  {
    var escape := if token.kind == Escape then "\n" else "";
    BodyParts(token, escape, raw, opening);
    var head := raw + opening + escape;
    assert opening != "" || escape != "" ==> head[|head| - 1] == '\n';
    assert opening != "" && escape != "" ==> head[|head| - 2] == '\n';
    Between(head, token.text, Close(token.kind));
    hide Body, Close;
  }

  function Close(kind: Kind): string {
    if kind == ByteOrderMark then "" else if kind == Header || kind == Escape || kind == CommentToEol then "\n" else " "
  }

  lemma BodyParts(token: Lexeme, escape: string, raw: string, opening: string)
    requires escape == if token.kind == Escape then "\n" else ""
    ensures raw + (opening + Body(token)) == (raw + opening + escape) + token.text + Close(token.kind)
  {
    assert Body(token) == escape + token.text + Close(token.kind);
    hide Body, Close;
    Regroup(raw, opening, escape, token.text, Close(token.kind));
  }

  lemma Regroup(a: string, b: string, c: string, d: string, e: string)
    ensures a + (b + (c + d + e)) == (a + b + c) + d + e
  {
  }

  lemma Between(head: string, text: string, close: string)
    ensures (head + text + close)[|head|..|head| + |text|] == text
    ensures head != "" ==> (head + text + close)[|head| - 1] == head[|head| - 1]
    ensures |head| > 1 ==> (head + text + close)[|head| - 2] == head[|head| - 2]
    ensures close != "" ==> (head + text + close)[|head| + |text|] == close[0]
  {
  }

  /** In the stripped export a visible token stands whole, and what closes it follows it, at the end a line break. */
  lemma ShownInPlace(tokens: seq<Lexeme>, raw: string, at: seq<nat>, from: nat, to: nat, i: nat)
    requires LaidOut(tokens, raw, at) && |at| == |tokens| && Trimmed(raw, from, to) && i < |tokens|
    requires var text := tokens[i].text; text != [] && !Space(text[0]) && !Space(text[|text| - 1])
    ensures var out, end := raw[from..to] + "\n", at[i] + |tokens[i].text|;
            && from <= at[i] && end <= to && out[at[i] - from..end - from] == tokens[i].text
            && (tokens[i].kind == Header || tokens[i].kind == Escape || tokens[i].kind == CommentToEol ==>
                  out[end - from] == '\n')
  {
    var text, end := tokens[i].text, at[i] + |tokens[i].text|;
    assert InPlace(tokens, raw, at, i);
    KeptWhole(raw, from, to, at[i], text);
    hide OpensMoves, Edge, LaidOut;
  }

  lemma KeptWhole(raw: string, from: nat, to: nat, pos: nat, text: string)
    requires Trimmed(raw, from, to) && pos + |text| <= |raw| && raw[pos..pos + |text|] == text
    requires text != [] && !Space(text[0]) && !Space(text[|text| - 1])
    ensures from <= pos && pos + |text| <= to
    ensures (raw[from..to] + "\n")[pos - from..pos + |text| - from] == text
  {
    hide Space;
    var end := pos + |text|;
    InkStays(raw, from, to, pos);
    InkStays(raw, from, to, end - 1);
    Inner(raw, from, to, pos, end);
    assert (raw[from..to] + "\n")[pos - from..end - from] == raw[from..to][pos - from..end - from];
  }

  lemma InkStays(raw: string, from: nat, to: nat, i: nat)
    requires Trimmed(raw, from, to) && i < |raw| && !Space(raw[i])
    ensures from <= i < to
  {
    InkIsNotBlank(raw, i);
    hide Space, Blank;
    assert raw[to..|raw|] == raw[to..];
  }

  lemma Inner(s: string, from: nat, to: nat, a: nat, b: nat)
    requires from <= a <= b <= to <= |s|
    ensures s[from..to][a - from..b - from] == s[a..b]
  {
    var inner := s[from..to][a - from..b - from];
    assert |inner| == b - a && forall k :: 0 <= k < b - a ==> inner[k] == s[a + k];
  }

  datatype Status = Complete | Partial | Unsupported | Unavailable

  datatype Version = Version(status: Status, tokens: seq<Lexeme>)

  datatype Export = Pgn(text: string) | NoVersion | NotComplete | NoTokens

  /** The export loop: white space around tokens is chosen anew. */
  method Render(tokens: seq<Lexeme>)
    returns (text: string, ghost raw: string, ghost at: seq<nat>, ghost from: nat, ghost to: nat)
    ensures Ink(text) == InkOf(tokens) && |text| > 0 && text[|text| - 1] == '\n'
    ensures |at| == |tokens| && LaidOut(tokens, raw, at)
    ensures Trimmed(raw, from, to) && text == raw[from..to] + "\n"
  {
    hide Ink, LaidOut, Body, Strip, Trimmed, InkOf;
    LayOutNothing(tokens);
    at := [];
    BlanksHaveNoInk();
    var output := "";
    var inHeaders := true;
    for i := 0 to |tokens|
      invariant Ink(output) == InkOf(tokens[..i])
      invariant inHeaders <==> forall k :: 0 <= k < i ==> InHeaders(tokens[k].kind)
      invariant |at| == i && LaidOut(tokens, output, at)
    {
      ghost var was := output;
      if inHeaders && !InHeaders(tokens[i].kind) {
        InkAppend(output, "\n");
        output := output + "\n";
        inHeaders := false;
      }
      ghost var opening := output[|was|..];
      assert output == was + opening;
      InkAppend(output, Body(tokens[i]));
      BodyInk(tokens[i]);
      InkOneMore(tokens, i);
      LayOutOneMore(tokens, was, at, opening);
      assert was + (opening + Body(tokens[i])) == output + Body(tokens[i]);
      output := output + Body(tokens[i]);
      at := at + [|was| + |opening| + if tokens[i].kind == Escape then 1 else 0];
    }
    assert tokens[..|tokens|] == tokens;
    StripKeepsInk(output);
    InkAppend(Strip(output), "\n");
    raw := output;
    from, to := StripTrims(output);
    text := Strip(output) + "\n";
  }

  /** Export of a stored version, whole or with explicit permission for one not completely interpreted. */
  method ExportPgn(version: Option<Version>, allowPartial: bool)
    returns (out: Export, ghost raw: string, ghost at: seq<nat>, ghost from: nat, ghost to: nat)
    ensures out.NoVersion? <==> version.None?
    ensures out.NotComplete? <==> version.Some? && version.value.status != Complete && !allowPartial
    ensures out.NoTokens? <==>
              version.Some? && (version.value.status == Complete || allowPartial) && version.value.tokens == []
    ensures out.Pgn? ==> Ink(out.text) == InkOf(version.value.tokens)
    ensures out.Pgn? ==> |out.text| > 0 && out.text[|out.text| - 1] == '\n'
    ensures out.Pgn? ==> |at| == |version.value.tokens| && LaidOut(version.value.tokens, raw, at)
    ensures out.Pgn? ==> Trimmed(raw, from, to) && out.text == raw[from..to] + "\n"
  {
    raw, at, from, to := "", [], 0, 0;
    if version.None? { return NoVersion, raw, at, from, to; }
    if version.value.status != Complete && !allowPartial { return NotComplete, raw, at, from, to; }
    if version.value.tokens == [] { return NoTokens, raw, at, from, to; }
    var text;
    text, raw, at, from, to := Render(version.value.tokens);
    out := Pgn(text);
  }

  function InkOf(tokens: seq<Lexeme>): string {
    if tokens == [] then [] else InkOf(tokens[..|tokens| - 1]) + Ink(tokens[|tokens| - 1].text)
  }

  lemma InkOneMore(tokens: seq<Lexeme>, i: nat)
    requires i < |tokens|
    ensures InkOf(tokens[..i + 1]) == InkOf(tokens[..i]) + Ink(tokens[i].text) && InkOf([]) == []
  {
    assert tokens[..i + 1][..i] == tokens[..i];
  }

  lemma LayOutNothing(tokens: seq<Lexeme>)
    ensures LaidOut(tokens, "", []) && InkOf([]) == []
  {
  }

  lemma BlanksHaveNoInk()
    ensures Ink("\n") == [] && Ink(" ") == [] && Ink("") == []
  {
    BlankHasNoInk("\n");
    BlankHasNoInk(" ");
  }

  lemma BodyInk(token: Lexeme)
    ensures Ink(Body(token)) == Ink(token.text)
  {
    hide Ink;
    BlanksHaveNoInk();
    InkAppend(token.text, "\n");
    InkAppend(token.text, " ");
    InkAppend("\n", token.text + "\n");
  }

  lemma InkAt(text: string, a: nat, b: nat)
    requires a <= b <= |text|
    ensures Ink(text[..b]) == Ink(text[..a]) + Ink(text[a..b])
  {
    assert text[..b] == text[..a] + text[a..b];
    InkAppend(text[..a], text[a..b]);
  }

  /** A cover holds the visible characters of the text, in order. */
  lemma {:induction false} CoverKeepsInk(text: string, tokens: seq<Lexeme>, upto: nat)
    requires upto <= |text| && Covers(text, tokens, upto)
    ensures InkOf(tokens) == Ink(text[..upto])
    decreases |tokens|
  {
    hide Ink, Blank;
    if tokens == [] {
      BlankHasNoInk(text[..upto]);
    } else {
      var last := tokens[|tokens| - 1];
      CoverKeepsInk(text, tokens[..|tokens| - 1], last.start);
      BlankHasNoInk(text[last.end..upto]);
      InkAt(text, last.end, upto);
      InkAt(text, last.start, last.end);
    }
  }

  /**
   Tokenizing and exporting any text gives back its visible characters in order, whatever the parse
   status; only a blank text has nothing to export, and only a status short of complete needs permission.
   */
  method RoundTrip(text: string, spans: seq<Span>, status: Status, allowPartial: bool) returns (out: Export)
    requires Matches(text, spans)
    ensures out.NotComplete? <==> status != Complete && !allowPartial
    ensures out.Pgn? ==> Ink(out.text) == Ink(text)
    ensures out.NoTokens? ==> Blank(text)
    ensures !out.NoVersion?
  {
    var tokens := Tokenize(text, spans);
    CoverKeepsInk(text, tokens, |text|);
    assert text[..|text|] == text;
    BlankHasNoInk(text);
    ghost var raw, at, from, to;
    out, raw, at, from, to := ExportPgn(Some(Version(status, tokens)), allowPartial);
  }
}
