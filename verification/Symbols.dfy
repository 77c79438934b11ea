/**
 The lookup of the smallest document symbol at a definition's location. Positions are
 unsigned 32-bit and lengths unsigned 64-bit words, with wrap-around, shift and
 bitwise or written out.
 */
module Symbols {
  import opened Words
  import opened Wrappers

  type Word32 = x: int | 0 <= x < TwoTo32

  datatype Position = Position(line: Word32, character: Word32)

  datatype Range = Range(start: Position, end: Position)

  const ZeroRange := Range(Position(0, 0), Position(0, 0))

  datatype DocumentSymbol = DocumentSymbol(
    name: string, kind: nat, tags: seq<nat>, range: Range, selectionRange: Range, children: seq<DocumentSymbol>)

  /** A workspace symbol may come with the URI of its document only. */
  datatype SymbolLocation = Location(uri: string, range: Range) | UriOnly(uri: string)

  datatype WorkspaceSymbol = WorkspaceSymbol(
    name: string, kind: nat, tags: seq<nat>, containerName: string, location: SymbolLocation)

  /** `MatchSymbolByPatterns`, which each language defines for itself. */
  type Matcher = (WorkspaceSymbol, string) -> bool

  // ----- ranges -----

  predicate PositionLessEqual(p: Position, q: Position) {
    p.line < q.line || (p.line == q.line && p.character <= q.character)
  }

  predicate RangeOverlaps(r: Range, s: Range) {
    PositionLessEqual(r.start, s.end) && PositionLessEqual(s.start, r.end)
  }

  /** `int64(end) - int64(start)`, made zero when it is negative. */
  function ClampedDifference(end: Word32, start: Word32): nat {
    var difference := Int64(end - start);
    if difference < 0 then 0 else difference
  }

  function RangeLength(r: Range): nat {
    BitOr(ShiftLeft32(ClampedDifference(r.end.line, r.start.line)),
        ClampedDifference(r.end.character, r.start.character))
  }

  function PreferredRange(symbol: DocumentSymbol): Range {
    if symbol.selectionRange != ZeroRange then symbol.selectionRange else symbol.range
  }

  /** Positions are ordered as these numbers. */
  function Offset(p: Position): nat {
    p.line * TwoTo32 + p.character
  }

  predicate Within(p: Position, r: Range) {
    Offset(r.start) <= Offset(p) <= Offset(r.end)
  }

  lemma PositionsAreOrdered(p: Position, q: Position)
    ensures PositionLessEqual(p, q) <==> Offset(p) <= Offset(q)
  {
  }

  /** Ranges overlap when each starts no later than the other ends: when they have a position in common. */
  lemma OverlapIff(r: Range, s: Range)
    ensures RangeOverlaps(r, s) <==> Offset(r.start) <= Offset(s.end) && Offset(s.start) <= Offset(r.end)
    ensures Offset(r.start) <= Offset(r.end) && Offset(s.start) <= Offset(s.end) ==>
              (RangeOverlaps(r, s) <==> exists p :: Within(p, r) && Within(p, s))
  {
    PositionsAreOrdered(r.start, s.end);
    PositionsAreOrdered(s.start, r.end);
    if RangeOverlaps(r, s) && Offset(r.start) <= Offset(r.end) && Offset(s.start) <= Offset(s.end) {
      var later := if Offset(r.start) <= Offset(s.start) then s.start else r.start;
      assert Within(later, r) && Within(later, s);
    }
  }

  // ----- machine words -----

  /** The clamped difference is exact and fits in 32 bits: nothing wraps around. */
  lemma DifferenceIsExact(end: Word32, start: Word32)
    ensures ClampedDifference(end, start) == if end >= start then end - start else 0
    ensures ClampedDifference(end, start) < TwoTo32
  {
  }

  /** Packing loses no bits. */
  lemma LengthIsPacked(r: Range)
    ensures RangeLength(r) == ClampedDifference(r.end.line, r.start.line) * TwoTo32
                              + ClampedDifference(r.end.character, r.start.character)
    ensures RangeLength(r) < TwoTo64
  {
    var lines, characters :=
        ClampedDifference(r.end.line, r.start.line), ClampedDifference(r.end.character, r.start.character);
    DifferenceIsExact(r.end.line, r.start.line);
    DifferenceIsExact(r.end.character, r.start.character);
    assert ShiftLeft32(lines) == lines * TwoTo32;
    ThirtyTwoBits();
    OrOfDisjointBits(lines, characters, 32);
  }

  /** How much longer in lines, then in characters; what is negative counts as zero. */
  predicate Shorter(r: Range, s: Range) {
    var lines, lines' := ClampedDifference(r.end.line, r.start.line), ClampedDifference(s.end.line, s.start.line);
    var characters := ClampedDifference(r.end.character, r.start.character);
    var characters' := ClampedDifference(s.end.character, s.start.character);
    lines < lines' || (lines == lines' && characters < characters')
  }

  /** The packed lengths are ordered as the pairs of clamped differences: nothing overflows. */
  lemma LengthOrdersLexicographically(r: Range, s: Range)
    ensures RangeLength(r) < RangeLength(s) <==> Shorter(r, s)
  {
    LengthIsPacked(r);
    LengthIsPacked(s);
    DifferenceIsExact(r.end.line, r.start.line);
    DifferenceIsExact(s.end.line, s.start.line);
    DifferenceIsExact(r.end.character, r.start.character);
    DifferenceIsExact(s.end.character, s.start.character);
  }

  // ----- the tree -----

  function AsWorkspaceSymbol(uri: string, s: DocumentSymbol, container: string): WorkspaceSymbol {
    WorkspaceSymbol(s.name, s.kind, s.tags, container, Location(uri, PreferredRange(s)))
  }

  /** The symbols of the trees, each before its children and these before its next sibling. */
  function Preorder(uri: string, symbols: seq<DocumentSymbol>, container: string): (nodes: seq<WorkspaceSymbol>)
    ensures forall node <- nodes :: node.location.Location?
    decreases symbols
  {
    if symbols == [] then []
    else
      [AsWorkspaceSymbol(uri, symbols[0], container)]
      + Preorder(uri, symbols[0].children, symbols[0].name)
      + Preorder(uri, symbols[1..], container)
  }

  /** `ws` is a symbol of the list or of the children of one. */
  ghost predicate InTree(uri: string, symbols: seq<DocumentSymbol>, container: string, ws: WorkspaceSymbol)
    decreases symbols
  {
    exists s <- symbols :: ws == AsWorkspaceSymbol(uri, s, container) || InTree(uri, s.children, s.name, ws)
  }

  lemma {:induction false} PreorderIsTheTree(uri: string, symbols: seq<DocumentSymbol>, container: string,
      ws: WorkspaceSymbol)
    ensures ws in Preorder(uri, symbols, container) <==> InTree(uri, symbols, container, ws)
    decreases symbols
  {
    if symbols != [] {
      var first, rest := symbols[0], symbols[1..];
      PreorderIsTheTree(uri, first.children, first.name, ws);
      PreorderIsTheTree(uri, rest, container, ws);
      if InTree(uri, symbols, container, ws) && !InTree(uri, rest, container, ws) {
        var s :| s in symbols && (ws == AsWorkspaceSymbol(uri, s, container) || InTree(uri, s.children, s.name, ws));
        assert s in rest || s == first;
      }
      if InTree(uri, rest, container, ws) {
        var s :| s in rest && (ws == AsWorkspaceSymbol(uri, s, container) || InTree(uri, s.children, s.name, ws));
        assert s in symbols;
      }
      assert first in symbols;
    }
  }

  /** The symbol shows the node: its fields, its container, and its selection range unless that is all zero. */
  predicate Shows(uri: string, s: DocumentSymbol, container: string, ws: WorkspaceSymbol) {
    && ws.name == s.name && ws.kind == s.kind && ws.tags == s.tags && ws.containerName == container
    && ws.location.Location? && ws.location.uri == uri
    && var none := Range(Position(0, 0), Position(0, 0));
       ws.location.range == if s.selectionRange == none then s.range else s.selectionRange
  }

  /** The traversal visits a symbol, then its children as contained in it, then what comes after it. */
  lemma VisitedInOrder(uri: string, s: DocumentSymbol, rest: seq<DocumentSymbol>, container: string)
      returns (ws: WorkspaceSymbol)
    ensures Shows(uri, s, container, ws)
    ensures Preorder(uri, [], container) == []
    ensures Preorder(uri, [s] + rest, container) ==
            [ws] + Preorder(uri, s.children, s.name) + Preorder(uri, rest, container)
  {
    ws := AsWorkspaceSymbol(uri, s, container);
    assert ([s] + rest)[0] == s && ([s] + rest)[1..] == rest;
  }

  /** The node is in one of the trees, in a container of this name. */
  ghost predicate Contains(symbols: seq<DocumentSymbol>, container: string, s: DocumentSymbol, within: string)
    decreases symbols
  {
    exists x <- symbols :: (x == s && within == container) || Contains(x.children, x.name, s, within)
  }

  lemma {:induction false} VisitedAreTheNodes(uri: string, symbols: seq<DocumentSymbol>, container: string,
      ws: WorkspaceSymbol)
    ensures ws in Preorder(uri, symbols, container) <==>
            exists s, within :: Contains(symbols, container, s, within) && Shows(uri, s, within, ws)
    decreases symbols
  {
    if symbols != [] {
      var first, rest := symbols[0], symbols[1..];
      assert symbols == [first] + rest;
      var shown := VisitedInOrder(uri, first, rest, container);
      VisitedAreTheNodes(uri, first.children, first.name, ws);
      VisitedAreTheNodes(uri, rest, container, ws);
      forall s, within
        ensures Contains(symbols, container, s, within) <==>
          (s == first && within == container) || Contains(first.children, first.name, s, within)
          || Contains(rest, container, s, within)
      {
        ContainsFirst(symbols, container, s, within);
      }
      if Shows(uri, first, container, ws) {
        assert Contains(symbols, container, first, container);
      }
    }
  }

  lemma ContainsFirst(symbols: seq<DocumentSymbol>, container: string, s: DocumentSymbol, within: string)
    requires symbols != []
    ensures Contains(symbols, container, s, within) <==>
      (s == symbols[0] && within == container) || Contains(symbols[0].children, symbols[0].name, s, within)
      || Contains(symbols[1..], container, s, within)
  {
    assert forall x :: x in symbols <==> x == symbols[0] || x in symbols[1..];
  }

  // ----- the search -----

  predicate Hit(matches: Matcher, definition: WorkspaceSymbol, node: WorkspaceSymbol)
    requires node.location.Location?
  {
    && definition.location.Location?
    && RangeOverlaps(node.location.range, definition.location.range)
    && matches(node, definition.name)
  }

  /** A hit overlaps the definition's location, which has to be given with a range, and matches its name. */
  lemma HitIff(matches: Matcher, definition: WorkspaceSymbol, node: WorkspaceSymbol)
    requires node.location.Location?
    ensures Hit(matches, definition, node) <==>
      && definition.location.Location?
      && Offset(node.location.range.start) <= Offset(definition.location.range.end)
      && Offset(definition.location.range.start) <= Offset(node.location.range.end)
      && matches(node, definition.name)
  {
    if definition.location.Location? {
      OverlapIff(node.location.range, definition.location.range);
    }
  }

  function Length(node: WorkspaceSymbol): nat
    requires node.location.Location?
  {
    RangeLength(node.location.range)
  }

  /** Node `k` is the first of the smallest hits. */
  ghost predicate FirstSmallest(matches: Matcher, definition: WorkspaceSymbol, nodes: seq<WorkspaceSymbol>, k: nat)
    requires forall node <- nodes :: node.location.Location?
  {
    && k < |nodes|
    && Hit(matches, definition, nodes[k])
    && (forall j :: k < j < |nodes| && Hit(matches, definition, nodes[j]) ==> Length(nodes[k]) <= Length(nodes[j]))
    && (forall j :: 0 <= j < k && Hit(matches, definition, nodes[j]) ==> Length(nodes[k]) < Length(nodes[j]))
  }

  /** What the traversal has found when it has seen `nodes`. */
  function Best(matches: Matcher, definition: WorkspaceSymbol, nodes: seq<WorkspaceSymbol>)
    : (best: Option<WorkspaceSymbol>)
    requires forall node <- nodes :: node.location.Location?
    ensures best.Some? ==> best.value.location.Location?
  {
    if nodes == [] then None
    else
      var node := nodes[|nodes| - 1];
      var best := Best(matches, definition, nodes[..|nodes| - 1]);
      if Hit(matches, definition, node) && (best.None? || Length(node) < Length(best.value)) then Some(node) else best
  }

  lemma SmallestStays(matches: Matcher, definition: WorkspaceSymbol, nodes: seq<WorkspaceSymbol>,
      node: WorkspaceSymbol, k: nat)
    requires node.location.Location? && forall n <- nodes :: n.location.Location?
    requires FirstSmallest(matches, definition, nodes, k)
    requires Hit(matches, definition, node) ==> Length(nodes[k]) <= Length(node)
    ensures FirstSmallest(matches, definition, nodes + [node], k)
  {
  }

  lemma SmallestIsNew(matches: Matcher, definition: WorkspaceSymbol, nodes: seq<WorkspaceSymbol>, node: WorkspaceSymbol)
    requires node.location.Location? && forall n <- nodes :: n.location.Location?
    requires Hit(matches, definition, node)
    requires forall j :: 0 <= j < |nodes| && Hit(matches, definition, nodes[j]) ==> Length(node) < Length(nodes[j])
    ensures FirstSmallest(matches, definition, nodes + [node], |nodes|)
  {
  }

  lemma {:induction false} BestIsFirstSmallest(matches: Matcher, definition: WorkspaceSymbol,
      nodes: seq<WorkspaceSymbol>)
    requires forall node <- nodes :: node.location.Location?
    ensures
      match Best(matches, definition, nodes)
      case Some(best) => exists k: nat :: FirstSmallest(matches, definition, nodes, k) && nodes[k] == best
      case None => forall node <- nodes :: !Hit(matches, definition, node)
    decreases |nodes|
  {
    if nodes != [] {
      var init, node := nodes[..|nodes| - 1], nodes[|nodes| - 1];
      BestIsFirstSmallest(matches, definition, init);
      assert nodes == init + [node];
      match Best(matches, definition, init) {
        case Some(best) =>
          var k: nat :| FirstSmallest(matches, definition, init, k) && init[k] == best;
          if Hit(matches, definition, node) && Length(node) < Length(best) {
            SmallestIsNew(matches, definition, init, node);
          } else {
            SmallestStays(matches, definition, init, node, k);
          }
        case None =>
          if Hit(matches, definition, node) {
            SmallestIsNew(matches, definition, init, node);
          }
      }
    }
  }

  /** What `findDocumentSymbolAtLocation` returns. */
  function Find(matches: Matcher, uri: string, symbols: seq<DocumentSymbol>, definition: WorkspaceSymbol)
    : Option<WorkspaceSymbol>
  {
    Best(matches, definition, Preorder(uri, symbols, ""))
  }

  /** A symbol is found exactly when some symbol of the tree overlaps the definition and matches it. */
  lemma FoundIffSomeNodeHits(matches: Matcher, uri: string, symbols: seq<DocumentSymbol>, definition: WorkspaceSymbol)
    ensures Find(matches, uri, symbols, definition).Some? <==>
              exists ws :: InTree(uri, symbols, "", ws) && ws.location.Location? && Hit(matches, definition, ws)
  {
    var nodes := Preorder(uri, symbols, "");
    BestIsFirstSmallest(matches, definition, nodes);
    forall ws
      ensures ws in nodes <==> InTree(uri, symbols, "", ws)
    {
      PreorderIsTheTree(uri, symbols, "", ws);
    }
  }

  /** It is the first in preorder of those hits whose range is shortest in lines, then in characters. */
  lemma FoundIsFirstSmallest(matches: Matcher, uri: string, symbols: seq<DocumentSymbol>, definition: WorkspaceSymbol)
      returns (k: nat)
    requires Find(matches, uri, symbols, definition).Some?
    ensures
      var nodes := Preorder(uri, symbols, "");
      && k < |nodes|
      && Find(matches, uri, symbols, definition) == Some(nodes[k])
      && Hit(matches, definition, nodes[k])
      && (forall j :: 0 <= j < |nodes| && Hit(matches, definition, nodes[j]) ==>
            !Shorter(nodes[j].location.range, nodes[k].location.range))
      && (forall j :: 0 <= j < k && Hit(matches, definition, nodes[j]) ==>
            Shorter(nodes[k].location.range, nodes[j].location.range))
  {
    var nodes := Preorder(uri, symbols, "");
    BestIsFirstSmallest(matches, definition, nodes);
    k :| FirstSmallest(matches, definition, nodes, k) && Find(matches, uri, symbols, definition) == Some(nodes[k]);
    forall j | 0 <= j < |nodes| && Hit(matches, definition, nodes[j])
      ensures !Shorter(nodes[j].location.range, nodes[k].location.range)
      ensures j < k ==> Shorter(nodes[k].location.range, nodes[j].location.range)
    {
      LengthOrdersLexicographically(nodes[j].location.range, nodes[k].location.range);
      LengthOrdersLexicographically(nodes[k].location.range, nodes[j].location.range);
    }
  }

  // ----- the code -----

  lemma {:induction false} PreorderSplit(uri: string, symbols: seq<DocumentSymbol>, container: string, k: nat)
    requires k < |symbols|
    ensures Preorder(uri, symbols[..k + 1], container)
            == Preorder(uri, symbols[..k], container) + [AsWorkspaceSymbol(uri, symbols[k], container)]
               + Preorder(uri, symbols[k].children, symbols[k].name)
  {
    if k == 0 {
      assert symbols[..1] == [symbols[0]] && symbols[..1][1..] == [];
      assert Preorder(uri, symbols[..1][1..], container) == [];
    } else {
      PreorderSplit(uri, symbols[1..], container, k - 1);
      assert symbols[..k + 1][1..] == symbols[1..][..k] && symbols[..k][1..] == symbols[1..][..k - 1];
    }
  }

  /** `findDocumentSymbolAtLocation`: the fields are the variables that its inner function updates. */
  class Search {
    const matches: Matcher
    const uri: string
    const definition: WorkspaceSymbol
    var bestSymbol: Option<WorkspaceSymbol>
    var bestLength: nat
    var found: bool

    constructor (matches: Matcher, uri: string, definition: WorkspaceSymbol)
      ensures this.matches == matches && this.uri == uri && this.definition == definition
      ensures HasSeen([])
    {
      this.matches, this.uri, this.definition := matches, uri, definition;
      bestSymbol, bestLength, found := None, 0, false;
    }

    /** The best-so-far variables say what the traversal of `nodes` gives. */
    ghost predicate HasSeen(nodes: seq<WorkspaceSymbol>)
      reads this
    {
      && (forall node <- nodes :: node.location.Location?)
      && bestSymbol == Best(matches, definition, nodes)
      && found == bestSymbol.Some?
      && (found ==> bestLength == Length(bestSymbol.value))
    }

    /** The comparison of one symbol with the best so far. */
    method Consider(ws: WorkspaceSymbol, ghost seen: seq<WorkspaceSymbol>)
      requires definition.location.Location? && ws.location.Location? && HasSeen(seen)
      modifies this
      ensures HasSeen(seen + [ws])
    {
      assert (seen + [ws])[..|seen|] == seen;
      if RangeOverlaps(ws.location.range, definition.location.range) && matches(ws, definition.name) {
        var length := RangeLength(ws.location.range);
        if !found || length < bestLength {
          bestSymbol := Some(ws);
          bestLength := length;
          found := true;
        }
      }
    }

    lemma SeenOneMore(symbols: seq<DocumentSymbol>, containerName: string, k: nat, seen: seq<WorkspaceSymbol>)
      requires k < |symbols|
      ensures seen + Preorder(uri, symbols[..k + 1], containerName)
              == seen + Preorder(uri, symbols[..k], containerName) + [AsWorkspaceSymbol(uri, symbols[k], containerName)]
                 + Preorder(uri, symbols[k].children, symbols[k].name)
    {
      PreorderSplit(uri, symbols, containerName, k);
    }

    method Traverse(symbols: seq<DocumentSymbol>, containerName: string, ghost seen: seq<WorkspaceSymbol>)
      requires definition.location.Location? && HasSeen(seen)
      modifies this
      ensures HasSeen(seen + Preorder(uri, symbols, containerName))
      decreases symbols
    {
      assert seen + Preorder(uri, [], containerName) == seen;
      for k := 0 to |symbols|
        invariant HasSeen(seen + Preorder(uri, symbols[..k], containerName))
      {
        var symbol := symbols[k];
        var ws := AsWorkspaceSymbol(uri, symbol, containerName);
        ghost var before := seen + Preorder(uri, symbols[..k], containerName);
        Consider(ws, before);
        ghost var inner := Preorder(uri, symbol.children, symbol.name);
        if |symbol.children| > 0 {
          Traverse(symbol.children, symbol.name, before + [ws]);
        } else {
          assert before + [ws] + inner == before + [ws];
        }
        SeenOneMore(symbols, containerName, k, seen);
      }
      assert symbols[..|symbols|] == symbols;
    }
  }

  method FindDocumentSymbolAtLocation(matches: Matcher, uri: string, symbols: seq<DocumentSymbol>,
      definition: WorkspaceSymbol)
    returns (symbol: Option<WorkspaceSymbol>)
    ensures symbol == Find(matches, uri, symbols, definition)
  {
    var search := new Search(matches, uri, definition);
    if definition.location.Location? {
      search.Traverse(symbols, "", []);
      assert [] + Preorder(uri, symbols, "") == Preorder(uri, symbols, "");
    } else {
      BestIsFirstSmallest(matches, definition, Preorder(uri, symbols, ""));
    }
    symbol := search.bestSymbol;
  }
}
