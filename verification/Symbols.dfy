/** Where a code file's symbols come from (agentrail/context/index.py): a walk over the syntax tree, or
    patterns tried line by line. Either way the symbols come in line order, which is what the chunks cut
    along them need; one chunk each they get only if no two share a line. */
module Symbols {
  import opened Collections
  import opened Sequences
  import opened Chunks

  // ---------------------------------------------------------------------------
  // The walk over the syntax tree
  // ---------------------------------------------------------------------------

  /** A node of a syntax tree, with the lines it starts and ends on. */
  datatype Node = Node(named: bool, kind: string, line: int, endLine: int, children: seq<Node>)

  /** Where the walk goes on from a node. */
  datatype Onward = Nowhere | Inside | Unwrap(child: nat) | Body(child: nat)

  datatype Verdict = Verdict(name: Option<string>, onward: Onward)

  /** What a grammar makes of a node, at the top level or in a class: the name of the symbol it defines,
      and where to look for more. */
  type Grammar = (Node, bool) -> Verdict

  /** The nodes the walk goes on with; the body of a class or an `impl` is walked as its inside. */
  function Next(node: Node, onward: Onward): seq<Node> {
    match onward
    case Nowhere => []
    case Inside => node.children
    case Unwrap(c) => if c < |node.children| then [node.children[c]] else []
    case Body(c) => if c < |node.children| then node.children[c].children else []
  }

  function Size(nodes: seq<Node>): nat {
    if nodes == [] then 0 else 1 + Size(nodes[0].children) + Size(nodes[1..])
  }

  lemma {:induction false} SizeOfOne(nodes: seq<Node>, i: nat)
    requires i < |nodes|
    ensures 1 + Size(nodes[i].children) <= Size(nodes)
    ensures Size([nodes[i]]) == 1 + Size(nodes[i].children)
  {
    assert [nodes[i]][1..] == [];
    if i > 0 { SizeOfOne(nodes[1..], i - 1); }
  }

  lemma NextIsSmaller(node: Node, onward: Onward)
    ensures Size(Next(node, onward)) <= Size(node.children)
  {
    if (onward.Unwrap? || onward.Body?) && onward.child < |node.children| {
      SizeOfOne(node.children, onward.child);
    }
  }

  function Named(node: Node, name: Option<string>): seq<Sym> {
    if name.Some? then [Sym(name.value, node.line)] else []
  }

  /** What the walk over `nodes` finds: for each named node the symbol it defines, then those further in. */
  function Walked(nodes: seq<Node>, grammar: Grammar, inClass: bool): seq<Sym>
    decreases Size(nodes)
  {
    if nodes == [] then [] else FromNode(nodes[0], grammar, inClass) + Walked(nodes[1..], grammar, inClass)
  }

  function FromNode(node: Node, grammar: Grammar, inClass: bool): seq<Sym>
    decreases Size(node.children) + 1, 0
  {
    if !node.named then [] else
      var Verdict(name, onward) := grammar(node, inClass);
      NextIsSmaller(node, onward);
      Named(node, name) + Walked(Next(node, onward), grammar, inClass || onward.Body?)
  }

  lemma WalkedAt(nodes: seq<Node>, i: nat, grammar: Grammar, inClass: bool)
    requires i < |nodes|
    ensures Walked(nodes[i..], grammar, inClass)
         == FromNode(nodes[i], grammar, inClass) + Walked(nodes[i + 1..], grammar, inClass)
  {
    assert nodes[i..][0] == nodes[i] && nodes[i..][1..] == nodes[i + 1..];
  }

  lemma FromNamed(node: Node, grammar: Grammar, inClass: bool)
    ensures var Verdict(name, onward) := grammar(node, inClass);
      FromNode(node, grammar, inClass) == if !node.named then [] else
        Named(node, name) + Walked(Next(node, onward), grammar, inClass || onward.Body?)
  {
  }

  /** `walk`, which appends to the symbols found so far. */
  method Walk(before: seq<Sym>, nodes: seq<Node>, grammar: Grammar, inClass: bool) returns (symbols: seq<Sym>)
    ensures symbols == before + Walked(nodes, grammar, inClass)
    decreases Size(nodes)
  {
    hide Walked, FromNode, Size, Next;
    symbols := before;
    for i := 0 to |nodes|
      invariant symbols + Walked(nodes[i..], grammar, inClass) == before + Walked(nodes, grammar, inClass)
    {
      ghost var rest := Walked(nodes[i + 1..], grammar, inClass);
      WalkedAt(nodes, i, grammar, inClass);
      FromNamed(nodes[i], grammar, inClass);
      ConcatAssociates(symbols, FromNode(nodes[i], grammar, inClass), rest);
      if !nodes[i].named {
        assert symbols + [] == symbols;
        continue;
      }
      symbols := WalkNode(symbols, nodes[i], grammar, inClass, nodes);
    }
    NothingWalked(grammar, inClass);
    assert nodes[|nodes|..] == [] && symbols + [] == symbols;
  }

  lemma NothingWalked(grammar: Grammar, inClass: bool)
    ensures Walked([], grammar, inClass) == []
  {
  }

  /** One round of its loop. */
  method WalkNode(before: seq<Sym>, node: Node, grammar: Grammar, inClass: bool, ghost among: seq<Node>)
    returns (symbols: seq<Sym>)
    requires node in among && node.named
    ensures symbols == before + FromNode(node, grammar, inClass)
    decreases Size(among), 0
  {
    hide Walked, FromNode, Size, Next;
    var Verdict(name, onward) := grammar(node, inClass);
    FromNamed(node, grammar, inClass);
    ghost var i :| 0 <= i < |among| && among[i] == node;
    SizeOfOne(among, i);
    NextIsSmaller(node, onward);
    ConcatAssociates(before, Named(node, name), Walked(Next(node, onward), grammar, inClass || onward.Body?));
    symbols := if name.Some? then before + [Sym(name.value, node.line)] else before;
    symbols := Walk(symbols, Next(node, onward), grammar, inClass || onward.Body?);
  }

  // ---------------------------------------------------------------------------
  // What the walk finds, by where it is
  // ---------------------------------------------------------------------------

  /** The way leads from one of `nodes` to `node`, each step an index among the children of the last: into a
      definition unwrapped, into any child of a node looked inside, or into the children of a body, which are
      then in a class. Every node on the way is named. */
  predicate LeadsTo(nodes: seq<Node>, grammar: Grammar, inClass: bool, way: seq<nat>, node: Node, nodeInClass: bool)
    decreases |way|
  {
    way != [] && way[0] < |nodes| && nodes[way[0]].named &&
    var here, rest := nodes[way[0]], way[1..];
    if rest == [] then here == node && nodeInClass == inClass
    else match grammar(here, inClass).onward
      case Nowhere => false
      case Inside => LeadsTo(here.children, grammar, inClass, rest, node, nodeInClass)
      case Unwrap(c) => rest[0] == c && LeadsTo(here.children, grammar, inClass, rest, node, nodeInClass)
      case Body(c) =>
        c < |here.children| && LeadsTo(here.children[c].children, grammar, true, rest, node, nodeInClass)
  }

  /** A symbol is found exactly if some way leads to a node that the grammar gives its name, on its line. */
  ghost predicate Found(nodes: seq<Node>, grammar: Grammar, inClass: bool, s: Sym) {
    exists way, node, nodeInClass ::
      LeadsTo(nodes, grammar, inClass, way, node, nodeInClass) && Defines(grammar, node, nodeInClass, s)
  }

  predicate Defines(grammar: Grammar, node: Node, inClass: bool, s: Sym) {
    grammar(node, inClass).name == Some(s.name) && node.line == s.line
  }

  lemma {:induction false} FoundIsWalked(nodes: seq<Node>, grammar: Grammar, inClass: bool, s: Sym,
                                         way: seq<nat>, node: Node, nodeInClass: bool)
    requires LeadsTo(nodes, grammar, inClass, way, node, nodeInClass) && Defines(grammar, node, nodeInClass, s)
    ensures s in Walked(nodes, grammar, inClass)
    decreases |way|
  {
    var i, rest := way[0], way[1..];
    FromNodeIn(nodes, i, grammar, inClass, s);
    var here, verdict := nodes[i], grammar(nodes[i], inClass);
    if rest != [] {
      match verdict.onward
      case Inside => FoundIsWalked(here.children, grammar, inClass, s, rest, node, nodeInClass);
      case Unwrap(c) =>
        LeadsFromOne(here.children, c, grammar, inClass, rest, node, nodeInClass);
        FoundIsWalked([here.children[c]], grammar, inClass, s, [0] + rest[1..], node, nodeInClass);
      case Body(c) => FoundIsWalked(here.children[c].children, grammar, true, s, rest, node, nodeInClass);
    }
  }

  lemma LeadsFromOne(nodes: seq<Node>, c: nat, grammar: Grammar, inClass: bool, way: seq<nat>, node: Node,
                     nodeInClass: bool)
    requires c < |nodes| && way != [] && way[0] == c
    ensures LeadsTo([nodes[c]], grammar, inClass, [0] + way[1..], node, nodeInClass) <==>
      LeadsTo(nodes, grammar, inClass, way, node, nodeInClass)
  {
    assert ([0] + way[1..])[1..] == way[1..];
  }

  lemma {:induction false} FromNodeIn(nodes: seq<Node>, i: nat, grammar: Grammar, inClass: bool, s: Sym)
    requires i < |nodes|
    ensures s in FromNode(nodes[i], grammar, inClass) ==> s in Walked(nodes, grammar, inClass)
  {
    if i > 0 { FromNodeIn(nodes[1..], i - 1, grammar, inClass, s); }
  }

  lemma {:induction false} WalkedIsFound(nodes: seq<Node>, grammar: Grammar, inClass: bool, s: Sym)
      returns (way: seq<nat>, node: Node, nodeInClass: bool)
    requires s in Walked(nodes, grammar, inClass)
    ensures LeadsTo(nodes, grammar, inClass, way, node, nodeInClass) && Defines(grammar, node, nodeInClass, s)
    decreases Size(nodes)
  {
    if s in Walked(nodes[1..], grammar, inClass) {
      way, node, nodeInClass := WalkedIsFound(nodes[1..], grammar, inClass, s);
      var after := way;
      way := [after[0] + 1] + after[1..];
      assert way[1..] == after[1..] && nodes[1..][after[0]] == nodes[after[0] + 1];
    } else {
      var here, verdict := nodes[0], grammar(nodes[0], inClass);
      if verdict.name.Some? && s == Sym(verdict.name.value, here.line) {
        way, node, nodeInClass := [0], here, inClass;
      } else {
        NextIsSmaller(here, verdict.onward);
        var next := Next(here, verdict.onward);
        way, node, nodeInClass := WalkedIsFound(next, grammar, inClass || verdict.onward.Body?, s);
        if verdict.onward.Unwrap? {
          way := [verdict.onward.child] + way[1..];
          assert [0] + way[1..] == [0] + way[1..];
          LeadsFromOne(here.children, verdict.onward.child, grammar, inClass, way, node, nodeInClass);
        }
        assert ([0] + way)[1..] == way;
        way := [0] + way;
      }
    }
  }

  /** The walk finds what there is to find: no symbol is missed, and none made up. */
  lemma WalkFindsExactly(nodes: seq<Node>, grammar: Grammar, inClass: bool, s: Sym)
    ensures s in Walked(nodes, grammar, inClass) <==> Found(nodes, grammar, inClass, s)
  {
    if s in Walked(nodes, grammar, inClass) {
      var way, node, nodeInClass := WalkedIsFound(nodes, grammar, inClass, s);
    } else if Found(nodes, grammar, inClass, s) {
      var way, node, nodeInClass :|
        LeadsTo(nodes, grammar, inClass, way, node, nodeInClass) && Defines(grammar, node, nodeInClass, s);
      FoundIsWalked(nodes, grammar, inClass, s, way, node, nodeInClass);
    }
  }

  // ---------------------------------------------------------------------------
  // Patterns tried line by line
  // ---------------------------------------------------------------------------

  /** The name a pattern finds in a line. */
  type Pattern = string -> Option<string>

  /** The symbols of line `n` found by the first `k` patterns, each name once. */
  function LineSymbols(line: string, n: nat, patterns: seq<Pattern>, k: nat): seq<Sym>
    requires k <= |patterns|
  {
    if k == 0 then [] else
      var before, name := LineSymbols(line, n, patterns, k - 1), patterns[k - 1](line);
      before + if name.None? || Sym(name.value, n) in before then [] else [Sym(name.value, n)]
  }

  function Matched(lines: seq<string>, patterns: seq<Pattern>, n: nat): seq<Sym>
    requires n <= |lines|
  {
    if n == 0 then [] else
      Matched(lines, patterns, n - 1) + LineSymbols(lines[n - 1], n, patterns, |patterns|)
  }

  lemma {:induction false} LineSymbolsOnLine(line: string, n: nat, patterns: seq<Pattern>, k: nat)
    requires k <= |patterns|
    ensures forall s | s in LineSymbols(line, n, patterns, k) :: s.line == n
  {
    if k > 0 { LineSymbolsOnLine(line, n, patterns, k - 1); }
  }

  lemma {:induction false} MatchedWithin(lines: seq<string>, patterns: seq<Pattern>, n: nat)
    requires n <= |lines|
    ensures InOrder(Matched(lines, patterns, n), 1, n)
  {
    if n > 0 {
      MatchedWithin(lines, patterns, n - 1);
      LineSymbolsOnLine(lines[n - 1], n, patterns, |patterns|);
    }
  }

  lemma OneMorePattern(line: string, n: nat, patterns: seq<Pattern>, k: nat)
    requires k < |patterns|
    ensures var before, name := LineSymbols(line, n, patterns, k), patterns[k](line);
      LineSymbols(line, n, patterns, k + 1) ==
        before + if name.None? || Sym(name.value, n) in before then [] else [Sym(name.value, n)]
  {
  }

  /** `_regex_symbols`; a pattern's match is kept unless its name was seen on this line. */
  method RegexSymbols(lines: seq<string>, patterns: seq<Pattern>) returns (symbols: seq<Sym>)
    ensures symbols == Matched(lines, patterns, |lines|)
  {
    hide LineSymbols;
    symbols := [];
    var seen: set<Sym> := {};
    for i := 0 to |lines|
      invariant symbols == Matched(lines, patterns, i)
      invariant forall s :: s in seen <==> s in symbols
    {
      MatchedWithin(lines, patterns, i);
      symbols, seen := MatchLine(symbols, seen, lines[i], i + 1, patterns);
    }
  }

  /** One line, all patterns. */
  method MatchLine(before: seq<Sym>, seenBefore: set<Sym>, line: string, n: nat, patterns: seq<Pattern>)
    returns (symbols: seq<Sym>, seen: set<Sym>)
    requires (forall s :: s in seenBefore <==> s in before) && forall s | s in before :: s.line < n
    ensures symbols == before + LineSymbols(line, n, patterns, |patterns|)
    ensures forall s :: s in seen <==> s in symbols
  {
    hide LineSymbols;
    symbols, seen := before, seenBefore;
    NoPattern(line, n, patterns);
    for k := 0 to |patterns|
      invariant symbols == before + LineSymbols(line, n, patterns, k)
      invariant forall s :: s in seen <==> s in symbols
    {
      OneMorePattern(line, n, patterns, k);
      var name := patterns[k](line);
      if name.None? || Sym(name.value, n) in seen { continue; }
      ConcatAssociates(before, LineSymbols(line, n, patterns, k), [Sym(name.value, n)]);
      seen := seen + {Sym(name.value, n)};
      symbols := symbols + [Sym(name.value, n)];
    }
  }

  lemma NoPattern(line: string, n: nat, patterns: seq<Pattern>)
    ensures LineSymbols(line, n, patterns, 0) == []
  {
  }

  /** One of the first `k` patterns matches the name in the line. */
  predicate Matches(line: string, patterns: seq<Pattern>, k: nat, name: string)
    requires k <= |patterns|
  {
    exists j | 0 <= j < k :: patterns[j](line) == Some(name)
  }

  lemma {:induction false} LineSymbolsExactly(line: string, n: nat, patterns: seq<Pattern>, k: nat)
    requires k <= |patterns|
    ensures forall s :: s in LineSymbols(line, n, patterns, k) <==> s.line == n && Matches(line, patterns, k, s.name)
    ensures Distinct(LineSymbols(line, n, patterns, k))
  {
    if k > 0 {
      LineSymbolsExactly(line, n, patterns, k - 1);
      forall s ensures s in LineSymbols(line, n, patterns, k) <==> s.line == n && Matches(line, patterns, k, s.name) {
        if patterns[k - 1](line) == Some(s.name) && s.line == n { assert s == Sym(s.name, n); }
      }
    }
  }

  /** What the patterns find in the first `n` lines: each name that one of them matches in a line. */
  lemma {:induction false} MatchedExactly(lines: seq<string>, patterns: seq<Pattern>, n: nat)
    requires n <= |lines|
    ensures forall s :: s in Matched(lines, patterns, n) <==>
      1 <= s.line <= n && Matches(lines[s.line - 1], patterns, |patterns|, s.name)
  {
    hide Matches, LineSymbols;
    if n > 0 {
      MatchedExactly(lines, patterns, n - 1);
      LineSymbolsExactly(lines[n - 1], n, patterns, |patterns|);
    }
  }

  /** And once a line. */
  lemma {:induction false} MatchedOnce(lines: seq<string>, patterns: seq<Pattern>, n: nat)
    requires n <= |lines|
    ensures Distinct(Matched(lines, patterns, n))
  {
    hide LineSymbols;
    if n > 0 {
      var before, here := Matched(lines, patterns, n - 1), LineSymbols(lines[n - 1], n, patterns, |patterns|);
      MatchedOnce(lines, patterns, n - 1);
      MatchedWithin(lines, patterns, n - 1);
      LineSymbolsExactly(lines[n - 1], n, patterns, |patterns|);
      assert forall s | s in before :: s.line < n;
      JoinDistinct(before, here);
    }
  }

  // ---------------------------------------------------------------------------
  // Line order
  // ---------------------------------------------------------------------------

  /** The symbols lie between two lines and come in line order. */
  predicate InOrder(symbols: seq<Sym>, from: int, to: int) {
    && (forall i | 0 <= i < |symbols| :: from <= symbols[i].line <= to)
    && Nondecreasing(symbols)
  }

  lemma InOrderConcat(a: seq<Sym>, b: seq<Sym>, from: int, mid: int, next: int, to: int)
    requires InOrder(a, from, mid) && InOrder(b, next, to) && from <= next && mid <= to
    requires mid <= next || a == [] || b == []
    ensures InOrder(a + b, from, to)
  {
    var ab := a + b;
    forall i | 0 < i < |ab| ensures ab[i - 1].line <= ab[i].line {
      assert i < |a| ==> ab[i] == a[i] && ab[i - 1] == a[i - 1];
      assert i == |a| ==> ab[i] == b[0] && ab[i - 1] == a[|a| - 1];
      assert i > |a| ==> ab[i] == b[i - |a|] && ab[i - 1] == b[i - |a| - 1];
    }
  }

  /** What a parser promises of its tree: a node lies within its parent, and after its elder siblings. */
  predicate Nested(nodes: seq<Node>, from: int, to: int) {
    if nodes == [] then from <= to else
      && from <= nodes[0].line && Nested(nodes[0].children, nodes[0].line, nodes[0].endLine)
      && Nested(nodes[1..], nodes[0].endLine, to)
  }

  lemma {:induction false} NestedAt(nodes: seq<Node>, from: int, to: int)
    requires Nested(nodes, from, to)
    ensures from <= to
    ensures forall i | 0 <= i < |nodes| ::
      && from <= nodes[i].line <= nodes[i].endLine <= to
      && Nested(nodes[i].children, nodes[i].line, nodes[i].endLine)
  {
    if nodes != [] {
      NestedAt(nodes[0].children, nodes[0].line, nodes[0].endLine);
      NestedAt(nodes[1..], nodes[0].endLine, to);
    }
  }

  lemma NextNested(node: Node, onward: Onward)
    requires Nested(node.children, node.line, node.endLine)
    ensures exists from, to :: node.line <= from && to <= node.endLine && Nested(Next(node, onward), from, to)
  {
    NestedAt(node.children, node.line, node.endLine);
    if onward.Nowhere? || (!onward.Inside? && onward.child >= |node.children|) {
      assert Nested(Next(node, onward), node.line, node.endLine);
    } else if onward.Inside? {
      assert Nested(Next(node, onward), node.line, node.endLine);
    } else {
      var c := node.children[onward.child];
      assert [c][1..] == [];
      assert Nested([c], c.line, c.endLine);
      assert Nested(Next(node, onward), c.line, c.endLine);
    }
  }

  lemma {:induction false} WalkedInOrder(nodes: seq<Node>, grammar: Grammar, inClass: bool, from: int, to: int)
    requires Nested(nodes, from, to)
    ensures InOrder(Walked(nodes, grammar, inClass), from, to)
    decreases Size(nodes)
  {
    if nodes != [] {
      NestedAt(nodes, from, to);
      FromNodeInOrder(nodes[0], grammar, inClass);
      WalkedInOrder(nodes[1..], grammar, inClass, nodes[0].endLine, to);
      InOrderConcat(FromNode(nodes[0], grammar, inClass), Walked(nodes[1..], grammar, inClass),
                    from, nodes[0].endLine, nodes[0].endLine, to);
    }
  }

  lemma {:induction false} FromNodeInOrder(node: Node, grammar: Grammar, inClass: bool)
    requires Nested(node.children, node.line, node.endLine)
    ensures InOrder(FromNode(node, grammar, inClass), node.line, node.endLine)
    decreases Size(node.children) + 1, 0
  {
    NestedAt(node.children, node.line, node.endLine);
    if node.named {
      var Verdict(name, onward) := grammar(node, inClass);
      NextIsSmaller(node, onward);
      NextNested(node, onward);
      var from, to :| node.line <= from && to <= node.endLine && Nested(Next(node, onward), from, to);
      WalkedInOrder(Next(node, onward), grammar, inClass || onward.Body?, from, to);
      InOrderConcat(Named(node, name), Walked(Next(node, onward), grammar, inClass || onward.Body?),
                    node.line, node.line, from, node.endLine);
    }
  }

  /** What a parser comes back with. */
  datatype Parse = Unsupported | Failed | Tree(top: seq<Node>, hasError: bool)

  /** `extracted_symbols`: the walk, or the patterns if there is no parser, it fails, or finds nothing in
      a text with errors. */
  function Extracted(lines: seq<string>, parse: Parse, grammar: Grammar, patterns: seq<Pattern>): seq<Sym> {
    if !parse.Tree? then Matched(lines, patterns, |lines|) else
      var walked := Walked(parse.top, grammar, false);
      if walked == [] && parse.hasError then Matched(lines, patterns, |lines|) else walked
  }

  method ExtractedSymbols(lines: seq<string>, parse: Parse, grammar: Grammar, patterns: seq<Pattern>)
    returns (symbols: seq<Sym>)
    ensures symbols == Extracted(lines, parse, grammar, patterns)
  {
    if !parse.Tree? {
      symbols := RegexSymbols(lines, patterns);
      return;
    }
    symbols := Walk([], parse.top, grammar, false);
    if symbols == [] && parse.hasError { symbols := RegexSymbols(lines, patterns); }
  }

  /** Which symbols a file has: those of its syntax tree, unless there is none to be had or it has errors and
      no symbols; then those its lines match. */
  lemma ExtractedExactly(lines: seq<string>, parse: Parse, grammar: Grammar, patterns: seq<Pattern>, s: Sym)
    ensures var byTree := parse.Tree? && (!parse.hasError || exists t :: Found(parse.top, grammar, false, t));
      s in Extracted(lines, parse, grammar, patterns) <==>
        if byTree then Found(parse.top, grammar, false, s)
        else 1 <= s.line <= |lines| && Matches(lines[s.line - 1], patterns, |patterns|, s.name)
  {
    hide Found, Matched, Matches;
    MatchedExactly(lines, patterns, |lines|);
    if parse.Tree? {
      var walked := Walked(parse.top, grammar, false);
      forall t ensures t in walked <==> Found(parse.top, grammar, false, t) {
        WalkFindsExactly(parse.top, grammar, false, t);
      }
      assert walked != [] ==> walked[0] in walked;
    }
  }

  /** Whatever the text, the grammar and the patterns, the symbols lie in the file in line order. */
  lemma SymbolsComeInLineOrder(lines: seq<string>, parse: Parse, grammar: Grammar, patterns: seq<Pattern>)
    requires parse.Tree? ==> Nested(parse.top, 1, |lines|)
    ensures var symbols := Extracted(lines, parse, grammar, patterns);
      InFile(lines, symbols) && Nondecreasing(symbols)
  {
    MatchedWithin(lines, patterns, |lines|);
    if parse.Tree? { WalkedInOrder(parse.top, grammar, false, 1, |lines|); }
  }

  /** So the chunks of a code file with symbols always partition its text. */
  lemma SymbolChunksPartition(
      lines: seq<string>, parse: Parse, grammar: Grammar, patterns: seq<Pattern>, blank: BlankLine)
    requires parse.Tree? ==> Nested(parse.top, 1, |lines|)
    ensures PartitionsText(lines, blank, SymbolAware(lines, Extracted(lines, parse, grammar, patterns), blank))
  {
    hide SymbolAware, Extracted, Cover;
    var symbols := Extracted(lines, parse, grammar, patterns);
    SymbolsComeInLineOrder(lines, parse, grammar, patterns);
    if symbols == [] {
      WindowsPartition(lines, blank);
    } else {
      PartitionUnlessTextIsCrossed(lines, symbols, blank);
    }
  }

  lemma WindowsPartition(lines: seq<string>, blank: BlankLine)
    ensures PartitionsText(lines, blank, SymbolAware(lines, [], blank))
  {
    hide Cover;
    forall line | 1 <= line <= |lines| && !blank(lines[line - 1])
      ensures Cover(SymbolAware(lines, [], blank), line) == 1
    {
      WindowsCover(lines, blank, 1, line);
    }
  }

  // ---------------------------------------------------------------------------
  // One chunk per symbol?
  // ---------------------------------------------------------------------------

  /** The symbols that have a chunk. */
  function SymbolsOf(chunks: seq<Chunk>): seq<Sym> {
    if chunks == [] then [] else
      (if chunks[0].kind.Symbol? then [Sym(chunks[0].kind.name, chunks[0].startLine)] else [])
        + SymbolsOf(chunks[1..])
  }

  /** From the i-th on, the symbols after which another line is the next to start one. */
  function LastOfLine(symbols: seq<Sym>, i: nat): seq<Sym>
    requires i <= |symbols|
    decreases |symbols| - i
  {
    if i == |symbols| then [] else
      (if i + 1 == |symbols| || symbols[i].line != symbols[i + 1].line then [symbols[i]] else [])
        + LastOfLine(symbols, i + 1)
  }

  /** The lines the symbols start on are in the file, and say something. */
  predicate OnText(lines: seq<string>, symbols: seq<Sym>, blank: BlankLine) {
    InFile(lines, symbols) && forall k | 0 <= k < |symbols| :: !blank(lines[symbols[k].line - 1])
  }

  /** A symbol's range holds its own line, unless the next symbol starts there as well. */
  lemma RangeIsBlankExactly(lines: seq<string>, symbols: seq<Sym>, blank: BlankLine, i: nat)
    requires i < |symbols| && OnText(lines, symbols, blank) && Nondecreasing(symbols)
    ensures AllBlank(Slice(lines, symbols[i].line - 1, EndOf(lines, symbols, i)), blank) <==>
      i + 1 < |symbols| && symbols[i].line == symbols[i + 1].line
  {
    hide AllBlank, Slice;
    var start, end := symbols[i].line, EndOf(lines, symbols, i);
    assert i + 1 < |symbols| ==> symbols[i + 1 - 1].line <= symbols[i + 1].line;
    if start <= end {
      SliceHolds(lines, start, end, blank, start);
    } else {
      EmptySlice(lines, start, end, blank);
    }
  }

  lemma SymbolsOfStep(lines: seq<string>, symbols: seq<Sym>, blank: BlankLine, i: nat)
    requires i < |symbols|
    ensures SymbolsOf(SymbolsFrom(lines, symbols, blank, i)) ==
      (if AllBlank(Slice(lines, symbols[i].line - 1, EndOf(lines, symbols, i)), blank) then [] else [symbols[i]])
        + SymbolsOf(SymbolsFrom(lines, symbols, blank, i + 1))
  {
    hide AllBlank, Slice, EndOf;
    var chunks, rest := SymbolsFrom(lines, symbols, blank, i), SymbolsFrom(lines, symbols, blank, i + 1);
    if AllBlank(Slice(lines, symbols[i].line - 1, EndOf(lines, symbols, i)), blank) {
      assert chunks == rest;
    } else {
      assert chunks[1..] == rest;
    }
  }

  lemma NoSymbolsFrom(lines: seq<string>, symbols: seq<Sym>, blank: BlankLine)
    ensures SymbolsOf(SymbolsFrom(lines, symbols, blank, |symbols|)) == []
  {
  }

  lemma {:induction false} SymbolsFromHave(lines: seq<string>, symbols: seq<Sym>, blank: BlankLine, i: nat)
    requires i <= |symbols| && OnText(lines, symbols, blank) && Nondecreasing(symbols)
    ensures SymbolsOf(SymbolsFrom(lines, symbols, blank, i)) == LastOfLine(symbols, i)
    decreases |symbols| - i
  {
    hide AllBlank, Slice, EndOf, SymbolsFrom, SymbolsOf, Nondecreasing, OnText;
    if i == |symbols| {
      NoSymbolsFrom(lines, symbols, blank);
    } else {
      SymbolsFromHave(lines, symbols, blank, i + 1);
      RangeIsBlankExactly(lines, symbols, blank, i);
      SymbolsOfStep(lines, symbols, blank, i);
    }
  }

  lemma EmptySlice(lines: seq<string>, start: int, end: int, blank: BlankLine)
    requires 1 <= start && end < start
    ensures AllBlank(Slice(lines, start - 1, end), blank)
  {
  }

  lemma {:induction false} LastOfLineIsAll(symbols: seq<Sym>, i: nat)
    requires i <= |symbols|
    ensures |LastOfLine(symbols, i)| <= |symbols| - i
    ensures LastOfLine(symbols, i) == symbols[i..] <==>
      (forall k | i < k < |symbols| :: symbols[k - 1].line != symbols[k].line)
    decreases |symbols| - i
  {
    if i < |symbols| {
      LastOfLineIsAll(symbols, i + 1);
      assert symbols[i..] == [symbols[i]] + symbols[i + 1..];
    }
  }

  /** Of the symbols that start on one line only the last has a chunk: the docstring's one chunk per symbol
      holds exactly if no two share a line. */
  lemma OneChunkPerLine(lines: seq<string>, symbols: seq<Sym>, blank: BlankLine)
    requires symbols != [] && OnText(lines, symbols, blank) && Nondecreasing(symbols)
    ensures SymbolsOf(SymbolAware(lines, symbols, blank)) == LastOfLine(symbols, 0)
    ensures SymbolsOf(SymbolAware(lines, symbols, blank)) == symbols <==>
      forall k | 0 < k < |symbols| :: symbols[k - 1].line < symbols[k].line
  {
    hide AllBlank, Slice, SymbolsFrom, SymbolPreamble, LastOfLine, SymbolsOf, OnText, Nondecreasing;
    SymbolsFromHave(lines, symbols, blank, 0);
    LastOfLineIsAll(symbols, 0);
    LastOneStays(symbols, 0);
    PreambleHasNone(lines, symbols, blank, SymbolsFrom(lines, symbols, blank, 0));
    assert symbols[0..] == symbols;
    StrictlyIncreasing(symbols);
  }

  lemma StrictlyIncreasing(symbols: seq<Sym>)
    requires Nondecreasing(symbols)
    ensures (forall k | 0 < k < |symbols| :: symbols[k - 1].line != symbols[k].line) <==>
      (forall k | 0 < k < |symbols| :: symbols[k - 1].line < symbols[k].line)
  {
  }

  lemma PreambleHasNone(lines: seq<string>, symbols: seq<Sym>, blank: BlankLine, chunks: seq<Chunk>)
    requires symbols != []
    ensures SymbolsOf(SymbolPreamble(lines, symbols, blank) + chunks) == SymbolsOf(chunks)
    ensures chunks == [] ==> SymbolsOf(chunks) == []
  {
    hide AllBlank, Slice;
    var before := SymbolPreamble(lines, symbols, blank);
    if before == [] {
      assert before + chunks == chunks;
    } else {
      assert (before + chunks)[1..] == chunks;
    }
  }

  lemma {:induction false} LastOneStays(symbols: seq<Sym>, i: nat)
    requires i < |symbols|
    ensures LastOfLine(symbols, i) != []
    decreases |symbols| - i
  {
    if i + 1 < |symbols| { LastOneStays(symbols, i + 1); }
  }

  /** `class A { m() {} }` on one line: the class has no chunk. */
  lemma ClassOnOneLineIsDropped(line: string, blank: BlankLine)
    requires !blank(line)
    ensures SymbolAware([line], [Sym("A", 1), Sym("m", 1)], blank) == [Chunk(Symbol("m"), 1, 1, [line])]
  {
    hide AllBlank, Slice;
    var lines, symbols := [line], [Sym("A", 1), Sym("m", 1)];
    EmptySlice(lines, 1, 0, blank);
    SliceHolds(lines, 1, 1, blank, 1);
    WholeLine(line);
    assert SymbolsFrom(lines, symbols, blank, 2) == [];
    assert SymbolsFrom(lines, symbols, blank, 1) == [Piece(lines, Symbol("m"), 1, 1)];
    assert SymbolsFrom(lines, symbols, blank, 0) == [Piece(lines, Symbol("m"), 1, 1)];
  }

  lemma WholeLine(line: string)
    ensures Slice([line], 0, 1) == [line]
  {
  }
}
