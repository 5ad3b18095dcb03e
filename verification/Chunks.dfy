/** How the index cuts a file into chunks (agentrail/context/index.py): a markdown file by heading, a
    code file by symbol or by windows of 80 lines. Which lines are headings, which are blank, and
    where the symbols are is given. Line numbers count from one. */
module Chunks {
  import opened Collections
  import opened Sequences

  datatype Heading = Heading(level: int, title: string)

  datatype Kind = Document | Preamble | Section(path: seq<string>) | Window | Symbol(name: string)

  datatype Chunk = Chunk(kind: Kind, startLine: int, endLine: int, content: seq<string>)

  type HeadingOf = string -> Option<Heading>

  type BlankLine = string -> bool

  /** `lines[a:b]` for bounds that may lie past the end or cross. */
  function Slice(lines: seq<string>, a: int, b: int): seq<string> {
    var lo := if a < 0 then 0 else a;
    var hi := if b > |lines| then |lines| else b;
    if lo < hi then lines[lo..hi] else []
  }

  function Piece(lines: seq<string>, kind: Kind, startLine: int, endLine: int): Chunk {
    Chunk(kind, startLine, endLine, Slice(lines, startLine - 1, endLine))
  }

  /** `not text.strip()` */
  predicate AllBlank(lines: seq<string>, blank: BlankLine) {
    forall i | 0 <= i < |lines| :: blank(lines[i])
  }

  /** The chunks one after the other cover `from` to `to`, each line once. */
  predicate Tiles(chunks: seq<Chunk>, from: int, to: int) {
    if chunks == [] then from == to + 1
    else chunks[0].startLine == from <= chunks[0].endLine && Tiles(chunks[1..], chunks[0].endLine + 1, to)
  }

  /** How many chunks a line lies in. */
  function Cover(chunks: seq<Chunk>, line: int): nat {
    if chunks == [] then 0 else
      (if chunks[0].startLine <= line <= chunks[0].endLine then 1 else 0) + Cover(chunks[1..], line)
  }

  lemma {:induction false} TilesCoverOnce(chunks: seq<Chunk>, from: int, to: int, line: int)
    requires Tiles(chunks, from, to)
    ensures from <= to + 1
    ensures Cover(chunks, line) == if from <= line <= to then 1 else 0
  {
    if chunks != [] {
      TilesCoverOnce(chunks[1..], chunks[0].endLine + 1, to, line);
    }
  }

  lemma {:induction false} TilesAppend(chunks: seq<Chunk>, from: int, mid: int, last: Chunk)
    requires Tiles(chunks, from, mid) && last.startLine == mid + 1 <= last.endLine
    ensures Tiles(chunks + [last], from, last.endLine)
  {
    if chunks == [] {
      assert [last][1..] == [];
      assert chunks + [last] == [last];
    } else {
      TilesAppend(chunks[1..], chunks[0].endLine + 1, mid, last);
      assert (chunks + [last])[1..] == chunks[1..] + [last];
    }
  }

  // ---------------------------------------------------------------------------
  // The heading stack
  // ---------------------------------------------------------------------------

  function Padded(stack: seq<string>, n: int): seq<string>
    decreases n - |stack|
  {
    if |stack| >= n then stack else Padded(stack + [""], n)
  }

  /** `stack[:k]`, then padded with empty titles to length `k`. */
  function CutTo(stack: seq<string>, k: int): seq<string> {
    Padded(if 0 <= k <= |stack| then stack[..k] else stack, k)
  }

  function Push(stack: seq<string>, h: Heading): seq<string> {
    CutTo(stack, h.level - 1) + [h.title]
  }

  function StackAfter(heads: seq<Heading>): seq<string> {
    if heads == [] then [] else Push(StackAfter(heads[..|heads| - 1]), heads[|heads| - 1])
  }

  function NonEmpty(titles: seq<string>): seq<string> {
    if titles == [] then [] else
      NonEmpty(titles[..|titles| - 1]) + (if titles[|titles| - 1] == "" then [] else [titles[|titles| - 1]])
  }

  /** No heading after `g` is of its level or above: its section is still open. */
  predicate StillOpen(heads: seq<Heading>, g: nat)
    requires g < |heads|
  {
    forall j | g < j < |heads| :: heads[j].level > heads[g].level
  }

  /** The sections open at the last heading, outermost first. */
  function OpenChain(heads: seq<Heading>, n: nat): seq<Heading>
    requires n <= |heads|
  {
    if n == 0 then [] else
      OpenChain(heads, n - 1) + (if StillOpen(heads, n - 1) then [heads[n - 1]] else [])
  }

  function Titles(heads: seq<Heading>): seq<string> {
    if heads == [] then [] else Titles(heads[..|heads| - 1]) + [heads[|heads| - 1].title]
  }

  predicate Leveled(heads: seq<Heading>) {
    forall i | 0 <= i < |heads| :: heads[i].level >= 1
  }

  predicate Deepening(chain: seq<Heading>) {
    (chain != [] ==> chain[0].level >= 1) && forall i, j | 0 <= i < j < |chain| :: chain[i].level < chain[j].level
  }

  /** A chain laid out by level, gaps empty. */
  function Laid(chain: seq<Heading>): seq<string> {
    if chain == [] then [] else
      Padded(Laid(chain[..|chain| - 1]), chain[|chain| - 1].level - 1) + [chain[|chain| - 1].title]
  }

  function Above(chain: seq<Heading>, level: int): seq<Heading> {
    if chain == [] then [] else
      Above(chain[..|chain| - 1], level) + (if chain[|chain| - 1].level < level then [chain[|chain| - 1]] else [])
  }

  lemma {:induction false} PaddedShape(stack: seq<string>, n: int)
    ensures |Padded(stack, n)| == if |stack| >= n then |stack| else n
    ensures Padded(stack, n)[..|stack|] == stack
    ensures forall i | |stack| <= i < |Padded(stack, n)| :: Padded(stack, n)[i] == ""
    decreases n - |stack|
  {
    if |stack| < n {
      PaddedShape(stack + [""], n);
      assert Padded(stack, n)[..|stack| + 1][..|stack|] == Padded(stack, n)[..|stack|];
    }
  }

  lemma {:induction false} LaidLength(chain: seq<Heading>)
    requires Deepening(chain)
    ensures |Laid(chain)| == if chain == [] then 0 else chain[|chain| - 1].level
  {
    if chain != [] {
      LaidLength(chain[..|chain| - 1]);
      PaddedShape(Laid(chain[..|chain| - 1]), chain[|chain| - 1].level - 1);
    }
  }

  lemma CutToShape(stack: seq<string>, k: nat)
    ensures |CutTo(stack, k)| == k
    ensures forall i | 0 <= i < k :: CutTo(stack, k)[i] == if i < |stack| then stack[i] else ""
  {
    var kept := if k <= |stack| then stack[..k] else stack;
    PaddedShape(kept, k);
    forall i | 0 <= i < |kept| ensures CutTo(stack, k)[i] == stack[i] {
      assert Padded(kept, k)[..|kept|][i] == kept[i];
    }
  }

  lemma CutThroughPadding(stack: seq<string>, m: int, title: string, k: nat)
    requires k <= m
    ensures CutTo(Padded(stack, m) + [title], k) == CutTo(stack, k)
  {
    var padded := Padded(stack, m);
    PaddedShape(stack, m);
    CutToShape(padded + [title], k);
    CutToShape(stack, k);
    assert forall i | 0 <= i < |stack| :: padded[..|stack|][i] == padded[i];
  }

  lemma DeeperLast(chain: seq<Heading>, h: Heading)
    requires Deepening(chain) && h.level >= 1 && forall x | x in chain :: x.level < h.level
    ensures Deepening(chain + [h])
  {
  }

  /** Cutting the laid-out chain at a level leaves the sections above that level. */
  lemma {:induction false} CutIsAbove(chain: seq<Heading>, k: nat)
    requires Deepening(chain)
    ensures CutTo(Laid(chain), k) == Padded(Laid(Above(chain, k + 1)), k)
  {
    if chain != [] {
      var front, last := chain[..|chain| - 1], chain[|chain| - 1];
      if last.level <= k {
        LaidLength(chain);
        AllAbove(chain, k + 1);
        assert k <= |Laid(chain)| ==> Laid(chain)[..k] == Laid(chain);
      } else {
        CutIsAbove(front, k);
        CutThroughPadding(Laid(front), last.level - 1, last.title, k);
        assert Above(chain, k + 1) == Above(front, k + 1);
      }
    }
  }

  lemma {:induction false} AllAbove(chain: seq<Heading>, level: int)
    requires forall i | 0 <= i < |chain| :: chain[i].level < level
    ensures Above(chain, level) == chain
  {
    if chain != [] { AllAbove(chain[..|chain| - 1], level); }
  }

  lemma {:induction false} ChainDeepens(heads: seq<Heading>, n: nat)
    requires Leveled(heads) && n <= |heads|
    ensures Deepening(OpenChain(heads, n))
    ensures forall h | h in OpenChain(heads, n) :: forall j | n <= j < |heads| :: h.level < heads[j].level
  {
    if n > 0 {
      ChainDeepens(heads, n - 1);
      if StillOpen(heads, n - 1) {
        DeeperLast(OpenChain(heads, n - 1), heads[n - 1]);
      }
    }
  }

  lemma AppendToChain(chain: seq<Heading>, h: Heading, level: int)
    ensures Above(chain + [h], level) == Above(chain, level) + (if h.level < level then [h] else [])
    ensures Laid(chain + [h]) == Padded(Laid(chain), h.level - 1) + [h.title]
  {
    assert (chain + [h])[..|chain|] == chain;
  }

  lemma OpenAfter(heads: seq<Heading>, h: Heading, g: nat)
    requires g < |heads|
    ensures StillOpen(heads + [h], g) <==> StillOpen(heads, g) && heads[g].level < h.level
  {
    var more := heads + [h];
    assert more[|heads|] == h;
    assert forall j | g <= j < |heads| :: more[j] == heads[j];
  }

  /** A new heading closes the sections of its level and below. */
  lemma {:induction false} ChainAppend(heads: seq<Heading>, h: Heading, n: nat)
    requires n <= |heads|
    ensures OpenChain(heads + [h], n) == Above(OpenChain(heads, n), h.level)
  {
    hide StillOpen;
    if n > 0 {
      ChainAppend(heads, h, n - 1);
      var g := n - 1;
      OpenAfter(heads, h, g);
      if StillOpen(heads, g) {
        AppendToChain(OpenChain(heads, g), heads[g], h.level);
      } else {
        assert OpenChain(heads, n) == OpenChain(heads, g);
      }
    }
  }

  /** The stack the loop keeps is the chain of open sections, laid out by level. */
  lemma {:induction false} StackIsOpenChain(heads: seq<Heading>)
    requires Leveled(heads)
    ensures StackAfter(heads) == Laid(OpenChain(heads, |heads|))
  {
    if heads != [] {
      var front, last := heads[..|heads| - 1], heads[|heads| - 1];
      assert heads == front + [last];
      StackIsOpenChain(front);
      ChainDeepens(front, |front|);
      ChainAppend(front, last, |front|);
      var chain, kept := OpenChain(front, |front|), Above(OpenChain(front, |front|), last.level);
      CutIsAbove(chain, last.level - 1);
      assert StillOpen(heads, |front|);
      assert OpenChain(heads, |heads|) == kept + [last];
      AppendToChain(kept, last, 0);
    }
  }

  lemma {:induction false} NonEmptyPadding(stack: seq<string>, n: int)
    ensures NonEmpty(Padded(stack, n)) == NonEmpty(stack)
    decreases n - |stack|
  {
    if |stack| < n {
      NonEmptyPadding(stack + [""], n);
      assert (stack + [""])[..|stack|] == stack;
    }
  }

  lemma {:induction false} NonEmptyLaid(chain: seq<Heading>)
    ensures NonEmpty(Laid(chain)) == NonEmpty(Titles(chain))
  {
    if chain != [] {
      var front, last := chain[..|chain| - 1], chain[|chain| - 1];
      NonEmptyLaid(front);
      NonEmptyPadding(Laid(front), last.level - 1);
      var padded := Padded(Laid(front), last.level - 1);
      assert (padded + [last.title])[..|padded|] == padded;
      assert (Titles(front) + [last.title])[..|Titles(front)|] == Titles(front);
    }
  }

  /** `[value for value in stack if value]` */
  function HeadingPath(heads: seq<Heading>): seq<string> {
    NonEmpty(StackAfter(heads))
  }

  /** A section's heading path names the sections still open around it, outermost first, and itself. */
  lemma PathIsOpenSections(heads: seq<Heading>)
    requires Leveled(heads)
    ensures HeadingPath(heads) == NonEmpty(Titles(OpenChain(heads, |heads|)))
  {
    StackIsOpenChain(heads);
    NonEmptyLaid(OpenChain(heads, |heads|));
  }

  // ---------------------------------------------------------------------------
  // Markdown
  // ---------------------------------------------------------------------------

  ghost predicate LevelsFromOne(heading: HeadingOf) {
    forall line :: heading(line).Some? ==> heading(line).value.level >= 1
  }

  /** The headings among the first `n` lines. */
  function Heads(lines: seq<string>, heading: HeadingOf, n: nat): seq<Heading>
    requires n <= |lines|
  {
    if n == 0 then [] else
      Heads(lines, heading, n - 1) + (if heading(lines[n - 1]).Some? then [heading(lines[n - 1]).value] else [])
  }

  /** The last heading among the first `n` lines, as a count of lines: zero if there is none. */
  function LastHead(lines: seq<string>, heading: HeadingOf, n: nat): (k: nat)
    requires n <= |lines|
    ensures k <= n && (k > 0 ==> heading(lines[k - 1]).Some?)
    ensures forall j | k <= j < n :: heading(lines[j]).None?
  {
    if n == 0 then 0 else if heading(lines[n - 1]).Some? then n else LastHead(lines, heading, n - 1)
  }

  function SectionAt(lines: seq<string>, heading: HeadingOf, head: nat, endLine: nat): Chunk
    requires 0 < head <= |lines|
  {
    Piece(lines, Section(HeadingPath(Heads(lines, heading, head))), head, endLine)
  }

  /** The chunks closed when `n` lines have been read. */
  function Closed(lines: seq<string>, heading: HeadingOf, blank: BlankLine, n: nat): seq<Chunk>
    requires n <= |lines|
  {
    if n == 0 then []
    else if heading(lines[n - 1]).None? then Closed(lines, heading, blank, n - 1)
    else
      var head := LastHead(lines, heading, n - 1);
      if head > 0 then Closed(lines, heading, blank, n - 1) + [SectionAt(lines, heading, head, n - 1)]
      else if n > 1 && !AllBlank(lines[..n - 1], blank) then [Piece(lines, Preamble, 1, n - 1)]
      else []
  }

  function Markdown(lines: seq<string>, heading: HeadingOf, blank: BlankLine): seq<Chunk> {
    var head := LastHead(lines, heading, |lines|);
    if head > 0 then Closed(lines, heading, blank, |lines|) + [SectionAt(lines, heading, head, |lines|)]
    else if AllBlank(lines, blank) then []
    else [Piece(lines, Document, 1, |lines|)]
  }

  datatype Open = Open(startLine: nat, headingPath: seq<string>)

  /** `markdown_chunks` */
  method MarkdownChunks(lines: seq<string>, heading: HeadingOf, blank: BlankLine) returns (chunks: seq<Chunk>)
    ensures chunks == Markdown(lines, heading, blank)
  {
    hide AllBlank, Piece, Closed, OpenAt, StackAfter, NonEmpty, Heads, CutTo, Markdown;
    var stack: seq<string> := [];
    var current: Option<Open> := None;
    chunks := [];
    NothingClosed(lines, heading, blank);
    for index := 0 to |lines|
      invariant stack == StackAfter(Heads(lines, heading, index))
      invariant current == OpenAt(lines, heading, index) && chunks == Closed(lines, heading, blank, index)
    {
      var found := heading(lines[index]);
      if found.None? {
        PlainLine(lines, heading, blank, index);
        continue;
      }
      if current.Some? {
        chunks := chunks + [Piece(lines, Section(current.value.headingPath), current.value.startLine, index)];
      } else if chunks == [] && index > 0 && !AllBlank(lines[..index], blank) {
        chunks := [Piece(lines, Preamble, 1, index)];
      }
      ClosedByHeading(lines, heading, blank, index);
      stack := CutTo(stack, found.value.level - 1) + [found.value.title];
      StackByHeading(lines, heading, index);
      current := Some(Open(index + 1, NonEmpty(stack)));
    }
    if current.Some? {
      chunks := chunks + [Piece(lines, Section(current.value.headingPath), current.value.startLine, |lines|)];
    }
    if chunks == [] && !AllBlank(lines, blank) {
      chunks := [Piece(lines, Document, 1, |lines|)];
    }
    MarkdownAtEnd(lines, heading, blank);
  }

  /** The section being read after `n` lines. */
  function OpenAt(lines: seq<string>, heading: HeadingOf, n: nat): Option<Open>
    requires n <= |lines|
  {
    var head := LastHead(lines, heading, n);
    if head == 0 then None else Some(Open(head, HeadingPath(Heads(lines, heading, head))))
  }

  lemma NothingClosed(lines: seq<string>, heading: HeadingOf, blank: BlankLine)
    ensures Closed(lines, heading, blank, 0) == [] && OpenAt(lines, heading, 0) == None
    ensures Heads(lines, heading, 0) == [] && StackAfter([]) == []
  {
  }

  lemma PlainLine(lines: seq<string>, heading: HeadingOf, blank: BlankLine, n: nat)
    requires n < |lines| && heading(lines[n]).None?
    ensures Closed(lines, heading, blank, n + 1) == Closed(lines, heading, blank, n)
    ensures OpenAt(lines, heading, n + 1) == OpenAt(lines, heading, n)
    ensures Heads(lines, heading, n + 1) == Heads(lines, heading, n)
  {
  }

  lemma MarkdownAtEnd(lines: seq<string>, heading: HeadingOf, blank: BlankLine)
    ensures var open := OpenAt(lines, heading, |lines|); var closed := Closed(lines, heading, blank, |lines|);
      Markdown(lines, heading, blank) ==
        if open.Some? then closed + [Piece(lines, Section(open.value.headingPath), open.value.startLine, |lines|)]
        else if closed == [] && !AllBlank(lines, blank) then [Piece(lines, Document, 1, |lines|)]
        else closed
  {
    NoHeadNothingClosed(lines, heading, blank, |lines|);
  }

  lemma {:induction false} NoHeadNothingClosed(lines: seq<string>, heading: HeadingOf, blank: BlankLine, n: nat)
    requires n <= |lines|
    ensures LastHead(lines, heading, n) == 0 ==> Closed(lines, heading, blank, n) == []
  {
    if n > 0 { NoHeadNothingClosed(lines, heading, blank, n - 1); }
  }

  lemma ClosedByHeading(lines: seq<string>, heading: HeadingOf, blank: BlankLine, n: nat)
    requires n < |lines| && heading(lines[n]).Some?
    ensures var open := OpenAt(lines, heading, n); var before := Closed(lines, heading, blank, n);
      Closed(lines, heading, blank, n + 1) ==
        if open.Some? then before + [Piece(lines, Section(open.value.headingPath), open.value.startLine, n)]
        else if before == [] && n > 0 && !AllBlank(lines[..n], blank) then [Piece(lines, Preamble, 1, n)]
        else before
  {
    NoHeadNothingClosed(lines, heading, blank, n);
  }

  lemma StackByHeading(lines: seq<string>, heading: HeadingOf, n: nat)
    requires n < |lines| && heading(lines[n]).Some?
    ensures StackAfter(Heads(lines, heading, n + 1)) ==
      Push(StackAfter(Heads(lines, heading, n)), heading(lines[n]).value)
    ensures OpenAt(lines, heading, n + 1) == Some(Open(n + 1, NonEmpty(StackAfter(Heads(lines, heading, n + 1)))))
  {
    var heads, h := Heads(lines, heading, n), heading(lines[n]).value;
    assert (heads + [h])[..|heads|] == heads;
  }

  predicate FirstHeadAt(lines: seq<string>, heading: HeadingOf, first: nat) {
    first < |lines| && heading(lines[first]).Some? && forall j | 0 <= j < first :: heading(lines[j]).None?
  }

  function BeforeFirst(lines: seq<string>, blank: BlankLine, first: nat): seq<Chunk>
    requires first < |lines|
  {
    if first > 0 && !AllBlank(lines[..first], blank) then [Piece(lines, Preamble, 1, first)] else []
  }

  lemma {:induction false} BeforeFirstHead(lines: seq<string>, heading: HeadingOf, blank: BlankLine, first: nat, n: nat)
    requires FirstHeadAt(lines, heading, first) && n <= first
    ensures LastHead(lines, heading, n) == 0 && Closed(lines, heading, blank, n) == []
  {
    if n > 0 { BeforeFirstHead(lines, heading, blank, first, n - 1); }
  }

  /** A section runs from its heading to the next, under the path its heading has there. */
  predicate SectionOk(lines: seq<string>, heading: HeadingOf, c: Chunk) {
    && 0 < c.startLine <= c.endLine <= |lines| && heading(lines[c.startLine - 1]).Some?
    && (forall j | c.startLine <= j < c.endLine :: heading(lines[j]).None?)
    && c == SectionAt(lines, heading, c.startLine, c.endLine)
  }

  lemma {:induction false} HeadsLeveled(lines: seq<string>, heading: HeadingOf, n: nat)
    requires LevelsFromOne(heading) && n <= |lines|
    ensures Leveled(Heads(lines, heading, n))
  {
    if n > 0 { HeadsLeveled(lines, heading, n - 1); }
  }

  /** The path of a section names the headings that no later heading up to its own has closed. */
  lemma SectionPath(lines: seq<string>, heading: HeadingOf, c: Chunk)
    requires LevelsFromOne(heading) && SectionOk(lines, heading, c)
    ensures var heads := Heads(lines, heading, c.startLine);
      c.kind == Section(NonEmpty(Titles(OpenChain(heads, |heads|))))
  {
    HeadsLeveled(lines, heading, c.startLine);
    PathIsOpenSections(Heads(lines, heading, c.startLine));
  }

  predicate Sections(lines: seq<string>, heading: HeadingOf, chunks: seq<Chunk>) {
    forall i | 0 <= i < |chunks| :: SectionOk(lines, heading, chunks[i])
  }

  lemma AppendSection(lines: seq<string>, heading: HeadingOf, before: seq<Chunk>, closed: seq<Chunk>,
                      from: int, head: nat, endLine: nat)
    requires before <= closed && 0 < head <= endLine <= |lines|
    requires Tiles(closed[|before|..], from, head - 1) && Sections(lines, heading, closed[|before|..])
    requires heading(lines[head - 1]).Some? && forall j | head <= j < endLine :: heading(lines[j]).None?
    ensures var more := closed + [SectionAt(lines, heading, head, endLine)];
      && before <= more && Tiles(more[|before|..], from, endLine) && Sections(lines, heading, more[|before|..])
  {
    hide HeadingPath, Slice, Tiles;
    var tail, last := closed[|before|..], SectionAt(lines, heading, head, endLine);
    TilesAppend(tail, from, head - 1, last);
    assert (closed + [last])[|before|..] == tail + [last];
    assert SectionOk(lines, heading, last);
  }

  /** From the first heading on, the closed sections tile what has been read. */
  predicate ClosedOk(lines: seq<string>, heading: HeadingOf, blank: BlankLine, first: nat, n: nat)
    requires first < n <= |lines|
  {
    var closed, before := Closed(lines, heading, blank, n), BeforeFirst(lines, blank, first);
    && LastHead(lines, heading, n) > first && before <= closed
    && Tiles(closed[|before|..], first + 1, LastHead(lines, heading, n) - 1)
    && Sections(lines, heading, closed[|before|..])
  }

  lemma ClosedAtFirst(lines: seq<string>, heading: HeadingOf, blank: BlankLine, first: nat)
    requires FirstHeadAt(lines, heading, first)
    ensures ClosedOk(lines, heading, blank, first, first + 1)
  {
    hide AllBlank;
    BeforeFirstHead(lines, heading, blank, first, first);
    assert Closed(lines, heading, blank, first + 1) == BeforeFirst(lines, blank, first);
  }

  lemma ClosedStep(lines: seq<string>, heading: HeadingOf, blank: BlankLine, first: nat, n: nat)
    requires first < n < |lines| && ClosedOk(lines, heading, blank, first, n)
    ensures ClosedOk(lines, heading, blank, first, n + 1)
  {
    hide HeadingPath, SectionOk, Sections, Tiles, BeforeFirst;
    if heading(lines[n]).None? {
      PlainLine(lines, heading, blank, n);
    } else {
      AppendSection(lines, heading, BeforeFirst(lines, blank, first), Closed(lines, heading, blank, n),
                    first + 1, LastHead(lines, heading, n), n);
    }
  }

  lemma {:induction false} ClosedTiles(lines: seq<string>, heading: HeadingOf, blank: BlankLine, first: nat, n: nat)
    requires FirstHeadAt(lines, heading, first) && first < n <= |lines|
    ensures ClosedOk(lines, heading, blank, first, n)
  {
    hide ClosedOk;
    if n == first + 1 {
      ClosedAtFirst(lines, heading, blank, first);
    } else {
      ClosedTiles(lines, heading, blank, first, n - 1);
      ClosedStep(lines, heading, blank, first, n - 1);
    }
  }

  /** A markdown file with headings: a preamble unless what precedes the first heading is blank, then
      sections that tile the rest of the file, each under the chain of sections still open. */
  lemma MarkdownTiles(lines: seq<string>, heading: HeadingOf, blank: BlankLine, first: nat)
    requires FirstHeadAt(lines, heading, first)
    ensures var chunks, before := Markdown(lines, heading, blank), BeforeFirst(lines, blank, first);
      && before <= chunks && |chunks| > |before|
      && Tiles(chunks[|before|..], first + 1, |lines|) && Sections(lines, heading, chunks[|before|..])
  {
    hide HeadingPath, Slice, AllBlank, SectionOk;
    ClosedTiles(lines, heading, blank, first, |lines|);
    AppendSection(lines, heading, BeforeFirst(lines, blank, first), Closed(lines, heading, blank, |lines|),
                  first + 1, LastHead(lines, heading, |lines|), |lines|);
  }

  lemma {:induction false} CoverConcat(a: seq<Chunk>, b: seq<Chunk>, line: int)
    ensures Cover(a + b, line) == Cover(a, line) + Cover(b, line)
  {
    if a == [] {
      assert a + b == b;
    } else {
      CoverConcat(a[1..], b, line);
      assert (a + b)[1..] == a[1..] + b;
    }
  }

  /** No line is in two chunks, and only blank lines are in none. */
  lemma MarkdownCovers(lines: seq<string>, heading: HeadingOf, blank: BlankLine, line: int)
    requires 1 <= line <= |lines|
    ensures Cover(Markdown(lines, heading, blank), line) <= 1
    ensures !blank(lines[line - 1]) ==> Cover(Markdown(lines, heading, blank), line) == 1
  {
    hide HeadingPath, Slice, Closed, Sections, Tiles, AllBlank;
    var chunks := Markdown(lines, heading, blank);
    if LastHead(lines, heading, |lines|) == 0 {
      WholeDocument(lines, heading, blank, line);
    } else {
      var first := FirstHead(lines, heading, 0);
      MarkdownTiles(lines, heading, blank, first);
      var before := BeforeFirst(lines, blank, first);
      assert chunks == before + chunks[|before|..];
      CoverConcat(before, chunks[|before|..], line);
      TilesCoverOnce(chunks[|before|..], first + 1, |lines|, line);
      BeforeCovers(lines, blank, first, line);
    }
  }

  lemma WholeDocument(lines: seq<string>, heading: HeadingOf, blank: BlankLine, line: int)
    requires 1 <= line <= |lines| && LastHead(lines, heading, |lines|) == 0
    ensures Cover(Markdown(lines, heading, blank), line) <= 1
    ensures !blank(lines[line - 1]) ==> Cover(Markdown(lines, heading, blank), line) == 1
  {
    var chunks := Markdown(lines, heading, blank);
    assert chunks != [] ==> chunks[1..] == [];
  }

  lemma BeforeCovers(lines: seq<string>, blank: BlankLine, first: nat, line: int)
    requires first < |lines| && 1 <= line
    ensures Cover(BeforeFirst(lines, blank, first), line) <= if line <= first then 1 else 0
    ensures line <= first && !blank(lines[line - 1]) ==> Cover(BeforeFirst(lines, blank, first), line) == 1
  {
    var before := BeforeFirst(lines, blank, first);
    assert before != [] ==> before[1..] == [];
    assert line <= first ==> lines[line - 1] == lines[..first][line - 1];
  }

  function FirstHead(lines: seq<string>, heading: HeadingOf, from: nat): (first: nat)
    requires from <= LastHead(lines, heading, |lines|) - 1
    requires forall j | 0 <= j < from :: heading(lines[j]).None?
    ensures FirstHeadAt(lines, heading, first)
    decreases |lines| - from
  {
    if heading(lines[from]).Some? then from else FirstHead(lines, heading, from + 1)
  }

  // ---------------------------------------------------------------------------
  // Code: windows and symbols
  // ---------------------------------------------------------------------------

  const WINDOW := 80

  /** The windows from `start` on, with the blank ones left out. */
  function Windows(lines: seq<string>, blank: BlankLine, start: nat): seq<Chunk>
    requires start >= 1
    decreases |lines| - start
  {
    if start > |lines| then [] else
      var end := if start + WINDOW - 1 <= |lines| then start + WINDOW - 1 else |lines|;
      (if AllBlank(Slice(lines, start - 1, end), blank) then [] else [Piece(lines, Window, start, end)])
        + Windows(lines, blank, start + WINDOW)
  }

  /** `code_chunks` */
  method CodeChunks(lines: seq<string>, blank: BlankLine) returns (chunks: seq<Chunk>)
    ensures chunks == Windows(lines, blank, 1)
  {
    hide Slice, AllBlank;
    chunks := [];
    var start := 1;
    while start <= |lines|
      invariant start >= 1 && chunks + Windows(lines, blank, start) == Windows(lines, blank, 1)
      decreases |lines| - start
    {
      var end := if |lines| < start + 79 then |lines| else start + 79;
      ghost var kept := if AllBlank(Slice(lines, start - 1, end), blank) then [] else [Piece(lines, Window, start, end)];
      ConcatAssociates(chunks, kept, Windows(lines, blank, start + WINDOW));
      if !AllBlank(Slice(lines, start - 1, end), blank) {
        chunks := chunks + [Piece(lines, Window, start, end)];
      }
      start := start + 80;
    }
  }

  lemma {:induction false} WindowsCover(lines: seq<string>, blank: BlankLine, start: nat, line: int)
    requires 1 <= start && 1 <= line <= |lines|
    ensures Cover(Windows(lines, blank, start), line) <= 1
    ensures line < start ==> Cover(Windows(lines, blank, start), line) == 0
    ensures line >= start && !blank(lines[line - 1]) ==> Cover(Windows(lines, blank, start), line) == 1
    ensures forall c | c in Windows(lines, blank, start) ::
      c.endLine - c.startLine < WINDOW && !AllBlank(c.content, blank)
    decreases |lines| - start
  {
    if start <= |lines| {
      WindowsCover(lines, blank, start + WINDOW, line);
      var end := if start + WINDOW - 1 <= |lines| then start + WINDOW - 1 else |lines|;
      if start <= line <= end {
        assert Slice(lines, start - 1, end)[line - start] == lines[line - 1];
      }
      var windows, rest := Windows(lines, blank, start), Windows(lines, blank, start + WINDOW);
      if !AllBlank(Slice(lines, start - 1, end), blank) {
        assert windows[1..] == rest;
      } else {
        assert windows == rest;
      }
    }
  }

  datatype Sym = Sym(name: string, line: int)

  /** Where the i-th symbol's range ends. */
  function EndOf(lines: seq<string>, symbols: seq<Sym>, i: nat): int
    requires i < |symbols|
  {
    if i + 1 < |symbols| then symbols[i + 1].line - 1 else |lines|
  }

  function SymbolsFrom(lines: seq<string>, symbols: seq<Sym>, blank: BlankLine, i: nat): seq<Chunk>
    requires i <= |symbols|
    decreases |symbols| - i
  {
    if i == |symbols| then [] else
      var start, end := symbols[i].line, EndOf(lines, symbols, i);
      (if AllBlank(Slice(lines, start - 1, end), blank) then []
       else [Piece(lines, Symbol(symbols[i].name), start, end)]) + SymbolsFrom(lines, symbols, blank, i + 1)
  }

  function SymbolPreamble(lines: seq<string>, symbols: seq<Sym>, blank: BlankLine): seq<Chunk>
    requires symbols != []
  {
    var first := symbols[0].line;
    if first > 1 && !AllBlank(Slice(lines, 0, first - 1), blank) then [Piece(lines, Preamble, 1, first - 1)] else []
  }

  function SymbolAware(lines: seq<string>, symbols: seq<Sym>, blank: BlankLine): seq<Chunk> {
    if symbols == [] then Windows(lines, blank, 1) else
      var chunks := SymbolPreamble(lines, symbols, blank) + SymbolsFrom(lines, symbols, blank, 0);
      if chunks == [] then Windows(lines, blank, 1) else chunks
  }

  /** The loop over the symbols. */
  method AppendSymbols(before: seq<Chunk>, lines: seq<string>, symbols: seq<Sym>, blank: BlankLine)
    returns (chunks: seq<Chunk>)
    ensures chunks == before + SymbolsFrom(lines, symbols, blank, 0)
  {
    hide Slice, AllBlank;
    chunks := before;
    for i := 0 to |symbols|
      invariant chunks + SymbolsFrom(lines, symbols, blank, i) == before + SymbolsFrom(lines, symbols, blank, 0)
    {
      var start := symbols[i].line;
      var end := if i + 1 < |symbols| then symbols[i + 1].line - 1 else |lines|;
      ghost var kept := if AllBlank(Slice(lines, start - 1, end), blank) then []
                        else [Piece(lines, Symbol(symbols[i].name), start, end)];
      ConcatAssociates(chunks, kept, SymbolsFrom(lines, symbols, blank, i + 1));
      if AllBlank(Slice(lines, start - 1, end), blank) { continue; }
      chunks := chunks + [Piece(lines, Symbol(symbols[i].name), start, end)];
    }
  }

  /** `symbol_aware_code_chunks`; a parser failure gives no symbols. */
  method SymbolAwareCodeChunks(lines: seq<string>, symbols: seq<Sym>, blank: BlankLine) returns (chunks: seq<Chunk>)
    ensures chunks == SymbolAware(lines, symbols, blank)
  {
    if symbols == [] {
      chunks := CodeChunks(lines, blank);
      return;
    }
    chunks := [];
    var first := symbols[0].line;
    if first > 1 && !AllBlank(Slice(lines, 0, first - 1), blank) {
      chunks := [Piece(lines, Preamble, 1, first - 1)];
    }
    chunks := AppendSymbols(chunks, lines, symbols, blank);
    if chunks == [] { chunks := CodeChunks(lines, blank); }
  }

  /** How often the symbol lines, from the i-th on, fall back across a line. */
  function Descents(symbols: seq<Sym>, i: nat, line: int): nat
    requires i <= |symbols|
    decreases |symbols| - i
  {
    if i + 1 >= |symbols| then 0 else
      (if symbols[i + 1].line <= line < symbols[i].line then 1 else 0) + Descents(symbols, i + 1, line)
  }

  predicate InFile(lines: seq<string>, symbols: seq<Sym>) {
    forall i | 0 <= i < |symbols| :: 1 <= symbols[i].line <= |lines|
  }

  lemma SliceHolds(lines: seq<string>, a: int, b: int, blank: BlankLine, line: int)
    requires 1 <= a <= line <= b && line <= |lines| && !blank(lines[line - 1])
    ensures !AllBlank(Slice(lines, a - 1, b), blank)
  {
    assert Slice(lines, a - 1, b)[line - a] == lines[line - 1];
  }

  lemma {:induction false} RangesCross(lines: seq<string>, symbols: seq<Sym>, blank: BlankLine, i: nat, line: int)
    requires InFile(lines, symbols) && i < |symbols| && 1 <= line <= |lines| && !blank(lines[line - 1])
    ensures Cover(SymbolsFrom(lines, symbols, blank, i), line) ==
      Descents(symbols, i, line) + (if symbols[i].line <= line then 1 else 0)
    decreases |symbols| - i
  {
    hide AllBlank, Slice;
    var chunks, rest := SymbolsFrom(lines, symbols, blank, i), SymbolsFrom(lines, symbols, blank, i + 1);
    var start, end := symbols[i].line, EndOf(lines, symbols, i);
    if i + 1 < |symbols| { RangesCross(lines, symbols, blank, i + 1, line); }
    if start <= line <= end { SliceHolds(lines, start, end, blank, line); }
    if AllBlank(Slice(lines, start - 1, end), blank) {
      assert chunks == rest;
    } else {
      assert chunks[1..] == rest;
    }
  }

  /** No line that says anything is lost, and it is in more than one chunk as often as the symbol lines
      fall back across it. */
  lemma SymbolsCover(lines: seq<string>, symbols: seq<Sym>, blank: BlankLine, line: int)
    requires symbols != [] && InFile(lines, symbols) && 1 <= line <= |lines| && !blank(lines[line - 1])
    ensures Cover(SymbolAware(lines, symbols, blank), line) == 1 + Descents(symbols, 0, line)
  {
    hide AllBlank, Slice, SymbolPreamble, SymbolsFrom;
    RangesCross(lines, symbols, blank, 0, line);
    PreambleCovers(lines, symbols, blank, line);
    CoverConcat(SymbolPreamble(lines, symbols, blank), SymbolsFrom(lines, symbols, blank, 0), line);
  }

  lemma PreambleCovers(lines: seq<string>, symbols: seq<Sym>, blank: BlankLine, line: int)
    requires symbols != [] && InFile(lines, symbols) && 1 <= line <= |lines| && !blank(lines[line - 1])
    ensures Cover(SymbolPreamble(lines, symbols, blank), line) == if line < symbols[0].line then 1 else 0
  {
    hide AllBlank, Slice;
    var before := SymbolPreamble(lines, symbols, blank);
    if line < symbols[0].line { SliceHolds(lines, 1, symbols[0].line - 1, blank, line); }
    assert before != [] ==> before[1..] == [];
  }

  predicate Nondecreasing(symbols: seq<Sym>) {
    forall i | 0 < i < |symbols| :: symbols[i - 1].line <= symbols[i].line
  }

  lemma {:induction false} DescentAt(symbols: seq<Sym>, i: nat, line: int)
    requires i <= |symbols|
    ensures Descents(symbols, i, line) > 0 <==>
      exists j :: i < j < |symbols| && symbols[j].line <= line < symbols[j - 1].line
    decreases |symbols| - i
  {
    if i + 1 < |symbols| {
      DescentAt(symbols, i + 1, line);
      if symbols[i + 1].line <= line < symbols[i].line {
        assert symbols[i + 1].line <= line < symbols[i + 1 - 1].line;
      }
    }
  }

  /** Each line that says anything is in exactly one chunk. */
  predicate PartitionsText(lines: seq<string>, blank: BlankLine, chunks: seq<Chunk>) {
    forall line | 1 <= line <= |lines| && !blank(lines[line - 1]) :: Cover(chunks, line) == 1
  }

  /** Some symbol comes after one that starts further down, and the line lies between the two. */
  predicate Crossed(symbols: seq<Sym>, line: int) {
    exists j :: 0 < j < |symbols| && symbols[j].line <= line < symbols[j - 1].line
  }

  /** The chunks partition the text exactly when symbol lines fall back over blank lines at most. */
  lemma PartitionUnlessTextIsCrossed(lines: seq<string>, symbols: seq<Sym>, blank: BlankLine)
    requires symbols != [] && InFile(lines, symbols)
    ensures PartitionsText(lines, blank, SymbolAware(lines, symbols, blank))
       <==> forall line | 1 <= line <= |lines| && Crossed(symbols, line) :: blank(lines[line - 1])
  {
    hide SymbolAware, Cover, Descents;
    var chunks := SymbolAware(lines, symbols, blank);
    forall line | 1 <= line <= |lines| && !blank(lines[line - 1])
      ensures Cover(chunks, line) == 1 <==> !Crossed(symbols, line)
    {
      SymbolsCover(lines, symbols, blank, line);
      DescentAt(symbols, 0, line);
    }
  }

  /** A symbol's line is not blank where the parser found one; then what is needed is line order. */
  lemma PartitionNeedsLineOrder(lines: seq<string>, symbols: seq<Sym>, blank: BlankLine)
    requires symbols != [] && InFile(lines, symbols)
    requires forall i | 0 <= i < |symbols| :: !blank(lines[symbols[i].line - 1])
    ensures PartitionsText(lines, blank, SymbolAware(lines, symbols, blank)) <==> Nondecreasing(symbols)
  {
    PartitionUnlessTextIsCrossed(lines, symbols, blank);
    if i :| 0 < i < |symbols| && symbols[i - 1].line > symbols[i].line {
      assert Crossed(symbols, symbols[i].line);
    }
  }

  // ---------------------------------------------------------------------------
  // What a chunk holds
  // ---------------------------------------------------------------------------

  /** The chunk's text is that of its lines. */
  predicate HoldsItsLines(lines: seq<string>, c: Chunk) {
    1 <= c.startLine <= c.endLine <= |lines| ==> c.content == lines[c.startLine - 1..c.endLine]
  }

  lemma PieceHolds(lines: seq<string>, kind: Kind, startLine: int, endLine: int)
    ensures HoldsItsLines(lines, Piece(lines, kind, startLine, endLine))
  {
  }

  lemma {:induction false} WindowsHold(lines: seq<string>, blank: BlankLine, start: nat, c: Chunk)
    requires start >= 1 && c in Windows(lines, blank, start)
    ensures HoldsItsLines(lines, c) && c.kind == Window
    ensures c.startLine >= start && (c.startLine - start) % 80 == 0
    ensures c.endLine == if c.startLine + 79 <= |lines| then c.startLine + 79 else |lines|
    decreases |lines| - start
  {
    hide Slice, AllBlank, HoldsItsLines;
    var end := if start + WINDOW - 1 <= |lines| then start + WINDOW - 1 else |lines|;
    PieceHolds(lines, Window, start, end);
    if c in Windows(lines, blank, start + WINDOW) { WindowsHold(lines, blank, start + WINDOW, c); }
  }

  lemma {:induction false} ClosedHold(lines: seq<string>, heading: HeadingOf, blank: BlankLine, n: nat, c: Chunk)
    requires n <= |lines| && c in Closed(lines, heading, blank, n)
    ensures HoldsItsLines(lines, c)
  {
    hide Slice, AllBlank, HoldsItsLines, HeadingPath;
    var head := LastHead(lines, heading, n - 1);
    PieceHolds(lines, Preamble, 1, n - 1);
    if head > 0 { PieceHolds(lines, Section(HeadingPath(Heads(lines, heading, head))), head, n - 1); }
    if c in Closed(lines, heading, blank, n - 1) { ClosedHold(lines, heading, blank, n - 1, c); }
  }

  lemma {:induction false} SymbolsHold(lines: seq<string>, symbols: seq<Sym>, blank: BlankLine, i: nat, c: Chunk)
    requires i <= |symbols| && c in SymbolsFrom(lines, symbols, blank, i)
    ensures HoldsItsLines(lines, c)
    decreases |symbols| - i
  {
    hide Slice, AllBlank, HoldsItsLines;
    PieceHolds(lines, Symbol(symbols[i].name), symbols[i].line, EndOf(lines, symbols, i));
    if c in SymbolsFrom(lines, symbols, blank, i + 1) { SymbolsHold(lines, symbols, blank, i + 1, c); }
  }

  /** However a file is cut, every chunk holds the lines it names. */
  lemma ChunksHoldTheirLines(lines: seq<string>, heading: HeadingOf, symbols: seq<Sym>, blank: BlankLine)
    ensures forall c | c in Markdown(lines, heading, blank) :: HoldsItsLines(lines, c)
    ensures forall c | c in SymbolAware(lines, symbols, blank) :: HoldsItsLines(lines, c)
  {
    hide Slice, AllBlank, HoldsItsLines, HeadingPath, Closed, Windows, SymbolsFrom;
    PieceHolds(lines, Document, 1, |lines|);
    var head := LastHead(lines, heading, |lines|);
    if head > 0 { PieceHolds(lines, Section(HeadingPath(Heads(lines, heading, head))), head, |lines|); }
    forall c | c in Closed(lines, heading, blank, |lines|) ensures HoldsItsLines(lines, c) {
      ClosedHold(lines, heading, blank, |lines|, c);
    }
    forall c | c in Windows(lines, blank, 1) ensures HoldsItsLines(lines, c) {
      WindowsHold(lines, blank, 1, c);
    }
    if symbols != [] {
      PieceHolds(lines, Preamble, 1, symbols[0].line - 1);
      forall c | c in SymbolsFrom(lines, symbols, blank, 0) ensures HoldsItsLines(lines, c) {
        SymbolsHold(lines, symbols, blank, 0, c);
      }
    }
  }
}
