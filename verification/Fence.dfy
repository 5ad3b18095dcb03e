/** The fence around untrusted memory (agentrail/context/memory_lane.py): occurrences of the fence
    markers inside a content string are broken up with zero-width spaces. */
module Fence {
  import opened MemoryLane

  const BEGIN := "<<<UNTRUSTED_MEMORY_CONTENT>>>"
  const END := "<<<END_UNTRUSTED_MEMORY_CONTENT>>>"
  const ZWSP: char := '\U{200B}'

  /** `s.startswith(p)` */
  predicate StartsWith(s: string, p: string) {
    |p| <= |s| && s[..|p|] == p
  }

  /** `m in s` */
  predicate Contains(s: string, m: string) {
    exists i :: 0 <= i <= |s| && StartsWith(s[i..], m)
  }

  /** `text.replace(old, new)`: leftmost occurrences first, none overlapping. */
  function Replace(text: string, target: string, substitute: string): string
    requires target != []
    decreases |text|
  {
    if text == [] then []
    else if StartsWith(text, target) then substitute + Replace(text[|target|..], target, substitute)
    else [text[0]] + Replace(text[1..], target, substitute)
  }

  /** `zwsp.join(marker)` */
  function Broken(marker: string): string {
    if |marker| <= 1 then marker else [marker[0], ZWSP] + Broken(marker[1..])
  }

  /** Two passes, one for each marker. */
  function BreakUp(text: string, begin: string, end: string): string
    requires begin != [] && end != []
  {
    Replace(Replace(text, begin, Broken(begin)), end, Broken(end))
  }

  /** `_neutralize_fence_markers` */
  function Neutralize(text: string): string {
    BreakUp(text, BEGIN, END)
  }

  // ---------------------------------------------------------------------------
  // Breaking one marker up
  // ---------------------------------------------------------------------------

  lemma {:induction false} BrokenAlternates(marker: string)
    requires marker != []
    ensures |Broken(marker)| == 2 * |marker| - 1
    ensures forall k | 0 <= k < |marker| :: Broken(marker)[2 * k] == marker[k]
    ensures forall k | 0 <= k < |marker| - 1 :: Broken(marker)[2 * k + 1] == ZWSP
  {
    if |marker| > 1 {
      BrokenAlternates(marker[1..]);
      var b, tail := Broken(marker), Broken(marker[1..]);
      forall k | 0 <= k < |marker| ensures b[2 * k] == marker[k] {
        if k > 0 { assert b[2 * k] == tail[2 * (k - 1)]; }
      }
      forall k | 0 <= k < |marker| - 1 ensures b[2 * k + 1] == ZWSP {
        if k > 0 { assert b[2 * k + 1] == tail[2 * (k - 1) + 1]; }
      }
    }
  }

  /** Two neighbouring characters of a broken marker are not both from the marker. */
  lemma BrokenNeighbours(marker: string, i: nat)
    requires marker != [] && i + 1 < |Broken(marker)|
    ensures Broken(marker)[i] == ZWSP || Broken(marker)[i + 1] == ZWSP
  {
    BrokenAlternates(marker);
    if i % 2 == 0 {
      assert Broken(marker)[2 * (i / 2) + 1] == ZWSP;
    } else {
      assert Broken(marker)[2 * (i / 2) + 1] == ZWSP;
    }
  }

  lemma BrokenStart(marker: string)
    requires |marker| >= 2
    ensures |Broken(marker)| >= 2 && Broken(marker)[0] == marker[0] && Broken(marker)[1] == ZWSP
  {
    BrokenAlternates(marker);
    assert Broken(marker)[2 * 0] == marker[0] && Broken(marker)[2 * 0 + 1] == ZWSP;
  }

  lemma BlockStart(text: string, n: string)
    requires |n| >= 2
    ensures StartsWith(text, n) ==> var r := Replace(text, n, Broken(n));
      |r| >= 2 && r[0] == n[0] && r[1] == ZWSP
  {
    BrokenStart(n);
  }

  lemma StartsAt(s: string, p: string)
    ensures StartsWith(s, p) ==> forall k | 0 <= k < |p| :: s[k] == p[k]
  {
  }

  predicate Plain(s: string) {
    ZWSP !in s
  }

  /** What the result starts with, the text started with: nothing plain reaches into a broken marker. */
  lemma {:induction false} StartIsOriginal(text: string, n: string, s: string)
    requires |n| >= 2 && Plain(s) && (s != [] ==> s[|s| - 1] != n[0])
    requires StartsWith(Replace(text, n, Broken(n)), s)
    ensures StartsWith(text, s)
    decreases |s|
  {
    if s != [] {
      var result := Replace(text, n, Broken(n));
      assert result[0] == s[0];
      BlockStart(text, n);
      StartsAt(result, s);
      if !StartsWith(text, n) {
        assert result[1..] == Replace(text[1..], n, Broken(n));
        assert result[1..][..|s| - 1] == s[1..];
        StartIsOriginal(text[1..], n, s[1..]);
        assert text == [text[0]] + text[1..] && s == [s[0]] + s[1..];
      }
    }
  }

  lemma ContainsAfter(text: string, m: string, k: nat)
    requires k <= |text| && Contains(text[k..], m)
    ensures Contains(text, m)
  {
    var i :| 0 <= i <= |text[k..]| && StartsWith(text[k..][i..], m);
    assert text[k..][i..] == text[k + i..];
  }

  /** After a pass over `n`, marker `m` occurs nowhere: `m` may be `n` itself, or a marker that was not
      there before. It cannot arise across the edge of a broken `n`. */
  lemma {:induction false} PassRemoves(text: string, n: string, m: string)
    requires |n| >= 2 && |m| >= 2 && Plain(m) && m[0] != n[|n| - 1] && m[|m| - 1] != n[0]
    requires m == n || !Contains(text, m)
    ensures !Contains(Replace(text, n, Broken(n)), m)
    decreases |text|
  {
    var result := Replace(text, n, Broken(n));
    if text != [] {
      if StartsWith(text, n) {
        var rest := text[|n|..];
        if Contains(rest, m) { ContainsAfter(text, m, |n|); }
        PassRemoves(rest, n, m);
        forall i | 0 <= i <= |result| ensures !StartsWith(result[i..], m) {
          NotAcrossBlock(n, Replace(rest, n, Broken(n)), m, i);
        }
      } else {
        var rest := text[1..];
        if Contains(rest, m) { ContainsAfter(text, m, 1); }
        PassRemoves(rest, n, m);
        forall i | 0 <= i <= |result| ensures !StartsWith(result[i..], m) {
          if i == 0 {
            assert result[0..] == result;
            NotAtStart(text, n, m);
          } else {
            assert result[i..] == Replace(rest, n, Broken(n))[i - 1..];
          }
        }
      }
    }
  }

  lemma NotAcrossBlock(n: string, after: string, m: string, i: nat)
    requires |n| >= 2 && |m| >= 2 && Plain(m) && m[0] != n[|n| - 1]
    requires !Contains(after, m) && i <= |Broken(n) + after|
    ensures !StartsWith((Broken(n) + after)[i..], m)
  {
    BrokenAlternates(n);
    var all := Broken(n) + after;
    StartsAt(all[i..], m);
    if i >= |Broken(n)| {
      assert all[i..] == after[i - |Broken(n)|..];
    } else if i + 1 < |Broken(n)| {
      BrokenNeighbours(n, i);
      assert all[i..][0] == all[i] && all[i..][1] == all[i + 1];
    } else {
      assert Broken(n)[2 * (|n| - 1)] == n[|n| - 1] && all[i..][0] == all[i];
    }
  }

  lemma NotAtStart(text: string, n: string, m: string)
    requires |n| >= 2 && m != [] && Plain(m) && m[|m| - 1] != n[0]
    requires !StartsWith(text, n) && (m == n || !Contains(text, m))
    ensures !StartsWith(Replace(text, n, Broken(n)), m)
  {
    assert text[0..] == text;
    if StartsWith(Replace(text, n, Broken(n)), m) {
      StartIsOriginal(text, n, m);
    }
  }

  // ---------------------------------------------------------------------------
  // The neutralized text
  // ---------------------------------------------------------------------------

  /** Markers that a pass can remove for good: plain, and no end of one is a start of the other. */
  predicate Markers(begin: string, end: string) {
    && Plain(begin) && Plain(end) && |begin| >= 2 && |end| >= 2
    && begin[0] != begin[|begin| - 1] && end[0] != end[|end| - 1]
    && begin[0] != end[|end| - 1] && end[0] != begin[|begin| - 1]
  }

  lemma FenceMarkers()
    ensures Markers(BEGIN, END)
  {
  }

  lemma BreakUpIsComplete(text: string, begin: string, end: string)
    requires Markers(begin, end)
    ensures !Contains(BreakUp(text, begin, end), begin) && !Contains(BreakUp(text, begin, end), end)
  {
    var once := Replace(text, begin, Broken(begin));
    PassRemoves(text, begin, begin);
    PassRemoves(once, end, begin);
    PassRemoves(once, end, end);
  }

  /** No content string keeps either fence marker. */
  lemma NeutralizeIsComplete(text: string)
    ensures !Contains(Neutralize(text), BEGIN) && !Contains(Neutralize(text), END)
  {
    hide Contains, BreakUp, Markers;
    FenceMarkers();
    BreakUpIsComplete(text, BEGIN, END);
  }

  lemma {:induction false} NothingToReplace(text: string, n: string, b: string)
    requires n != [] && !Contains(text, n)
    ensures Replace(text, n, b) == text
    decreases |text|
  {
    if text != [] {
      assert text[0..] == text && !StartsWith(text, n);
      if Contains(text[1..], n) { ContainsAfter(text, n, 1); }
      NothingToReplace(text[1..], n, b);
    }
  }

  lemma BreakUpOnlyMarkers(text: string, begin: string, end: string)
    requires Markers(begin, end)
    ensures BreakUp(text, begin, end) == text <==> !Contains(text, begin) && !Contains(text, end)
    ensures BreakUp(BreakUp(text, begin, end), begin, end) == BreakUp(text, begin, end)
  {
    BreakUpIsComplete(text, begin, end);
    if !Contains(text, begin) && !Contains(text, end) {
      NothingToReplace(text, begin, Broken(begin));
      NothingToReplace(text, end, Broken(end));
    }
    NothingToReplace(BreakUp(text, begin, end), begin, Broken(begin));
    NothingToReplace(BreakUp(text, begin, end), end, Broken(end));
  }

  /** Text is changed exactly when there is something to neutralize, and once is enough. */
  lemma NeutralizeOnlyMarkers(text: string)
    ensures Neutralize(text) == text <==> !Contains(text, BEGIN) && !Contains(text, END)
    ensures Neutralize(Neutralize(text)) == Neutralize(text)
  {
    hide Contains, BreakUp, Markers;
    FenceMarkers();
    BreakUpOnlyMarkers(text, BEGIN, END);
  }

  /** The text a reader sees: zero-width spaces do not show. */
  function Visible(text: string): string {
    if text == [] then [] else (if text[0] == ZWSP then [] else [text[0]]) + Visible(text[1..])
  }

  lemma {:induction false} VisibleConcat(a: string, b: string)
    ensures Visible(a + b) == Visible(a) + Visible(b)
  {
    if a == [] {
      assert a + b == b;
    } else {
      var head := if a[0] == ZWSP then [] else [a[0]];
      VisibleConcat(a[1..], b);
      assert (a + b)[0] == a[0] && (a + b)[1..] == a[1..] + b;
      assert Visible(a + b) == head + Visible(a[1..] + b);
    }
  }

  lemma {:induction false} PlainIsVisible(s: string)
    requires Plain(s)
    ensures Visible(s) == s && Visible(Broken(s)) == s
    decreases |s|
  {
    if s != [] {
      assert Plain(s[1..]);
      PlainIsVisible(s[1..]);
      if |s| > 1 {
        assert Broken(s)[1..][1..] == Broken(s[1..]);
        assert s == [s[0]] + s[1..];
      }
    }
  }

  lemma {:induction false} PassKeepsVisible(text: string, n: string)
    requires n != [] && Plain(n)
    ensures Visible(Replace(text, n, Broken(n))) == Visible(text)
    decreases |text|
  {
    if text != [] {
      if StartsWith(text, n) {
        PassKeepsVisible(text[|n|..], n);
        PlainIsVisible(n);
        VisibleConcat(Broken(n), Replace(text[|n|..], n, Broken(n)));
        VisibleConcat(n, text[|n|..]);
        assert text == n + text[|n|..];
      } else {
        PassKeepsVisible(text[1..], n);
        VisibleConcat([text[0]], Replace(text[1..], n, Broken(n)));
        VisibleConcat([text[0]], text[1..]);
        assert text == [text[0]] + text[1..];
      }
    }
  }

  lemma BreakUpKeepsText(text: string, begin: string, end: string)
    requires Markers(begin, end)
    ensures Visible(BreakUp(text, begin, end)) == Visible(text)
    ensures Plain(text) ==> Visible(BreakUp(text, begin, end)) == text
  {
    PassKeepsVisible(text, begin);
    PassKeepsVisible(Replace(text, begin, Broken(begin)), end);
    if Plain(text) { PlainIsVisible(text); }
  }

  /** Nothing is lost: the visible text is the same, and plain text comes back by dropping the
      zero-width spaces. */
  lemma NeutralizeKeepsText(text: string)
    ensures Visible(Neutralize(text)) == Visible(text)
    ensures Plain(text) ==> Visible(Neutralize(text)) == text
  {
    hide Visible, BreakUp, Markers;
    FenceMarkers();
    BreakUpKeepsText(text, BEGIN, END);
  }

  // ---------------------------------------------------------------------------
  // The rendered body
  // ---------------------------------------------------------------------------

  /** `_render_memory_item`: of the fields only the content is neutralized. */
  function Rendered(item: Item): string {
    "- [" + item.kind + "] (by " + item.writtenBy + ") " + Neutralize(item.content)
      + " Citation: memory_items:" + item.writtenBy + "."
  }

  /** `"\n".join(...)` */
  function Lines(items: seq<Item>): string
    requires items != []
  {
    if |items| == 1 then Rendered(items[0]) else Rendered(items[0]) + "\n" + Lines(items[1..])
  }

  /** What `frame_untrusted_memory` puts between its two fences. */
  function Body(items: seq<Item>): string {
    if items == [] then "(no memory items)" else Lines(items)
  }

  predicate MarkerChar(c: char) {
    c == '<' || c == '>' || c == '_' || 'A' <= c <= 'Z'
  }

  predicate MarkerLike(m: string) {
    |m| >= 30 && forall i | 0 <= i < |m| :: MarkerChar(m[i])
  }

  /** No marker can reach across such a text, or lie in it. */
  predicate Separates(between: string) {
    0 < |between| < 30 && !MarkerChar(between[0]) && !MarkerChar(between[|between| - 1])
  }

  lemma ContainsBefore(a: string, b: string, m: string)
    ensures Contains(a, m) || Contains(b, m) ==> Contains(a + b, m)
  {
    if Contains(b, m) {
      assert (a + b)[|a|..] == b;
      ContainsAfter(a + b, m, |a|);
    } else if Contains(a, m) {
      var i :| 0 <= i <= |a| && StartsWith(a[i..], m);
      assert (a + b)[i..][..|m|] == a[i..][..|m|];
    }
  }

  lemma ContainsAcross(a: string, between: string, b: string, m: string)
    requires Separates(between) && MarkerLike(m)
    ensures Contains(a + between + b, m) <==> Contains(a, m) || Contains(b, m)
  {
    var all := a + between + b;
    ContainsBefore(a, between, m);
    ContainsBefore(a + between, b, m);
    if Contains(all, m) {
      var i :| 0 <= i <= |all| && StartsWith(all[i..], m);
      assert forall j | i <= j < i + |m| :: all[j] == all[i..][..|m|][j - i] == m[j - i];
      assert all[|a|] == between[0] && all[|a| + |between| - 1] == between[|between| - 1];
      if i + |m| <= |a| {
        assert all[i..][..|m|] == a[i..][..|m|];
      } else if i >= |a| + |between| {
        assert all[i..] == b[i - |a| - |between|..];
      }
    }
  }

  lemma ContainsShort(s: string, m: string)
    requires |s| < |m|
    ensures !Contains(s, m)
  {
  }

  lemma FencesAreMarkerLike()
    ensures MarkerLike(BEGIN) && MarkerLike(END)
  {
  }

  lemma FenceSeparators()
    ensures Separates("- [") && Separates("] (by ") && Separates(") ")
    ensures Separates(" Citation: memory_items:") && Separates(".") && Separates("\n")
  {
  }

  lemma RenderedHoldsMarkerExactly(item: Item, m: string)
    requires m == BEGIN || m == END
    ensures Contains(Rendered(item), m) <==> Contains(item.kind, m) || Contains(item.writtenBy, m)
  {
    hide Contains, Separates, Neutralize;
    FencesAreMarkerLike();
    FenceSeparators();
    NeutralizeIsComplete(item.content);
    var kind := "- [" + item.kind;
    var author := kind + "] (by " + item.writtenBy;
    var content := author + ") " + Neutralize(item.content);
    var cited := content + " Citation: memory_items:" + item.writtenBy;
    ContainsShort("", m);
    assert "" + "- [" + item.kind == kind;
    ContainsAcross("", "- [", item.kind, m);
    ContainsAcross(kind, "] (by ", item.writtenBy, m);
    ContainsAcross(author, ") ", Neutralize(item.content), m);
    ContainsAcross(content, " Citation: memory_items:", item.writtenBy, m);
    assert cited + "." + "" == cited + ".";
    ContainsAcross(cited, ".", "", m);
    assert Rendered(item) == cited + ".";
  }

  /** The body holds a marker verbatim exactly if some item's type or author brings it in. */
  lemma {:induction false} BodyHoldsMarkerExactly(items: seq<Item>, m: string)
    requires m == BEGIN || m == END
    ensures Contains(Body(items), m) <==>
      exists i :: 0 <= i < |items| && (Contains(items[i].kind, m) || Contains(items[i].writtenBy, m))
    decreases |items|
  {
    hide Contains, Separates, Rendered;
    FencesAreMarkerLike();
    FenceSeparators();
    if items == [] {
      ContainsShort("(no memory items)", m);
    } else {
      RenderedHoldsMarkerExactly(items[0], m);
      BodyHoldsMarkerExactly(items[1..], m);
      if |items| > 1 {
        ContainsAcross(Rendered(items[0]), "\n", Lines(items[1..]), m);
        assert forall i | 0 <= i < |items[1..]| :: items[1..][i] == items[i + 1];
        assert forall i | 0 < i < |items| :: items[i] == items[1..][i - 1];
      }
    }
  }

  /** What a reader sees of an item: its type, its author, all of its content and the citation. */
  lemma RenderedShowsAll(item: Item)
    ensures Visible(Rendered(item)) ==
      "- [" + Visible(item.kind) + "] (by " + Visible(item.writtenBy) + ") " + Visible(item.content)
        + " Citation: memory_items:" + Visible(item.writtenBy) + "."
  {
    hide Visible, Neutralize;
    var kind := "- [" + item.kind;
    var author := kind + "] (by " + item.writtenBy;
    var content := author + ") " + Neutralize(item.content);
    var cited := content + " Citation: memory_items:" + item.writtenBy;
    NeutralizeKeepsText(item.content);
    PlainTexts();
    VisibleConcat("- [", item.kind);
    VisibleConcat(kind, "] (by ");
    VisibleConcat(kind + "] (by ", item.writtenBy);
    VisibleConcat(author, ") ");
    VisibleConcat(author + ") ", Neutralize(item.content));
    VisibleConcat(content, " Citation: memory_items:");
    VisibleConcat(content + " Citation: memory_items:", item.writtenBy);
    VisibleConcat(cited, ".");
    assert Rendered(item) == cited + ".";
  }

  lemma PlainTexts()
    ensures Visible("- [") == "- [" && Visible("] (by ") == "] (by " && Visible(") ") == ") "
    ensures Visible(" Citation: memory_items:") == " Citation: memory_items:" && Visible(".") == "."
  {
    hide Visible;
    ShortTexts();
    LongText();
    PlainIsVisible("- [");
    PlainIsVisible("] (by ");
    PlainIsVisible(") ");
    PlainIsVisible(" Citation: memory_items:");
    PlainIsVisible(".");
  }

  lemma ShortTexts()
    ensures Plain("- [") && Plain("] (by ") && Plain(") ") && Plain(".")
  {
  }

  lemma LongText()
    ensures Plain(" Citation: memory_items:")
  {
  }

  /** The text stands in the body on lines of its own. */
  ghost predicate OnItsLines(body: string, text: string) {
    exists before, after :: body == before + text + after && EndsLine(before) && StartsLine(after)
  }

  predicate EndsLine(before: string) {
    before == [] || before[|before| - 1] == '\n'
  }

  predicate StartsLine(after: string) {
    after == [] || after[0] == '\n'
  }

  lemma AfterFirstLine(first: string, rest: string, text: string)
    requires OnItsLines(rest, text)
    ensures OnItsLines(first + "\n" + rest, text)
  {
    var before, after :| rest == before + text + after && EndsLine(before) && StartsLine(after);
    var longer := first + "\n" + before;
    assert first + "\n" + rest == longer + text + after;
    assert EndsLine(longer) && StartsLine(after);
  }

  /** Every item is in the body. */
  lemma {:induction false} BodyShowsAll(items: seq<Item>, k: nat)
    requires k < |items|
    ensures OnItsLines(Body(items), Rendered(items[k]))
    decreases |items|
  {
    hide Rendered;
    if k > 0 {
      BodyShowsAll(items[1..], k - 1);
      AfterFirstLine(Rendered(items[0]), Lines(items[1..]), Rendered(items[k]));
    } else {
      var after := if |items| == 1 then "" else "\n" + Lines(items[1..]);
      assert Body(items) == "" + Rendered(items[0]) + after;
      assert EndsLine("") && StartsLine(after);
    }
  }
}
