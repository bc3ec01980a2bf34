/**
 * The Graphviz DOT writer for dependency graphs (fgDepGraph2Dot in
 * FgDepGraphUtils.cpp).
 *
 * The writer appends pieces of text, each ending in a newline, to a string
 * stream. `DotText` says what text comes out, built the way the loops build
 * it; the methods below are the writer itself, with the same loops, the same
 * skip of stub links and the same appends, proved to produce exactly that
 * text. `DotLines` is a second description of the output, as the list of the
 * pieces the writer appends, proved to run together into the same text; the
 * properties about pieces and their order are stated on it. A piece is one
 * line of the text when the graph label and the node names hold no line break.
 */
module DepGraphDot {

  import opened Seqs

  /** A link of the graph: the nodes it reads and the nodes it writes. */
  datatype Link = Link(sources: seq<nat>, sinks: seq<nat>)

  /**
   * The parts of the link graph that the writer looks at: each node's display
   * name and label (node accessors outside this model), and the links.
   */
  datatype LinkGraph = LinkGraph(nodeName: nat -> string, nodeLabel: nat -> string, links: seq<Link>)

  // ---------------------------------------------------------------------------
  // Decimal text of a link index

  function DigitChar(d: nat): (c: char)
    requires d < 10
    ensures '0' <= c <= '9' && c as int - '0' as int == d
  {
    (d + '0' as int) as char
  }

  /** The decimal digits of n, as a stream prints an unsigned integer. */
  function NatToString(n: nat): (s: string)
    ensures |s| >= 1
    ensures forall i :: 0 <= i < |s| ==> '0' <= s[i] <= '9'
    decreases n
  {
    if n < 10 then [DigitChar(n)] else NatToString(n / 10) + [DigitChar(n % 10)]
  }

  /** The number a string of decimal digits denotes. */
  function DigitsValue(s: string): nat
    requires forall i :: 0 <= i < |s| ==> '0' <= s[i] <= '9'
  {
    if s == [] then 0
    else DigitsValue(s[..|s| - 1]) * 10 + (s[|s| - 1] as int - '0' as int)
  }

  /** The digits read back as the index they were printed from. */
  lemma {:induction false} NatToStringValue(n: nat)
    ensures DigitsValue(NatToString(n)) == n
    decreases n
  {
    var s := NatToString(n);
    if n >= 10 {
      NatToStringValue(n / 10);
      assert s[..|s| - 1] == NatToString(n / 10);
    }
  }

  /** Different links get different names `L<ii>`. */
  lemma NatToStringInjective(m: nat, n: nat)
    requires NatToString(m) == NatToString(n)
    ensures m == n
  {
    NatToStringValue(m);
    NatToStringValue(n);
  }

  // ---------------------------------------------------------------------------
  // The lines of the output

  /** The opening pieces, with the graph label. */
  function HeaderLines(graphLabel: string): seq<string>
  {
    ["digraph DepGraph\n", "{\n", "  graph [label=\"" + graphLabel + "\"];\n", "  {\n", "    node [shape=box]\n"]
  }

  const FooterLines: seq<string> := ["  }\n", "}\n"]

  /** The header text, piece by piece. */
  function HeaderText(graphLabel: string): string
  {
    "digraph DepGraph\n" + "{\n" + ("  graph [label=\"" + graphLabel + "\"];\n") + "  {\n" + "    node [shape=box]\n"
  }

  /** One parameter node, drawn as a double octagon. */
  function ParamLine(g: LinkGraph, idx: nat): string
  {
    "    \"" + g.nodeName(idx) + "\" [shape=doubleoctagon]\n"
  }

  function ParamLines(g: LinkGraph, paramInds: seq<nat>): (r: seq<string>)
    ensures |r| == |paramInds|
  {
    if paramInds == [] then []
    else ParamLines(g, paramInds[..|paramInds| - 1]) + [ParamLine(g, paramInds[|paramInds| - 1])]
  }

  /** The oval node that stands for link ii. */
  function LinkNodeLine(ii: nat): string
  {
    "    L" + NatToString(ii) + " [shape=oval];\n"
  }

  /** An edge from a source node into link ii. */
  function SourceLine(g: LinkGraph, ii: nat, src: nat): string
  {
    "    \"" + g.nodeName(src) + "\" -> L" + NatToString(ii) + ";\n"
  }

  /** An edge from link ii out to a sink node. */
  function SinkLine(g: LinkGraph, ii: nat, snk: nat): string
  {
    "    L" + NatToString(ii) + " -> \"" + g.nodeName(snk) + "\";\n"
  }

  function SourceLines(g: LinkGraph, ii: nat, sources: seq<nat>): (r: seq<string>)
    ensures |r| == |sources|
  {
    if sources == [] then []
    else SourceLines(g, ii, sources[..|sources| - 1]) + [SourceLine(g, ii, sources[|sources| - 1])]
  }

  function SinkLines(g: LinkGraph, ii: nat, sinks: seq<nat>): (r: seq<string>)
    ensures |r| == |sinks|
  {
    if sinks == [] then []
    else SinkLines(g, ii, sinks[..|sinks| - 1]) + [SinkLine(g, ii, sinks[|sinks| - 1])]
  }

  /** The text of the parameter nodes, in paramInds order. */
  function ParamText(g: LinkGraph, paramInds: seq<nat>): string
  {
    if paramInds == [] then ""
    else ParamText(g, paramInds[..|paramInds| - 1]) + ParamLine(g, paramInds[|paramInds| - 1])
  }

  function SourceText(g: LinkGraph, ii: nat, sources: seq<nat>): string
  {
    if sources == [] then ""
    else SourceText(g, ii, sources[..|sources| - 1]) + SourceLine(g, ii, sources[|sources| - 1])
  }

  function SinkText(g: LinkGraph, ii: nat, sinks: seq<nat>): string
  {
    if sinks == [] then ""
    else SinkText(g, ii, sinks[..|sinks| - 1]) + SinkLine(g, ii, sinks[|sinks| - 1])
  }

  /** Entry k of the parameter pieces is the piece of paramInds[k]. */
  lemma {:induction false} ParamLinesAt(g: LinkGraph, paramInds: seq<nat>, k: nat)
    requires k < |paramInds|
    ensures ParamLines(g, paramInds)[k] == ParamLine(g, paramInds[k])
    decreases |paramInds|
  {
    var front := paramInds[..|paramInds| - 1];
    if k < |front| {
      ParamLinesAt(g, front, k);
    }
  }

  /** Entry j of a link's source edges is the edge from sources[j]. */
  lemma {:induction false} SourceLinesAt(g: LinkGraph, ii: nat, sources: seq<nat>, j: nat)
    requires j < |sources|
    ensures SourceLines(g, ii, sources)[j] == SourceLine(g, ii, sources[j])
    decreases |sources|
  {
    var front := sources[..|sources| - 1];
    if j < |front| {
      SourceLinesAt(g, ii, front, j);
    }
  }

  /** Entry j of a link's sink edges is the edge to sinks[j]. */
  lemma {:induction false} SinkLinesAt(g: LinkGraph, ii: nat, sinks: seq<nat>, j: nat)
    requires j < |sinks|
    ensures SinkLines(g, ii, sinks)[j] == SinkLine(g, ii, sinks[j])
    decreases |sinks|
  {
    var front := sinks[..|sinks| - 1];
    if j < |front| {
      SinkLinesAt(g, ii, front, j);
    }
  }

  /** A stub link, which the GUI uses: exactly one sink, and that sink is labelled "stub". */
  predicate IsStub(g: LinkGraph, link: Link)
  {
    |link.sinks| == 1 && g.nodeLabel(link.sinks[0]) == "stub"
  }

  /** What link ii contributes: nothing for a stub, else its node and its edges. */
  function LinkLines(g: LinkGraph, ii: nat): seq<string>
    requires ii < |g.links|
  {
    var link := g.links[ii];
    if IsStub(g, link) then []
    else [LinkNodeLine(ii)] + SourceLines(g, ii, link.sources) + SinkLines(g, ii, link.sinks)
  }

  /** The text of link ii: nothing for a stub, else its node and its edges. */
  function LinkText(g: LinkGraph, ii: nat): string
    requires ii < |g.links|
  {
    var link := g.links[ii];
    if IsStub(g, link) then ""
    else LinkNodeLine(ii) + SourceText(g, ii, link.sources) + SinkText(g, ii, link.sinks)
  }

  /** The texts of links 0 .. n-1, one entry per link, in index order. */
  function LinkTexts(g: LinkGraph, n: nat): (r: seq<string>)
    requires n <= |g.links|
    ensures |r| == n
  {
    if n == 0 then [] else LinkTexts(g, n - 1) + [LinkText(g, n - 1)]
  }

  /** The text of links 0 .. n-1, in index order. */
  function LinksText(g: LinkGraph, n: nat): string
    requires n <= |g.links|
  {
    Concat(LinkTexts(g, n))
  }

  const FooterText: string := "  }\n" + "}\n"

  /** The whole output of fgDepGraph2Dot. */
  function DotText(g: LinkGraph, graphLabel: string, paramInds: seq<nat>): string
  {
    HeaderText(graphLabel) + ParamText(g, paramInds) + LinksText(g, |g.links|) + FooterText
  }

  /** The pieces of links 0 .. n-1, one block per link, in index order. */
  function LinkBlocks(g: LinkGraph, n: nat): (r: seq<seq<string>>)
    requires n <= |g.links|
    ensures |r| == n
  {
    if n == 0 then [] else LinkBlocks(g, n - 1) + [LinkLines(g, n - 1)]
  }

  /** The contributions of links 0 .. n-1, in index order. */
  function AllLinkLines(g: LinkGraph, n: nat): seq<string>
    requires n <= |g.links|
  {
    Concat(LinkBlocks(g, n))
  }

  function DotLines(g: LinkGraph, graphLabel: string, paramInds: seq<nat>): seq<string>
  {
    HeaderLines(graphLabel) + ParamLines(g, paramInds) + AllLinkLines(g, |g.links|) + FooterLines
  }

  /**
   * The parts run together, in order: the text of a list of lines, or the
   * lines of a list of blocks.
   */
  function Concat<T>(parts: seq<seq<T>>): seq<T>
  {
    if |parts| == 0 then [] else Concat(parts[..|parts| - 1]) + parts[|parts| - 1]
  }

  lemma ConcatSnoc<T>(a: seq<seq<T>>, x: seq<T>)
    ensures Concat(a + [x]) == Concat(a) + x
  {
    assert (a + [x])[..|a + [x]| - 1] == a;
  }

  lemma ConcatSingle<T>(x: seq<T>)
    ensures Concat([x]) == x
  {
    assert [x][..0] == [];
  }

  lemma {:induction false} ConcatAppend<T>(a: seq<seq<T>>, b: seq<seq<T>>)
    ensures Concat(a + b) == Concat(a) + Concat(b)
    decreases |b|
  {
    if |b| == 0 {
      assert a + b == a;
    } else {
      var b' := b[..|b| - 1];
      var x := b[|b| - 1];
      assert b == b' + [x];
      assert a + b == (a + b') + [x];
      ConcatSnoc(a + b', x);
      ConcatAppend(a, b');
      ConcatSnoc(b', x);
    }
  }

  /** Running blocks together, then pieces together, gives the texts of the blocks run together. */
  lemma {:induction false} ConcatConcat<T>(blocks: seq<seq<seq<T>>>, texts: seq<seq<T>>)
    requires |blocks| == |texts|
    requires forall i :: 0 <= i < |blocks| ==> Concat(blocks[i]) == texts[i]
    ensures Concat(Concat(blocks)) == Concat(texts)
    decreases |blocks|
  {
    if |blocks| > 0 {
      var n := |blocks|;
      ConcatConcat(blocks[..n - 1], texts[..n - 1]);
      ConcatAppend(Concat(blocks[..n - 1]), blocks[n - 1]);
    }
  }

  /** The header pieces, run together, are the header text. */
  lemma HeaderConcat(graphLabel: string)
    ensures Concat(HeaderLines(graphLabel)) == HeaderText(graphLabel)
  {
    var h := HeaderLines(graphLabel);
    assert h[..1] == [h[0]] && h[..2] == h[..1] + [h[1]] && h[..3] == h[..2] + [h[2]];
    assert h[..4] == h[..3] + [h[3]] && h == h[..4] + [h[4]];
    ConcatSingle(h[0]);
    ConcatSnoc(h[..1], h[1]);
    ConcatSnoc(h[..2], h[2]);
    ConcatSnoc(h[..3], h[3]);
    ConcatSnoc(h[..4], h[4]);
  }

  /** The footer pieces, run together, close the two braces. */
  lemma FooterConcat()
    ensures Concat(FooterLines) == FooterText
  {
    var f := FooterLines;
    assert f == [f[0]] + [f[1]];
    ConcatSingle(f[0]);
    ConcatSnoc([f[0]], f[1]);
  }

  // ---------------------------------------------------------------------------
  // The writer

  /** The body of the link loop for a link that is not a stub: its node, then its edges. */
  method WriteLink(g: LinkGraph, ii: nat, dot0: string) returns (dot: string)
    requires ii < |g.links| && !IsStub(g, g.links[ii])
    ensures dot == dot0 + LinkText(g, ii)
  {
    var sources := g.links[ii].sources;
    var sinks := g.links[ii].sinks;
    var nodeLine := LinkNodeLine(ii);
    dot := dot0 + nodeLine;
    for jj := 0 to |sources|
      invariant dot == dot0 + nodeLine + SourceText(g, ii, sources[..jj])
    {
      var line := SourceLine(g, ii, sources[jj]);
      assert sources[..jj + 1][..jj] == sources[..jj];
      Assoc(dot0 + nodeLine, SourceText(g, ii, sources[..jj]), line);
      dot := dot + line;
    }
    assert sources[..|sources|] == sources;
    ghost var withSources := dot;
    for jj := 0 to |sinks|
      invariant dot == withSources + SinkText(g, ii, sinks[..jj])
    {
      var line := SinkLine(g, ii, sinks[jj]);
      assert sinks[..jj + 1][..jj] == sinks[..jj];
      Assoc(withSources, SinkText(g, ii, sinks[..jj]), line);
      dot := dot + line;
    }
    assert sinks[..|sinks|] == sinks;
    Assoc(dot0, nodeLine, SourceText(g, ii, sources));
    Assoc(dot0, nodeLine + SourceText(g, ii, sources), SinkText(g, ii, sinks));
  }

  /** The loop over paramInds: one double-octagon node per parameter, in order. */
  method WriteParams(g: LinkGraph, paramInds: seq<nat>, dot0: string) returns (dot: string)
    ensures dot == dot0 + ParamText(g, paramInds)
  {
    dot := dot0;
    for ii := 0 to |paramInds|
      invariant dot == dot0 + ParamText(g, paramInds[..ii])
    {
      var line := ParamLine(g, paramInds[ii]);
      assert paramInds[..ii + 1][..ii] == paramInds[..ii];
      Assoc(dot0, ParamText(g, paramInds[..ii]), line);
      dot := dot + line;
    }
    assert paramInds[..|paramInds|] == paramInds;
  }

  /** The loop over links, in index order, skipping stubs. */
  method WriteLinks(g: LinkGraph, dot0: string) returns (dot: string)
    ensures dot == dot0 + LinksText(g, |g.links|)
  {
    dot := dot0;
    for ii := 0 to |g.links|
      invariant dot == dot0 + LinksText(g, ii)
    {
      var sinks := g.links[ii].sinks;
      // Stubs, which the GUI uses, are skipped.
      if |sinks| == 1 && g.nodeLabel(sinks[0]) == "stub" {
        LinksTextStep(g, ii);
        assert LinkText(g, ii) == "";
        assert LinksText(g, ii) + "" == LinksText(g, ii);
        continue;
      }
      dot := WriteLink(g, ii, dot);
      LinksTextStep(g, ii);
      Assoc(dot0, LinksText(g, ii), LinkText(g, ii));
    }
  }

  lemma LinksTextStep(g: LinkGraph, ii: nat)
    requires ii < |g.links|
    ensures LinksText(g, ii + 1) == LinksText(g, ii) + LinkText(g, ii)
  {
    ConcatSnoc(LinkTexts(g, ii), LinkText(g, ii));
  }

  /** fgDepGraph2Dot: the header, the parameter nodes, the links and the footer. */
  method DepGraph2Dot(g: LinkGraph, graphLabel: string, paramInds: seq<nat>) returns (dot: string)
    ensures dot == DotText(g, graphLabel, paramInds)
  {
    dot := "digraph DepGraph\n" + "{\n";
    dot := dot + ("  graph [label=\"" + graphLabel + "\"];\n") + "  {\n" + "    node [shape=box]\n";
    dot := WriteParams(g, paramInds, dot);
    dot := WriteLinks(g, dot);
    dot := dot + "  }\n";
    dot := dot + "}\n";
    Assoc(HeaderText(graphLabel) + ParamText(g, paramInds) + LinksText(g, |g.links|), "  }\n", "}\n");
  }

  // ---------------------------------------------------------------------------
  // The output as a list of pieces

  /** The parameter pieces run together into the parameter text. */
  lemma {:induction false} ParamLinesText(g: LinkGraph, paramInds: seq<nat>)
    ensures Concat(ParamLines(g, paramInds)) == ParamText(g, paramInds)
    decreases |paramInds|
  {
    if paramInds != [] {
      var front := paramInds[..|paramInds| - 1];
      ParamLinesText(g, front);
      ConcatSnoc(ParamLines(g, front), ParamLine(g, paramInds[|paramInds| - 1]));
    }
  }

  lemma {:induction false} SourceLinesText(g: LinkGraph, ii: nat, sources: seq<nat>)
    ensures Concat(SourceLines(g, ii, sources)) == SourceText(g, ii, sources)
    decreases |sources|
  {
    if sources != [] {
      var front := sources[..|sources| - 1];
      SourceLinesText(g, ii, front);
      ConcatSnoc(SourceLines(g, ii, front), SourceLine(g, ii, sources[|sources| - 1]));
    }
  }

  lemma {:induction false} SinkLinesText(g: LinkGraph, ii: nat, sinks: seq<nat>)
    ensures Concat(SinkLines(g, ii, sinks)) == SinkText(g, ii, sinks)
    decreases |sinks|
  {
    if sinks != [] {
      var front := sinks[..|sinks| - 1];
      SinkLinesText(g, ii, front);
      ConcatSnoc(SinkLines(g, ii, front), SinkLine(g, ii, sinks[|sinks| - 1]));
    }
  }

  lemma LinkLinesText(g: LinkGraph, ii: nat)
    requires ii < |g.links|
    ensures Concat(LinkLines(g, ii)) == LinkText(g, ii)
  {
    var link := g.links[ii];
    if !IsStub(g, link) {
      var node := [LinkNodeLine(ii)];
      var srcs := SourceLines(g, ii, link.sources);
      var snks := SinkLines(g, ii, link.sinks);
      assert LinkLines(g, ii) == node + srcs + snks;
      ConcatSingle(LinkNodeLine(ii));
      ConcatAppend(node, srcs);
      ConcatAppend(node + srcs, snks);
      SourceLinesText(g, ii, link.sources);
      SinkLinesText(g, ii, link.sinks);
    }
  }

  /** Entry ii of the link blocks is the pieces of link ii. */
  lemma {:induction false} LinkBlocksAt(g: LinkGraph, n: nat, ii: nat)
    requires ii < n <= |g.links|
    ensures LinkBlocks(g, n)[ii] == LinkLines(g, ii)
    decreases n
  {
    if ii < n - 1 {
      LinkBlocksAt(g, n - 1, ii);
    }
  }

  /** Entry ii of the link texts is the text of link ii. */
  lemma {:induction false} LinkTextsAt(g: LinkGraph, n: nat, ii: nat)
    requires ii < n <= |g.links|
    ensures LinkTexts(g, n)[ii] == LinkText(g, ii)
    decreases n
  {
    if ii < n - 1 {
      LinkTextsAt(g, n - 1, ii);
    }
  }

  lemma AllLinkLinesText(g: LinkGraph, n: nat)
    requires n <= |g.links|
    ensures Concat(AllLinkLines(g, n)) == LinksText(g, n)
  {
    var blocks, texts := LinkBlocks(g, n), LinkTexts(g, n);
    forall ii | 0 <= ii < n
      ensures Concat(blocks[ii]) == texts[ii]
    {
      LinkBlocksAt(g, n, ii);
      LinkTextsAt(g, n, ii);
      LinkLinesText(g, ii);
    }
    ConcatConcat(blocks, texts);
  }

  /** The pieces of the output, run together, are exactly the text the writer produces. */
  lemma DotLinesText(g: LinkGraph, graphLabel: string, paramInds: seq<nat>)
    ensures Concat(DotLines(g, graphLabel, paramInds)) == DotText(g, graphLabel, paramInds)
  {
    var header := HeaderLines(graphLabel);
    var params := ParamLines(g, paramInds);
    var links := AllLinkLines(g, |g.links|);
    HeaderConcat(graphLabel);
    ParamLinesText(g, paramInds);
    AllLinkLinesText(g, |g.links|);
    FooterConcat();
    ConcatAppend(header, params);
    ConcatAppend(header + params, links);
    ConcatAppend(header + params + links, FooterLines);
  }

  // ---------------------------------------------------------------------------
  // Properties of the output

  /** The output opens with the graph header and closes the two braces it opened. */
  lemma Framing(g: LinkGraph, graphLabel: string, paramInds: seq<nat>)
    ensures var dot := DotText(g, graphLabel, paramInds);
      var head := HeaderText(graphLabel);
      |dot| >= |head| + |FooterText|
      && dot[..|head|] == head
      && dot[|dot| - |FooterText|..] == FooterText
  {
    var head := HeaderText(graphLabel);
    var body := ParamText(g, paramInds) + LinksText(g, |g.links|);
    Assoc(head, ParamText(g, paramInds), LinksText(g, |g.links|));
    var dot := head + body + FooterText;
    assert dot[..|head|] == head;
    assert dot[|dot| - |FooterText|..] == FooterText;
  }

  /** Entry 5 + k of the output's pieces is the parameter node paramInds[k]. */
  lemma ParamLinesInOrder(g: LinkGraph, graphLabel: string, paramInds: seq<nat>, k: nat)
    requires k < |paramInds|
    ensures DotLines(g, graphLabel, paramInds)[5 + k] == ParamLine(g, paramInds[k])
  {
    ParamLinesAt(g, paramInds, k);
  }

  /**
   * A link is left out of the output exactly when it is a stub; a stub among
   * several sinks does not count.
   */
  lemma StubSkippedIff(g: LinkGraph, ii: nat)
    requires ii < |g.links|
    ensures LinkText(g, ii) == "" <==> |g.links[ii].sinks| == 1 && g.nodeLabel(g.links[ii].sinks[0]) == "stub"
    ensures LinkLines(g, ii) == [] <==> LinkText(g, ii) == ""
  {
    var link := g.links[ii];
    if !IsStub(g, link) {
      Assoc(LinkNodeLine(ii), SourceText(g, ii, link.sources), SinkText(g, ii, link.sinks));
      assert |LinkText(g, ii)| >= |LinkNodeLine(ii)| > 0;
    }
  }

  /** A link that is kept: its node, then an edge per source and per sink, in list order. */
  lemma KeptLinkLines(g: LinkGraph, ii: nat)
    requires ii < |g.links| && !IsStub(g, g.links[ii])
    ensures var link := g.links[ii];
      var lines := LinkLines(g, ii);
      && |lines| == 1 + |link.sources| + |link.sinks|
      && lines[0] == LinkNodeLine(ii)
      && (forall j :: 0 <= j < |link.sources| ==> lines[1 + j] == SourceLine(g, ii, link.sources[j]))
      && (forall j :: 0 <= j < |link.sinks| ==> lines[1 + |link.sources| + j] == SinkLine(g, ii, link.sinks[j]))
  {
    var link := g.links[ii];
    forall j | 0 <= j < |link.sources|
      ensures LinkLines(g, ii)[1 + j] == SourceLine(g, ii, link.sources[j])
    {
      SourceLinesAt(g, ii, link.sources, j);
    }
    forall j | 0 <= j < |link.sinks|
      ensures LinkLines(g, ii)[1 + |link.sources| + j] == SinkLine(g, ii, link.sinks[j])
    {
      SinkLinesAt(g, ii, link.sinks, j);
    }
  }

  /** Where link ii's pieces start among the link pieces: after those of the links before it. */
  function LinkOffset(g: LinkGraph, ii: nat): nat
    requires ii <= |g.links|
  {
    |AllLinkLines(g, ii)|
  }

  /** Link n-1 adds its pieces after those of the links before it. */
  lemma AllLinkLinesSnoc(g: LinkGraph, n: nat)
    requires 0 < n <= |g.links|
    ensures AllLinkLines(g, n) == AllLinkLines(g, n - 1) + LinkLines(g, n - 1)
  {
    ConcatSnoc(LinkBlocks(g, n - 1), LinkLines(g, n - 1));
  }

  /** The pieces of the first m links open those of the first n links. */
  lemma {:induction false} AllLinkLinesPrefix(g: LinkGraph, m: nat, n: nat)
    requires m <= n <= |g.links|
    ensures AllLinkLines(g, m) <= AllLinkLines(g, n)
    decreases n
  {
    if m < n {
      AllLinkLinesPrefix(g, m, n - 1);
      AllLinkLinesSnoc(g, n);
    }
  }

  lemma {:induction false} LinkLinesAtOffsetAmong(g: LinkGraph, n: nat, ii: nat, k: nat)
    requires ii < n <= |g.links| && k < |LinkLines(g, ii)|
    ensures LinkOffset(g, ii) + k < |AllLinkLines(g, n)|
    ensures AllLinkLines(g, n)[LinkOffset(g, ii) + k] == LinkLines(g, ii)[k]
    decreases n
  {
    var front, last := AllLinkLines(g, n - 1), LinkLines(g, n - 1);
    AllLinkLinesSnoc(g, n);
    if ii < n - 1 {
      LinkLinesAtOffsetAmong(g, n - 1, ii, k);
      IndexInFront(front, last, LinkOffset(g, ii) + k);
    } else {
      IndexInBack(front, last, k);
    }
  }

  /** The pieces of link ii sit, in order, at its offset among the link pieces. */
  lemma LinkLinesAtOffset(g: LinkGraph, ii: nat, k: nat)
    requires ii < |g.links|
    requires k < |LinkLines(g, ii)|
    ensures LinkOffset(g, ii) + k < |AllLinkLines(g, |g.links|)|
    ensures AllLinkLines(g, |g.links|)[LinkOffset(g, ii) + k] == LinkLines(g, ii)[k]
  {
    LinkLinesAtOffsetAmong(g, |g.links|, ii, k);
  }

  /** Links are written in increasing index order: everything of link i precedes link j. */
  lemma LinksInIndexOrder(g: LinkGraph, i: nat, j: nat)
    requires i < j <= |g.links|
    ensures LinkOffset(g, i) + |LinkLines(g, i)| <= LinkOffset(g, j)
  {
    AllLinkLinesSnoc(g, i + 1);
    AllLinkLinesPrefix(g, i + 1, j);
  }

  /** The number of pieces link ii contributes. */
  function LinkLineCount(g: LinkGraph, ii: nat): nat
    requires ii < |g.links|
  {
    var link := g.links[ii];
    if IsStub(g, link) then 0 else 1 + |link.sources| + |link.sinks|
  }

  lemma LinkLinesLength(g: LinkGraph, ii: nat)
    requires ii < |g.links|
    ensures |LinkLines(g, ii)| == LinkLineCount(g, ii)
  {
  }

  /** The number of pieces the kept links contribute. */
  function KeptLineCount(g: LinkGraph, n: nat): nat
    requires n <= |g.links|
  {
    if n == 0 then 0 else KeptLineCount(g, n - 1) + LinkLineCount(g, n - 1)
  }

  /** The output's pieces: the header, one per parameter, the kept links' pieces and the footer. */
  lemma {:induction false} LineCount(g: LinkGraph, graphLabel: string, paramInds: seq<nat>)
    ensures |DotLines(g, graphLabel, paramInds)| == 5 + |paramInds| + KeptLineCount(g, |g.links|) + 2
  {
    AllLinkLinesCount(g, |g.links|);
  }

  lemma {:induction false} AllLinkLinesCount(g: LinkGraph, n: nat)
    requires n <= |g.links|
    ensures |AllLinkLines(g, n)| == KeptLineCount(g, n)
    decreases n
  {
    if n > 0 {
      AllLinkLinesCount(g, n - 1);
      LinkLinesLength(g, n - 1);
      ConcatSnoc(LinkBlocks(g, n - 1), LinkLines(g, n - 1));
    }
  }

  // ---------------------------------------------------------------------------
  // Entries of DotLines as lines of the text

  /** Text with no line break in it. */
  predicate SingleLine(s: string)
  {
    '\n' !in s
  }

  /** One line of text: it ends in a newline and holds no other. */
  predicate IsLine(s: string)
  {
    |s| > 0 && s[|s| - 1] == '\n' && SingleLine(s[..|s| - 1])
  }

  /** Every entry of a list is one line of text. */
  predicate AllLines(lines: seq<string>)
  {
    forall k :: 0 <= k < |lines| ==> IsLine(lines[k])
  }

  /** Every node name fits on one line. The writer copies names into the output as they are. */
  ghost predicate NamesSingleLine(g: LinkGraph)
  {
    forall n: nat :: SingleLine(g.nodeName(n))
  }

  /** Text before a line keeps it one line exactly when that text has no line break. */
  lemma LineAfter(a: string, b: string)
    requires IsLine(b)
    ensures IsLine(a + b) <==> SingleLine(a)
  {
    assert (a + b)[..|a + b| - 1] == a + b[..|b| - 1];
  }

  lemma DigitsSingleLine(n: nat)
    ensures SingleLine(NatToString(n))
  {
    var s := NatToString(n);
    assert forall i :: 0 <= i < |s| ==> s[i] != '\n';
  }

  /** The label piece of the header is one line exactly when the graph label is. */
  lemma LabelLineIff(graphLabel: string)
    ensures IsLine(HeaderLines(graphLabel)[2]) <==> SingleLine(graphLabel)
  {
    LineAfter("  graph [label=\"" + graphLabel, "\"];\n");
  }

  /** A parameter node is one line exactly when the parameter's name is. */
  lemma ParamLineIff(g: LinkGraph, idx: nat)
    ensures IsLine(ParamLine(g, idx)) <==> SingleLine(g.nodeName(idx))
  {
    LineAfter("    \"" + g.nodeName(idx), "\" [shape=doubleoctagon]\n");
  }

  /** The oval node of a link is always one line. */
  lemma LinkNodeLineIsLine(ii: nat)
    ensures IsLine(LinkNodeLine(ii))
  {
    DigitsSingleLine(ii);
    LineAfter("    L" + NatToString(ii), " [shape=oval];\n");
  }

  /** An edge into link ii is one line exactly when its source's name is. */
  lemma SourceLineIff(g: LinkGraph, ii: nat, src: nat)
    ensures IsLine(SourceLine(g, ii, src)) <==> SingleLine(g.nodeName(src))
  {
    DigitsSingleLine(ii);
    LineAfter("    \"" + g.nodeName(src) + "\" -> L" + NatToString(ii), ";\n");
  }

  /** An edge out of link ii is one line exactly when its sink's name is. */
  lemma SinkLineIff(g: LinkGraph, ii: nat, snk: nat)
    ensures IsLine(SinkLine(g, ii, snk)) <==> SingleLine(g.nodeName(snk))
  {
    DigitsSingleLine(ii);
    LineAfter("    L" + NatToString(ii) + " -> \"" + g.nodeName(snk), "\";\n");
  }

  lemma AllLinesAppend(a: seq<string>, b: seq<string>)
    requires AllLines(a) && AllLines(b)
    ensures AllLines(a + b)
  {
    forall k | 0 <= k < |a + b|
      ensures IsLine((a + b)[k])
    {
      if k >= |a| {
        assert (a + b)[k] == b[k - |a|];
      }
    }
  }

  lemma {:induction false} ParamLinesAreLines(g: LinkGraph, paramInds: seq<nat>)
    requires NamesSingleLine(g)
    ensures AllLines(ParamLines(g, paramInds))
    decreases |paramInds|
  {
    if paramInds != [] {
      var last := paramInds[|paramInds| - 1];
      ParamLinesAreLines(g, paramInds[..|paramInds| - 1]);
      ParamLineIff(g, last);
      AllLinesAppend(ParamLines(g, paramInds[..|paramInds| - 1]), [ParamLine(g, last)]);
    }
  }

  lemma {:induction false} SourceLinesAreLines(g: LinkGraph, ii: nat, sources: seq<nat>)
    requires NamesSingleLine(g)
    ensures AllLines(SourceLines(g, ii, sources))
    decreases |sources|
  {
    if sources != [] {
      var last := sources[|sources| - 1];
      SourceLinesAreLines(g, ii, sources[..|sources| - 1]);
      SourceLineIff(g, ii, last);
      AllLinesAppend(SourceLines(g, ii, sources[..|sources| - 1]), [SourceLine(g, ii, last)]);
    }
  }

  lemma {:induction false} SinkLinesAreLines(g: LinkGraph, ii: nat, sinks: seq<nat>)
    requires NamesSingleLine(g)
    ensures AllLines(SinkLines(g, ii, sinks))
    decreases |sinks|
  {
    if sinks != [] {
      var last := sinks[|sinks| - 1];
      SinkLinesAreLines(g, ii, sinks[..|sinks| - 1]);
      SinkLineIff(g, ii, last);
      AllLinesAppend(SinkLines(g, ii, sinks[..|sinks| - 1]), [SinkLine(g, ii, last)]);
    }
  }

  lemma {:induction false} AllLinkLinesAreLines(g: LinkGraph, n: nat)
    requires n <= |g.links| && NamesSingleLine(g)
    ensures AllLines(AllLinkLines(g, n))
    decreases n
  {
    if n > 0 {
      var link := g.links[n - 1];
      AllLinkLinesAreLines(g, n - 1);
      if !IsStub(g, link) {
        LinkNodeLineIsLine(n - 1);
        SourceLinesAreLines(g, n - 1, link.sources);
        SinkLinesAreLines(g, n - 1, link.sinks);
        AllLinesAppend([LinkNodeLine(n - 1)], SourceLines(g, n - 1, link.sources));
        AllLinesAppend([LinkNodeLine(n - 1)] + SourceLines(g, n - 1, link.sources), SinkLines(g, n - 1, link.sinks));
      }
      ConcatSnoc(LinkBlocks(g, n - 1), LinkLines(g, n - 1));
      AllLinesAppend(AllLinkLines(g, n - 1), LinkLines(g, n - 1));
    }
  }

  /**
   * With a graph label and node names free of line breaks, every entry of
   * DotLines is one line of the text: it ends in a newline and holds no other.
   */
  lemma DotLinesAreTextLines(g: LinkGraph, graphLabel: string, paramInds: seq<nat>)
    requires SingleLine(graphLabel) && NamesSingleLine(g)
    ensures AllLines(DotLines(g, graphLabel, paramInds))
  {
    var header := HeaderLines(graphLabel);
    LabelLineIff(graphLabel);
    assert AllLines(header);
    assert AllLines(FooterLines);
    ParamLinesAreLines(g, paramInds);
    AllLinkLinesAreLines(g, |g.links|);
    AllLinesAppend(header, ParamLines(g, paramInds));
    AllLinesAppend(header + ParamLines(g, paramInds), AllLinkLines(g, |g.links|));
    AllLinesAppend(header + ParamLines(g, paramInds) + AllLinkLines(g, |g.links|), FooterLines);
  }

  /** The number of newlines in a text. */
  function NewlineCount(s: string): nat
  {
    multiset(s)['\n']
  }

  lemma LineHasOneNewline(s: string)
    requires IsLine(s)
    ensures NewlineCount(s) == 1
  {
    assert s == s[..|s| - 1] + [s[|s| - 1]];
  }

  /** Lines run together hold one newline per line. */
  lemma {:induction false} NewlinesOfLines(lines: seq<string>)
    requires AllLines(lines)
    ensures NewlineCount(Concat(lines)) == |lines|
    decreases |lines|
  {
    if lines != [] {
      var front := lines[..|lines| - 1];
      assert AllLines(front) by {
        forall k | 0 <= k < |front| ensures IsLine(front[k]) {
          assert front[k] == lines[k];
        }
      }
      NewlinesOfLines(front);
      LineHasOneNewline(lines[|lines| - 1]);
    }
  }

  /**
   * With a graph label and node names free of line breaks, the text has
   * exactly as many lines as DotLines has entries.
   */
  lemma TextLineCount(g: LinkGraph, graphLabel: string, paramInds: seq<nat>)
    requires SingleLine(graphLabel) && NamesSingleLine(g)
    ensures NewlineCount(DotText(g, graphLabel, paramInds)) == |DotLines(g, graphLabel, paramInds)|
  {
    DotLinesAreTextLines(g, graphLabel, paramInds);
    NewlinesOfLines(DotLines(g, graphLabel, paramInds));
    DotLinesText(g, graphLabel, paramInds);
  }
}
