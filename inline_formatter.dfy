// The inline formatter of Controls/Standard/Formatting: a string of XML
// micro-markup enclosed in a top-level "format" element becomes a tree of
// spans and runs, each element passing through a transformer that picks its
// span kind; anything that fails shows the source text verbatim.

module InlineFormatting {
  import opened Options

  // ---------------------------------------------------------------------------
  // The XML tree and the inline tree
  // ---------------------------------------------------------------------------

  /**
   * A node of the parsed tree. `XText` is a text node (CDATA sections are
   * text nodes too); an `XElement` has a local name and its child nodes in
   * document order; `XOther` stands for comments and processing instructions.
   */
  datatype XNode = XText(value: string) | XElement(localName: string, nodes: seq<XNode>) | XOther

  type Element = n: XNode | n.XElement? witness XElement("", [])

  /** The span classes a transformer may produce; `Plain` is a bare `Span`. */
  datatype SpanKind = Plain | Bold | Italic | Underline | Custom(name: string)

  /** What a transformer does with an element: produce a span, return null, or throw. */
  datatype Transformed = Produced(kind: SpanKind) | NoSpan | Threw

  type Transformer = Element -> Transformed

  /** `XElement.Parse`: the root element, or `None` when the string is not well-formed XML. */
  type Parser = string -> Option<Element>

  datatype Inline = Run(text: string) | Span(kind: SpanKind, inlines: seq<Inline>)

  /** Name of the top-level tag that formatted strings must be enclosed in. */
  const FormatTagName := "format"

  // ---------------------------------------------------------------------------
  // Names
  // ---------------------------------------------------------------------------

  function LowerChar(c: char): char {
    if 'A' <= c <= 'Z' then (c as int + 32) as char else c
  }

  /** `ToLowerInvariant` on the ASCII letters. */
  function AsciiLower(s: string): (r: string)
    ensures |r| == |s| && forall i :: 0 <= i < |s| ==> r[i] == LowerChar(s[i])
  {
    seq(|s|, i requires 0 <= i < |s| => LowerChar(s[i]))
  }

  /** `DefaultTransform`: bold, italic and underline elements, compared case-insensitively; null for any other. */
  function DefaultTransform(el: Element): (r: Transformed)
    ensures r != Threw
    ensures r.Produced? ==> r.kind in {Bold, Italic, Underline}
  {
    var name := AsciiLower(el.localName);
    if name == "bold" then Produced(Bold)
    else if name == "italic" then Produced(Italic)
    else if name == "underline" then Produced(Underline)
    else NoSpan
  }

  /** The default transformer recognises exactly the three names, in any letter case, and never throws. */
  lemma DefaultTransformRecognises(el: Element)
    ensures DefaultTransform(el) == Produced(Bold) <==> AsciiLower(el.localName) == "bold"
    ensures DefaultTransform(el) == Produced(Italic) <==> AsciiLower(el.localName) == "italic"
    ensures DefaultTransform(el) == Produced(Underline) <==> AsciiLower(el.localName) == "underline"
    ensures DefaultTransform(el) == NoSpan <==> AsciiLower(el.localName) !in {"bold", "italic", "underline"}
    ensures DefaultTransform(el) != Threw
  {
  }

  /** Letter case does not matter to the default transformer. */
  lemma DefaultTransformIgnoresCase()
    ensures DefaultTransform(XElement("BOLD", [])) == Produced(Bold)
    ensures DefaultTransform(XElement("Italic", [])) == Produced(Italic)
    ensures DefaultTransform(XElement("UnderLine", [])) == Produced(Underline)
    ensures DefaultTransform(XElement("Format", [])) == NoSpan
  {
    assert AsciiLower("BOLD") == "bold";
    assert AsciiLower("Italic") == "italic";
    assert AsciiLower("UnderLine") == "underline";
    assert AsciiLower("Format") == "format";
  }

  // ---------------------------------------------------------------------------
  // The tree transform
  // ---------------------------------------------------------------------------

  /** The span class used for an element: the transformer's span, or a bare `Span` for null. */
  function KindOf(t: Transformed): SpanKind
    requires !t.Threw?
  {
    if t.Produced? then t.kind else Plain
  }

  /**
   * The span `ParseRecursor` builds for `e`, or `None` when the transformer
   * throws on `e` or on any element below it.
   */
  function Transform(e: Element, transformer: Transformer): (r: Option<Inline>)
    ensures transformer(e).Threw? ==> r.None?
    ensures r.Some? ==> r.value.Span? && r.value.kind == KindOf(transformer(e))
    decreases e
  {
    var produced := transformer(e);
    if produced.Threw? then None
    else
      match TransformNodes(e.nodes, transformer)
      case None => None
      case Some(children) => Some(Span(KindOf(produced), children))
  }

  /** The inlines for `nodes`: one run per text node and one span per element, other nodes dropped. */
  function TransformNodes(nodes: seq<XNode>, transformer: Transformer): (r: Option<seq<Inline>>)
    ensures r.Some? ==> |r.value| <= |nodes|
    decreases nodes
  {
    if nodes == [] then Some([])
    else
      match TransformNodes(nodes[..|nodes| - 1], transformer)
      case None => None
      case Some(front) =>
        match nodes[|nodes| - 1]
        case XText(value) => Some(front + [Run(value)])
        case XOther => Some(front)
        case XElement(_, _) =>
          match Transform(nodes[|nodes| - 1], transformer)
          case None => None
          case Some(span) => Some(front + [span])
  }

  /** Once a prefix of the children throws, the whole element throws. */
  lemma {:induction false} ThrowPersists(nodes: seq<XNode>, k: nat, transformer: Transformer)
    requires k <= |nodes| && TransformNodes(nodes[..k], transformer).None?
    ensures TransformNodes(nodes, transformer).None?
    decreases |nodes| - k
  {
    if k < |nodes| {
      assert nodes[..k + 1][..k] == nodes[..k];
      ThrowPersists(nodes, k + 1, transformer);
    } else {
      assert nodes[..k] == nodes;
    }
  }

  /** `ParseInlineText`: the transformed tree when the markup parses with a "format" root, otherwise the source as a run. */
  function Formatted(source: string, parse: Parser, transformer: Transformer): (r: Inline)
    ensures r.Run? ==> r == Run(source)
  {
    var parsed := parse(source);
    if parsed.Some? && AsciiLower(parsed.value.localName) == FormatTagName && Transform(parsed.value, transformer).Some?
    then Transform(parsed.value, transformer).value
    else Run(source)
  }

  // ---------------------------------------------------------------------------
  // What the transform keeps
  // ---------------------------------------------------------------------------

  /** The concatenated text-node content of an element, in document order. */
  function TextContent(e: Element): string
    decreases e
  {
    TextContents(e.nodes)
  }

  function TextContents(nodes: seq<XNode>): string
    decreases nodes
  {
    if nodes == [] then ""
    else
      TextContents(nodes[..|nodes| - 1]) +
        match nodes[|nodes| - 1]
        case XText(value) => value
        case XOther => ""
        case XElement(_, _) => TextContent(nodes[|nodes| - 1])
  }

  /** How many elements the tree holds, the root included. */
  function ElementCount(e: Element): nat
    decreases e
  {
    1 + ElementCounts(e.nodes)
  }

  function ElementCounts(nodes: seq<XNode>): nat
    decreases nodes
  {
    if nodes == [] then 0
    else
      ElementCounts(nodes[..|nodes| - 1]) +
        match nodes[|nodes| - 1]
        case XElement(_, _) => ElementCount(nodes[|nodes| - 1])
        case _ => 0
  }

  /** The concatenated text of the runs, in order. */
  function RunText(i: Inline): string
    decreases i
  {
    match i
    case Run(text) => text
    case Span(_, inlines) => RunTexts(inlines)
  }

  function RunTexts(inlines: seq<Inline>): string
    decreases inlines
  {
    if inlines == [] then "" else RunTexts(inlines[..|inlines| - 1]) + RunText(inlines[|inlines| - 1])
  }

  /** How many spans the tree holds. */
  function SpanCount(i: Inline): nat
    decreases i
  {
    match i
    case Run(_) => 0
    case Span(_, inlines) => 1 + SpanCounts(inlines)
  }

  function SpanCounts(inlines: seq<Inline>): nat
    decreases inlines
  {
    if inlines == [] then 0 else SpanCounts(inlines[..|inlines| - 1]) + SpanCount(inlines[|inlines| - 1])
  }

  lemma RunTextsSnoc(front: seq<Inline>, last: Inline)
    ensures RunTexts(front + [last]) == RunTexts(front) + RunText(last)
    ensures SpanCounts(front + [last]) == SpanCounts(front) + SpanCount(last)
  {
    assert (front + [last])[..|front|] == front;
  }

  /**
   * The transform keeps every text node as a run with identical text in
   * document order, and turns every element into exactly one span.
   */
  lemma {:induction false} TransformKeepsContent(e: Element, transformer: Transformer)
    requires Transform(e, transformer).Some?
    ensures RunText(Transform(e, transformer).value) == TextContent(e)
    ensures SpanCount(Transform(e, transformer).value) == ElementCount(e)
    decreases e
  {
    TransformNodesKeepContent(e.nodes, transformer);
  }

  lemma {:induction false} TransformNodesKeepContent(nodes: seq<XNode>, transformer: Transformer)
    requires TransformNodes(nodes, transformer).Some?
    ensures RunTexts(TransformNodes(nodes, transformer).value) == TextContents(nodes)
    ensures SpanCounts(TransformNodes(nodes, transformer).value) == ElementCounts(nodes)
    decreases nodes
  {
    if nodes != [] {
      var front := nodes[..|nodes| - 1];
      TransformNodesKeepContent(front, transformer);
      var inlines := TransformNodes(front, transformer).value;
      var last := nodes[|nodes| - 1];
      if last.XText? {
        assert TransformNodes(nodes, transformer).value == inlines + [Run(last.value)];
        RunTextsSnoc(inlines, Run(last.value));
      } else if last.XElement? {
        TransformKeepsContent(last, transformer);
        var span := Transform(last, transformer).value;
        assert TransformNodes(nodes, transformer).value == inlines + [span];
        RunTextsSnoc(inlines, span);
      }
    }
  }

  /** A transformer that never throws never makes the transform fail. */
  lemma {:induction false} TransformTotal(e: Element, transformer: Transformer)
    requires forall el :: transformer(el) != Threw
    ensures Transform(e, transformer).Some?
    decreases e
  {
    TransformNodesTotal(e.nodes, transformer);
  }

  lemma {:induction false} TransformNodesTotal(nodes: seq<XNode>, transformer: Transformer)
    requires forall el :: transformer(el) != Threw
    ensures TransformNodes(nodes, transformer).Some?
    decreases nodes
  {
    if nodes != [] {
      TransformNodesTotal(nodes[..|nodes| - 1], transformer);
      if nodes[|nodes| - 1].XElement? {
        TransformTotal(nodes[|nodes| - 1], transformer);
      }
    }
  }

  /**
   * The formatted inline is either the verbatim fallback run, exactly when
   * the markup does not parse, its root is not "format" or the transformer
   * throws, or else a span made by the transformer for the root itself; in
   * both cases the text shown is the source or the markup's text content.
   */
  lemma FormattedCases(source: string, parse: Parser, transformer: Transformer)
    ensures var r := Formatted(source, parse, transformer);
      var parsed := parse(source);
      && (r.Span? <==>
            parsed.Some? && AsciiLower(parsed.value.localName) == FormatTagName && Transform(parsed.value, transformer).Some?)
      && (r.Run? ==> r == Run(source))
      && (r.Span? ==> r.kind == KindOf(transformer(parsed.value)) && RunText(r) == TextContent(parsed.value))
  {
    var parsed := parse(source);
    if parsed.Some? && Transform(parsed.value, transformer).Some? {
      TransformKeepsContent(parsed.value, transformer);
    }
  }

  /** With the default transformer, well-formed markup with a "format" root never falls back. */
  lemma DefaultNeverFallsBackOnFormatRoot(source: string, parse: Parser)
    requires parse(source).Some? && AsciiLower(parse(source).value.localName) == FormatTagName
    ensures var r := Formatted(source, parse, DefaultTransform);
      r.Span? && r.kind == Plain && RunText(r) == TextContent(parse(source).value)
  {
    forall el ensures DefaultTransform(el) != Threw {
      DefaultTransformRecognises(el);
    }
    TransformTotal(parse(source).value, DefaultTransform);
    TransformKeepsContent(parse(source).value, DefaultTransform);
  }

  /** A small document through the default transformer. */
  lemma FormatsSmallDocument(source: string, parse: Parser)
    requires parse(source).Some? && parse(source).value == XElement("format", [XText("a "), XElement("Bold", [XText("b")]), XOther])
    ensures Formatted(source, parse, DefaultTransform) == Span(Plain, [Run("a "), Span(Bold, [Run("b")])])
  {
    var bold: Element := XElement("Bold", [XText("b")]);
    var nodes := [XText("a "), bold, XOther];
    assert AsciiLower("format") == "format";
    assert AsciiLower("Bold") == "bold";
    assert DefaultTransform(bold) == Produced(Bold);
    assert bold.nodes[..0] == [] && bold.nodes[0] == XText("b");
    assert [] + [Run("b")] == [Run("b")];
    assert TransformNodes(bold.nodes, DefaultTransform) == Some([Run("b")]);
    assert Transform(bold, DefaultTransform) == Some(Span(Bold, [Run("b")]));
    assert nodes[..1] == [XText("a ")] && nodes[..1][..0] == [];
    assert [] + [Run("a ")] == [Run("a ")];
    assert [Run("a ")] + [Span(Bold, [Run("b")])] == [Run("a "), Span(Bold, [Run("b")])];
    assert TransformNodes(nodes[..1], DefaultTransform) == Some([Run("a ")]);
    assert nodes[..2] == [XText("a "), bold] && nodes[..2][..1] == nodes[..1];
    assert TransformNodes(nodes[..2], DefaultTransform) == Some([Run("a "), Span(Bold, [Run("b")])]);
    assert nodes[..3] == nodes;
  }

  // ---------------------------------------------------------------------------
  // The methods
  // ---------------------------------------------------------------------------

  /** `ParseRecursor`: the span for `element`, or `None` when the transformer throws somewhere below it. */
  method ParseRecursor(element: Element, transformer: Transformer) returns (span: Option<Inline>)
    ensures span == Transform(element, transformer)
    decreases element
  {
    var produced := transformer(element);
    if produced.Threw? {
      return None;
    }
    var inlines: seq<Inline> := [];
    var nodes := element.nodes;
    for k := 0 to |nodes|
      invariant TransformNodes(nodes[..k], transformer) == Some(inlines)
    {
      assert nodes[..k + 1][..k] == nodes[..k];
      match nodes[k]
      case XText(value) =>
        inlines := inlines + [Run(value)];
      case XOther =>
      case XElement(_, _) =>
        var childSpan := ParseRecursor(nodes[k], transformer);
        if childSpan.None? {
          ThrowPersists(nodes, k + 1, transformer);
          return None;
        }
        inlines := inlines + [childSpan.value];
    }
    assert nodes[..|nodes|] == nodes;
    return Some(Span(KindOf(produced), inlines));
  }

  /** `ParseInlineText`: a parse or transformer failure is caught and shows the source verbatim. */
  method ParseInlineText(source: string, parse: Parser, transformer: Transformer) returns (inline: Inline)
    ensures inline == Formatted(source, parse, transformer)
  {
    var parsed := parse(source);
    if parsed.Some? && AsciiLower(parsed.value.localName) == FormatTagName {
      var span := ParseRecursor(parsed.value, transformer);
      if span.Some? {
        return span.value;
      }
    }
    return Run(source);
  }

  /**
   * An object carrying the two attached properties; `isTextBlock` says
   * whether it is a `TextBlock`, whose `Inlines` the callback replaces.
   */
  class FormattedTarget {
    const isTextBlock: bool
    var text: Option<string>
    var transformer: Option<Transformer>
    var inlines: seq<Inline>

    /** A fresh object: no text, the default transformer, no inlines. */
    constructor (isTextBlock: bool)
      ensures this.isTextBlock == isTextBlock
      ensures text == None && transformer == Some(DefaultTransform) && inlines == []
    {
      this.isTextBlock := isTextBlock;
      text := None;
      transformer := Some(DefaultTransform);
      inlines := [];
    }

    /**
     * `TryParseCallback`: only a `TextBlock` with both a text and a
     * transformer is formatted, and its inlines become exactly the one
     * formatted inline.
     */
    method TryParseCallback(parse: Parser)
      modifies this
      ensures text == old(text) && transformer == old(transformer)
      ensures inlines ==
        if text.Some? && transformer.Some? && isTextBlock then [Formatted(text.value, parse, transformer.value)]
        else old(inlines)
    {
      if text.Some? && transformer.Some? && isTextBlock {
        inlines := [];
        var formatted := ParseInlineText(text.value, parse, transformer.value);
        inlines := inlines + [formatted];
      }
    }
  }
}
