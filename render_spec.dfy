/** What the JavaScript renderer (version 3) does, as functions on values.

    goldmark walks the syntax tree and calls the handler registered for a
    node's kind twice: on entering and on leaving. A handler writes script
    statements, bumps the renderer's element counter and records the name
    it gave a node in the node's `el` attribute; here that attribute is the
    map `el` from node paths to names. Each handler below is a function from
    the state before the call to its walk status and the state after. The
    class in `Renderer` performs the same steps imperatively and is proved
    equal to these functions. */
module RenderSpec {
  import opened Wrappers
  import opened Bytes
  import opened Ast
  import opened Script
  import opened Attrs
  import opened UrlGuard

  /** The renderer options the handlers read. `keepSoftBreak` is the East
      Asian line-break rule, applied to the text of a node and of its next
      sibling (the rule only looks at their last and first characters). */
  datatype Config = Config(
    unsafe: bool,
    hardWraps: bool,
    eastAsian: bool,
    keepSoftBreak: (string, string) -> bool)

  /** Why a walk stopped: the three lookups the handlers guard, and a
      runtime panic (a failed type assertion or a nil parent). */
  datatype RenderError = NoParent | MissingSelf | MissingParent | Panic

  datatype Status = Continue | SkipChildren | Stop(err: RenderError)

  /** The element counter, the `el` attribute of every node that has one,
      and the statements written so far. */
  datatype RState = RState(count: int, el: map<NodeId, Name>, out: seq<Stmt>)

  datatype Outcome = Outcome(status: Status, state: RState)

  const Mailto: seq<byte> := Ascii("mailto:")

  function Emit(s: RState, stmts: seq<Stmt>): RState
  {
    s.(out := s.out + stmts)
  }

  /** A new element name: the counter goes up and the node is bound to it. */
  function Open(s: RState, id: NodeId): RState
  {
    RState(s.count + 1, s.el[id := El(s.count + 1)], s.out)
  }

  /** The lines of a block, each behind `marker`, as one string. */
  function Joined(ls: seq<string>, marker: string): string
    decreases |ls|
  {
    if ls == [] then "" else Joined(ls[..|ls| - 1], marker) + marker + ls[|ls| - 1]
  }

  /** The standard leaving step: look up the parent, the node's own name and
      the parent's name, in that order, and append the node to its parent. */
  function Attach(id: NodeId, s: RState): Outcome
  {
    if |id| == 0 then Outcome(Stop(NoParent), s)
    else if id !in s.el then Outcome(Stop(MissingSelf), s)
    else if Parent(id) !in s.el then Outcome(Stop(MissingParent), s)
    else Outcome(Continue, Emit(s, [Append(s.el[Parent(id)], s.el[id])]))
  }

  /** The leaving step of a fenced code block, which always writes the
      trace comment before the append. */
  function AttachTraced(id: NodeId, s: RState): Outcome
  {
    if |id| == 0 then Outcome(Stop(NoParent), s)
    else if id !in s.el then Outcome(Stop(MissingSelf), s)
    else if Parent(id) !in s.el then Outcome(Stop(MissingParent), s)
    else Outcome(Continue, Emit(s, [Trace(s.el[id], s.el[Parent(id)]), Append(s.el[Parent(id)], s.el[id])]))
  }

  /** The closing step of the handlers that attach an element while
      entering: `nm` is appended to the parent's element. */
  function AttachNow(id: NodeId, nm: Name, s: RState): Outcome
  {
    if |id| == 0 then Outcome(Stop(NoParent), s)
    else if Parent(id) !in s.el then Outcome(Stop(MissingParent), s)
    else Outcome(SkipChildren, Emit(s, [Append(s.el[Parent(id)], nm)]))
  }

  function RenderDocument(id: NodeId, entering: bool, s: RState): Outcome
  {
    var s1 := s.(el := s.el[id := MdDiv]);
    if entering then Outcome(Continue, RState(1, s1.el, s1.out + [Preamble]))
    else Outcome(Continue, Emit(s1, [Trailer]))
  }

  function HeadingTag(level: int): string
  {
    "h" + Decimal(level)
  }

  /** A styled element: created with `tag`, given the `style` entry of the
      style sheet, then its attributes that pass `f`. */
  function Styled(nm: Name, tag: string, style: string, n: Node, f: Filter): seq<Stmt>
  {
    [CreateElement(nm, tag)] + ([ApplyStyle(nm, style)] + ElAttrStmts(n.attrs, f, nm))
  }

  function RenderHeading(root: Node, id: NodeId, entering: bool, s: RState): Outcome
    requires ValidPath(root, id) && NodeAt(root, id).kind.Heading?
  {
    if !entering then Attach(id, s)
    else
      var n := NodeAt(root, id);
      var s1 := Open(s, id);
      var nm := El(s1.count);
      var tag := HeadingTag(n.kind.level);
      Outcome(Continue, Emit(s1, Styled(nm, tag, tag, n, HeadingFilter)))
  }

  function RenderBlockquote(root: Node, id: NodeId, entering: bool, s: RState): Outcome
    requires ValidPath(root, id)
  {
    if !entering then Attach(id, s)
    else
      var n := NodeAt(root, id);
      var s1 := Open(s, id);
      var nm := El(s1.count);
      Outcome(Continue, Emit(s1, Styled(nm, "blockquote", "block", n, BlockquoteFilter)))
  }

  /** The statements of a code block: `pre` and `code` elements, the text
      bound to `codeStr`, a text node made from it, and the two appends. */
  function CodeStmts(c: int, lang: Option<string>, text: string): seq<Stmt>
  {
    [CreateElement(El(c + 1), "pre"), CreateElement(El(c + 2), "code")]
    + (if lang.Some? then [SetProp(El(c + 2), "class", "language-" + lang.value)] else [])
    + [BindCode(text), CodeText(El(c + 3)), Append(El(c + 2), El(c + 3)), Append(El(c + 1), El(c + 2))]
  }

  function RenderCodeBlock(root: Node, id: NodeId, entering: bool, s: RState): Outcome
    requires ValidPath(root, id) && NodeAt(root, id).kind.CodeBlock?
  {
    if !entering then Attach(id, s)
    else
      var n := NodeAt(root, id);
      Outcome(Continue, RState(s.count + 3, s.el[id := El(s.count + 1)], s.out + CodeStmts(s.count, None, Joined(n.kind.lines, ""))))
  }

  function RenderFencedCodeBlock(root: Node, id: NodeId, entering: bool, s: RState): Outcome
    requires ValidPath(root, id) && NodeAt(root, id).kind.FencedCodeBlock?
  {
    if !entering then AttachTraced(id, s)
    else
      var n := NodeAt(root, id);
      Outcome(Continue, RState(s.count + 3, s.el[id := El(s.count + 1)], s.out + CodeStmts(s.count, n.kind.language, Joined(n.kind.lines, ">"))))
  }

  function ClosureText(c: Option<string>): string
  {
    if c.Some? then c.value else ""
  }

  /** An HTML block reuses the current counter value without bumping it,
      and is only attached to its parent when it has a closure line. */
  function RenderHTMLBlock(cfg: Config, root: Node, id: NodeId, entering: bool, s: RState): Outcome
    requires ValidPath(root, id) && NodeAt(root, id).kind.HTMLBlock?
  {
    var n := NodeAt(root, id);
    if !entering then
      (if n.kind.closure.Some? then Attach(id, s) else Outcome(Continue, s))
    else
      var nm := El(s.count);
      var body := if cfg.unsafe then [SetInnerHTML(nm, Joined(n.kind.lines, "") + ClosureText(n.kind.closure))] else [OmittedComment];
      Outcome(Continue, RState(s.count, s.el[id := nm], s.out + [CreateElement(nm, "div")] + body))
  }

  function ListTag(ordered: bool): string
  {
    if ordered then "ol" else "ul"
  }

  /** What a list writes about its element after declaring it: the start
      number of an ordered list not starting at 1, the attributes, the style. */
  function ListProps(n: Node, nm: Name): seq<Stmt>
    requires n.kind.List?
  {
    var tag := ListTag(n.kind.ordered);
    var start := if n.kind.ordered && n.kind.start != 1 then [SetProp(nm, "start", Decimal(n.kind.start))] else [];
    start + ElAttrStmts(n.attrs, ListFilter, nm) + [ApplyStyle(nm, tag)]
  }

  function ListStmts(n: Node, nm: Name): seq<Stmt>
    requires n.kind.List?
  {
    [CreateElement(nm, ListTag(n.kind.ordered))] + ListProps(n, nm)
  }

  function RenderList(root: Node, id: NodeId, entering: bool, s: RState): Outcome
    requires ValidPath(root, id) && NodeAt(root, id).kind.List?
  {
    if !entering then Attach(id, s)
    else
      var s1 := Open(s, id);
      Outcome(Continue, Emit(s1, ListStmts(NodeAt(root, id), El(s1.count))))
  }

  function RenderListItem(root: Node, id: NodeId, entering: bool, s: RState): Outcome
    requires ValidPath(root, id)
  {
    if !entering then Attach(id, s)
    else
      var n := NodeAt(root, id);
      var s1 := Open(s, id);
      var nm := El(s1.count);
      Outcome(Continue, Emit(s1, Styled(nm, "li", "li", n, ListItemFilter)))
  }

  function RenderThematicBreak(root: Node, id: NodeId, entering: bool, s: RState): Outcome
    requires ValidPath(root, id)
  {
    if !entering then Attach(id, s)
    else
      var n := NodeAt(root, id);
      var s1 := Open(s, id);
      var nm := El(s1.count);
      Outcome(Continue, Emit(s1, [CreateElement(nm, "hr")] + ElAttrStmts(n.attrs, ThematicFilter, nm)))
  }

  /** An e-mail autolink gets a "mailto:" prefix unless its URL already
      starts with one (ignoring case). */
  function RenderAutoLink(root: Node, id: NodeId, entering: bool, s: RState): Outcome
    requires ValidPath(root, id) && NodeAt(root, id).kind.AutoLink?
  {
    if !entering then Attach(id, s)
    else
      var n := NodeAt(root, id);
      var s1 := Open(s, id);
      var nm := El(s1.count);
      var mailto := n.kind.email && !HasPrefix(LowerAll(n.kind.url), Mailto);
      Outcome(Continue, Emit(s1, [CreateElement(nm, "a"), SetURL(nm, "href", n.kind.url, false, mailto)] + ElAttrStmts(n.attrs, LinkFilter, nm)))
  }

  predicate IsText(n: Node)
  {
    n.kind.Text?
  }

  predicate AllText(kids: seq<Node>)
  {
    forall i :: 0 <= i < |kids| ==> IsText(kids[i])
  }

  /** A code span's text: a trailing newline becomes a space. */
  function SpanText(v: string): string
  {
    if |v| > 0 && v[|v| - 1] == '\n' then v[..|v| - 1] + " " else v
  }

  /** The text nodes of a code span `el<c>`, numbered from `k`, up to the
      first child that is not a text (where the source panics). */
  function SpanStmts(kids: seq<Node>, c: int, k: int): seq<Stmt>
    decreases |kids|
  {
    if kids == [] || !IsText(kids[0]) then []
    else [CreateText(Span(c, k), SpanText(kids[0].kind.value)), Append(El(c), Span(c, k))] + SpanStmts(kids[1..], c, k + 1)
  }

  function RenderCodeSpan(root: Node, id: NodeId, entering: bool, s: RState): Outcome
    requires ValidPath(root, id)
  {
    if !entering then Outcome(SkipChildren, s)
    else
      var n := NodeAt(root, id);
      var s1 := Open(s, id);
      var nm := El(s1.count);
      var s2 := Emit(s1, [CreateElement(nm, "code")] + ElAttrStmts(n.attrs, CodeFilter, nm) + SpanStmts(n.children, s1.count, 1));
      if !AllText(n.children) then Outcome(Stop(Panic), s2)
      else AttachNow(id, nm, s2)
  }

  function EmphasisTag(level: int): string
  {
    if level == 2 then "strong" else "em"
  }

  /** The first child's text, when the first child is a text. */
  function FirstText(n: Node): Option<string>
  {
    if |n.children| > 0 && IsText(n.children[0]) then Some(n.children[0].kind.value) else None
  }

  function TextContent(nm: Name, t: Option<string>): seq<Stmt>
  {
    if t.Some? then [SetText(nm, t.value)] else []
  }

  function RenderEmphasis(root: Node, id: NodeId, entering: bool, s: RState): Outcome
    requires ValidPath(root, id) && NodeAt(root, id).kind.Emphasis?
  {
    if !entering then Attach(id, s)
    else
      var n := NodeAt(root, id);
      var s1 := Open(s, id);
      var nm := El(s1.count);
      Outcome(SkipChildren, Emit(s1, [CreateElement(nm, EmphasisTag(n.kind.level))] + ElAttrStmts(n.attrs, EmphasisFilter, nm) + TextContent(nm, FirstText(n))))
  }

  /** The destination is only written when unsafe output is allowed or the
      URL guard accepts it. */
  function GuardedURL(cfg: Config, nm: Name, prop: string, dest: seq<byte>): seq<Stmt>
  {
    if cfg.unsafe || !IsDangerousURL(dest) then [SetURL(nm, prop, dest, true, false)] else []
  }

  function Title(nm: Name, t: Option<string>): seq<Stmt>
  {
    if t.Some? then [SetProp(nm, "title", t.value)] else []
  }

  function RenderLink(cfg: Config, root: Node, id: NodeId, entering: bool, s: RState): Outcome
    requires ValidPath(root, id) && NodeAt(root, id).kind.Link?
  {
    if !entering then Outcome(SkipChildren, s)
    else
      var n := NodeAt(root, id);
      var s1 := Open(s, id);
      var nm := El(s1.count);
      AttachNow(id, nm, Emit(s1, [CreateElement(nm, "a")] + LinkProps(cfg, n, nm)))
  }

  /** What a link writes about its element after declaring it. */
  function LinkProps(cfg: Config, n: Node, nm: Name): seq<Stmt>
    requires n.kind.Link?
  {
    GuardedURL(cfg, nm, "href", n.kind.dest) + Title(nm, n.kind.title) + ElAttrStmts(n.attrs, LinkFilter, nm)
    + [ApplyStyle(nm, "a")] + TextContent(nm, FirstText(n))
  }

  function RenderRawHTML(cfg: Config, root: Node, id: NodeId, entering: bool, s: RState): Outcome
    requires ValidPath(root, id) && NodeAt(root, id).kind.RawHTML?
  {
    if !entering then
      var r := Attach(id, s);
      if r.status == Continue then Outcome(SkipChildren, r.state) else r
    else
      var n := NodeAt(root, id);
      var s1 := Open(s, id);
      var nm := El(s1.count);
      var body := if cfg.unsafe then [SetInnerHTML(nm, Joined(n.kind.segments, ""))] else [OmittedMarker];
      Outcome(SkipChildren, Emit(s1, [CreateElement(nm, "div")] + body))
  }

  /** The text a text node contributes: its value, with a newline after a
      hard break, after a soft break under hard wraps, and after a soft
      break unless the East Asian rule drops it. */
  function TextValue(cfg: Config, t: Kind, next: Option<Node>): string
    requires t.Text?
  {
    var v := t.value;
    if t.raw then v
    else if t.hardBreak || (t.softBreak && cfg.hardWraps) then v + "\n"
    else if t.softBreak then
      if cfg.eastAsian && |v| != 0 then
        if next.Some? && next.value.kind.Text? && |next.value.kind.value| != 0
           && cfg.keepSoftBreak(v, next.value.kind.value)
        then v + "\n" else v
      else v + "\n"
    else v
  }

  function RenderText(cfg: Config, root: Node, id: NodeId, entering: bool, s: RState): Outcome
    requires ValidPath(root, id) && NodeAt(root, id).kind.Text?
  {
    if !entering then Attach(id, s)
    else
      var s1 := Open(s, id);
      Outcome(Continue, Emit(s1, [CreateText(El(s1.count), TextValue(cfg, NodeAt(root, id).kind, NextSibling(root, id)))]))
  }

  function RenderString(root: Node, id: NodeId, entering: bool, s: RState): Outcome
    requires ValidPath(root, id) && NodeAt(root, id).kind.StringNode?
  {
    if !entering then Attach(id, s)
    else
      var s1 := Open(s, id);
      Outcome(Continue, Emit(s1, [CreateText(El(s1.count), NodeAt(root, id).kind.value)]))
  }

  /** An image's alt text: the text and string descendants of the node at
      `id`, from its `i`-th child on, rendered as on entering. */
  function RenderTexts(cfg: Config, root: Node, id: NodeId, i: nat, s: RState): RState
    requires ValidPath(root, id) && i <= |NodeAt(root, id).children|
    decreases NodeAt(root, id), |NodeAt(root, id).children| - i
  {
    var kids := NodeAt(root, id).children;
    if i == |kids| then s
    else
      ChildPath(root, id, i);
      var cid := id + [i];
      var s1 :=
        if kids[i].kind.StringNode? then RenderString(root, cid, true, s).state
        else if kids[i].kind.Text? then RenderText(cfg, root, cid, true, s).state
        else RenderTexts(cfg, root, cid, 0, s);
      RenderTexts(cfg, root, id, i + 1, s1)
  }

  function RenderImage(cfg: Config, root: Node, id: NodeId, entering: bool, s: RState): Outcome
    requires ValidPath(root, id) && NodeAt(root, id).kind.Image?
  {
    if !entering then Attach(id, s)
    else
      var n := NodeAt(root, id);
      var s1 := Open(s, id);
      var nm := El(s1.count);
      var alt := RenderTexts(cfg, root, id, 0, s1.(out := []));
      Outcome(SkipChildren, RState(alt.count, alt.el, s1.out + ([CreateElement(nm, "img")] + ImageProps(cfg, n, nm, alt.out))))
  }

  /** What an image writes about its element after declaring it: the
      guarded source, the alt text (the statements its text descendants
      would write, as a string), the title and the attributes. */
  function ImageProps(cfg: Config, n: Node, nm: Name, alt: seq<Stmt>): seq<Stmt>
    requires n.kind.Image?
  {
    GuardedURL(cfg, nm, "src", n.kind.dest) + [SetAlt(nm, alt)] + Title(nm, n.kind.title) + ElAttrStmts(n.attrs, ImageFilter, nm)
  }

  /** The inline aggregator's pending text: none, or the concatenation of
      the adjacent text children seen so far. */
  datatype Pending = Idle | Gathered(text: string)

  /** Write the pending text as a text node appended to `par`; the new name
      is recorded on `bind` when given. */
  function Flush(acc: Pending, par: Name, bind: Option<NodeId>, s: RState): RState
  {
    if acc.Idle? then s
    else
      var nm := El(s.count + 1);
      var el := if bind.Some? then s.el[bind.value := nm] else s.el;
      RState(s.count + 1, el, s.out + [CreateText(nm, acc.text), Append(par, nm)])
  }

  function Gather(acc: Pending, v: string): Pending
  {
    if acc.Gathered? then Gathered(acc.text + v) else Gathered(v)
  }

  /** One turn of the aggregator loop: the next pending text and state, or
      the outcome the loop ends with. */
  datatype Step = Next(acc: Pending, state: RState) | Done(outcome: Outcome)

  /** The aggregator's handling of the `i`-th child of the node at `id`.
      A text is added to the pending text; an emphasis becomes an element
      holding its first child's text; code spans, links, raw HTML and
      strings are rendered by their own handlers, whose status is ignored
      unless they panic; an image panics; other kinds are skipped. */
  function AggregateStep(cfg: Config, root: Node, id: NodeId, par: Name, i: nat, acc: Pending, s: RState): Step
    requires ValidPath(root, id) && i < |NodeAt(root, id).children|
  {
    ChildPath(root, id, i);
    var cid := id + [i];
    var c := NodeAt(root, id).children[i];
    match c.kind
    case Text(v, _, _, _) => Next(Gather(acc, v), s)
    case Emphasis(level) =>
      if FirstText(c).None? then Done(Outcome(Stop(Panic), s))
      else
        var s1 := Flush(acc, par, Some(cid), s);
        var nm := El(s1.count + 1);
        Next(Idle, RState(s1.count + 1, s1.el, s1.out + [CreateElement(nm, EmphasisTag(level)), SetText(nm, FirstText(c).value), Append(par, nm)]))
    case CodeSpan =>
      var r := RenderCodeSpan(root, cid, true, Flush(acc, par, None, s));
      if r.status == Stop(Panic) then Done(r) else Next(Idle, r.state)
    case Image(_, _) => Done(Outcome(Stop(Panic), Flush(acc, par, None, s)))
    case Link(_, _) => Next(Idle, RenderLink(cfg, root, cid, true, Flush(acc, par, None, s)).state)
    case RawHTML(_) => Next(Idle, RenderRawHTML(cfg, root, cid, true, Flush(acc, par, None, s)).state)
    case StringNode(_) => Next(Idle, RenderString(root, cid, true, Flush(acc, par, None, s)).state)
    case _ => Next(acc, s)
  }

  /** The aggregator loop over the children of the node at `id` from the
      `i`-th on; what is still pending at the end is flushed and its name
      recorded on the node itself. */
  function AggregateFrom(cfg: Config, root: Node, id: NodeId, par: Name, i: nat, acc: Pending, s: RState): Outcome
    requires ValidPath(root, id) && i <= |NodeAt(root, id).children|
    decreases |NodeAt(root, id).children| - i
  {
    if i == |NodeAt(root, id).children| then Outcome(SkipChildren, Flush(acc, par, Some(id), s))
    else
      match AggregateStep(cfg, root, id, par, i, acc, s)
      case Done(o) => o
      case Next(acc', s') => AggregateFrom(cfg, root, id, par, i + 1, acc', s')
  }

  /** Inline content of a paragraph or text block: a lone text child sets
      the element's text directly; anything else goes through the
      aggregator. */
  function RenderTextChildren(cfg: Config, root: Node, id: NodeId, s: RState): Outcome
    requires ValidPath(root, id)
  {
    var kids := NodeAt(root, id).children;
    if id !in s.el then Outcome(Stop(MissingSelf), s)
    else if |kids| == 1 && IsText(kids[0]) then Outcome(SkipChildren, Emit(s, [SetText(s.el[id], kids[0].kind.value)]))
    else AggregateFrom(cfg, root, id, s.el[id], 0, Idle, s)
  }

  function RenderParagraph(cfg: Config, root: Node, id: NodeId, entering: bool, s: RState): Outcome
    requires ValidPath(root, id)
  {
    if !entering then Outcome(SkipChildren, s)
    else
      var n := NodeAt(root, id);
      var s1 := Open(s, id);
      var nm := El(s1.count);
      var s2 := Emit(s1, Styled(nm, "p", "p", n, ParagraphFilter));
      var r := RenderTextChildren(cfg, root, id, s2);
      if r.status == Stop(Panic) then r else AttachNow(id, nm, r.state)
  }

  /** A text block writes into its parent's element. */
  function RenderTextBlock(cfg: Config, root: Node, id: NodeId, entering: bool, s: RState): Outcome
    requires ValidPath(root, id)
  {
    if !entering then Outcome(SkipChildren, s)
    else if |id| == 0 then Outcome(Stop(Panic), s)
    else if Parent(id) !in s.el then Outcome(Stop(MissingParent), s)
    else
      var r := RenderTextChildren(cfg, root, id, s.(el := s.el[id := s.el[Parent(id)]]));
      if r.status == Stop(Panic) then r else Outcome(SkipChildren, r.state)
  }

  /** The handler registered for the node's kind; an image-attribute node
      renders nothing and hides its children, and an unregistered kind is
      walked through silently. */
  function Dispatch(cfg: Config, root: Node, id: NodeId, entering: bool, s: RState): Outcome
    requires ValidPath(root, id)
  {
    match NodeAt(root, id).kind
    case Document => RenderDocument(id, entering, s)
    case Heading(_) => RenderHeading(root, id, entering, s)
    case Blockquote => RenderBlockquote(root, id, entering, s)
    case CodeBlock(_) => RenderCodeBlock(root, id, entering, s)
    case FencedCodeBlock(_, _) => RenderFencedCodeBlock(root, id, entering, s)
    case HTMLBlock(_, _) => RenderHTMLBlock(cfg, root, id, entering, s)
    case List(_, _) => RenderList(root, id, entering, s)
    case ListItem => RenderListItem(root, id, entering, s)
    case Paragraph => RenderParagraph(cfg, root, id, entering, s)
    case TextBlock => RenderTextBlock(cfg, root, id, entering, s)
    case ThematicBreak => RenderThematicBreak(root, id, entering, s)
    case AutoLink(_, _) => RenderAutoLink(root, id, entering, s)
    case CodeSpan => RenderCodeSpan(root, id, entering, s)
    case Emphasis(_) => RenderEmphasis(root, id, entering, s)
    case Link(_, _) => RenderLink(cfg, root, id, entering, s)
    case Image(_, _) => RenderImage(cfg, root, id, entering, s)
    case RawHTML(_) => RenderRawHTML(cfg, root, id, entering, s)
    case Text(_, _, _, _) => RenderText(cfg, root, id, entering, s)
    case StringNode(_) => RenderString(root, id, entering, s)
    case ImgAttr => Outcome(SkipChildren, s)
    case Unregistered => Outcome(Continue, s)
  }

  /** goldmark's depth-first walk: enter, walk the children unless told to
      skip them, leave; a stop anywhere ends the whole walk. */
  function Walk(cfg: Config, root: Node, id: NodeId, s: RState): Outcome
    requires ValidPath(root, id)
    decreases NodeAt(root, id), 1
  {
    var r := Dispatch(cfg, root, id, true, s);
    if r.status.Stop? then r
    else
      var c := if r.status == SkipChildren then Outcome(Continue, r.state) else WalkChildren(cfg, root, id, 0, r.state);
      if c.status.Stop? then c
      else
        var e := Dispatch(cfg, root, id, false, c.state);
        if e.status.Stop? then e else Outcome(Continue, e.state)
  }

  function WalkChildren(cfg: Config, root: Node, id: NodeId, i: nat, s: RState): Outcome
    requires ValidPath(root, id) && i <= |NodeAt(root, id).children|
    decreases NodeAt(root, id), 0, |NodeAt(root, id).children| - i
  {
    if i == |NodeAt(root, id).children| then Outcome(Continue, s)
    else
      ChildPath(root, id, i);
      var r := Walk(cfg, root, id + [i], s);
      if r.status.Stop? then r else WalkChildren(cfg, root, id, i + 1, r.state)
  }

  /** A fresh renderer walking a whole document. */
  function Render(cfg: Config, root: Node): Outcome
  {
    Walk(cfg, root, [], RState(0, map[], []))
  }
}
