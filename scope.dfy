/** The script the renderer writes never refers to an identifier before
    declaring it. `Inv` says so of the statements written so far, and says
    that every element name recorded on a node has been declared (names
    recorded inside an image are the exception: they are characters of the
    alt text). Every handler keeps it, hence the whole walk does, and a
    rendered document is a well-scoped script. */
module RenderScope {
  import opened Wrappers
  import opened Bytes
  import opened Ast
  import opened Script
  import opened Attrs
  import opened RenderSpec

  predicate Extends(a: seq<Stmt>, b: seq<Stmt>)
  {
    |a| <= |b| && b[..|a|] == a
  }

  predicate Inv(root: Node, s: RState)
  {
    WellScoped({}, s.out) &&
    forall p :: p in s.el ==> ValidPath(root, p) && (s.el[p] in Known(s.out) || BelowImage(root, p))
  }

  /** `t` extends the script of `s` with well-scoped statements. */
  predicate Grows(s: RState, t: RState)
  {
    Extends(s.out, t.out) && WellScoped(Known(s.out), t.out[|s.out|..])
  }

  /** A step from `s` to `t` that grows the script and records on nodes only
      names it has declared (or, inside an image, any names). */
  predicate Step(root: Node, s: RState, t: RState)
  {
    Grows(s, t) &&
    forall p :: p in t.el ==>
      (p in s.el && t.el[p] == s.el[p]) || (ValidPath(root, p) && (t.el[p] in Known(t.out) || BelowImage(root, p)))
  }

  /** Statements that declare nothing and refer only to `known`. */
  predicate Plain(known: set<Name>, xs: seq<Stmt>)
  {
    forall st :: st in xs ==> Uses(st) <= known && DeclOf(st) == []
  }

  /** The names a handler looks up for node `id` are declared, when present. */
  predicate Ready(s: RState, id: NodeId)
  {
    (id in s.el ==> s.el[id] in Known(s.out)) &&
    (|id| > 0 && Parent(id) in s.el ==> s.el[Parent(id)] in Known(s.out))
  }

  // ---------------------------------------------------------------------
  // Scripts

  lemma PlainScoped(known: set<Name>, xs: seq<Stmt>)
    requires Plain(known, xs)
    ensures WellScoped(known, xs) && Known(xs) == {}
  {
    forall i | 0 <= i < |xs|
      ensures Uses(xs[i]) <= known && DeclOf(xs[i]) == []
    {
      assert xs[i] in xs;
    }
    WellScopedPlain(known, xs);
  }

  lemma ExtendsKnown(a: seq<Stmt>, b: seq<Stmt>)
    requires Extends(a, b)
    ensures Known(a) <= Known(b)
  {
    assert b == a + b[|a|..];
    KnownAppend(a, b[|a|..]);
  }

  lemma ExtendsTrans(a: seq<Stmt>, b: seq<Stmt>, c: seq<Stmt>)
    requires Extends(a, b) && Extends(b, c)
    ensures Extends(a, c)
  {
    assert c[..|a|] == c[..|b|][..|a|];
  }

  /** A declaring statement followed by plain statements about it. */
  lemma DeclareThen(known: set<Name>, st: Stmt, nm: Name, rest: seq<Stmt>)
    requires DeclOf(st) == [nm] && Uses(st) <= known
    requires Plain(known + {nm}, rest)
    ensures WellScoped(known, [st] + rest)
    ensures Known([st] + rest) == {nm}
  {
    OneStmt(known, st);
    PlainScoped(known + {nm}, rest);
    WellScopedAppend(known, [st], rest);
    KnownAppend([st], rest);
  }

  lemma AttrsPlain(known: set<Name>, attrs: seq<Attr>, f: Filter, nm: Name)
    requires nm in known
    ensures Plain(known, ElAttrStmts(attrs, f, nm))
  {
    var r := ElAttrStmts(attrs, f, nm);
    forall st | st in r
      ensures Uses(st) <= known && DeclOf(st) == []
    {
      var i :| 0 <= i < |r| && r[i] == st;
    }
  }

  lemma PlainAppend(known: set<Name>, a: seq<Stmt>, b: seq<Stmt>)
    requires Plain(known, a) && Plain(known, b)
    ensures Plain(known, a + b)
  {
  }

  /** The optional statements about an element: its guarded URL, its
      title, its text. */
  lemma OptionalsPlain(known: set<Name>, cfg: Config, nm: Name, prop: string, dest: seq<byte>, title: Option<string>, text: Option<string>)
    requires nm in known
    ensures Plain(known, GuardedURL(cfg, nm, prop, dest))
    ensures Plain(known, Title(nm, title))
    ensures Plain(known, TextContent(nm, text))
  {
  }

  /** A code block's statements are well scoped wherever they are written,
      and declare its first element name. */
  lemma CodeStmtsScoped(known: set<Name>, c: int, lang: Option<string>, text: string)
    ensures WellScoped(known, CodeStmts(c, lang, text))
    ensures El(c + 1) in Known(CodeStmts(c, lang, text))
  {
    var a := [CreateElement(El(c + 1), "pre"), CreateElement(El(c + 2), "code")];
    var l: seq<Stmt> := if lang.Some? then [SetProp(El(c + 2), "class", "language-" + lang.value)] else [];
    var b := [BindCode(text), CodeText(El(c + 3)), Append(El(c + 2), El(c + 3)), Append(El(c + 1), El(c + 2))];
    assert CodeStmts(c, lang, text) == (a + l) + b;
    var k := known + {El(c + 1), El(c + 2)};
    CodeHeadScoped(known, c);
    PlainScoped(k, l);
    WellScopedAppend(known, a, l);
    KnownAppend(a, l);
    assert known + Known(a + l) == k;
    CodeTailScoped(k, c, text);
    WellScopedAppend(known, a + l, b);
    KnownAppend(a + l, b);
  }

  lemma CodeHeadScoped(known: set<Name>, c: int)
    ensures WellScoped(known, [CreateElement(El(c + 1), "pre"), CreateElement(El(c + 2), "code")])
    ensures Known([CreateElement(El(c + 1), "pre"), CreateElement(El(c + 2), "code")]) == {El(c + 1), El(c + 2)}
  {
    var x := [CreateElement(El(c + 1), "pre"), CreateElement(El(c + 2), "code")];
    assert x[1..][1..] == [];
    assert Known(x[1..]) == {El(c + 2)};
    assert DeclSet(x[0]) == {El(c + 1)} && DeclSet(x[1]) == {El(c + 2)};
    assert WellScoped(known + {El(c + 1)}, x[1..]);
  }

  lemma CodeTailScoped(known: set<Name>, c: int, text: string)
    requires El(c + 1) in known && El(c + 2) in known
    ensures WellScoped(known, [BindCode(text), CodeText(El(c + 3)), Append(El(c + 2), El(c + 3)), Append(El(c + 1), El(c + 2))])
  {
    var x := [BindCode(text), CodeText(El(c + 3)), Append(El(c + 2), El(c + 3)), Append(El(c + 1), El(c + 2))];
    var k1 := known + {CodeStr};
    var k2 := k1 + {El(c + 3)};
    assert x[3..][1..] == [];
    assert WellScoped(k2, x[3..]);
    assert x[2..][1..] == x[3..];
    assert WellScoped(k2, x[2..]);
    assert x[1..][1..] == x[2..];
    assert DeclSet(x[1]) == {El(c + 3)};
    assert WellScoped(k1, x[1..]);
    assert DeclSet(x[0]) == {CodeStr};
  }

  /** The text nodes of a code span are each declared before use and
      appended to the span's element. */
  lemma {:induction false} SpanStmtsScoped(known: set<Name>, kids: seq<Node>, c: int, k: int)
    requires El(c) in known
    ensures WellScoped(known, SpanStmts(kids, c, k))
    decreases |kids|
  {
    if kids != [] && IsText(kids[0]) {
      var head := [CreateText(Span(c, k), SpanText(kids[0].kind.value)), Append(El(c), Span(c, k))];
      assert head == [head[0]] + head[1..];
      DeclareThen(known, head[0], Span(c, k), head[1..]);
      SpanStmtsScoped(known + {Span(c, k)}, kids[1..], c, k + 1);
      WellScopedAppend(known, head, SpanStmts(kids[1..], c, k + 1));
    }
  }

  // ---------------------------------------------------------------------
  // Steps

  /** Writing `d` after the script of `s`. */
  lemma GrowsBy(s: RState, t: RState, d: seq<Stmt>)
    requires t.out == s.out + d && WellScoped(Known(s.out), d)
    ensures Grows(s, t) && Known(t.out) == Known(s.out) + Known(d)
  {
    assert t.out[..|s.out|] == s.out;
    assert t.out[|s.out|..] == d;
    KnownAppend(s.out, d);
  }

  lemma StepRefl(root: Node, s: RState)
    ensures Step(root, s, s)
  {
    assert s.out == s.out + [];
    GrowsBy(s, s, []);
  }

  /** The statements a grown script adds after its prefix. */
  lemma ExtendsSplit(a: seq<Stmt>, b: seq<Stmt>)
    requires Extends(a, b)
    ensures b == a + b[|a|..]
  {
  }

  /** Two successive additions, as one. */
  lemma AddedTrans(a: seq<Stmt>, b: seq<Stmt>, c: seq<Stmt>)
    requires Extends(a, b) && Extends(b, c)
    ensures c[|a|..] == b[|a|..] + c[|b|..]
  {
    ExtendsSplit(a, b);
    ExtendsSplit(b, c);
    assert c == a + (b[|a|..] + c[|b|..]);
  }

  lemma GrowsTrans(s: RState, t: RState, u: RState)
    requires Grows(s, t) && Grows(t, u)
    ensures Grows(s, u) && Known(s.out) <= Known(t.out) <= Known(u.out)
  {
    var d1 := t.out[|s.out|..];
    var d2 := u.out[|t.out|..];
    ExtendsSplit(s.out, t.out);
    ExtendsSplit(t.out, u.out);
    KnownAppend(s.out, d1);
    KnownAppend(t.out, d2);
    WellScopedAppend(Known(s.out), d1, d2);
    ExtendsTrans(s.out, t.out, u.out);
    AddedTrans(s.out, t.out, u.out);
  }

  lemma StepTrans(root: Node, s: RState, t: RState, u: RState)
    requires Step(root, s, t) && Step(root, t, u)
    ensures Step(root, s, u)
  {
    GrowsTrans(s, t, u);
  }

  /** The invariant is kept by every step. */
  lemma StepInv(root: Node, s: RState, t: RState)
    requires Inv(root, s) && Step(root, s, t)
    ensures Inv(root, t) && Extends(s.out, t.out)
  {
    var d := t.out[|s.out|..];
    assert t.out == s.out + d;
    assert {} + Known(s.out) == Known(s.out);
    WellScopedAppend({}, s.out, d);
    ExtendsKnown(s.out, t.out);
  }

  /** Outside an image, a node's parent is outside an image too. */
  lemma ParentNotBelowImage(root: Node, id: NodeId)
    requires ValidPath(root, id) && |id| > 0 && !BelowImage(root, id)
    ensures ValidPath(root, Parent(id)) && !BelowImage(root, Parent(id))
    ensures !NodeAt(root, Parent(id)).kind.Image?
  {
  }

  /** The children of a node outside an image, that is not an image, are
      outside an image. */
  lemma ChildNotBelowImage(root: Node, id: NodeId, i: nat)
    requires ValidPath(root, id) && i < |NodeAt(root, id).children|
    requires !BelowImage(root, id) && !NodeAt(root, id).kind.Image?
    ensures ValidPath(root, id + [i]) && !BelowImage(root, id + [i])
    ensures NodeAt(root, id + [i]) == NodeAt(root, id).children[i]
  {
    ChildPath(root, id, i);
  }

  lemma InvReady(root: Node, s: RState, id: NodeId)
    requires Inv(root, s) && ValidPath(root, id) && !BelowImage(root, id)
    ensures Ready(s, id)
  {
    if |id| > 0 {
      ParentNotBelowImage(root, id);
    }
  }

  // ---------------------------------------------------------------------
  // Entering steps that name a node

  /** An entering step that names node `id`: the script grows with
      well-scoped statements that declare `nm`, `nm` is recorded on the
      node, and nothing else is recorded. */
  predicate Introduces(s: RState, t: RState, id: NodeId, nm: Name)
  {
    Grows(s, t) && t.el == s.el[id := nm] && nm in Known(t.out[|s.out|..])
  }

  lemma IntroducesStep(root: Node, s: RState, t: RState, id: NodeId, nm: Name)
    requires ValidPath(root, id) && Introduces(s, t, id, nm)
    ensures Step(root, s, t)
  {
    var d := t.out[|s.out|..];
    assert t.out == s.out + d;
    KnownAppend(s.out, d);
  }

  /** Writing a declaration of `nm` then plain statements about it, while
      recording `nm` on `id`. */
  lemma OpensIntroduces(s: RState, t: RState, id: NodeId, nm: Name, first: Stmt, rest: seq<Stmt>)
    requires DeclOf(first) == [nm] && Uses(first) == {} && Plain(Known(s.out) + {nm}, rest)
    requires t.out == s.out + ([first] + rest) && t.el == s.el[id := nm]
    ensures Introduces(s, t, id, nm)
  {
    DeclareThen(Known(s.out), first, nm, rest);
    GrowsBy(s, t, [first] + rest);
  }

  /** Opening a styled element introduces it. */
  lemma StyledIntroduces(s: RState, t: RState, id: NodeId, tag: string, style: string, n: Node, f: Filter)
    requires t.out == s.out + Styled(El(s.count + 1), tag, style, n, f) && t.el == s.el[id := El(s.count + 1)]
    ensures Introduces(s, t, id, El(s.count + 1))
  {
    var nm := El(s.count + 1);
    var known := Known(s.out) + {nm};
    AttrsPlain(known, n.attrs, f, nm);
    PlainAppend(known, [ApplyStyle(nm, style)], ElAttrStmts(n.attrs, f, nm));
    OpensIntroduces(s, t, id, nm, CreateElement(nm, tag), [ApplyStyle(nm, style)] + ElAttrStmts(n.attrs, f, nm));
  }

  lemma HeadingEnter(root: Node, id: NodeId, s: RState)
    requires ValidPath(root, id) && NodeAt(root, id).kind.Heading?
    ensures RenderHeading(root, id, true, s).state.count == s.count + 1
    ensures Introduces(s, RenderHeading(root, id, true, s).state, id, El(s.count + 1))
  {
    StyledIntroduces(s, RenderHeading(root, id, true, s).state, id, HeadingTag(NodeAt(root, id).kind.level), HeadingTag(NodeAt(root, id).kind.level), NodeAt(root, id), HeadingFilter);
  }


  lemma BlockquoteEnter(root: Node, id: NodeId, s: RState)
    requires ValidPath(root, id)
    ensures RenderBlockquote(root, id, true, s).state.count == s.count + 1
    ensures Introduces(s, RenderBlockquote(root, id, true, s).state, id, El(s.count + 1))
  {
    StyledIntroduces(s, RenderBlockquote(root, id, true, s).state, id, "blockquote", "block", NodeAt(root, id), BlockquoteFilter);
  }


  lemma ListPropsPlain(k: set<Name>, n: Node, nm: Name)
    requires n.kind.List? && nm in k
    ensures Plain(k, ListProps(n, nm))
  {
    AttrsPlain(k, n.attrs, ListFilter, nm);
  }

  lemma ListEnter(root: Node, id: NodeId, s: RState)
    requires ValidPath(root, id) && NodeAt(root, id).kind.List?
    ensures RenderList(root, id, true, s).state.count == s.count + 1
    ensures Introduces(s, RenderList(root, id, true, s).state, id, El(s.count + 1))
  {
    var n := NodeAt(root, id);
    var nm := El(s.count + 1);
    ListPropsPlain(Known(s.out) + {nm}, n, nm);
    OpensIntroduces(s, RenderList(root, id, true, s).state, id, nm, CreateElement(nm, ListTag(n.kind.ordered)), ListProps(n, nm));
  }

  lemma ListItemEnter(root: Node, id: NodeId, s: RState)
    requires ValidPath(root, id)
    ensures RenderListItem(root, id, true, s).state.count == s.count + 1
    ensures Introduces(s, RenderListItem(root, id, true, s).state, id, El(s.count + 1))
  {
    StyledIntroduces(s, RenderListItem(root, id, true, s).state, id, "li", "li", NodeAt(root, id), ListItemFilter);
  }


  lemma ThematicBreakEnter(root: Node, id: NodeId, s: RState)
    requires ValidPath(root, id)
    ensures RenderThematicBreak(root, id, true, s).state.count == s.count + 1
    ensures Introduces(s, RenderThematicBreak(root, id, true, s).state, id, El(s.count + 1))
  {
    var nm := El(s.count + 1);
    AttrsPlain(Known(s.out) + {nm}, NodeAt(root, id).attrs, ThematicFilter, nm);
    OpensIntroduces(s, RenderThematicBreak(root, id, true, s).state, id, nm, CreateElement(nm, "hr"), ElAttrStmts(NodeAt(root, id).attrs, ThematicFilter, nm));
  }

  lemma AutoLinkEnter(root: Node, id: NodeId, s: RState)
    requires ValidPath(root, id) && NodeAt(root, id).kind.AutoLink?
    ensures RenderAutoLink(root, id, true, s).state.count == s.count + 1
    ensures Introduces(s, RenderAutoLink(root, id, true, s).state, id, El(s.count + 1))
  {
    var n := NodeAt(root, id);
    var nm := El(s.count + 1);
    var url := SetURL(nm, "href", n.kind.url, false, n.kind.email && !HasPrefix(LowerAll(n.kind.url), Mailto));
    var a := ElAttrStmts(n.attrs, LinkFilter, nm);
    AttrsPlain(Known(s.out) + {nm}, n.attrs, LinkFilter, nm);
    assert [CreateElement(nm, "a"), url] + a == [CreateElement(nm, "a")] + ([url] + a);
    OpensIntroduces(s, RenderAutoLink(root, id, true, s).state, id, nm, CreateElement(nm, "a"), [url] + a);
  }

  lemma EmphasisEnter(root: Node, id: NodeId, s: RState)
    requires ValidPath(root, id) && NodeAt(root, id).kind.Emphasis?
    ensures RenderEmphasis(root, id, true, s).state.count == s.count + 1
    ensures Introduces(s, RenderEmphasis(root, id, true, s).state, id, El(s.count + 1))
  {
    var n := NodeAt(root, id);
    var nm := El(s.count + 1);
    var first := CreateElement(nm, EmphasisTag(n.kind.level));
    var a := ElAttrStmts(n.attrs, EmphasisFilter, nm);
    AttrsPlain(Known(s.out) + {nm}, n.attrs, EmphasisFilter, nm);
    assert [first] + a + TextContent(nm, FirstText(n)) == [first] + (a + TextContent(nm, FirstText(n)));
    OpensIntroduces(s, RenderEmphasis(root, id, true, s).state, id, nm, first, a + TextContent(nm, FirstText(n)));
  }

  lemma RawHTMLEnter(cfg: Config, root: Node, id: NodeId, s: RState)
    requires ValidPath(root, id) && NodeAt(root, id).kind.RawHTML?
    ensures RenderRawHTML(cfg, root, id, true, s).state.count == s.count + 1
    ensures Introduces(s, RenderRawHTML(cfg, root, id, true, s).state, id, El(s.count + 1))
  {
    var nm := El(s.count + 1);
    var body := if cfg.unsafe then [SetInnerHTML(nm, Joined(NodeAt(root, id).kind.segments, ""))] else [OmittedMarker];
    OpensIntroduces(s, RenderRawHTML(cfg, root, id, true, s).state, id, nm, CreateElement(nm, "div"), body);
  }

  lemma TextEnter(cfg: Config, root: Node, id: NodeId, s: RState)
    requires ValidPath(root, id) && NodeAt(root, id).kind.Text?
    ensures RenderText(cfg, root, id, true, s).state.count == s.count + 1
    ensures Introduces(s, RenderText(cfg, root, id, true, s).state, id, El(s.count + 1))
  {
    var first := CreateText(El(s.count + 1), TextValue(cfg, NodeAt(root, id).kind, NextSibling(root, id)));
    assert [first] == [first] + [];
    OpensIntroduces(s, RenderText(cfg, root, id, true, s).state, id, El(s.count + 1), first, []);
  }

  lemma StringEnter(root: Node, id: NodeId, s: RState)
    requires ValidPath(root, id) && NodeAt(root, id).kind.StringNode?
    ensures RenderString(root, id, true, s).state.count == s.count + 1
    ensures Introduces(s, RenderString(root, id, true, s).state, id, El(s.count + 1))
  {
    var first := CreateText(El(s.count + 1), NodeAt(root, id).kind.value);
    assert [first] == [first] + [];
    OpensIntroduces(s, RenderString(root, id, true, s).state, id, El(s.count + 1), first, []);
  }

  /** Code blocks take three names and record the first (their `pre`). */
  lemma CodeIntroduces(s: RState, t: RState, id: NodeId, lang: Option<string>, text: string)
    requires t.out == s.out + CodeStmts(s.count, lang, text) && t.el == s.el[id := El(s.count + 1)]
    ensures Introduces(s, t, id, El(s.count + 1))
  {
    CodeStmtsScoped(Known(s.out), s.count, lang, text);
    GrowsBy(s, t, CodeStmts(s.count, lang, text));
  }

  lemma CodeBlockEnter(root: Node, id: NodeId, s: RState)
    requires ValidPath(root, id) && NodeAt(root, id).kind.CodeBlock?
    ensures RenderCodeBlock(root, id, true, s).state.count == s.count + 3
    ensures Introduces(s, RenderCodeBlock(root, id, true, s).state, id, El(s.count + 1))
  {
    CodeIntroduces(s, RenderCodeBlock(root, id, true, s).state, id, None, Joined(NodeAt(root, id).kind.lines, ""));
  }

  lemma FencedCodeBlockEnter(root: Node, id: NodeId, s: RState)
    requires ValidPath(root, id) && NodeAt(root, id).kind.FencedCodeBlock?
    ensures RenderFencedCodeBlock(root, id, true, s).state.count == s.count + 3
    ensures Introduces(s, RenderFencedCodeBlock(root, id, true, s).state, id, El(s.count + 1))
  {
    var n := NodeAt(root, id);
    CodeIntroduces(s, RenderFencedCodeBlock(root, id, true, s).state, id, n.kind.language, Joined(n.kind.lines, ">"));
  }

  /** An HTML block records the current counter value without bumping it. */
  lemma HTMLBlockEnter(cfg: Config, root: Node, id: NodeId, s: RState)
    requires ValidPath(root, id) && NodeAt(root, id).kind.HTMLBlock?
    ensures RenderHTMLBlock(cfg, root, id, true, s).state.count == s.count
    ensures Introduces(s, RenderHTMLBlock(cfg, root, id, true, s).state, id, El(s.count))
  {
    var n := NodeAt(root, id);
    var nm := El(s.count);
    var body := if cfg.unsafe then [SetInnerHTML(nm, Joined(n.kind.lines, "") + ClosureText(n.kind.closure))] else [OmittedComment];
    assert s.out + [CreateElement(nm, "div")] + body == s.out + ([CreateElement(nm, "div")] + body);
    OpensIntroduces(s, RenderHTMLBlock(cfg, root, id, true, s).state, id, nm, CreateElement(nm, "div"), body);
  }

  lemma DocumentEnter(id: NodeId, s: RState)
    ensures RenderDocument(id, true, s).state.count == 1
    ensures Introduces(s, RenderDocument(id, true, s).state, id, MdDiv)
  {
    OneStmt(Known(s.out), Preamble);
    GrowsBy(s, RenderDocument(id, true, s).state, [Preamble]);
  }

  // ---------------------------------------------------------------------
  // Leaving steps and appends

  lemma AttachStep(root: Node, id: NodeId, s: RState)
    requires Ready(s, id)
    ensures Step(root, s, Attach(id, s).state)
  {
    var t := Attach(id, s).state;
    if Attach(id, s).status == Continue {
      var st := Append(s.el[Parent(id)], s.el[id]);
      OneStmt(Known(s.out), st);
      GrowsBy(s, t, [st]);
    } else {
      StepRefl(root, s);
    }
  }

  lemma AttachTracedStep(root: Node, id: NodeId, s: RState)
    requires Ready(s, id)
    ensures Step(root, s, AttachTraced(id, s).state)
  {
    var t := AttachTraced(id, s).state;
    if AttachTraced(id, s).status == Continue {
      var d := [Trace(s.el[id], s.el[Parent(id)]), Append(s.el[Parent(id)], s.el[id])];
      PlainScoped(Known(s.out), d);
      GrowsBy(s, t, d);
    } else {
      StepRefl(root, s);
    }
  }

  lemma AttachNowStep(root: Node, id: NodeId, nm: Name, s: RState)
    requires Ready(s, id) && nm in Known(s.out)
    ensures Step(root, s, AttachNow(id, nm, s).state)
  {
    var t := AttachNow(id, nm, s).state;
    if AttachNow(id, nm, s).status == SkipChildren {
      var st := Append(s.el[Parent(id)], nm);
      OneStmt(Known(s.out), st);
      GrowsBy(s, t, [st]);
    } else {
      StepRefl(root, s);
    }
  }

  lemma DocumentExit(root: Node, id: NodeId, s: RState)
    requires ValidPath(root, id) && MdDiv in Known(s.out)
    ensures Step(root, s, RenderDocument(id, false, s).state)
  {
    OneStmt(Known(s.out), Trailer);
    GrowsBy(s, RenderDocument(id, false, s).state, [Trailer]);
  }

  // ---------------------------------------------------------------------
  // Handlers that attach while entering

  lemma CodeSpanEnter(root: Node, id: NodeId, s: RState)
    requires ValidPath(root, id) && Ready(s, id)
    ensures Step(root, s, RenderCodeSpan(root, id, true, s).state)
  {
    var n := NodeAt(root, id);
    var s1 := Open(s, id);
    var nm := El(s1.count);
    var k := Known(s.out);
    var head := [CreateElement(nm, "code")] + ElAttrStmts(n.attrs, CodeFilter, nm);
    var spans := SpanStmts(n.children, s1.count, 1);
    AttrsPlain(k + {nm}, n.attrs, CodeFilter, nm);
    DeclareThen(k, CreateElement(nm, "code"), nm, ElAttrStmts(n.attrs, CodeFilter, nm));
    SpanStmtsScoped(k + {nm}, n.children, s1.count, 1);
    WellScopedAppend(k, head, spans);
    KnownAppend(head, spans);
    var s2 := Emit(s1, head + spans);
    GrowsBy(s, s2, head + spans);
    IntroducesStep(root, s, s2, id, nm);
    if AllText(n.children) {
      assert |id| > 0 ==> Parent(id) != id;
      AttachNowStep(root, id, nm, s2);
      StepTrans(root, s, s2, AttachNow(id, nm, s2).state);
    }
  }

  /** A handler that opens a name for `id`, writes its declaration and
      plain statements about it, and appends it to the parent at once. */
  lemma OpenAttachStep(root: Node, id: NodeId, s: RState, nm: Name, first: Stmt, rest: seq<Stmt>, s2: RState)
    requires ValidPath(root, id) && Ready(s, id) && nm == El(s.count + 1)
    requires DeclOf(first) == [nm] && Uses(first) == {} && Plain(Known(s.out) + {nm}, rest)
    requires s2 == Emit(Open(s, id), [first] + rest)
    ensures Step(root, s, AttachNow(id, nm, s2).state)
  {
    OpensIntroduces(s, s2, id, nm, first, rest);
    IntroducesStep(root, s, s2, id, nm);
    assert |id| > 0 ==> Parent(id) != id;
    KnownAppend(s.out, [first] + rest);
    AttachNowStep(root, id, nm, s2);
    StepTrans(root, s, s2, AttachNow(id, nm, s2).state);
  }

  lemma LinkPropsPlain(k: set<Name>, cfg: Config, n: Node, nm: Name)
    requires n.kind.Link? && nm in k
    ensures Plain(k, LinkProps(cfg, n, nm))
  {
    var g := GuardedURL(cfg, nm, "href", n.kind.dest);
    var ti := Title(nm, n.kind.title);
    var a := ElAttrStmts(n.attrs, LinkFilter, nm);
    AttrsPlain(k, n.attrs, LinkFilter, nm);
    OptionalsPlain(k, cfg, nm, "href", n.kind.dest, n.kind.title, FirstText(n));
    PlainAppend(k, g, ti);
    PlainAppend(k, g + ti, a);
    PlainAppend(k, g + ti + a, [ApplyStyle(nm, "a")]);
    PlainAppend(k, g + ti + a + [ApplyStyle(nm, "a")], TextContent(nm, FirstText(n)));
  }

  lemma LinkEnter(cfg: Config, root: Node, id: NodeId, s: RState)
    requires ValidPath(root, id) && NodeAt(root, id).kind.Link? && Ready(s, id)
    ensures Step(root, s, RenderLink(cfg, root, id, true, s).state)
  {
    var n := NodeAt(root, id);
    var nm := El(s.count + 1);
    var rest := LinkProps(cfg, n, nm);
    LinkPropsPlain(Known(s.out) + {nm}, cfg, n, nm);
    var s2 := Emit(Open(s, id), [CreateElement(nm, "a")] + rest);
    assert RenderLink(cfg, root, id, true, s) == AttachNow(id, nm, s2);
    OpenAttachStep(root, id, s, nm, CreateElement(nm, "a"), rest, s2);
  }

  // ---------------------------------------------------------------------
  // Images

  /** Every name in `b` is the one `a` had, or is recorded inside an image. */
  predicate KeepsOutside(root: Node, a: map<NodeId, Name>, b: map<NodeId, Name>)
  {
    forall p :: p in b ==> (p in a && b[p] == a[p]) || (ValidPath(root, p) && BelowImage(root, p))
  }

  lemma KeepsOutsideTrans(root: Node, a: map<NodeId, Name>, b: map<NodeId, Name>, c: map<NodeId, Name>)
    requires KeepsOutside(root, a, b) && KeepsOutside(root, b, c)
    ensures KeepsOutside(root, a, c)
  {
  }

  /** Naming one node inside an image. */
  lemma KeepsOutsideBind(root: Node, a: map<NodeId, Name>, p: NodeId, nm: Name)
    requires ValidPath(root, p) && BelowImage(root, p)
    ensures KeepsOutside(root, a, a[p := nm])
  {
  }

  /** A text or string below an image binds only its own node. */
  lemma TextLeafInside(cfg: Config, root: Node, cid: NodeId, s: RState)
    requires ValidPath(root, cid) && BelowImage(root, cid)
    requires NodeAt(root, cid).kind.StringNode? || NodeAt(root, cid).kind.Text?
    ensures KeepsOutside(root, s.el,
      if NodeAt(root, cid).kind.StringNode? then RenderString(root, cid, true, s).state.el
      else RenderText(cfg, root, cid, true, s).state.el)
  {
    KeepsOutsideBind(root, s.el, cid, El(s.count + 1));
  }


  /** Rendering an alt text records names only inside the image. */
  /** The alt-text walk from child `i` on is the walk from child `i + 1`
      on, after child `i`. */
  lemma RenderTextsNext(cfg: Config, root: Node, id: NodeId, i: nat, s: RState)
    requires ValidPath(root, id) && i < |NodeAt(root, id).children|
    ensures ValidPath(root, id + [i]) && NodeAt(root, id + [i]) == NodeAt(root, id).children[i]
    ensures var cid := id + [i];
      var k := NodeAt(root, cid).kind;
      RenderTexts(cfg, root, id, i, s) == RenderTexts(cfg, root, id, i + 1,
        if k.StringNode? then RenderString(root, cid, true, s).state
        else if k.Text? then RenderText(cfg, root, cid, true, s).state
        else RenderTexts(cfg, root, cid, 0, s))
  {
    ChildPath(root, id, i);
  }

  lemma {:induction false} RenderTextsInside(cfg: Config, root: Node, id: NodeId, i: nat, s: RState)
    requires ValidPath(root, id) && i <= |NodeAt(root, id).children|
    requires NodeAt(root, id).kind.Image? || BelowImage(root, id)
    ensures KeepsOutside(root, s.el, RenderTexts(cfg, root, id, i, s).el)
    decreases NodeAt(root, id), |NodeAt(root, id).children| - i
  {
    if i < |NodeAt(root, id).children| {
      RenderTextsNext(cfg, root, id, i, s);
      var cid := id + [i];
      var k := NodeAt(root, cid).kind;
      assert BelowImage(root, cid);
      var s1 :=
        if k.StringNode? then RenderString(root, cid, true, s).state
        else if k.Text? then RenderText(cfg, root, cid, true, s).state
        else RenderTexts(cfg, root, cid, 0, s);
      if k.StringNode? || k.Text? {
        TextLeafInside(cfg, root, cid, s);
      } else {
        RenderTextsInside(cfg, root, cid, 0, s);
      }
      RenderTextsInside(cfg, root, id, i + 1, s1);
      KeepsOutsideTrans(root, s.el, s1.el, RenderTexts(cfg, root, id, i + 1, s1).el);
    }
  }


  lemma ImagePropsPlain(k: set<Name>, cfg: Config, n: Node, nm: Name, alt: seq<Stmt>)
    requires n.kind.Image? && nm in k
    ensures Plain(k, ImageProps(cfg, n, nm, alt))
  {
    var g := GuardedURL(cfg, nm, "src", n.kind.dest);
    var ti := Title(nm, n.kind.title);
    AttrsPlain(k, n.attrs, ImageFilter, nm);
    OptionalsPlain(k, cfg, nm, "src", n.kind.dest, n.kind.title, None);
    PlainAppend(k, g, [SetAlt(nm, alt)]);
    PlainAppend(k, g + [SetAlt(nm, alt)], ti);
    PlainAppend(k, g + [SetAlt(nm, alt)] + ti, ElAttrStmts(n.attrs, ImageFilter, nm));
  }

  /** The state an image leaves, from the names its alt text recorded. */
  lemma ImageStep(root: Node, id: NodeId, s: RState, nm: Name, rest: seq<Stmt>, t: RState)
    requires ValidPath(root, id) && nm == El(s.count + 1) && Plain(Known(s.out) + {nm}, rest)
    requires t.out == s.out + ([CreateElement(nm, "img")] + rest)
    requires KeepsOutside(root, s.el[id := nm], t.el)
    ensures Step(root, s, t)
  {
    DeclareThen(Known(s.out), CreateElement(nm, "img"), nm, rest);
    GrowsBy(s, t, [CreateElement(nm, "img")] + rest);
  }

  lemma ImageEnter(cfg: Config, root: Node, id: NodeId, s: RState)
    requires ValidPath(root, id) && NodeAt(root, id).kind.Image?
    ensures Step(root, s, RenderImage(cfg, root, id, true, s).state)
    ensures RenderImage(cfg, root, id, true, s).status == SkipChildren
  {
    var n := NodeAt(root, id);
    var s1 := Open(s, id);
    var nm := El(s.count + 1);
    var alt := RenderTexts(cfg, root, id, 0, s1.(out := []));
    var rest := ImageProps(cfg, n, nm, alt.out);
    ImagePropsPlain(Known(s.out) + {nm}, cfg, n, nm, alt.out);
    RenderTextsInside(cfg, root, id, 0, s1.(out := []));
    var t := RenderImage(cfg, root, id, true, s).state;
    assert t == RState(alt.count, alt.el, s.out + ([CreateElement(nm, "img")] + rest));
    ImageStep(root, id, s, nm, rest, t);
  }

  // ---------------------------------------------------------------------
  // Inline content

  lemma FlushStep(root: Node, acc: Pending, par: Name, bind: Option<NodeId>, s: RState)
    requires par in Known(s.out)
    requires bind.Some? ==> ValidPath(root, bind.value)
    ensures Step(root, s, Flush(acc, par, bind, s))
  {
    if acc.Idle? {
      StepRefl(root, s);
    } else {
      var nm := El(s.count + 1);
      var t := Flush(acc, par, bind, s);
      DeclareThen(Known(s.out), CreateText(nm, acc.text), nm, [Append(par, nm)]);
      GrowsBy(s, t, [CreateText(nm, acc.text), Append(par, nm)]);
    }
  }

  /** The state a turn of the aggregator leaves. */
  function StepState(r: Step): RState
  {
    if r.Next? then r.state else r.outcome.state
  }

  /** Flushing without binding keeps the names recorded and the names declared. */
  lemma FlushReady(root: Node, acc: Pending, par: Name, s: RState, id: NodeId)
    requires par in Known(s.out) && Ready(s, id)
    ensures Step(root, s, Flush(acc, par, None, s)) && Ready(Flush(acc, par, None, s), id)
  {
    FlushStep(root, acc, par, None, s);
    ExtendsKnown(s.out, Flush(acc, par, None, s).out);
  }

  /** The emphasis element an aggregator writes, with its text, appended to `par`. */
  lemma EmphasisElementStep(root: Node, par: Name, level: int, text: string, s: RState, t: RState)
    requires par in Known(s.out)
    requires t == RState(s.count + 1, s.el, s.out + [CreateElement(El(s.count + 1), EmphasisTag(level)), SetText(El(s.count + 1), text), Append(par, El(s.count + 1))])
    ensures Step(root, s, t)
  {
    var nm := El(s.count + 1);
    var d := [CreateElement(nm, EmphasisTag(level)), SetText(nm, text), Append(par, nm)];
    assert d == [d[0]] + d[1..];
    DeclareThen(Known(s.out), d[0], nm, d[1..]);
    GrowsBy(s, t, d);
  }

  /** A child the aggregator hands to its own entering handler, after
      flushing the pending text: the handler's state, and that it is a step. */
  lemma AggregateHandlerStep(cfg: Config, root: Node, id: NodeId, par: Name, i: nat, acc: Pending, s: RState)
    requires ValidPath(root, id) && i < |NodeAt(root, id).children|
    requires ValidPath(root, id + [i]) && NodeAt(root, id + [i]) == NodeAt(root, id).children[i]
    requires Ready(s, id + [i]) && par in Known(s.out)
    requires NodeAt(root, id + [i]).kind.CodeSpan? || NodeAt(root, id + [i]).kind.Link?
    ensures Step(root, s, StepState(AggregateStep(cfg, root, id, par, i, acc, s)))
  {
    var cid := id + [i];
    var s1 := Flush(acc, par, None, s);
    FlushReady(root, acc, par, s, cid);
    var t := StepState(AggregateStep(cfg, root, id, par, i, acc, s));
    if NodeAt(root, cid).kind.CodeSpan? {
      assert t == RenderCodeSpan(root, cid, true, s1).state;
      CodeSpanEnter(root, cid, s1);
    } else {
      assert t == RenderLink(cfg, root, cid, true, s1).state;
      LinkEnter(cfg, root, cid, s1);
    }
    StepTrans(root, s, s1, t);
  }

  /** A step followed by a step that names a node. */
  lemma StepThenIntroduces(root: Node, s: RState, s1: RState, t: RState, cid: NodeId, nm: Name)
    requires Step(root, s, s1) && ValidPath(root, cid) && Introduces(s1, t, cid, nm)
    ensures Step(root, s, t)
  {
    IntroducesStep(root, s1, t, cid, nm);
    StepTrans(root, s, s1, t);
  }

  /** A raw HTML or string child flushes the pending text and runs its own
      handler; this is the state the aggregator continues with. */
  lemma AggregateInlineState(cfg: Config, root: Node, id: NodeId, par: Name, i: nat, acc: Pending, s: RState)
    requires ValidPath(root, id) && i < |NodeAt(root, id).children|
    requires var k := NodeAt(root, id).children[i].kind; k.RawHTML? || k.StringNode?
    ensures var s1 := Flush(acc, par, None, s);
      StepState(AggregateStep(cfg, root, id, par, i, acc, s)) ==
        if NodeAt(root, id).children[i].kind.RawHTML? then RenderRawHTML(cfg, root, id + [i], true, s1).state
        else RenderString(root, id + [i], true, s1).state
  {
  }

  /** Flushing and then running a raw HTML or string handler is a step. */
  lemma InlineThenStep(cfg: Config, root: Node, cid: NodeId, par: Name, acc: Pending, s: RState)
    requires ValidPath(root, cid) && par in Known(s.out)
    requires var k := NodeAt(root, cid).kind; k.RawHTML? || k.StringNode?
    ensures var s1 := Flush(acc, par, None, s);
      Step(root, s, if NodeAt(root, cid).kind.RawHTML? then RenderRawHTML(cfg, root, cid, true, s1).state
        else RenderString(root, cid, true, s1).state)
  {
    var s1 := Flush(acc, par, None, s);
    FlushStep(root, acc, par, None, s);
    if NodeAt(root, cid).kind.RawHTML? {
      RawHTMLEnter(cfg, root, cid, s1);
      StepThenIntroduces(root, s, s1, RenderRawHTML(cfg, root, cid, true, s1).state, cid, El(s1.count + 1));
    } else {
      StringEnter(root, cid, s1);
      StepThenIntroduces(root, s, s1, RenderString(root, cid, true, s1).state, cid, El(s1.count + 1));
    }
  }

  /** Raw HTML and strings inside inline content name the child. */
  lemma AggregateInlineStep(cfg: Config, root: Node, id: NodeId, par: Name, i: nat, acc: Pending, s: RState)
    requires ValidPath(root, id) && i < |NodeAt(root, id).children|
    requires ValidPath(root, id + [i]) && NodeAt(root, id + [i]) == NodeAt(root, id).children[i]
    requires var k := NodeAt(root, id + [i]).kind; par in Known(s.out) && (k.RawHTML? || k.StringNode?)
    ensures Step(root, s, StepState(AggregateStep(cfg, root, id, par, i, acc, s)))
  {
    AggregateInlineState(cfg, root, id, par, i, acc, s);
    InlineThenStep(cfg, root, id + [i], par, acc, s);
  }

  lemma AggregateEmphasisStep(cfg: Config, root: Node, id: NodeId, par: Name, i: nat, acc: Pending, s: RState)
    requires ValidPath(root, id) && i < |NodeAt(root, id).children|
    requires ValidPath(root, id + [i]) && NodeAt(root, id + [i]) == NodeAt(root, id).children[i]
    requires par in Known(s.out) && NodeAt(root, id + [i]).kind.Emphasis?
    ensures Step(root, s, StepState(AggregateStep(cfg, root, id, par, i, acc, s)))
  {
    var cid := id + [i];
    var c := NodeAt(root, cid);
    var t := StepState(AggregateStep(cfg, root, id, par, i, acc, s));
    if FirstText(c).None? {
      assert t == s;
      StepRefl(root, s);
    } else {
      var s1 := Flush(acc, par, Some(cid), s);
      FlushStep(root, acc, par, Some(cid), s);
      ExtendsKnown(s.out, s1.out);
      EmphasisElementStep(root, par, c.kind.level, FirstText(c).value, s1, t);
      StepTrans(root, s, s1, t);
    }
  }

  /** One turn of the aggregator is a step, when the child's names are ready. */
  lemma AggregateStepGrows(cfg: Config, root: Node, id: NodeId, par: Name, i: nat, acc: Pending, s: RState)
    requires ValidPath(root, id) && i < |NodeAt(root, id).children|
    requires ValidPath(root, id + [i]) && NodeAt(root, id + [i]) == NodeAt(root, id).children[i]
    requires Ready(s, id + [i]) && par in Known(s.out)
    ensures Step(root, s, StepState(AggregateStep(cfg, root, id, par, i, acc, s)))
  {
    var k := NodeAt(root, id + [i]).kind;
    if k.Emphasis? {
      AggregateEmphasisStep(cfg, root, id, par, i, acc, s);
    } else if k.CodeSpan? || k.Link? {
      AggregateHandlerStep(cfg, root, id, par, i, acc, s);
    } else if k.RawHTML? || k.StringNode? {
      AggregateInlineStep(cfg, root, id, par, i, acc, s);
    } else if k.Image? {
      FlushStep(root, acc, par, None, s);
    } else {
      StepRefl(root, s);
    }
  }

  lemma AggregateStepKeeps(cfg: Config, root: Node, id: NodeId, par: Name, i: nat, acc: Pending, s: RState)
    requires ValidPath(root, id) && i < |NodeAt(root, id).children|
    requires !BelowImage(root, id) && !NodeAt(root, id).kind.Image?
    requires Inv(root, s) && par in Known(s.out)
    ensures Inv(root, StepState(AggregateStep(cfg, root, id, par, i, acc, s)))
    ensures Extends(s.out, StepState(AggregateStep(cfg, root, id, par, i, acc, s)).out)
  {
    ChildNotBelowImage(root, id, i);
    InvReady(root, s, id + [i]);
    AggregateStepGrows(cfg, root, id, par, i, acc, s);
    StepInv(root, s, StepState(AggregateStep(cfg, root, id, par, i, acc, s)));
  }

  lemma {:induction false} AggregateFromKeeps(cfg: Config, root: Node, id: NodeId, par: Name, i: nat, acc: Pending, s: RState)
    requires ValidPath(root, id) && i <= |NodeAt(root, id).children|
    requires !BelowImage(root, id) && !NodeAt(root, id).kind.Image?
    requires Inv(root, s) && par in Known(s.out)
    ensures Inv(root, AggregateFrom(cfg, root, id, par, i, acc, s).state)
    ensures Extends(s.out, AggregateFrom(cfg, root, id, par, i, acc, s).state.out)
    decreases |NodeAt(root, id).children| - i
  {
    if i == |NodeAt(root, id).children| {
      FlushStep(root, acc, par, Some(id), s);
      StepInv(root, s, Flush(acc, par, Some(id), s));
    } else {
      var r := AggregateStep(cfg, root, id, par, i, acc, s);
      AggregateStepKeeps(cfg, root, id, par, i, acc, s);
      if r.Next? {
        ExtendsKnown(s.out, r.state.out);
        AggregateFromKeeps(cfg, root, id, par, i + 1, r.acc, r.state);
        ExtendsTrans(s.out, r.state.out, AggregateFrom(cfg, root, id, par, i + 1, r.acc, r.state).state.out);
      }
    }
  }

  /** Setting the text of an element already bound keeps the invariant. */
  lemma SetTextKeeps(root: Node, s: RState, id: NodeId, text: string)
    requires Inv(root, s) && id in s.el && !BelowImage(root, id)
    ensures Inv(root, Emit(s, [SetText(s.el[id], text)]))
    ensures Extends(s.out, Emit(s, [SetText(s.el[id], text)]).out)
  {
    var st := SetText(s.el[id], text);
    var t := Emit(s, [st]);
    OneStmt(Known(s.out), st);
    GrowsBy(s, t, [st]);
    StepInv(root, s, t);
  }

  lemma TextChildrenKeeps(cfg: Config, root: Node, id: NodeId, s: RState)
    requires ValidPath(root, id) && !BelowImage(root, id) && !NodeAt(root, id).kind.Image?
    requires Inv(root, s)
    ensures Inv(root, RenderTextChildren(cfg, root, id, s).state)
    ensures Extends(s.out, RenderTextChildren(cfg, root, id, s).state.out)
  {
    var kids := NodeAt(root, id).children;
    var t := RenderTextChildren(cfg, root, id, s).state;
    if id !in s.el {
      StepRefl(root, s);
      StepInv(root, s, s);
    } else if |kids| == 1 && IsText(kids[0]) {
      SetTextKeeps(root, s, id, kids[0].kind.value);
    } else {
      AggregateFromKeeps(cfg, root, id, s.el[id], 0, Idle, s);
    }
  }

  lemma ParagraphEnterKeeps(cfg: Config, root: Node, id: NodeId, s: RState)
    requires ValidPath(root, id) && NodeAt(root, id).kind.Paragraph? && !BelowImage(root, id)
    requires Inv(root, s)
    ensures Inv(root, RenderParagraph(cfg, root, id, true, s).state)
    ensures Extends(s.out, RenderParagraph(cfg, root, id, true, s).state.out)
  {
    var n := NodeAt(root, id);
    var s1 := Open(s, id);
    var nm := El(s1.count);
    var s2 := Emit(s1, Styled(nm, "p", "p", n, ParagraphFilter));
    StyledIntroduces(s, s2, id, "p", "p", n, ParagraphFilter);
    IntroducesStep(root, s, s2, id, nm);
    StepInv(root, s, s2);
    KnownAppend(s.out, s2.out[|s.out|..]);
    assert s2.out == s.out + s2.out[|s.out|..];
    var r := RenderTextChildren(cfg, root, id, s2);
    TextChildrenKeeps(cfg, root, id, s2);
    ExtendsTrans(s.out, s2.out, r.state.out);
    if r.status != Stop(Panic) {
      ExtendsKnown(s2.out, r.state.out);
      InvReady(root, r.state, id);
      AttachNowStep(root, id, nm, r.state);
      StepInv(root, r.state, AttachNow(id, nm, r.state).state);
      ExtendsTrans(s.out, r.state.out, AttachNow(id, nm, r.state).state.out);
    }
  }

  lemma TextBlockEnterKeeps(cfg: Config, root: Node, id: NodeId, s: RState)
    requires ValidPath(root, id) && NodeAt(root, id).kind.TextBlock? && !BelowImage(root, id)
    requires Inv(root, s)
    ensures Inv(root, RenderTextBlock(cfg, root, id, true, s).state)
    ensures Extends(s.out, RenderTextBlock(cfg, root, id, true, s).state.out)
  {
    if |id| > 0 && Parent(id) in s.el {
      InvReady(root, s, id);
      var s1 := s.(el := s.el[id := s.el[Parent(id)]]);
      assert Inv(root, s1);
      TextChildrenKeeps(cfg, root, id, s1);
    }
  }
}
