/** The whole walk keeps the scoping invariant of `RenderScope`: every
    handler keeps it on entering and on leaving a node outside an image,
    goldmark never walks below an image (its handler skips the children),
    so a rendered document is a script that declares every identifier
    before it refers to it. */
module WalkScope {
  import opened Ast
  import opened Script
  import opened RenderSpec
  import opened RenderScope

  /** A step that names a node keeps the invariant and declares the name. */
  lemma IntroducesKeeps(root: Node, s: RState, t: RState, id: NodeId, nm: Name)
    requires Inv(root, s) && ValidPath(root, id) && Introduces(s, t, id, nm)
    ensures Inv(root, t) && Extends(s.out, t.out) && nm in Known(t.out)
  {
    IntroducesStep(root, s, t, id, nm);
    StepInv(root, s, t);
    ExtendsSplit(s.out, t.out);
    KnownAppend(s.out, t.out[|s.out|..]);
  }

  /** Entering a block node that names itself (the document, headings,
      block quotes, code blocks, HTML blocks, lists, list items, thematic
      breaks). */
  lemma BlockEnterKeeps(cfg: Config, root: Node, id: NodeId, s: RState)
    requires ValidPath(root, id) && Inv(root, s)
    requires var k := NodeAt(root, id).kind;
      k.Document? || k.Heading? || k.Blockquote? || k.CodeBlock? || k.FencedCodeBlock? ||
      k.HTMLBlock? || k.List? || k.ListItem? || k.ThematicBreak?
    ensures var t := Dispatch(cfg, root, id, true, s).state;
      Inv(root, t) && Extends(s.out, t.out) && (NodeAt(root, id).kind.Document? ==> MdDiv in Known(t.out))
  {
    var t := Dispatch(cfg, root, id, true, s).state;
    match NodeAt(root, id).kind {
      case Document =>
        DocumentEnter(id, s);
        IntroducesKeeps(root, s, t, id, MdDiv);
      case Heading(_) =>
        HeadingEnter(root, id, s);
        IntroducesKeeps(root, s, t, id, El(s.count + 1));
      case Blockquote =>
        BlockquoteEnter(root, id, s);
        IntroducesKeeps(root, s, t, id, El(s.count + 1));
      case CodeBlock(_) =>
        CodeBlockEnter(root, id, s);
        IntroducesKeeps(root, s, t, id, El(s.count + 1));
      case FencedCodeBlock(_, _) =>
        FencedCodeBlockEnter(root, id, s);
        IntroducesKeeps(root, s, t, id, El(s.count + 1));
      case HTMLBlock(_, _) =>
        HTMLBlockEnter(cfg, root, id, s);
        IntroducesKeeps(root, s, t, id, El(s.count));
      case List(_, _) =>
        ListEnter(root, id, s);
        IntroducesKeeps(root, s, t, id, El(s.count + 1));
      case ListItem =>
        ListItemEnter(root, id, s);
        IntroducesKeeps(root, s, t, id, El(s.count + 1));
      case ThematicBreak =>
        ThematicBreakEnter(root, id, s);
        IntroducesKeeps(root, s, t, id, El(s.count + 1));
    }
  }

  // Entering inline nodes, one handler at a time.

  lemma AutoLinkEnterKeeps(cfg: Config, root: Node, id: NodeId, s: RState)
    requires ValidPath(root, id) && Inv(root, s) && NodeAt(root, id).kind.AutoLink?
    ensures var t := Dispatch(cfg, root, id, true, s).state;
      Inv(root, t) && Extends(s.out, t.out)
  {
    AutoLinkEnter(root, id, s);
    IntroducesKeeps(root, s, Dispatch(cfg, root, id, true, s).state, id, El(s.count + 1));
  }

  lemma EmphasisEnterKeeps(cfg: Config, root: Node, id: NodeId, s: RState)
    requires ValidPath(root, id) && Inv(root, s) && NodeAt(root, id).kind.Emphasis?
    ensures var t := Dispatch(cfg, root, id, true, s).state;
      Inv(root, t) && Extends(s.out, t.out)
  {
    EmphasisEnter(root, id, s);
    IntroducesKeeps(root, s, Dispatch(cfg, root, id, true, s).state, id, El(s.count + 1));
  }

  lemma RawHTMLEnterKeeps(cfg: Config, root: Node, id: NodeId, s: RState)
    requires ValidPath(root, id) && Inv(root, s) && NodeAt(root, id).kind.RawHTML?
    ensures var t := Dispatch(cfg, root, id, true, s).state;
      Inv(root, t) && Extends(s.out, t.out)
  {
    RawHTMLEnter(cfg, root, id, s);
    IntroducesKeeps(root, s, Dispatch(cfg, root, id, true, s).state, id, El(s.count + 1));
  }

  lemma TextEnterKeeps(cfg: Config, root: Node, id: NodeId, s: RState)
    requires ValidPath(root, id) && Inv(root, s) && NodeAt(root, id).kind.Text?
    ensures var t := Dispatch(cfg, root, id, true, s).state;
      Inv(root, t) && Extends(s.out, t.out)
  {
    TextEnter(cfg, root, id, s);
    IntroducesKeeps(root, s, Dispatch(cfg, root, id, true, s).state, id, El(s.count + 1));
  }

  lemma StringEnterKeeps(cfg: Config, root: Node, id: NodeId, s: RState)
    requires ValidPath(root, id) && Inv(root, s) && NodeAt(root, id).kind.StringNode?
    ensures var t := Dispatch(cfg, root, id, true, s).state;
      Inv(root, t) && Extends(s.out, t.out)
  {
    StringEnter(root, id, s);
    IntroducesKeeps(root, s, Dispatch(cfg, root, id, true, s).state, id, El(s.count + 1));
  }

  lemma CodeSpanEnterKeeps(cfg: Config, root: Node, id: NodeId, s: RState)
    requires ValidPath(root, id) && Inv(root, s) && !BelowImage(root, id) && NodeAt(root, id).kind.CodeSpan?
    ensures var t := Dispatch(cfg, root, id, true, s).state;
      Inv(root, t) && Extends(s.out, t.out)
  {
    InvReady(root, s, id);
    CodeSpanEnter(root, id, s);
    StepInv(root, s, Dispatch(cfg, root, id, true, s).state);
  }

  lemma LinkEnterKeeps(cfg: Config, root: Node, id: NodeId, s: RState)
    requires ValidPath(root, id) && Inv(root, s) && !BelowImage(root, id) && NodeAt(root, id).kind.Link?
    ensures var t := Dispatch(cfg, root, id, true, s).state;
      Inv(root, t) && Extends(s.out, t.out)
  {
    InvReady(root, s, id);
    LinkEnter(cfg, root, id, s);
    StepInv(root, s, Dispatch(cfg, root, id, true, s).state);
  }

  lemma ImageEnterKeeps(cfg: Config, root: Node, id: NodeId, s: RState)
    requires ValidPath(root, id) && Inv(root, s) && !BelowImage(root, id) && NodeAt(root, id).kind.Image?
    ensures var t := Dispatch(cfg, root, id, true, s).state;
      Inv(root, t) && Extends(s.out, t.out)
  {
    InvReady(root, s, id);
    ImageEnter(cfg, root, id, s);
    StepInv(root, s, Dispatch(cfg, root, id, true, s).state);
  }

  /** Entering any node outside an image keeps the invariant; after a
      document is entered, `mdDiv` is declared. */
  lemma EnterKeeps(cfg: Config, root: Node, id: NodeId, s: RState)
    requires ValidPath(root, id) && Inv(root, s) && !BelowImage(root, id)
    ensures var r := Dispatch(cfg, root, id, true, s);
      Inv(root, r.state) && Extends(s.out, r.state.out) &&
      (NodeAt(root, id).kind.Document? ==> MdDiv in Known(r.state.out)) &&
      (NodeAt(root, id).kind.Image? ==> r.status == SkipChildren)
  {
    var k := NodeAt(root, id).kind;
    if k.Document? || k.Heading? || k.Blockquote? || k.CodeBlock? || k.FencedCodeBlock? ||
       k.HTMLBlock? || k.List? || k.ListItem? || k.ThematicBreak? {
      BlockEnterKeeps(cfg, root, id, s);
    } else if k.AutoLink? {
      AutoLinkEnterKeeps(cfg, root, id, s);
    } else if k.Emphasis? {
      EmphasisEnterKeeps(cfg, root, id, s);
    } else if k.RawHTML? {
      RawHTMLEnterKeeps(cfg, root, id, s);
    } else if k.Text? {
      TextEnterKeeps(cfg, root, id, s);
    } else if k.StringNode? {
      StringEnterKeeps(cfg, root, id, s);
    } else if k.CodeSpan? {
      CodeSpanEnterKeeps(cfg, root, id, s);
    } else if k.Link? {
      LinkEnterKeeps(cfg, root, id, s);
    } else if k.Image? {
      ImageEnterKeeps(cfg, root, id, s);
      ImageEnter(cfg, root, id, s);
    } else if k.Paragraph? {
      ParagraphEnterKeeps(cfg, root, id, s);
    } else if k.TextBlock? {
      TextBlockEnterKeeps(cfg, root, id, s);
    } else {
      assert Dispatch(cfg, root, id, true, s).state == s;
    }
  }

  /** The leaving handlers that write nothing: paragraphs, text blocks,
      code spans and links (which attached while entering), HTML blocks
      without a closure line, image attributes and unregistered kinds. */
  predicate SilentExit(n: Node)
  {
    n.kind.Paragraph? || n.kind.TextBlock? || n.kind.CodeSpan? || n.kind.Link? ||
    (n.kind.HTMLBlock? && n.kind.closure.None?) || n.kind.ImgAttr? || n.kind.Unregistered?
  }

  lemma SilentExitState(cfg: Config, root: Node, id: NodeId, s: RState)
    requires ValidPath(root, id) && SilentExit(NodeAt(root, id))
    ensures Dispatch(cfg, root, id, false, s).state == s
  {
  }

  /** Every other leaving handler appends the node to its parent (traced
      for fenced code), or writes the trailer for the document. */
  lemma ExitStep(cfg: Config, root: Node, id: NodeId, s: RState)
    requires ValidPath(root, id) && Ready(s, id)
    requires NodeAt(root, id).kind.Document? ==> MdDiv in Known(s.out)
    ensures RenderScope.Step(root, s, Dispatch(cfg, root, id, false, s).state)
  {
    var k := NodeAt(root, id).kind;
    if SilentExit(NodeAt(root, id)) {
      SilentExitState(cfg, root, id, s);
      StepRefl(root, s);
    } else if k.Document? {
      DocumentExit(root, id, s);
    } else if k.FencedCodeBlock? {
      AttachTracedStep(root, id, s);
    } else {
      AttachStep(root, id, s);
    }
  }

  lemma ExitKeeps(cfg: Config, root: Node, id: NodeId, s: RState)
    requires ValidPath(root, id) && Inv(root, s) && !BelowImage(root, id)
    requires NodeAt(root, id).kind.Document? ==> MdDiv in Known(s.out)
    ensures var t := Dispatch(cfg, root, id, false, s).state;
      Inv(root, t) && Extends(s.out, t.out)
  {
    InvReady(root, s, id);
    ExitStep(cfg, root, id, s);
    StepInv(root, s, Dispatch(cfg, root, id, false, s).state);
  }

  /** Walking a node outside an image keeps the invariant and only adds to
      the script. */
  lemma {:induction false} WalkKeeps(cfg: Config, root: Node, id: NodeId, s: RState)
    requires ValidPath(root, id) && Inv(root, s) && !BelowImage(root, id)
    ensures Inv(root, Walk(cfg, root, id, s).state) && Extends(s.out, Walk(cfg, root, id, s).state.out)
    decreases NodeAt(root, id), 1
  {
    var r := Dispatch(cfg, root, id, true, s);
    EnterKeeps(cfg, root, id, s);
    if !r.status.Stop? {
      var c := if r.status == SkipChildren then Outcome(Continue, r.state) else WalkChildren(cfg, root, id, 0, r.state);
      if r.status != SkipChildren {
        WalkChildrenKeeps(cfg, root, id, 0, r.state);
      }
      if !c.status.Stop? {
        ExtendsKnown(r.state.out, c.state.out);
        ExitKeeps(cfg, root, id, c.state);
        var e := Dispatch(cfg, root, id, false, c.state);
        ExtendsTrans(r.state.out, c.state.out, e.state.out);
        ExtendsTrans(s.out, r.state.out, e.state.out);
      } else {
        ExtendsTrans(s.out, r.state.out, c.state.out);
      }
    }
  }

  lemma {:induction false} WalkChildrenKeeps(cfg: Config, root: Node, id: NodeId, i: nat, s: RState)
    requires ValidPath(root, id) && i <= |NodeAt(root, id).children|
    requires Inv(root, s) && !BelowImage(root, id) && !NodeAt(root, id).kind.Image?
    ensures Inv(root, WalkChildren(cfg, root, id, i, s).state)
    ensures Extends(s.out, WalkChildren(cfg, root, id, i, s).state.out)
    decreases NodeAt(root, id), 0, |NodeAt(root, id).children| - i
  {
    if i < |NodeAt(root, id).children| {
      ChildNotBelowImage(root, id, i);
      var r := Walk(cfg, root, id + [i], s);
      WalkKeeps(cfg, root, id + [i], s);
      if !r.status.Stop? {
        WalkChildrenKeeps(cfg, root, id, i + 1, r.state);
        ExtendsTrans(s.out, r.state.out, WalkChildren(cfg, root, id, i + 1, r.state).state.out);
      }
    } else {
      StepRefl(root, s);
    }
  }

  /** The script a fresh renderer writes for any document, whether the walk
      finishes or stops on an error, refers to no identifier before it is
      declared. */
  lemma RenderScoped(cfg: Config, root: Node)
    ensures WellScoped({}, Render(cfg, root).state.out)
  {
    var s := RState(0, map[], []);
    assert Inv(root, s);
    WalkKeeps(cfg, root, [], s);
  }
}
