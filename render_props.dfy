/** Properties of the version 3 handlers stated on their own terms: the URL
    guard on links and images, the exit contract, the inline aggregator's
    merging of texts, the HTML block's reused name, and the silent
    image-attribute handler. */
module RenderProps {
  import opened Wrappers
  import opened Bytes
  import opened Ast
  import opened Script
  import opened Attrs
  import opened UrlGuard
  import opened RenderSpec
  import RenderScope

  /** The statements a handler call added. */
  function Added(s: RState, t: RState): seq<Stmt>
  {
    if |s.out| <= |t.out| then t.out[|s.out|..] else []
  }

  predicate HasURL(xs: seq<Stmt>)
  {
    exists k :: 0 <= k < |xs| && xs[k].SetURL?
  }

  lemma HasURLAppend(a: seq<Stmt>, b: seq<Stmt>)
    ensures HasURL(a + b) <==> HasURL(a) || HasURL(b)
  {
    if HasURL(a + b) {
      var k :| 0 <= k < |a + b| && (a + b)[k].SetURL?;
      if k >= |a| {
        assert b[k - |a|].SetURL?;
      }
    }
    if HasURL(b) {
      var k :| 0 <= k < |b| && b[k].SetURL?;
      assert (a + b)[|a| + k].SetURL?;
    }
    if HasURL(a) {
      var k :| 0 <= k < |a| && a[k].SetURL?;
      assert (a + b)[k].SetURL?;
    }
  }

  /** Titles, attributes, styles and texts never carry a URL. */
  lemma NoURLIn(xs: seq<Stmt>)
    requires forall k :: 0 <= k < |xs| ==> xs[k].SetProp? || xs[k].ApplyStyle? || xs[k].SetText? || xs[k].SetAlt?
    ensures !HasURL(xs)
  {
  }

  lemma GuardedURLHas(cfg: Config, nm: Name, prop: string, dest: seq<byte>)
    ensures HasURL(GuardedURL(cfg, nm, prop, dest)) <==> cfg.unsafe || !IsDangerousURL(dest)
  {
    if cfg.unsafe || !IsDangerousURL(dest) {
      assert GuardedURL(cfg, nm, prop, dest)[0].SetURL?;
    }
  }

  /** What a link writes about its element carries a URL exactly when the
      guard lets the destination through. */
  lemma LinkPropsGuarded(cfg: Config, n: Node, nm: Name)
    requires n.kind.Link?
    ensures HasURL(LinkProps(cfg, n, nm)) <==> cfg.unsafe || !IsDangerousURL(n.kind.dest)
  {
    var g := GuardedURL(cfg, nm, "href", n.kind.dest);
    var t := Title(nm, n.kind.title);
    var e := ElAttrStmts(n.attrs, LinkFilter, nm);
    var c := TextContent(nm, FirstText(n));
    GuardedURLHas(cfg, nm, "href", n.kind.dest);
    AttrsNoURL(n.attrs, LinkFilter, nm);
    HasURLAppend(g, t);
    HasURLAppend(g + t, e);
    HasURLAppend(g + t + e, [ApplyStyle(nm, "a")]);
    HasURLAppend(g + t + e + [ApplyStyle(nm, "a")], c);
  }

  lemma AttrsNoURL(attrs: seq<Attr>, f: Filter, nm: Name)
    ensures !HasURL(ElAttrStmts(attrs, f, nm))
  {
  }

  /** A link's destination is written if and only if unsafe output is
      allowed or the URL guard accepts it; the element is created and
      appended to its parent either way. */
  lemma LinkHrefGuarded(cfg: Config, root: Node, id: NodeId, s: RState)
    requires ValidPath(root, id) && NodeAt(root, id).kind.Link? && |id| > 0 && Parent(id) in s.el
    ensures var n := NodeAt(root, id);
      var r := RenderLink(cfg, root, id, true, s);
      var d := Added(s, r.state);
      var nm := El(s.count + 1);
      r.status == SkipChildren && |d| >= 2 && d[0] == CreateElement(nm, "a") &&
      d[|d| - 1] == Append(s.el[Parent(id)], nm) &&
      (HasURL(d) <==> cfg.unsafe || !IsDangerousURL(n.kind.dest))
  {
    var n := NodeAt(root, id);
    var nm := El(s.count + 1);
    var props := LinkProps(cfg, n, nm);
    var last := [Append(s.el[Parent(id)], nm)];
    LinkPropsGuarded(cfg, n, nm);
    assert Added(s, RenderLink(cfg, root, id, true, s).state) == [CreateElement(nm, "a")] + props + last;
    HasURLAppend([CreateElement(nm, "a")], props);
    HasURLAppend([CreateElement(nm, "a")] + props, last);
  }

  /** What an image writes about its element carries a URL exactly when
      the guard lets the source through. */
  lemma ImagePropsGuarded(cfg: Config, n: Node, nm: Name, alt: seq<Stmt>)
    requires n.kind.Image?
    ensures HasURL(ImageProps(cfg, n, nm, alt)) <==> cfg.unsafe || !IsDangerousURL(n.kind.dest)
  {
    var g := GuardedURL(cfg, nm, "src", n.kind.dest);
    var t := Title(nm, n.kind.title);
    var e := ElAttrStmts(n.attrs, ImageFilter, nm);
    GuardedURLHas(cfg, nm, "src", n.kind.dest);
    AttrsNoURL(n.attrs, ImageFilter, nm);
    HasURLAppend(g, [SetAlt(nm, alt)]);
    HasURLAppend(g + [SetAlt(nm, alt)], t);
    HasURLAppend(g + [SetAlt(nm, alt)] + t, e);
  }

  /** An image's source is written if and only if unsafe output is allowed
      or the URL guard accepts it; the element is created either way. */
  lemma ImageSrcGuarded(cfg: Config, root: Node, id: NodeId, s: RState)
    requires ValidPath(root, id) && NodeAt(root, id).kind.Image?
    ensures var n := NodeAt(root, id);
      var r := RenderImage(cfg, root, id, true, s);
      var d := Added(s, r.state);
      r.status == SkipChildren && |d| >= 1 && d[0] == CreateElement(El(s.count + 1), "img") &&
      (HasURL(d) <==> cfg.unsafe || !IsDangerousURL(n.kind.dest))
  {
    var n := NodeAt(root, id);
    var nm := El(s.count + 1);
    var s1 := Open(s, id);
    var alt := RenderTexts(cfg, root, id, 0, s1.(out := []));
    var props := ImageProps(cfg, n, nm, alt.out);
    ImagePropsGuarded(cfg, n, nm, alt.out);
    assert Added(s, RenderImage(cfg, root, id, true, s).state) == [CreateElement(nm, "img")] + props;
    HasURLAppend([CreateElement(nm, "img")], props);
  }

  /** An autolink always writes its URL: the guard is never consulted. */
  lemma AutoLinkAlwaysHref(root: Node, id: NodeId, s: RState)
    requires ValidPath(root, id) && NodeAt(root, id).kind.AutoLink?
    ensures var n := NodeAt(root, id);
      var d := Added(s, RenderAutoLink(root, id, true, s).state);
      |d| >= 2 && d[1].SetURL? && d[1].prop == "href" && d[1].url == n.kind.url && HasURL(d)
  {
  }

  /** Every handler that appends on leaving stops when the node has no
      parent, has no name of its own, or its parent has none (checked in
      that order); otherwise it writes exactly one append of its name to
      its parent's, and changes nothing else. */
  lemma AttachContract(id: NodeId, s: RState)
    ensures var r := Attach(id, s);
      (r.status == Stop(NoParent) <==> |id| == 0) &&
      (r.status == Stop(MissingSelf) <==> |id| > 0 && id !in s.el) &&
      (r.status == Stop(MissingParent) <==> |id| > 0 && id in s.el && Parent(id) !in s.el) &&
      (r.status.Stop? ==> r.state == s) &&
      (!r.status.Stop? ==>
        (r.status == Continue && r.state.count == s.count && r.state.el == s.el &&
         Added(s, r.state) == [Append(s.el[Parent(id)], s.el[id])] && Extends(s, r.state)))
  {
    var r := Attach(id, s);
    if !r.status.Stop? {
      assert r.state.out[..|s.out|] == s.out;
    }
  }

  predicate Extends(s: RState, t: RState)
  {
    |s.out| <= |t.out| && t.out[..|s.out|] == s.out
  }

  /** The kinds whose leaving handler is the standard append. */
  predicate AppendsOnExit(k: Kind)
  {
    k.Heading? || k.Blockquote? || k.CodeBlock? || k.List? || k.ListItem? || k.ThematicBreak? ||
    k.AutoLink? || k.Emphasis? || k.Image? || k.Text? || k.StringNode? || (k.HTMLBlock? && k.closure.Some?)
  }

  lemma ExitIsAttach(cfg: Config, root: Node, id: NodeId, s: RState)
    requires ValidPath(root, id) && AppendsOnExit(NodeAt(root, id).kind)
    ensures Dispatch(cfg, root, id, false, s) == Attach(id, s)
  {
  }

  /** A paragraph or text block whose only child is a text gets its text
      directly: no identifier is allocated and no name recorded. */
  lemma FastPath(cfg: Config, root: Node, id: NodeId, s: RState)
    requires ValidPath(root, id) && id in s.el
    requires |NodeAt(root, id).children| == 1 && NodeAt(root, id).children[0].kind.Text?
    ensures var r := RenderTextChildren(cfg, root, id, s);
      r.status == SkipChildren && r.state.count == s.count && r.state.el == s.el &&
      Added(s, r.state) == [SetText(s.el[id], NodeAt(root, id).children[0].kind.value)]
  {
    var r := RenderTextChildren(cfg, root, id, s);
    assert r.state.out[|s.out|..] == [SetText(s.el[id], NodeAt(root, id).children[0].kind.value)];
  }

  /** The concatenated values of a run of texts (other kinds contribute
      nothing). */
  function TextValues(kids: seq<Node>): string
  {
    if kids == [] then "" else (if kids[0].kind.Text? then kids[0].kind.value else "") + TextValues(kids[1..])
  }

  function PendingText(acc: Pending): string
  {
    if acc.Gathered? then acc.text else ""
  }

  /** Over a run of texts, the aggregator only gathers, and flushes the
      whole gathered text once at the end, naming the node with it. */
  lemma {:induction false} AggregateTexts(cfg: Config, root: Node, id: NodeId, par: Name, i: nat, acc: Pending, s: RState)
    requires ValidPath(root, id) && i < |NodeAt(root, id).children|
    requires forall j :: i <= j < |NodeAt(root, id).children| ==> NodeAt(root, id).children[j].kind.Text?
    ensures AggregateFrom(cfg, root, id, par, i, acc, s) ==
      Outcome(SkipChildren, Flush(Gathered(PendingText(acc) + TextValues(NodeAt(root, id).children[i..])), par, Some(id), s))
    decreases |NodeAt(root, id).children| - i
  {
    var kids := NodeAt(root, id).children;
    var v := kids[i].kind.value;
    assert AggregateStep(cfg, root, id, par, i, acc, s) == Next(Gather(acc, v), s);
    assert TextValues(kids[i..]) == v + TextValues(kids[i + 1..]) by {
      assert kids[i..][1..] == kids[i + 1..];
    }
    if i + 1 < |kids| {
      AggregateTexts(cfg, root, id, par, i + 1, Gather(acc, v), s);
      assert PendingText(Gather(acc, v)) + TextValues(kids[i + 1..]) == PendingText(acc) + TextValues(kids[i..]);
    } else {
      assert kids[i + 1..] == [];
      assert PendingText(Gather(acc, v)) == PendingText(acc) + TextValues(kids[i..]);
    }
  }

  /** Inline content made of two or more texts becomes one text node
      holding all their values in order, appended to the element; its name
      overwrites the element's own name on the node. */
  lemma AllTextMerged(cfg: Config, root: Node, id: NodeId, s: RState)
    requires ValidPath(root, id) && id in s.el
    requires |NodeAt(root, id).children| >= 2 && AllText(NodeAt(root, id).children)
    ensures var r := RenderTextChildren(cfg, root, id, s);
      var nm := El(s.count + 1);
      r.status == SkipChildren && r.state.count == s.count + 1 && r.state.el == s.el[id := nm] &&
      Added(s, r.state) == [CreateText(nm, TextValues(NodeAt(root, id).children)), Append(s.el[id], nm)]
  {
    var kids := NodeAt(root, id).children;
    AggregateTexts(cfg, root, id, s.el[id], 0, Idle, s);
    assert kids[0..] == kids;
    assert PendingText(Idle) + TextValues(kids) == TextValues(kids);
    assert RenderTextChildren(cfg, root, id, s) == AggregateFrom(cfg, root, id, s.el[id], 0, Idle, s);
  }

  /** The state a turn of the aggregator leaves, whether the loop goes on
      or ends there. */
  function TurnState(r: Step): RState
  {
    if r.Next? then r.state else r.outcome.state
  }

  /** The handlers the aggregator runs on a code span, link, raw HTML or
      string child only add statements, and take one new number. */
  lemma InlineHandlerExtends(cfg: Config, root: Node, cid: NodeId, s1: RState)
    requires ValidPath(root, cid)
    requires var k := NodeAt(root, cid).kind; k.CodeSpan? || k.Link? || k.RawHTML? || k.StringNode?
    ensures var k := NodeAt(root, cid).kind;
      var t :=
        if k.CodeSpan? then RenderCodeSpan(root, cid, true, s1).state
        else if k.Link? then RenderLink(cfg, root, cid, true, s1).state
        else if k.RawHTML? then RenderRawHTML(cfg, root, cid, true, s1).state
        else RenderString(root, cid, true, s1).state;
      t.count == s1.count + 1 && |s1.out| <= |t.out| && t.out[..|s1.out|] == s1.out
  {
  }

  /** An emphasis turn: flush with the name recorded on the emphasis,
      then the em/strong element holding its first text. */
  lemma EmphasisTurn(cfg: Config, root: Node, id: NodeId, par: Name, i: nat, acc: Pending, s: RState)
    requires ValidPath(root, id) && i < |NodeAt(root, id).children|
    requires var c := NodeAt(root, id).children[i]; c.kind.Emphasis? && FirstText(c).Some?
    ensures var c := NodeAt(root, id).children[i];
      var s1 := Flush(acc, par, Some(id + [i]), s);
      var e := El(s1.count + 1);
      AggregateStep(cfg, root, id, par, i, acc, s) ==
        Next(Idle, RState(s1.count + 1, s1.el, s1.out + [CreateElement(e, EmphasisTag(c.kind.level)), SetText(e, FirstText(c).value), Append(par, e)]))
  {
  }

  /** A code span, link, raw HTML or string turn: flush, then the child's
      own entering handler; only a code span's panic ends the loop. */
  lemma HandlerTurn(cfg: Config, root: Node, id: NodeId, par: Name, i: nat, acc: Pending, s: RState)
    requires ValidPath(root, id) && i < |NodeAt(root, id).children|
    requires var k := NodeAt(root, id).children[i].kind; k.CodeSpan? || k.Link? || k.RawHTML? || k.StringNode?
    ensures ValidPath(root, id + [i]) && NodeAt(root, id + [i]) == NodeAt(root, id).children[i]
    ensures var k := NodeAt(root, id).children[i].kind;
      var cid := id + [i];
      var s1 := Flush(acc, par, None, s);
      var r := AggregateStep(cfg, root, id, par, i, acc, s);
      TurnState(r) ==
        (if k.CodeSpan? then RenderCodeSpan(root, cid, true, s1).state
         else if k.Link? then RenderLink(cfg, root, cid, true, s1).state
         else if k.RawHTML? then RenderRawHTML(cfg, root, cid, true, s1).state
         else RenderString(root, cid, true, s1).state) &&
      (r.Done? <==> k.CodeSpan? && !AllText(NodeAt(root, id).children[i].children)) &&
      (r.Done? ==> r.outcome.status == Stop(Panic)) && (r.Next? ==> r.acc == Idle)
  {
    ChildPath(root, id, i);
  }

  /** A flush of `t` followed by statements that only add to the script. */
  lemma FlushPrefix(s: RState, s1: RState, u: RState, t: string, par: Name)
    requires s1.out == s.out + [CreateText(El(s.count + 1), t), Append(par, El(s.count + 1))]
    requires |s1.out| <= |u.out| && u.out[..|s1.out|] == s1.out
    ensures |Added(s, u)| >= 2 && Added(s, u)[..2] == [CreateText(El(s.count + 1), t), Append(par, El(s.count + 1))]
  {
    assert Added(s, u)[..2] == u.out[|s.out|..|s1.out|];
  }

  /** The flush before an emphasis, recorded on the emphasis. */
  lemma FlushBeforeEmphasis(cfg: Config, root: Node, id: NodeId, par: Name, i: nat, t: string, s: RState)
    requires ValidPath(root, id) && i < |NodeAt(root, id).children|
    requires var c := NodeAt(root, id).children[i]; c.kind.Emphasis? && FirstText(c).Some?
    ensures var r := AggregateStep(cfg, root, id, par, i, Gathered(t), s);
      var nm := El(s.count + 1);
      r.Next? && r.acc == Idle && r.state.count > s.count &&
      |Added(s, r.state)| >= 2 && Added(s, r.state)[..2] == [CreateText(nm, t), Append(par, nm)] &&
      id + [i] in r.state.el && r.state.el[id + [i]] == nm
  {
    EmphasisTurn(cfg, root, id, par, i, Gathered(t), s);
    var s1 := Flush(Gathered(t), par, Some(id + [i]), s);
    var u := AggregateStep(cfg, root, id, par, i, Gathered(t), s).state;
    assert u.out[..|s1.out|] == s1.out;
    FlushPrefix(s, s1, u, t, par);
  }

  /** The flush before a code span, link, raw HTML or string. */
  lemma FlushBeforeHandler(cfg: Config, root: Node, id: NodeId, par: Name, i: nat, t: string, s: RState)
    requires ValidPath(root, id) && i < |NodeAt(root, id).children|
    requires var k := NodeAt(root, id).children[i].kind; k.CodeSpan? || k.Link? || k.RawHTML? || k.StringNode?
    ensures var c := NodeAt(root, id).children[i];
      var r := AggregateStep(cfg, root, id, par, i, Gathered(t), s);
      var u := TurnState(r);
      var nm := El(s.count + 1);
      u.count > s.count && |Added(s, u)| >= 2 && Added(s, u)[..2] == [CreateText(nm, t), Append(par, nm)] &&
      (r.Next? ==> r.acc == Idle) &&
      (r.Done? <==> c.kind.CodeSpan? && !AllText(c.children)) && (r.Done? ==> r.outcome.status == Stop(Panic))
  {
    HandlerTurn(cfg, root, id, par, i, Gathered(t), s);
    var s1 := Flush(Gathered(t), par, None, s);
    InlineHandlerExtends(cfg, root, id + [i], s1);
    FlushPrefix(s, s1, TurnState(AggregateStep(cfg, root, id, par, i, Gathered(t), s)), t, par);
  }

  /** Before an emphasis whose first child is a text, and before a code
      span, an image, a link, raw HTML or a string, the pending text `t` is
      written first: one text node `el<count+1>` holding `t`, appended to
      the parent's element, and recorded on the emphasis when the child is
      one. Nothing is pending afterwards. The loop ends there, with a panic,
      exactly for an image and for a code span with a non-text child. */
  lemma AggregateFlushBeforeInline(cfg: Config, root: Node, id: NodeId, par: Name, i: nat, t: string, s: RState)
    requires ValidPath(root, id) && i < |NodeAt(root, id).children|
    requires var c := NodeAt(root, id).children[i];
      c.kind.CodeSpan? || c.kind.Image? || c.kind.Link? || c.kind.RawHTML? || c.kind.StringNode? ||
      (c.kind.Emphasis? && FirstText(c).Some?)
    ensures var u := TurnState(AggregateStep(cfg, root, id, par, i, Gathered(t), s));
      var nm := El(s.count + 1);
      u.count > s.count && |Added(s, u)| >= 2 && Added(s, u)[..2] == [CreateText(nm, t), Append(par, nm)]
    ensures var c := NodeAt(root, id).children[i];
      var u := TurnState(AggregateStep(cfg, root, id, par, i, Gathered(t), s));
      c.kind.Emphasis? ==> id + [i] in u.el && u.el[id + [i]] == El(s.count + 1)
    ensures var r := AggregateStep(cfg, root, id, par, i, Gathered(t), s);
      r.Next? ==> r.acc == Idle
    ensures var c := NodeAt(root, id).children[i];
      var r := AggregateStep(cfg, root, id, par, i, Gathered(t), s);
      (r.Done? <==> c.kind.Image? || (c.kind.CodeSpan? && !AllText(c.children))) &&
      (r.Done? ==> r.outcome.status == Stop(Panic))
  {
    var k := NodeAt(root, id).children[i].kind;
    if k.Emphasis? {
      FlushBeforeEmphasis(cfg, root, id, par, i, t, s);
    } else if k.Image? {
      var s1 := Flush(Gathered(t), par, None, s);
      assert AggregateStep(cfg, root, id, par, i, Gathered(t), s) == Done(Outcome(Stop(Panic), s1));
      FlushPrefix(s, s1, s1, t, par);
    } else {
      FlushBeforeHandler(cfg, root, id, par, i, t, s);
    }
  }

  /** Inline content of a node that has no recorded name stops the walk
      and writes nothing. */
  lemma TextChildrenNeedName(cfg: Config, root: Node, id: NodeId, s: RState)
    requires ValidPath(root, id) && id !in s.el
    ensures RenderTextChildren(cfg, root, id, s) == Outcome(Stop(MissingSelf), s)
  {
  }

  /** An HTML block declares the name it records, and nothing else. */
  lemma HTMLBlockDecls(cfg: Config, root: Node, b: NodeId, t: RState)
    requires ValidPath(root, b) && NodeAt(root, b).kind.HTMLBlock?
    ensures var u := RenderHTMLBlock(cfg, root, b, true, t).state;
      u.count == t.count && u.el == t.el[b := El(t.count)] &&
      |t.out| <= |u.out| && u.out[..|t.out|] == t.out && Decls(u.out[|t.out|..]) == [El(t.count)]
  {
    var nb := NodeAt(root, b);
    var nm := El(t.count);
    var body := if cfg.unsafe then [SetInnerHTML(nm, Joined(nb.kind.lines, "") + ClosureText(nb.kind.closure))] else [OmittedComment];
    var u := RenderHTMLBlock(cfg, root, b, true, t).state;
    assert u.out == t.out + ([CreateElement(nm, "div")] + body);
    assert u.out[|t.out|..] == [CreateElement(nm, "div")] + body;
    DeclsAppend([CreateElement(nm, "div")], body);
    assert Decls(body) == [];
  }

  /** A name declared twice: once in `a`, once more as all `b` declares. */
  lemma DeclaredAgain(a: seq<Stmt>, b: seq<Stmt>, nm: Name)
    requires nm in Known(a) && Decls(b) == [nm]
    ensures !NoDuplicates(Decls(a + b))
  {
    KnownDecls(a);
    DeclsAppend(a, b);
    var i :| 0 <= i < |Decls(a)| && Decls(a)[i] == nm;
    assert Decls(a + b)[i] == Decls(a + b)[|Decls(a)|];
  }

  /** An HTML block does not bump the counter, so it takes the name of the
      element opened just before it: after a heading, both nodes are
      recorded as `el<n>` and the script declares that name twice. */
  lemma HTMLBlockReusesName(cfg: Config, root: Node, h: NodeId, b: NodeId, s: RState)
    requires ValidPath(root, h) && NodeAt(root, h).kind.Heading?
    requires ValidPath(root, b) && NodeAt(root, b).kind.HTMLBlock? && h != b
    ensures var t := RenderHeading(root, h, true, s).state;
      var u := RenderHTMLBlock(cfg, root, b, true, t).state;
      u.el[b] == u.el[h] == El(s.count + 1) && u.count == s.count + 1 &&
      !NoDuplicates(Decls(Added(s, u)))
  {
    var nm := El(s.count + 1);
    var t := RenderHeading(root, h, true, s).state;
    var u := RenderHTMLBlock(cfg, root, b, true, t).state;
    RenderScope.HeadingEnter(root, h, s);
    HTMLBlockDecls(cfg, root, b, t);
    var d1 := t.out[|s.out|..];
    var d2 := u.out[|t.out|..];
    RenderScope.AddedTrans(s.out, t.out, u.out);
    DeclaredAgain(d1, d2, nm);
  }

  /** Image-attribute nodes render nothing and hide their children. */
  lemma ImgAttrSilent(cfg: Config, root: Node, id: NodeId, entering: bool, s: RState)
    requires ValidPath(root, id) && NodeAt(root, id).kind.ImgAttr?
    ensures Dispatch(cfg, root, id, entering, s) == Outcome(SkipChildren, s)
  {
  }

  /** A document with no content renders as the preamble and the trailer,
      with the counter at 1 and the root named `mdDiv`. */
  lemma EmptyDocument(cfg: Config, nid: nat, attrs: seq<Attr>)
    ensures Render(cfg, Node(nid, Document, attrs, [])) ==
      Outcome(Continue, RState(1, map[[] := MdDiv], [Preamble, Trailer]))
  {
    var root := Node(nid, Document, attrs, []);
    var s1 := Dispatch(cfg, root, [], true, RState(0, map[], []));
    assert s1 == Outcome(Continue, RState(1, map[[] := MdDiv], [Preamble]));
    assert WalkChildren(cfg, root, [], 0, s1.state) == Outcome(Continue, s1.state);
  }
}
