/** The JavaScript renderer (version 3) as the object the source builds:
    a counter, the `el` attributes it records on nodes, and the writer it
    appends statements to. Every handler method is proved to leave the
    object in the state, and to return the status, that the matching
    function of `RenderSpec` describes. */
module JsRenderer {
  import opened Wrappers
  import opened Ast
  import opened Script
  import opened Attrs
  import opened UrlGuard
  import S = RenderSpec

  class Renderer {
    const cfg: S.Config
    var count: int
    var el: map<NodeId, Name>
    var out: seq<Stmt>

    function State(): S.RState
      reads this
    {
      S.RState(count, el, out)
    }

    constructor (cfg: S.Config)
      ensures this.cfg == cfg && State() == S.RState(0, map[], [])
    {
      this.cfg := cfg;
      count := 0;
      el := map[];
      out := [];
    }

    /** `RenderElAttributes`: one property assignment per attribute that
        passes the filter, in attribute order. */
    static method RenderElAttributes(attrs: seq<Attr>, f: Filter, nm: Name) returns (w: seq<Stmt>)
      ensures w == ElAttrStmts(attrs, f, nm)
    {
      w := [];
      var i := 0;
      while i < |attrs|
        invariant 0 <= i <= |attrs|
        invariant w == ElAttrStmts(attrs[..i], f, nm)
      {
        ElAttrStmtsSnoc(attrs, i, f, nm);
        var a := attrs[i];
        if Passes(f, a.name) {
          var value := match a.value
            case BytesValue(b) => b
            case StringValue(v) => v
            case IntValue(k) => Decimal(k)
            case OtherValue => "";
          w := w + [SetProp(nm, a.name, value)];
        }
        i := i + 1;
      }
      assert attrs[..i] == attrs;
    }

    /** Bump the counter and record `el<count>` on the node. */
    method Open(id: NodeId) returns (nm: Name)
      modifies this
      ensures State() == S.Open(old(State()), id) && nm == El(count)
    {
      count := count + 1;
      nm := El(count);
      el := el[id := nm];
    }

    method Attach(id: NodeId) returns (st: S.Status)
      modifies this
      ensures S.Outcome(st, State()) == S.Attach(id, old(State()))
    {
      if |id| == 0 {
        return S.Stop(S.NoParent);
      }
      if id !in el {
        return S.Stop(S.MissingSelf);
      }
      if Parent(id) !in el {
        return S.Stop(S.MissingParent);
      }
      out := out + [Append(el[Parent(id)], el[id])];
      st := S.Continue;
    }

    method AttachNow(id: NodeId, nm: Name) returns (st: S.Status)
      modifies this
      ensures S.Outcome(st, State()) == S.AttachNow(id, nm, old(State()))
    {
      if |id| == 0 {
        return S.Stop(S.NoParent);
      }
      if Parent(id) !in el {
        return S.Stop(S.MissingParent);
      }
      out := out + [Append(el[Parent(id)], nm)];
      st := S.SkipChildren;
    }

    method RenderDocument(id: NodeId, entering: bool) returns (st: S.Status)
      modifies this
      ensures S.Outcome(st, State()) == S.RenderDocument(id, entering, old(State()))
    {
      el := el[id := MdDiv];
      if entering {
        count := 1;
        out := out + [Preamble];
      } else {
        out := out + [Trailer];
      }
      st := S.Continue;
    }

    method RenderHeading(root: Node, id: NodeId, entering: bool) returns (st: S.Status)
      requires ValidPath(root, id) && NodeAt(root, id).kind.Heading?
      modifies this
      ensures S.Outcome(st, State()) == S.RenderHeading(root, id, entering, old(State()))
    {
      if !entering {
        st := Attach(id);
        return;
      }
      var n := NodeAt(root, id);
      var nm := Open(id);
      var tag := S.HeadingTag(n.kind.level);
      var attrs := RenderElAttributes(n.attrs, HeadingFilter, nm);
      out := out + ([CreateElement(nm, tag)] + ([ApplyStyle(nm, tag)] + attrs));
      st := S.Continue;
    }

    method RenderBlockquote(root: Node, id: NodeId, entering: bool) returns (st: S.Status)
      requires ValidPath(root, id)
      modifies this
      ensures S.Outcome(st, State()) == S.RenderBlockquote(root, id, entering, old(State()))
    {
      if !entering {
        st := Attach(id);
        return;
      }
      var n := NodeAt(root, id);
      var nm := Open(id);
      var attrs := RenderElAttributes(n.attrs, BlockquoteFilter, nm);
      out := out + ([CreateElement(nm, "blockquote")] + ([ApplyStyle(nm, "block")] + attrs));
      st := S.Continue;
    }

    /** The text of a block: its lines, each behind `marker`. */
    static method JoinLines(lines: seq<string>, marker: string) returns (data: string)
      ensures data == S.Joined(lines, marker)
    {
      data := "";
      for i := 0 to |lines|
        invariant data == S.Joined(lines[..i], marker)
      {
        assert lines[..i + 1][..i] == lines[..i];
        data := data + marker + lines[i];
      }
      assert lines[..|lines|] == lines;
    }

    /** The entering step shared by both code block kinds: three names. */
    method OpenCode(id: NodeId, lang: Option<string>, data: string)
      modifies this
      ensures State() == S.RState(old(count) + 3, old(el)[id := El(old(count) + 1)], old(out) + S.CodeStmts(old(count), lang, data))
    {
      var pre := Open(id);
      count := count + 1;
      var code := El(count);
      out := out + [CreateElement(pre, "pre"), CreateElement(code, "code")];
      if lang.Some? {
        out := out + [SetProp(code, "class", "language-" + lang.value)];
      }
      out := out + [BindCode(data)];
      count := count + 1;
      var text := El(count);
      out := out + [CodeText(text), Append(code, text), Append(pre, code)];
    }

    method RenderCodeBlock(root: Node, id: NodeId, entering: bool) returns (st: S.Status)
      requires ValidPath(root, id) && NodeAt(root, id).kind.CodeBlock?
      modifies this
      ensures S.Outcome(st, State()) == S.RenderCodeBlock(root, id, entering, old(State()))
    {
      if !entering {
        st := Attach(id);
        return;
      }
      var data := JoinLines(NodeAt(root, id).kind.lines, "");
      OpenCode(id, None, data);
      st := S.Continue;
    }

    method RenderFencedCodeBlock(root: Node, id: NodeId, entering: bool) returns (st: S.Status)
      requires ValidPath(root, id) && NodeAt(root, id).kind.FencedCodeBlock?
      modifies this
      ensures S.Outcome(st, State()) == S.RenderFencedCodeBlock(root, id, entering, old(State()))
    {
      if !entering {
        if |id| == 0 {
          return S.Stop(S.NoParent);
        }
        if id !in el {
          return S.Stop(S.MissingSelf);
        }
        if Parent(id) !in el {
          return S.Stop(S.MissingParent);
        }
        out := out + [Trace(el[id], el[Parent(id)]), Append(el[Parent(id)], el[id])];
        return S.Continue;
      }
      var n := NodeAt(root, id);
      var data := JoinLines(n.kind.lines, ">");
      OpenCode(id, n.kind.language, data);
      st := S.Continue;
    }

    method RenderHTMLBlock(root: Node, id: NodeId, entering: bool) returns (st: S.Status)
      requires ValidPath(root, id) && NodeAt(root, id).kind.HTMLBlock?
      modifies this
      ensures S.Outcome(st, State()) == S.RenderHTMLBlock(cfg, root, id, entering, old(State()))
    {
      var n := NodeAt(root, id);
      if !entering {
        if n.kind.closure.Some? {
          st := Attach(id);
        } else {
          st := S.Continue;
        }
        return;
      }
      var nm := El(count);
      el := el[id := nm];
      out := out + [CreateElement(nm, "div")];
      if cfg.unsafe {
        var data := JoinLines(n.kind.lines, "");
        out := out + [SetInnerHTML(nm, data + S.ClosureText(n.kind.closure))];
      } else {
        out := out + [OmittedComment];
      }
      st := S.Continue;
    }

    method RenderList(root: Node, id: NodeId, entering: bool) returns (st: S.Status)
      requires ValidPath(root, id) && NodeAt(root, id).kind.List?
      modifies this
      ensures S.Outcome(st, State()) == S.RenderList(root, id, entering, old(State()))
    {
      if !entering {
        st := Attach(id);
        return;
      }
      var n := NodeAt(root, id);
      var tag := S.ListTag(n.kind.ordered);
      var nm := Open(id);
      var start := if n.kind.ordered && n.kind.start != 1 then [SetProp(nm, "start", Decimal(n.kind.start))] else [];
      var attrs := RenderElAttributes(n.attrs, ListFilter, nm);
      out := out + ([CreateElement(nm, tag)] + (start + attrs + [ApplyStyle(nm, tag)]));
      st := S.Continue;
    }

    method RenderListItem(root: Node, id: NodeId, entering: bool) returns (st: S.Status)
      requires ValidPath(root, id)
      modifies this
      ensures S.Outcome(st, State()) == S.RenderListItem(root, id, entering, old(State()))
    {
      if !entering {
        st := Attach(id);
        return;
      }
      var n := NodeAt(root, id);
      var nm := Open(id);
      var attrs := RenderElAttributes(n.attrs, ListItemFilter, nm);
      out := out + ([CreateElement(nm, "li")] + ([ApplyStyle(nm, "li")] + attrs));
      st := S.Continue;
    }

    method RenderThematicBreak(root: Node, id: NodeId, entering: bool) returns (st: S.Status)
      requires ValidPath(root, id)
      modifies this
      ensures S.Outcome(st, State()) == S.RenderThematicBreak(root, id, entering, old(State()))
    {
      if !entering {
        st := Attach(id);
        return;
      }
      var n := NodeAt(root, id);
      var nm := Open(id);
      var attrs := RenderElAttributes(n.attrs, ThematicFilter, nm);
      out := out + ([CreateElement(nm, "hr")] + attrs);
      st := S.Continue;
    }

    method RenderAutoLink(root: Node, id: NodeId, entering: bool) returns (st: S.Status)
      requires ValidPath(root, id) && NodeAt(root, id).kind.AutoLink?
      modifies this
      ensures S.Outcome(st, State()) == S.RenderAutoLink(root, id, entering, old(State()))
    {
      if !entering {
        st := Attach(id);
        return;
      }
      var n := NodeAt(root, id);
      var nm := Open(id);
      var mailto := n.kind.email && !Bytes.HasPrefix(Bytes.LowerAll(n.kind.url), S.Mailto);
      var attrs := RenderElAttributes(n.attrs, LinkFilter, nm);
      out := out + ([CreateElement(nm, "a"), SetURL(nm, "href", n.kind.url, false, mailto)] + attrs);
      st := S.Continue;
    }

    /** The text nodes of code span `el<c>`: one per child, numbered from 1;
        `ok` is false when a child is not a text, where the source panics. */
    static method SpanNodes(kids: seq<Node>, c: int) returns (w: seq<Stmt>, ok: bool)
      ensures w == S.SpanStmts(kids, c, 1)
      ensures ok == S.AllText(kids)
    {
      w := [];
      var i := 0;
      while i < |kids|
        invariant 0 <= i <= |kids|
        invariant S.AllText(kids[..i])
        invariant w + S.SpanStmts(kids[i..], c, i + 1) == S.SpanStmts(kids, c, 1)
      {
        if !kids[i].kind.Text? {
          assert kids[i..][0] == kids[i];
          assert w + [] == w;
          return w, false;
        }
        assert kids[i..][1..] == kids[i + 1..];
        assert kids[..i + 1] == kids[..i] + [kids[i]];
        var k := i + 1;
        w := w + [CreateText(Span(c, k), S.SpanText(kids[i].kind.value)), Append(El(c), Span(c, k))];
        i := i + 1;
      }
      assert kids[..i] == kids;
      ok := true;
    }

    method RenderCodeSpan(root: Node, id: NodeId, entering: bool) returns (st: S.Status)
      requires ValidPath(root, id)
      modifies this
      ensures S.Outcome(st, State()) == S.RenderCodeSpan(root, id, entering, old(State()))
    {
      if !entering {
        return S.SkipChildren;
      }
      var n := NodeAt(root, id);
      var nm := Open(id);
      var attrs := RenderElAttributes(n.attrs, CodeFilter, nm);
      var spans, ok := SpanNodes(n.children, count);
      out := out + ([CreateElement(nm, "code")] + attrs + spans);
      if !ok {
        return S.Stop(S.Panic);
      }
      st := AttachNow(id, nm);
    }

    method RenderEmphasis(root: Node, id: NodeId, entering: bool) returns (st: S.Status)
      requires ValidPath(root, id) && NodeAt(root, id).kind.Emphasis?
      modifies this
      ensures S.Outcome(st, State()) == S.RenderEmphasis(root, id, entering, old(State()))
    {
      if !entering {
        st := Attach(id);
        return;
      }
      var n := NodeAt(root, id);
      var nm := Open(id);
      var attrs := RenderElAttributes(n.attrs, EmphasisFilter, nm);
      out := out + ([CreateElement(nm, S.EmphasisTag(n.kind.level))] + attrs);
      if |n.children| > 0 && n.children[0].kind.Text? {
        out := out + [SetText(nm, n.children[0].kind.value)];
      }
      st := S.SkipChildren;
    }

    method RenderLink(root: Node, id: NodeId, entering: bool) returns (st: S.Status)
      requires ValidPath(root, id) && NodeAt(root, id).kind.Link?
      modifies this
      ensures S.Outcome(st, State()) == S.RenderLink(cfg, root, id, entering, old(State()))
    {
      if !entering {
        return S.SkipChildren;
      }
      var n := NodeAt(root, id);
      var nm := Open(id);
      var href := if cfg.unsafe || !IsDangerousURL(n.kind.dest) then [SetURL(nm, "href", n.kind.dest, true, false)] else [];
      var title := if n.kind.title.Some? then [SetProp(nm, "title", n.kind.title.value)] else [];
      var attrs := RenderElAttributes(n.attrs, LinkFilter, nm);
      var text := if |n.children| > 0 && n.children[0].kind.Text? then [SetText(nm, n.children[0].kind.value)] else [];
      out := out + ([CreateElement(nm, "a")] + (href + title + attrs + [ApplyStyle(nm, "a")] + text));
      st := AttachNow(id, nm);
    }

    method RenderRawHTML(root: Node, id: NodeId, entering: bool) returns (st: S.Status)
      requires ValidPath(root, id) && NodeAt(root, id).kind.RawHTML?
      modifies this
      ensures S.Outcome(st, State()) == S.RenderRawHTML(cfg, root, id, entering, old(State()))
    {
      if !entering {
        st := Attach(id);
        if st == S.Continue {
          st := S.SkipChildren;
        }
        return;
      }
      var n := NodeAt(root, id);
      var nm := Open(id);
      out := out + [CreateElement(nm, "div")];
      if cfg.unsafe {
        var data := JoinLines(n.kind.segments, "");
        out := out + [SetInnerHTML(nm, data)];
      } else {
        out := out + [OmittedMarker];
      }
      st := S.SkipChildren;
    }

    method RenderText(root: Node, id: NodeId, entering: bool) returns (st: S.Status)
      requires ValidPath(root, id) && NodeAt(root, id).kind.Text?
      modifies this
      ensures S.Outcome(st, State()) == S.RenderText(cfg, root, id, entering, old(State()))
    {
      if !entering {
        st := Attach(id);
        return;
      }
      var t := NodeAt(root, id).kind;
      var nm := Open(id);
      var v := t.value;
      if !t.raw {
        if t.hardBreak || (t.softBreak && cfg.hardWraps) {
          v := v + "\n";
        } else if t.softBreak {
          if cfg.eastAsian && |v| != 0 {
            var sibling := NextSibling(root, id);
            if sibling.Some? && sibling.value.kind.Text? && |sibling.value.kind.value| != 0
               && cfg.keepSoftBreak(v, sibling.value.kind.value) {
              v := v + "\n";
            }
          } else {
            v := v + "\n";
          }
        }
      }
      out := out + [CreateText(nm, v)];
      st := S.Continue;
    }

    method RenderString(root: Node, id: NodeId, entering: bool) returns (st: S.Status)
      requires ValidPath(root, id) && NodeAt(root, id).kind.StringNode?
      modifies this
      ensures S.Outcome(st, State()) == S.RenderString(root, id, entering, old(State()))
    {
      if !entering {
        st := Attach(id);
        return;
      }
      var nm := Open(id);
      out := out + [CreateText(nm, NodeAt(root, id).kind.value)];
      st := S.Continue;
    }

    /** `renderTexts`: strings and texts are rendered as on entering, any
        other child is searched for them recursively. */
    method RenderTexts(root: Node, id: NodeId)
      requires ValidPath(root, id)
      modifies this
      ensures State() == S.RenderTexts(cfg, root, id, 0, old(State()))
      decreases NodeAt(root, id)
    {
      var kids := NodeAt(root, id).children;
      var i := 0;
      while i < |kids|
        invariant 0 <= i <= |kids|
        invariant S.RenderTexts(cfg, root, id, 0, old(State())) == S.RenderTexts(cfg, root, id, i, State())
      {
        ChildPath(root, id, i);
        var cid := id + [i];
        if kids[i].kind.StringNode? {
          var _ := RenderString(root, cid, true);
        } else if kids[i].kind.Text? {
          var _ := RenderText(root, cid, true);
        } else {
          RenderTexts(root, cid);
        }
        i := i + 1;
      }
    }

    /** An image: its alt text is the script of its text descendants,
        captured as a string instead of being run. */
    method RenderImage(root: Node, id: NodeId, entering: bool) returns (st: S.Status)
      requires ValidPath(root, id) && NodeAt(root, id).kind.Image?
      modifies this
      ensures S.Outcome(st, State()) == S.RenderImage(cfg, root, id, entering, old(State()))
    {
      if !entering {
        st := Attach(id);
        return;
      }
      var n := NodeAt(root, id);
      var nm := Open(id);
      var src := if cfg.unsafe || !IsDangerousURL(n.kind.dest) then [SetURL(nm, "src", n.kind.dest, true, false)] else [];
      var written := out;
      out := [];
      RenderTexts(root, id);
      var title := if n.kind.title.Some? then [SetProp(nm, "title", n.kind.title.value)] else [];
      var attrs := RenderElAttributes(n.attrs, ImageFilter, nm);
      out := written + ([CreateElement(nm, "img")] + (src + [SetAlt(nm, out)] + title + attrs));
      st := S.SkipChildren;
    }

    /** Write the pending text of the aggregator as a text node. */
    method Flush(acc: S.Pending, par: Name, bind: Option<NodeId>)
      modifies this
      ensures State() == S.Flush(acc, par, bind, old(State()))
    {
      if acc.Gathered? {
        count := count + 1;
        var nm := El(count);
        if bind.Some? {
          el := el[bind.value := nm];
        }
        out := out + [CreateText(nm, acc.text), Append(par, nm)];
      }
    }

    /** One turn of the aggregator loop, on the `i`-th child; `stop` is the
        status the loop ends with, if it ends here. */
    method AggregateChild(root: Node, id: NodeId, par: Name, i: nat, acc: S.Pending) returns (next: S.Pending, stop: Option<S.Status>)
      requires ValidPath(root, id) && i < |NodeAt(root, id).children|
      modifies this
      ensures S.AggregateStep(cfg, root, id, par, i, acc, old(State())) ==
        if stop.Some? then S.Done(S.Outcome(stop.value, State())) else S.Next(next, State())
    {
      ChildPath(root, id, i);
      var cid := id + [i];
      var c := NodeAt(root, id).children[i];
      next := S.Idle;
      stop := None;
      match c.kind {
        case Text(v, _, _, _) =>
          next := S.Gather(acc, v);
        case Emphasis(_) =>
          next, stop := AggregateEmphasis(root, id, par, i, acc);
        case Image(_, _) =>
          Flush(acc, par, None);
          stop := Some(S.Stop(S.Panic));
        case CodeSpan =>
          stop := AggregateCode(root, id, par, i, acc);
        case Link(_, _) =>
          AggregateLink(root, id, par, i, acc);
        case RawHTML(_) =>
          AggregateInline(root, id, par, i, acc);
        case StringNode(_) =>
          AggregateInline(root, id, par, i, acc);
        case _ =>
          next := acc;
      }
    }

    /** The aggregator's emphasis child: a panic unless its first child
        is a text; otherwise the pending text is flushed (traced against the
        emphasis) and the emphasis element is written with that text. */
    method AggregateEmphasis(root: Node, id: NodeId, par: Name, i: nat, acc: S.Pending) returns (next: S.Pending, stop: Option<S.Status>)
      requires ValidPath(root, id) && i < |NodeAt(root, id).children|
      requires NodeAt(root, id).children[i].kind.Emphasis?
      modifies this
      ensures S.AggregateStep(cfg, root, id, par, i, acc, old(State())) ==
        if stop.Some? then S.Done(S.Outcome(stop.value, State())) else S.Next(next, State())
    {
      ChildPath(root, id, i);
      var c := NodeAt(root, id).children[i];
      if |c.children| == 0 || !c.children[0].kind.Text? {
        return acc, Some(S.Stop(S.Panic));
      }
      next, stop := S.Idle, None;
      Flush(acc, par, Some(id + [i]));
      count := count + 1;
      var nm := El(count);
      out := out + [CreateElement(nm, S.EmphasisTag(c.kind.level)), SetText(nm, c.children[0].kind.value), Append(par, nm)];
      assert S.FirstText(c) == Some(c.children[0].kind.value);
    }

    /** The aggregator's code span child: flush the pending text and run
        the code span handler; its panic ends the loop. */
    method AggregateCode(root: Node, id: NodeId, par: Name, i: nat, acc: S.Pending) returns (stop: Option<S.Status>)
      requires ValidPath(root, id) && i < |NodeAt(root, id).children|
      requires NodeAt(root, id).children[i].kind.CodeSpan?
      modifies this
      ensures S.AggregateStep(cfg, root, id, par, i, acc, old(State())) ==
        if stop.Some? then S.Done(S.Outcome(stop.value, State())) else S.Next(S.Idle, State())
    {
      ChildPath(root, id, i);
      stop := None;
      Flush(acc, par, None);
      var r := RenderCodeSpan(root, id + [i], true);
      if r == S.Stop(S.Panic) {
        stop := Some(r);
      }
    }

    /** The aggregator's link child: flush the pending text and run the
        link handler. */
    method AggregateLink(root: Node, id: NodeId, par: Name, i: nat, acc: S.Pending)
      requires ValidPath(root, id) && i < |NodeAt(root, id).children|
      requires NodeAt(root, id).children[i].kind.Link?
      modifies this
      ensures S.AggregateStep(cfg, root, id, par, i, acc, old(State())) == S.Next(S.Idle, State())
    {
      ChildPath(root, id, i);
      Flush(acc, par, None);
      var _ := RenderLink(root, id + [i], true);
    }

    /** The aggregator's raw HTML and string children: flush the pending
        text and run the child's own entering handler. */
    method AggregateInline(root: Node, id: NodeId, par: Name, i: nat, acc: S.Pending)
      requires ValidPath(root, id) && i < |NodeAt(root, id).children|
      requires var k := NodeAt(root, id).children[i].kind; k.RawHTML? || k.StringNode?
      modifies this
      ensures S.AggregateStep(cfg, root, id, par, i, acc, old(State())) == S.Next(S.Idle, State())
    {
      ChildPath(root, id, i);
      var cid := id + [i];
      Flush(acc, par, None);
      if NodeAt(root, id).children[i].kind.RawHTML? {
        var _ := RenderRawHTML(root, cid, true);
      } else {
        var _ := RenderString(root, cid, true);
      }
    }

    /** The aggregator loop with its pending text (`istate` and `text`). */
    method Aggregate(root: Node, id: NodeId, par: Name) returns (st: S.Status)
      requires ValidPath(root, id)
      modifies this
      ensures S.Outcome(st, State()) == S.AggregateFrom(cfg, root, id, par, 0, S.Idle, old(State()))
    {
      var kids := NodeAt(root, id).children;
      var acc := S.Idle;
      var i := 0;
      while i < |kids|
        invariant 0 <= i <= |kids|
        invariant S.AggregateFrom(cfg, root, id, par, 0, S.Idle, old(State())) == S.AggregateFrom(cfg, root, id, par, i, acc, State())
      {
        var stop;
        acc, stop := AggregateChild(root, id, par, i, acc);
        if stop.Some? {
          return stop.value;
        }
        i := i + 1;
      }
      Flush(acc, par, Some(id));
      st := S.SkipChildren;
    }

    /** `renderTextChildren` (entering): the lone-text fast path, or the
        aggregator loop. */
    method RenderTextChildren(root: Node, id: NodeId) returns (st: S.Status)
      requires ValidPath(root, id)
      modifies this
      ensures S.Outcome(st, State()) == S.RenderTextChildren(cfg, root, id, old(State()))
    {
      var kids := NodeAt(root, id).children;
      if id !in el {
        return S.Stop(S.MissingSelf);
      }
      var par := el[id];
      if |kids| == 1 && kids[0].kind.Text? {
        out := out + [SetText(par, kids[0].kind.value)];
        return S.SkipChildren;
      }
      st := Aggregate(root, id, par);
    }

    method RenderParagraph(root: Node, id: NodeId, entering: bool) returns (st: S.Status)
      requires ValidPath(root, id)
      modifies this
      ensures S.Outcome(st, State()) == S.RenderParagraph(cfg, root, id, entering, old(State()))
    {
      if !entering {
        return S.SkipChildren;
      }
      var n := NodeAt(root, id);
      var nm := Open(id);
      var attrs := RenderElAttributes(n.attrs, ParagraphFilter, nm);
      out := out + ([CreateElement(nm, "p")] + ([ApplyStyle(nm, "p")] + attrs));
      ghost var head := State();
      assert head == S.Emit(S.Open(old(State()), id), S.Styled(nm, "p", "p", n, ParagraphFilter));
      st := RenderTextChildren(root, id);
      if st == S.Stop(S.Panic) {
        return;
      }
      st := AttachNow(id, nm);
    }

    method RenderTextBlock(root: Node, id: NodeId, entering: bool) returns (st: S.Status)
      requires ValidPath(root, id)
      modifies this
      ensures S.Outcome(st, State()) == S.RenderTextBlock(cfg, root, id, entering, old(State()))
    {
      if !entering {
        return S.SkipChildren;
      }
      if |id| == 0 {
        return S.Stop(S.Panic);
      }
      if Parent(id) !in el {
        return S.Stop(S.MissingParent);
      }
      el := el[id := el[Parent(id)]];
      st := RenderTextChildren(root, id);
      if st != S.Stop(S.Panic) {
        st := S.SkipChildren;
      }
    }

    /** The registration table: the handler for the node's kind. */
    method Dispatch(root: Node, id: NodeId, entering: bool) returns (st: S.Status)
      requires ValidPath(root, id)
      modifies this
      ensures S.Outcome(st, State()) == S.Dispatch(cfg, root, id, entering, old(State()))
    {
      match NodeAt(root, id).kind {
        case Document => st := RenderDocument(id, entering);
        case Heading(_) => st := RenderHeading(root, id, entering);
        case Blockquote => st := RenderBlockquote(root, id, entering);
        case CodeBlock(_) => st := RenderCodeBlock(root, id, entering);
        case FencedCodeBlock(_, _) => st := RenderFencedCodeBlock(root, id, entering);
        case HTMLBlock(_, _) => st := RenderHTMLBlock(root, id, entering);
        case List(_, _) => st := RenderList(root, id, entering);
        case ListItem => st := RenderListItem(root, id, entering);
        case Paragraph => st := RenderParagraph(root, id, entering);
        case TextBlock => st := RenderTextBlock(root, id, entering);
        case ThematicBreak => st := RenderThematicBreak(root, id, entering);
        case AutoLink(_, _) => st := RenderAutoLink(root, id, entering);
        case CodeSpan => st := RenderCodeSpan(root, id, entering);
        case Emphasis(_) => st := RenderEmphasis(root, id, entering);
        case Link(_, _) => st := RenderLink(root, id, entering);
        case Image(_, _) => st := RenderImage(root, id, entering);
        case RawHTML(_) => st := RenderRawHTML(root, id, entering);
        case Text(_, _, _, _) => st := RenderText(root, id, entering);
        case StringNode(_) => st := RenderString(root, id, entering);
        case ImgAttr => st := S.SkipChildren;
        case Unregistered => st := S.Continue;
      }
    }

    /** The depth-first walk goldmark drives the handlers with. */
    method Walk(root: Node, id: NodeId) returns (st: S.Status)
      requires ValidPath(root, id)
      modifies this
      ensures S.Outcome(st, State()) == S.Walk(cfg, root, id, old(State()))
      decreases NodeAt(root, id)
    {
      st := Dispatch(root, id, true);
      if st.Stop? {
        return;
      }
      if st != S.SkipChildren {
        ghost var entered := State();
        var kids := NodeAt(root, id).children;
        var i := 0;
        while i < |kids|
          invariant 0 <= i <= |kids|
          invariant S.WalkChildren(cfg, root, id, 0, entered) == S.WalkChildren(cfg, root, id, i, State())
        {
          ChildPath(root, id, i);
          var r := Walk(root, id + [i]);
          if r.Stop? {
            return r;
          }
          i := i + 1;
        }
      }
      st := Dispatch(root, id, false);
      if !st.Stop? {
        st := S.Continue;
      }
    }
  }
}
