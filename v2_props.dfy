/** What the version 2 handlers guarantee: every element they create gets a
    name no earlier statement declared, the extras a list and a list item
    write appear exactly under the source's conditions, a text node ends in
    a newline exactly under the line-break rules, and a code span writes
    each segment with its trailing newline turned into a space. */
module V2Props {
  import opened Wrappers
  import opened Bytes
  import opened Ast
  import opened Script
  import opened Attrs
  import opened Writers
  import S = RenderSpec
  import opened V2Spec

  /** The statements a handler call added. */
  function Added(s: S.RState, t: S.RState): seq<Stmt>
  {
    if |s.out| <= |t.out| then t.out[|s.out|..] else []
  }

  /** No counter name above the counter is declared yet. */
  predicate Counted(s: S.RState)
  {
    forall nm :: nm in Known(s.out) ==> !nm.El? || nm.n <= s.count
  }

  /** An entering step that named the node `el<count + 1>`, declared that
      name exactly once and nothing else, and kept the script free of
      duplicate declarations. */
  predicate FreshEnter(s: S.RState, t: S.RState, id: NodeId)
  {
    t.count == s.count + 1 && t.el == s.el[id := El(t.count)] &&
    |s.out| <= |t.out| && t.out[..|s.out|] == s.out &&
    Decls(Added(s, t)) == [El(t.count)] && El(t.count) !in Known(s.out) &&
    Counted(t) && NoDuplicates(Decls(t.out))
  }

  lemma FreshStep(s: S.RState, id: NodeId, body: seq<Stmt>)
    requires Counted(s) && NoDuplicates(Decls(s.out))
    requires Decls(body) == [El(s.count + 1)]
    ensures FreshEnter(s, S.Emit(S.Open(s, id), body), id)
  {
    var t := S.Emit(S.Open(s, id), body);
    var nm := El(s.count + 1);
    assert t.out[|s.out|..] == body;
    assert t.out[..|s.out|] == s.out;
    DeclsAppend(s.out, body);
    KnownDecls(s.out);
    KnownDecls(t.out);
    assert nm !in Decls(s.out);
  }

  /** The attribute assignments of an element declare nothing. */
  lemma CreatedWithAttrs(nm: Name, tag: string, attrs: seq<Attr>, f: Filter, extra: seq<Stmt>)
    requires Decls(extra) == []
    ensures Decls([CreateElement(nm, tag)] + ElAttrStmts(attrs, f, nm) + extra) == [nm]
  {
    var a := ElAttrStmts(attrs, f, nm);
    ElAttrStmtsScoped({nm}, attrs, f, nm);
    DeclsAppend([CreateElement(nm, tag)], a);
    DeclsAppend([CreateElement(nm, tag)] + a, extra);
    assert Decls([CreateElement(nm, tag)]) == [nm];
  }

  /** A paragraph creates a fresh `p` element on entering and lets the walk
      visit its children one by one. */
  lemma ParagraphFresh(root: Node, id: NodeId, s: S.RState)
    requires ValidPath(root, id) && NodeAt(root, id).kind.Paragraph?
    requires Counted(s) && NoDuplicates(Decls(s.out))
    ensures var r := RenderParagraph(root, id, true, s);
      r.status == S.Continue && FreshEnter(s, r.state, id) &&
      Added(s, r.state)[0] == CreateElement(El(s.count + 1), "p")
  {
    var nm := El(s.count + 1);
    CreatedWithAttrs(nm, "p", NodeAt(root, id).attrs, ParagraphFilter, []);
    var body := [CreateElement(nm, "p")] + ElAttrStmts(NodeAt(root, id).attrs, ParagraphFilter, nm);
    assert body + [] == body;
    FreshStep(s, id, body);
  }

  /** A text node that is not raw gets a fresh text node of its own. */
  lemma TextFresh(cfg: S.Config, escape: Escaper, root: Node, id: NodeId, s: S.RState)
    requires ValidPath(root, id) && NodeAt(root, id).kind.Text? && !NodeAt(root, id).kind.raw
    requires Counted(s) && NoDuplicates(Decls(s.out))
    ensures var r := RenderText(cfg, escape, root, id, true, s);
      r.status == S.Continue && FreshEnter(s, r.state, id) &&
      Added(s, r.state) == [CreateText(El(s.count + 1), S.TextValue(cfg, NodeAt(root, id).kind, NextSibling(root, id)))]
  {
    var body := [CreateText(El(s.count + 1), S.TextValue(cfg, NodeAt(root, id).kind, NextSibling(root, id)))];
    assert Decls(body) == [El(s.count + 1)] by {
      assert body[1..] == [];
    }
    FreshStep(s, id, body);
  }

  /** A raw text node is bound to a fresh name but declares nothing, so the
      name its parent appends on leaving was never declared. */
  lemma RawTextUndeclared(cfg: S.Config, escape: Escaper, root: Node, id: NodeId, s: S.RState)
    requires ValidPath(root, id) && NodeAt(root, id).kind.Text? && NodeAt(root, id).kind.raw
    requires Counted(s) && |id| > 0 && Parent(id) in s.el
    ensures var t := RenderText(cfg, escape, root, id, true, s).state;
      var u := RenderText(cfg, escape, root, id, false, t);
      u.status == S.Continue &&
      u.state.out == s.out + [RawText(Escaped(escape, Utf8(NodeAt(root, id).kind.value))), Append(s.el[Parent(id)], El(s.count + 1))] &&
      El(s.count + 1) !in Known(u.state.out)
  {
    var raw := RawText(Escaped(escape, Utf8(NodeAt(root, id).kind.value)));
    RawTextEnter(cfg, escape, root, id, s);
    var t := RenderText(cfg, escape, root, id, true, s).state;
    assert Parent(id) != id by {
      assert |Parent(id)| < |id|;
    }
    TextLeave(cfg, escape, root, id, t);
    NothingDeclared(s.out, raw, Append(s.el[Parent(id)], El(s.count + 1)), El(s.count + 1));
  }

  lemma TextLeave(cfg: S.Config, escape: Escaper, root: Node, id: NodeId, t: S.RState)
    requires ValidPath(root, id) && NodeAt(root, id).kind.Text?
    requires |id| > 0 && id in t.el && Parent(id) in t.el
    ensures RenderText(cfg, escape, root, id, false, t) == S.Outcome(S.Continue, S.Emit(t, [Append(t.el[Parent(id)], t.el[id])]))
  {
  }

  /** Two statements that declare nothing leave a name undeclared. */
  lemma NothingDeclared(out: seq<Stmt>, x: Stmt, y: Stmt, nm: Name)
    requires nm !in Known(out) && DeclOf(x) == [] && DeclOf(y) == []
    ensures nm !in Known(out + [x, y])
  {
    OneStmt({}, x);
    OneStmt({}, y);
    KnownAppend([x], [y]);
    assert [x, y] == [x] + [y];
    KnownAppend(out, [x, y]);
  }

  lemma RawTextEnter(cfg: S.Config, escape: Escaper, root: Node, id: NodeId, s: S.RState)
    requires ValidPath(root, id) && NodeAt(root, id).kind.Text? && NodeAt(root, id).kind.raw
    ensures RenderText(cfg, escape, root, id, true, s) ==
      S.Outcome(S.Continue, S.RState(s.count + 1, s.el[id := El(s.count + 1)], s.out + [RawText(Escaped(escape, Utf8(NodeAt(root, id).kind.value)))]))
  {
  }

  /** A list item writes `textContent` exactly when it has a first child
      that is not a text block, after its attributes. */
  lemma ListItemNewline(root: Node, id: NodeId, s: S.RState)
    requires ValidPath(root, id) && NodeAt(root, id).kind.ListItem?
    requires Counted(s) && NoDuplicates(Decls(s.out))
    ensures var n := NodeAt(root, id);
      var r := RenderListItem(root, id, true, s);
      var d := Added(s, r.state);
      var nm := El(s.count + 1);
      r.status == S.Continue && FreshEnter(s, r.state, id) && d[0] == CreateElement(nm, "li") &&
      (SetText(nm, "\n") in d <==> |n.children| > 0 && !n.children[0].kind.TextBlock?) &&
      (SetText(nm, "\n") in d ==> d[|d| - 1] == SetText(nm, "\n"))
  {
    var n := NodeAt(root, id);
    var nm := El(s.count + 1);
    var a := ElAttrStmts(n.attrs, ListItemFilter, nm);
    var x := ItemNewline(n, nm);
    assert Decls(x) == [] by {
      if x != [] {
        assert x[1..] == [];
      }
    }
    CreatedWithAttrs(nm, "li", n.attrs, ListItemFilter, x);
    var body := [CreateElement(nm, "li")] + a + x;
    FreshStep(s, id, body);
    ElAttrStmtsExact(n.attrs, ListItemFilter, nm);
    assert SetText(nm, "\n") !in [CreateElement(nm, "li")] + a;
    assert SetText(nm, "\n") in body <==> SetText(nm, "\n") in x;
  }

  /** A list creates `ol` when ordered and `ul` otherwise, writes its start
      only when it is ordered and does not start at 1, and then its
      attributes. */
  lemma ListStart(root: Node, id: NodeId, s: S.RState)
    requires ValidPath(root, id) && NodeAt(root, id).kind.List?
    requires Counted(s) && NoDuplicates(Decls(s.out))
    ensures var k := NodeAt(root, id).kind;
      var r := RenderList(root, id, true, s);
      var d := Added(s, r.state);
      var nm := El(s.count + 1);
      var a := ElAttrStmts(NodeAt(root, id).attrs, ListFilter, nm);
      var started := k.ordered && k.start != 1;
      r.status == S.Continue && FreshEnter(s, r.state, id) &&
      d[0] == CreateElement(nm, if k.ordered then "ol" else "ul") &&
      |d| == 1 + (if started then 1 else 0) + |a| &&
      (started ==> d[1] == SetProp(nm, "start", Decimal(k.start))) &&
      d[|d| - |a|..] == a
  {
    var n := NodeAt(root, id);
    var nm := El(s.count + 1);
    var a := ElAttrStmts(n.attrs, ListFilter, nm);
    var sp := StartProp(n.kind, nm);
    assert Decls(sp) == [] by {
      if sp != [] {
        assert sp[1..] == [];
      }
    }
    var body := [CreateElement(nm, ListTag(n.kind))] + sp + a;
    ElAttrStmtsScoped({nm}, n.attrs, ListFilter, nm);
    DeclsAppend([CreateElement(nm, ListTag(n.kind))], sp);
    DeclsAppend([CreateElement(nm, ListTag(n.kind))] + sp, a);
    assert Decls([CreateElement(nm, ListTag(n.kind))]) == [nm];
    FreshStep(s, id, body);
    assert body[|body| - |a|..] == a;
  }

  /** A text value is the node's value, followed by a newline after a hard
      break, after a soft break under hard wraps, and after a soft break
      when the East Asian rule is off or the value is empty; with the rule
      on, a soft break keeps its newline only when the next sibling is
      non-empty text and the rule says so. Raw text gets no newline. */
  lemma TextValueNewline(cfg: S.Config, t: Kind, next: Option<Node>)
    requires t.Text?
    ensures var r := S.TextValue(cfg, t, next);
      (r == t.value || r == t.value + "\n") &&
      (t.raw ==> r == t.value) &&
      (!t.raw && !t.hardBreak && !t.softBreak ==> r == t.value) &&
      (!t.raw && (t.hardBreak || (t.softBreak && (cfg.hardWraps || !cfg.eastAsian || |t.value| == 0))) ==>
        r == t.value + "\n") &&
      (!t.raw && !t.hardBreak && t.softBreak && !cfg.hardWraps && cfg.eastAsian && |t.value| != 0 ==>
        (r == t.value + "\n" <==>
          next.Some? && next.value.kind.Text? && |next.value.kind.value| != 0 &&
          cfg.keepSoftBreak(t.value, next.value.kind.value)))
  {
    var v := t.value;
    assert v != v + "\n" by {
      assert |v + "\n"| == |v| + 1;
    }
  }

  /** A segment with its trailing newline, if any, turned into a space. */
  function Spaced(v: seq<byte>): (r: seq<byte>)
    ensures |r| == |v|
  {
    if HasSuffix(v, [10]) then v[..|v| - 1] + [32] else v
  }

  /** The bytes the script receives verbatim from a list of statements. */
  function RawBytes(xs: seq<Stmt>): seq<byte>
    decreases |xs|
  {
    if xs == [] then []
    else RawBytes(xs[..|xs| - 1]) + (if xs[|xs| - 1].RawText? then xs[|xs| - 1].bytes else [])
  }

  lemma {:induction false} RawBytesAppend(a: seq<Stmt>, b: seq<Stmt>)
    ensures RawBytes(a + b) == RawBytes(a) + RawBytes(b)
    decreases |b|
  {
    if b == [] {
      assert a + b == a;
    } else {
      assert (a + b)[..|a + b| - 1] == a + b[..|b| - 1];
      RawBytesAppend(a, b[..|b| - 1]);
    }
  }

  /** A segment's statements write the escaped segment with its trailing
      newline turned into a space, and the segment never ends in a newline
      afterwards. */
  lemma SegmentSpaced(escape: Escaper, v: seq<byte>)
    ensures RawBytes(SegmentStmts(escape, v)) == Escaped(escape, Spaced(v))
    ensures !HasSuffix(Spaced(v), [10])
    ensures |v| > 0 ==> Spaced(v)[..|v| - 1] == v[..|v| - 1]
  {
    if HasSuffix(v, [10]) {
      var x0 := RawText(Escaped(escape, v[..|v| - 1]));
      var x1 := RawText(Escaped(escape, [32]));
      RawBytesOne(x0);
      RawBytesOne(x1);
      RawBytesAppend([x0], [x1]);
      assert SegmentStmts(escape, v) == [x0] + [x1];
      EscapedAppend(escape, v[..|v| - 1], [32]);
      assert Spaced(v)[|v| - 1..] == [32];
    } else {
      RawBytesOne(RawText(Escaped(escape, v)));
    }
  }

  lemma RawBytesOne(x: Stmt)
    ensures RawBytes([x]) == if x.RawText? then x.bytes else []
  {
    assert [x][..0] == [];
  }

  /** The text of a code span's children, each segment spaced. */
  function SpacedText(kids: seq<Node>): seq<byte>
    decreases |kids|
  {
    if kids == [] then []
    else
      var last := kids[|kids| - 1];
      SpacedText(kids[..|kids| - 1]) + (if last.kind.Text? then Spaced(Utf8(last.kind.value)) else [])
  }

  /** All of a code span's segments together write the escaped, spaced
      text of its children. */
  lemma {:induction false} CodeSegmentsSpaced(escape: Escaper, kids: seq<Node>)
    ensures RawBytes(CodeSegments(escape, kids)) == Escaped(escape, SpacedText(kids))
    decreases |kids|
  {
    if kids != [] {
      var init := kids[..|kids| - 1];
      CodeSegmentsSpaced(escape, init);
      if kids[|kids| - 1].kind.Text? {
        var v := Utf8(kids[|kids| - 1].kind.value);
        RawBytesAppend(CodeSegments(escape, init), SegmentStmts(escape, v));
        SegmentSpaced(escape, v);
        EscapedAppend(escape, SpacedText(init), Spaced(v));
      } else {
        assert CodeSegments(escape, kids) == CodeSegments(escape, init) + [] == CodeSegments(escape, init);
        assert SpacedText(kids) == SpacedText(init) + [] == SpacedText(init);
      }
    }
  }

  /** A code span creates a fresh `code` element and declares nothing
      else; it skips its children when they are all text and panics
      otherwise. */
  lemma CodeSpanFresh(escape: Escaper, root: Node, id: NodeId, s: S.RState)
    requires ValidPath(root, id) && NodeAt(root, id).kind.CodeSpan?
    requires Counted(s) && NoDuplicates(Decls(s.out))
    ensures var kids := NodeAt(root, id).children;
      var r := RenderCodeSpan(escape, root, id, true, s);
      FreshEnter(s, r.state, id) && Added(s, r.state)[0] == CreateElement(El(s.count + 1), "code") &&
      (AllText(kids) <==> r.status == S.SkipChildren) &&
      (r.status != S.SkipChildren ==> r.status == S.Stop(S.Panic))
  {
    var n := NodeAt(root, id);
    var nm := El(s.count + 1);
    var run := TextRun(n.children);
    var segs := CodeSegments(escape, n.children[..run]);
    TextRunAll(n.children);
    SegmentsRaw(escape, n.children[..run]);
    RawDeclaresNothing(segs);
    CreatedWithAttrs(nm, "code", n.attrs, CodeFilter, segs);
    FreshStep(s, id, [CreateElement(nm, "code")] + ElAttrStmts(n.attrs, CodeFilter, nm) + segs);
  }

  /** A code span of text children writes, verbatim, the escaped text of
      its children with each segment's trailing newline turned into a
      space. */
  lemma CodeSpanBytes(escape: Escaper, root: Node, id: NodeId, s: S.RState)
    requires ValidPath(root, id) && NodeAt(root, id).kind.CodeSpan?
    requires AllText(NodeAt(root, id).children)
    ensures var r := RenderCodeSpan(escape, root, id, true, s);
      RawBytes(Added(s, r.state)) == Escaped(escape, SpacedText(NodeAt(root, id).children))
  {
    var n := NodeAt(root, id);
    var kids := n.children;
    CodeSpanAdded(escape, root, id, s);
    TextRunAll(kids);
    assert kids[..|kids|] == kids;
    CreatedNoBytes(El(s.count + 1), "code", n.attrs, CodeFilter);
    CodeBodyBytes(escape, [CreateElement(El(s.count + 1), "code")] + ElAttrStmts(n.attrs, CodeFilter, El(s.count + 1)), kids);
  }

  lemma CodeBodyBytes(escape: Escaper, head: seq<Stmt>, kids: seq<Node>)
    requires RawBytes(head) == []
    ensures RawBytes(head + CodeSegments(escape, kids)) == Escaped(escape, SpacedText(kids))
  {
    CodeSegmentsSpaced(escape, kids);
    RawBytesAppend(head, CodeSegments(escape, kids));
  }

  /** An element's creation and attribute assignments write no verbatim bytes. */
  lemma CreatedNoBytes(nm: Name, tag: string, attrs: seq<Attr>, f: Filter)
    ensures RawBytes([CreateElement(nm, tag)] + ElAttrStmts(attrs, f, nm)) == []
  {
    AttrsWriteNoBytes([CreateElement(nm, tag)] + ElAttrStmts(attrs, f, nm));
  }

  lemma CodeSpanAdded(escape: Escaper, root: Node, id: NodeId, s: S.RState)
    requires ValidPath(root, id) && NodeAt(root, id).kind.CodeSpan?
    ensures var n := NodeAt(root, id);
      var nm := El(s.count + 1);
      Added(s, RenderCodeSpan(escape, root, id, true, s).state) ==
        [CreateElement(nm, "code")] + ElAttrStmts(n.attrs, CodeFilter, nm) + CodeSegments(escape, n.children[..TextRun(n.children)])
  {
    var n := NodeAt(root, id);
    var nm := El(s.count + 1);
    var body := [CreateElement(nm, "code")] + ElAttrStmts(n.attrs, CodeFilter, nm) + CodeSegments(escape, n.children[..TextRun(n.children)]);
    var t := RenderCodeSpan(escape, root, id, true, s).state;
    assert t == S.Emit(S.Open(s, id), body);
    assert (s.out + body)[|s.out|..] == body;
  }

  /** Every statement of a code span's segments is raw text. */
  lemma {:induction false} SegmentsRaw(escape: Escaper, kids: seq<Node>)
    ensures forall k :: 0 <= k < |CodeSegments(escape, kids)| ==> CodeSegments(escape, kids)[k].RawText?
    decreases |kids|
  {
    if kids != [] {
      SegmentsRaw(escape, kids[..|kids| - 1]);
    }
  }

  lemma {:induction false} RawDeclaresNothing(xs: seq<Stmt>)
    requires forall k :: 0 <= k < |xs| ==> xs[k].RawText?
    ensures Decls(xs) == []
    decreases |xs|
  {
    if xs != [] {
      RawDeclaresNothing(xs[1..]);
    }
  }

  /** Statements other than raw text write no verbatim bytes. */
  lemma {:induction false} AttrsWriteNoBytes(xs: seq<Stmt>)
    requires forall k :: 0 <= k < |xs| ==> !xs[k].RawText?
    ensures RawBytes(xs) == []
    decreases |xs|
  {
    if xs != [] {
      AttrsWriteNoBytes(xs[..|xs| - 1]);
    }
  }
}
