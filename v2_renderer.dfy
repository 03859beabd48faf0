/** The earlier JavaScript renderer (version 2), for the handlers where it
    differs from version 3. Paragraphs and text are ordinary two-phase
    nodes: every text node gets an element of its own and nothing is
    merged. A list item and a list write a few extra statements, and a code
    span writes its text segments straight into the script through
    `RawWrite`. The leaving phase of every handler here is the standard
    one shared with version 3 (`RenderSpec.Attach`).

    As in `RenderSpec`, each handler is first a function from the state
    before the call to its status and the state after; the class
    `V2Renderer.Renderer` performs the same steps and is proved equal to them. */
module V2Spec {
  import opened Wrappers
  import opened Bytes
  import opened Ast
  import opened Script
  import opened Attrs
  import opened Writers
  import S = RenderSpec

  /** The HTML escaper `RawWrite` consults, byte by byte. */
  type Escaper = byte -> Option<seq<byte>>

  function RenderParagraph(root: Node, id: NodeId, entering: bool, s: S.RState): S.Outcome
    requires ValidPath(root, id) && NodeAt(root, id).kind.Paragraph?
  {
    if !entering then S.Attach(id, s)
    else
      var s1 := S.Open(s, id);
      var nm := El(s1.count);
      S.Outcome(S.Continue, S.Emit(s1, [CreateElement(nm, "p")] + ElAttrStmts(NodeAt(root, id).attrs, ParagraphFilter, nm)))
  }

  /** A text node always takes a fresh name. Raw text is written into the
      script as escaped bytes and declares nothing; other text becomes a
      text node holding the value and its line break. */
  function RenderText(cfg: S.Config, escape: Escaper, root: Node, id: NodeId, entering: bool, s: S.RState): S.Outcome
    requires ValidPath(root, id) && NodeAt(root, id).kind.Text?
  {
    if !entering then S.Attach(id, s)
    else
      var s1 := S.Open(s, id);
      var t := NodeAt(root, id).kind;
      var st := if t.raw then RawText(Escaped(escape, Utf8(t.value)))
        else CreateText(El(s1.count), S.TextValue(cfg, t, NextSibling(root, id)));
      S.Outcome(S.Continue, S.Emit(s1, [st]))
  }

  /** A list item whose first child is not a text block starts with a newline. */
  function ItemNewline(n: Node, nm: Name): seq<Stmt>
  {
    if |n.children| > 0 && !n.children[0].kind.TextBlock? then [SetText(nm, "\n")] else []
  }

  function RenderListItem(root: Node, id: NodeId, entering: bool, s: S.RState): S.Outcome
    requires ValidPath(root, id) && NodeAt(root, id).kind.ListItem?
  {
    if !entering then S.Attach(id, s)
    else
      var n := NodeAt(root, id);
      var s1 := S.Open(s, id);
      var nm := El(s1.count);
      S.Outcome(S.Continue, S.Emit(s1, [CreateElement(nm, "li")] + ElAttrStmts(n.attrs, ListItemFilter, nm) + ItemNewline(n, nm)))
  }

  function ListTag(k: Kind): string
    requires k.List?
  {
    if k.ordered then "ol" else "ul"
  }

  /** An ordered list that does not start at 1 says where it starts. */
  function StartProp(k: Kind, nm: Name): seq<Stmt>
    requires k.List?
  {
    if k.ordered && k.start != 1 then [SetProp(nm, "start", Decimal(k.start))] else []
  }

  function RenderList(root: Node, id: NodeId, entering: bool, s: S.RState): S.Outcome
    requires ValidPath(root, id) && NodeAt(root, id).kind.List?
  {
    if !entering then S.Attach(id, s)
    else
      var n := NodeAt(root, id);
      var s1 := S.Open(s, id);
      var nm := El(s1.count);
      S.Outcome(S.Continue, S.Emit(s1, [CreateElement(nm, ListTag(n.kind))] + StartProp(n.kind, nm) + ElAttrStmts(n.attrs, ListFilter, nm)))
  }

  /** What a code span writes for one segment: a trailing newline is
      written as a separate space. */
  function SegmentStmts(escape: Escaper, v: seq<byte>): seq<Stmt>
  {
    if HasSuffix(v, [10]) then [RawText(Escaped(escape, v[..|v| - 1])), RawText(Escaped(escape, [32]))]
    else [RawText(Escaped(escape, v))]
  }

  predicate AllText(kids: seq<Node>)
  {
    forall k :: 0 <= k < |kids| ==> kids[k].kind.Text?
  }

  /** The length of the leading run of text children; the code span's
      type assertion fails at the first child past it. */
  function TextRun(kids: seq<Node>): (r: nat)
    ensures r <= |kids|
    decreases |kids|
  {
    if kids == [] || !kids[0].kind.Text? then 0 else 1 + TextRun(kids[1..])
  }

  /** The run covers all children exactly when they are all text. */
  lemma {:induction false} TextRunAll(kids: seq<Node>)
    ensures TextRun(kids) == |kids| <==> AllText(kids)
    decreases |kids|
  {
    if kids != [] {
      TextRunAll(kids[1..]);
      if kids[0].kind.Text? && AllText(kids[1..]) {
        forall k | 0 <= k < |kids|
          ensures kids[k].kind.Text?
        {
          if k > 0 {
            assert kids[k] == kids[1..][k - 1];
          }
        }
      }
    }
  }

  /** One step along the run: a text child extends it, any other child ends it. */
  lemma RunAt(kids: seq<Node>, i: nat)
    requires i < |kids|
    ensures TextRun(kids[i..]) == if kids[i].kind.Text? then 1 + TextRun(kids[i + 1..]) else 0
  {
    assert kids[i..][1..] == kids[i + 1..];
  }

  /** The statements for the children's segments, in order (a child that
      is not text contributes nothing; the handler never reaches one). */
  function CodeSegments(escape: Escaper, kids: seq<Node>): seq<Stmt>
    decreases |kids|
  {
    if kids == [] then []
    else
      var last := kids[|kids| - 1];
      CodeSegments(escape, kids[..|kids| - 1]) + (if last.kind.Text? then SegmentStmts(escape, Utf8(last.kind.value)) else [])
  }

  lemma CodeSegmentsSnoc(escape: Escaper, kids: seq<Node>, i: nat)
    requires i < |kids| && kids[i].kind.Text?
    ensures CodeSegments(escape, kids[..i + 1]) == CodeSegments(escape, kids[..i]) + SegmentStmts(escape, Utf8(kids[i].kind.value))
  {
    assert kids[..i + 1][..i] == kids[..i];
  }

  /** A code span writes its segments on entering and skips its children;
      a child that is not text panics after the segments before it. */
  function RenderCodeSpan(escape: Escaper, root: Node, id: NodeId, entering: bool, s: S.RState): S.Outcome
    requires ValidPath(root, id) && NodeAt(root, id).kind.CodeSpan?
  {
    if !entering then S.Attach(id, s)
    else
      var n := NodeAt(root, id);
      var s1 := S.Open(s, id);
      var nm := El(s1.count);
      var r := TextRun(n.children);
      var body := [CreateElement(nm, "code")] + ElAttrStmts(n.attrs, CodeFilter, nm) + CodeSegments(escape, n.children[..r]);
      S.Outcome(if r == |n.children| then S.SkipChildren else S.Stop(S.Panic), S.Emit(s1, body))
  }
}

/** The version 2 handlers as the object the source builds: the same
    counter, `el` attributes and writer as version 3, with each handler
    method proved to match the function of `V2Spec` it is named after. */
module V2Renderer {
  import opened Bytes
  import opened Ast
  import opened Script
  import opened Attrs
  import opened Writers
  import S = RenderSpec
  import V = V2Spec
  import JsRenderer

  class Renderer {
    const cfg: S.Config
    const escape: V.Escaper
    var count: int
    var el: map<NodeId, Name>
    var out: seq<Stmt>

    function State(): S.RState
      reads this
    {
      S.RState(count, el, out)
    }

    constructor (cfg: S.Config, escape: V.Escaper)
      ensures this.cfg == cfg && this.escape == escape && State() == S.RState(0, map[], [])
    {
      this.cfg := cfg;
      this.escape := escape;
      count := 0;
      el := map[];
      out := [];
    }

    method Open(id: NodeId) returns (nm: Name)
      modifies this
      ensures State() == S.Open(old(State()), id) && nm == El(count)
    {
      count := count + 1;
      nm := El(count);
      el := el[id := nm];
    }

    method Attach(id: NodeId) returns (st: S.Status)
      modifies this
      ensures S.Outcome(st, State()) == S.Attach(id, old(State()))
    {
      if |id| == 0 {
        return S.Stop(S.NoParent);
      }
      if id !in el {
        return S.Stop(S.MissingSelf);
      }
      if Parent(id) !in el {
        return S.Stop(S.MissingParent);
      }
      out := out + [Append(el[Parent(id)], el[id])];
      st := S.Continue;
    }

    method RenderParagraph(root: Node, id: NodeId, entering: bool) returns (st: S.Status)
      requires ValidPath(root, id) && NodeAt(root, id).kind.Paragraph?
      modifies this
      ensures S.Outcome(st, State()) == V.RenderParagraph(root, id, entering, old(State()))
    {
      if !entering {
        st := Attach(id);
        return;
      }
      var nm := Open(id);
      var a := JsRenderer.Renderer.RenderElAttributes(NodeAt(root, id).attrs, ParagraphFilter, nm);
      out := out + ([CreateElement(nm, "p")] + a);
      st := S.Continue;
    }

    method RenderText(root: Node, id: NodeId, entering: bool) returns (st: S.Status)
      requires ValidPath(root, id) && NodeAt(root, id).kind.Text?
      modifies this
      ensures S.Outcome(st, State()) == V.RenderText(cfg, escape, root, id, entering, old(State()))
    {
      if !entering {
        st := Attach(id);
        return;
      }
      var t := NodeAt(root, id).kind;
      var nm := Open(id);
      if t.raw {
        var w := RawWrite(escape, Utf8(t.value));
        out := out + [RawText(w)];
      } else {
        var v := t.value;
        if t.hardBreak || (t.softBreak && cfg.hardWraps) {
          v := v + "\n";
        } else if t.softBreak {
          if cfg.eastAsian && |v| != 0 {
            var next := NextSibling(root, id);
            if next.Some? && next.value.kind.Text? && |next.value.kind.value| != 0 {
              if cfg.keepSoftBreak(v, next.value.kind.value) {
                v := v + "\n";
              }
            }
          } else {
            v := v + "\n";
          }
        }
        out := out + [CreateText(nm, v)];
      }
      st := S.Continue;
    }

    method RenderListItem(root: Node, id: NodeId, entering: bool) returns (st: S.Status)
      requires ValidPath(root, id) && NodeAt(root, id).kind.ListItem?
      modifies this
      ensures S.Outcome(st, State()) == V.RenderListItem(root, id, entering, old(State()))
    {
      if !entering {
        st := Attach(id);
        return;
      }
      var n := NodeAt(root, id);
      var nm := Open(id);
      var a := JsRenderer.Renderer.RenderElAttributes(n.attrs, ListItemFilter, nm);
      var newline := [];
      if |n.children| > 0 && !n.children[0].kind.TextBlock? {
        newline := [SetText(nm, "\n")];
      }
      out := out + ([CreateElement(nm, "li")] + a + newline);
      st := S.Continue;
    }

    method RenderList(root: Node, id: NodeId, entering: bool) returns (st: S.Status)
      requires ValidPath(root, id) && NodeAt(root, id).kind.List?
      modifies this
      ensures S.Outcome(st, State()) == V.RenderList(root, id, entering, old(State()))
    {
      if entering {
        st := EnterList(root, id);
      } else {
        st := Attach(id);
      }
    }

    /** The entering half of a list: the `ol` or `ul` element, its start
        when it does not start at 1, and its attributes. */
    method EnterList(root: Node, id: NodeId) returns (st: S.Status)
      requires ValidPath(root, id) && NodeAt(root, id).kind.List?
      modifies this
      ensures S.Outcome(st, State()) == V.RenderList(root, id, true, old(State()))
    {
      var k := NodeAt(root, id).kind;
      var tag := "ul";
      if k.ordered {
        tag := "ol";
      }
      var nm := Open(id);
      var start := [];
      if k.ordered && k.start != 1 {
        start := [SetProp(nm, "start", Decimal(k.start))];
      }
      var a := JsRenderer.Renderer.RenderElAttributes(NodeAt(root, id).attrs, ListFilter, nm);
      out := out + ([CreateElement(nm, tag)] + start + a);
      st := S.Continue;
    }

    method RenderCodeSpan(root: Node, id: NodeId, entering: bool) returns (st: S.Status)
      requires ValidPath(root, id) && NodeAt(root, id).kind.CodeSpan?
      modifies this
      ensures S.Outcome(st, State()) == V.RenderCodeSpan(escape, root, id, entering, old(State()))
    {
      if entering {
        st := EnterCodeSpan(root, id);
      } else {
        st := Attach(id);
      }
    }

    /** The entering half of a code span: the element, its attributes and
        the segments of its children. */
    method EnterCodeSpan(root: Node, id: NodeId) returns (st: S.Status)
      requires ValidPath(root, id) && NodeAt(root, id).kind.CodeSpan?
      modifies this
      ensures S.Outcome(st, State()) == V.RenderCodeSpan(escape, root, id, true, old(State()))
    {
      var n := NodeAt(root, id);
      var nm := Open(id);
      ghost var s1 := State();
      var a := JsRenderer.Renderer.RenderElAttributes(n.attrs, CodeFilter, nm);
      out := out + ([CreateElement(nm, "code")] + a);
      var ok := WriteSegments(n.children);
      ghost var segs := V.CodeSegments(escape, n.children[..V.TextRun(n.children)]);
      assert out == s1.out + ([CreateElement(nm, "code")] + a + segs);
      st := if ok then S.SkipChildren else S.Stop(S.Panic);
    }

    /** One segment of a code span, through `RawWrite`. */
    method WriteSegment(value: seq<byte>)
      modifies this
      ensures count == old(count) && el == old(el) && out == old(out) + V.SegmentStmts(escape, value)
    {
      if HasSuffix(value, [10]) {
        var w := RawWrite(escape, value[..|value| - 1]);
        out := out + [RawText(w)];
        w := RawWrite(escape, [32]);
        out := out + [RawText(w)];
      } else {
        var w := RawWrite(escape, value);
        out := out + [RawText(w)];
      }
    }

    /** The segments of a code span's children, in order, up to the first
        child that is not text; `ok` tells whether there was none. */
    method WriteSegments(kids: seq<Node>) returns (ok: bool)
      modifies this
      ensures ok <==> V.TextRun(kids) == |kids|
      ensures count == old(count) && el == old(el)
      ensures out == old(out) + V.CodeSegments(escape, kids[..V.TextRun(kids)])
    {
      var i := 0;
      while i < |kids|
        invariant 0 <= i <= |kids| && V.TextRun(kids) == i + V.TextRun(kids[i..])
        invariant count == old(count) && el == old(el)
        invariant out == old(out) + V.CodeSegments(escape, kids[..i])
      {
        V.RunAt(kids, i);
        if !kids[i].kind.Text? {
          return false;
        }
        V.CodeSegmentsSnoc(escape, kids, i);
        WriteSegment(Utf8(kids[i].kind.value));
        i := i + 1;
      }
      assert kids[..i] == kids && kids[i..] == [];
      ok := true;
    }
  }
}
