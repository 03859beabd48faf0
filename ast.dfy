/** The part of a goldmark syntax tree the renderers look at: node kinds with
    the fields the handlers read, attribute lists, and paths that address a
    node from the root. */
module Ast {
  import opened Wrappers
  import opened Bytes

  /** An attribute value as goldmark stores it: raw bytes, a string, an int,
      or anything else (which every renderer turns into the empty text). */
  datatype AttrValue = BytesValue(b: string) | StringValue(s: string) | IntValue(i: int) | OtherValue

  datatype Attr = Attr(name: string, value: AttrValue)

  /** Node kinds the core registers handlers for, with the fields those
      handlers read; `Unregistered` stands for every other kind. */
  datatype Kind =
    | Document
    | Heading(level: int)
    | Blockquote
    | CodeBlock(lines: seq<string>)
    | FencedCodeBlock(language: Option<string>, lines: seq<string>)
    | HTMLBlock(lines: seq<string>, closure: Option<string>)
    | List(ordered: bool, start: int)
    | ListItem
    | Paragraph
    | TextBlock
    | ThematicBreak
    | AutoLink(url: seq<byte>, email: bool)
    | CodeSpan
    | Emphasis(level: int)
    | Link(dest: seq<byte>, title: Option<string>)
    | Image(dest: seq<byte>, title: Option<string>)
    | RawHTML(segments: seq<string>)
    | Text(value: string, raw: bool, softBreak: bool, hardBreak: bool)
    | StringNode(value: string)
    | ImgAttr
    | Unregistered

  /** A node; `id` is its identity (the node's address in the source), which only
      the image-attribute transformer needs. */
  datatype Node = Node(id: nat, kind: Kind, attrs: seq<Attr>, children: seq<Node>)

  /** A node is addressed by the child indices on the way down from the root. */
  type NodeId = seq<nat>

  predicate ValidPath(root: Node, p: NodeId)
    decreases |p|, 0
  {
    p == [] || (ValidPath(root, p[..|p| - 1]) && p[|p| - 1] < |NodeAt(root, p[..|p| - 1]).children|)
  }

  function NodeAt(root: Node, p: NodeId): Node
    requires ValidPath(root, p)
    decreases |p|, 1
  {
    if p == [] then root else NodeAt(root, p[..|p| - 1]).children[p[|p| - 1]]
  }

  function Parent(p: NodeId): NodeId
    requires |p| > 0
  {
    p[..|p| - 1]
  }

  lemma ChildPath(root: Node, p: NodeId, i: nat)
    requires ValidPath(root, p) && i < |NodeAt(root, p).children|
    ensures ValidPath(root, p + [i])
    ensures NodeAt(root, p + [i]) == NodeAt(root, p).children[i]
    ensures Parent(p + [i]) == p
  {
    assert (p + [i])[..|p|] == p;
  }

  /** The next sibling of the node at `p`, if any. */
  function NextSibling(root: Node, p: NodeId): Option<Node>
    requires ValidPath(root, p)
  {
    if p == [] then None
    else
      var parent := NodeAt(root, Parent(p));
      var k := p[|p| - 1];
      if k + 1 < |parent.children| then Some(parent.children[k + 1]) else None
  }

  /** Some proper ancestor of the node at `p` is an image. */
  predicate BelowImage(root: Node, p: NodeId)
    requires ValidPath(root, p)
    decreases |p|
  {
    p != [] && (NodeAt(root, Parent(p)).kind.Image? || BelowImage(root, Parent(p)))
  }
}
