/** The image-attribute extension: an inline parser that turns a `{...}`
    annotation into an `ImgAttr` node carrying the parsed attributes, and a
    tree transform that copies each annotation's attributes onto the image
    right before it (never overwriting one the image already has) and then
    deletes every annotation.

    The transform works on the tree as a value. The source first collects
    the annotations in document order and then, one after the other, looks
    at each one's current previous sibling and unlinks it. Because an
    annotation only ever touches its own sibling list, and the annotations
    of one list are met from left to right, that is the same as one pass
    over every child list from left to right, in which an annotation is
    folded into the image the pass has just kept, or dropped. */
module ImgAttrs {
  import opened Wrappers
  import opened Ast

  /** The character that makes the parser try an annotation. */
  const Trigger: char := '{'

  /** goldmark's `Attribute`: the value of the first attribute with the name. */
  function Lookup(attrs: seq<Attr>, name: string): Option<AttrValue>
    decreases |attrs|
  {
    if attrs == [] then None
    else if attrs[0].name == name then Some(attrs[0].value)
    else Lookup(attrs[1..], name)
  }

  /** goldmark's `SetAttribute`: replace the value of the first attribute
      with the name, or append the attribute when there is none. */
  function SetAttribute(attrs: seq<Attr>, name: string, value: AttrValue): (r: seq<Attr>)
    decreases |attrs|
  {
    if attrs == [] then [Attr(name, value)]
    else if attrs[0].name == name then [Attr(name, value)] + attrs[1..]
    else [attrs[0]] + SetAttribute(attrs[1..], name, value)
  }

  /** After setting, the name has the new value and every other name keeps
      its own; the list grows exactly when the name was new. */
  lemma {:induction false} SetAttributeLookup(attrs: seq<Attr>, name: string, value: AttrValue)
    ensures Lookup(SetAttribute(attrs, name, value), name) == Some(value)
    ensures forall m :: m != name ==> Lookup(SetAttribute(attrs, name, value), m) == Lookup(attrs, m)
    ensures |SetAttribute(attrs, name, value)| == |attrs| + (if Lookup(attrs, name).None? then 1 else 0)
    decreases |attrs|
  {
    if attrs != [] && attrs[0].name != name {
      SetAttributeLookup(attrs[1..], name, value);
      assert SetAttribute(attrs, name, value)[1..] == SetAttribute(attrs[1..], name, value);
    }
  }

  /** Setting a name the list does not have appends it. */
  lemma {:induction false} SetAttributeAppends(attrs: seq<Attr>, name: string, value: AttrValue)
    requires Lookup(attrs, name).None?
    ensures SetAttribute(attrs, name, value) == attrs + [Attr(name, value)]
    decreases |attrs|
  {
    if attrs != [] {
      SetAttributeAppends(attrs[1..], name, value);
      assert attrs == [attrs[0]] + attrs[1..];
    }
  }

  lemma {:induction false} LookupAppend(attrs: seq<Attr>, a: Attr, m: string)
    ensures Lookup(attrs + [a], m) == if Lookup(attrs, m).Some? then Lookup(attrs, m) else Lookup([a], m)
    decreases |attrs|
  {
    if attrs == [] {
      assert attrs + [a] == [a];
    } else {
      assert (attrs + [a])[1..] == attrs[1..] + [a];
      LookupAppend(attrs[1..], a, m);
    }
  }

  /** The attributes the parser puts on a new annotation node: each parsed
      attribute set in turn. */
  function Parsed(attrs: seq<Attr>): seq<Attr>
    decreases |attrs|
  {
    if attrs == [] then []
    else
      var a := attrs[|attrs| - 1];
      SetAttribute(Parsed(attrs[..|attrs| - 1]), a.name, a.value)
  }

  /** The value the last attribute with the name carries. */
  function LastValue(attrs: seq<Attr>, name: string): Option<AttrValue>
    decreases |attrs|
  {
    if attrs == [] then None
    else if attrs[|attrs| - 1].name == name then Some(attrs[|attrs| - 1].value)
    else LastValue(attrs[..|attrs| - 1], name)
  }

  /** On the new node, every name the parser found carries the value it
      was given last, and no other name is present. */
  lemma {:induction false} ParsedLookup(attrs: seq<Attr>, name: string)
    ensures Lookup(Parsed(attrs), name) == LastValue(attrs, name)
    decreases |attrs|
  {
    if attrs != [] {
      var a := attrs[|attrs| - 1];
      ParsedLookup(attrs[..|attrs| - 1], name);
      SetAttributeLookup(Parsed(attrs[..|attrs| - 1]), a.name, a.value);
    }
  }

  /** `Parse`: nothing when the attribute syntax does not parse (the
      attribute parser itself is a parameter), otherwise a new annotation
      node with each parsed attribute set on it. */
  method Parse(parsed: Option<seq<Attr>>, nid: nat) returns (node: Option<Node>)
    ensures parsed.None? <==> node.None?
    ensures node.Some? ==> node.value == Node(nid, ImgAttr, Parsed(parsed.value), [])
  {
    if parsed.None? {
      return None;
    }
    var attrs := parsed.value;
    var given: seq<Attr> := [];
    for i := 0 to |attrs|
      invariant given == Parsed(attrs[..i])
    {
      assert attrs[..i + 1][..i] == attrs[..i];
      given := SetAttribute(given, attrs[i].name, attrs[i].value);
    }
    assert attrs[..|attrs|] == attrs;
    node := Some(Node(nid, ImgAttr, given, []));
  }

  /** An annotation's attributes copied onto an image: each name the image
      does not have yet is added, in order; the others are ignored. */
  function Merge(img: seq<Attr>, extra: seq<Attr>): seq<Attr>
    decreases |extra|
  {
    if extra == [] then img
    else
      var m := Merge(img, extra[..|extra| - 1]);
      var a := extra[|extra| - 1];
      if Lookup(m, a.name).None? then m + [a] else m
  }

  /** Merging keeps every attribute the image had, in place, so none is
      overwritten; a name the image lacked gets the value of its first
      occurrence in the annotation, exactly as written there. */
  lemma {:induction false} MergeKeeps(img: seq<Attr>, extra: seq<Attr>, name: string)
    ensures |img| <= |Merge(img, extra)| && Merge(img, extra)[..|img|] == img
    ensures Lookup(img, name).Some? ==> Lookup(Merge(img, extra), name) == Lookup(img, name)
    ensures Lookup(img, name).None? ==> Lookup(Merge(img, extra), name) == Lookup(extra, name)
    decreases |extra|
  {
    if extra != [] {
      var init := extra[..|extra| - 1];
      var m := Merge(img, init);
      var a := extra[|extra| - 1];
      MergeKeeps(img, init, name);
      LookupAppend(m, a, name);
      LookupAppend(init, a, name);
      assert init + [a] == extra;
      if Lookup(m, a.name).None? {
        assert (m + [a])[..|img|] == m[..|img|];
      }
      if Lookup(img, name).None? && Lookup(init, name).None? && a.name == name {
        assert Lookup([a], name) == Some(a.value);
      }
    }
  }

  /** Copying one annotation: `prev.Attribute` tested before each
      `prev.SetAttribute`. */
  method CopyAttributes(img: seq<Attr>, extra: seq<Attr>) returns (r: seq<Attr>)
    ensures r == Merge(img, extra)
  {
    r := img;
    for j := 0 to |extra|
      invariant r == Merge(img, extra[..j])
    {
      var a := extra[j];
      assert extra[..j + 1][..j] == extra[..j];
      if Lookup(r, a.name).None? {
        SetAttributeAppends(r, a.name, a.value);
        r := SetAttribute(r, a.name, a.value);
      }
    }
    assert extra[..|extra|] == extra;
  }

  /** The transformed node: its kind, identity and attributes as they
      were, its children passed through `TransformKids`. */
  function TransformNode(n: Node): Node
    decreases n, |n.children| + 1
  {
    n.(children := TransformKids(n, |n.children|))
  }

  /** The first `i` children of `n`, transformed: an annotation is folded
      into the image kept just before it, or dropped when there is none;
      every other child is kept, transformed. */
  function TransformKids(n: Node, i: nat): seq<Node>
    requires i <= |n.children|
    decreases n, i
  {
    if i == 0 then []
    else
      var done := TransformKids(n, i - 1);
      var c := n.children[i - 1];
      if c.kind.ImgAttr? then
        if |done| > 0 && done[|done| - 1].kind.Image? then
          var img := done[|done| - 1];
          done[..|done| - 1] + [img.(attrs := Merge(img.attrs, c.attrs))]
        else done
      else done + [TransformNode(c)]
  }

  /** `Transform` on the subtree at `n`: one pass over its children. */
  method Transform(n: Node) returns (r: Node)
    ensures r == TransformNode(n)
    decreases n
  {
    var kids: seq<Node> := [];
    for i := 0 to |n.children|
      invariant kids == TransformKids(n, i)
    {
      var c := n.children[i];
      if c.kind.ImgAttr? {
        if |kids| > 0 && kids[|kids| - 1].kind.Image? {
          var img := kids[|kids| - 1];
          var merged := CopyAttributes(img.attrs, c.attrs);
          kids := kids[..|kids| - 1] + [img.(attrs := merged)];
        }
      } else {
        var t := Transform(c);
        kids := kids + [t];
      }
    }
    r := n.(children := kids);
  }

  /** No annotation anywhere in the tree. */
  predicate Clean(n: Node)
    decreases n
  {
    !n.kind.ImgAttr? && forall k :: 0 <= k < |n.children| ==> Clean(n.children[k])
  }

  /** After the transform no annotation node is left. */
  lemma {:induction false} TransformClean(n: Node)
    requires !n.kind.ImgAttr?
    ensures Clean(TransformNode(n))
    decreases n, |n.children| + 1
  {
    KidsClean(n, |n.children|);
  }

  lemma {:induction false} KidsClean(n: Node, i: nat)
    requires i <= |n.children|
    ensures forall k :: 0 <= k < |TransformKids(n, i)| ==> Clean(TransformKids(n, i)[k])
    decreases n, i
  {
    if i > 0 {
      var done := TransformKids(n, i - 1);
      var c := n.children[i - 1];
      KidsClean(n, i - 1);
      if c.kind.ImgAttr? {
        if |done| > 0 && done[|done| - 1].kind.Image? {
          var img := done[|done| - 1];
          assert Clean(img);
          assert Clean(img.(attrs := Merge(img.attrs, c.attrs)));
        }
      } else {
        TransformClean(c);
      }
    }
  }

  /** The children that are not annotations, in order. */
  function Survivors(kids: seq<Node>): seq<Node>
    decreases |kids|
  {
    if kids == [] then []
    else Survivors(kids[..|kids| - 1]) + (if kids[|kids| - 1].kind.ImgAttr? then [] else [kids[|kids| - 1]])
  }

  /** A kept child: the same node with its children transformed; an image
      may have gained attributes after its own, any other node has the
      same attributes. */
  predicate Corresponds(orig: Node, res: Node)
  {
    res.id == orig.id && res.kind == orig.kind &&
    res.children == TransformKids(orig, |orig.children|) &&
    |orig.attrs| <= |res.attrs| && res.attrs[..|orig.attrs|] == orig.attrs &&
    (!orig.kind.Image? ==> res.attrs == orig.attrs)
  }

  /** Merging an annotation into a kept image keeps it corresponding. */
  lemma MergedCorresponds(o: Node, img: Node, extra: seq<Attr>)
    requires Corresponds(o, img) && img.kind.Image?
    ensures Corresponds(o, img.(attrs := Merge(img.attrs, extra)))
  {
    MergeKeeps(img.attrs, extra, "");
    var m := Merge(img.attrs, extra);
    assert m[..|o.attrs|] == m[..|img.attrs|][..|o.attrs|];
  }

  lemma SurvivorsSnoc(kids: seq<Node>, i: nat)
    requires 0 < i <= |kids|
    ensures Survivors(kids[..i]) ==
      Survivors(kids[..i - 1]) + (if kids[i - 1].kind.ImgAttr? then [] else [kids[i - 1]])
  {
    assert kids[..i][..i - 1] == kids[..i - 1];
  }

  /** Each result child corresponds to the original at the same place. */
  predicate AllCorrespond(sv: seq<Node>, r: seq<Node>)
  {
    |r| == |sv| && forall k :: 0 <= k < |r| ==> Corresponds(sv[k], r[k])
  }

  /** A node that is not an annotation is kept as its transform. */
  lemma TransformCorresponds(c: Node)
    ensures Corresponds(c, TransformNode(c))
  {
    var t := TransformNode(c);
    assert t.attrs == c.attrs && t.children == TransformKids(c, |c.children|);
  }

  lemma KeepCorresponds(sv: seq<Node>, done: seq<Node>, c: Node, t: Node)
    requires AllCorrespond(sv, done) && Corresponds(c, t)
    ensures AllCorrespond(sv + [c], done + [t])
  {
    var r := done + [t];
    assert forall k :: 0 <= k < |r| - 1 ==> r[k] == done[k] && (sv + [c])[k] == sv[k];
  }

  lemma MergeLastCorresponds(sv: seq<Node>, done: seq<Node>, extra: seq<Attr>)
    requires AllCorrespond(sv, done) && |done| > 0 && done[|done| - 1].kind.Image?
    ensures var img := done[|done| - 1];
      AllCorrespond(sv, done[..|done| - 1] + [img.(attrs := Merge(img.attrs, extra))])
  {
    var img := done[|done| - 1];
    MergedCorresponds(sv[|sv| - 1], img, extra);
    var r := done[..|done| - 1] + [img.(attrs := Merge(img.attrs, extra))];
    assert forall k :: 0 <= k < |r| - 1 ==> r[k] == done[k];
  }

  /** Exactly the annotations are removed: the transformed children are
      the other children, in order, each corresponding to the original. */
  lemma {:induction false} KidsCorrespond(n: Node, i: nat)
    requires i <= |n.children|
    ensures AllCorrespond(Survivors(n.children[..i]), TransformKids(n, i))
    decreases i
  {
    if i > 0 {
      var done := TransformKids(n, i - 1);
      var c := n.children[i - 1];
      var sv := Survivors(n.children[..i - 1]);
      KidsCorrespond(n, i - 1);
      SurvivorsSnoc(n.children, i);
      if c.kind.ImgAttr? {
        if |done| > 0 && done[|done| - 1].kind.Image? {
          MergeLastCorresponds(sv, done, c.attrs);
        }
      } else {
        TransformCorresponds(c);
        KeepCorresponds(sv, done, c, TransformNode(c));
      }
    }
  }
}
