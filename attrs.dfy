/** Attribute output shared by both renderers: the per-element allow-lists,
    the `data-` escape hatch, value formatting, and the two writers
    (`RenderElAttributes`, one JavaScript property assignment per attribute,
    and the older `RenderAttributes`, HTML ` name="value"` pairs). */
module Attrs {
  import opened Ast
  import opened Script

  /** The allow-list an element's attributes are checked against: the
      global HTML attributes, plus a few per element. `NoFilter` is the
      nil filter, which lets every attribute through. */
  datatype Filter =
    | NoFilter
    | HeadingFilter | BlockquoteFilter | ListFilter | ListItemFilter | ParagraphFilter
    | ThematicFilter | LinkFilter | CodeFilter | EmphasisFilter | ImageFilter

  predicate IsGlobalAttr(name: string)
  {
    name in {
      "accesskey", "autocapitalize", "autofocus", "class", "contenteditable",
      "dir", "draggable", "enterkeyhint", "hidden", "id", "inert", "inputmode",
      "is", "itemid", "itemprop", "itemref", "itemscope", "itemtype", "lang",
      "part", "role", "slot", "spellcheck", "style", "tabindex", "title", "translate"
    }
  }

  /** The element-specific names a filter adds to the global ones. */
  predicate IsExtraAttr(f: Filter, name: string)
  {
    match f
    case BlockquoteFilter => name == "cite"
    case ListFilter => name in {"start", "reversed", "type"}
    case ListItemFilter => name == "value"
    case ThematicFilter => name in {"align", "color", "noshade", "size", "width"}
    case LinkFilter => name in {"download", "hreflang", "media", "ping", "referrerpolicy", "rel", "shape", "target"}
    case ImageFilter => name in {
      "align", "border", "crossorigin", "decoding", "height", "importance", "intrinsicsize",
      "ismap", "loading", "referrerpolicy", "sizes", "srcset", "usemap", "width"
    }
    case _ => false
  }

  predicate IsDataAttr(name: string)
  {
    |name| >= 5 && name[..5] == "data-"
  }

  /** An attribute is written when there is no filter, when the filter
      lists it, or when its name starts with `data-`. */
  predicate Passes(f: Filter, name: string)
  {
    f.NoFilter? || IsGlobalAttr(name) || IsExtraAttr(f, name) || IsDataAttr(name)
  }

  /** The attributes that pass the filter, in their original order. */
  function Kept(attrs: seq<Attr>, f: Filter): (r: seq<Attr>)
    ensures |r| <= |attrs|
    ensures forall a :: a in r ==> a in attrs
    decreases |attrs|
  {
    if attrs == [] then []
    else
      var init := attrs[..|attrs| - 1];
      var last := attrs[|attrs| - 1];
      assert attrs == init + [last];
      Kept(init, f) + (if Passes(f, last.name) then [last] else [])
  }

  /** Exactly the attributes that pass the filter are kept. */
  lemma {:induction false} KeptExact(attrs: seq<Attr>, f: Filter)
    ensures forall a :: a in Kept(attrs, f) <==> a in attrs && Passes(f, a.name)
    decreases |attrs|
  {
    if attrs != [] {
      var init := attrs[..|attrs| - 1];
      KeptExact(init, f);
      assert attrs == init + [attrs[|attrs| - 1]];
    }
  }

  /** Without a filter every attribute is kept, in order. */
  lemma {:induction false} NoFilterKeepsAll(attrs: seq<Attr>)
    ensures Kept(attrs, NoFilter) == attrs
    decreases |attrs|
  {
    if attrs != [] {
      NoFilterKeepsAll(attrs[..|attrs| - 1]);
      assert attrs == attrs[..|attrs| - 1] + [attrs[|attrs| - 1]];
    }
  }

  /** Decimal digits of a natural number, as `%d` prints them. */
  function NatDigits(n: nat): (r: string)
    ensures |r| >= 1
    ensures forall i :: 0 <= i < |r| ==> '0' <= r[i] <= '9'
    decreases n
  {
    if n < 10 then [('0' as int + n) as char]
    else NatDigits(n / 10) + [('0' as int + n % 10) as char]
  }

  /** `fmt.Sprintf("%d", i)`. */
  function Decimal(i: int): string
  {
    if i < 0 then "-" + NatDigits(-i) else NatDigits(i)
  }

  /** The value of a string of decimal digits. */
  function DigitsValue(s: string): nat
    requires forall i :: 0 <= i < |s| ==> '0' <= s[i] <= '9'
    decreases |s|
  {
    if s == [] then 0 else DigitsValue(s[..|s| - 1]) * 10 + (s[|s| - 1] as int - '0' as int)
  }

  lemma {:induction false} NatDigitsValue(n: nat)
    ensures DigitsValue(NatDigits(n)) == n
    decreases n
  {
    if n >= 10 {
      var s := NatDigits(n);
      assert s[..|s| - 1] == NatDigits(n / 10);
      NatDigitsValue(n / 10);
    }
  }

  lemma DecimalSign(i: int)
    ensures Decimal(i)[0] == '-' <==> i < 0
  {
  }

  /** Different integers print differently. */
  lemma DecimalInjective(a: int, b: int)
    requires Decimal(a) == Decimal(b)
    ensures a == b
  {
    DecimalSign(a);
    DecimalSign(b);
    if a < 0 {
      assert NatDigits(-a) == Decimal(a)[1..];
      assert NatDigits(-b) == Decimal(b)[1..];
      NatDigitsValue(-a);
      NatDigitsValue(-b);
    } else {
      NatDigitsValue(a);
      NatDigitsValue(b);
    }
  }

  /** The text `RenderElAttributes` writes for a value: bytes and strings
      verbatim, integers in decimal, anything else empty. */
  function FormatValue(v: AttrValue): string
  {
    match v
    case BytesValue(b) => b
    case StringValue(s) => s
    case IntValue(i) => Decimal(i)
    case OtherValue => ""
  }

  /** The text `RenderAttributes` escapes for a value: integers are not
      converted and give the empty text. */
  function HtmlValue(v: AttrValue): string
  {
    match v
    case BytesValue(b) => b
    case StringValue(s) => s
    case _ => ""
  }

  /** The property assignments `RenderElAttributes` emits on element `nm`. */
  function ElAttrStmts(attrs: seq<Attr>, f: Filter, nm: Name): (r: seq<Stmt>)
    ensures |r| == |Kept(attrs, f)|
  {
    var k := Kept(attrs, f);
    seq(|k|, i requires 0 <= i < |k| => SetProp(nm, k[i].name, FormatValue(k[i].value)))
  }

  /** One more attribute adds at most its own assignment, at the end. */
  lemma ElAttrStmtsSnoc(attrs: seq<Attr>, i: nat, f: Filter, nm: Name)
    requires i < |attrs|
    ensures ElAttrStmts(attrs[..i + 1], f, nm) == ElAttrStmts(attrs[..i], f, nm) +
      (if Passes(f, attrs[i].name) then [SetProp(nm, attrs[i].name, FormatValue(attrs[i].value))] else [])
  {
    assert attrs[..i + 1][..i] == attrs[..i];
    var k := Kept(attrs[..i], f);
    if Passes(f, attrs[i].name) {
      assert Kept(attrs[..i + 1], f) == k + [attrs[i]];
    } else {
      assert Kept(attrs[..i + 1], f) == k;
    }
  }

  /** One HTML attribute pair, with the value passed through the HTML escaper. */
  function HtmlPair(a: Attr, escape: string -> string): string
  {
    " " + a.name + "=\"" + escape(HtmlValue(a.value)) + "\""
  }

  function HtmlPairs(k: seq<Attr>, escape: string -> string): string
    decreases |k|
  {
    if k == [] then "" else HtmlPairs(k[..|k| - 1], escape) + HtmlPair(k[|k| - 1], escape)
  }

  /** One more attribute adds its pair at the end, when it passes. */
  lemma PairsSnoc(attrs: seq<Attr>, i: nat, f: Filter, escape: string -> string)
    requires i < |attrs|
    ensures HtmlPairs(Kept(attrs[..i + 1], f), escape) ==
      HtmlPairs(Kept(attrs[..i], f), escape) + (if Passes(f, attrs[i].name) then HtmlPair(attrs[i], escape) else "")
  {
    var k := Kept(attrs[..i], f);
    assert attrs[..i + 1][..i] == attrs[..i];
    if Passes(f, attrs[i].name) {
      assert Kept(attrs[..i + 1], f) == k + [attrs[i]];
      assert (k + [attrs[i]])[..|k|] == k;
    } else {
      assert Kept(attrs[..i + 1], f) == k;
    }
  }

  /** `RenderAttributes` (older renderer): walks the attribute list, skips
      what the filter refuses and writes ` name="escaped value"` for the rest. */
  method RenderAttributes(attrs: seq<Attr>, f: Filter, escape: string -> string) returns (w: string)
    ensures w == HtmlPairs(Kept(attrs, f), escape)
  {
    w := "";
    var i := 0;
    while i < |attrs|
      invariant 0 <= i <= |attrs|
      invariant w == HtmlPairs(Kept(attrs[..i], f), escape)
    {
      var a := attrs[i];
      PairsSnoc(attrs, i, f, escape);
      if !Passes(f, a.name) {
        i := i + 1;
        continue;
      }
      w := w + HtmlPair(a, escape);
      i := i + 1;
    }
    assert attrs[..i] == attrs;
  }

  /** The statements name exactly the attributes that pass the filter:
      each statement assigns a passing attribute of the node to `nm`, and
      every passing attribute is assigned. */
  lemma ElAttrStmtsExact(attrs: seq<Attr>, f: Filter, nm: Name)
    ensures forall st :: st in ElAttrStmts(attrs, f, nm) ==>
      exists a :: a in attrs && Passes(f, a.name) && st == SetProp(nm, a.name, FormatValue(a.value))
    ensures forall a :: a in attrs && Passes(f, a.name) ==>
      SetProp(nm, a.name, FormatValue(a.value)) in ElAttrStmts(attrs, f, nm)
  {
    var k := Kept(attrs, f);
    var r := ElAttrStmts(attrs, f, nm);
    KeptExact(attrs, f);
    forall a | a in attrs && Passes(f, a.name)
      ensures SetProp(nm, a.name, FormatValue(a.value)) in r
    {
      var i :| 0 <= i < |k| && k[i] == a;
      assert r[i] == SetProp(nm, a.name, FormatValue(a.value));
    }
    forall st | st in r
      ensures exists a :: a in attrs && Passes(f, a.name) && st == SetProp(nm, a.name, FormatValue(a.value))
    {
      var i :| 0 <= i < |r| && r[i] == st;
      assert k[i] in k;
    }
  }

  /** Attribute statements only touch `nm` and declare nothing, so they are
      well scoped once `nm` is declared. */
  lemma ElAttrStmtsScoped(known: set<Name>, attrs: seq<Attr>, f: Filter, nm: Name)
    requires nm in known
    ensures WellScoped(known, ElAttrStmts(attrs, f, nm))
    ensures Decls(ElAttrStmts(attrs, f, nm)) == []
  {
    WellScopedPlain(known, ElAttrStmts(attrs, f, nm));
  }

  /** `data-` attributes pass every filter. */
  lemma DataAttrsAlwaysPass(f: Filter, name: string)
    requires IsDataAttr(name)
    ensures Passes(f, name)
  {
  }

  /** The renderer's private `el` attribute is refused by every filter, so
      it never appears in the output. */
  lemma ElNeverPasses()
    ensures !Passes(HeadingFilter, "el") && !Passes(BlockquoteFilter, "el")
    ensures !Passes(ListFilter, "el") && !Passes(ListItemFilter, "el")
    ensures !Passes(ParagraphFilter, "el") && !Passes(ThematicFilter, "el")
    ensures !Passes(LinkFilter, "el") && !Passes(CodeFilter, "el")
    ensures !Passes(EmphasisFilter, "el") && !Passes(ImageFilter, "el")
  {
  }

  /** An `href` attribute on a link is dropped: the destination is only
      written through the URL guard. */
  lemma HrefNotAllowedOnLinks()
    ensures !Passes(LinkFilter, "href") && !Passes(ImageFilter, "src")
  {
  }
}
