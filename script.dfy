/** The JavaScript the renderers emit, as a sequence of abstract statements.
    Each statement fixes the identifiers it declares and the ones it refers
    to; the concrete JavaScript spelling is not modelled. */
module Script {
  import opened Bytes

  /** A JavaScript identifier: the container `mdDiv`, `el<N>` from the
      running counter, `el<N>Span<K>` for the text nodes of a code span, or
      the fixed `codeStr` that holds a code block's text. */
  datatype Name = MdDiv | El(n: int) | Span(owner: int, k: int) | CodeStr

  datatype Stmt =
    | Preamble                                   // declares mdDivObj and mdDiv
    | Trailer                                    // returns mdDiv, closes the function
    | CreateElement(id: Name, tag: string)       // let id = document.createElement(tag)
    | CreateText(id: Name, text: string)         // a text node holding `text`
    | BindCode(text: string)                     // const codeStr = text
    | CodeText(id: Name)                         // a text node holding codeStr
    | SetText(id: Name, text: string)            // id.textContent = text
    | SetProp(id: Name, prop: string, value: string)
    // id.prop = the URL, percent-escaped (resolving references or not) and
    // HTML-escaped, optionally behind "mailto:"
    | SetURL(id: Name, prop: string, url: seq<byte>, resolveRef: bool, mailto: bool)
    | ApplyStyle(id: Name, style: string)        // Object.assign(id.style, mdStyle.<style>)
    | SetInnerHTML(id: Name, html: string)
    | OmittedComment                             // "//<!-- raw HTML omitted -->" and a newline
    | OmittedMarker                              // "<!-- raw HTML omitted -->", no newline
    | SetAlt(id: Name, content: seq<Stmt>)       // id.alt = "<the statements, as text>"
    | Trace(child: Name, parent: Name)           // a comment naming child and parent
    | Append(parent: Name, child: Name)          // parent.appendChild(child)
    | RawText(bytes: seq<byte>)                  // bytes written verbatim (older renderer)

  /** The identifiers a statement declares (at most one). */
  function DeclOf(st: Stmt): (r: seq<Name>)
    ensures |r| <= 1
  {
    match st
    case Preamble => [MdDiv]
    case CreateElement(id, _) => [id]
    case CreateText(id, _) => [id]
    case BindCode(_) => [CodeStr]
    case CodeText(id) => [id]
    case _ => []
  }

  /** The identifiers a statement refers to. Statements inside an alt text
      are characters of a string literal and refer to nothing. */
  function Uses(st: Stmt): set<Name>
  {
    match st
    case Trailer => {MdDiv}
    case CodeText(_) => {CodeStr}
    case SetText(id, _) => {id}
    case SetProp(id, _, _) => {id}
    case SetURL(id, _, _, _, _) => {id}
    case ApplyStyle(id, _) => {id}
    case SetInnerHTML(id, _) => {id}
    case SetAlt(id, _) => {id}
    case Trace(c, p) => {c, p}
    case Append(p, c) => {p, c}
    case _ => {}
  }

  /** The identifiers declared by a script, in order. */
  function Decls(out: seq<Stmt>): seq<Name>
  {
    if out == [] then [] else DeclOf(out[0]) + Decls(out[1..])
  }

  /** The identifier a statement declares, as a set. */
  function DeclSet(st: Stmt): (r: set<Name>)
    ensures forall n :: n in r <==> n in DeclOf(st)
  {
    if DeclOf(st) == [] then {} else {DeclOf(st)[0]}
  }

  /** The identifiers a script declares. */
  function Known(out: seq<Stmt>): set<Name>
    decreases |out|
  {
    if out == [] then {} else DeclSet(out[0]) + Known(out[1..])
  }

  /** Every statement only refers to identifiers in `known` or declared by
      an earlier statement. */
  predicate WellScoped(known: set<Name>, out: seq<Stmt>)
    decreases |out|
  {
    out == [] ||
    (Uses(out[0]) <= known && WellScoped(known + DeclSet(out[0]), out[1..]))
  }

  predicate NoDuplicates(ns: seq<Name>)
  {
    forall i, j :: 0 <= i < j < |ns| ==> ns[i] != ns[j]
  }

  lemma {:induction false} DeclsAppend(a: seq<Stmt>, b: seq<Stmt>)
    ensures Decls(a + b) == Decls(a) + Decls(b)
  {
    if a != [] {
      assert (a + b)[1..] == a[1..] + b;
      DeclsAppend(a[1..], b);
    } else {
      assert a + b == b;
    }
  }

  lemma {:induction false} KnownAppend(a: seq<Stmt>, b: seq<Stmt>)
    ensures Known(a + b) == Known(a) + Known(b)
  {
    if a != [] {
      assert (a + b)[1..] == a[1..] + b;
      KnownAppend(a[1..], b);
    } else {
      assert a + b == b;
    }
  }

  /** The declared identifiers are those listed by `Decls`. */
  lemma {:induction false} KnownDecls(out: seq<Stmt>)
    ensures forall n :: n in Known(out) <==> n in Decls(out)
  {
    if out != [] {
      KnownDecls(out[1..]);
    }
  }

  lemma {:induction false} WellScopedAppend(known: set<Name>, a: seq<Stmt>, b: seq<Stmt>)
    ensures WellScoped(known, a + b) <==> WellScoped(known, a) && WellScoped(known + Known(a), b)
    decreases |a|
  {
    if a == [] {
      assert a + b == b;
      assert known + Known(a) == known;
    } else {
      assert (a + b)[0] == a[0];
      assert (a + b)[1..] == a[1..] + b;
      WellScopedAppend(known + DeclSet(a[0]), a[1..], b);
      assert known + DeclSet(a[0]) + Known(a[1..]) == known + Known(a);
    }
  }

  /** A block of statements that declare nothing and refer only to known
      identifiers is well scoped. */
  lemma {:induction false} WellScopedPlain(known: set<Name>, xs: seq<Stmt>)
    requires forall i :: 0 <= i < |xs| ==> Uses(xs[i]) <= known && DeclOf(xs[i]) == []
    ensures WellScoped(known, xs)
    ensures Decls(xs) == [] && Known(xs) == {}
    decreases |xs|
  {
    if xs != [] {
      assert known + DeclSet(xs[0]) == known;
      WellScopedPlain(known, xs[1..]);
    }
  }

  /** Growing the set of known identifiers keeps a script well scoped. */
  lemma {:induction false} WellScopedMono(k1: set<Name>, k2: set<Name>, xs: seq<Stmt>)
    requires k1 <= k2 && WellScoped(k1, xs)
    ensures WellScoped(k2, xs)
    decreases |xs|
  {
    if xs != [] {
      WellScopedMono(k1 + DeclSet(xs[0]), k2 + DeclSet(xs[0]), xs[1..]);
    }
  }

  /** Small scripts used by the renderers: single statements. */
  lemma OneStmt(known: set<Name>, st: Stmt)
    ensures WellScoped(known, [st]) <==> Uses(st) <= known
    ensures Decls([st]) == DeclOf(st)
    ensures Known([st]) == DeclSet(st)
  {
    assert [st][1..] == [];
  }
}
