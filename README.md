# A verified model of the goldmark-to-JavaScript renderers

The repository turns markdown into a JavaScript program that builds the
document with DOM calls. goldmark parses the markdown into a tree. A
renderer then walks that tree depth-first. For each node it writes
statements that do three things: create an element or text node named
`el<n>`, set properties, styles and attributes on it, and append it to its
parent's element. Each node remembers its element's name in an `el`
attribute.

The model covers four parts of the source:

- **The version 3 renderer** (`rendererV3/md2jsV3.go`). This covers every
  node handler, the inline-text aggregator, the attribute writer, the
  escaping writers, the URL guard and the front-matter/summary splitter.
- **Five handlers of the version 2 renderer** (`rendererV2/md2jsV2.go`):
  paragraph, text, list item, list and code span.
- **The front-matter helpers** `GetYaml` and `GetSummary`
  (`rendererV2/mdExt.go`).
- **The image-attribute extension** (`imgAttr/imgAttr.go`). Its parser
  creates annotation nodes from `{...}`. Its transform copies an
  annotation's attributes onto the image just before it and then removes
  the annotation. Its renderer skips annotations.

How the model is organised:

- **Values.** A tree node is a value (`Ast.Node`). A node is identified by
  its path from the root. The generated script is a sequence of `Script.Stmt`
  values, one per statement the source writes, rather than the
  JavaScript's text.
- **Renderer state.** This is the element counter, the map from node to
  element name (the `el` attributes) and the statements written so far
  (`RenderSpec.RState`).
- **Specification functions.** Every handler is a function from an old state
  to an outcome. The outcome is a walk status plus the new state
  (`RenderSpec`, `V2Spec`). goldmark's walk is `RenderSpec.Walk`.
- **Classes.** The renderer object (`JsRenderer.Renderer`,
  `V2Renderer.Renderer`) owns those three fields and updates them in
  place, as the Go `Renderer` does. Each handler method is proved to leave
  exactly the state that its specification function describes.
- **Lemmas.** These state what the output means:
  - every element is declared before it is used (`WalkScope.RenderScoped`);
  - link and image URLs pass the guard;
  - the escaping writers' byte-level results;
  - the front-matter split points;
  - the annotation transform leaves no annotation behind and never
    overwrites an image's own attribute.

Supplied from outside the model:

- **Parameters:**
  - the East Asian soft-line-break decision (`Config.keepSoftBreak`);
  - the byte escaper used by `RawWrite`;
  - the result of the attribute-syntax parser used by the image-attribute
    parser.
- **Not modelled:**
  - text written to the console;
  - the clock and file I/O of the drivers.

Integers are unbounded: the counters and list start numbers of the source are
Go `int`s, and the model does not bound them.

## Model

| member | source | states |
|---|---|---|
| Attrs.Kept | rendererV3/md2jsV3.go:1597-1602 | every kept attribute is one of the node's attributes, and no more attributes are kept than the node has |
| Attrs.KeptExact | rendererV3/md2jsV3.go:1597-1602 | an attribute is kept exactly when it is one of the node's attributes and there is no filter, the filter contains its name, or the name starts with `data-` |
| Attrs.NoFilterKeepsAll | rendererV3/md2jsV3.go:1597 | with a nil filter every attribute is kept, in order |
| Attrs.DataAttrsAlwaysPass | rendererV3/md2jsV3.go:1598-1601 | every `data-` attribute passes every filter |
| Attrs.HrefNotAllowedOnLinks | rendererV3/md2jsV3.go:1150-1160 | `href` is not in the link filter and `src` not in the image filter, so attributes cannot replace the guarded URL |
| Attrs.ElNeverPasses | rendererV3/md2jsV3.go:349-362 | none of the named element filters lets an input attribute named `el` through |
| Attrs.NatDigits | rendererV3/md2jsV3.go:1612-1613 | `%d` of a natural number is a non-empty run of decimal digits |
| Attrs.NatDigitsValue | rendererV3/md2jsV3.go:1612-1613 | the digits `%d` writes read back as the number |
| Attrs.DecimalSign | rendererV3/md2jsV3.go:1612-1613 | `%d` starts with a minus sign exactly for negative numbers |
| Attrs.DecimalInjective | rendererV3/md2jsV3.go:1612-1613 | different numbers print differently |
| Attrs.ElAttrStmts | rendererV3/md2jsV3.go:1596-1618 | the attribute writer writes one property assignment per kept attribute |
| Attrs.ElAttrStmtsExact | rendererV3/md2jsV3.go:1596-1618 | every written statement sets a kept attribute's formatted value on the element, and every kept attribute is written |
| Attrs.ElAttrStmtsSnoc | rendererV3/md2jsV3.go:1597-1617 | the statements for a prefix of the attributes grow by the next attribute's statement, if it passes |
| Attrs.ElAttrStmtsScoped | rendererV3/md2jsV3.go:1596-1618 | attribute statements use only the element's name and declare nothing |
| Attrs.RenderAttributes | rendererV2/md2jsV2.go:1136-1157 | the HTML attribute writer writes `name="value"` pairs for exactly the kept attributes, in order, values escaped (for the nil filter that is every attribute, by `Attrs.NoFilterKeepsAll`) |
| JsRenderer.Renderer.RenderElAttributes | rendererV3/md2jsV3.go:1596-1618 | the loop writes exactly the statements `Attrs.ElAttrStmts` describes, for a named filter or the nil filter |
| Bytes.LowerIdempotent | rendererV3/md2jsV3.go:1815-1817 | lowering twice is lowering once |
| Bytes.HasPrefixFoldOfLower | rendererV3/md2jsV3.go:1815-1817 | the case-insensitive prefix test gives the same answer on a lowered input |
| Bytes.ExactPrefixIsFolded | rendererV3/md2jsV3.go:1815-1817 | an exact prefix is also a case-insensitive prefix |
| Bytes.IndexOf | rendererV2/mdExt.go:11 | `bytes.Index` returns the first occurrence of the pattern, or -1 exactly when there is none |
| Bytes.Utf8Char | rendererV2/md2jsV2.go:1059 | a character encodes to 1 to 4 bytes, and to one byte exactly when it is ASCII |
| Bytes.Utf8EndsWithNewline | rendererV2/md2jsV2.go:805 | a text's bytes end in a newline exactly when the text ends in `\n` |
| UrlGuard.ScriptSchemesAreDangerous | rendererV3/md2jsV3.go:1821-1833 | `javascript:`, `vbscript:` and `file:` URLs are refused, in any letter case |
| UrlGuard.NonImageDataIsDangerous | rendererV3/md2jsV3.go:1821-1833 | a `data:` URL that is not `data:image/` is refused |
| UrlGuard.ImageDataRule | rendererV3/md2jsV3.go:1821-1833 | a `data:image/` URL is refused exactly when it is not png, gif, jpeg, webp or svg+xml followed by `;` |
| UrlGuard.OtherSchemesAreSafe | rendererV3/md2jsV3.go:1821-1833 | any other URL is accepted |
| UrlGuard.DangerIgnoresCase | rendererV3/md2jsV3.go:1815-1833 | the guard gives the same answer on the lowered URL |
| UrlGuard.ExampleScriptRefused | rendererV3/md2jsV3.go:1821-1833 | `JavaScript:alert(1)` is refused |
| UrlGuard.ExamplePngAccepted | rendererV3/md2jsV3.go:1821-1833 | `data:image/png;base64,AA==` is accepted |
| UrlGuard.ExamplePngWithoutSemicolonRefused | rendererV3/md2jsV3.go:1821-1833 | `data:image/png` without the `;` is refused |
| UrlGuard.ExampleHttpsAccepted | rendererV3/md2jsV3.go:1821-1833 | an https URL is accepted |
| Writers.SecureWrite | rendererV3/md2jsV3.go:1680-1695 | the batching loop writes exactly the input with every NUL byte replaced by U+FFFD |
| Writers.RawWrite | rendererV3/md2jsV3.go:1697-1713 | the batching loop writes exactly the input with every byte the escaper names replaced by its escape |
| Writers.BatchStep | rendererV3/md2jsV3.go:1700-1710 | one loop turn keeps the pending-run invariant: written bytes plus the pending run equal the escaped prefix |
| Writers.BatchEnd | rendererV3/md2jsV3.go:1710-1712 | the final flush of the pending run completes the escaped input |
| Writers.NulEscape | rendererV3/md2jsV3.go:1684 | the secure writer escapes exactly the NUL byte |
| Writers.SecuredIsEscaped | rendererV3/md2jsV3.go:1680-1713 | the secure writer is the raw writer with the NUL-only escaper |
| Writers.SecuredHasNoNul | rendererV3/md2jsV3.go:1680-1695 | securely written output has no NUL byte |
| Writers.SecuredLength | rendererV3/md2jsV3.go:1680-1695 | the output grows by two bytes per NUL |
| Writers.SecuredIdentity | rendererV3/md2jsV3.go:1680-1695 | input without NUL is written unchanged |
| Writers.PlainIsUnchanged | rendererV3/md2jsV3.go:1697-1713 | input with no byte to escape is written unchanged |
| Writers.EscapedAppend | rendererV3/md2jsV3.go:1697-1713 | escaping distributes over concatenation, so writing in pieces writes the same bytes |
| FrontMatter.GetYamlCases | rendererV2/mdExt.go:9-21 | input not starting with `---\n` comes back whole with no YAML; input that starts with it but has no second marker is an error |
| FrontMatter.GetYamlCutsInsideMarker | rendererV2/mdExt.go:19-20 | as written, the YAML part ends one byte into the closing marker and the markdown part starts with `--\n` |
| FrontMatter.GetYamlCorrectedSplit | rendererV2/mdExt.go:9-21 | the corrected split puts the whole closing marker in the YAML part, with no marker in between |
| FrontMatter.GetSummaryFound | rendererV2/mdExt.go:23-32 | the summary runs from the first `# summary` to just before the next `\n# ` after it |
| FrontMatter.GetSummaryMissing | rendererV2/mdExt.go:25-29 | there is no summary, without error, exactly when `# summary` does not occur; the "no summary end" error is returned exactly when `# summary` occurs and no `"\n# "` follows its first occurrence, and it is the only error |
| FrontMatter.MetaEndBounds | rendererV3/md2jsV3.go:1846-1854 | the front matter ends at least 8 bytes after its start and inside the input; no start gives -2 |
| FrontMatter.SummaryEndBounds | rendererV3/md2jsV3.go:1856-1864 | the summary ends at least 9 bytes after `# Summary` and inside the input |
| FrontMatter.MetaBlock | rendererV3/md2jsV3.go:1846-1854 | the front matter begins and ends with `---\n` and holds no marker in between |
| FrontMatter.SummaryBlock | rendererV3/md2jsV3.go:1856-1864 | the summary starts with `# Summary`, ends before a `#`, and holds no `#` after its title |
| FrontMatter.GetMetaSumMeta | rendererV3/md2jsV3.go:1846-1854 | the meta part is the input from the first marker through the end of the second |
| FrontMatter.GetMetaSumSummary | rendererV3/md2jsV3.go:1856-1864 | the summary part is the input from `# Summary` up to the next `#` |
| FrontMatter.GetMetaSumMain | rendererV3/md2jsV3.go:1866-1883 | the main part is a suffix of the input: all of it when there is neither meta nor summary; the text right after the front matter when there is front matter and no summary; and the text from the `#` after the summary when there is a summary |
| FrontMatter.GetMetaSumErrors | rendererV3/md2jsV3.go:1844-1852 | the only errors are a nil input and a front matter with no closing marker |
| RenderScope.HeadingEnter | rendererV3/md2jsV3.go:410-426 | entering a heading binds the node to a fresh element that the added statements declare, and all they use is already declared |
| RenderScope.BlockquoteEnter | rendererV3/md2jsV3.go:446-462 | likewise for a blockquote |
| RenderScope.ListEnter | rendererV3/md2jsV3.go:637-660 | likewise for a list |
| RenderScope.ListItemEnter | rendererV3/md2jsV3.go:687-702 | likewise for a list item |
| RenderScope.ThematicBreakEnter | rendererV3/md2jsV3.go:1119-1147 | likewise for a thematic break |
| RenderScope.AutoLinkEnter | rendererV3/md2jsV3.go:1162-1203 | likewise for an autolink |
| RenderScope.EmphasisEnter | rendererV3/md2jsV3.go:1264-1302 | likewise for an emphasis |
| RenderScope.RawHTMLEnter | rendererV3/md2jsV3.go:1423-1463 | likewise for raw HTML |
| RenderScope.TextEnter | rendererV3/md2jsV3.go:1484-1530 | likewise for a text node |
| RenderScope.StringEnter | rendererV3/md2jsV3.go:1532-1576 | likewise for a string node |
| RenderScope.CodeBlockEnter | rendererV3/md2jsV3.go:478-512 | entering a code block advances the counter by three and binds the node to the declared `pre` element |
| RenderScope.FencedCodeBlockEnter | rendererV3/md2jsV3.go:527-575 | likewise for a fenced code block |
| RenderScope.HTMLBlockEnter | rendererV3/md2jsV3.go:590-612 | an HTML block declares an element under the current counter value, without advancing it |
| RenderScope.DocumentEnter | rendererV3/md2jsV3.go:379-394 | the document declares the `mdDiv` root and resets the counter to 1 |
| RenderScope.DocumentExit | rendererV3/md2jsV3.go:379-394 | leaving the document adds only statements over declared names |
| RenderScope.AttachStep | rendererV3/md2jsV3.go:1466-1482 | the standard leaving step appends a declared element to a declared parent |
| RenderScope.AttachTracedStep | rendererV3/md2jsV3.go:576-584 | the fenced code block's leaving step, trace line included, uses only declared names |
| RenderScope.AttachNowStep | rendererV3/md2jsV3.go:1339-1349 | appending an element while entering uses only declared names |
| RenderScope.CodeSpanEnter | rendererV3/md2jsV3.go:1208-1259 | a code span's statements use only names declared before they are used |
| RenderScope.LinkEnter | rendererV3/md2jsV3.go:1304-1353 | a link's statements use only names declared before they are used |
| RenderScope.ImageEnter | rendererV3/md2jsV3.go:1373-1421 | an image's statements use only declared names, and the walk skips its children |
| RenderScope.FlushStep | rendererV3/md2jsV3.go:906-915 | writing the aggregator's pending text declares its text node before appending it |
| RenderScope.AggregateStepKeeps | rendererV3/md2jsV3.go:842-984 | one turn of the aggregator keeps the scoping invariant and only appends to the script |
| RenderScope.AggregateFromKeeps | rendererV3/md2jsV3.go:832-999 | the whole aggregator loop keeps the scoping invariant and only appends |
| RenderScope.TextChildrenKeeps | rendererV3/md2jsV3.go:798-1000 | rendering inline children keeps the scoping invariant and only appends |
| RenderScope.ParagraphEnterKeeps | rendererV3/md2jsV3.go:765-795 | entering a paragraph keeps the scoping invariant and only appends |
| RenderScope.TextBlockEnterKeeps | rendererV3/md2jsV3.go:1053-1064 | entering a text block keeps the scoping invariant and only appends |
| RenderScope.RenderTextsInside | rendererV3/md2jsV3.go:1578-1588 | the alt text's walk changes no binding outside the image |
| RenderScope.StepInv | rendererV3/md2jsV3.go:312-338 | a scoped step from a state that satisfies the invariant keeps it and only appends |
| WalkScope.EnterKeeps | rendererV3/md2jsV3.go:312-338 | entering any node outside an image keeps the invariant: the script is well scoped and every bound name is declared |
| WalkScope.ExitKeeps | rendererV3/md2jsV3.go:312-338 | leaving any node keeps the invariant |
| WalkScope.SilentExitState | rendererV3/md2jsV3.go:801-804 | the handlers that do nothing on leaving leave the state as it was |
| WalkScope.WalkKeeps | rendererV3/md2jsV3.go:312-338 | walking a subtree keeps the invariant and only appends to the script |
| WalkScope.WalkChildrenKeeps | rendererV3/md2jsV3.go:312-338 | walking the children from any index keeps the invariant |
| WalkScope.RenderScoped | rendererV3/md2jsV3.go:312-338 | the script of any document uses every element name only after declaring it, whatever the walk status |
| RenderProps.AttachContract | rendererV3/md2jsV3.go:1466-1482 | the leaving step stops with the failed lookup (no parent, no own name, no parent name) and changes nothing; otherwise it appends exactly one `appendChild` |
| RenderProps.ExitIsAttach | rendererV3/md2jsV3.go:410-439 | every element handler's leaving step is the standard append |
| RenderProps.GuardedURLHas | rendererV3/md2jsV3.go:1312-1316 | a URL statement is written exactly when unsafe output is on or the URL is not dangerous |
| RenderProps.LinkPropsGuarded | rendererV3/md2jsV3.go:1312-1325 | a link's properties contain a URL exactly when the guard lets the destination through |
| RenderProps.LinkHrefGuarded | rendererV3/md2jsV3.go:1304-1353 | a link creates an `a` element, appends it to its parent last, skips its children and carries an `href` exactly when the guard allows |
| RenderProps.ImagePropsGuarded | rendererV3/md2jsV3.go:1399-1419 | what an image writes about its element contains a URL exactly when the guard lets the source through |
| RenderProps.ImageSrcGuarded | rendererV3/md2jsV3.go:1373-1421 | an image carries a `src` exactly when the guard allows |
| RenderProps.AutoLinkAlwaysHref | rendererV3/md2jsV3.go:1180-1193 | an autolink always gets its `href`, unguarded |
| RenderProps.AttrsNoURL | rendererV3/md2jsV3.go:1596-1618 | attribute statements never carry a URL |
| RenderProps.FastPath | rendererV3/md2jsV3.go:815-830 | a lone text child becomes the parent's `textContent`, with no new element, and the children are skipped |
| RenderProps.AggregateTexts | rendererV3/md2jsV3.go:844-864 | a run of text children only accumulates pending text |
| RenderProps.AllTextMerged | rendererV3/md2jsV3.go:832-999 | several text children become one text node holding their joined values, appended to the parent |
| RenderProps.AggregateFlushBeforeInline | rendererV3/md2jsV3.go:866-977 | before an emphasis, code span, image, link, raw HTML or string child, pending text is written first as one new text node appended to the parent (named on the emphasis for an emphasis), nothing is pending afterwards, and the loop panics there exactly for an image or a code span with a non-text child |
| RenderProps.TextChildrenNeedName | rendererV3/md2jsV3.go:806-808 | a node without an `el` name stops the walk with nothing written |
| RenderProps.HTMLBlockDecls | rendererV3/md2jsV3.go:590-594 | an HTML block declares `el<count>` without advancing the counter |
| RenderProps.HTMLBlockReusesName | rendererV3/md2jsV3.go:410-416 | an HTML block right after a heading declares the heading's name a second time |
| RenderProps.ImgAttrSilent | imgAttr/imgAttr.go:132-137 | an image-attribute node writes nothing and its children are skipped |
| RenderProps.EmptyDocument | rendererV3/md2jsV3.go:379-394 | an empty document renders to the preamble and trailer, with `mdDiv` bound to the root |
| JsRenderer.Renderer.constructor | rendererV3/md2jsV3.go:297-309 | a new renderer has counter 0, no bindings and an empty script |
| JsRenderer.Renderer.Open | rendererV3/md2jsV3.go:1486-1488 | the counter goes up and the node is bound to `el<count>` |
| JsRenderer.Renderer.Attach | rendererV3/md2jsV3.go:1466-1482 | the leaving step leaves the state `RenderSpec.Attach` gives (see `RenderProps.AttachContract`) |
| JsRenderer.Renderer.AttachNow | rendererV3/md2jsV3.go:1339-1349 | appending while entering leaves the specified state |
| JsRenderer.Renderer.RenderDocument | rendererV3/md2jsV3.go:379-394 | the document handler leaves the specified state |
| JsRenderer.Renderer.RenderHeading | rendererV3/md2jsV3.go:410-439 | the heading handler leaves the specified state |
| JsRenderer.Renderer.RenderBlockquote | rendererV3/md2jsV3.go:446-476 | the blockquote handler leaves the specified state |
| JsRenderer.Renderer.JoinLines | rendererV3/md2jsV3.go:553-557 | the line loop builds the lines, each behind the marker, as one string |
| JsRenderer.Renderer.OpenCode | rendererV3/md2jsV3.go:480-506 | a code block advances the counter by three, binds the `pre` element and writes the code statements |
| JsRenderer.Renderer.RenderCodeBlock | rendererV3/md2jsV3.go:478-524 | the code block handler leaves the specified state |
| JsRenderer.Renderer.RenderFencedCodeBlock | rendererV3/md2jsV3.go:527-585 | the fenced code block handler leaves the specified state |
| JsRenderer.Renderer.RenderHTMLBlock | rendererV3/md2jsV3.go:587-628 | the HTML block handler leaves the specified state |
| JsRenderer.Renderer.RenderList | rendererV3/md2jsV3.go:637-680 | the list handler leaves the specified state |
| JsRenderer.Renderer.RenderListItem | rendererV3/md2jsV3.go:687-719 | the list item handler leaves the specified state |
| JsRenderer.Renderer.RenderThematicBreak | rendererV3/md2jsV3.go:1119-1147 | the thematic break handler leaves the specified state |
| JsRenderer.Renderer.RenderAutoLink | rendererV3/md2jsV3.go:1162-1203 | the autolink handler leaves the specified state |
| JsRenderer.Renderer.SpanNodes | rendererV3/md2jsV3.go:1226-1244 | the child loop writes the code span's text nodes and reports whether every child was a text |
| JsRenderer.Renderer.RenderCodeSpan | rendererV3/md2jsV3.go:1208-1259 | the code span handler leaves the specified state |
| JsRenderer.Renderer.RenderEmphasis | rendererV3/md2jsV3.go:1264-1302 | the emphasis handler leaves the specified state |
| JsRenderer.Renderer.RenderLink | rendererV3/md2jsV3.go:1304-1353 | the link handler leaves the specified state |
| JsRenderer.Renderer.RenderRawHTML | rendererV3/md2jsV3.go:1423-1463 | the raw HTML handler leaves the specified state |
| JsRenderer.Renderer.RenderText | rendererV3/md2jsV3.go:1465-1530 | the text handler, line-break rules included, leaves the specified state |
| JsRenderer.Renderer.RenderString | rendererV3/md2jsV3.go:1532-1576 | the string handler leaves the specified state |
| JsRenderer.Renderer.RenderTexts | rendererV3/md2jsV3.go:1578-1588 | the alt-text walk leaves the specified state |
| JsRenderer.Renderer.RenderImage | rendererV3/md2jsV3.go:1373-1421 | the image handler leaves the specified state |
| JsRenderer.Renderer.Flush | rendererV3/md2jsV3.go:906-915 | writing the pending text leaves the specified state |
| JsRenderer.Renderer.AggregateChild | rendererV3/md2jsV3.go:844-864 | one aggregator turn over a text child matches the specified turn |
| JsRenderer.Renderer.AggregateEmphasis | rendererV3/md2jsV3.go:866-903 | one aggregator turn over an emphasis matches the specified turn |
| JsRenderer.Renderer.AggregateCode | rendererV3/md2jsV3.go:904-933 | one aggregator turn over a code span matches the specified turn, the panicking cast included |
| JsRenderer.Renderer.AggregateLink | rendererV3/md2jsV3.go:934-948 | one aggregator turn over a link matches the specified turn |
| JsRenderer.Renderer.AggregateInline | rendererV3/md2jsV3.go:949-977 | one aggregator turn over raw HTML or a string matches the specified turn |
| JsRenderer.Renderer.Aggregate | rendererV3/md2jsV3.go:832-999 | the aggregator loop leaves the specified state |
| JsRenderer.Renderer.RenderTextChildren | rendererV3/md2jsV3.go:798-1000 | the inline-children renderer leaves the specified state |
| JsRenderer.Renderer.RenderParagraph | rendererV3/md2jsV3.go:765-795 | the paragraph handler leaves the specified state |
| JsRenderer.Renderer.RenderTextBlock | rendererV3/md2jsV3.go:1053-1064 | the text block handler leaves the specified state |
| JsRenderer.Renderer.Dispatch | rendererV3/md2jsV3.go:312-338 | the handler registered for each kind leaves the specified state |
| JsRenderer.Renderer.Walk | rendererV3/md2jsV3.go:312-338 | the depth-first walk over a subtree leaves the state `RenderSpec.Walk` gives |
| V2Spec.TextRun | rendererV2/md2jsV2.go:801-802 | the children the code span loop gets through before a non-text child |
| V2Spec.TextRunAll | rendererV2/md2jsV2.go:801-810 | the loop gets through all children exactly when every child is a text |
| V2Renderer.Renderer.constructor | rendererV2/md2jsV2.go:1029-1052 | a new renderer has counter 0, no bindings and an empty script |
| V2Renderer.Renderer.Open | rendererV2/md2jsV2.go:1050-1052 | the counter goes up and the node is bound to `el<count>` |
| V2Renderer.Renderer.Attach | rendererV2/md2jsV2.go:1030-1045 | the leaving step leaves the state `RenderSpec.Attach` gives |
| V2Renderer.Renderer.RenderParagraph | rendererV2/md2jsV2.go:653-679 | the paragraph handler leaves the specified state |
| V2Renderer.Renderer.RenderText | rendererV2/md2jsV2.go:1029-1098 | the text handler, its raw branch and line-break rules included, leaves the specified state |
| V2Renderer.Renderer.RenderListItem | rendererV2/md2jsV2.go:617-648 | the list item handler leaves the specified state |
| V2Renderer.Renderer.RenderList | rendererV2/md2jsV2.go:575-610 | the list handler leaves the specified state |
| V2Renderer.Renderer.EnterList | rendererV2/md2jsV2.go:581-593 | entering a list leaves the specified state |
| V2Renderer.Renderer.RenderCodeSpan | rendererV2/md2jsV2.go:788-829 | the code span handler leaves the specified state |
| V2Renderer.Renderer.EnterCodeSpan | rendererV2/md2jsV2.go:789-811 | entering a code span leaves the specified state |
| V2Renderer.Renderer.WriteSegment | rendererV2/md2jsV2.go:804-810 | one child's bytes are written raw, with a trailing newline written as a space |
| V2Renderer.Renderer.WriteSegments | rendererV2/md2jsV2.go:801-810 | the loop writes the segments of the leading text children and succeeds exactly when every child is a text |
| V2Props.ParagraphFresh | rendererV2/md2jsV2.go:653-679 | entering a paragraph declares one fresh `p` element, never declared before, and binds the node to it |
| V2Props.TextFresh | rendererV2/md2jsV2.go:1050-1098 | entering a non-raw text declares one fresh text node holding the text's value, with the line-break rules applied |
| V2Props.RawTextUndeclared | rendererV2/md2jsV2.go:1030-1059 | raw text is written as escaped bytes, and then the leaving step appends `el<n>`, a name the script never declared |
| V2Props.TextValueNewline | rendererV2/md2jsV2.go:1069-1090 | a text gets a newline after it exactly on a hard break, or a soft break when hard wraps are on, East Asian handling is off, or the neighbour rule keeps the break |
| V2Props.ListItemNewline | rendererV2/md2jsV2.go:617-631 | a list item declares one fresh `li`, and sets `textContent` to a newline, as its last statement, exactly when it has a first child that is not a text block |
| V2Props.ListStart | rendererV2/md2jsV2.go:575-594 | a list declares `ol` or `ul` by its kind, writes `start` only for an ordered list not starting at 1, then its attributes |
| V2Props.SegmentSpaced | rendererV2/md2jsV2.go:804-810 | a segment's bytes are the escaped text with a final newline turned into a space, and they never end in a newline |
| V2Props.CodeSegmentsSpaced | rendererV2/md2jsV2.go:801-810 | the loop's bytes are the escaped, spaced texts of the children, concatenated |
| V2Props.CodeSpanFresh | rendererV2/md2jsV2.go:788-811 | a code span declares one fresh `code` element and skips its children when every child is a text; otherwise the type assertion panics |
| V2Props.CodeSpanBytes | rendererV2/md2jsV2.go:788-811 | the bytes a code span writes are the escaped texts of its children, each final newline turned into a space |
| ImgAttrs.SetAttributeLookup | imgAttr/imgAttr.go:80-82 | after setting, the name has the new value, other names keep theirs, and the list grows exactly when the name was new |
| ImgAttrs.SetAttributeAppends | imgAttr/imgAttr.go:110-112 | setting a name the node lacks appends it |
| ImgAttrs.ParsedLookup | imgAttr/imgAttr.go:79-83 | on a new annotation node, each parsed name carries the last value given to it, and no other name is present |
| ImgAttrs.Parse | imgAttr/imgAttr.go:70-86 | no node when the attribute syntax does not parse; otherwise an annotation node whose attributes are the parsed ones, each set in turn |
| ImgAttrs.MergeKeeps | imgAttr/imgAttr.go:108-114 | copying keeps the image's own attributes in place, never overwrites one, and gives each new name the value of its first occurrence in the annotation |
| ImgAttrs.CopyAttributes | imgAttr/imgAttr.go:108-114 | the copy loop adds the annotation's attributes the image lacks, as specified |
| ImgAttrs.Transform | imgAttr/imgAttr.go:94-122 | the transform leaves the tree `TransformNode` describes |
| ImgAttrs.TransformClean | imgAttr/imgAttr.go:94-122 | after the transform no annotation node is left anywhere in the tree |
| ImgAttrs.KidsCorrespond | imgAttr/imgAttr.go:94-122 | exactly the annotations are removed: the other children remain in order with their kinds and ids; only images may gain attributes, after their own |
| ImgAttrs.MergedCorresponds | imgAttr/imgAttr.go:106-114 | merging an annotation into a kept image keeps its original attributes as a prefix |

## Left out

- Writing to a `bufio.Writer`: every statement is a `Script.Stmt` value. The JavaScript spelling (quotes, back-ticks, semicolons) is not modelled, and neither is the effect of a value holding a quote or back-tick on the generated script.
- The renderer's own `Write` (md2jsV3.go:1716-1799) is not modelled. No handler in the model calls it. It also has an operator-precedence slip in its entity test at line 1752.
- `GetMeta`, `PrintMeta` and `PrintSum`: YAML decoding and console output.
- `dbg` output. The one exception is the unconditional trace line of the fenced code block's leaving step. The V2 text handler's console print of raw text is also left out.
- The option plumbing (`NewConfig`, `SetOption`, the `With…` options), `NewRenderer`, `GetRenderer` and the drivers. The options the handlers read are the fields of `RenderSpec.Config`.
- The East Asian soft-line-break rule (md2jsV3.go:163-218) is the parameter `Config.keepSoftBreak`. The model fixes when it is consulted, not what it answers.
- `renderTextBlock1` and `renderTextBlock2` are not registered for any kind, so they are never reached.
- `util.URLEscape` and `util.EscapeHTML` are not modelled. A guarded URL statement carries the destination bytes, so the guard decision is modelled but the escaping is not.
- The autolink's `mailto:` prefix test lowers the whole URL with `bytes.ToLower`. The model lowers ASCII only, so a URL holding a character whose lower case changes its length (U+0130) may be decided differently.
- Kept: its own contract states only that the kept attributes come from the node. Which of them pass is stated by the lemma `Attrs.KeptExact`, because a quantified filter test in the function's contract makes every caller's proof too costly.
- Input attributes literally named `el` are not modelled. The model keeps the `el` bindings in a map of their own, and `Attrs.ElNeverPasses` shows no named element filter writes such an attribute. Every call site passes a named filter, never the nil one.
- The aggregator (md2jsV3.go:833-1000) is one loop with a type switch. The model splits each case into its own method so that each proof stays small. The loop and its state are unchanged.
- Version 2: only the paragraph, text, list item, list and code span handlers are modelled, plus `RenderAttributes` and the writers. The other V2 handlers are not modelled.
- `ParseImgAttrs`, the attribute syntax itself, is not part of this model. `ImgAttrs.Parse` takes its result as a parameter.
- The image-attribute transform works on the tree as a value rather than on linked nodes in memory. The source first collects the annotations in document order and then handles each in turn, looking at its current previous sibling and unlinking it. By then every earlier annotation in the same child list is already gone. So that previous sibling is the nearest earlier child that is not an annotation, and one left-to-right pass per child list gives the same tree. A node's address in memory is its `id`.
- The image-attribute node registration and `Dump` (imgAttr.go:29-64, 144-152) are goldmark plumbing.

## Findings

| source | as written | input that shows it | evidently intended | confidence | as-written member | corrected member |
|---|---|---|---|---|---|---|
| rendererV2/mdExt.go:14-20 | the closing marker is found in `buf[4:]`, but its offset is used on `buf` as `idx+5`, so the YAML part stops one byte into the closing `---\n` | `---\na: 1\n---\nbody` gives a YAML part ending in `-` and a markdown part starting with `--\n` | the YAML part runs through the closing marker, ending at `idx+8` as `GetMetaSum` does | high, not executed | FrontMatter.GetYamlCutsInsideMarker | FrontMatter.GetYamlCorrectedSplit |
