/** The URL guard shared by both renderers: a destination is dangerous when
    it uses a script or file scheme, or a `data:` URL that is not one of the
    image types considered safe. Prefixes are compared case-insensitively. */
module UrlGuard {
  import opened Bytes

  const DataImage: seq<byte> := Ascii("data:image/")
  const Png: seq<byte> := Ascii("png;")
  const Gif: seq<byte> := Ascii("gif;")
  const Jpeg: seq<byte> := Ascii("jpeg;")
  const Webp: seq<byte> := Ascii("webp;")
  const Svg: seq<byte> := Ascii("svg+xml;")
  const Js: seq<byte> := Ascii("javascript:")
  const Vb: seq<byte> := Ascii("vbscript:")
  const File: seq<byte> := Ascii("file:")
  const Data: seq<byte> := Ascii("data:")

  /** The image sub-types that a `data:image/` URL may carry safely. */
  predicate SafeImageType(v: seq<byte>)
  {
    HasPrefixFold(v, Png) || HasPrefixFold(v, Gif) || HasPrefixFold(v, Jpeg) ||
    HasPrefixFold(v, Webp) || HasPrefixFold(v, Svg)
  }

  predicate IsDangerousURL(url: seq<byte>)
  {
    if HasPrefixFold(url, DataImage) && |url| >= 11 then
      !SafeImageType(url[11..])
    else
      HasPrefixFold(url, Js) || HasPrefixFold(url, Vb) ||
      HasPrefixFold(url, File) || HasPrefixFold(url, Data)
  }

  lemma FirstByteFolds(url: seq<byte>, p: seq<byte>)
    requires |p| > 0 && HasPrefixFold(url, p)
    ensures Lower(url[0]) == Lower(p[0])
  {
    assert LowerAll(url[..|p|])[0] == Lower(url[0]);
  }

  /** A URL that starts with `data:image/` also starts with `data:`. */
  lemma DataImageIsData(url: seq<byte>)
    requires HasPrefixFold(url, DataImage)
    ensures HasPrefixFold(url, Data)
  {
    assert LowerAll(url[..5]) == LowerAll(url[..11])[..5];
    assert LowerAll(Data) == LowerAll(DataImage)[..5];
  }

  /** The script and file schemes are always refused, in any letter case. */
  lemma {:induction false} ScriptSchemesAreDangerous(url: seq<byte>)
    requires HasPrefixFold(url, Js) || HasPrefixFold(url, Vb) || HasPrefixFold(url, File)
    ensures IsDangerousURL(url)
  {
    if HasPrefixFold(url, DataImage) {
      // the first byte would have to fold both to 'd' and to 'j', 'v' or 'f'
      FirstByteFolds(url, DataImage);
      if HasPrefixFold(url, Js) {
        FirstByteFolds(url, Js);
      } else if HasPrefixFold(url, Vb) {
        FirstByteFolds(url, Vb);
      } else {
        FirstByteFolds(url, File);
      }
      assert false;
    }
  }

  /** A `data:` URL whose type is not `image/` is refused. */
  lemma NonImageDataIsDangerous(url: seq<byte>)
    requires HasPrefixFold(url, Data) && !HasPrefixFold(url, DataImage)
    ensures IsDangerousURL(url)
  {
  }

  /** A `data:image/` URL is refused exactly when its sub-type is not one of
      png, gif, jpeg, webp or svg+xml followed by `;`. */
  lemma ImageDataRule(url: seq<byte>)
    requires HasPrefixFold(url, DataImage)
    ensures IsDangerousURL(url) <==> !SafeImageType(url[11..])
  {
  }

  /** Every URL outside the four refused schemes is accepted. */
  lemma {:induction false} OtherSchemesAreSafe(url: seq<byte>)
    requires !HasPrefixFold(url, Js) && !HasPrefixFold(url, Vb)
    requires !HasPrefixFold(url, File) && !HasPrefixFold(url, Data)
    ensures !IsDangerousURL(url)
  {
    if HasPrefixFold(url, DataImage) {
      DataImageIsData(url);
    }
  }

  /** The verdict does not depend on the letter case of the URL. */
  lemma {:induction false} DangerIgnoresCase(url: seq<byte>)
    ensures IsDangerousURL(LowerAll(url)) == IsDangerousURL(url)
  {
    var low := LowerAll(url);
    HasPrefixFoldOfLower(url, DataImage);
    HasPrefixFoldOfLower(url, Js);
    HasPrefixFoldOfLower(url, Vb);
    HasPrefixFoldOfLower(url, File);
    HasPrefixFoldOfLower(url, Data);
    if |url| >= 11 {
      var v := url[11..];
      assert low[11..] == LowerAll(v);
      HasPrefixFoldOfLower(v, Png);
      HasPrefixFoldOfLower(v, Gif);
      HasPrefixFoldOfLower(v, Jpeg);
      HasPrefixFoldOfLower(v, Webp);
      HasPrefixFoldOfLower(v, Svg);
    }
  }

  /** An upper-case javascript URL is refused. */
  lemma ExampleScriptRefused()
    ensures IsDangerousURL(Ascii("JavaScript:alert(1)"))
  {
    var u := Ascii("JavaScript:alert(1)");
    assert LowerAll(u[..|Js|]) == LowerAll(Js);
    ScriptSchemesAreDangerous(u);
  }

  /** A png data URL is accepted. */
  lemma ExamplePngAccepted()
    ensures !IsDangerousURL(Ascii("data:image/png;base64,AA=="))
  {
    var u := Ascii("data:image/png;base64,AA==");
    assert LowerAll(u[..11]) == LowerAll(DataImage);
    ImageDataRule(u);
    var v := u[11..];
    assert v[..4] == Png;
    assert HasPrefixFold(v, Png);
  }

  /** A png data URL without the `;` is refused. */
  lemma ExamplePngWithoutSemicolonRefused()
    ensures IsDangerousURL(Ascii("data:image/png"))
  {
    var u := Ascii("data:image/png");
    assert LowerAll(u[..11]) == LowerAll(DataImage);
    assert LowerAll(u[..5]) == LowerAll(Data);
  }

  /** An https URL is accepted. */
  lemma ExampleHttpsAccepted()
    ensures !IsDangerousURL(Ascii("https://example.com/a.png"))
  {
    var u := Ascii("https://example.com/a.png");
    assert LowerAll(u[..5])[0] != LowerAll(Data)[0];
    assert LowerAll(u[..5])[0] != LowerAll(File)[0];
    assert LowerAll(u[..9])[0] != LowerAll(Vb)[0];
    assert LowerAll(u[..11])[0] != LowerAll(Js)[0];
    OtherSchemesAreSafe(u);
  }
}
