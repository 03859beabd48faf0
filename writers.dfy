/** The byte writers shared by both renderers. `SecureWrite` copies its
    input, replacing every NUL byte by U+FFFD; `RawWrite` copies its input,
    replacing every byte the HTML escaper has an entity for. Both batch the
    bytes between replacements into one write. */
module Writers {
  import opened Wrappers
  import opened Bytes

  /** U+FFFD in UTF-8. */
  const Replacement: seq<byte> := [0xEF, 0xBF, 0xBD]

  /** The output for one byte. */
  function SecureByte(b: byte): seq<byte>
  {
    if b == 0 then Replacement else [b]
  }

  /** What `SecureWrite` writes: each byte's output, in order. */
  function Secured(s: seq<byte>): seq<byte>
    decreases |s|
  {
    if s == [] then [] else Secured(s[..|s| - 1]) + SecureByte(s[|s| - 1])
  }

  /** What `RawWrite` writes for one byte; `escape` is the HTML entity
      table, which answers `None` for bytes it leaves alone. */
  function RawByte(escape: byte -> Option<seq<byte>>, b: byte): seq<byte>
  {
    match escape(b)
    case Some(v) => v
    case None => [b]
  }

  function Escaped(escape: byte -> Option<seq<byte>>, s: seq<byte>): seq<byte>
    decreases |s|
  {
    if s == [] then [] else Escaped(escape, s[..|s| - 1]) + RawByte(escape, s[|s| - 1])
  }

  lemma EscapedStep(escape: byte -> Option<seq<byte>>, s: seq<byte>, i: nat)
    requires i < |s|
    ensures Escaped(escape, s[..i + 1]) == Escaped(escape, s[..i]) + RawByte(escape, s[i])
  {
    assert s[..i + 1][..i] == s[..i];
  }

  /** The batching loops' invariant: what is written, `w`, followed by the
      pending batch `s[i - n..i]`, is `done`, the output for `s[..i]`. */
  predicate Batched(s: seq<byte>, i: int, n: int, w: seq<byte>, done: seq<byte>)
  {
    0 <= n <= i <= |s| && w + s[i - n..i] == done
  }

  /** A replaced byte flushes the batch and then its replacement `out`;
      any other byte joins the batch. */
  lemma BatchStep(s: seq<byte>, i: int, n: int, w: seq<byte>, done: seq<byte>, out: seq<byte>)
    requires Batched(s, i, n, w, done) && i < |s|
    ensures Batched(s, i + 1, 0, w + s[i - n..i] + out, done + out)
    ensures Batched(s, i + 1, n + 1, w, done + [s[i]])
  {
    assert s[i + 1..i + 1] == [];
    assert s[i - n..i + 1] == s[i - n..i] + [s[i]];
  }

  /** At the end the pending batch, when there is one, completes the output. */
  lemma BatchEnd(s: seq<byte>, n: int, w: seq<byte>, done: seq<byte>)
    requires Batched(s, |s|, n, w, done)
    ensures n != 0 ==> w + s[|s| - n..] == done
    ensures n == 0 ==> w == done
  {
    assert s[|s| - n..] == s[|s| - n..|s|];
  }

  /** The table `SecureWrite` replaces bytes by: NUL becomes U+FFFD,
      every other byte is left alone. */
  function NulEscape(b: byte): (r: Option<seq<byte>>)
    ensures r.Some? <==> b == 0
  {
    if b == 0 then Some(Replacement) else None
  }

  /** Batching with the NUL table writes the secured text. */
  lemma {:induction false} SecuredIsEscaped(s: seq<byte>)
    ensures Escaped(NulEscape, s) == Secured(s)
    decreases |s|
  {
    if s != [] {
      SecuredIsEscaped(s[..|s| - 1]);
    }
  }

  /** `SecureWrite`: the batching loop of `RawWrite`, where the only byte
      replaced is NUL. */
  method SecureWrite(source: seq<byte>) returns (w: seq<byte>)
    ensures w == Secured(source)
  {
    w := RawWrite(NulEscape, source);
    SecuredIsEscaped(source);
  }

  /** `RawWrite`: `n` counts the bytes since the last replaced byte,
      written in one piece when the next replaced byte (or the end) is
      reached. */
  method RawWrite(escape: byte -> Option<seq<byte>>, source: seq<byte>) returns (w: seq<byte>)
    ensures w == Escaped(escape, source)
  {
    w := [];
    var n := 0;
    var l := |source|;
    for i := 0 to l
      invariant Batched(source, i, n, w, Escaped(escape, source[..i]))
    {
      EscapedStep(escape, source, i);
      var v := escape(source[i]);
      BatchStep(source, i, n, w, Escaped(escape, source[..i]), RawByte(escape, source[i]));
      if v.Some? {
        w := w + source[i - n..i];
        n := 0;
        w := w + v.value;
        continue;
      }
      n := n + 1;
    }
    assert source[..l] == source;
    BatchEnd(source, n, w, Escaped(escape, source));
    if n != 0 {
      w := w + source[l - n..];
    }
  }

  /** Bytes the escaper leaves alone are copied unchanged. */
  lemma {:induction false} PlainIsUnchanged(escape: byte -> Option<seq<byte>>, s: seq<byte>)
    requires forall j :: 0 <= j < |s| ==> escape(s[j]).None?
    ensures Escaped(escape, s) == s
    decreases |s|
  {
    if s != [] {
      PlainIsUnchanged(escape, s[..|s| - 1]);
    }
  }

  /** Writing two pieces one after the other is writing their concatenation. */
  lemma {:induction false} EscapedAppend(escape: byte -> Option<seq<byte>>, a: seq<byte>, b: seq<byte>)
    ensures Escaped(escape, a + b) == Escaped(escape, a) + Escaped(escape, b)
    decreases |b|
  {
    if b == [] {
      assert a + b == a;
    } else {
      var b' := b[..|b| - 1];
      var last := RawByte(escape, b[|b| - 1]);
      assert (a + b)[..|a + b| - 1] == a + b';
      assert Escaped(escape, a + b) == Escaped(escape, a + b') + last;
      EscapedAppend(escape, a, b');
      assert Escaped(escape, b) == Escaped(escape, b') + last;
    }
  }

  predicate NoNul(s: seq<byte>)
  {
    forall j :: 0 <= j < |s| ==> s[j] != 0
  }

  function NulCount(s: seq<byte>): nat
    decreases |s|
  {
    if s == [] then 0 else NulCount(s[..|s| - 1]) + (if s[|s| - 1] == 0 then 1 else 0)
  }

  /** The secured output never contains a NUL byte. */
  lemma {:induction false} SecuredHasNoNul(s: seq<byte>)
    ensures NoNul(Secured(s))
    decreases |s|
  {
    if s != [] {
      SecuredHasNoNul(s[..|s| - 1]);
    }
  }

  /** Each NUL grows the output by two bytes; nothing else changes the length. */
  lemma {:induction false} SecuredLength(s: seq<byte>)
    ensures |Secured(s)| == |s| + 2 * NulCount(s)
    decreases |s|
  {
    if s != [] {
      SecuredLength(s[..|s| - 1]);
    }
  }

  /** Input without NUL bytes is written unchanged. */
  lemma {:induction false} SecuredIdentity(s: seq<byte>)
    requires NoNul(s)
    ensures Secured(s) == s
    decreases |s|
  {
    if s != [] {
      SecuredIdentity(s[..|s| - 1]);
    }
  }
}
