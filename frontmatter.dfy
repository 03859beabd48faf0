/** Splitting a markdown buffer into its YAML front matter, its summary
    section and the main text: the older helpers `GetYaml` and `GetSummary`
    and the newer `GetMetaSum`. */
module FrontMatter {
  import opened Wrappers
  import opened Bytes

  const Marker: seq<byte> := Ascii("---\n")
  const SummaryLower: seq<byte> := Ascii("# summary")
  const SummaryTitle: seq<byte> := Ascii("# Summary")
  const NextHeading: seq<byte> := Ascii("\n# ")
  const Hash: seq<byte> := Ascii("#")

  datatype SplitError = NoInput | NoMetaEnd | NoYamlEnd | NoSummaryEnd

  /** What `GetYaml` returns: the markdown part and, when the buffer opens
      with a front-matter block, that block. */
  datatype YamlSplit = YamlSplit(md: seq<byte>, yaml: Option<seq<byte>>)

  /** `GetYaml` as written: the cut is made at offset `idx + 5`, where `idx`
      is the closing marker's offset in the buffer after the opening one. */
  function GetYaml(buf: seq<byte>): Result<YamlSplit, SplitError>
  {
    if IndexOf(buf, Marker) != 0 then Ok(YamlSplit(buf, None))
    else
      var idx := IndexOf(buf[4..], Marker);
      if idx == -1 then Err(NoYamlEnd)
      else Ok(YamlSplit(buf[idx + 5..], Some(buf[..idx + 5])))
  }

  /** `GetYaml` with the cut after the closing marker (offset `idx + 8`),
      as `GetMetaSum` computes it. */
  function GetYamlCorrected(buf: seq<byte>): Result<YamlSplit, SplitError>
  {
    if IndexOf(buf, Marker) != 0 then Ok(YamlSplit(buf, None))
    else
      var idx := IndexOf(buf[4..], Marker);
      if idx == -1 then Err(NoYamlEnd)
      else Ok(YamlSplit(buf[idx + 8..], Some(buf[..idx + 8])))
  }

  /** A buffer that does not open with `---\n` is returned whole, without
      front matter; one that does and never closes it is an error. */
  lemma GetYamlCases(buf: seq<byte>)
    ensures !HasPrefix(buf, Marker) ==> GetYaml(buf) == Ok(YamlSplit(buf, None))
    ensures HasPrefix(buf, Marker) && (forall j :: 4 <= j ==> !OccursAt(buf, Marker, j)) ==>
      GetYaml(buf) == Err(NoYamlEnd)
  {
    if HasPrefix(buf, Marker) {
      assert OccursAt(buf, Marker, 0);
      forall j | OccursAt(buf[4..], Marker, j)
        ensures OccursAt(buf, Marker, j + 4)
      {
        assert buf[j + 4..j + 4 + 4] == buf[4..][j..j + 4];
      }
    } else {
      assert !OccursAt(buf, Marker, 0);
    }
  }

  /** Cutting one byte into a marker at `k` leaves "--\n" at the start of
      the second part. */
  lemma CutInsideMarker(buf: seq<byte>, k: int)
    requires HasPrefix(buf, Marker) && 4 <= k && OccursAt(buf, Marker, k)
    ensures buf[..k + 1] + buf[k + 1..] == buf
    ensures HasPrefix(buf[..k + 1], Marker)
    ensures HasPrefix(buf[k + 1..], Ascii("--\n"))
  {
    assert Ascii("--\n") == Marker[1..];
    assert buf[..k + 1][..4] == buf[..4];
    assert buf[k + 1..][..3] == buf[k..k + 4][1..];
  }

  /** As written, the split is not at the end of the closing marker: the
      front matter keeps the marker's first '-' and the markdown part starts
      with the remaining "--\n". */
  lemma {:induction false} GetYamlCutsInsideMarker(buf: seq<byte>)
    requires GetYaml(buf).Ok? && GetYaml(buf).value.yaml.Some?
    ensures GetYaml(buf).value.yaml.value + GetYaml(buf).value.md == buf
    ensures HasPrefix(GetYaml(buf).value.yaml.value, Marker)
    ensures HasPrefix(GetYaml(buf).value.md, Ascii("--\n"))
  {
    var idx := IndexOf(buf[4..], Marker);
    IndexFrom(buf, Marker, 4);
    assert OccursAt(buf, Marker, idx + 4);
    CutInsideMarker(buf, idx + 4);
  }


  /** Corrected: the front matter is the whole block from the opening to
      the end of the first closing marker, and the markdown part is what
      follows it. */
  lemma {:induction false} GetYamlCorrectedSplit(buf: seq<byte>)
    requires GetYamlCorrected(buf).Ok? && GetYamlCorrected(buf).value.yaml.Some?
    ensures GetYamlCorrected(buf).value.yaml.value + GetYamlCorrected(buf).value.md == buf
    ensures HasPrefix(GetYamlCorrected(buf).value.yaml.value, Marker)
    ensures var y := GetYamlCorrected(buf).value.yaml.value;
      |y| >= 8 && y[|y| - 4..] == Marker &&
      forall j :: 4 <= j < |y| - 4 ==> !OccursAt(buf, Marker, j)
  {
    var idx := IndexOf(buf[4..], Marker);
    IndexFrom(buf, Marker, 4);
    assert buf[..4] == Marker;
    var y := buf[..idx + 8];
    assert y[|y| - 4..] == buf[idx + 4..idx + 8];
  }


  /** `GetSummary`: the text from the first "# summary" up to, not
      including, the next "\n# "; `None` when there is no summary. */
  function GetSummary(buf: seq<byte>): Result<Option<seq<byte>>, SplitError>
  {
    var idx := IndexOf(buf, SummaryLower);
    if idx == -1 then Ok(None)
    else
      var hd := IndexOf(buf[idx + 9..], NextHeading);
      if hd == -1 then Err(NoSummaryEnd)
      else Ok(Some(buf[idx..idx + 9 + hd]))
  }

  /** The summary found is the first "# summary" section, it holds no
      "\n# " after its title, and the buffer continues with "\n# ". */
  lemma {:induction false} GetSummaryFound(buf: seq<byte>)
    requires GetSummary(buf).Ok? && GetSummary(buf).value.Some?
    ensures var s := GetSummary(buf).value.value;
      var idx := IndexOf(buf, SummaryLower);
      s == buf[idx..idx + |s|] && HasPrefix(s, SummaryLower) &&
      OccursAt(buf, NextHeading, idx + |s|) &&
      forall j :: idx + 9 <= j < idx + |s| ==> !OccursAt(buf, NextHeading, j)
  {
    var idx := IndexOf(buf, SummaryLower);
    IndexFrom(buf, NextHeading, idx + 9);
    var s := buf[idx..idx + 9 + IndexOf(buf[idx + 9..], NextHeading)];
    assert s[..9] == buf[idx..idx + 9];
  }


  /** No "# summary" anywhere gives no summary and no error; a summary
      with no "\n# " anywhere after its title is an error, and that is the
      only error. */
  lemma GetSummaryMissing(buf: seq<byte>)
    ensures (forall j :: !OccursAt(buf, SummaryLower, j)) ==> GetSummary(buf) == Ok(None)
    ensures GetSummary(buf) == Ok(None) ==> forall j :: !OccursAt(buf, SummaryLower, j)
    ensures GetSummary(buf) == Err(NoSummaryEnd) <==>
      IndexOf(buf, SummaryLower) >= 0 && IndexOf(buf[IndexOf(buf, SummaryLower) + 9..], NextHeading) == -1
    ensures GetSummary(buf).Err? ==> GetSummary(buf) == Err(NoSummaryEnd)
    ensures GetSummary(buf) == Err(NoSummaryEnd) ==>
      forall j :: IndexOf(buf, SummaryLower) + 9 <= j ==> !OccursAt(buf, NextHeading, j)
  {
    var idx := IndexOf(buf, SummaryLower);
    if idx >= 0 {
      IndexFrom(buf, NextHeading, idx + 9);
    }
  }

  /** What `GetMetaSum` fills in. */
  datatype Parts = Parts(meta: Option<seq<byte>>, summary: Option<seq<byte>>, main: seq<byte>)

  /** The offset just past the front matter, when there is one. */
  function MetaEnd(inp: seq<byte>): int
  {
    var st := IndexOf(inp, Marker);
    if st == -1 then -2
    else
      var e := IndexOf(inp[st + 4..], Marker);
      if e == -1 then -1 else e + st + 8
  }

  /** The offset of the '#' that ends the summary, when there is one. */
  function SummaryEnd(inp: seq<byte>): int
  {
    var st := IndexOf(inp, SummaryTitle);
    if st == -1 then -2
    else
      var e := IndexOf(inp[st + 9..], Hash);
      if e == -1 then -2 else st + e + 9
  }

  /** `GetMetaSum`: `None` stands for a nil input. */
  function GetMetaSum(inp: Option<seq<byte>>): Result<Parts, SplitError>
  {
    if inp.None? then Err(NoInput)
    else
      var b := inp.value;
      var mst := IndexOf(b, Marker);
      var mend := MetaEnd(b);
      if mend == -1 then Err(NoMetaEnd)
      else
        var meta := if mst > -1 then Some(b[mst..mend]) else None;
        var sst := IndexOf(b, SummaryTitle);
        var send := SummaryEnd(b);
        var summary := if send >= 0 then Some(b[sst..send]) else None;
        if meta.Some? then
          if summary.Some? then Ok(Parts(meta, summary, b[send..]))
          else Ok(Parts(meta, summary, b[mend..]))
        else if summary.Some? then Ok(Parts(meta, summary, b[send..]))
        else Ok(Parts(meta, summary, b))
  }

  lemma MetaEndBounds(b: seq<byte>)
    ensures MetaEnd(b) >= 0 ==> IndexOf(b, Marker) >= 0 && IndexOf(b, Marker) + 8 <= MetaEnd(b) <= |b|
    ensures MetaEnd(b) == -2 <==> IndexOf(b, Marker) == -1
  {
    var st := IndexOf(b, Marker);
    if st >= 0 {
      var e := IndexOf(b[st + 4..], Marker);
      if e >= 0 {
        assert OccursAt(b[st + 4..], Marker, e);
      }
    }
  }

  lemma SummaryEndBounds(b: seq<byte>)
    ensures SummaryEnd(b) >= 0 ==>
      IndexOf(b, SummaryTitle) >= 0 && IndexOf(b, SummaryTitle) + 9 <= SummaryEnd(b) < |b|
  {
    var st := IndexOf(b, SummaryTitle);
    if st >= 0 {
      var e := IndexOf(b[st + 9..], Hash);
      if e >= 0 {
        assert OccursAt(b[st + 9..], Hash, e);
      }
    }
  }

  /** The block between the first `---\n` and the end of the next one:
      it opens and closes with the marker and holds none in between. */
  lemma {:induction false} MetaBlock(b: seq<byte>)
    requires MetaEnd(b) >= 0
    ensures var st := IndexOf(b, Marker);
      var m := b[st..MetaEnd(b)];
      0 <= st && |m| >= 8 && m[..4] == Marker && m[|m| - 4..] == Marker &&
      forall j :: st + 4 <= j < MetaEnd(b) - 4 ==> !OccursAt(b, Marker, j)
  {
    var st := IndexOf(b, Marker);
    IndexFrom(b, Marker, st + 4);
    var m := b[st..MetaEnd(b)];
    assert m[..4] == b[st..st + 4];
    assert m[|m| - 4..] == b[MetaEnd(b) - 4..MetaEnd(b)];
  }


  /** The front matter found by `GetMetaSum` runs from the first `---\n`
      to the end of the next one, with no marker between them. */
  lemma GetMetaSumMeta(inp: seq<byte>)
    requires GetMetaSum(Some(inp)).Ok? && GetMetaSum(Some(inp)).value.meta.Some?
    ensures MetaEnd(inp) >= 0
    ensures GetMetaSum(Some(inp)).value.meta.value == inp[IndexOf(inp, Marker)..MetaEnd(inp)]
  {
    MetaEndBounds(inp);
  }

  /** The text after "# Summary" up to the next '#': it starts with the
      title, holds no further '#', and the input continues with '#'. */
  lemma {:induction false} SummaryBlock(b: seq<byte>)
    requires SummaryEnd(b) >= 0
    ensures var st := IndexOf(b, SummaryTitle);
      var s := b[st..SummaryEnd(b)];
      0 <= st && |s| >= 9 && s[..9] == SummaryTitle && b[SummaryEnd(b)] == Hash[0] &&
      forall k :: st + 9 <= k < SummaryEnd(b) ==> b[k] != Hash[0]
  {
    var st := IndexOf(b, SummaryTitle);
    IndexFrom(b, Hash, st + 9);
    var s := b[st..SummaryEnd(b)];
    assert s[..9] == b[st..st + 9];
    assert b[SummaryEnd(b)..SummaryEnd(b) + 1] == [b[SummaryEnd(b)]];
    forall k | st + 9 <= k < SummaryEnd(b)
      ensures b[k] != Hash[0]
    {
      assert !OccursAt(b, Hash, k);
      assert b[k..k + 1] == [b[k]];
    }
  }


  /** The summary found by `GetMetaSum` is that block. */
  lemma GetMetaSumSummary(inp: seq<byte>)
    requires GetMetaSum(Some(inp)).Ok? && GetMetaSum(Some(inp)).value.summary.Some?
    ensures SummaryEnd(inp) >= 0
    ensures GetMetaSum(Some(inp)).value.summary.value == inp[IndexOf(inp, SummaryTitle)..SummaryEnd(inp)]
  {
    SummaryEndBounds(inp);
  }

  /** With front matter and no summary, the main text is what follows the
      front matter. */
  lemma MetaOnlyMain(inp: seq<byte>)
    requires GetMetaSum(Some(inp)).Ok?
    requires GetMetaSum(Some(inp)).value.meta.Some? && GetMetaSum(Some(inp)).value.summary.None?
    ensures var p := GetMetaSum(Some(inp)).value;
      MetaEnd(inp) >= 0 && p.main == inp[MetaEnd(inp)..] &&
      p.meta.value + p.main == inp[IndexOf(inp, Marker)..] &&
      |p.main| <= |inp| && inp[|inp| - |p.main|..] == p.main
  {
    MetaEndBounds(inp);
    var mst := IndexOf(inp, Marker);
    var mend := MetaEnd(inp);
    var p := GetMetaSum(Some(inp)).value;
    assert p.meta.value == inp[mst..mend] && p.main == inp[mend..];
    SplitAt(inp, mst, mend);
    SuffixFrom(inp, mend);
  }

  lemma SuffixFrom(b: seq<byte>, k: int)
    requires 0 <= k <= |b|
    ensures |b[k..]| <= |b| && b[|b| - |b[k..]|..] == b[k..]
  {
  }

  lemma SplitAt(b: seq<byte>, i: int, j: int)
    requires 0 <= i <= j <= |b|
    ensures b[i..j] + b[j..] == b[i..]
  {
  }

  /** The main text is always a suffix of the input; without front matter
      and summary it is the whole input; with front matter only it is what
      follows the front matter; and with a summary it starts at the '#' that
      ended the summary. */
  lemma GetMetaSumMain(inp: seq<byte>)
    requires GetMetaSum(Some(inp)).Ok?
    ensures var p := GetMetaSum(Some(inp)).value;
      |p.main| <= |inp| && inp[|inp| - |p.main|..] == p.main &&
      (p.meta.None? && p.summary.None? ==> p.main == inp) &&
      (p.meta.Some? && p.summary.None? ==>
        p.main == inp[MetaEnd(inp)..] && p.meta.value + p.main == inp[IndexOf(inp, Marker)..]) &&
      (p.summary.Some? ==> p.main == inp[SummaryEnd(inp)..] && HasPrefix(p.main, Hash))
  {
    var p := GetMetaSum(Some(inp)).value;
    if p.summary.Some? {
      SummaryMain(inp);
    } else if p.meta.Some? {
      MetaOnlyMain(inp);
    } else {
      assert p.main == inp;
      assert inp[|inp| - |p.main|..] == inp;
    }
  }

  /** With a summary, the main text starts at the '#' that ended it. */
  lemma SummaryMain(inp: seq<byte>)
    requires GetMetaSum(Some(inp)).Ok? && GetMetaSum(Some(inp)).value.summary.Some?
    ensures var p := GetMetaSum(Some(inp)).value;
      0 <= SummaryEnd(inp) < |inp| && p.main == inp[SummaryEnd(inp)..] && HasPrefix(p.main, Hash) &&
      |p.main| <= |inp| && inp[|inp| - |p.main|..] == p.main
  {
    SummaryEndBounds(inp);
    var st := IndexOf(inp, SummaryTitle);
    var e := IndexOf(inp[st + 9..], Hash);
    assert OccursAt(inp[st + 9..], Hash, e);
    assert inp[SummaryEnd(inp)..][..1] == inp[st + 9..][e..e + 1];
    SuffixFrom(inp, SummaryEnd(inp));
  }

  /** A nil input and an unclosed front matter are the two errors. */
  lemma GetMetaSumErrors(inp: Option<seq<byte>>)
    ensures GetMetaSum(inp) == Err(NoInput) <==> inp.None?
    ensures GetMetaSum(inp) == Err(NoMetaEnd) <==>
      inp.Some? && IndexOf(inp.value, Marker) >= 0 &&
      IndexOf(inp.value[IndexOf(inp.value, Marker) + 4..], Marker) == -1
  {
  }
}
