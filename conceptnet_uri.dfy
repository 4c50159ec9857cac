/** ConceptNet URIs and relation types, as the indexer reads them. Lines and
    URIs are UTF-8 bytes: splitting on the ASCII `/` and tab, and decoding
    `%XX` escapes, work the same on the bytes as on the decoded text, since
    an ASCII byte never occurs inside a multi-byte character. */
module ConceptNetUri {
  import opened Seqs

  newtype byte = x: int | 0 <= x < 256
  type Bytes = seq<byte>

  const Slash: byte := 0x2F
  const Percent: byte := 0x25
  /** The segment `c` marking a concept URI. */
  const ConceptMarker: Bytes := [0x63]

  predicate IsHexDigit(b: byte)
  {
    0x30 <= b <= 0x39 || 0x41 <= b <= 0x46 || 0x61 <= b <= 0x66
  }

  function HexValue(b: byte): (v: byte)
    requires IsHexDigit(b)
    ensures v < 16
  {
    if b <= 0x39 then b - 0x30 else if b <= 0x46 then b - 0x41 + 10 else b - 0x61 + 10
  }

  /** The upper-case hex digit of `v`. */
  function HexDigit(v: byte): (b: byte)
    requires v < 16
    ensures IsHexDigit(b) && HexValue(b) == v
  {
    if v < 10 then 0x30 + v else 0x41 + (v - 10)
  }

  /** `unquote`, on bytes: each `%` followed by two hex digits (either case)
      becomes the byte they spell; any other byte, a lone `%` included, is
      kept. */
  function PercentDecode(s: Bytes): (r: Bytes)
    ensures |r| <= |s|
    decreases |s|
  {
    if |s| == 0 then []
    else if s[0] == Percent && |s| >= 3 && IsHexDigit(s[1]) && IsHexDigit(s[2]) then
      [HexValue(s[1]) * 16 + HexValue(s[2])] + PercentDecode(s[3..])
    else [s[0]] + PercentDecode(s[1..])
  }

  /** Text without `%` is its own decoding. */
  lemma {:induction false} DecodeWithoutPercent(s: Bytes)
    requires Percent !in s
    ensures PercentDecode(s) == s
    decreases |s|
  {
    if |s| > 0 {
      DecodeWithoutPercent(s[1..]);
      assert [s[0]] + s[1..] == s;
    }
  }

  /** Escapes every byte as `%XX`: the inverse partner of `PercentDecode`. */
  function PercentEncode(s: Bytes): (r: Bytes)
    ensures |r| == 3 * |s|
    ensures forall i :: 0 <= i < |r| ==> r[i] == Percent || IsHexDigit(r[i])
    decreases |s|
  {
    if |s| == 0 then []
    else [Percent, HexDigit(s[0] / 16), HexDigit(s[0] % 16)] + PercentEncode(s[1..])
  }

  lemma {:induction false} DecodeEncode(s: Bytes)
    ensures PercentDecode(PercentEncode(s)) == s
    decreases |s|
  {
    if |s| > 0 {
      var e := PercentEncode(s);
      DecodeEncode(s[1..]);
      assert e[3..] == PercentEncode(s[1..]);
      assert [s[0]] + s[1..] == s;
    }
  }

  /** `(language, label)` of a URI; both `None` when the URI is not of the
      form `<x>/c/<language>[/<label>...]`. */
  datatype UriParts = UriParts(lang: Option<Bytes>, name: Option<Bytes>)

  /** `parse_conceptnet_uri(uri)`: the third segment is the language, the
      fourth, percent-decoded, the label (empty if there is none); later
      segments are ignored. */
  function ParseConceptNetUri(uri: Bytes): (r: UriParts)
    ensures r.lang.Some? <==> r.name.Some?
    ensures r.lang.Some? ==> Slash !in r.lang.value
  {
    var parts := Split(uri, Slash);
    if |parts| >= 3 && parts[1] == ConceptMarker then
      UriParts(Some(parts[2]), Some(if |parts| > 3 then PercentDecode(parts[3]) else []))
    else UriParts(None, None)
  }

  lemma NoSlashInEncoding(s: Bytes)
    ensures Slash !in PercentEncode(s)
  {
    var e := PercentEncode(s);
    forall i | 0 <= i < |e|
      ensures e[i] != Slash
    {
      assert e[i] == Percent || IsHexDigit(e[i]);
    }
  }

  /** Building `/c/<lang>/<escaped label>[/...]` and parsing it back gives the
      language and the label. */
  lemma {:induction false} ParseRoundTrip(lang: Bytes, text: Bytes, more: seq<Bytes>)
    requires Slash !in lang
    requires forall i :: 0 <= i < |more| ==> Slash !in more[i]
    ensures ParseConceptNetUri(Join([[], ConceptMarker, lang, PercentEncode(text)] + more, Slash))
         == UriParts(Some(lang), Some(text))
  {
    var parts := [[], ConceptMarker, lang, PercentEncode(text)] + more;
    NoSlashInEncoding(text);
    forall i | 0 <= i < |parts|
      ensures Slash !in parts[i]
    {
      if i >= 4 {
        assert parts[i] == more[i - 4];
      }
    }
    SplitJoin(parts, Slash);
    assert Split(Join(parts, Slash), Slash)[3] == PercentEncode(text);
    DecodeEncode(text);
  }

  /** A concept URI without a label segment has the empty label. */
  lemma ParseWithoutLabel(lang: Bytes)
    requires Slash !in lang
    ensures ParseConceptNetUri(Join([[], ConceptMarker, lang], Slash)) == UriParts(Some(lang), Some([]))
  {
    SplitJoin([[], ConceptMarker, lang], Slash);
  }

  /** `/c/ko/개` (the label's three UTF-8 bytes unescaped) has language `ko`
      and label `개`. */
  lemma ParseKoreanExample()
    ensures ParseConceptNetUri([0x2F, 0x63, 0x2F, 0x6B, 0x6F, 0x2F, 0xEA, 0xB0, 0x9C])
         == UriParts(Some([0x6B, 0x6F]), Some([0xEA, 0xB0, 0x9C]))
  {
    var parts: seq<Bytes> := [[], ConceptMarker, [0x6B, 0x6F], [0xEA, 0xB0, 0x9C]];
    assert Join(parts[3..], Slash) == [0xEA, 0xB0, 0x9C];
    assert Join(parts[2..], Slash) == [0x6B, 0x6F, 0x2F, 0xEA, 0xB0, 0x9C];
    assert Join(parts[1..], Slash) == [0x63, 0x2F, 0x6B, 0x6F, 0x2F, 0xEA, 0xB0, 0x9C];
    assert Join(parts, Slash) == [0x2F, 0x63, 0x2F, 0x6B, 0x6F, 0x2F, 0xEA, 0xB0, 0x9C];
    SplitJoin(parts, Slash);
    DecodeWithoutPercent([0xEA, 0xB0, 0x9C]);
  }

  /** A URI whose second segment is not `c` (a relation `/r/...`, say) has
      neither language nor label. */
  lemma ParseNonConcept(parts: seq<Bytes>)
    requires |parts| >= 2 && parts[1] != ConceptMarker
    requires forall i :: 0 <= i < |parts| ==> Slash !in parts[i]
    ensures ParseConceptNetUri(Join(parts, Slash)) == UriParts(None, None)
  {
    SplitJoin(parts, Slash);
  }

  /** `rel_uri.split('/')[-1] if '/' in rel_uri else rel_uri` */
  function RelationType(relUri: Bytes): (r: Bytes)
    ensures Slash !in r
    ensures Slash !in relUri ==> r == relUri
  {
    if Slash in relUri then
      var parts := Split(relUri, Slash);
      parts[|parts| - 1]
    else relUri
  }

  /** The `'/' in rel_uri` test changes nothing: the type is always the last
      `/`-segment. */
  lemma RelationTypeIsLastSegment(relUri: Bytes)
    ensures RelationType(relUri) == Split(relUri, Slash)[|Split(relUri, Slash)| - 1]
  {
    if Slash !in relUri {
      SplitNoSep(relUri, Slash);
    }
  }

  /** The type of `<anything>/<name>` is `name`; for `/r/RelatedTo` it is
      `RelatedTo`. */
  lemma RelationTypeOfPath(prefix: Bytes, name: Bytes)
    requires Slash !in name
    ensures RelationType(prefix + [Slash] + name) == name
  {
    var ps := Split(prefix, Slash);
    JoinSplit(prefix, Slash);
    JoinSnoc(ps, name, Slash);
    SplitJoin(ps + [name], Slash);
    assert (prefix + [Slash] + name)[|prefix|] == Slash;
  }
}
