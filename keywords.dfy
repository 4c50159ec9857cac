/** Keyword extraction (`EmbeddingSearcher.extract_keywords`): the reply of the
    generative model is split on commas; when the call fails, the query's own
    whitespace-separated tokens are used instead. */
module Keywords {
  import opened Seqs

  /** At most this many keywords come from the model's reply. */
  const MaxKeywords: nat := 5
  /** At most this many keywords come from the fallback tokenizer. */
  const MaxFallbackKeywords: nat := 3

  /** Python's `str.isspace()` for one code point: the characters that
      `strip()` removes and `split()` splits on. */
  predicate IsSpace(c: char)
  {
    c == ' ' || ('\t' <= c <= '\r') || ('\U{1c}' <= c <= '\U{1f}')
    || c == '\U{85}' || c == '\U{a0}' || c == '\U{1680}'
    || ('\U{2000}' <= c <= '\U{200a}') || c == '\U{2028}' || c == '\U{2029}'
    || c == '\U{202f}' || c == '\U{205f}' || c == '\U{3000}'
  }

  /** `s.strip()` */
  function StripSpace(s: string): (r: string)
    ensures |r| <= |s|
    ensures r == [] || (!IsSpace(r[0]) && !IsSpace(r[|r| - 1]))
  {
    Strip(s, IsSpace)
  }

  /** A keyword the extractor keeps: more than one character long. */
  predicate LongEnough(w: string) { |w| > 1 }

  /** A piece of the reply as it comes out of `strip()`, with no comma in it. */
  predicate IsReplyKeyword(w: string)
  {
    LongEnough(w) && ',' !in w && StripSpace(w) == w
  }

  /** Keywords parsed from a successful reply: split on `,`, each piece
      stripped, pieces of at most one character dropped, the first five kept. */
  function KeywordsFromReply(reply: string): (r: seq<string>)
    ensures |r| <= MaxKeywords
    ensures forall w :: w in r ==> IsReplyKeyword(w)
  {
    var kept := Filter(Map(Split(StripSpace(reply), ','), StripSpace), LongEnough);
    KeptPiecesClean(Split(StripSpace(reply), ','));
    Take(kept, MaxKeywords)
  }

  /** Comma-free pieces, stripped and filtered, are reply keywords. */
  lemma KeptPiecesClean(parts: seq<string>)
    requires forall p :: p in parts ==> ',' !in p
    ensures forall w :: w in Filter(Map(parts, StripSpace), LongEnough) ==> IsReplyKeyword(w)
  {
    var pieces := Map(parts, StripSpace);
    forall w | w in Filter(pieces, LongEnough) ensures IsReplyKeyword(w) {
      var i :| 0 <= i < |pieces| && pieces[i] == w;
      assert parts[i] in parts;
      StripSubset(parts[i]);
      StripIdempotent(parts[i]);
    }
  }

  lemma StripSubset(s: string)
    ensures forall c :: c in StripSpace(s) ==> c in s
  {
    var t := TrimStart(s, IsSpace);
    assert forall c :: c in t ==> c in s;
    var r := TrimEnd(t, IsSpace);
    assert forall c :: c in r ==> c in t;
  }

  lemma StripIdempotent(s: string)
    ensures StripSpace(StripSpace(s)) == StripSpace(s)
  {
    StripUnchanged(StripSpace(s), IsSpace);
  }

  /** A word of Python's `str.split()`: a non-empty run without whitespace. */
  predicate IsWord(w: string)
  {
    |w| > 0 && forall i :: 0 <= i < |w| ==> !IsSpace(w[i])
  }

  /** Length of the leading run of non-whitespace characters. */
  function TokenLen(s: string): (n: nat)
    ensures n <= |s|
    ensures forall i :: 0 <= i < n ==> !IsSpace(s[i])
    ensures n < |s| ==> IsSpace(s[n])
  {
    if |s| == 0 || IsSpace(s[0]) then 0 else 1 + TokenLen(s[1..])
  }

  /** `s.split()`: the maximal runs of non-whitespace characters, in order. */
  function Words(s: string): (ws: seq<string>)
    ensures forall w :: w in ws ==> IsWord(w)
    decreases |s|
  {
    if |s| == 0 then []
    else if IsSpace(s[0]) then Words(s[1..])
    else
      var n := TokenLen(s);
      [s[..n]] + Words(s[n..])
  }

  /** The fallback used when the model call fails: the first three words of
      the query longer than one character; it reads nothing but the query. */
  function FallbackKeywords(query: string): (r: seq<string>)
    ensures |r| <= MaxFallbackKeywords
    ensures forall w :: w in r ==> IsWord(w) && LongEnough(w)
    ensures forall w :: w in r ==> w in Words(query)
  {
    Take(Filter(Words(query), LongEnough), MaxFallbackKeywords)
  }

  /** `extract_keywords`: `reply` is the `response` field of the model's
      answer, or `None` when the call raised. */
  function ExtractKeywords(query: string, reply: Option<string>): (r: seq<string>)
    ensures |r| <= MaxKeywords
    ensures forall w :: w in r ==> LongEnough(w)
    ensures reply.None? ==> forall w :: w in r ==> IsWord(w)
    ensures reply.Some? ==> r == KeywordsFromReply(reply.value)
    ensures reply.None? ==> r == FallbackKeywords(query)
  {
    match reply
    case Some(text) => KeywordsFromReply(text)
    case None => FallbackKeywords(query)
  }

  /** A reply that lists keywords separated by commas yields exactly those
      keywords, in the model's order, cut to five. */
  lemma {:induction false} ReplyRoundTrip(ks: seq<string>)
    requires forall i :: 0 <= i < |ks| ==> IsReplyKeyword(ks[i])
    ensures KeywordsFromReply(Join(ks, ',')) == Take(ks, MaxKeywords)
  {
    var text := Join(ks, ',');
    if |ks| == 0 {
      assert StripSpace(text) == [];
      assert Split(StripSpace(text), ',') == [[]];
      assert Map([[]], StripSpace) == [[]];
    } else {
      JoinEnds(ks, ',');
      StripUnchanged(text, IsSpace);
      SplitJoin(ks, ',');
      var pieces := Map(Split(text, ','), StripSpace);
      assert pieces == ks;
      FilterAllKept(ks, LongEnough);
    }
  }

  /** The first and last characters of a non-empty join come from the first
      and last pieces. */
  lemma {:induction false} JoinEnds(ks: seq<string>, sep: char)
    requires |ks| > 0
    requires forall i :: 0 <= i < |ks| ==> |ks[i]| > 0
    ensures |Join(ks, sep)| > 0
    ensures Join(ks, sep)[0] == ks[0][0]
    ensures Join(ks, sep)[|Join(ks, sep)| - 1] == ks[|ks| - 1][|ks[|ks| - 1]| - 1]
  {
    if |ks| > 1 {
      JoinEnds(ks[1..], sep);
    }
  }

  lemma {:induction false} TokenLenOfWord(w: string, rest: string)
    requires IsWord(w)
    requires rest == [] || IsSpace(rest[0])
    ensures TokenLen(w + rest) == |w|
    decreases |w|
  {
    if |w| > 1 {
      assert (w + rest)[1..] == w[1..] + rest;
      TokenLenOfWord(w[1..], rest);
    } else {
      assert (w + rest)[1..] == rest;
    }
  }

  /** Words joined by single spaces split back into the same words. */
  lemma {:induction false} WordsOfJoin(ws: seq<string>)
    requires forall i :: 0 <= i < |ws| ==> IsWord(ws[i])
    ensures Words(Join(ws, ' ')) == ws
  {
    if |ws| == 1 {
      var w := ws[0];
      TokenLenOfWord(w, []);
      assert w + [] == w;
      assert w[|w|..] == [];
      assert w[..|w|] == w;
    } else if |ws| > 1 {
      var w := ws[0];
      var rest := Join(ws[1..], ' ');
      var s := Join(ws, ' ');
      assert s == w + ([' '] + rest);
      TokenLenOfWord(w, [' '] + rest);
      assert s[..|w|] == w;
      assert s[|w|..] == [' '] + rest;
      assert ([' '] + rest)[1..] == rest;
      WordsOfJoin(ws[1..]);
    }
  }

  /** The fallback of a query made of space-separated words is its words
      longer than one character, the first three of them, in query order. */
  lemma FallbackRoundTrip(ws: seq<string>)
    requires forall i :: 0 <= i < |ws| ==> IsWord(ws[i])
    ensures FallbackKeywords(Join(ws, ' ')) == Take(Filter(ws, LongEnough), MaxFallbackKeywords)
  {
    WordsOfJoin(ws);
  }

  /** Stripping the whole comma-separated text and then each piece strips
      each piece: only the pieces' own blanks are removed. */
  lemma {:induction false} StrippedPieces(ps: seq<string>)
    requires |ps| >= 1
    requires forall i :: 0 <= i < |ps| ==> ',' !in ps[i]
    ensures Map(Split(StripSpace(Join(ps, ',')), ','), StripSpace) == Map(ps, StripSpace)
  {
    StripJoin(ps, ',', IsSpace);
    var qs := StripEnds(ps, IsSpace);
    forall i | 0 <= i < |ps| ensures ',' !in qs[i] && StripSpace(qs[i]) == StripSpace(ps[i]) {
      PieceEnds(ps, i);
    }
    SplitJoin(qs, ',');
  }

  /** One piece after stripping the whole text: still comma-free, and it
      strips to what the original piece strips to. */
  lemma {:induction false} PieceEnds(ps: seq<string>, i: nat)
    requires i < |ps| && ',' !in ps[i]
    ensures ',' !in StripEnds(ps, IsSpace)[i]
    ensures StripSpace(StripEnds(ps, IsSpace)[i]) == StripSpace(ps[i])
  {
    StripEndsPiece(ps, i, IsSpace);
  }

  /** A reply made of comma-free pieces yields those pieces stripped, the
      ones longer than one character, the first five of them, in reply
      order. */
  lemma {:induction false} ReplyPieces(ps: seq<string>)
    requires forall i :: 0 <= i < |ps| ==> ',' !in ps[i]
    ensures KeywordsFromReply(Join(ps, ',')) == Take(Filter(Map(ps, StripSpace), LongEnough), MaxKeywords)
  {
    if |ps| == 0 {
      assert StripSpace([]) == [];
      assert Split(StripSpace([]), ',') == [[]];
      assert Map([[]], StripSpace) == [[]];
      assert StripSpace([]) == [];
    } else {
      StrippedPieces(ps);
    }
  }
}
