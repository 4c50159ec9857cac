/** Prompt construction (`build_enhanced_prompt`) and the preview returned by
    the chat endpoint. The prompt shows at most 8 concepts, numbered from 1,
    at most 10 relations, every path, at most 10 neighbour labels and the
    keywords. A path without node labels makes `nodes[0]` raise, and the
    endpoint then fails: such a prompt is `None`. */
module Prompt {
  import opened Seqs
  import opened Graph
  import opened Retrieval

  const MaxConceptsShown: nat := 8
  const MaxRelationsShown: nat := 10
  const MaxNeighborsShown: nat := 10
  /** Characters of the prompt kept in `prompt_preview`. */
  const PreviewLength: nat := 500
  const Ellipsis: string := "..."

  const SystemInstruction: string :=
    "당신은 ConceptNet 지식 그래프를 활용하는 한국어 AI 어시스턴트입니다.\n\n"
    + "주어진 지식 그래프 컨텍스트를 바탕으로 질문에 답변하세요:\n"
    + "1. 발견된 개념과 관계를 적극 활용하세요\n"
    + "2. 개념 간의 연결 경로가 있다면 이를 설명에 포함하세요\n"
    + "3. 신뢰도(weight)가 높은 관계를 우선 참고하세요\n"
    + "4. 컨텍스트가 불충분하면 솔직히 말하세요\n"
    + "5. 답변은 한국어로, 명확하고 이해하기 쉽게 작성하세요\n"

  const ConceptsHeader: string := "**발견된 핵심 개념:**\n"
  const NoConcepts: string := "(관련 개념을 찾지 못했습니다)\n"
  const RelationsHeader: string := "\n**개념 간 관계:**\n"
  const PathsHeader: string := "\n**개념 연결 경로:**\n"
  const QuestionHeader: string := "\n\n【질문】\n"
  const ContextHeader: string := "\n\n【지식 그래프 컨텍스트】\n"
  const AnswerHeader: string := "\n\n【답변】\n"

  // ---------------------------------------------------------------- numbers

  function DigitChar(d: nat): (c: char)
    requires d < 10
    ensures '0' <= c <= '9' && c as int - '0' as int == d
  {
    (d + '0' as int) as char
  }

  /** `str(n)`: decimal digits, no leading zero. */
  function DecimalString(n: nat): (r: string)
    ensures |r| >= 1
    ensures forall i :: 0 <= i < |r| ==> '0' <= r[i] <= '9'
    ensures n > 0 ==> r[0] != '0'
    decreases n
  {
    if n < 10 then [DigitChar(n)] else DecimalString(n / 10) + [DigitChar(n % 10)]
  }

  /** The number a string of decimal digits denotes. */
  function DecimalValue(s: string): nat
    requires forall i :: 0 <= i < |s| ==> '0' <= s[i] <= '9'
  {
    if |s| == 0 then 0
    else DecimalValue(s[..|s| - 1]) * 10 + (s[|s| - 1] as int - '0' as int)
  }

  /** The numbering is readable back: distinct positions get distinct numbers. */
  lemma {:induction false} DecimalRoundTrip(n: nat)
    ensures DecimalValue(DecimalString(n)) == n
    decreases n
  {
    if n >= 10 {
      DecimalRoundTrip(n / 10);
      var front := DecimalString(n / 10);
      assert (front + [DigitChar(n % 10)])[..|front|] == front;
    }
  }

  // ---------------------------------------------------------------- sections

  /** `f"{i}. {c['label']} ({c['lang']})\n"` */
  function ConceptLine(i: nat, c: Concept): string
  {
    DecimalString(i) + ". " + c.name + " (" + c.lang + ")\n"
  }

  /** The numbered lines of the shown concepts, the first numbered 1. */
  function ConceptLines(shown: seq<Concept>): (r: seq<string>)
    ensures |r| == |shown|
  {
    seq(|shown|, i requires 0 <= i < |shown| => ConceptLine(i + 1, shown[i]))
  }

  function ConceptsText(cs: seq<Concept>): string
  {
    if |cs| > 0 then ConceptsHeader + Concat(ConceptLines(Take(cs, MaxConceptsShown)))
    else NoConcepts
  }

  /** `f"• {start} --[{rel_type}]--> {end} (신뢰도: {weight:.2f})\n"`, with the
      two-decimal rendering of the weight given by `weightText`. */
  function RelationLine(r: Relation, weightText: real -> string): string
  {
    "• " + r.start + " --[" + r.relType + "]--> " + r.end + " (신뢰도: " + weightText(r.weight) + ")\n"
  }

  function RelationLines(shown: seq<Relation>, weightText: real -> string): (r: seq<string>)
    ensures |r| == |shown|
  {
    seq(|shown|, i requires 0 <= i < |shown| => RelationLine(shown[i], weightText))
  }

  function RelationsText(rs: seq<Relation>, weightText: real -> string): string
  {
    if |rs| > 0 then RelationsHeader + Concat(RelationLines(Take(rs, MaxRelationsShown), weightText))
    else ""
  }

  /** The text of hop `i`: relation `i` leading to node `i + 1`, or nothing
      when there is no node `i + 1`. */
  function Hop(nodes: seq<string>, rels: seq<string>, i: nat): string
    requires i < |rels|
  {
    if i + 1 < |nodes| then " --[" + rels[i] + "]--> " + nodes[i + 1] else ""
  }

  function Hops(nodes: seq<string>, rels: seq<string>): (r: seq<string>)
    ensures |r| == |rels|
  {
    seq(|rels|, i requires 0 <= i < |rels| => Hop(nodes, rels, i))
  }

  /** The rendering of one path: its first node, then each hop that has a
      node to lead to; `None` when the path has no node. */
  function PathString(nodes: seq<string>, rels: seq<string>): (r: Option<string>)
    ensures r.None? <==> |nodes| == 0
    ensures r.Some? ==> nodes[0] <= r.value
  {
    if |nodes| == 0 then None else Some(nodes[0] + Concat(Hops(nodes, rels)))
  }

  /** The lines of the paths, or `None` if one of them has no node. */
  function PathLines(ps: seq<Path>): (r: Option<string>)
    ensures r.None? <==> exists j :: 0 <= j < |ps| && ps[j].nodeLabels == []
  {
    if |ps| == 0 then Some("")
    else
      var front := PathLines(ps[..|ps| - 1]);
      var last := PathString(ps[|ps| - 1].nodeLabels, ps[|ps| - 1].relTypes);
      assert forall j :: 0 <= j < |ps| - 1 ==> ps[..|ps| - 1][j] == ps[j];
      if front.Some? && last.Some? then Some(front.value + "• " + last.value + "\n") else None
  }

  function PathsText(ps: seq<Path>): (r: Option<string>)
    ensures r.None? <==> exists j :: 0 <= j < |ps| && ps[j].nodeLabels == []
  {
    if |ps| > 0 then
      var lines := PathLines(ps);
      if lines.Some? then Some(PathsHeader + lines.value) else None
    else Some("")
  }

  /** `", ".join(parts)` */
  function JoinComma(parts: seq<string>): string
  {
    if |parts| == 0 then []
    else if |parts| == 1 then parts[0]
    else parts[0] + ", " + JoinComma(parts[1..])
  }

  function NeighborsText(ns: seq<Concept>): string
  {
    if |ns| > 0 then
      "\n**관련 개념들:** " + JoinComma(Map(Take(ns, MaxNeighborsShown), (n: Concept) => n.name)) + "\n"
    else ""
  }

  function KeywordsText(keywords: seq<string>): string
  {
    if |keywords| > 0 then "\n**분석된 키워드:** " + JoinComma(keywords) + "\n" else ""
  }

  /** The paths the prompt reads: `context.get("paths", [])`. */
  function ContextPaths(ctx: RetrievalResult): seq<Path>
  {
    if ctx.paths.Some? then ctx.paths.value else []
  }

  /** The whole prompt, or `None` when rendering a path raises. */
  function EnhancedPrompt(question: string, ctx: RetrievalResult, keywords: seq<string>,
                          weightText: real -> string): (r: Option<string>)
    ensures r.None? <==> exists j :: 0 <= j < |ContextPaths(ctx)| && ContextPaths(ctx)[j].nodeLabels == []
  {
    var paths := PathsText(ContextPaths(ctx));
    if paths.None? then None
    else
      var contextText := KeywordsText(keywords) + "\n" + ConceptsText(ctx.concepts) + "\n"
                         + RelationsText(ctx.relations, weightText) + "\n" + paths.value + "\n"
                         + NeighborsText(ctx.neighbors);
      Some(SystemInstruction + QuestionHeader + question + ContextHeader + contextText + AnswerHeader)
  }

  // ---------------------------------------------------------------- properties

  /** Each of the first eight concepts is listed under its own position. */
  lemma ConceptListed(cs: seq<Concept>, i: nat)
    requires i < |cs| && i < MaxConceptsShown
    ensures IsInfix(ConceptLine(i + 1, cs[i]), ConceptsText(cs))
  {
    var lines := ConceptLines(Take(cs, MaxConceptsShown));
    PieceOfConcat(lines, i);
    InfixExtend(lines[i], ConceptsHeader, Concat(lines), "");
    assert ConceptsHeader + Concat(lines) + "" == ConceptsText(cs);
  }

  /** Each of the first ten relations is listed. */
  lemma RelationListed(rs: seq<Relation>, weightText: real -> string, i: nat)
    requires i < |rs| && i < MaxRelationsShown
    ensures IsInfix(RelationLine(rs[i], weightText), RelationsText(rs, weightText))
  {
    var lines := RelationLines(Take(rs, MaxRelationsShown), weightText);
    PieceOfConcat(lines, i);
    InfixExtend(lines[i], RelationsHeader, Concat(lines), "");
    assert RelationsHeader + Concat(lines) + "" == RelationsText(rs, weightText);
  }

  /** Each hop that has a node to lead to appears in the path's rendering. */
  lemma HopListed(nodes: seq<string>, rels: seq<string>, i: nat)
    requires |nodes| > 0 && i < |rels| && i + 1 < |nodes|
    ensures IsInfix(" --[" + rels[i] + "]--> " + nodes[i + 1], PathString(nodes, rels).value)
  {
    PieceOfConcat(Hops(nodes, rels), i);
    InfixExtend(Hops(nodes, rels)[i], nodes[0], Concat(Hops(nodes, rels)), "");
    assert nodes[0] + Concat(Hops(nodes, rels)) + "" == PathString(nodes, rels).value;
  }

  lemma {:induction false} ConcatOfEmpties(ss: seq<string>)
    requires forall i :: 0 <= i < |ss| ==> ss[i] == ""
    ensures Concat(ss) == ""
  {
    if |ss| > 0 {
      ConcatOfEmpties(ss[..|ss| - 1]);
    }
  }

  /** Relation types beyond the last node are ignored: the rendering equals
      that of the path cut to one relation fewer than it has nodes. */
  lemma {:induction false} ExtraRelationsIgnored(nodes: seq<string>, rels: seq<string>)
    requires |nodes| > 0
    ensures PathString(nodes, rels) == PathString(nodes, Take(rels, |nodes| - 1))
  {
    if |nodes| - 1 < |rels| {
      var m := |nodes| - 1;
      var hs := Hops(nodes, rels);
      assert hs == hs[..m] + hs[m..];
      ConcatAppend(hs[..m], hs[m..]);
      TrailingHopsEmpty(nodes, rels);
      LeadingHopsAgree(nodes, rels);
      assert Concat(hs) == Concat(hs[..m]) + "";
      assert Take(rels, m) == rels[..m];
      assert PathString(nodes, rels).value == nodes[0] + Concat(hs);
      assert PathString(nodes, rels[..m]).value == nodes[0] + Concat(Hops(nodes, rels[..m]));
      assert PathString(nodes, rels).value == PathString(nodes, rels[..m]).value;
    }
  }

  lemma TrailingHopsEmpty(nodes: seq<string>, rels: seq<string>)
    requires 0 < |nodes| <= |rels|
    ensures Concat(Hops(nodes, rels)[|nodes| - 1..]) == ""
  {
    var tail := Hops(nodes, rels)[|nodes| - 1..];
    assert forall j :: 0 <= j < |tail| ==> tail[j] == Hop(nodes, rels, |nodes| - 1 + j);
    ConcatOfEmpties(tail);
  }

  lemma LeadingHopsAgree(nodes: seq<string>, rels: seq<string>)
    requires 0 < |nodes| <= |rels|
    ensures Hops(nodes, rels)[..|nodes| - 1] == Hops(nodes, rels[..|nodes| - 1])
  {
  }

  /** Only the first 8 concepts, 10 relations and 10 neighbours reach the
      prompt: cutting the context to them changes nothing. */
  lemma OnlyLeadingItemsShown(question: string, ctx: RetrievalResult, keywords: seq<string>,
                              weightText: real -> string)
    ensures EnhancedPrompt(question, ctx, keywords, weightText)
         == EnhancedPrompt(question,
                           ctx.(concepts := Take(ctx.concepts, MaxConceptsShown),
                                relations := Take(ctx.relations, MaxRelationsShown),
                                neighbors := Take(ctx.neighbors, MaxNeighborsShown)),
                           keywords, weightText)
  {
    TakeTake(ctx.concepts, MaxConceptsShown, MaxConceptsShown);
    TakeTake(ctx.relations, MaxRelationsShown, MaxRelationsShown);
    TakeTake(ctx.neighbors, MaxNeighborsShown, MaxNeighborsShown);
    assert ConceptsText(Take(ctx.concepts, MaxConceptsShown)) == ConceptsText(ctx.concepts);
    assert RelationsText(Take(ctx.relations, MaxRelationsShown), weightText)
        == RelationsText(ctx.relations, weightText);
    assert NeighborsText(Take(ctx.neighbors, MaxNeighborsShown)) == NeighborsText(ctx.neighbors);
  }

  /** A rendered prompt holds the question verbatim, after the instruction. */
  lemma QuestionInPrompt(question: string, ctx: RetrievalResult, keywords: seq<string>,
                         weightText: real -> string)
    requires EnhancedPrompt(question, ctx, keywords, weightText).Some?
    ensures SystemInstruction + QuestionHeader + question
            <= EnhancedPrompt(question, ctx, keywords, weightText).value
  {
  }

  // ---------------------------------------------------------------- preview

  /** `prompt[:500] + "..." if len(prompt) > 500 else prompt` */
  function PromptPreview(prompt: string): (r: string)
    ensures |r| <= PreviewLength + |Ellipsis|
    ensures |prompt| <= PreviewLength ==> r == prompt
    ensures |prompt| > PreviewLength ==> prompt[..PreviewLength] <= r && |r| == PreviewLength + |Ellipsis|
    ensures Take(prompt, PreviewLength) <= r
  {
    if |prompt| > PreviewLength then prompt[..PreviewLength] + Ellipsis else prompt
  }

  /** Previewing a preview gives the same preview. */
  lemma PreviewIdempotent(prompt: string)
    ensures PromptPreview(PromptPreview(prompt)) == PromptPreview(prompt)
  {
    if |prompt| > PreviewLength {
      var p := PromptPreview(prompt);
      assert p[..PreviewLength] == prompt[..PreviewLength];
    }
  }

  // ---------------------------------------------------------------- the builder

  /** The inner loop of the path section: the first node, then each hop
      whose target node exists. */
  method RenderPath(nodes: seq<string>, rels: seq<string>) returns (r: Option<string>)
    ensures r == PathString(nodes, rels)
  {
    if |nodes| == 0 {
      return None;
    }
    var pathStr := nodes[0];
    for i := 0 to |rels|
      invariant pathStr == nodes[0] + Concat(Hops(nodes, rels)[..i])
    {
      if i + 1 < |nodes| {
        pathStr := pathStr + " --[" + rels[i] + "]--> " + nodes[i + 1];
      }
      ConcatPrefixStep(Hops(nodes, rels), i);
    }
    assert Hops(nodes, rels)[..|rels|] == Hops(nodes, rels);
    r := Some(pathStr);
  }

  method RenderPaths(ps: seq<Path>) returns (r: Option<string>)
    ensures r == PathsText(ps)
  {
    if |ps| == 0 {
      return Some("");
    }
    var text := PathsHeader;
    for j := 0 to |ps|
      invariant PathLines(ps[..j]).Some?
      invariant text == PathsHeader + PathLines(ps[..j]).value
    {
      var pathStr := RenderPath(ps[j].nodeLabels, ps[j].relTypes);
      if pathStr.None? {
        assert ps[j].nodeLabels == [];
        return None;
      }
      ghost var pre := ps[..j + 1];
      assert pre[..|pre| - 1] == ps[..j] && pre[|pre| - 1] == ps[j];
      assert PathLines(pre) == Some(PathLines(ps[..j]).value + "• " + pathStr.value + "\n");
      text := text + "• " + pathStr.value + "\n";
    }
    assert ps[..|ps|] == ps;
    r := Some(text);
  }

  /** One more concept line extends the rendered text by that line. */
  lemma ConceptLinesStep(shown: seq<Concept>, i: nat)
    requires i < |shown|
    ensures forall pre: string :: pre + Concat(ConceptLines(shown)[..i + 1])
                                == pre + Concat(ConceptLines(shown)[..i]) + ConceptLine(i + 1, shown[i])
  {
    ConcatPrefixStep(ConceptLines(shown), i);
  }

  /** One more relation line extends the rendered text by that line. */
  lemma RelationLinesStep(shown: seq<Relation>, weightText: real -> string, i: nat)
    requires i < |shown|
    ensures forall pre: string :: pre + Concat(RelationLines(shown, weightText)[..i + 1])
                                == pre + Concat(RelationLines(shown, weightText)[..i]) + RelationLine(shown[i], weightText)
  {
    ConcatPrefixStep(RelationLines(shown, weightText), i);
  }

  method RenderConcepts(cs: seq<Concept>) returns (text: string)
    ensures text == ConceptsText(cs)
  {
    if |cs| == 0 {
      return NoConcepts;
    }
    var shown := Take(cs, MaxConceptsShown);
    text := ConceptsHeader;
    for i := 0 to |shown|
      invariant text == ConceptsHeader + Concat(ConceptLines(shown)[..i])
    {
      ConceptLinesStep(shown, i);
      text := text + ConceptLine(i + 1, shown[i]);
    }
    assert ConceptLines(shown)[..|shown|] == ConceptLines(shown);
  }

  method RenderRelations(rs: seq<Relation>, weightText: real -> string) returns (text: string)
    ensures text == RelationsText(rs, weightText)
  {
    if |rs| == 0 {
      return "";
    }
    var shown := Take(rs, MaxRelationsShown);
    text := RelationsHeader;
    for i := 0 to |shown|
      invariant text == RelationsHeader + Concat(RelationLines(shown, weightText)[..i])
    {
      RelationLinesStep(shown, weightText, i);
      text := text + RelationLine(shown[i], weightText);
    }
    assert RelationLines(shown, weightText)[..|shown|] == RelationLines(shown, weightText);
  }

  /** `build_enhanced_prompt(question, context, keywords)`; `None` when a path
      has no node labels. */
  method BuildEnhancedPrompt(question: string, ctx: RetrievalResult, keywords: seq<string>,
                             weightText: real -> string) returns (r: Option<string>)
    ensures r == EnhancedPrompt(question, ctx, keywords, weightText)
  {
    var conceptsText := RenderConcepts(ctx.concepts);
    var relationsText := RenderRelations(ctx.relations, weightText);
    var pathsText := RenderPaths(ContextPaths(ctx));
    if pathsText.None? {
      return None;
    }
    var neighborsText := NeighborsText(ctx.neighbors);
    var keywordsText := KeywordsText(keywords);
    var contextText := keywordsText + "\n" + conceptsText + "\n" + relationsText + "\n"
                       + pathsText.value + "\n" + neighborsText;
    r := Some(SystemInstruction + QuestionHeader + question + ContextHeader + contextText + AnswerHeader);
  }
}
