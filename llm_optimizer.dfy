/**
 * The deterministic part of `optimizer/llm_optimizer.py`: the user prompt,
 * the parsing of a model's reply into an `LLMResult`, the gates of
 * `score_result`, and `aggregate`, which scores the replies, ranks them,
 * picks the winner and merges their change notes.
 *
 * The models themselves, the network and the timing are not modelled: the
 * replies arrive as a list of `LLMResult` values. The regular expressions
 * and `json.loads` used on a reply are the parameters in `ResponseParsers`;
 * `check_syntax` and the weighted score formula are the parameters in
 * `Scoring`. Scores and confidences are `real`s.
 *
 * `aggregate` writes `score` and `syntax_ok` into the result objects it is
 * given; here those writes produce updated values, which is all the rest of
 * the function reads.
 */
module LlmOptimizer {
  import opened Wrappers
  import opened Text

  // ------------------------------------------------------------- results

  /** One model's reply: `LLMResult`, with its defaults where the dataclass has them. */
  datatype LLMResult = LLMResult(
    modelId: string,
    modelName: string,
    code: Option<string>,
    changes: seq<string>,
    confidence: real,
    risk: string,
    error: Option<string>,
    score: real,
    syntaxOk: bool,
    latencyMs: nat)

  /** One entry of `ranked_models`. */
  datatype RankedEntry = RankedEntry(
    model: string,
    score: real,
    confidence: real,
    risk: string,
    syntaxOk: bool,
    latencyMs: nat,
    error: Option<string>)

  /** `OptimizationResult`. */
  datatype OptimizationResult = OptimizationResult(
    success: bool,
    optimizedCode: string,
    winningModel: string,
    score: real,
    confidence: real,
    risk: string,
    changesApplied: seq<string>,
    additionalSuggestions: seq<string>,
    syntaxValid: bool,
    rankedModels: seq<RankedEntry>,
    error: Option<string>)

  // -------------------------------------------------------------- prompt

  const QwenThinkingMode: bool := true
  const ThinkPrefix: string := "/think\n\n"
  const PromptHead: string := "Optimize the following Python code. " + "Logic must be preserved exactly.\n\n"

  /** The `/think` prefix for a model, when it is a Qwen model and thinking mode is on. */
  function ThinkingPrefix(modelId: string): string {
    if QwenThinkingMode && Contains(Lower(modelId), "qwen") then ThinkPrefix else ""
  }

  /** `build_user_prompt(code, model_id)`. */
  function BuildUserPrompt(code: string, modelId: string): string {
    ThinkingPrefix(modelId) + PromptHead + "```python\n" + code + "\n```"
  }

  /** The prompt starts with `/think` exactly for a model id containing `qwen` in any case. */
  lemma PromptPrefixIff(code: string, modelId: string)
    ensures ThinkPrefix <= BuildUserPrompt(code, modelId) <==> QwenThinkingMode && Contains(Lower(modelId), "qwen")
  {
    if ThinkingPrefix(modelId) == "" {
      var prompt := BuildUserPrompt(code, modelId);
      assert prompt == PromptHead + "```python\n" + code + "\n```";
      assert PromptHead[0] == 'O';
      assert prompt[0] == 'O';
      assert ThinkPrefix[0] == '/';
    }
  }

  /** The prompt always quotes the code in a Python fence. */
  lemma PromptQuotesCode(code: string, modelId: string)
    ensures Contains(BuildUserPrompt(code, modelId), "```python\n" + code + "\n```")
  {
    var prompt := BuildUserPrompt(code, modelId);
    var quoted := "```python\n" + code + "\n```";
    var head := ThinkingPrefix(modelId) + PromptHead;
    assert prompt == head + quoted;
    assert prompt[|head|..|head| + |quoted|] == quoted;
    ContainsAt(prompt, quoted, |head|);
  }

  // ------------------------------------------------------ reply parsing

  /**
   * What `float()` makes of the `confidence` value: a number, or the text
   * of the `ValueError` or `TypeError` it raises (for `"high"` or `null`).
   */
  datatype Confidence = AsFloat(r: real) | FloatRaises(error: string)

  /**
   * A decoded JSON object: each of the three keys present or missing. The
   * `risk` value is kept as the text `str()` gives it.
   */
  datatype Metadata = Metadata(changes: Option<seq<string>>, confidence: Option<Confidence>, risk: Option<string>)

  /**
   * What `json.loads` gives: `JSONDecodeError`, a value that is not an
   * object (a list, a number, a string or `null`, kept by the name of its
   * Python type, as in `'list'`), or an object.
   */
  datatype Json = Malformed | NotObject(typeName: string) | Object(m: Metadata)

  const DefaultMetadata: Metadata := Metadata(Some([]), Some(AsFloat(0.5)), Some("medium"))

  /**
   * The library calls a reply is parsed with: the `<think>` substitution,
   * group 1 of the ```` ```optimized ````, ```` ```json ```` and
   * ```` ```python ```` (or bare fence) searches, and `json.loads`.
   */
  datatype ResponseParsers = ResponseParsers(
    removeThinkBlocks: string -> string,
    optimizedBlock: string -> Option<string>,
    jsonBlock: string -> Option<string>,
    fenceBlock: string -> Option<string>,
    decodeJson: string -> Json)

  /** `strip_thinking_block(raw)`: the reasoning blocks removed, then surrounding whitespace. */
  function StripThinkingBlock(raw: string, p: ResponseParsers): (r: string)
    ensures r != [] ==> !IsSpace(r[0]) && !IsSpace(r[|r| - 1])
  {
    Strip(p.removeThinkBlocks(raw))
  }

  /** A matched block, stripped. */
  function Stripped(block: Option<string>): (r: Option<string>)
    ensures r.Some? <==> block.Some?
    ensures r.Some? ==> Strip(r.value) == r.value
  {
    match block
    case None => None
    case Some(b) => StripIdempotent(b); Some(Strip(b))
  }

  /** The code of a reply: the `optimized` block, or, when that is missing or empty, the python fence. */
  function ReplyCode(text: string, p: ResponseParsers): (code: Option<string>)
    ensures code.Some? ==> Strip(code.value) == code.value
  {
    var code := Stripped(p.optimizedBlock(text));
    if code.Some? && code.value != "" then code else Stripped(p.fenceBlock(text))
  }

  /**
   * What `metadata` holds once the JSON block is read: the defaults when
   * there is none or it does not decode, otherwise the decoded value.
   */
  function ReplyJson(text: string, p: ResponseParsers): (j: Json)
    ensures !j.Malformed?
  {
    match p.jsonBlock(text)
    case None => Object(DefaultMetadata)
    case Some(block) => if p.decodeJson(block).Malformed? then Object(DefaultMetadata) else p.decodeJson(block)
  }

  /** `parse_llm_response` returns a result, or raises with the given text. */
  datatype ParseOutcome = ParsedReply(result: LLMResult) | ParseRaised(error: string)

  /** The text of the `AttributeError` that `.get` on a non-object value raises. */
  function NoGetError(typeName: string): string {
    "'" + typeName + "' object has no attribute 'get'"
  }

  /**
   * `parse_llm_response(raw, model_id, model_name)`. Reading `changes` from
   * a decoded value that is not an object raises `AttributeError`; a
   * `confidence` that `float()` rejects raises its error; otherwise the
   * result carries the stripped code and the three metadata values.
   */
  function ParseLlmResponse(raw: string, modelId: string, modelName: string, p: ResponseParsers): (o: ParseOutcome)
    ensures var j := ReplyJson(StripThinkingBlock(raw, p), p);
      && (j.NotObject? ==> o == ParseRaised(NoGetError(j.typeName)))
      && (j.Object? && j.m.confidence.Some? && j.m.confidence.value.FloatRaises? ==>
            o == ParseRaised(j.m.confidence.value.error))
      && (o.ParsedReply? <==> j.Object? && (j.m.confidence.None? || j.m.confidence.value.AsFloat?))
    ensures o.ParsedReply? ==>
      && o.result.modelId == modelId && o.result.modelName == modelName
      && o.result.error.None? && o.result.score == 0.0 && !o.result.syntaxOk && o.result.latencyMs == 0
      && (o.result.code.Some? ==> Strip(o.result.code.value) == o.result.code.value)
  {
    var text := StripThinkingBlock(raw, p);
    var j := ReplyJson(text, p);
    if j.NotObject? then ParseRaised(NoGetError(j.typeName))
    else
      var confidence := j.m.confidence.GetOr(AsFloat(0.5));
      if confidence.FloatRaises? then ParseRaised(confidence.error)
      else ParsedReply(LLMResult(modelId, modelName, ReplyCode(text, p), j.m.changes.GetOr([]), confidence.r,
                                 j.m.risk.GetOr("medium"), None, 0.0, false, 0))
  }

  /** Without a JSON block, or with one that does not decode, there are no changes, confidence is 0.5 and risk "medium". */
  lemma ParseDefaults(raw: string, modelId: string, modelName: string, p: ResponseParsers)
    requires var text := StripThinkingBlock(raw, p);
             p.jsonBlock(text).None? || p.decodeJson(p.jsonBlock(text).value).Malformed?
    ensures var o := ParseLlmResponse(raw, modelId, modelName, p);
            o.ParsedReply? && o.result.changes == [] && o.result.confidence == 0.5 && o.result.risk == "medium"
  {
    DefaultsWithoutJson(StripThinkingBlock(raw, p), p);
    ParseOfObject(raw, modelId, modelName, p, DefaultMetadata);
  }

  lemma DefaultsWithoutJson(text: string, p: ResponseParsers)
    requires p.jsonBlock(text).None? || p.decodeJson(p.jsonBlock(text).value).Malformed?
    ensures ReplyJson(text, p) == Object(DefaultMetadata)
  {
  }

  /**
   * A decoded JSON object gives its own values and the default for each
   * key it lacks, unless `float()` rejects its confidence, which raises.
   */
  lemma ParseMissingKeys(raw: string, modelId: string, modelName: string, p: ResponseParsers, m: Metadata)
    requires var text := StripThinkingBlock(raw, p);
             p.jsonBlock(text).Some? && p.decodeJson(p.jsonBlock(text).value) == Object(m)
    ensures var o := ParseLlmResponse(raw, modelId, modelName, p);
      && (m.confidence.Some? && m.confidence.value.FloatRaises? ==> o == ParseRaised(m.confidence.value.error))
      && (m.confidence.None? || m.confidence.value.AsFloat? ==>
            && o.ParsedReply?
            && (m.changes.Some? ==> o.result.changes == m.changes.value)
            && (m.changes.None? ==> o.result.changes == [])
            && (m.confidence.Some? ==> o.result.confidence == m.confidence.value.r)
            && (m.confidence.None? ==> o.result.confidence == 0.5)
            && (m.risk.Some? ==> o.result.risk == m.risk.value)
            && (m.risk.None? ==> o.result.risk == "medium"))
  {
    ParseOfObject(raw, modelId, modelName, p, m);
  }

  /** The values a decoded object gives, once the JSON block is read. */
  lemma ParseOfObject(raw: string, modelId: string, modelName: string, p: ResponseParsers, m: Metadata)
    requires ReplyJson(StripThinkingBlock(raw, p), p) == Object(m)
    ensures var o := ParseLlmResponse(raw, modelId, modelName, p);
      && (m.confidence.Some? && m.confidence.value.FloatRaises? ==> o == ParseRaised(m.confidence.value.error))
      && (m.confidence.None? || m.confidence.value.AsFloat? ==>
            && o.ParsedReply?
            && o.result.changes == m.changes.GetOr([])
            && o.result.confidence == m.confidence.GetOr(AsFloat(0.5)).r
            && o.result.risk == m.risk.GetOr("medium"))
  {
  }

  /** A decoded JSON value that is not an object raises `AttributeError` on `.get`, whatever the reply's code. */
  lemma ParseNotObjectRaises(raw: string, modelId: string, modelName: string, p: ResponseParsers, typeName: string)
    requires var text := StripThinkingBlock(raw, p);
             p.jsonBlock(text).Some? && p.decodeJson(p.jsonBlock(text).value) == NotObject(typeName)
    ensures ParseLlmResponse(raw, modelId, modelName, p) == ParseRaised(NoGetError(typeName))
  {
    assert ReplyJson(StripThinkingBlock(raw, p), p) == NotObject(typeName);
  }

  /** A missing or empty `optimized` block falls back to the python fence; a non-empty one wins. */
  lemma ParseFenceFallback(raw: string, modelId: string, modelName: string, p: ResponseParsers)
    ensures var text := StripThinkingBlock(raw, p);
      var o := ParseLlmResponse(raw, modelId, modelName, p);
      var block := p.optimizedBlock(text);
      o.ParsedReply? ==>
      && (block.Some? && Strip(block.value) != "" ==> o.result.code == Some(Strip(block.value)))
      && (block.None? || Strip(block.value) == "" ==>
            (o.result.code.Some? <==> p.fenceBlock(text).Some?) &&
            (o.result.code.Some? ==> o.result.code.value == Strip(p.fenceBlock(text).value)))
  {
    var text := StripThinkingBlock(raw, p);
    var o := ParseLlmResponse(raw, modelId, modelName, p);
    if o.ParsedReply? {
      assert o.result.code == ReplyCode(text, p);
      ReplyCodeCases(text, p);
    }
  }

  /** The two sources of a reply's code, on the parsed text itself. */
  lemma ReplyCodeCases(text: string, p: ResponseParsers)
    ensures var block := p.optimizedBlock(text);
      && (block.Some? && Strip(block.value) != "" ==> ReplyCode(text, p) == Some(Strip(block.value)))
      && (block.None? || Strip(block.value) == "" ==> ReplyCode(text, p) == Stripped(p.fenceBlock(text)))
  {
    var block := p.optimizedBlock(text);
    if block.Some? {
      assert Stripped(block) == Some(Strip(block.value));
    } else {
      assert Stripped(block) == None;
    }
  }


  // ------------------------------------------------------------ querying

  /** What the client call gives: the reply's text, or the text of the exception it raised. */
  datatype Reply = Replied(raw: string) | RequestFailed(error: string)

  /**
   * `query_llm_sync(model_id, model_name, code, client)` once the request
   * has an answer: an exception, from the request or from parsing the
   * reply, becomes a result with no code, the defaults and the exception's
   * text. The elapsed time is a parameter.
   */
  function QueryLlm(modelId: string, modelName: string, reply: Reply, latencyMs: nat, p: ResponseParsers): (r: LLMResult)
    ensures r.modelId == modelId && r.modelName == modelName && r.latencyMs == latencyMs
    ensures r.score == 0.0 && !r.syntaxOk
    ensures reply.RequestFailed? ==> r.error == Some(reply.error)
    ensures reply.Replied? ==>
      var o := ParseLlmResponse(reply.raw, modelId, modelName, p);
      && (o.ParseRaised? ==> r.error == Some(o.error))
      && (o.ParsedReply? ==> r.error.None? && r.code == o.result.code && r.changes == o.result.changes
                             && r.confidence == o.result.confidence && r.risk == o.result.risk)
    ensures r.error.Some? ==> r.code.None? && r.changes == [] && r.confidence == 0.5 && r.risk == "medium"
  {
    var failed := LLMResult(modelId, modelName, None, [], 0.5, "medium", None, 0.0, false, latencyMs);
    match reply
    case RequestFailed(e) => failed.(error := Some(e))
    case Replied(raw) =>
      match ParseLlmResponse(raw, modelId, modelName, p)
      case ParseRaised(e) => failed.(error := Some(e))
      case ParsedReply(result) => result.(latencyMs := latencyMs)
  }

  /** The models of `MODELS`, as (id, display name), in dictionary order. */
  const Models: seq<(string, string)> := [
    ("llama-3.3-70b-versatile", "LLaMA 3.3 70B (Meta)"),
    ("openai/gpt-oss-120b", "ChatGPT OSS 120B (OpenAI via Groq)"),
    ("qwen/qwen3-32b", "Qwen 3 32B (Alibaba)")]

  /**
   * `fan_out(code, client)`: one query per model, gathered in `MODELS`
   * order. What each model answers and how long it takes are parameters.
   */
  function FanOut(answer: string -> Reply, latency: string -> nat, p: ResponseParsers): (rs: seq<LLMResult>)
    ensures |rs| == |Models|
    ensures forall i :: 0 <= i < |Models| ==>
      rs[i] == QueryLlm(Models[i].0, Models[i].1, answer(Models[i].0), latency(Models[i].0), p)
  {
    seq(|Models|, i requires 0 <= i < |Models| =>
      QueryLlm(Models[i].0, Models[i].1, answer(Models[i].0), latency(Models[i].0), p))
  }

  // ------------------------------------------------------------- scoring

  /** `check_syntax` and the weighted score formula. */
  datatype Scoring = Scoring(checkSyntax: string -> bool, formula: (LLMResult, string) -> real)

  function Max0(x: real): real {
    if x > 0.0 then x else 0.0
  }

  /**
   * `result.score = score_result(result, original_code)`: no code scores 0
   * and leaves `syntax_ok` alone; code that does not parse scores 0 with
   * `syntax_ok` false; otherwise `syntax_ok` is true and the score is the
   * formula's, never below 0.
   */
  function ScoreResult(r: LLMResult, original: string, s: Scoring): (scored: LLMResult)
    ensures scored == r.(score := scored.score, syntaxOk := scored.syntaxOk)
    ensures scored.score >= 0.0
    ensures r.code.None? ==> scored.score == 0.0 && scored.syntaxOk == r.syntaxOk
    ensures r.code.Some? ==> (scored.syntaxOk <==> s.checkSyntax(r.code.value))
    ensures r.code.Some? && !scored.syntaxOk ==> scored.score == 0.0
  {
    if r.code.None? then r.(score := 0.0)
    else if !s.checkSyntax(r.code.value) then r.(syntaxOk := false, score := 0.0)
    else r.(syntaxOk := true, score := Max0(s.formula(r.(syntaxOk := true), original)))
  }

  /** Every result scored. */
  function ScoredAll(rs: seq<LLMResult>, original: string, s: Scoring): (scored: seq<LLMResult>)
    ensures |scored| == |rs|
    ensures forall i :: 0 <= i < |rs| ==> scored[i] == ScoreResult(rs[i], original, s)
  {
    if rs == [] then [] else [ScoreResult(rs[0], original, s)] + ScoredAll(rs[1..], original, s)
  }

  /** The scoring loop of `aggregate`, which writes each result's score and `syntax_ok`. */
  method ScoreAll(valid: seq<LLMResult>, original: string, s: Scoring) returns (scored: seq<LLMResult>)
    ensures scored == ScoredAll(valid, original, s)
  {
    scored := valid;
    for i := 0 to |valid|
      invariant |scored| == |valid|
      invariant forall k :: 0 <= k < i ==> scored[k] == ScoreResult(valid[k], original, s)
      invariant forall k :: i <= k < |valid| ==> scored[k] == valid[k]
    {
      scored := scored[i := ScoreResult(scored[i], original, s)];
    }
  }

  // ------------------------------------------------------------- ranking

  /** The results that produced code, in order. */
  function ValidResults(rs: seq<LLMResult>): (v: seq<LLMResult>)
    ensures |v| <= |rs|
    ensures forall r :: r in v <==> r in rs && r.code.Some?
  {
    if rs == [] then []
    else (if rs[0].code.Some? then [rs[0]] else []) + ValidResults(rs[1..])
  }

  /** The valid results of a concatenation are those of each part, in order. */
  lemma {:induction false} ValidResultsConcat(a: seq<LLMResult>, b: seq<LLMResult>)
    ensures ValidResults(a + b) == ValidResults(a) + ValidResults(b)
    decreases |a|
  {
    if a == [] {
      assert a + b == b;
    } else {
      ValidResultsConcat(a[1..], b);
      assert (a + b)[0] == a[0] && (a + b)[1..] == a[1..] + b;
    }
  }

  /**
   * A query that raised or failed takes no part in the ranking: wherever it
   * stands among the gathered results, the valid results are those of the
   * others.
   */
  lemma FailedQueryDropped(before: seq<LLMResult>, after: seq<LLMResult>, modelId: string, modelName: string,
                           reply: Reply, latencyMs: nat, p: ResponseParsers)
    requires QueryLlm(modelId, modelName, reply, latencyMs, p).error.Some?
    ensures ValidResults(before + [QueryLlm(modelId, modelName, reply, latencyMs, p)] + after)
         == ValidResults(before + after)
  {
    NoCodeDropped(before, after, QueryLlm(modelId, modelName, reply, latencyMs, p));
  }

  /** A result without code is left out of the valid results wherever it stands. */
  lemma NoCodeDropped(before: seq<LLMResult>, after: seq<LLMResult>, q: LLMResult)
    requires q.code.None?
    ensures ValidResults(before + [q] + after) == ValidResults(before + after)
  {
    ValidResultsConcat(before + [q], after);
    ValidResultsConcat(before, [q]);
    ValidResultsConcat(before, after);
    assert ValidResults([q]) == [] by {
      assert [q][1..] == [];
    }
  }

  predicate SortedByScore(rs: seq<LLMResult>) {
    forall i, j :: 0 <= i < j < |rs| ==> rs[i].score >= rs[j].score
  }

  /** `x` placed after every result scoring at least as much. */
  function InsertByScore(x: LLMResult, rs: seq<LLMResult>): (r: seq<LLMResult>)
    ensures |r| == |rs| + 1
  {
    if rs == [] then [x]
    else if rs[0].score >= x.score then [rs[0]] + InsertByScore(x, rs[1..])
    else [x] + rs
  }

  lemma {:induction false} InsertMultiset(x: LLMResult, rs: seq<LLMResult>)
    ensures multiset(InsertByScore(x, rs)) == multiset(rs) + multiset{x}
    decreases |rs|
  {
    if rs != [] && rs[0].score >= x.score {
      InsertMultiset(x, rs[1..]);
      assert rs == [rs[0]] + rs[1..];
    }
  }

  lemma InsertHead(x: LLMResult, rs: seq<LLMResult>)
    ensures InsertByScore(x, rs)[0] == (if rs == [] || x.score > rs[0].score then x else rs[0])
  {
  }

  lemma SortedTail(rs: seq<LLMResult>)
    requires SortedByScore(rs) && rs != []
    ensures SortedByScore(rs[1..])
    ensures |rs| > 1 ==> rs[0].score >= rs[1].score
  {
    forall i, j | 0 <= i < j < |rs[1..]| ensures rs[1..][i].score >= rs[1..][j].score {
      assert rs[1..][i] == rs[i + 1] && rs[1..][j] == rs[j + 1];
    }
  }

  lemma {:induction false} InsertSorted(x: LLMResult, rs: seq<LLMResult>)
    requires SortedByScore(rs)
    ensures SortedByScore(InsertByScore(x, rs))
    decreases |rs|
  {
    if rs != [] && rs[0].score >= x.score {
      var rest := InsertByScore(x, rs[1..]);
      var r := InsertByScore(x, rs);
      SortedTail(rs);
      InsertSorted(x, rs[1..]);
      InsertHead(x, rs[1..]);
      assert r == [rs[0]] + rest;
      assert rest[0].score <= rs[0].score;
      forall i, j | 0 <= i < j < |r| ensures r[i].score >= r[j].score {
        assert r[j] == rest[j - 1];
        if i > 0 {
          assert r[i] == rest[i - 1];
        } else if j > 1 {
          assert rest[0].score >= rest[j - 1].score;
        }
      }
    }
  }

  /**
   * `sorted(valid, key=lambda r: r.score, reverse=True)`: highest score
   * first, and results with equal scores in their original order.
   */
  function Ranked(rs: seq<LLMResult>): (r: seq<LLMResult>)
    ensures multiset(r) == multiset(rs)
    ensures |r| == |rs|
    ensures SortedByScore(r)
  {
    if rs == [] then []
    else
      assert rs == rs[..|rs| - 1] + [rs[|rs| - 1]];
      InsertMultiset(rs[|rs| - 1], Ranked(rs[..|rs| - 1]));
      InsertSorted(rs[|rs| - 1], Ranked(rs[..|rs| - 1]));
      InsertByScore(rs[|rs| - 1], Ranked(rs[..|rs| - 1]))
  }

  /** The position of the first result with the highest score. */
  function BestIndex(rs: seq<LLMResult>): (k: nat)
    requires rs != []
    ensures k < |rs|
    ensures forall i :: 0 <= i < |rs| ==> rs[i].score <= rs[k].score
    ensures forall i :: 0 <= i < k ==> rs[i].score < rs[k].score
  {
    if |rs| == 1 then 0
    else
      var k := BestIndex(rs[..|rs| - 1]);
      if rs[|rs| - 1].score > rs[k].score then |rs| - 1 else k
  }

  /** The winner `ranked[0]` is the first result with the highest score. */
  lemma {:induction false} RankedHead(rs: seq<LLMResult>)
    requires rs != []
    ensures Ranked(rs)[0] == rs[BestIndex(rs)]
  {
    var init := rs[..|rs| - 1];
    InsertHead(rs[|rs| - 1], Ranked(init));
    if |rs| > 1 {
      RankedHead(init);
    }
  }

  /** The results scoring exactly `v`, in their order. */
  function WithScore(rs: seq<LLMResult>, v: real): (r: seq<LLMResult>)
    ensures |r| <= |rs|
  {
    if rs == [] then []
    else (if rs[0].score == v then [rs[0]] else []) + WithScore(rs[1..], v)
  }

  lemma {:induction false} WithScoreConcat(a: seq<LLMResult>, b: seq<LLMResult>, v: real)
    ensures WithScore(a + b, v) == WithScore(a, v) + WithScore(b, v)
    decreases |a|
  {
    if a == [] {
      assert a + b == b;
    } else {
      var h := IfScores(a[0], v);
      calc {
        WithScore(a + b, v);
        { assert a + b == [a[0]] + (a[1..] + b); WithScoreCons(a[0], a[1..] + b, v); }
        h + WithScore(a[1..] + b, v);
        { WithScoreConcat(a[1..], b, v); }
        h + (WithScore(a[1..], v) + WithScore(b, v));
        (h + WithScore(a[1..], v)) + WithScore(b, v);
        { assert a == [a[0]] + a[1..]; WithScoreCons(a[0], a[1..], v); }
        WithScore(a, v) + WithScore(b, v);
      }
    }
  }

  lemma {:induction false} NoneWithScore(rs: seq<LLMResult>, v: real)
    requires forall i :: 0 <= i < |rs| ==> rs[i].score < v
    ensures WithScore(rs, v) == []
    decreases |rs|
  {
    if rs != [] {
      NoneWithScore(rs[1..], v);
    }
  }

  lemma SortedBelowNone(rs: seq<LLMResult>, v: real)
    requires SortedByScore(rs) && rs != [] && rs[0].score < v
    ensures WithScore(rs, v) == []
  {
    forall i | 0 <= i < |rs| ensures rs[i].score < v {
      if i > 0 {
        assert rs[0].score >= rs[i].score;
      }
    }
    NoneWithScore(rs, v);
  }

  lemma RankedLast(rs: seq<LLMResult>)
    requires rs != []
    ensures Ranked(rs) == InsertByScore(rs[|rs| - 1], Ranked(rs[..|rs| - 1]))
  {
  }

  /** `[x]` when `x` scores `v`, otherwise nothing. */
  function IfScores(x: LLMResult, v: real): (r: seq<LLMResult>)
    ensures r == WithScore([x], v)
  {
    assert [x][1..] == [];
    if x.score == v then [x] else []
  }

  lemma WithScoreCons(x: LLMResult, rs: seq<LLMResult>, v: real)
    ensures WithScore([x] + rs, v) == IfScores(x, v) + WithScore(rs, v)
  {
    assert ([x] + rs)[1..] == rs;
  }

  /** Inserting `x` into a ranking places it after every result with its score. */
  lemma {:induction false} InsertStable(x: LLMResult, rs: seq<LLMResult>, v: real)
    requires SortedByScore(rs)
    ensures WithScore(InsertByScore(x, rs), v) == WithScore(rs, v) + IfScores(x, v)
    decreases |rs|
  {
    if rs == [] {
      assert InsertByScore(x, rs) == [x];
    } else if rs[0].score >= x.score {
      InsertPastHead(x, rs, v);
    } else {
      InsertAtHead(x, rs, v);
    }
  }

  lemma {:induction false} InsertPastHead(x: LLMResult, rs: seq<LLMResult>, v: real)
    requires SortedByScore(rs) && rs != [] && rs[0].score >= x.score
    ensures WithScore(InsertByScore(x, rs), v) == WithScore(rs, v) + IfScores(x, v)
    decreases |rs|, 0
  {
    var rest := InsertByScore(x, rs[1..]);
    assert InsertByScore(x, rs) == [rs[0]] + rest;
    WithScoreCons(rs[0], rest, v);
    SortedTail(rs);
    InsertStable(x, rs[1..], v);
    assert rs == [rs[0]] + rs[1..];
    WithScoreCons(rs[0], rs[1..], v);
  }

  lemma InsertAtHead(x: LLMResult, rs: seq<LLMResult>, v: real)
    requires SortedByScore(rs) && rs != [] && rs[0].score < x.score
    ensures WithScore(InsertByScore(x, rs), v) == WithScore(rs, v) + IfScores(x, v)
  {
    assert InsertByScore(x, rs) == [x] + rs;
    WithScoreCons(x, rs, v);
    if x.score == v {
      SortedBelowNone(rs, v);
    }
  }

  /**
   * `sorted` is stable: for every score, the results with that score keep
   * their original order in the ranking.
   */
  lemma {:induction false} RankedStable(rs: seq<LLMResult>, v: real)
    ensures WithScore(Ranked(rs), v) == WithScore(rs, v)
    decreases |rs|
  {
    if rs != [] {
      var init := rs[..|rs| - 1];
      var last := rs[|rs| - 1];
      var r0 := Ranked(init);
      calc {
        WithScore(Ranked(rs), v);
        { RankedLast(rs); }
        WithScore(InsertByScore(last, r0), v);
        { InsertStable(last, r0, v); }
        WithScore(r0, v) + IfScores(last, v);
        { RankedStable(init, v); }
        WithScore(init, v) + WithScore([last], v);
        { WithScoreConcat(init, [last], v); }
        WithScore(init + [last], v);
        { assert init + [last] == rs; }
        WithScore(rs, v);
      }
    }
  }

  // ------------------------------------------------------- change notes

  predicate NoDup(xs: seq<string>) {
    forall i, j :: 0 <= i < j < |xs| ==> xs[i] != xs[j]
  }

  /** The position of the first occurrence of `x`. */
  function IndexOf(xs: seq<string>, x: string): (k: nat)
    requires x in xs
    ensures k < |xs| && xs[k] == x && x !in xs[..k]
  {
    if xs[0] == x then 0
    else
      var k := 1 + IndexOf(xs[1..], x);
      assert xs[..k] == [xs[0]] + xs[1..][..k - 1];
      k
  }

  lemma IndexOfUnique(xs: seq<string>, x: string, k: nat)
    requires k < |xs| && xs[k] == x && x !in xs[..k]
    ensures IndexOf(xs, x) == k
  {
    var m := IndexOf(xs, x);
  }

  lemma IndexOfSnoc(xs: seq<string>, y: string, x: string)
    requires x in xs
    ensures IndexOf(xs + [y], x) == IndexOf(xs, x)
  {
    var k := IndexOf(xs, x);
    assert (xs + [y])[..k] == xs[..k];
    IndexOfUnique(xs + [y], x, k);
  }

  /** Every change note of the results, in order. */
  function AllChanges(rs: seq<LLMResult>): seq<string> {
    if rs == [] then [] else AllChanges(rs[..|rs| - 1]) + rs[|rs| - 1].changes
  }

  function AddNew(acc: seq<string>, x: string): seq<string> {
    if x in acc then acc else acc + [x]
  }

  /** The notes without repeats, each where it first appears. */
  function Dedup(xs: seq<string>): (d: seq<string>)
    ensures forall x :: x in d <==> x in xs
    ensures NoDup(d)
  {
    if xs == [] then []
    else
      assert xs == xs[..|xs| - 1] + [xs[|xs| - 1]];
      AddNew(Dedup(xs[..|xs| - 1]), xs[|xs| - 1])
  }

  /** The merged notes keep the order in which the notes first appear. */
  lemma {:induction false} DedupOrder(xs: seq<string>)
    ensures forall i, j :: 0 <= i < j < |Dedup(xs)| ==> IndexOf(xs, Dedup(xs)[i]) < IndexOf(xs, Dedup(xs)[j])
  {
    if xs != [] {
      var init, y := xs[..|xs| - 1], xs[|xs| - 1];
      assert xs == init + [y];
      DedupOrder(init);
      var d0, d := Dedup(init), Dedup(xs);
      forall z | z in d0 ensures IndexOf(xs, z) == IndexOf(init, z) {
        IndexOfSnoc(init, y, z);
      }
      if y !in d0 {
        assert y !in xs[..|init|];
        IndexOfUnique(xs, y, |init|);
        forall i, j | 0 <= i < j < |d| ensures IndexOf(xs, d[i]) < IndexOf(xs, d[j]) {
          assert d[i] in d0;
          if j < |d0| {
            assert d[j] in d0;
          }
        }
      }
    }
  }

  /** The merge loop of `aggregate`: every note of every ranked result, once, in order. */
  method MergeChanges(ranked: seq<LLMResult>) returns (all: seq<string>)
    ensures all == Dedup(AllChanges(ranked))
  {
    all := [];
    for i := 0 to |ranked|
      invariant all == Dedup(AllChanges(ranked[..i]))
    {
      all := AddChanges(all, AllChanges(ranked[..i]), ranked[i].changes);
      assert ranked[..i + 1][..i] == ranked[..i];
    }
    assert ranked[..|ranked|] == ranked;
  }

  /** The inner loop of the merge: one reply's notes appended when new. */
  method AddChanges(acc: seq<string>, ghost before: seq<string>, changes: seq<string>) returns (all: seq<string>)
    requires acc == Dedup(before)
    ensures all == Dedup(before + changes)
  {
    all := acc;
    assert before + changes[..0] == before;
    for j := 0 to |changes|
      invariant all == Dedup(before + changes[..j])
    {
      DedupSnoc(before + changes[..j], changes[j]);
      assert before + changes[..j + 1] == (before + changes[..j]) + [changes[j]];
      if changes[j] !in all {
        all := all + [changes[j]];
      }
    }
    assert changes[..|changes|] == changes;
  }

  lemma DedupSnoc(xs: seq<string>, x: string)
    ensures Dedup(xs + [x]) == AddNew(Dedup(xs), x)
  {
    assert (xs + [x])[..|xs + [x]| - 1] == xs;
  }

  /** `[c for c in xs if c not in ws]`. */
  function Without(xs: seq<string>, ws: seq<string>): (r: seq<string>)
    ensures forall c :: c in r ==> c in xs
  {
    if xs == [] then []
    else (if xs[0] in ws then [] else [xs[0]]) + Without(xs[1..], ws)
  }

  /** Filtering keeps exactly the notes not in `ws`. */
  lemma {:induction false} WithoutMembers(xs: seq<string>, ws: seq<string>)
    ensures forall c :: c in Without(xs, ws) <==> c in xs && c !in ws
  {
    if xs != [] {
      WithoutMembers(xs[1..], ws);
      assert xs == [xs[0]] + xs[1..];
    }
  }

  lemma NoDupTail(xs: seq<string>)
    requires NoDup(xs) && xs != []
    ensures NoDup(xs[1..]) && xs[0] !in xs[1..]
  {
    var tail := xs[1..];
    forall i, j | 0 <= i < j < |tail| ensures tail[i] != tail[j] {
      assert tail[i] == xs[i + 1] && tail[j] == xs[j + 1];
    }
    forall i | 0 <= i < |tail| ensures tail[i] != xs[0] {
      assert tail[i] == xs[i + 1];
    }
  }

  lemma IndexOfTail(xs: seq<string>, z: string)
    requires xs != [] && z in xs[1..] && z != xs[0]
    ensures IndexOf(xs, z) == 1 + IndexOf(xs[1..], z)
  {
  }

  /** Filtering keeps a list without repeats free of them. */
  lemma {:induction false} WithoutNoDup(xs: seq<string>, ws: seq<string>)
    requires NoDup(xs)
    ensures NoDup(Without(xs, ws))
  {
    if xs != [] {
      NoDupTail(xs);
      WithoutNoDup(xs[1..], ws);
      WithoutMembers(xs[1..], ws);
      var rt := Without(xs[1..], ws);
      if xs[0] !in ws {
        var r := Without(xs, ws);
        assert r == [xs[0]] + rt;
        assert xs[0] !in rt;
        forall i, j | 0 <= i < j < |r| ensures r[i] != r[j] {
          assert r[j] == rt[j - 1];
          if i > 0 {
            assert r[i] == rt[i - 1];
          }
        }
      }
    }
  }

  /** Where the `i`-th kept note sits in the unfiltered list. */
  function WithoutPos(xs: seq<string>, ws: seq<string>, i: nat): (p: nat)
    requires i < |Without(xs, ws)|
    ensures p < |xs| && xs[p] == Without(xs, ws)[i]
    decreases |xs|
  {
    if xs[0] !in ws && i == 0 then 0
    else if xs[0] !in ws then 1 + WithoutPos(xs[1..], ws, i - 1)
    else 1 + WithoutPos(xs[1..], ws, i)
  }

  /** Later kept notes come from later positions. */
  lemma {:induction false} WithoutPosIncreasing(xs: seq<string>, ws: seq<string>, i: nat, j: nat)
    requires i < j < |Without(xs, ws)|
    ensures WithoutPos(xs, ws, i) < WithoutPos(xs, ws, j)
    decreases |xs|
  {
    var tail := xs[1..];
    if xs[0] in ws {
      assert Without(xs, ws) == Without(tail, ws);
      WithoutPosIncreasing(tail, ws, i, j);
      assert WithoutPos(xs, ws, i) == 1 + WithoutPos(tail, ws, i);
      assert WithoutPos(xs, ws, j) == 1 + WithoutPos(tail, ws, j);
    } else {
      assert |Without(xs, ws)| == 1 + |Without(tail, ws)|;
      assert WithoutPos(xs, ws, j) == 1 + WithoutPos(tail, ws, j - 1);
      if i > 0 {
        WithoutPosIncreasing(tail, ws, i - 1, j - 1);
        assert WithoutPos(xs, ws, i) == 1 + WithoutPos(tail, ws, i - 1);
      }
    }
  }

  /** In a list without repeats, the first occurrence of the note at `p` is `p`. */
  lemma IndexOfNoDup(xs: seq<string>, p: nat)
    requires NoDup(xs) && p < |xs|
    ensures IndexOf(xs, xs[p]) == p
  {
    var k := IndexOf(xs, xs[p]);
    assert xs[k] == xs[p];
  }

  /** Filtering keeps the order of a list without repeats: one pair of kept notes. */
  lemma WithoutOrderPair(xs: seq<string>, ws: seq<string>, i: nat, j: nat)
    requires NoDup(xs) && i < j < |Without(xs, ws)|
    ensures IndexOf(xs, Without(xs, ws)[i]) < IndexOf(xs, Without(xs, ws)[j])
  {
    WithoutPosIncreasing(xs, ws, i, j);
    IndexOfNoDup(xs, WithoutPos(xs, ws, i));
    IndexOfNoDup(xs, WithoutPos(xs, ws, j));
  }

  /** Filtering keeps the order of a list without repeats. */
  lemma WithoutOrder(xs: seq<string>, ws: seq<string>)
    requires NoDup(xs)
    ensures forall i, j :: 0 <= i < j < |Without(xs, ws)| ==>
              IndexOf(xs, Without(xs, ws)[i]) < IndexOf(xs, Without(xs, ws)[j])
  {
    forall i, j | 0 <= i < j < |Without(xs, ws)|
      ensures IndexOf(xs, Without(xs, ws)[i]) < IndexOf(xs, Without(xs, ws)[j])
    {
      WithoutOrderPair(xs, ws, i, j);
    }
  }

  // --------------------------------------------------------- aggregation

  function Entry(r: LLMResult): RankedEntry {
    RankedEntry(r.modelName, r.score, r.confidence, r.risk, r.syntaxOk, r.latencyMs, r.error)
  }

  /** `ranked_models`: one entry per ranked result, in ranking order. */
  function Entries(rs: seq<LLMResult>): (es: seq<RankedEntry>)
    ensures |es| == |rs|
    ensures forall i :: 0 <= i < |rs| ==> es[i] == Entry(rs[i])
  {
    if rs == [] then [] else [Entry(rs[0])] + Entries(rs[1..])
  }

  /** `r.error or "unknown"`: an empty error counts as missing. */
  function ErrorText(r: LLMResult): string {
    if r.error.Some? && r.error.value != "" then r.error.value else "unknown"
  }

  function ErrorTexts(rs: seq<LLMResult>): (ts: seq<string>)
    ensures |ts| == |rs|
    ensures forall i :: 0 <= i < |rs| ==> ts[i] == ErrorText(rs[i])
  {
    if rs == [] then [] else [ErrorText(rs[0])] + ErrorTexts(rs[1..])
  }

  function FailureMessage(rs: seq<LLMResult>): string {
    "All LLMs failed: " + Join(ErrorTexts(rs), "; ")
  }

  /** The failure message names the error of every reply, or "unknown" for one without. */
  lemma FailureMessageNamesErrors(rs: seq<LLMResult>, i: nat)
    requires i < |rs|
    ensures Contains(FailureMessage(rs), ErrorText(rs[i]))
    ensures rs[i].error.Some? && rs[i].error.value != "" ==> Contains(FailureMessage(rs), rs[i].error.value)
  {
    JoinContains(ErrorTexts(rs), "; ", i);
    ContainsSuffix("All LLMs failed: ", Join(ErrorTexts(rs), "; "), ErrorText(rs[i]));
  }

  /** `winner.code or original_code`. */
  function WinningCode(winner: LLMResult, original: string): string {
    if winner.code.Some? && winner.code.value != "" then winner.code.value else original
  }

  /**
   * What `aggregate(results, original_code)` returns: without a valid
   * result, the failure result naming every error; otherwise the winner of
   * the ranking of the scored valid results, with the merged notes it did
   * not apply and the ranking itself.
   */
  predicate AggregatedFrom(results: seq<LLMResult>, original: string, s: Scoring, out: OptimizationResult) {
    && (ValidResults(results) == [] ==>
      && !out.success && !out.syntaxValid
      && out.optimizedCode == original && out.winningModel == "none"
      && out.score == 0.0 && out.confidence == 0.0 && out.risk == "high"
      && out.changesApplied == [] && out.additionalSuggestions == [] && out.rankedModels == []
      && out.error == Some(FailureMessage(results)))
    && (ValidResults(results) != [] ==>
      var ranked := Ranked(ScoredAll(ValidResults(results), original, s));
      var winner := ranked[0];
      && out.success == winner.syntaxOk && out.syntaxValid == winner.syntaxOk
      && out.optimizedCode == WinningCode(winner, original)
      && out.winningModel == winner.modelName && out.score == winner.score
      && out.confidence == winner.confidence && out.risk == winner.risk
      && out.changesApplied == winner.changes
      && out.additionalSuggestions == Without(Dedup(AllChanges(ranked)), winner.changes)
      && out.rankedModels == Entries(ranked)
      && out.error.None?)
  }

  /** `aggregate(results, original_code)`. */
  method Aggregate(results: seq<LLMResult>, original: string, s: Scoring) returns (out: OptimizationResult)
    ensures AggregatedFrom(results, original, s, out)
  {
    var valid := ValidResults(results);
    if valid == [] {
      return OptimizationResult(false, original, "none", 0.0, 0.0, "high", [], [], false, [],
                                Some(FailureMessage(results)));
    }
    var scored := ScoreAll(valid, original, s);
    var ranked := Ranked(scored);
    var winner := ranked[0];
    var all := MergeChanges(ranked);
    var extra := Without(all, winner.changes);
    out := OptimizationResult(winner.syntaxOk, WinningCode(winner, original), winner.modelName, winner.score,
                              winner.confidence, winner.risk, winner.changes, extra, winner.syntaxOk,
                              Entries(ranked), None);
  }

  /**
   * What `aggregate` promises when some reply has code: the winner is the
   * first reply with the highest score; the merged notes hold every note of
   * every reply once, in order of first appearance over the ranking; the
   * extra suggestions are exactly the merged notes the winner did not make,
   * in the same order, so none of them is among the changes applied.
   */
  lemma AggregateFacts(results: seq<LLMResult>, original: string, s: Scoring)
    requires ValidResults(results) != []
    ensures var scored := ScoredAll(ValidResults(results), original, s);
      var ranked := Ranked(scored);
      var all := Dedup(AllChanges(ranked));
      var extra := Without(all, ranked[0].changes);
      && ranked[0] == scored[BestIndex(scored)]
      && (forall r :: r in scored ==> r.score <= ranked[0].score)
      && NoDup(all)
      && (forall c :: c in all <==> exists r :: r in ranked && c in r.changes)
      && (forall i, j :: 0 <= i < j < |all| ==> IndexOf(AllChanges(ranked), all[i]) < IndexOf(AllChanges(ranked), all[j]))
      && NoDup(extra)
      && (forall i, j :: 0 <= i < j < |extra| ==> IndexOf(all, extra[i]) < IndexOf(all, extra[j]))
      && (forall c :: c in extra <==> c in all && c !in ranked[0].changes)
  {
    var scored := ScoredAll(ValidResults(results), original, s);
    var ranked := Ranked(scored);
    RankedHead(scored);
    DedupOrder(AllChanges(ranked));
    WithoutNoDup(Dedup(AllChanges(ranked)), ranked[0].changes);
    WithoutOrder(Dedup(AllChanges(ranked)), ranked[0].changes);
    WithoutMembers(Dedup(AllChanges(ranked)), ranked[0].changes);
    AllChangesMembers(ranked);
  }

  lemma {:induction false} AllChangesMembers(rs: seq<LLMResult>)
    ensures forall c :: c in AllChanges(rs) <==> exists r :: r in rs && c in r.changes
  {
    if rs != [] {
      var init := rs[..|rs| - 1];
      AllChangesMembers(init);
      assert rs == init + [rs[|rs| - 1]];
      forall c | c in AllChanges(rs) ensures exists r :: r in rs && c in r.changes {
        if c in AllChanges(init) {
          var r :| r in init && c in r.changes;
          assert r in rs;
        } else {
          assert rs[|rs| - 1] in rs;
        }
      }
    }
  }

  // --------------------------------------------------------- entry point

  /** The names `llm_optimizer.py` binds at module level: its imports, constants, classes and functions. */
  const ModuleNames: set<string> := {
    "asyncio", "ast", "json", "re", "time", "dataclass", "field", "SequenceMatcher", "Optional", "Groq", "os",
    "api_key", "MODELS", "QWEN_THINKING_MODE", "WEIGHT_CONFIDENCE", "WEIGHT_SIMILARITY", "WEIGHT_RISK",
    "SIMILARITY_TARGET", "LLMResult", "OptimizationResult", "SYSTEM_PROMPT", "build_user_prompt",
    "strip_thinking_block", "parse_llm_response", "query_llm_sync", "fan_out", "check_syntax",
    "similarity_ratio", "RISK_PENALTY", "score_result", "aggregate", "optimize", "print_result"}

  /** Line 15 binds `api_key`; nothing binds `GROQ_API_KEY`. */
  lemma KeyNames()
    ensures "api_key" in ModuleNames && "GROQ_API_KEY" !in ModuleNames
  {
  }

  /** The text of the `NameError` that reading an unbound global raises. */
  function NameErrorOf(name: string): string {
    "name '" + name + "' is not defined"
  }

  /** `optimize(code)` returns the aggregated result, or raises with the given text. */
  datatype OptimizeOutcome = Optimized(result: OptimizationResult) | OptimizeRaised(error: string)

  /**
   * `optimize(code)`, reading the API key from the global `keyName`: a name
   * the module does not bind raises `NameError` before any model is
   * queried; otherwise the replies of all the models are aggregated.
   */
  method OptimizeWithKey(keyName: string, code: string, answer: string -> Reply, latency: string -> nat,
                         p: ResponseParsers, s: Scoring) returns (out: OptimizeOutcome)
    ensures keyName !in ModuleNames <==> out == OptimizeRaised(NameErrorOf(keyName))
    ensures keyName in ModuleNames ==> out.Optimized? && AggregatedFrom(FanOut(answer, latency, p), code, s, out.result)
  {
    if keyName !in ModuleNames {
      return OptimizeRaised(NameErrorOf(keyName));
    }
    var results := FanOut(answer, latency, p);
    var aggregated := Aggregate(results, code, s);
    return Optimized(aggregated);
  }

  /** `optimize(code)` as written: the key is read from `GROQ_API_KEY`, which the module never binds, so every call raises. */
  method Optimize(code: string, answer: string -> Reply, latency: string -> nat, p: ResponseParsers, s: Scoring)
    returns (out: OptimizeOutcome)
    ensures out == OptimizeRaised("name 'GROQ_API_KEY' is not defined")
  {
    KeyNames();
    out := OptimizeWithKey("GROQ_API_KEY", code, answer, latency, p, s);
  }

  /** `optimize(code)` reading the key from `api_key`, the global that holds it: every call aggregates the replies. */
  method OptimizeCorrected(code: string, answer: string -> Reply, latency: string -> nat, p: ResponseParsers,
                           s: Scoring) returns (out: OptimizeOutcome)
    ensures out.Optimized? && AggregatedFrom(FanOut(answer, latency, p), code, s, out.result)
  {
    KeyNames();
    out := OptimizeWithKey("api_key", code, answer, latency, p, s);
  }
}
