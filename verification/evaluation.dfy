/** `evaluate_and_save` with its providers, clock and file system lifted
    out: each ground-truth row is retrieved, answered and scored, and the
    scores are aggregated into the fixed list of twenty metrics. */
module Evaluation {
  import opened Common
  import opened Text
  import Settings
  import opened Store
  import opened Rag
  import opened Scoring
  import opened Aggregates

  /** One ground-truth row as read from the JSON file; absent keys are
      `None` (the keyword list defaults to empty). */
  datatype GroundTruthRow = GroundTruthRow(
    id: Option<string>, question: Option<string>, expectedSource: Option<string>, expectedKeywords: seq<string>)

  /** The three stopwatch readings of one question, in milliseconds. */
  datatype Latency = Latency(retrievalMs: real, generationMs: real, totalMs: real)

  /** One entry of `per_question`. */
  datatype QuestionRecord = QuestionRecord(
    id: Option<string>,
    question: string,
    expectedSource: Option<string>,
    retrievedSources: seq<string>,
    topSource: Option<string>,
    sourceRank: Option<nat>,
    hitAt1: nat,
    hitAt3: nat,
    hitAt4: nat,
    answer: string,
    answerNonEmpty: nat,
    isRefusal: nat,
    isGrounded: nat,
    answerContextOverlap: real,
    expectedKeywordCoverage: real,
    retrievalLatencyMs: real,
    generationLatencyMs: real,
    totalLatencyMs: real,
    contextChars: nat,
    answerChars: nat)

  /** A record together with the two scores that are only kept in the
      running lists. */
  datatype Scored = Scored(record: QuestionRecord, reciprocalRank: real, precision: real)

  /** The external services one evaluation run talks to. */
  datatype Providers = Providers(embed: Embedder, nearest: NearestQuery, complete: Completion)

  /** `_metric`: one entry of the metric list. */
  datatype Metric = Metric(key: string, name: string, value: real, unit: string, category: string)

  /** The report written to disk. */
  datatype Report = Report(
    generatedAt: string,
    groundTruthPath: string,
    promptTemplateId: string,
    topK: int,
    totalMetrics: nat,
    metrics: seq<Metric>,
    perQuestion: seq<QuestionRecord>)

  datatype EvalError = GroundTruthNotFound | ServiceUnavailable(message: string)

  const DefaultTopK: int := 4
  const DefaultTemplateId: string := "persona_professional"

  // ------------------------------------------------------------ one question

  /** `retrieved_sources`: the source of every retrieved chunk, in order. */
  function Sources(chunks: seq<RetrievedChunk>): (r: seq<string>)
    ensures |r| == |chunks| && forall i :: 0 <= i < |chunks| ==> r[i] == chunks[i].source
  {
    seq(|chunks|, i requires 0 <= i < |chunks| => chunks[i].source)
  }

  /** `context_text`: the chunk texts joined by a blank line (no source
      headers, unlike the prompt context). */
  function ContextText(chunks: seq<RetrievedChunk>): (r: string)
    ensures |chunks| == 0 ==> r == ""
    ensures |chunks| == 1 ==> r == chunks[0].chunkText
  {
    Join("\n\n", seq(|chunks|, i requires 0 <= i < |chunks| => chunks[i].chunkText))
  }

  /** One more chunk appends a blank line and that chunk's text to a
      non-empty context text, so the texts appear in chunk order. */
  lemma ContextTextAppend(chunks: seq<RetrievedChunk>, c: RetrievedChunk)
    requires |chunks| > 0
    ensures ContextText(chunks + [c]) == ContextText(chunks) + "\n\n" + c.chunkText
  {
    var texts := seq(|chunks|, i requires 0 <= i < |chunks| => chunks[i].chunkText);
    assert seq(|chunks + [c]|, i requires 0 <= i < |chunks + [c]| => (chunks + [c])[i].chunkText) == texts + [c.chunkText];
    JoinAppend("\n\n", texts, c.chunkText);
  }

  function TemplateText(template: Option<PromptTemplate>): Option<string> {
    if template.Some? then Some(template.value.template) else None
  }

  /** The answer: the fallback refusal when nothing was retrieved, otherwise
      the provider's reply to a prompt with an empty history (or the
      generation fallback when the reply is empty). It is never empty. */
  function EvalAnswer(svc: Service, complete: Completion, question: string, chunks: seq<RetrievedChunk>,
                      template: Option<PromptTemplate>): (a: string)
    ensures a != ""
    ensures |chunks| == 0 ==> a == Settings.RefusalText
    ensures |chunks| > 0 ==>
      var reply := complete(AnswerRequest(question, chunks, [], TemplateText(template)));
      a == (if reply != "" then reply else GenerationFallback)
  {
    if |chunks| == 0 then Settings.RefusalText
    else GenerateAnswer(svc, complete, question, chunks, [], TemplateText(template))
  }

  /** The unique source list starts with the first retrieved source. */
  lemma DedupHead(xs: seq<string>)
    ensures |xs| > 0 ==> |Dedup(xs)| > 0 && Dedup(xs)[0] == xs[0]
  {
    if |xs| == 0 { return; }
    var d := Dedup(xs);
    assert xs[0] in d;
    assert IndexOf(xs, xs[0]) == 0;
  }

  /** The retrieval half of a question's scores. */
  datatype RetrievalScores = RetrievalScores(
    unique: seq<string>, topSource: Option<string>, rank: Option<nat>,
    hitAt1: nat, hitAt3: nat, hitAt4: nat, reciprocalRank: real, precision: real)

  /** The answer half of a question's scores. */
  datatype AnswerScores = AnswerScores(nonEmpty: nat, refusal: nat, grounded: nat, overlap: real, coverage: real)

  /** `unique_sources`: the retrieved sources, each once, in first-occurrence
      order, headed by the first retrieved chunk's source. */
  function UniqueSources(chunks: seq<RetrievedChunk>): (u: seq<string>)
    ensures NoDuplicates(u) && forall x :: x in u <==> x in Sources(chunks)
    ensures TopSource(u) == (if |chunks| == 0 then None else Some(chunks[0].source))
  {
    DedupHead(Sources(chunks));
    Dedup(Sources(chunks))
  }

  /** Scores the unique retrieved sources against the expected source. The
      hits are 0/1 flags with hit@1 <= hit@3 <= hit@4, all 0 without an
      expected source; the rank exists exactly when the expected source is
      present, non-empty and among the first `top_k` unique sources, where it
      sits at that 1-based position; the reciprocal rank is its inverse (0
      without a rank); reciprocal rank and precision lie in [0, 1]. */
  function ScoreRetrieval(expected: Option<string>, unique: seq<string>, topK: int): (r: RetrievalScores)
    ensures r.unique == unique && r.topSource == TopSource(unique)
    ensures r.hitAt1 <= r.hitAt3 <= r.hitAt4 <= 1
    ensures !HasExpected(expected) ==> r.hitAt1 == r.hitAt3 == r.hitAt4 == 0
    ensures r.rank.Some? <==> HasExpected(expected) && expected.value in SliceTo(unique, topK)
    ensures r.rank.Some? ==> 1 <= r.rank.value <= |SliceTo(unique, topK)|
    ensures r.rank.Some? ==> SliceTo(unique, topK)[r.rank.value - 1] == expected.value
    ensures r.rank.Some? ==> r.reciprocalRank == 1.0 / r.rank.value as real
    ensures r.rank.None? ==> r.reciprocalRank == 0.0
    ensures 0.0 <= r.reciprocalRank <= 1.0 && 0.0 <= r.precision <= 1.0
  {
    HitsOrdered(unique, expected);
    var rank := SourceRank(unique, expected, topK);
    RetrievalScores(
      unique, TopSource(unique), rank,
      HitAt1(unique, expected), HitAt(unique, expected, 3), HitAt(unique, expected, 4),
      ReciprocalRank(rank), PrecisionAtK(unique, expected, topK))
  }

  /** Scores an answer against the context text and the expected keywords:
      0/1 flags and ratios in [0, 1]. */
  function ScoreAnswer(answer: string, context: string, keywords: seq<string>): (a: AnswerScores)
    ensures a.nonEmpty <= 1 && a.refusal <= 1 && a.grounded <= 1
    ensures 0.0 <= a.overlap <= 1.0 && 0.0 <= a.coverage <= 1.0
  {
    var overlap := AnswerContextOverlap(answer, context);
    AnswerScores(Flag(!IsBlank(answer)), IsRefusal(answer), IsGrounded(answer, overlap),
                 overlap, KeywordCoverage(answer, keywords))
  }

  /** The answer flags as the source defines them. */
  lemma AnswerFlags(answer: string, context: string, keywords: seq<string>)
    ensures var a := ScoreAnswer(answer, context, keywords);
      && (a.nonEmpty == 1 <==> !IsBlank(answer))
      && (a.grounded == 1 <==> !IsBlank(answer) && a.overlap >= GroundedThreshold)
      && (a.refusal == 1 <==> IsSubstring(Lower(Settings.RefusalText), Lower(answer)))
  {
  }

  /** The shape every scored question has: 0/1 flags with hit@1 <= hit@3 <=
      hit@4, and ratios, reciprocal rank and precision in [0, 1]. */
  predicate WellFormed(s: Scored) {
    var r := s.record;
    && r.hitAt1 <= r.hitAt3 <= r.hitAt4 <= 1
    && r.answerNonEmpty <= 1 && r.isRefusal <= 1 && r.isGrounded <= 1
    && 0.0 <= r.answerContextOverlap <= 1.0
    && 0.0 <= r.expectedKeywordCoverage <= 1.0
    && 0.0 <= s.reciprocalRank <= 1.0
    && 0.0 <= s.precision <= 1.0
  }

  /** The per-question record of one row whose (stripped) question retrieved
      `chunks` and was answered with `answer`; it is well formed and carries
      the row's identity and the measured latencies. */
  function ScoreQuestion(row: GroundTruthRow, question: string, chunks: seq<RetrievedChunk>, answer: string,
                         latency: Latency, topK: int): (s: Scored)
    ensures WellFormed(s)
    ensures s.record.id == row.id && s.record.question == question && s.record.expectedSource == row.expectedSource
    ensures s.record.retrievalLatencyMs == latency.retrievalMs && s.record.generationLatencyMs == latency.generationMs
    ensures s.record.totalLatencyMs == latency.totalMs
  {
    var context := ContextText(chunks);
    var ret := ScoreRetrieval(row.expectedSource, UniqueSources(chunks), topK);
    var ans := ScoreAnswer(answer, context, row.expectedKeywords);
    var record := QuestionRecord(
      row.id, question, row.expectedSource, ret.unique, ret.topSource, ret.rank,
      ret.hitAt1, ret.hitAt3, ret.hitAt4,
      answer, ans.nonEmpty, ans.refusal, ans.grounded, ans.overlap, ans.coverage,
      latency.retrievalMs, latency.generationMs, latency.totalMs,
      |context|, |answer|);
    Scored(record, ret.reciprocalRank, ret.precision)
  }

  /** The chunks retrieved for a question: its embedding, sent to the store
      with the configured `rag_top_k`. */
  function Retrieve(svc: Service, providers: Providers, question: string): (r: seq<RetrievedChunk>)
    ensures r == QueryDocumentChunks(providers.nearest, EmbedText(svc, providers.embed, question), Settings.RagTopK)
  {
    FindRelevantChunks(svc, providers.nearest, EmbedText(svc, providers.embed, question))
  }

  /** The scored record of one ground-truth row: its stripped question is
      retrieved for, answered and scored against the row. */
  function ScoreRowOf(svc: Service, providers: Providers, template: Option<PromptTemplate>, row: GroundTruthRow,
                      latency: Latency, topK: int): (s: Scored)
    ensures ScoredRow(s, row, latency)
  {
    var question := Strip(row.question.GetOr(""));
    var chunks := Retrieve(svc, providers, question);
    ScoreQuestion(row, question, chunks, EvalAnswer(svc, providers.complete, question, chunks, template), latency, topK)
  }

  /** One iteration of the evaluation loop: strip the question, embed it,
      retrieve, answer and score. The record is the row's scored record: it
      lists the distinct sources of the chunks the store returned for
      `rag_top_k` (the caller's `top_k` only enters the rank and the
      precision), it is well formed, belongs to the row, carries the
      measured latencies and a non-empty answer, and an empty retrieval is
      answered with the refusal text. */
  method RunQuestion(svc: Service, providers: Providers, template: Option<PromptTemplate>, row: GroundTruthRow,
                     latency: Latency, topK: int) returns (s: Scored)
    ensures s == ScoreRowOf(svc, providers, template, row, latency, topK)
    ensures ScoredRow(s, row, latency)
    ensures s.record.answer != ""
    ensures s.record.retrievedSources == [] ==> s.record.answer == Settings.RefusalText && s.record.isRefusal == 1
  {
    var question := Strip(row.question.GetOr(""));
    var chunks := Retrieve(svc, providers, question);
    var answer := EvalAnswer(svc, providers.complete, question, chunks, template);
    s := ScoreQuestion(row, question, chunks, answer, latency, topK);
    RefusalTextIsRefusal();
  }

  /** A row's record lists the distinct sources of the chunks the store
      returned for the stripped question at `rag_top_k`, in first-retrieved
      order, and counts the characters of those chunks' context text. */
  lemma RowRetrieval(svc: Service, providers: Providers, template: Option<PromptTemplate>, row: GroundTruthRow,
                     latency: Latency, topK: int)
    ensures var chunks := QueryDocumentChunks(providers.nearest,
                            EmbedText(svc, providers.embed, Strip(row.question.GetOr(""))), Settings.RagTopK);
      var r := ScoreRowOf(svc, providers, template, row, latency, topK).record;
      && r.retrievedSources == Dedup(Sources(chunks))
      && r.topSource == (if |chunks| == 0 then None else Some(chunks[0].source))
      && r.contextChars == |ContextText(chunks)|
      && r.hitAt1 == HitAt1(Dedup(Sources(chunks)), row.expectedSource)
  {
  }

  /** A store answer with one document, one metadata map holding a source
      and one distance gives that single chunk. */
  lemma SingleChunkQuery(nearest: NearestQuery, embedding: seq<real>, k: int, text: string, source: string,
                         distance: Option<real>)
    requires nearest(embedding, k)
      == RawQueryResult(Some([[text]]), Some([[Some(map["source" := source])]]), Some([[distance]]))
    ensures QueryDocumentChunks(nearest, embedding, k) == [RetrievedChunk(source, text, distance)]
  {
    var chunks := QueryDocumentChunks(nearest, embedding, k);
    assert |chunks| == 1;
  }

  /** A store that returns a single chunk for the question: the record lists
      that chunk's source alone, as top source, counts the chunk's text as
      the context, and scores hit@1 exactly when that source is the expected
      one. */
  lemma SingleChunkRow(svc: Service, providers: Providers, template: Option<PromptTemplate>, row: GroundTruthRow,
                       latency: Latency, topK: int, text: string, source: string, distance: Option<real>)
    requires providers.nearest(EmbedText(svc, providers.embed, Strip(row.question.GetOr(""))), Settings.RagTopK)
      == RawQueryResult(Some([[text]]), Some([[Some(map["source" := source])]]), Some([[distance]]))
    ensures var r := ScoreRowOf(svc, providers, template, row, latency, topK).record;
      && r.retrievedSources == [source] && r.topSource == Some(source)
      && r.contextChars == |text|
      && (r.hitAt1 == 1 <==> HasExpected(row.expectedSource) && row.expectedSource.value == source)
  {
    var chunk := RetrievedChunk(source, text, distance);
    SingleChunkQuery(providers.nearest, EmbedText(svc, providers.embed, Strip(row.question.GetOr(""))),
                     Settings.RagTopK, text, source, distance);
    assert Sources([chunk]) == [source];
    assert Dedup([source]) == [source];
    RowRetrieval(svc, providers, template, row, latency, topK);
    HitsOrdered([source], row.expectedSource);
  }

  /** The record of a row does not depend on `top_k` except for the rank,
      the reciprocal rank and the precision: the retrieved sources, the
      answer, the context and the hits come from the `rag_top_k` retrieval
      whatever `top_k` is. */
  lemma RowIgnoresTopK(svc: Service, providers: Providers, template: Option<PromptTemplate>, row: GroundTruthRow,
                       latency: Latency, k1: int, k2: int)
    ensures var a := ScoreRowOf(svc, providers, template, row, latency, k1).record;
      var b := ScoreRowOf(svc, providers, template, row, latency, k2).record;
      && a.retrievedSources == b.retrievedSources && a.topSource == b.topSource
      && a.answer == b.answer && a.contextChars == b.contextChars
      && a.hitAt1 == b.hitAt1 && a.hitAt3 == b.hitAt3 && a.hitAt4 == b.hitAt4
      && a.isRefusal == b.isRefusal && a.isGrounded == b.isGrounded
      && a.answerContextOverlap == b.answerContextOverlap && a.expectedKeywordCoverage == b.expectedKeywordCoverage
  {
    var question := Strip(row.question.GetOr(""));
    var chunks := Retrieve(svc, providers, question);
    var answer := EvalAnswer(svc, providers.complete, question, chunks, template);
    RetrievalIgnoresTopK(row, question, chunks, answer, latency, k1, k2);
  }

  lemma NothingRetrievedScoresZero(expected: Option<string>, topK: int)
    ensures var r := ScoreRetrieval(expected, UniqueSources([]), topK);
      && r.unique == [] && r.topSource.None? && r.rank.None?
      && r.hitAt1 == 0 && r.hitAt3 == 0 && r.hitAt4 == 0
      && r.reciprocalRank == 0.0 && r.precision == 0.0
  {
  }

  /** The refusal text, scored against an empty context, is a refusal with
      no overlap and is not grounded. */
  lemma RefusalAgainstNoContext(keywords: seq<string>)
    ensures var a := ScoreAnswer(Settings.RefusalText, "", keywords);
      a.refusal == 1 && a.overlap == 0.0 && a.grounded == 0
  {
    RefusalTextIsRefusal();
    NoContextNoOverlap(Settings.RefusalText);
  }

  /** With nothing retrieved the answer is the refusal text: it is flagged
      as a refusal, has no context, no overlap, is not grounded, and has no
      source, hit or rank. */
  lemma NothingRetrievedIsRefused(svc: Service, complete: Completion, row: GroundTruthRow, question: string,
                                  template: Option<PromptTemplate>, latency: Latency, topK: int)
    ensures var s := ScoreQuestion(row, question, [], EvalAnswer(svc, complete, question, [], template), latency, topK);
      && s.record.answer == Settings.RefusalText
      && s.record.contextChars == 0
      && s.record.isRefusal == 1
      && s.record.answerContextOverlap == 0.0
      && s.record.isGrounded == 0
      && s.record.retrievedSources == [] && s.record.topSource.None? && s.record.sourceRank.None?
      && s.record.hitAt1 == 0 && s.record.hitAt3 == 0 && s.record.hitAt4 == 0
      && s.reciprocalRank == 0.0 && s.precision == 0.0
  {
    NothingRetrievedScoresZero(row.expectedSource, topK);
    RefusalAgainstNoContext(row.expectedKeywords);
    assert ContextText([]) == "";
  }

  /** The unique sources, hit@1/3/4 and every answer score do not depend
      on `top_k`; only the rank, the reciprocal rank and the precision do. */
  lemma RetrievalIgnoresTopK(row: GroundTruthRow, question: string, chunks: seq<RetrievedChunk>, answer: string,
                             latency: Latency, k1: int, k2: int)
    ensures var a := ScoreQuestion(row, question, chunks, answer, latency, k1).record;
      var b := ScoreQuestion(row, question, chunks, answer, latency, k2).record;
      && a.retrievedSources == b.retrievedSources && a.topSource == b.topSource
      && a.hitAt1 == b.hitAt1 && a.hitAt3 == b.hitAt3 && a.hitAt4 == b.hitAt4
      && a.isRefusal == b.isRefusal && a.isGrounded == b.isGrounded
      && a.answerContextOverlap == b.answerContextOverlap && a.expectedKeywordCoverage == b.expectedKeywordCoverage
  {
  }

  // ------------------------------------------------------------ metrics

  /** The per-question values the metrics average or take percentiles of. */
  datatype Column =
    | Hit1 | Hit3 | Hit4 | RecipRank | Precision
    | RetrievalMs | GenerationMs | TotalMs
    | NonEmpty | Refusal | Grounded | Overlap | Coverage
    | ContextChars | AnswerChars

  function Value(s: Scored, c: Column): real {
    match c
    case Hit1 => s.record.hitAt1 as real
    case Hit3 => s.record.hitAt3 as real
    case Hit4 => s.record.hitAt4 as real
    case RecipRank => s.reciprocalRank
    case Precision => s.precision
    case RetrievalMs => s.record.retrievalLatencyMs
    case GenerationMs => s.record.generationLatencyMs
    case TotalMs => s.record.totalLatencyMs
    case NonEmpty => s.record.answerNonEmpty as real
    case Refusal => s.record.isRefusal as real
    case Grounded => s.record.isGrounded as real
    case Overlap => s.record.answerContextOverlap
    case Coverage => s.record.expectedKeywordCoverage
    case ContextChars => s.record.contextChars as real
    case AnswerChars => s.record.answerChars as real
  }

  /** The columns whose values are latencies. */
  predicate IsLatency(c: Column) {
    c.RetrievalMs? || c.GenerationMs? || c.TotalMs?
  }

  /** The columns whose values are ratios. */
  predicate IsRatio(c: Column) {
    !(c.RetrievalMs? || c.GenerationMs? || c.TotalMs? || c.ContextChars? || c.AnswerChars?)
  }

  /** The values of one column, question by question. */
  function ColumnOf(scored: seq<Scored>, c: Column): (xs: seq<real>)
    ensures |xs| == |scored| && forall i :: 0 <= i < |scored| ==> xs[i] == Value(scored[i], c)
  {
    seq(|scored|, i requires 0 <= i < |scored| => Value(scored[i], c))
  }

  /** How a metric is computed from the scored questions. */
  datatype Aggregate = QuestionCount | MeanOf(column: Column) | P95Of(column: Column) {
    /** The unit the metric is reported in: a count for the question count,
        otherwise the unit of the aggregated column. */
    function unit(): string {
      if QuestionCount? then "count" else ColumnUnit(column)
    }
  }

  /** The unit a column is reported in. */
  function ColumnUnit(c: Column): string {
    if IsLatency(c) then "ms" else if c.ContextChars? || c.AnswerChars? then "count" else "ratio"
  }


  function Evaluate(scored: seq<Scored>, a: Aggregate): real {
    match a
    case QuestionCount => |scored| as real
    case MeanOf(c) => SafeMean(ColumnOf(scored, c))
    case P95Of(c) => P95(ColumnOf(scored, c))
  }

  /** One row of the fixed metric table. */
  datatype MetricSpec = MetricSpec(key: string, name: string, aggregate: Aggregate, category: string) {
    function unit(): string { aggregate.unit() }
  }

  // The rows of the metric table, one per reported metric.
  const TotalQuestions: MetricSpec := MetricSpec("eval_total_questions", "Total Questions", QuestionCount, "overview")
  const HitRateAt1: MetricSpec := MetricSpec("eval_hit_rate_at_1", "Hit Rate @1", MeanOf(Hit1), "retrieval")
  const HitRateAt3: MetricSpec := MetricSpec("eval_hit_rate_at_3", "Hit Rate @3", MeanOf(Hit3), "retrieval")
  const HitRateAt4: MetricSpec := MetricSpec("eval_hit_rate_at_4", "Hit Rate @4", MeanOf(Hit4), "retrieval")
  const MrrAt4: MetricSpec := MetricSpec("eval_mrr_at_4", "MRR @4", MeanOf(RecipRank), "retrieval")
  const ExactSourceMatchRate: MetricSpec := MetricSpec("eval_exact_source_match_rate", "Exact Source Match", MeanOf(Hit1), "retrieval")
  const SourcePrecisionAt4: MetricSpec := MetricSpec("eval_source_precision_at_4", "Source Precision @4", MeanOf(Precision), "retrieval")
  const SourceRecallAt4: MetricSpec := MetricSpec("eval_source_recall_at_4", "Source Recall @4", MeanOf(Hit4), "retrieval")
  const AvgRetrievalLatencyMs: MetricSpec := MetricSpec("eval_avg_retrieval_latency_ms", "Avg Retrieval Latency", MeanOf(RetrievalMs), "latency")
  const P95RetrievalLatencyMs: MetricSpec := MetricSpec("eval_p95_retrieval_latency_ms", "P95 Retrieval Latency", P95Of(RetrievalMs), "latency")
  const AvgGenerationLatencyMs: MetricSpec := MetricSpec("eval_avg_generation_latency_ms", "Avg Generation Latency", MeanOf(GenerationMs), "latency")
  const P95GenerationLatencyMs: MetricSpec := MetricSpec("eval_p95_generation_latency_ms", "P95 Generation Latency", P95Of(GenerationMs), "latency")
  const AvgTotalLatencyMs: MetricSpec := MetricSpec("eval_avg_total_latency_ms", "Avg Total Latency", MeanOf(TotalMs), "latency")
  const AnswerNonEmptyRate: MetricSpec := MetricSpec("eval_answer_non_empty_rate", "Answer Non-empty Rate", MeanOf(NonEmpty), "generation")
  const RefusalRate: MetricSpec := MetricSpec("eval_refusal_rate", "Refusal Rate", MeanOf(Refusal), "generation")
  const GroundedAnswerRate: MetricSpec := MetricSpec("eval_grounded_answer_rate", "Grounded Answer Rate", MeanOf(Grounded), "generation")
  const AvgAnswerContextOverlap: MetricSpec := MetricSpec("eval_avg_answer_context_overlap", "Avg Answer-Context Overlap", MeanOf(Overlap), "generation")
  const AvgExpectedKeywordCoverage: MetricSpec := MetricSpec("eval_avg_expected_keyword_coverage", "Avg Expected Keyword Coverage", MeanOf(Coverage), "generation")
  const AvgContextChars: MetricSpec := MetricSpec("eval_avg_context_chars", "Avg Context Chars", MeanOf(ContextChars), "context")
  const AvgAnswerChars: MetricSpec := MetricSpec("eval_avg_answer_chars", "Avg Answer Chars", MeanOf(AnswerChars), "context")

  /** The twenty metrics of the report, in report order. */
  const MetricTable: seq<MetricSpec> := [
    TotalQuestions, HitRateAt1, HitRateAt3, HitRateAt4,
    MrrAt4, ExactSourceMatchRate, SourcePrecisionAt4, SourceRecallAt4,
    AvgRetrievalLatencyMs, P95RetrievalLatencyMs, AvgGenerationLatencyMs, P95GenerationLatencyMs,
    AvgTotalLatencyMs, AnswerNonEmptyRate, RefusalRate, GroundedAnswerRate,
    AvgAnswerContextOverlap, AvgExpectedKeywordCoverage, AvgContextChars, AvgAnswerChars]

  /** The metrics a table describes: one entry per row, in row order, with
      the row's key, label, unit and category and the row's aggregate of
      the scored questions as value. */
  function MetricsOf(table: seq<MetricSpec>, scored: seq<Scored>): (ms: seq<Metric>)
    ensures |ms| == |table|
    ensures forall i :: 0 <= i < |ms| ==>
      && ms[i].key == table[i].key && ms[i].name == table[i].name
      && ms[i].unit == table[i].unit() && ms[i].category == table[i].category
      && ms[i].value == Evaluate(scored, table[i].aggregate)
  {
    seq(|table|, i requires 0 <= i < |table| =>
      var m := table[i];
      Metric(m.key, m.name, Evaluate(scored, m.aggregate), m.unit(), m.category))
  }

  /** The metric list of the report: the fixed table, so its keys and units
      never depend on the questions. */
  function Metrics(scored: seq<Scored>): (ms: seq<Metric>)
    ensures |ms| == |MetricTable| == 20
    ensures forall i :: 0 <= i < |ms| ==> ms[i].key == MetricTable[i].key && ms[i].unit == MetricTable[i].unit()
  {
    MetricsOf(MetricTable, scored)
  }

  /** The metric keys are pairwise distinct. */
  lemma MetricKeysDistinct()
    ensures forall i, j :: 0 <= i < j < |MetricTable| ==> MetricTable[i].key != MetricTable[j].key
  {
  }

  /** A metric reported as a ratio aggregates a ratio column; one reported
      in milliseconds aggregates a latency column. */
  lemma UnitsFollowColumns(a: Aggregate)
    ensures a.unit() == "ratio" ==> !a.QuestionCount? && IsRatio(a.column)
    ensures a.unit() == "ms" ==> !a.QuestionCount? && IsLatency(a.column)
  {
  }

  /** The question count leads the list, the exact-source-match rate repeats
      hit@1, the recall repeats hit@4, and the hit rates are the means of
      the hit columns. */
  lemma MetricAliases(scored: seq<Scored>)
    ensures var ms := Metrics(scored);
      && ms[0].value == |scored| as real
      && ms[1].value == ms[5].value == SafeMean(ColumnOf(scored, Hit1))
      && ms[2].value == SafeMean(ColumnOf(scored, Hit3))
      && ms[3].value == ms[7].value == SafeMean(ColumnOf(scored, Hit4))
  {
    assert MetricTable[0] == TotalQuestions;
    assert MetricTable[1] == HitRateAt1 && MetricTable[5] == ExactSourceMatchRate;
    assert MetricTable[2] == HitRateAt3;
    assert MetricTable[3] == HitRateAt4 && MetricTable[7] == SourceRecallAt4;
  }

  /** A column whose values lie in `[lo, hi]`, with `lo <= 0 <= hi`, has
      its mean and its 95th percentile in `[lo, hi]`. */
  lemma ColumnBounded(scored: seq<Scored>, a: Aggregate, lo: real, hi: real)
    requires lo <= 0.0 <= hi && !a.QuestionCount?
    requires forall i :: 0 <= i < |scored| ==> lo <= Value(scored[i], a.column) <= hi
    ensures lo <= Evaluate(scored, a) <= hi
  {
    var xs := ColumnOf(scored, a.column);
    assert forall i :: 0 <= i < |xs| ==> lo <= xs[i] <= hi;
    AggregatesBounded(xs, lo, hi);
  }

  /** Well-formed questions have every ratio column in [0, 1]. */
  lemma RatioValuesInUnit(scored: seq<Scored>, c: Column)
    requires forall i :: 0 <= i < |scored| ==> WellFormed(scored[i])
    requires IsRatio(c)
    ensures forall i :: 0 <= i < |scored| ==> 0.0 <= Value(scored[i], c) <= 1.0
  {
    forall i | 0 <= i < |scored| ensures 0.0 <= Value(scored[i], c) <= 1.0 {
      assert WellFormed(scored[i]);
    }
  }

  /** Over well-formed questions every ratio metric of any table lies in
      [0, 1]. */
  lemma RatioMetricsInUnit(table: seq<MetricSpec>, scored: seq<Scored>)
    requires forall i :: 0 <= i < |scored| ==> WellFormed(scored[i])
    ensures var ms := MetricsOf(table, scored);
      forall i :: 0 <= i < |ms| && ms[i].unit == "ratio" ==> 0.0 <= ms[i].value <= 1.0
  {
    var ms := MetricsOf(table, scored);
    forall i | 0 <= i < |ms| && ms[i].unit == "ratio" ensures 0.0 <= ms[i].value <= 1.0 {
      var a := table[i].aggregate;
      UnitsFollowColumns(a);
      RatioValuesInUnit(scored, a.column);
      ColumnBounded(scored, a, 0.0, 1.0);
    }
  }

  /** Over well-formed questions the hit rates are ordered:
      hit@1 <= hit@3 <= hit@4. */
  lemma HitRatesOrdered(scored: seq<Scored>)
    requires forall i :: 0 <= i < |scored| ==> WellFormed(scored[i])
    ensures var ms := Metrics(scored);
      ms[1].value <= ms[2].value <= ms[3].value
  {
    var h1, h3, h4 := ColumnOf(scored, Hit1), ColumnOf(scored, Hit3), ColumnOf(scored, Hit4);
    forall i | 0 <= i < |scored| ensures h1[i] <= h3[i] <= h4[i] {
      assert WellFormed(scored[i]);
    }
    MeanMonotone(h1, h3);
    MeanMonotone(h3, h4);
    MetricAliases(scored);
  }

  /** With a single question each hit rate is that question's hit flag. */
  lemma SingleQuestionHitRates(s: Scored)
    ensures var ms := Metrics([s]);
      && ms[0].value == 1.0
      && ms[1].value == ms[5].value == s.record.hitAt1 as real
      && ms[2].value == s.record.hitAt3 as real
      && ms[3].value == ms[7].value == s.record.hitAt4 as real
  {
    MetricAliases([s]);
    forall c: Column ensures SafeMean(ColumnOf([s], c)) == Value(s, c) {
      var xs := ColumnOf([s], c);
      assert xs == [Value(s, c)];
      assert Sum(xs) == Value(s, c) + Sum([]);
    }
  }

  /** With no questions every metric of any table is 0. */
  lemma NoQuestionsAllZero(table: seq<MetricSpec>)
    ensures forall i :: 0 <= i < |table| ==> MetricsOf(table, [])[i].value == 0.0
  {
  }

  lemma LatencyValuesBounded(scored: seq<Scored>, c: Column, hi: real)
    requires forall i :: 0 <= i < |scored| ==>
      && 0.0 <= scored[i].record.retrievalLatencyMs <= hi
      && 0.0 <= scored[i].record.generationLatencyMs <= hi
      && 0.0 <= scored[i].record.totalLatencyMs <= hi
    requires IsLatency(c)
    ensures forall i :: 0 <= i < |scored| ==> 0.0 <= Value(scored[i], c) <= hi
  {
  }

  /** Latencies within `[0, hi]` give millisecond metrics within `[0, hi]`,
      for any table. */
  lemma LatencyMetricsBounded(table: seq<MetricSpec>, scored: seq<Scored>, hi: real)
    requires forall i :: 0 <= i < |scored| ==>
      && 0.0 <= scored[i].record.retrievalLatencyMs <= hi
      && 0.0 <= scored[i].record.generationLatencyMs <= hi
      && 0.0 <= scored[i].record.totalLatencyMs <= hi
    requires hi >= 0.0
    ensures var ms := MetricsOf(table, scored);
      forall i :: 0 <= i < |ms| && ms[i].unit == "ms" ==> 0.0 <= ms[i].value <= hi
  {
    var ms := MetricsOf(table, scored);
    forall i | 0 <= i < |ms| && ms[i].unit == "ms" ensures 0.0 <= ms[i].value <= hi {
      var a := table[i].aggregate;
      UnitsFollowColumns(a);
      LatencyValuesBounded(scored, a.column, hi);
      ColumnBounded(scored, a, 0.0, hi);
    }
  }

  // ------------------------------------------------------------ the run

  /** Whether a scored question belongs to a ground-truth row: it carries
      the row's id, its stripped question and its expected source. */
  predicate Answers(s: Scored, row: GroundTruthRow) {
    && s.record.id == row.id
    && s.record.question == Strip(row.question.GetOr(""))
    && s.record.expectedSource == row.expectedSource
  }

  /** What the loop keeps for every row: a well-formed record of that row
      carrying the latencies measured for it. */
  predicate ScoredRow(s: Scored, row: GroundTruthRow, latency: Latency) {
    && WellFormed(s) && Answers(s, row)
    && s.record.retrievalLatencyMs == latency.retrievalMs
    && s.record.generationLatencyMs == latency.generationMs
    && s.record.totalLatencyMs == latency.totalMs
  }

  /** A row scorer applied to every row, in row order, the row at position
      `i` timed by `timing(i)`. */
  function MapRows(score: (GroundTruthRow, Latency) -> Scored, rows: seq<GroundTruthRow>,
                   timing: nat -> Latency): seq<Scored>
    decreases |rows|
  {
    if |rows| == 0 then []
    else
      var n := |rows| - 1;
      MapRows(score, rows[..n], timing) + [score(rows[n], timing(n))]
  }

  /** Position `i` of the mapped rows holds the score of row `i`, timed by
      `timing(i)`. */
  lemma {:induction false} MapRowsAt(score: (GroundTruthRow, Latency) -> Scored, rows: seq<GroundTruthRow>,
                                     timing: nat -> Latency)
    ensures |MapRows(score, rows, timing)| == |rows|
    ensures forall i :: 0 <= i < |rows| ==> MapRows(score, rows, timing)[i] == score(rows[i], timing(i))
    decreases |rows|
  {
    if |rows| > 0 {
      var n := |rows| - 1;
      MapRowsAt(score, rows[..n], timing);
      var prefix := MapRows(score, rows[..n], timing);
      assert MapRows(score, rows, timing) == prefix + [score(rows[n], timing(n))];
      forall i | 0 <= i < n ensures MapRows(score, rows, timing)[i] == score(rows[i], timing(i)) {
        assert rows[..n][i] == rows[i];
      }
    }
  }

  /** Mapping one more row appends that row's score. */
  lemma MapRowsSnoc(score: (GroundTruthRow, Latency) -> Scored, rows: seq<GroundTruthRow>, n: nat,
                    timing: nat -> Latency)
    requires n < |rows|
    ensures MapRows(score, rows[..n + 1], timing) == MapRows(score, rows[..n], timing) + [score(rows[n], timing(n))]
  {
    assert rows[..n + 1][..n] == rows[..n];
  }

  /** The scorer of one evaluation run. */
  function RowScorer(svc: Service, providers: Providers, template: Option<PromptTemplate>,
                     topK: int): (GroundTruthRow, Latency) -> Scored
  {
    (row: GroundTruthRow, latency: Latency) => ScoreRowOf(svc, providers, template, row, latency, topK)
  }

  /** The scored records of a run, one per row in row order. */
  function ScoredRun(svc: Service, providers: Providers, template: Option<PromptTemplate>,
                     rows: seq<GroundTruthRow>, timing: nat -> Latency, topK: int): seq<Scored>
  {
    MapRows(RowScorer(svc, providers, template, topK), rows, timing)
  }

  /** Position `i` of a run holds the scored record of row `i`, timed by
      `timing(i)`. */
  lemma ScoredRunAt(svc: Service, providers: Providers, template: Option<PromptTemplate>,
                    rows: seq<GroundTruthRow>, timing: nat -> Latency, topK: int)
    ensures var scored := ScoredRun(svc, providers, template, rows, timing, topK);
      && |scored| == |rows|
      && forall i :: 0 <= i < |rows| ==> scored[i] == ScoreRowOf(svc, providers, template, rows[i], timing(i), topK)
  {
    MapRowsAt(RowScorer(svc, providers, template, topK), rows, timing);
  }

  /** Every record of a run is well formed and belongs to its row, with
      that row's latencies. */
  lemma ScoredRunRows(svc: Service, providers: Providers, template: Option<PromptTemplate>,
                      rows: seq<GroundTruthRow>, timing: nat -> Latency, topK: int)
    ensures var scored := ScoredRun(svc, providers, template, rows, timing, topK);
      && |scored| == |rows|
      && forall i :: 0 <= i < |rows| ==> ScoredRow(scored[i], rows[i], timing(i))
  {
    ScoredRunAt(svc, providers, template, rows, timing, topK);
  }

  /** The loop over the ground-truth rows: the scored records of the run,
      each well formed and belonging to its row. */
  method ScoreRows(svc: Service, providers: Providers, template: Option<PromptTemplate>,
                   rows: seq<GroundTruthRow>, timing: nat -> Latency, topK: int)
    returns (scored: seq<Scored>)
    ensures scored == ScoredRun(svc, providers, template, rows, timing, topK)
    ensures |scored| == |rows|
    ensures forall i :: 0 <= i < |rows| ==> ScoredRow(scored[i], rows[i], timing(i))
  {
    var score := RowScorer(svc, providers, template, topK);
    scored := [];
    var n := 0;
    while n < |rows|
      invariant n <= |rows| && |scored| == n
      invariant scored == MapRows(score, rows[..n], timing)
    {
      var q := RunQuestion(svc, providers, template, rows[n], timing(n), topK);
      MapRowsSnoc(score, rows, n, timing);
      scored := scored + [q];
      n := n + 1;
    }
    assert rows[..n] == rows;
    ScoredRunRows(svc, providers, template, rows, timing, topK);
  }

  function Records(scored: seq<Scored>): (rs: seq<QuestionRecord>)
    ensures |rs| == |scored| && forall i :: 0 <= i < |scored| ==> rs[i] == scored[i].record
  {
    seq(|scored|, i requires 0 <= i < |scored| => scored[i].record)
  }

  /** `evaluate_and_save` without the file system: a missing ground-truth
      file fails before anything else; otherwise the templates are seeded,
      the service is built (failing without an API key), the template is
      looked up and every row is scored. The report holds the scored record
      of every row in row order and the twenty metrics of those records:
      ratios in [0, 1], the exact-source-match rate equal to hit@1, the
      recall equal to hit@4, and hit@1 <= hit@3 <= hit@4. */
  method EvaluateAndSave(
    s: State, groundTruth: Option<seq<GroundTruthRow>>, providers: Providers, timing: nat -> Latency,
    apiKey: string, now: string, generatedAt: string, groundTruthPath: string,
    topK: int := DefaultTopK, promptTemplateId: string := DefaultTemplateId)
    returns (s': State, r: Result<Report, EvalError>)
    ensures groundTruth.None? ==> s' == s && r == Failure(GroundTruthNotFound)
    ensures groundTruth.Some? ==> s' == SeedPromptTemplates(s, now)
    ensures groundTruth.Some? && apiKey == "" ==> r == Failure(ServiceUnavailable(MissingKeyMessage))
    ensures r.Success? <==> groundTruth.Some? && apiKey != ""
    ensures r.Success? ==>
      var rows := groundTruth.value;
      var rep := r.value;
      var template := GetPromptTemplate(s', Some(promptTemplateId));
      && rep.generatedAt == generatedAt && rep.groundTruthPath == groundTruthPath
      && rep.promptTemplateId == promptTemplateId && rep.topK == topK
      && rep.totalMetrics == |rep.metrics| == 20
      && |rep.perQuestion| == |rows|
      && var scored := ScoredRun(Service(apiKey), providers, template, rows, timing, topK);
      && rep.perQuestion == Records(scored)
      && rep.metrics == Metrics(scored)
      && (forall i :: 0 <= i < |rows| ==>
            && rep.perQuestion[i].id == rows[i].id
            && rep.perQuestion[i].question == Strip(rows[i].question.GetOr(""))
            && rep.perQuestion[i].expectedSource == rows[i].expectedSource)
      && (forall i :: 0 <= i < 20 ==> rep.metrics[i].key == MetricTable[i].key)
      && rep.metrics[0].value == |rows| as real
      && (forall i :: 0 <= i < 20 && rep.metrics[i].unit == "ratio" ==> 0.0 <= rep.metrics[i].value <= 1.0)
      && rep.metrics[5].value == rep.metrics[1].value && rep.metrics[7].value == rep.metrics[3].value
      && rep.metrics[1].value <= rep.metrics[2].value <= rep.metrics[3].value
  {
    if groundTruth.None? {
      return s, Failure(GroundTruthNotFound);
    }
    var rows := groundTruth.value;
    s' := SeedPromptTemplates(s, now);
    var service := NewService(apiKey);
    if service.Failure? {
      return s', Failure(ServiceUnavailable(service.error));
    }
    var svc := service.value;
    var template := GetPromptTemplate(s', Some(promptTemplateId));
    var scored := ScoreRows(svc, providers, template, rows, timing, topK);
    var metrics := Metrics(scored);
    RatioMetricsInUnit(MetricTable, scored);
    MetricAliases(scored);
    HitRatesOrdered(scored);
    r := Success(Report(generatedAt, groundTruthPath, promptTemplateId, topK, |metrics|, metrics, Records(scored)));
  }

  /** The default template id resolves after seeding, so a default run
      generates with the professional persona. */
  lemma DefaultTemplateResolves(s: State, now: string)
    ensures GetPromptTemplate(SeedPromptTemplates(s, now), Some(DefaultTemplateId))
      == Some(PromptTemplate(Professional.id, Professional.name, Professional.text))
  {
    SeededTemplatesResolve(s, now, DefaultTemplateId);
  }
}
