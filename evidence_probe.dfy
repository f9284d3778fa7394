/** The metric-evidence probes' per-model score (probes/semantic_metric_evidence.go and
    the four probes/<language>_cross_language_metric_evidence.go files): embed the metric query
    once, compare it with every labelled evidence passage, and score either a weighted
    similarity (relevant passages should be close, irrelevant ones far) or the accuracy
    of the threshold rule "relevant when similarity > 0.5". Higher is better. */
module EvidenceProbe {
  import opened Types
  import opened VectorMath

  /** An evidence passage with its ground-truth relevance to the query. The language tag
      is reported by the cross-language probes and never enters a score. */
  datatype Passage = Passage(text: string, lang: string, relevant: bool)

  /** How the per-passage similarities become the model's score. */
  datatype Rule =
    | WeightedRelevance   // semantic_metric_evidence.go
    | ThresholdAccuracy   // the four cross-language metric evidence probes

  /** The similarity between the query's embedding `query` and the `item`-th passage
      (1-based, as reported). */
  function PassageSimilarity(model: string, query: Vector, text: string, lang: string, item: nat, env: Env): Result<real, Error>
  {
    match env.embed(model, text)
    case Err(message) => Err(EmbeddingFailed(EvidenceItem(item, lang), message))
    case Ok(v) =>
      match Cosine(query, v, env.sqrt)
      case Err(cause) => Err(SimilarityFailed(EvidenceItem(item, lang), cause))
      case Ok(sim) => Ok(sim)
  }

  /** The passages' similarities in order, stopping at the first passage that fails.
      Succeeds exactly when every passage does, and then holds each passage's
      similarity at its index. */
  function PassageSimilarities(model: string, query: Vector, passages: seq<Passage>, env: Env): (r: Result<seq<real>, Error>)
    ensures r.Ok? <==> forall i :: 0 <= i < |passages| ==> PassageSimilarity(model, query, passages[i].text, passages[i].lang, i + 1, env).Ok?
    ensures r.Ok? ==> |r.value| == |passages|
    ensures r.Ok? ==> forall i :: 0 <= i < |passages| ==>
      PassageSimilarity(model, query, passages[i].text, passages[i].lang, i + 1, env) == Ok(r.value[i])
    decreases |passages|
  {
    if |passages| == 0 then Ok([])
    else
      var n := |passages| - 1;
      match PassageSimilarities(model, query, passages[..n], env)
      case Err(e) => Err(e)
      case Ok(sims) =>
        match PassageSimilarity(model, query, passages[n].text, passages[n].lang, n + 1, env)
        case Err(e) => Err(e)
        case Ok(sim) => Ok(sims + [sim])
  }

  /** Once a prefix of the passages fails, the whole loop fails with that error. */
  lemma {:induction false} PassageSimilaritiesFailFast(model: string, query: Vector, passages: seq<Passage>, n: nat, env: Env)
    requires n <= |passages|
    requires PassageSimilarities(model, query, passages[..n], env).Err?
    ensures PassageSimilarities(model, query, passages, env) == PassageSimilarities(model, query, passages[..n], env)
    decreases |passages| - n
  {
    if n < |passages| {
      var shorter := passages[..|passages| - 1];
      assert shorter[..n] == passages[..n];
      PassageSimilaritiesFailFast(model, query, shorter, n, env);
    } else {
      assert passages[..n] == passages;
    }
  }

  /** When passage `i` fails after the passages before it succeed, the loop fails with
      its error. */
  lemma StepFails(model: string, query: Vector, passages: seq<Passage>, i: nat, env: Env)
    requires i < |passages|
    requires PassageSimilarities(model, query, passages[..i], env).Ok?
    requires PassageSimilarity(model, query, passages[i].text, passages[i].lang, i + 1, env).Err?
    ensures PassageSimilarities(model, query, passages, env) ==
      Err(PassageSimilarity(model, query, passages[i].text, passages[i].lang, i + 1, env).error)
  {
    assert passages[..i + 1][..i] == passages[..i];
    PassageSimilaritiesFailFast(model, query, passages, i + 1, env);
  }

  /** When passage `i` succeeds after the passages before it, the loop and every running
      total extend by that passage. */
  lemma StepSucceeds(model: string, query: Vector, passages: seq<Passage>, i: nat, sims: seq<real>, sim: real, env: Env)
    requires i < |passages|
    requires PassageSimilarities(model, query, passages[..i], env) == Ok(sims)
    requires PassageSimilarity(model, query, passages[i].text, passages[i].lang, i + 1, env) == Ok(sim)
    ensures PassageSimilarities(model, query, passages[..i + 1], env) == Ok(sims + [sim])
    ensures WeightedTotal(sims + [sim], passages[..i + 1]) == WeightedTotal(sims, passages[..i]) + Contribution(sim, passages[i].relevant)
    ensures CorrectCount(sims + [sim], passages[..i + 1]) == CorrectCount(sims, passages[..i]) + (if Predicted(sim) == passages[i].relevant then 1 else 0)
    ensures RelevantCount(passages[..i + 1]) == RelevantCount(passages[..i]) + (if passages[i].relevant then 1 else 0)
  {
    assert passages[..i + 1][..i] == passages[..i];
    assert (sims + [sim])[..i] == sims;
  }

  /** The threshold rule's prediction: relevant exactly when the similarity exceeds 0.5. */
  predicate Predicted(sim: real)
  {
    sim > 0.5
  }

  /** How many passages the threshold rule labels correctly. */
  function CorrectCount(sims: seq<real>, passages: seq<Passage>): nat
    requires |sims| == |passages|
    decreases |sims|
  {
    if |sims| == 0 then 0
    else
      var n := |sims| - 1;
      CorrectCount(sims[..n], passages[..n]) + (if Predicted(sims[n]) == passages[n].relevant then 1 else 0)
  }

  /** A passage's share of the weighted similarity: its similarity when it is relevant,
      its distance from 1 when it is not. */
  function Contribution(sim: real, relevant: bool): real
  {
    if relevant then sim else 1.0 - sim
  }

  /** Sum of the passages' contributions. */
  function WeightedTotal(sims: seq<real>, passages: seq<Passage>): real
    requires |sims| == |passages|
    decreases |sims|
  {
    if |sims| == 0 then 0.0
    else
      var n := |sims| - 1;
      WeightedTotal(sims[..n], passages[..n]) + Contribution(sims[n], passages[n].relevant)
  }

  /** How many passages are labelled relevant. */
  function RelevantCount(passages: seq<Passage>): nat
    decreases |passages|
  {
    if |passages| == 0 then 0
    else RelevantCount(passages[..|passages| - 1]) + (if passages[|passages| - 1].relevant then 1 else 0)
  }

  /** The score from the similarities under a rule, both divided by the passage count. */
  function RuleScore(rule: Rule, sims: seq<real>, passages: seq<Passage>): real
    requires |sims| == |passages| > 0
  {
    match rule
    case WeightedRelevance => WeightedTotal(sims, passages) / |passages| as real
    case ThresholdAccuracy => CorrectCount(sims, passages) as real / |passages| as real
  }

  /** The model's score: the query is embedded once, then every passage is compared
      with it. */
  function EvidenceScore(model: string, query: string, passages: seq<Passage>, rule: Rule, env: Env): Result<real, Error>
    requires |passages| > 0
  {
    match env.embed(model, query)
    case Err(message) => Err(EmbeddingFailed(Metric, message))
    case Ok(q) =>
      match PassageSimilarities(model, q, passages, env)
      case Err(e) => Err(e)
      case Ok(sims) => Ok(RuleScore(rule, sims, passages))
  }

  /** One model's turn in semantic_metric_evidence.go's Run: a total over the passages,
      with separate counts of relevant and irrelevant passages. */
  method ScoreWeighted(model: string, query: string, passages: seq<Passage>, env: Env) returns (r: Result<real, Error>)
    requires |passages| > 0
    ensures r == EvidenceScore(model, query, passages, WeightedRelevance, env)
  {
    var metricEmb := env.embed(model, query);
    if metricEmb.Err? {
      return Err(EmbeddingFailed(Metric, metricEmb.error));
    }
    var q := metricEmb.value;
    var totalSimilarity := 0.0;
    var relevantCount, irrelevantCount := 0, 0;
    ghost var sims: seq<real> := [];
    for i := 0 to |passages|
      invariant PassageSimilarities(model, q, passages[..i], env) == Ok(sims)
      invariant totalSimilarity == WeightedTotal(sims, passages[..i])
      invariant relevantCount == RelevantCount(passages[..i])
      invariant relevantCount + irrelevantCount == i
    {
      var evidence := passages[i];
      var evidenceEmb := env.embed(model, evidence.text);
      if evidenceEmb.Err? {
        StepFails(model, q, passages, i, env);
        return Err(EmbeddingFailed(EvidenceItem(i + 1, evidence.lang), evidenceEmb.error));
      }
      var sim := CosineSimilarity(q, evidenceEmb.value, env.sqrt);
      if sim.Err? {
        StepFails(model, q, passages, i, env);
        return Err(SimilarityFailed(EvidenceItem(i + 1, evidence.lang), sim.error));
      }
      StepSucceeds(model, q, passages, i, sims, sim.value, env);
      if evidence.relevant {
        totalSimilarity := totalSimilarity + sim.value;
        relevantCount := relevantCount + 1;
      } else {
        totalSimilarity := totalSimilarity + (1.0 - sim.value);
        irrelevantCount := irrelevantCount + 1;
      }
      sims := sims + [sim.value];
    }
    assert passages[..|passages|] == passages;
    assert relevantCount + irrelevantCount == |passages|;
    return Ok(totalSimilarity / |passages| as real);
  }

  /** One model's turn in a cross-language metric evidence probe's Run: count the
      passages the threshold rule labels correctly. */
  method ScoreAccuracy(model: string, query: string, passages: seq<Passage>, env: Env) returns (r: Result<real, Error>)
    requires |passages| > 0
    ensures r == EvidenceScore(model, query, passages, ThresholdAccuracy, env)
  {
    var correct := 0;
    var metricEmb := env.embed(model, query);
    if metricEmb.Err? {
      return Err(EmbeddingFailed(Metric, metricEmb.error));
    }
    var q := metricEmb.value;
    ghost var sims: seq<real> := [];
    for i := 0 to |passages|
      invariant PassageSimilarities(model, q, passages[..i], env) == Ok(sims)
      invariant correct == CorrectCount(sims, passages[..i])
    {
      var evidence := passages[i];
      var evidenceEmb := env.embed(model, evidence.text);
      if evidenceEmb.Err? {
        StepFails(model, q, passages, i, env);
        return Err(EmbeddingFailed(EvidenceItem(i + 1, evidence.lang), evidenceEmb.error));
      }
      var sim := CosineSimilarity(q, evidenceEmb.value, env.sqrt);
      if sim.Err? {
        StepFails(model, q, passages, i, env);
        return Err(SimilarityFailed(EvidenceItem(i + 1, evidence.lang), sim.error));
      }
      StepSucceeds(model, q, passages, i, sims, sim.value, env);
      var predictedRelevant := sim.value > 0.5;
      if predictedRelevant == evidence.relevant {
        correct := correct + 1;
      }
      sims := sims + [sim.value];
    }
    assert passages[..|passages|] == passages;
    return Ok(correct as real / |passages| as real);
  }

  /** The passages the threshold rule labels correctly, as a set of indices. */
  function CorrectIndices(sims: seq<real>, passages: seq<Passage>): set<nat>
    requires |sims| == |passages|
  {
    set i: nat | i < |sims| && Predicted(sims[i]) == passages[i].relevant
  }

  /** The running count is the number of correctly labelled passages. */
  lemma {:induction false} CorrectCountCountsCorrect(sims: seq<real>, passages: seq<Passage>)
    requires |sims| == |passages|
    ensures CorrectCount(sims, passages) == |CorrectIndices(sims, passages)|
    ensures CorrectCount(sims, passages) <= |passages|
    decreases |sims|
  {
    if |sims| > 0 {
      var n := |sims| - 1;
      CorrectCountCountsCorrect(sims[..n], passages[..n]);
      var before := CorrectIndices(sims[..n], passages[..n]);
      var after := CorrectIndices(sims, passages);
      if Predicted(sims[n]) == passages[n].relevant {
        assert after == before + {n};
      } else {
        assert after == before;
      }
    }
  }

  /** An accuracy lies in [0, 1]. */
  lemma AccuracyInUnitInterval(model: string, query: string, passages: seq<Passage>, env: Env)
    requires |passages| > 0
    ensures var r := EvidenceScore(model, query, passages, ThresholdAccuracy, env);
      r.Ok? ==> 0.0 <= r.value <= 1.0
  {
    var r := env.embed(model, query);
    if r.Ok? {
      var sims := PassageSimilarities(model, r.value, passages, env);
      if sims.Ok? {
        var correct := CorrectCount(sims.value, passages);
        CorrectCountCountsCorrect(sims.value, passages);
        QuotientBounds(correct as real, |passages| as real, 0.0, 1.0);
      }
    }
  }

  /** The weighted total lies between 0 and the passage count when every similarity
      lies in [0, 1]. */
  lemma {:induction false} WeightedTotalBounds(sims: seq<real>, passages: seq<Passage>)
    requires |sims| == |passages|
    requires forall i :: 0 <= i < |sims| ==> 0.0 <= sims[i] <= 1.0
    ensures 0.0 <= WeightedTotal(sims, passages) <= |sims| as real
    decreases |sims|
  {
    if |sims| > 0 {
      var n := |sims| - 1;
      assert forall i :: 0 <= i < n ==> sims[..n][i] == sims[i];
      WeightedTotalBounds(sims[..n], passages[..n]);
    }
  }

  /** For cosine similarities in [-1, 1], each contribution lies in [-1, 2], so the
      weighted total lies between -n and 2n for n passages. */
  lemma {:induction false} WeightedTotalCosineBounds(sims: seq<real>, passages: seq<Passage>)
    requires |sims| == |passages|
    requires forall i :: 0 <= i < |sims| ==> -1.0 <= sims[i] <= 1.0
    ensures -(|sims| as real) <= WeightedTotal(sims, passages) <= 2.0 * |sims| as real
    decreases |sims|
  {
    if |sims| > 0 {
      var n := |sims| - 1;
      assert forall i :: 0 <= i < n ==> sims[..n][i] == sims[i];
      WeightedTotalCosineBounds(sims[..n], passages[..n]);
    }
  }

  /** Each passage's similarity is a cosine, so it lies in [-1, 1]. */
  lemma PassageSimilarityInRange(model: string, query: Vector, text: string, lang: string, item: nat, env: Env)
    requires IsSqrt(env.sqrt)
    ensures PassageSimilarity(model, query, text, lang, item, env).Ok? ==>
      -1.0 <= PassageSimilarity(model, query, text, lang, item, env).value <= 1.0
  {
    var v := env.embed(model, text);
    if v.Ok? {
      CosineInRange(query, v.value, env.sqrt);
    }
  }

  /** A successful weighted score lies in [-1, 2]: the contributions of cosine
      similarities, averaged over the passages. */
  lemma WeightedScoreInRange(model: string, query: string, passages: seq<Passage>, env: Env)
    requires IsSqrt(env.sqrt)
    requires |passages| > 0
    ensures var r := EvidenceScore(model, query, passages, WeightedRelevance, env);
      r.Ok? ==> -1.0 <= r.value <= 2.0
  {
    var q := env.embed(model, query);
    if q.Ok? {
      var sims := PassageSimilarities(model, q.value, passages, env);
      if sims.Ok? {
        forall i | 0 <= i < |sims.value|
          ensures -1.0 <= sims.value[i] <= 1.0
        {
          PassageSimilarityInRange(model, q.value, passages[i].text, passages[i].lang, i + 1, env);
        }
        WeightedTotalCosineBounds(sims.value, passages);
        QuotientBounds(WeightedTotal(sims.value, passages), |passages| as real, -1.0, 2.0);
      }
    }
  }

  /** A perfect separation (relevant passages at similarity 1, irrelevant ones at 0)
      scores a full weighted total, so a weighted score of exactly 1. */
  lemma {:induction false} PerfectSeparationWeighted(sims: seq<real>, passages: seq<Passage>)
    requires |sims| == |passages|
    requires forall i :: 0 <= i < |sims| ==> sims[i] == if passages[i].relevant then 1.0 else 0.0
    ensures WeightedTotal(sims, passages) == |sims| as real
    ensures |sims| > 0 ==> RuleScore(WeightedRelevance, sims, passages) == 1.0
    decreases |sims|
  {
    if |sims| > 0 {
      var n := |sims| - 1;
      assert forall i :: 0 <= i < n ==> sims[..n][i] == sims[i] && passages[..n][i] == passages[i];
      PerfectSeparationWeighted(sims[..n], passages[..n]);
      assert (|sims| as real) / (|passages| as real) == 1.0;
    }
  }

  /** The threshold rule labels every passage correctly exactly when relevant passages
      are above 0.5 and irrelevant ones are not. */
  lemma {:induction false} AllCorrectIffSeparated(sims: seq<real>, passages: seq<Passage>)
    requires |sims| == |passages|
    ensures CorrectCount(sims, passages) == |passages| <==>
      forall i :: 0 <= i < |sims| ==> (sims[i] > 0.5 <==> passages[i].relevant)
    decreases |sims|
  {
    if |sims| > 0 {
      var n := |sims| - 1;
      AllCorrectIffSeparated(sims[..n], passages[..n]);
      CorrectCountCountsCorrect(sims[..n], passages[..n]);
      assert forall i :: 0 <= i < n ==> sims[..n][i] == sims[i] && passages[..n][i] == passages[i];
    }
  }

  /** An error with the language tag of the passage it names blanked out: the only part
      of a result that a tag can change. */
  function Untagged(e: Error): Error
  {
    match e
    case EmbeddingFailed(EvidenceItem(item, _), message) => EmbeddingFailed(EvidenceItem(item, ""), message)
    case SimilarityFailed(EvidenceItem(item, _), cause) => SimilarityFailed(EvidenceItem(item, ""), cause)
    case _ => e
  }

  /** The language tags never enter a score: passages that differ only in their tags
      succeed together and give the same score under either rule; when they fail, the
      errors differ in nothing but the tag the message reports. */
  lemma LanguageIgnored(model: string, query: string, passages1: seq<Passage>, passages2: seq<Passage>, rule: Rule, env: Env)
    requires |passages1| == |passages2| > 0
    requires forall i :: 0 <= i < |passages1| ==>
      passages1[i].text == passages2[i].text && passages1[i].relevant == passages2[i].relevant
    ensures var r1 := EvidenceScore(model, query, passages1, rule, env);
      var r2 := EvidenceScore(model, query, passages2, rule, env);
      && (r1.Ok? <==> r2.Ok?)
      && (r1.Ok? ==> r1 == r2)
      && (r1.Err? ==> Untagged(r1.error) == Untagged(r2.error))
  {
    var q := env.embed(model, query);
    if q.Ok? {
      SameTextsSameScores(model, q.value, passages1, passages2, env);
      var sims := PassageSimilarities(model, q.value, passages1, env);
      if sims.Ok? {
        SameLabelsSameTotals(sims.value, passages1, passages2);
      }
    }
  }

  /** The similarities depend on each passage's text alone: passages with the same
      texts get the same list of similarities, or fail at the same passage with errors
      that differ at most in the reported tag. */
  lemma {:induction false} SameTextsSameScores(model: string, query: Vector, passages1: seq<Passage>, passages2: seq<Passage>, env: Env)
    requires |passages1| == |passages2|
    requires forall i :: 0 <= i < |passages1| ==> passages1[i].text == passages2[i].text
    ensures var r1 := PassageSimilarities(model, query, passages1, env);
      var r2 := PassageSimilarities(model, query, passages2, env);
      && (r1.Ok? <==> r2.Ok?)
      && (r1.Ok? ==> r1 == r2)
      && (r1.Err? ==> Untagged(r1.error) == Untagged(r2.error))
    decreases |passages1|
  {
    if |passages1| > 0 {
      var n := |passages1| - 1;
      SameTextsSameScores(model, query, passages1[..n], passages2[..n], env);
      LastTextAgrees(model, query, passages1, passages2, env);
    }
  }

  /** The inductive step of SameTextsSameScores: prefixes that agree up to tags, then a
      last passage with the same text, give loops that agree up to tags. */
  lemma LastTextAgrees(model: string, query: Vector, passages1: seq<Passage>, passages2: seq<Passage>, env: Env)
    requires |passages1| == |passages2| > 0
    requires passages1[|passages1| - 1].text == passages2[|passages2| - 1].text
    requires var n := |passages1| - 1;
      var p1 := PassageSimilarities(model, query, passages1[..n], env);
      var p2 := PassageSimilarities(model, query, passages2[..n], env);
      && (p1.Ok? <==> p2.Ok?)
      && (p1.Ok? ==> p1 == p2)
      && (p1.Err? ==> Untagged(p1.error) == Untagged(p2.error))
    ensures var r1 := PassageSimilarities(model, query, passages1, env);
      var r2 := PassageSimilarities(model, query, passages2, env);
      && (r1.Ok? <==> r2.Ok?)
      && (r1.Ok? ==> r1 == r2)
      && (r1.Err? ==> Untagged(r1.error) == Untagged(r2.error))
  {
    var n := |passages1| - 1;
    TagOnlyInErrors(model, query, passages1[n].text, passages1[n].lang, passages2[n].lang, n + 1, env);
    LastStep(model, query, passages1, env);
    LastStep(model, query, passages2, env);
    ExtendAgrees(PassageSimilarities(model, query, passages1[..n], env), PassageSimilarities(model, query, passages2[..n], env),
                 PassageSimilarity(model, query, passages1[n].text, passages1[n].lang, n + 1, env),
                 PassageSimilarity(model, query, passages2[n].text, passages2[n].lang, n + 1, env));
  }

  /** Extending two loop outcomes that agree up to tags by two steps that agree up to
      tags gives outcomes that agree up to tags. */
  lemma ExtendAgrees(prefix1: Result<seq<real>, Error>, prefix2: Result<seq<real>, Error>,
                     last1: Result<real, Error>, last2: Result<real, Error>)
    requires (prefix1.Ok? <==> prefix2.Ok?) && (prefix1.Ok? ==> prefix1 == prefix2)
    requires prefix1.Err? ==> Untagged(prefix1.error) == Untagged(prefix2.error)
    requires (last1.Ok? <==> last2.Ok?) && (last1.Ok? ==> last1 == last2)
    requires last1.Err? ==> Untagged(last1.error) == Untagged(last2.error)
    ensures var r1 := if prefix1.Err? then prefix1 else if last1.Err? then Err(last1.error) else Ok(prefix1.value + [last1.value]);
      var r2 := if prefix2.Err? then prefix2 else if last2.Err? then Err(last2.error) else Ok(prefix2.value + [last2.value]);
      && (r1.Ok? <==> r2.Ok?)
      && (r1.Ok? ==> r1 == r2)
      && (r1.Err? ==> Untagged(r1.error) == Untagged(r2.error))
  {
  }

  /** The loop over a non-empty list: the prefix's outcome, then the last passage's. */
  lemma LastStep(model: string, query: Vector, passages: seq<Passage>, env: Env)
    requires |passages| > 0
    ensures var n := |passages| - 1;
      var prefix := PassageSimilarities(model, query, passages[..n], env);
      var last := PassageSimilarity(model, query, passages[n].text, passages[n].lang, n + 1, env);
      PassageSimilarities(model, query, passages, env) ==
        if prefix.Err? then prefix else if last.Err? then Err(last.error) else Ok(prefix.value + [last.value])
  {
  }

  /** One passage's similarity does not depend on its tag; a failure reports it. */
  lemma TagOnlyInErrors(model: string, query: Vector, text: string, lang1: string, lang2: string, item: nat, env: Env)
    ensures var r1 := PassageSimilarity(model, query, text, lang1, item, env);
      var r2 := PassageSimilarity(model, query, text, lang2, item, env);
      && (r1.Ok? <==> r2.Ok?)
      && (r1.Ok? ==> r1 == r2)
      && (r1.Err? ==> Untagged(r1.error) == Untagged(r2.error))
  {
  }

  /** Both rules read only the labels, not the language tags. */
  lemma {:induction false} SameLabelsSameTotals(sims: seq<real>, passages1: seq<Passage>, passages2: seq<Passage>)
    requires |sims| == |passages1| == |passages2|
    requires forall i :: 0 <= i < |passages1| ==> passages1[i].relevant == passages2[i].relevant
    ensures CorrectCount(sims, passages1) == CorrectCount(sims, passages2)
    ensures WeightedTotal(sims, passages1) == WeightedTotal(sims, passages2)
    decreases |sims|
  {
    if |sims| > 0 {
      var n := |sims| - 1;
      SameLabelsSameTotals(sims[..n], passages1[..n], passages2[..n]);
    }
  }

  /** The weighted rule on two passages, one relevant and one not, both at similarity
      0.9: the relevant one contributes 0.9, the irrelevant one 0.1, for a score of 0.5. */
  lemma WeightedExample()
    ensures RuleScore(WeightedRelevance, [0.9, 0.9], [Passage("a", "", true), Passage("b", "", false)]) == 0.5
  {
    var sims := [0.9, 0.9];
    var passages := [Passage("a", "", true), Passage("b", "", false)];
    assert sims[..1] == [0.9];
    assert WeightedTotal(sims[..1], passages[..1]) == 0.9;
  }

  /** The threshold rule on five passages labelled relevant, relevant, irrelevant,
      irrelevant, irrelevant with similarities 0.62, 0.48, 0.55, 0.31, 0.20: three are
      labelled correctly, for an accuracy of 0.6. A similarity of exactly 0.5 counts as
      irrelevant. */
  lemma AccuracyExample()
    ensures RuleScore(ThresholdAccuracy, [0.62, 0.48, 0.55, 0.31, 0.20], Labelled([true, true, false, false, false])) == 0.6
    ensures !Predicted(0.5)
  {
    var sims := [0.62, 0.48, 0.55, 0.31, 0.20];
    var passages := Labelled([true, true, false, false, false]);
    assert sims[..1] == [0.62];
    assert sims[..2] == [0.62, 0.48];
    assert sims[..3] == [0.62, 0.48, 0.55];
    assert sims[..4] == [0.62, 0.48, 0.55, 0.31];
    assert sims[..2][..1] == sims[..1] && passages[..2][..1] == passages[..1];
    assert sims[..3][..2] == sims[..2] && passages[..3][..2] == passages[..2];
    assert sims[..4][..3] == sims[..3] && passages[..4][..3] == passages[..3];
    assert passages[..5][..4] == passages[..4];
    assert passages[..5] == passages && sims[..5] == sims;
    assert CorrectCount(sims[..1], passages[..1]) == 1;
    assert CorrectCount(sims[..2], passages[..2]) == 1;
    assert CorrectCount(sims[..3], passages[..3]) == 1;
    assert CorrectCount(sims[..4], passages[..4]) == 2;
  }

  /** Passages with the given labels and placeholder texts. */
  function Labelled(labels: seq<bool>): (passages: seq<Passage>)
    ensures |passages| == |labels|
    ensures forall i :: 0 <= i < |labels| ==> passages[i].relevant == labels[i]
    decreases |labels|
  {
    if |labels| == 0 then []
    else Labelled(labels[..|labels| - 1]) + [Passage("", "", labels[|labels| - 1])]
  }
}
