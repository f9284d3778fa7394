/** The eight registered probes as data for the generic model: each probe file differs
    from its siblings only in its name, its metric name and the texts and labels its
    Run compares. Phrase and passage texts are stand-ins: only their number, their
    order, their labels and their language tags enter the model. */
module Instances {
  import opened Types
  import opened Probes
  import AnalogyProbe
  import PairProbe
  import EvidenceProbe

  /** The metric question every evidence probe embeds. */
  const MetricQuery: string := "How comprehensive are the organization\U{2019}s employee wellness programs?"

  /** probes/analogy.go: Paris is to France as London is to England. */
  function AnalogyTask(): Task
  {
    Task("Analogy Task", "Euclidean Distance",
         Analogy(AnalogyProbe.Terms("Paris", "France", "England", "London")))
  }

  /** Four phrase pairs, tagged with what each side of the pair is. Both pair probes
      start from the same four Russian lines, so the same `first` gives the same first
      phrases. */
  function PhrasePairs(first: string, second: string): (pairs: seq<PairProbe.Pair>)
    ensures |pairs| == 4
  {
    [ PairProbe.Pair(first + " phrase 1", second + " phrase 1"),
      PairProbe.Pair(first + " phrase 2", second + " phrase 2"),
      PairProbe.Pair(first + " phrase 3", second + " phrase 3"),
      PairProbe.Pair(first + " phrase 4", second + " phrase 4") ]
  }

  /** probes/semantic_similarity.go: original lines against reworded ones. */
  function SemanticSimilarityTask(): Task
  {
    Task("Semantic Similarity Task", "Semantic Similarity", PairMean(PhrasePairs("Russian", "reworded Russian")))
  }

  /** probes/cross_language.go: Russian lines against their French translations. */
  function CrossLanguageTask(): Task
  {
    Task("Cross-Language Capability Task", "Cross-Language Similarity", PairMean(PhrasePairs("Russian", "French")))
  }

  /** The five evidence passages of the probe named `source`, in the given languages:
      two relevant ones (a comprehensive and a moderate wellness programme) followed
      by three irrelevant ones. Every probe file writes its own passages, so each probe's
      texts start with its own name. */
  function EvidencePassages(source: string, langs: seq<string>): (passages: seq<EvidenceProbe.Passage>)
    requires |langs| == 5
    ensures |passages| == 5
    ensures forall i :: 0 <= i < 5 ==> (passages[i].relevant <==> i < 2) && passages[i].lang == langs[i]
  {
    [ EvidenceProbe.Passage(source + " evidence 1 (comprehensive programme)", langs[0], true),
      EvidenceProbe.Passage(source + " evidence 2 (moderate programme)", langs[1], true),
      EvidenceProbe.Passage(source + " evidence 3 (no programme)", langs[2], false),
      EvidenceProbe.Passage(source + " evidence 4 (no programme)", langs[3], false),
      EvidenceProbe.Passage(source + " evidence 5 (no programme)", langs[4], false) ]
  }

  /** probes/semantic_metric_evidence.go: English passages with no language tag,
      scored by the weighted rule. */
  function SemanticMetricEvidenceTask(): Task
  {
    Task("Semantic Metric Evidence Task", "Weighted Similarity",
         Evidence(MetricQuery, EvidencePassages("English", ["", "", "", "", ""]), EvidenceProbe.WeightedRelevance))
  }

  /** The four cross-language metric evidence probes: the English query against
      passages in the given languages, scored by threshold accuracy. */
  function CrossLanguageEvidenceTask(language: string, langs: seq<string>): Task
    requires |langs| == 5
  {
    Task(language + " Cross-Language Metric Evidence Task", "Accuracy",
         Evidence(MetricQuery, EvidencePassages(language, langs), EvidenceProbe.ThresholdAccuracy))
  }

  function FrenchTask(): Task
  {
    CrossLanguageEvidenceTask("French", ["French", "French", "French", "French", "French"])
  }

  /** Spanish passages interleaved with English ones. */
  function SpanishTask(): Task
  {
    CrossLanguageEvidenceTask("Spanish", ["English", "Spanish", "Spanish", "English", "Spanish"])
  }

  function RussianTask(): Task
  {
    CrossLanguageEvidenceTask("Russian", ["Russian", "Russian", "Russian", "Russian", "Russian"])
  }

  function MandarinTask(): Task
  {
    CrossLanguageEvidenceTask("Mandarin", ["Mandarin", "Mandarin", "Mandarin", "Mandarin", "Mandarin"])
  }

  /** The probes in the order their files' init functions register them. */
  function AllTasks(): seq<Task>
  {
    [ AnalogyTask(), CrossLanguageTask(), FrenchTask(), MandarinTask(),
      RussianTask(), SemanticMetricEvidenceTask(), SemanticSimilarityTask(), SpanishTask() ]
  }

  /** Every cross-language evidence probe asks the metric question of the five passages
      and scores threshold accuracy; only the English evidence probe uses the weighted
      rule. */
  lemma EvidenceTaskShape(language: string, langs: seq<string>)
    requires |langs| == 5
    ensures var probe := CrossLanguageEvidenceTask(language, langs).probe;
      && probe.query == SemanticMetricEvidenceTask().probe.query == MetricQuery
      && |probe.passages| == 5
      && (forall i :: 0 <= i < 5 ==> probe.passages[i].relevant == SemanticMetricEvidenceTask().probe.passages[i].relevant)
      && probe.rule == EvidenceProbe.ThresholdAccuracy
      && SemanticMetricEvidenceTask().probe.rule == EvidenceProbe.WeightedRelevance
  {
  }

  /** The registry holds eight probes, each with something to divide by. */
  lemma AllTasksWellFormed()
    ensures |AllTasks()| == 8
    ensures forall i :: 0 <= i < |AllTasks()| ==> WellFormed(AllTasks()[i].probe)
  {
  }

  /** The two pair probes compare the same four Russian lines with different partners. */
  lemma PairProbesShareFirstPhrases()
    ensures var similar := SemanticSimilarityTask().probe.pairs;
      var cross := CrossLanguageTask().probe.pairs;
      && |similar| == |cross| == 4
      && forall i :: 0 <= i < 4 ==> similar[i].first == cross[i].first && similar[i].second != cross[i].second
  {
    var similar := SemanticSimilarityTask().probe.pairs;
    var cross := CrossLanguageTask().probe.pairs;
    forall i | 0 <= i < 4
      ensures similar[i].second != cross[i].second
    {
      assert similar[i].second[0] == 'r' && cross[i].second[0] == 'F';
    }
  }

  /** Every passage text of the probe named `source` starts with that name's first letter. */
  lemma PassageTextsStartWith(source: string, langs: seq<string>)
    requires |source| > 0 && |langs| == 5
    ensures forall i :: 0 <= i < 5 ==>
      |EvidencePassages(source, langs)[i].text| > 0 && EvidencePassages(source, langs)[i].text[0] == source[0]
  {
  }

  /** The five evidence probes embed five different sets of passages: at every position,
      no two probes send the service the same text. */
  lemma EvidenceTextsDiffer()
    ensures var probes := [SemanticMetricEvidenceTask().probe, FrenchTask().probe, SpanishTask().probe,
                           RussianTask().probe, MandarinTask().probe];
      forall a, b, i :: 0 <= a < b < 5 && 0 <= i < 5 ==>
        probes[a].passages[i].text != probes[b].passages[i].text
  {
    PassageTextsStartWith("English", ["", "", "", "", ""]);
    PassageTextsStartWith("French", ["French", "French", "French", "French", "French"]);
    PassageTextsStartWith("Spanish", ["English", "Spanish", "Spanish", "English", "Spanish"]);
    PassageTextsStartWith("Russian", ["Russian", "Russian", "Russian", "Russian", "Russian"]);
    PassageTextsStartWith("Mandarin", ["Mandarin", "Mandarin", "Mandarin", "Mandarin", "Mandarin"]);
  }

  /** The Spanish probe's mix of English and Spanish tags changes nothing: every model
      gets the score it would get with all passages tagged Spanish. */
  lemma SpanishMixIrrelevant(model: string, env: Env)
    ensures var mixed := SpanishTask().probe;
      var uniform := CrossLanguageEvidenceTask("Spanish", ["Spanish", "Spanish", "Spanish", "Spanish", "Spanish"]).probe;
      var r1 := EvidenceProbe.EvidenceScore(model, mixed.query, mixed.passages, mixed.rule, env);
      var r2 := EvidenceProbe.EvidenceScore(model, uniform.query, uniform.passages, uniform.rule, env);
      (r1.Ok? <==> r2.Ok?) && (r1.Ok? ==> r1 == r2)
  {
    var mixed := SpanishTask().probe;
    var uniform := CrossLanguageEvidenceTask("Spanish", ["Spanish", "Spanish", "Spanish", "Spanish", "Spanish"]).probe;
    EvidenceProbe.LanguageIgnored(model, MetricQuery, mixed.passages, uniform.passages, EvidenceProbe.ThresholdAccuracy, env);
  }
}
