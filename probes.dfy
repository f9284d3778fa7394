/** The Task interface (probes/types.go) and the Run skeleton every probe shares: score
    each configured model in turn, failing fast, into a map keyed by model; then pick the
    winner with a strict scan and mark its entry. */
module Probes {
  import opened Types
  import opened Winner
  import AnalogyProbe
  import PairProbe
  import EvidenceProbe

  /** What a probe's Run compares: the analogy's four terms, phrase pairs averaged by
      cosine similarity, or a query against labelled evidence passages. */
  datatype Probe =
    | Analogy(terms: AnalogyProbe.Terms)
    | PairMean(pairs: seq<PairProbe.Pair>)
    | Evidence(query: string, passages: seq<EvidenceProbe.Passage>, rule: EvidenceProbe.Rule)

  /** A registered probe: its Name, its MetricName and the data its Run uses. */
  datatype Task = Task(name: string, metricName: string, probe: Probe)

  /** The probes divide by the number of pairs or passages, which is never zero. */
  predicate WellFormed(probe: Probe)
  {
    match probe
    case Analogy(_) => true
    case PairMean(pairs) => |pairs| > 0
    case Evidence(_, passages, _) => |passages| > 0
  }

  /** Distances are minimised, similarities and accuracies maximised. */
  function DirectionOf(probe: Probe): Direction
  {
    if probe.Analogy? then LowerIsBetter else HigherIsBetter
  }

  /** The three map iteration orders one Run depends on: over the analogy's `terms`
      map, and the scan and marking passes over the result map. */
  datatype Iteration = Iteration(terms: seq<string>, scan: seq<string>, mark: seq<string>)

  /** Each order lists its map's keys once: the terms' keys, and the distinct models. */
  ghost predicate ValidIteration(it: Iteration, models: seq<string>)
  {
    && IsOrderOf(it.terms, AnalogyProbe.TermKeys)
    && IsOrderOf(it.scan, ModelSet(models))
    && IsOrderOf(it.mark, ModelSet(models))
  }

  /** One model's score under a probe. */
  function ModelScore(probe: Probe, model: string, termOrder: seq<string>, env: Env): Result<real, Error>
    requires WellFormed(probe) && IsOrderOf(termOrder, AnalogyProbe.TermKeys)
  {
    match probe
    case Analogy(terms) => AnalogyProbe.AnalogyDistance(model, terms, termOrder, env)
    case PairMean(pairs) => PairProbe.PairScore(model, pairs, env)
    case Evidence(query, passages, rule) => EvidenceProbe.EvidenceScore(model, query, passages, rule, env)
  }

  /** Dispatch to the probe's own scoring loop. */
  method ScoreModel(probe: Probe, model: string, termOrder: seq<string>, env: Env) returns (r: Result<real, Error>)
    requires WellFormed(probe) && IsOrderOf(termOrder, AnalogyProbe.TermKeys)
    ensures r == ModelScore(probe, model, termOrder, env)
  {
    match probe
    case Analogy(terms) =>
      r := AnalogyProbe.ScoreAnalogy(model, terms, termOrder, env);
    case PairMean(pairs) =>
      r := PairProbe.ScorePairs(model, pairs, env);
    case Evidence(query, passages, rule) =>
      if rule == EvidenceProbe.WeightedRelevance {
        r := EvidenceProbe.ScoreWeighted(model, query, passages, env);
      } else {
        r := EvidenceProbe.ScoreAccuracy(model, query, passages, env);
      }
  }

  /** Every model's score under one probe, for one order of the analogy's terms. */
  function ScoreOf(probe: Probe, termOrder: seq<string>, env: Env): string -> Result<real, Error>
    requires WellFormed(probe) && IsOrderOf(termOrder, AnalogyProbe.TermKeys)
  {
    model => ModelScore(probe, model, termOrder, env)
  }

  /** The result map after the model loop, stopping at the first model whose score
      fails. Succeeds exactly when every model scores, and then has one entry per
      distinct model holding that model's score, with no winner yet. A repeated model
      is scored again and overwrites its entry with the same score. */
  function Collect(score: string -> Result<real, Error>, models: seq<string>): (r: Result<map<string, TaskResult>, Error>)
    ensures r.Ok? <==> forall i :: 0 <= i < |models| ==> score(models[i]).Ok?
    ensures r.Ok? ==> r.value.Keys == ModelSet(models) && Unmarked(r.value)
    ensures r.Ok? ==> forall m :: m in r.value ==> score(m) == Ok(r.value[m].metric)
    decreases |models|
  {
    if |models| == 0 then Ok(map[])
    else
      var n := |models| - 1;
      match Collect(score, models[..n])
      case Err(e) => Err(e)
      case Ok(results) =>
        match score(models[n])
        case Err(e) => Err(e)
        case Ok(x) =>
          assert ModelSet(models) == ModelSet(models[..n]) + {models[n]} by {
            assert models == models[..n] + [models[n]];
          }
          Ok(results[models[n] := TaskResult(x, "")])
  }

  /** Once a prefix of the models fails, the whole Run fails with that error. */
  lemma {:induction false} CollectFailsFast(score: string -> Result<real, Error>, models: seq<string>, n: nat)
    requires n <= |models|
    requires Collect(score, models[..n]).Err?
    ensures Collect(score, models) == Collect(score, models[..n])
    decreases |models| - n
  {
    if n < |models| {
      var shorter := models[..|models| - 1];
      assert shorter[..n] == models[..n];
      CollectFailsFast(score, shorter, n);
    } else {
      assert models[..n] == models;
    }
  }

  /** The Run's outcome: the collected scores, then both winner passes. */
  function Outcome(probe: Probe, models: seq<string>, it: Iteration, env: Env): Result<map<string, TaskResult>, Error>
    requires WellFormed(probe) && ValidIteration(it, models)
  {
    match Collect(ScoreOf(probe, it.terms, env), models)
    case Err(e) => Err(e)
    case Ok(results) => Ok(Decided(results, it.scan, DirectionOf(probe)))
  }

  /** A probe's Run: the model loop filling the result map, then the winner scan and
      the marking pass. */
  method RunTask(task: Task, models: seq<string>, it: Iteration, env: Env) returns (r: Result<map<string, TaskResult>, Error>)
    requires WellFormed(task.probe) && ValidIteration(it, models)
    ensures r == Outcome(task.probe, models, it, env)
  {
    ghost var scoreOf := ScoreOf(task.probe, it.terms, env);
    var results: map<string, TaskResult> := map[];
    for i := 0 to |models|
      invariant Collect(scoreOf, models[..i]) == Ok(results)
    {
      assert models[..i + 1][..i] == models[..i];
      var model := models[i];
      var score := ScoreModel(task.probe, model, it.terms, env);
      if score.Err? {
        CollectFailsFast(scoreOf, models, i + 1);
        return Err(score.error);
      }
      results := results[model := TaskResult(score.value, "")];
    }
    assert models[..|models|] == models;
    var winner := SelectWinner(results, it.scan, DirectionOf(task.probe));
    var marked := MarkWinner(results, it.mark, winner);
    return Ok(marked);
  }

  /** What every Run promises, for every iteration order: it fails exactly when some
      model's score fails; otherwise the map has one entry per distinct model holding
      its score, an entry with a non-empty winner names itself and has a best score,
      and when some score beats the sentinel exactly one best entry is marked, while
      otherwise nothing is. */
  lemma RunOutcome(probe: Probe, models: seq<string>, it: Iteration, env: Env)
    requires WellFormed(probe) && ValidIteration(it, models)
    ensures Outcome(probe, models, it, env).Err? <==>
      exists i :: 0 <= i < |models| && ModelScore(probe, models[i], it.terms, env).Err?
    ensures Outcome(probe, models, it, env).Ok? ==>
      var final := Outcome(probe, models, it, env).value;
      var results := Collect(ScoreOf(probe, it.terms, env), models).value;
      var dir := DirectionOf(probe);
      && final.Keys == ModelSet(models)
      && (forall m :: m in final ==> ModelScore(probe, m, it.terms, env) == Ok(final[m].metric))
      && (forall m :: m in final && final[m].winner != "" ==> final[m].winner == m && IsBest(results, dir, m))
      && (HasCandidate(results, dir) ==>
            exists w :: IsBest(results, dir, w) && final[w].winner == w
                     && forall m :: m in final && m != w ==> final[m].winner == "")
      && (!HasCandidate(results, dir) ==> Unmarked(final))
  {
    var c := Collect(ScoreOf(probe, it.terms, env), models);
    if c.Ok? {
      DecidedMarksBest(c.value, it.scan, DirectionOf(probe));
    }
  }

  /** A failed Run reports the error of the first model whose score fails. */
  lemma {:induction false} CollectFirstFailure(score: string -> Result<real, Error>, models: seq<string>)
    requires Collect(score, models).Err?
    ensures exists i :: 0 <= i < |models| && score(models[i]).Err? &&
                        (forall j :: 0 <= j < i ==> score(models[j]).Ok?) &&
                        Collect(score, models).error == score(models[i]).error
    decreases |models|
  {
    var n := |models| - 1;
    var shorter := models[..n];
    if Collect(score, shorter).Err? {
      CollectFirstFailure(score, shorter);
      var i :| 0 <= i < |shorter| && score(shorter[i]).Err? &&
               (forall j :: 0 <= j < i ==> score(shorter[j]).Ok?) &&
               Collect(score, shorter).error == score(shorter[i]).error;
      assert forall j :: 0 <= j <= i ==> shorter[j] == models[j];
    } else {
      assert forall j :: 0 <= j < n ==> shorter[j] == models[j];
    }
  }

  /** The threshold-accuracy probes always mark exactly one model when there is one:
      an accuracy is at least 0, which beats the sentinel -1, and the marked model has
      the highest accuracy. */
  lemma AccuracyProbeMarksOneWinner(probe: Probe, models: seq<string>, it: Iteration, env: Env)
    requires probe.Evidence? && probe.rule == EvidenceProbe.ThresholdAccuracy
    requires WellFormed(probe) && ValidIteration(it, models)
    requires |models| > 0
    requires Outcome(probe, models, it, env).Ok?
    ensures var final := Outcome(probe, models, it, env).value;
      exists w :: w in final && final[w].winner == w
               && (forall m :: m in final ==> final[m].metric <= final[w].metric)
               && (forall m :: m in final && m != w ==> final[m].winner == "")
  {
    var score := ScoreOf(probe, it.terms, env);
    var results := Collect(score, models).value;
    var m0 := models[0];
    assert m0 in results;
    AccuracyBeatsSentinel(probe, m0, it.terms, env);
    HighestMarked(results, it.scan);
  }

  /** An accuracy, once computed, beats the `>` scan's sentinel. */
  lemma AccuracyBeatsSentinel(probe: Probe, model: string, termOrder: seq<string>, env: Env)
    requires probe.Evidence? && probe.rule == EvidenceProbe.ThresholdAccuracy
    requires WellFormed(probe) && IsOrderOf(termOrder, AnalogyProbe.TermKeys)
    ensures var r := ModelScore(probe, model, termOrder, env);
      r.Ok? ==> Beats(HigherIsBetter, r.value, Sentinel(HigherIsBetter))
  {
    EvidenceProbe.AccuracyInUnitInterval(model, probe.query, probe.passages, env);
  }

  /** When some score beats the sentinel of a `>` scan, exactly one entry with the
      highest score is marked. */
  lemma HighestMarked(results: map<string, TaskResult>, order: seq<string>)
    requires IsOrderOf(order, results.Keys) && Unmarked(results)
    requires HasCandidate(results, HigherIsBetter)
    ensures var final := Decided(results, order, HigherIsBetter);
      exists w :: w in final && final[w].winner == w
               && (forall m :: m in final ==> final[m].metric <= final[w].metric)
               && (forall m :: m in final && m != w ==> final[m].winner == "")
  {
    DecidedMarksBest(results, order, HigherIsBetter);
  }

  /** The analogy's terms-map order never changes whether a Run succeeds, nor any
      distance, nor the marked winner for a given scan order. */
  lemma AnalogyTermOrderIrrelevant(probe: Probe, models: seq<string>, it1: Iteration, it2: Iteration, env: Env)
    requires probe.Analogy?
    requires ValidIteration(it1, models) && ValidIteration(it2, models)
    requires it1.scan == it2.scan
    ensures Outcome(probe, models, it1, env).Ok? <==> Outcome(probe, models, it2, env).Ok?
    ensures Outcome(probe, models, it1, env).Ok? ==> Outcome(probe, models, it1, env) == Outcome(probe, models, it2, env)
  {
    var score1, score2 := ScoreOf(probe, it1.terms, env), ScoreOf(probe, it2.terms, env);
    forall m | true
      ensures score1(m).Ok? <==> score2(m).Ok?
      ensures score1(m).Ok? ==> score1(m) == score2(m)
    {
      AnalogyProbe.AnalogyOrderIrrelevant(m, probe.terms, it1.terms, it2.terms, env);
    }
    var c1 := Collect(score1, models);
    var c2 := Collect(score2, models);
    if c1.Ok? {
      assert c1.value == c2.value;
    }
  }
}
