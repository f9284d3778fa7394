/** The pair probes' per-model score (probes/semantic_similarity.go, probes/cross_language.go):
    embed both phrases of every pair, take their cosine similarity, and average over the
    pairs. Higher is better. */
module PairProbe {
  import opened Types
  import opened VectorMath

  /** Two phrases compared with each other: original and modified, or Russian and French. */
  datatype Pair = Pair(first: string, second: string)

  /** The similarity of the `item`-th pair (1-based, as reported): the first phrase's
      embedding, then the second's, then their cosine. */
  function PairSimilarity(model: string, pair: Pair, item: nat, env: Env): Result<real, Error>
  {
    match env.embed(model, pair.first)
    case Err(message) => Err(EmbeddingFailed(Phrase(FirstPhrase, item), message))
    case Ok(u) =>
      match env.embed(model, pair.second)
      case Err(message) => Err(EmbeddingFailed(Phrase(SecondPhrase, item), message))
      case Ok(v) =>
        match Cosine(u, v, env.sqrt)
        case Err(cause) => Err(SimilarityFailed(PairItem(item), cause))
        case Ok(sim) => Ok(sim)
  }

  /** The pairs' similarities in order, stopping at the first pair that fails. Succeeds
      exactly when every pair does, and then holds each pair's similarity at its index. */
  function PairSimilarities(model: string, pairs: seq<Pair>, env: Env): (r: Result<seq<real>, Error>)
    ensures r.Ok? <==> forall i :: 0 <= i < |pairs| ==> PairSimilarity(model, pairs[i], i + 1, env).Ok?
    ensures r.Ok? ==> |r.value| == |pairs|
    ensures r.Ok? ==> forall i :: 0 <= i < |pairs| ==> PairSimilarity(model, pairs[i], i + 1, env) == Ok(r.value[i])
    decreases |pairs|
  {
    if |pairs| == 0 then Ok([])
    else
      var n := |pairs| - 1;
      match PairSimilarities(model, pairs[..n], env)
      case Err(e) => Err(e)
      case Ok(sims) =>
        match PairSimilarity(model, pairs[n], n + 1, env)
        case Err(e) => Err(e)
        case Ok(sim) => Ok(sims + [sim])
  }

  /** Pair `i` is the first pair whose similarity fails. */
  predicate FirstFailure(model: string, pairs: seq<Pair>, i: nat, env: Env)
    requires i < |pairs|
  {
    && PairSimilarity(model, pairs[i], i + 1, env).Err?
    && forall j :: 0 <= j < i ==> PairSimilarity(model, pairs[j], j + 1, env).Ok?
  }

  /** Once a prefix of the pairs fails, the whole loop fails with that error. */
  lemma {:induction false} PairSimilaritiesFailFast(model: string, pairs: seq<Pair>, n: nat, env: Env)
    requires n <= |pairs|
    requires PairSimilarities(model, pairs[..n], env).Err?
    ensures PairSimilarities(model, pairs, env) == PairSimilarities(model, pairs[..n], env)
    decreases |pairs| - n
  {
    if n < |pairs| {
      var shorter := pairs[..|pairs| - 1];
      assert shorter[..n] == pairs[..n];
      PairSimilaritiesFailFast(model, shorter, n, env);
    } else {
      assert pairs[..n] == pairs;
    }
  }

  /** When pair `i` fails after the pairs before it succeed, the loop fails with its error. */
  lemma StepFails(model: string, pairs: seq<Pair>, i: nat, env: Env)
    requires i < |pairs|
    requires PairSimilarities(model, pairs[..i], env).Ok?
    requires PairSimilarity(model, pairs[i], i + 1, env).Err?
    ensures PairSimilarities(model, pairs, env) == Err(PairSimilarity(model, pairs[i], i + 1, env).error)
  {
    assert pairs[..i + 1][..i] == pairs[..i];
    PairSimilaritiesFailFast(model, pairs, i + 1, env);
  }

  /** Sum of a sequence of reals, accumulated front to back. */
  function Sum(s: seq<real>): real
    decreases |s|
  {
    if |s| == 0 then 0.0 else Sum(s[..|s| - 1]) + s[|s| - 1]
  }

  /** The model's score: the mean similarity over all pairs. */
  function PairScore(model: string, pairs: seq<Pair>, env: Env): Result<real, Error>
    requires |pairs| > 0
  {
    match PairSimilarities(model, pairs, env)
    case Err(e) => Err(e)
    case Ok(sims) => Ok(Sum(sims) / |sims| as real)
  }

  /** One model's turn in the pair probes' Run: accumulate the similarities and the pair
      count, then divide. */
  method ScorePairs(model: string, pairs: seq<Pair>, env: Env) returns (r: Result<real, Error>)
    requires |pairs| > 0
    ensures r == PairScore(model, pairs, env)
  {
    var totalSimilarity := 0.0;
    var count := 0;
    ghost var sims: seq<real> := [];
    for i := 0 to |pairs|
      invariant PairSimilarities(model, pairs[..i], env) == Ok(sims)
      invariant totalSimilarity == Sum(sims)
      invariant count == i == |sims|
    {
      assert pairs[..i + 1][..i] == pairs[..i];
      var pair := pairs[i];
      ghost var step := PairSimilarity(model, pair, i + 1, env);
      var firstEmb := env.embed(model, pair.first);
      if firstEmb.Err? {
        StepFails(model, pairs, i, env);
        return Err(EmbeddingFailed(Phrase(FirstPhrase, i + 1), firstEmb.error));
      }
      var secondEmb := env.embed(model, pair.second);
      if secondEmb.Err? {
        StepFails(model, pairs, i, env);
        return Err(EmbeddingFailed(Phrase(SecondPhrase, i + 1), secondEmb.error));
      }
      var sim := CosineSimilarity(firstEmb.value, secondEmb.value, env.sqrt);
      if sim.Err? {
        StepFails(model, pairs, i, env);
        return Err(SimilarityFailed(PairItem(i + 1), sim.error));
      }
      assert step == sim;
      totalSimilarity := totalSimilarity + sim.value;
      count := count + 1;
      sims := sims + [sim.value];
      assert (sims[..|sims| - 1], sims[|sims| - 1]) == (sims[..i], sim.value);
    }
    assert pairs[..|pairs|] == pairs;
    return Ok(totalSimilarity / count as real);
  }

  /** A sum of n values that all lie in [lo, hi] lies in [n * lo, n * hi]. */
  lemma {:induction false} SumBounds(s: seq<real>, lo: real, hi: real)
    requires forall i :: 0 <= i < |s| ==> lo <= s[i] <= hi
    ensures |s| as real * lo <= Sum(s) <= |s| as real * hi
    decreases |s|
  {
    if |s| > 0 {
      var init := s[..|s| - 1];
      assert forall i :: 0 <= i < |init| ==> init[i] == s[i];
      SumBounds(init, lo, hi);
    }
  }

  /** When every pair's similarity lies in [lo, hi], so does the model's score. */
  lemma PairScoreBounds(model: string, pairs: seq<Pair>, env: Env, lo: real, hi: real)
    requires |pairs| > 0
    requires forall i :: 0 <= i < |pairs| ==>
      PairSimilarity(model, pairs[i], i + 1, env).Ok? && lo <= PairSimilarity(model, pairs[i], i + 1, env).value <= hi
    ensures PairScore(model, pairs, env).Ok?
    ensures lo <= PairScore(model, pairs, env).value <= hi
  {
    var sims := PairSimilarities(model, pairs, env).value;
    forall i | 0 <= i < |sims|
      ensures lo <= sims[i] <= hi
    {
      assert PairSimilarity(model, pairs[i], i + 1, env) == Ok(sims[i]);
    }
    MeanBounds(sims, lo, hi);
  }

  /** Each pair's similarity is a cosine, so it lies in [-1, 1]. */
  lemma PairSimilarityInRange(model: string, pair: Pair, item: nat, env: Env)
    requires IsSqrt(env.sqrt)
    ensures PairSimilarity(model, pair, item, env).Ok? ==>
      -1.0 <= PairSimilarity(model, pair, item, env).value <= 1.0
  {
    var u, v := env.embed(model, pair.first), env.embed(model, pair.second);
    if u.Ok? && v.Ok? {
      CosineInRange(u.value, v.value, env.sqrt);
    }
  }

  /** A successful pair-probe score lies in [-1, 1], so never below the -1.0 sentinel the
      winner scan starts from. */
  lemma PairScoreInRange(model: string, pairs: seq<Pair>, env: Env)
    requires IsSqrt(env.sqrt)
    requires |pairs| > 0
    ensures PairScore(model, pairs, env).Ok? ==> -1.0 <= PairScore(model, pairs, env).value <= 1.0
  {
    if PairScore(model, pairs, env).Ok? {
      forall i | 0 <= i < |pairs|
        ensures PairSimilarity(model, pairs[i], i + 1, env).Ok?
        ensures -1.0 <= PairSimilarity(model, pairs[i], i + 1, env).value <= 1.0
      {
        PairSimilarityInRange(model, pairs[i], i + 1, env);
      }
      PairScoreBounds(model, pairs, env, -1.0, 1.0);
    }
  }

  /** The mean of values that all lie in [lo, hi] lies in [lo, hi]. */
  lemma MeanBounds(s: seq<real>, lo: real, hi: real)
    requires |s| > 0
    requires forall i :: 0 <= i < |s| ==> lo <= s[i] <= hi
    ensures lo <= Sum(s) / |s| as real <= hi
  {
    SumBounds(s, lo, hi);
    QuotientBounds(Sum(s), |s| as real, lo, hi);
  }

  /** Pairs of identical phrases whose embeddings are not the zero vector score exactly 1:
      a model that embeds consistently gets the top mean. */
  lemma IdenticalPairsScoreOne(model: string, pairs: seq<Pair>, env: Env)
    requires IsSqrt(env.sqrt)
    requires |pairs| > 0
    requires forall i :: 0 <= i < |pairs| ==> pairs[i].first == pairs[i].second
    requires forall i :: 0 <= i < |pairs| ==>
      env.embed(model, pairs[i].first).Ok? && !IsZero(env.embed(model, pairs[i].first).value)
    ensures PairScore(model, pairs, env) == Ok(1.0)
  {
    forall i | 0 <= i < |pairs|
      ensures PairSimilarity(model, pairs[i], i + 1, env) == Ok(1.0)
    {
      CosineSelf(env.embed(model, pairs[i].first).value, env.sqrt);
    }
    PairScoreBounds(model, pairs, env, 1.0, 1.0);
  }

  /** A failed loop reports the error of the first pair that fails. */
  lemma {:induction false} PairSimilaritiesFirstFailure(model: string, pairs: seq<Pair>, env: Env)
    requires PairSimilarities(model, pairs, env).Err?
    ensures exists i :: 0 <= i < |pairs| && FirstFailure(model, pairs, i, env) &&
                        PairSimilarities(model, pairs, env).error == PairSimilarity(model, pairs[i], i + 1, env).error
    decreases |pairs|
  {
    var n := |pairs| - 1;
    var shorter := pairs[..n];
    if PairSimilarities(model, shorter, env).Err? {
      PairSimilaritiesFirstFailure(model, shorter, env);
      var i :| 0 <= i < |shorter| && FirstFailure(model, shorter, i, env) &&
        PairSimilarities(model, shorter, env).error == PairSimilarity(model, shorter[i], i + 1, env).error;
      assert FirstFailure(model, pairs, i, env) by {
        forall j | 0 <= j <= i ensures pairs[j] == shorter[j] {}
      }
    } else {
      assert FirstFailure(model, pairs, n, env) by {
        forall j | 0 <= j < n ensures PairSimilarity(model, pairs[j], j + 1, env).Ok? {
          assert pairs[j] == shorter[j];
        }
      }
    }
  }

  /** The model's score fails exactly when some pair fails, and then with the error of
      the first pair that fails. */
  lemma PairScoreFailure(model: string, pairs: seq<Pair>, env: Env)
    requires |pairs| > 0
    ensures PairScore(model, pairs, env).Err? <==>
      exists i :: 0 <= i < |pairs| && PairSimilarity(model, pairs[i], i + 1, env).Err?
    ensures PairScore(model, pairs, env).Err? ==>
      exists i :: 0 <= i < |pairs| && FirstFailure(model, pairs, i, env) &&
        PairScore(model, pairs, env).error == PairSimilarity(model, pairs[i], i + 1, env).error
  {
    if PairSimilarities(model, pairs, env).Err? {
      PairSimilaritiesFirstFailure(model, pairs, env);
    }
  }
}
