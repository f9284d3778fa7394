/** The analogy probe's per-model score (probes/analogy.go): embed the four terms, check
    that their dimensions agree, form p - f + e and measure its Euclidean distance to l.
    Lower is better. */
module AnalogyProbe {
  import opened Types
  import opened VectorMath

  /** The four terms of the analogy "p is to f as l is to e". */
  datatype Terms = Terms(p: string, f: string, e: string, l: string)

  /** The keys of the program's `terms` map. */
  const TermKeys: set<string> := {"p", "f", "e", "l"}

  /** The program's `terms` map, from key to the text that is embedded. */
  function TermMap(terms: Terms): (m: map<string, string>)
    ensures m.Keys == TermKeys
  {
    map["p" := terms.p, "f" := terms.f, "e" := terms.e, "l" := terms.l]
  }

  /** Embedding the terms in the visiting order `order`, stopping at the first failure.
      Succeeds exactly when every visited term embeds, and then holds one vector per
      visited key: the outcome depends on the order only through which error is met
      first. */
  function FetchTerms(model: string, terms: map<string, string>, order: seq<string>,
                      embed: (string, string) -> Result<Vector, string>): (r: Result<map<string, Vector>, Error>)
    requires forall i :: 0 <= i < |order| ==> order[i] in terms
    ensures r.Ok? <==> forall i :: 0 <= i < |order| ==> embed(model, terms[order[i]]).Ok?
    ensures r.Ok? ==> forall k :: k in r.value <==> k in order
    ensures r.Ok? ==> forall k :: k in r.value ==> embed(model, terms[k]) == Ok(r.value[k])
    decreases |order|
  {
    if |order| == 0 then Ok(map[])
    else
      match FetchTerms(model, terms, order[..|order| - 1], embed)
      case Err(e) => Err(e)
      case Ok(embeddings) =>
        var key := order[|order| - 1];
        match embed(model, terms[key])
        case Err(message) => Err(EmbeddingFailed(Term(terms[key]), message))
        case Ok(v) => Ok(embeddings[key := v])
  }

  /** Once the fetch fails on a prefix of the order, it fails with that error. */
  lemma {:induction false} FetchTermsFailsFast(model: string, terms: map<string, string>, order: seq<string>,
                                               n: nat, embed: (string, string) -> Result<Vector, string>)
    requires n <= |order|
    requires forall i :: 0 <= i < |order| ==> order[i] in terms
    requires FetchTerms(model, terms, order[..n], embed).Err?
    ensures FetchTerms(model, terms, order, embed) == FetchTerms(model, terms, order[..n], embed)
    decreases |order| - n
  {
    if n < |order| {
      var shorter := order[..|order| - 1];
      assert shorter[..n] == order[..n];
      FetchTermsFailsFast(model, terms, shorter, n, embed);
    } else {
      assert order[..n] == order;
    }
  }

  /** The analogy's distance for one model, when terms are fetched in order `order`:
      any failed fetch, then the four-way dimension check, then sqrt of the sum of
      squared differences between p - f + e and l. */
  function AnalogyDistance(model: string, terms: Terms, order: seq<string>, env: Env): Result<real, Error>
    requires IsOrderOf(order, TermKeys)
  {
    match FetchTerms(model, TermMap(terms), order, env.embed)
    case Err(e) => Err(e)
    case Ok(embeddings) => Distance(embeddings, env.sqrt)
  }

  /** The distance once the four embeddings are fetched: the dimension check, then sqrt
      of the sum of squared differences between p - f + e and l. */
  function Distance(embeddings: map<string, Vector>, sqrt: real -> real): Result<real, Error>
    requires TermKeys <= embeddings.Keys
  {
    var p, f, e, l := embeddings["p"], embeddings["f"], embeddings["e"], embeddings["l"];
    if |p| != |f| || |f| != |e| || |e| != |l| then Err(DimensionsDoNotMatch)
    else Ok(sqrt(SquaredDistance(Combine(p, f, e), l)))
  }

  /** One model's turn in the analogy probe's Run: fill the embeddings map in the
      visiting order, check dimensions, combine into a buffer, accumulate the distance. */
  method ScoreAnalogy(model: string, terms: Terms, order: seq<string>, env: Env) returns (r: Result<real, Error>)
    requires IsOrderOf(order, TermKeys)
    ensures r == AnalogyDistance(model, terms, order, env)
  {
    var termMap := TermMap(terms);
    var embeddings: map<string, Vector> := map[];
    for i := 0 to |order|
      invariant FetchTerms(model, termMap, order[..i], env.embed) == Ok(embeddings)
    {
      assert order[..i + 1][..i] == order[..i];
      var key := order[i];
      var emb := env.embed(model, termMap[key]);
      if emb.Err? {
        FetchTermsFailsFast(model, termMap, order, i + 1, env.embed);
        return Err(EmbeddingFailed(Term(termMap[key]), emb.error));
      }
      embeddings := embeddings[key := emb.value];
    }
    assert order[..|order|] == order;
    var p, f, e, l := embeddings["p"], embeddings["f"], embeddings["e"], embeddings["l"];
    if |p| != |f| || |f| != |e| || |e| != |l| {
      return Err(DimensionsDoNotMatch);
    }
    var result := CombineInto(p, f, e);
    var distance := SumSquaredDifferences(result, l);
    distance := env.sqrt(distance);
    return Ok(distance);
  }

  /** Go visits the `terms` map in an unspecified order. Whether a model's analogy
      succeeds, and the distance it gets, are the same for every order; only which
      failed term is reported can differ. */
  lemma AnalogyOrderIrrelevant(model: string, terms: Terms, order1: seq<string>, order2: seq<string>, env: Env)
    requires IsOrderOf(order1, TermKeys) && IsOrderOf(order2, TermKeys)
    ensures AnalogyDistance(model, terms, order1, env).Ok? <==> AnalogyDistance(model, terms, order2, env).Ok?
    ensures AnalogyDistance(model, terms, order1, env).Ok? ==>
      AnalogyDistance(model, terms, order1, env) == AnalogyDistance(model, terms, order2, env)
    ensures AnalogyDistance(model, terms, order1, env) == Err(DimensionsDoNotMatch) <==>
      AnalogyDistance(model, terms, order2, env) == Err(DimensionsDoNotMatch)
  {
    FetchOrderIrrelevant(model, TermMap(terms), order1, order2, env.embed);
  }

  /** Two orders of the same keys fetch the same embeddings, or both fail on an embedding. */
  lemma FetchOrderIrrelevant(model: string, terms: map<string, string>, order1: seq<string>, order2: seq<string>,
                             embed: (string, string) -> Result<Vector, string>)
    requires forall i :: 0 <= i < |order1| ==> order1[i] in terms
    requires forall i :: 0 <= i < |order2| ==> order2[i] in terms
    requires forall k :: k in order1 <==> k in order2
    ensures FetchTerms(model, terms, order1, embed).Ok? <==> FetchTerms(model, terms, order2, embed).Ok?
    ensures FetchTerms(model, terms, order1, embed).Ok? ==>
      FetchTerms(model, terms, order1, embed) == FetchTerms(model, terms, order2, embed)
    ensures FetchTerms(model, terms, order1, embed).Err? ==>
      FetchTerms(model, terms, order1, embed).error.EmbeddingFailed? &&
      FetchTerms(model, terms, order2, embed).error.EmbeddingFailed?
  {
    var r1 := FetchTerms(model, terms, order1, embed);
    var r2 := FetchTerms(model, terms, order2, embed);
    if r1.Ok? {
      forall i | 0 <= i < |order2| ensures embed(model, terms[order2[i]]).Ok? {
        var j :| 0 <= j < |order1| && order1[j] == order2[i];
      }
      assert r1.value == r2.value;
    } else {
      FetchErrorIsEmbedding(model, terms, order1, embed);
      FetchErrorIsEmbedding(model, terms, order2, embed);
    }
  }

  /** A failed fetch reports the text that failed to embed. */
  lemma {:induction false} FetchErrorIsEmbedding(model: string, terms: map<string, string>, order: seq<string>,
                                                 embed: (string, string) -> Result<Vector, string>)
    requires forall i :: 0 <= i < |order| ==> order[i] in terms
    requires FetchTerms(model, terms, order, embed).Err?
    ensures FetchTerms(model, terms, order, embed).error.EmbeddingFailed?
    decreases |order|
  {
    var shorter := order[..|order| - 1];
    if FetchTerms(model, terms, shorter, embed).Err? {
      FetchErrorIsEmbedding(model, terms, shorter, embed);
    }
  }

  /** A successful distance is a square root of a non-negative sum, hence non-negative. */
  lemma AnalogyDistanceNonNegative(model: string, terms: Terms, order: seq<string>, env: Env)
    requires IsOrderOf(order, TermKeys)
    requires IsSqrt(env.sqrt)
    ensures AnalogyDistance(model, terms, order, env).Ok? ==> AnalogyDistance(model, terms, order, env).value >= 0.0
  {
    var r := FetchTerms(model, TermMap(terms), order, env.embed);
    if r.Ok? {
      var p, f, e, l := r.value["p"], r.value["f"], r.value["e"], r.value["l"];
      if |p| == |f| == |e| == |l| {
        SquaredDistanceProperties(Combine(p, f, e), l);
      }
    }
  }
}
