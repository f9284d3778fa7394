/** Values shared by every probe: results, errors, vectors and the outside world
    (the embedding service and the square root) that the probes are given. */
module Types {

  /** An operation's value or the error that stopped it. */
  datatype Result<+T, +E> = Ok(value: T) | Err(error: E)

  /** An embedding: the components of one vector returned by the embedding service. */
  type Vector = seq<real>

  /** Which side of a phrase pair: the original (or Russian) phrase or the modified
      (or French) one. Each pair probe names its two sides in its messages. */
  datatype Side = FirstPhrase | SecondPhrase

  /** What a failed embedding or similarity was about, as the probe's message names it. */
  datatype Subject =
    | Term(text: string)                    // an analogy term, named by its text
    | Phrase(side: Side, item: nat)         // one phrase of the 1-based pair
    | PairItem(item: nat)                   // the 1-based pair
    | Metric                                // the evidence probes' metric question
    | EvidenceItem(item: nat, lang: string) // the 1-based passage and its language tag
                                            // ("" in the probe that prints none)

  /** Why a probe, a similarity or a whole run failed; each wrapper keeps the context
      the program adds to the message it reports. */
  datatype Error =
    | LengthMismatch(lenA: nat, lenB: nat)      // the two vectors differ in length
    | ZeroMagnitude                             // one of the two vectors has norm 0
    | EmbeddingFailed(subject: Subject, message: string)  // the service failed
    | SimilarityFailed(subject: Subject, cause: Error)    // the cosine failed
    | DimensionsDoNotMatch                      // the analogy's four vectors differ in length
    | TaskFailed(taskNum: nat, name: string, cause: Error)  // the run stopped at this task

  /** What a probe reports per model: its score and, on the winning entry only,
      the winning model's own name (empty everywhere else). */
  datatype TaskResult = TaskResult(metric: real, winner: string)

  /** The world a probe runs in: the embedding service, as a function from a model name
      and a text to a vector or the service's error message, and the square root. */
  datatype Env = Env(embed: (string, string) -> Result<Vector, string>, sqrt: real -> real)

  /** The set of distinct models in a configured model list. */
  function ModelSet(models: seq<string>): (s: set<string>)
    ensures forall m :: m in s <==> m in models
  {
    set m | m in models
  }

  /** `order` lists every element of `keys` exactly once: one possible order in which
      Go's `range` over a map with these keys visits them. */
  ghost predicate IsOrderOf(order: seq<string>, keys: set<string>)
  {
    && (forall i, j :: 0 <= i < j < |order| ==> order[i] != order[j])
    && (forall k :: k in order <==> k in keys)
  }
}
