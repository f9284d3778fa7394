# embedding-probes, modelled in Dafny

embedding-probes compares embedding models served by a local Ollama instance on a fixed
battery of eight probes. Each probe (a `Task`) asks the embedding service for vectors and
reduces them to one score per model:

- the analogy probe measures how far `Paris - France + England` lands from `London`
  (Euclidean distance, lower is better);
- the semantic-similarity and cross-language probes average the cosine similarity of four
  phrase pairs (higher is better);
- the five metric-evidence probes compare a metric question with five passages, two
  relevant and three irrelevant. The English probe uses a weighted similarity: it sums
  `sim` for relevant passages and `1 - sim` for irrelevant ones, then divides by the
  number of passages. The French, Spanish, Russian and Mandarin probes use threshold
  accuracy: a passage counts as predicted relevant when `sim > 0.5`, and the score is the
  fraction of passages labelled correctly.

Every probe then scans its result map from a sentinel (`math.MaxFloat64` for the
distance, `-1.0` for the others) and writes the best model's own name into that model's
`Winner` field. `main` runs the registered probes in order and stops at the first
failure. It then lays out a results table for `granite-embedding:latest` and
`nomic-embed-text`, counts each model's wins and names the more reliable one.

The Dafny modules follow the program's files:

| module | file | what it holds |
|---|---|---|
| `Types` | `types.dfy` | `Result`, `Error`, `TaskResult`, and `Env`, which holds the embedding service and the square root |
| `VectorMath` | `vector_math.dfy` | `cosineSimilarity`, the analogy's combination and squared distance over arrays |
| `Winner` | `winner.dfy` | the sentinel scan and the marking pass that every probe repeats |
| `AnalogyProbe` | `analogy_probe.dfy` | `analogyTask.Run` for one model |
| `PairProbe` | `pair_probe.dfy` | the phrase-pair probes for one model |
| `EvidenceProbe` | `evidence_probe.dfy` | the five evidence probes for one model, under either scoring rule |
| `Probes` | `probes.dfy` | one generic `Run`: score every model, fail fast, pick and mark the winner |
| `Instances` | `instances.dfy` | the eight concrete probes as data |
| `TaskRegistry` | `registry.dfy` | `TaskRegistry`/`RegisterTask` and the init functions, as a class |
| `Harness` | `harness.dfy` | `main`: the task loop, the table, the width pass, the tally and the verdict |

The outside world comes in as parameters:

- `Env.embed` stands for `getEmbedding`: a model name and a text map to a vector or the
  service's error message.
- `Env.sqrt` stands for `math.Sqrt`. Lemmas that need its meaning require `IsSqrt`.
- Go's map iteration order is explicit as an `Iteration`. It gives one order for the
  analogy's four terms, one for the winner scan and one for the marking pass. Every
  property about a run holds for every order.
- `float64` is modelled as `real`.
- An error records what Go's message names: the analogy term's text, the pair number
  and which of its two phrases, the metric question, or the passage number with its
  language tag (`Types.Subject`). Each probe's run failure is wrapped with the task's
  number and name.
- Each probe embeds its own texts. The evidence probes' passages are placeholders
  that start with the probe's name, and the two pair probes share their four first
  phrases, as the two source files do.

**Ties.** A tie is not left unmarked: the code marks the first model it meets at the
best score, in map iteration order.

- `Winner.DecidedMarksBest` and `Probes.RunOutcome` prove that exactly one best model is
  marked whenever some model beats the sentinel.
- `Winner.EveryBestCanWin` proves that each tied best model is marked under some
  iteration order.
- `Winner.UniqueBestWinsInEveryOrder` proves that a unique best model is marked under
  every order.

## Model

| member | source | states |
|---|---|---|
| VectorMath.CosineSimilarity | probes/types.go:61-80 | returns the cosine of the two vectors. Unequal lengths fail with both lengths. For equal lengths it fails exactly when one of the two square-rooted norms is zero |
| VectorMath.DotSelf | probes/types.go:66-71 | the sum of squares is never negative, and is zero exactly for the zero vector |
| VectorMath.DotSymmetric | probes/types.go:66-68 | the dot product does not depend on argument order |
| VectorMath.SqrtZero | probes/types.go:73-75 | for a true square root, a norm is zero exactly when its sum of squares is zero |
| VectorMath.CosineFailsIffZero | probes/types.go:61-80 | for equal lengths, cosine fails exactly when one vector is the zero vector, and the error is then the zero-magnitude error. Unequal lengths give the length error |
| VectorMath.CosineSymmetric | probes/types.go:61-80 | swapping the arguments changes neither success, nor the value, nor the zero-magnitude error |
| VectorMath.CosineSelf | probes/types.go:61-80 | a non-zero vector has cosine similarity exactly 1 with itself |
| VectorMath.DotScaled | probes/types.go:66-68 | scaling one argument by k scales the dot product by k |
| VectorMath.SqrtScaled | probes/types.go:73-74 | for k > 0, the square root of k·k·d is k times the square root of d |
| VectorMath.CosineScaled | probes/types.go:61-80 | a non-zero vector has cosine similarity exactly 1 with any positive multiple of itself |
| VectorMath.CauchySchwarz | probes/types.go:66-71 | the square of the dot product is at most the product of the two sums of squares, for all vectors of one length |
| VectorMath.CosineInRange | probes/types.go:61-80 | under a true square root, every successful cosine similarity lies in [-1, 1] |
| VectorMath.CombineInto | probes/analogy.go:44-47 | fills a newly allocated array of the vectors' length with `p[i] - f[i] + e[i]` at every index |
| VectorMath.SumSquaredDifferences | probes/analogy.go:49-53 | the accumulated distance is the sum of squared componentwise differences and is non-negative |
| VectorMath.SquaredDistanceProperties | probes/analogy.go:49-54 | the squared distance is non-negative and symmetric, and zero from a vector to itself |
| Winner.ScanSound | probes/analogy.go:60-67 | the scan either keeps the sentinel with no winner, or returns a visited model whose metric beats the sentinel. No visited model beats the returned best |
| Winner.ScanPicksBest | probes/analogy.go:60-67 | when some model beats the sentinel, the scan returns a best model in the probe's direction. Otherwise it returns the empty name |
| Winner.SelectWinner | probes/analogy.go:60-67 | the loop computes the scan's choice: a best model when one beats the sentinel, else the empty name |
| Winner.Marked | probes/analogy.go:68-74 | marking keeps every key and every metric, changes no other entry, and writes the winner's own name into its entry |
| Winner.MarkWinner | probes/analogy.go:68-74 | the marking loop, in any key order, produces exactly the marked map |
| Winner.DecidedMarksBest | probes/analogy.go:60-76 | scan plus mark keep keys and metrics. Every mark names its own entry and a best model. With a candidate, exactly one best model is marked; with none, the map is unchanged |
| Winner.EveryBestCanWin | probes/analogy.go:62-67 | every model tied at the best score is the winner under some iteration order |
| Winner.ScanFromFront | probes/analogy.go:62-67 | a scan that visits a best model first returns that model with its metric |
| Winner.UniqueBestWinsInEveryOrder | probes/analogy.go:62-67 | a model strictly better than every other is the winner in every iteration order |
| AnalogyProbe.TermMap | probes/analogy.go:19-24 | the term map has exactly the keys p, f, e and l |
| AnalogyProbe.FetchTerms | probes/analogy.go:30-38 | fetching succeeds exactly when the service answers every visited term. The map then holds exactly the visited keys, each mapped to the service's vector for its term |
| AnalogyProbe.FetchTermsFailsFast | probes/analogy.go:32-36 | once a prefix of the key order fails, the whole fetch fails with that same error |
| AnalogyProbe.ScoreAnalogy | probes/analogy.go:28-57 | one model's pass (fetch, dimension check, combine, distance, square root) returns the analogy distance or the first error |
| AnalogyProbe.AnalogyOrderIrrelevant | probes/analogy.go:32-54 | the order of the term visits changes neither success, nor the distance, nor whether the dimension error is reported |
| AnalogyProbe.FetchOrderIrrelevant | probes/analogy.go:30-38 | two orders over the same keys fetch the same map, or both fail with an embedding error |
| AnalogyProbe.FetchErrorIsEmbedding | probes/analogy.go:33-36 | a failing fetch reports an embedding error |
| AnalogyProbe.AnalogyDistanceNonNegative | probes/analogy.go:49-54 | a successful analogy distance is non-negative |
| PairProbe.PairSimilarities | probes/semantic_similarity.go:47-66 | the pair loop succeeds exactly when every pair's similarity does. It then yields one similarity per pair, in order, each equal to that pair's cosine |
| PairProbe.PairSimilaritiesFailFast | probes/semantic_similarity.go:47-62 | once a prefix of the pairs fails, the whole loop fails with the same error |
| PairProbe.StepFails | probes/semantic_similarity.go:48-61 | if every earlier pair succeeded and pair i fails, the loop returns pair i's error |
| PairProbe.ScorePairs | probes/semantic_similarity.go:42-70 | one model's loop returns the mean pair similarity, or the first pair's error |
| PairProbe.SumBounds | probes/semantic_similarity.go:64-65 | a running total of values within [lo, hi] lies within n·lo and n·hi |
| PairProbe.MeanBounds | probes/semantic_similarity.go:68 | the average of values within [lo, hi] stays within [lo, hi] |
| PairProbe.PairScoreBounds | probes/semantic_similarity.go:44-68 | if every pair succeeds within [lo, hi], the probe's score succeeds and lies in [lo, hi] |
| PairProbe.PairSimilarityInRange | probes/semantic_similarity.go:48-61 | a pair's successful similarity lies in [-1, 1] |
| PairProbe.PairScoreInRange | probes/semantic_similarity.go:44-70 | a successful pair-probe score lies in [-1, 1], so never below the -1.0 sentinel of the winner scan |
| PairProbe.IdenticalPairsScoreOne | probes/semantic_similarity.go:47-68 | pairs whose two sides are the same text with a non-zero embedding score exactly 1 |
| PairProbe.PairSimilaritiesFirstFailure | probes/semantic_similarity.go:47-62 | a failing loop reports the error of the first failing pair |
| PairProbe.PairScoreFailure | probes/semantic_similarity.go:47-68 | the score fails exactly when some pair fails, and then with the first failing pair's error |
| EvidenceProbe.PassageSimilarities | probes/semantic_metric_evidence.go:58-77 | the passage loop succeeds exactly when every passage's similarity does. It then yields one similarity per passage, in order |
| EvidenceProbe.PassageSimilaritiesFailFast | probes/semantic_metric_evidence.go:58-67 | once a prefix of the passages fails, the loop fails with the same error |
| EvidenceProbe.StepFails | probes/semantic_metric_evidence.go:59-67 | if every earlier passage succeeded and passage i fails, the loop returns passage i's error |
| EvidenceProbe.StepSucceeds | probes/semantic_metric_evidence.go:58-77 | one more successful passage appends its similarity. The weighted total, the correct count and the relevant count each grow by that passage's share |
| EvidenceProbe.ScoreWeighted | probes/semantic_metric_evidence.go:49-81 | one model's loop returns the weighted score, or the metric's or the first passage's error |
| EvidenceProbe.ScoreAccuracy | probes/russian_cross_language_metric_evidence.go:54-82 | one model's loop returns the threshold accuracy, or the metric's or the first passage's error |
| EvidenceProbe.CorrectCountCountsCorrect | probes/russian_cross_language_metric_evidence.go:73-78 | the correct counter is the number of passages whose prediction matches their label, and never exceeds the passage count |
| EvidenceProbe.AccuracyInUnitInterval | probes/russian_cross_language_metric_evidence.go:56-80 | a successful accuracy lies in [0, 1] |
| EvidenceProbe.WeightedTotalBounds | probes/semantic_metric_evidence.go:70-76 | with similarities in [0, 1], the weighted total lies between 0 and the number of passages |
| EvidenceProbe.WeightedTotalCosineBounds | probes/semantic_metric_evidence.go:70-76 | with similarities in [-1, 1], each contribution lies in [-1, 2], so the weighted total lies between -n and 2n for n passages |
| EvidenceProbe.PassageSimilarityInRange | probes/semantic_metric_evidence.go:59-67 | a passage's successful similarity with the query lies in [-1, 1] |
| EvidenceProbe.WeightedScoreInRange | probes/semantic_metric_evidence.go:51-79 | a successful weighted score lies in [-1, 2], whatever the vectors |
| EvidenceProbe.PerfectSeparationWeighted | probes/semantic_metric_evidence.go:70-79 | similarity 1 on every relevant passage and 0 on every irrelevant one gives the full total n, and a weighted score of exactly 1 for non-empty input |
| EvidenceProbe.AllCorrectIffSeparated | probes/russian_cross_language_metric_evidence.go:73-78 | every passage is counted correct exactly when `sim > 0.5` holds precisely for the relevant passages |
| EvidenceProbe.TagOnlyInErrors | probes/russian_cross_language_metric_evidence.go:63-71 | a passage's similarity does not depend on its language tag. Only a failure reports the tag, and the two errors differ in nothing else |
| EvidenceProbe.LanguageIgnored | probes/russian_cross_language_metric_evidence.go:62-80 | passages that differ only in their language tags succeed together and give the same score under either rule. Their errors differ only in the reported tag |
| EvidenceProbe.SameTextsSameScores | probes/russian_cross_language_metric_evidence.go:62-71 | passages with the same texts give the same similarities, or both fail with errors that differ only in the reported tag |
| EvidenceProbe.SameLabelsSameTotals | probes/russian_cross_language_metric_evidence.go:73-78 | the correct count and the weighted total read only the labels |
| EvidenceProbe.WeightedExample | probes/semantic_metric_evidence.go:70-79 | a relevant and an irrelevant passage, both at 0.9, give a weighted score of 0.5 |
| EvidenceProbe.AccuracyExample | probes/russian_cross_language_metric_evidence.go:73-80 | similarities 0.62, 0.48, 0.55, 0.31, 0.20 against labels R, R, I, I, I give accuracy 0.6. A similarity of exactly 0.5 predicts irrelevant |
| Probes.ScoreModel | probes/types.go:12-16 | dispatches one model to its probe's scorer and returns that probe's score for the model |
| Probes.Collect | probes/semantic_similarity.go:40-71 | the model loop succeeds exactly when every configured model scores. The map's keys are then the distinct models, each with its score and no mark |
| Probes.CollectFailsFast | probes/semantic_similarity.go:42-62 | once a prefix of the models fails, the whole run fails with that error |
| Probes.CollectFirstFailure | probes/semantic_similarity.go:42-62 | a failing run reports the first failing model's error, and every earlier model scored |
| Probes.RunTask | probes/semantic_similarity.go:39-90 | `Run` returns the probe's outcome: the model loop, then winner selection and marking |
| Probes.RunOutcome | probes/semantic_similarity.go:40-89 | `Run` fails exactly when some model fails. On success the keys are the distinct models, each with its own score. Every mark names its own entry and a best model, and exactly one best model is marked when some model beats the sentinel |
| Probes.AccuracyBeatsSentinel | probes/russian_cross_language_metric_evidence.go:80-92 | every successful accuracy beats the `-1.0` sentinel |
| Probes.HighestMarked | probes/russian_cross_language_metric_evidence.go:86-100 | if some score beats the sentinel, a model with the highest score is marked and no other model is |
| Probes.AccuracyProbeMarksOneWinner | probes/russian_cross_language_metric_evidence.go:54-102 | a successful accuracy probe over at least one model marks exactly one model, and it has the highest accuracy |
| Probes.AnalogyTermOrderIrrelevant | probes/analogy.go:18-77 | the analogy's term iteration order changes neither success nor the result map |
| Instances.PhrasePairs | probes/semantic_similarity.go:18-38 | the phrase probes compare four pairs |
| Instances.PairProbesShareFirstPhrases | probes/cross_language.go:18-38 | the two pair probes compare the same four first phrases with different second phrases |
| Instances.EvidencePassages | probes/semantic_metric_evidence.go:24-45 | five passages: the first two are relevant and the last three irrelevant, each with its language tag |
| Instances.EvidenceTextsDiffer | probes/french_cross_language_metric_evidence.go:24-50 | no two evidence probes send the service the same passage text at any position |
| Instances.EvidenceTaskShape | probes/russian_cross_language_metric_evidence.go:23-50 | every cross-language evidence probe uses the English probe's question and labels, and scores by accuracy. The English probe scores by the weighted rule |
| Instances.AllTasksWellFormed | probes/semantic_metric_evidence.go:24-79 | there are eight probes, and none has an empty list of pairs or passages to divide by |
| Instances.SpanishMixIrrelevant | probes/spanish_cross_language_metric_evidence.go:24-50 | the Spanish probe's mixed English and Spanish tags give every model the same success and score as uniform Spanish tags |
| TaskRegistry.Registry.constructor | probes/types.go:23 | the registry starts empty |
| TaskRegistry.Registry.RegisterTask | probes/types.go:25-27 | appends the task at the end, keeping every earlier entry and its position |
| TaskRegistry.Registry.RegisterAll | probes/analogy.go:79-82 | the eight init functions append the eight probes in file order |
| TaskRegistry.InitialRegistry | probes/types.go:23-27 | the program starts with exactly the eight probes, in file order |
| Harness.Max | main.go:17-22 | the result is one of the two arguments and at least both |
| Harness.RunAll | main.go:47-57 | the task loop succeeds exactly when every task does. Results are keyed 1 to n, each holding its task's outcome |
| Harness.RunAllFailsFast | main.go:48-55 | once a prefix of the tasks fails, the whole loop fails with that error |
| Harness.RunAllFirstFailure | main.go:48-55 | a failing loop reports the first failing task's 1-based number, its name and its error, and every earlier task ran |
| Harness.RunAllStep | main.go:51-56 | after a successful prefix, a failing task ends the loop with its number, name and error, and a successful one is stored under its number |
| Harness.RunTasks | main.go:47-57 | the loop with its early return computes the task loop's result over the registry |
| Harness.RunMarksAtMostOne | probes/semantic_similarity.go:73-89 | after a successful run, every mark names its own entry and at most one entry is marked |
| Harness.WinnerLabelNamesWinner | main.go:72-78 | the Winner cell is granite when granite is marked, else nomic when nomic is marked, else "Tie" |
| Harness.DecimalString | main.go:69 | the task-number cell is a non-empty string of decimal digits. It starts with 0 only for the number 0, so it has no leading zeros |
| Harness.DecimalStringRoundTrip | main.go:69 | reading the task-number cell back as decimal gives the number |
| Harness.TableRows | main.go:107-120 | one row per task, in task order, each holding that task's number, name, metric name, both formatted metrics and Winner cell |
| Harness.WidthIsWidest | main.go:59-86 | a column's width is at least its header and every cell, and equals one of them |
| Harness.ColumnWidths | main.go:59-86 | the width loop computes the column widths, each at least its header and every cell in its column |
| Harness.TallyCountsWins | main.go:122-130 | when at most one model is marked per task, the counters are the number of tasks granite won and nomic won, and together they do not exceed the task count |
| Harness.NotBothWon | main.go:124-129 | no task is counted for both models |
| Harness.TallyWins | main.go:122-130 | the counting loop computes the tally over tasks 1 to n |
| Harness.VerdictOf | main.go:134-140 | granite is more reliable exactly when it has more wins, nomic exactly when it has more, and equal counts are a draw |
| Harness.RunProgram | main.go:47-141 | `main` fails exactly when some task fails, and then with a task-failure error. Otherwise it returns the table rows, widths, tally and verdict for the run's results |
| Harness.ReportAgreesWithRuns | main.go:107-130 | on a successful run, the counters are the numbers of tasks each model won and sum to at most the task count. Each row shows granite as Winner exactly when granite won that task |

## Left out

- `getEmbedding`'s HTTP request and JSON decoding (probes/types.go:29-59) are outside the model. The service is the parameter `Env.embed`, and its error messages are opaque strings.
- Reading and parsing `config.json` (main.go:31-45) is not modelled. The configured model list is the parameter `models`.
- Printing is not modelled: the debug listing (main.go:25-29), every progress `Printf` in the probes, and the table's padding, separator and output (main.go:88-105, 118-119). The model stops at the rows and column widths that the printing uses.
- `Sprintf("%.4f", …)` is not modelled. It is the parameter `format` of `Harness.RunProgram` and `Harness.TableRows`.
- `float64` rounding is not modelled. Scores are exact reals, `math.MaxFloat64` is its exact value, and `math.Sqrt` is the parameter `Env.sqrt`.
- Go's randomised map iteration is an explicit `Iteration` argument, and the properties hold for every order.
- The analogy probe's key order is one per run rather than a fresh one per model. Only the order in which the failing model fetches its terms is observable, and `AnalogyProbe.AnalogyOrderIrrelevant` shows that it changes nothing.
- Error messages keep what they report (the term, the pair and its side, the metric, the passage and its tag, the task's number and name, the service's own message) but not their wording. This includes the typo in the French probe's message (probes/french_cross_language_metric_evidence.go:65).
- Go's `len` counts UTF-8 bytes; the widths here count characters. The two differ only for non-ASCII task names, and there are none.
- An empty pair or passage list is excluded by `Probes.WellFormed`. In Go it would divide by zero and give NaN. `Instances.AllTasksWellFormed` shows that no registered probe has one.
- Phrase and passage texts are placeholders. Their count, order, relevance labels and language tags are kept. Which probes share a text and which do not is kept too: `Instances.PairProbesShareFirstPhrases` and `Instances.EvidenceTextsDiffer`.
- The `relevantCount` and `irrelevantCount` counters of probes/semantic_metric_evidence.go:57 are kept as locals of `EvidenceProbe.ScoreWeighted`, tied to `EvidenceProbe.RelevantCount` by its loop invariants. No score reads them, in Go or here.
- Go runs package init functions in file-name order. `TaskRegistry.Registry.RegisterAll` registers the probes in that order.
- Harness.RunTasks: the outcome of each probe run is given as a ghost argument, tied to the runs by `AreOutcomes`, so the per-task results are stated against that argument rather than recomputed inside the contract.
- Harness.RunProgram: stated against the same ghost outcomes as `Harness.RunTasks`.
