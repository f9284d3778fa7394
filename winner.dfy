/** Winner selection, identical in every probe: a strict scan over the result map from
    a sentinel, then a second pass that writes the winner's own name into its entry.
    Go visits map keys in an unspecified order; here that order is a parameter, and the
    properties below hold for every order. */
module Winner {
  import opened Types

  /** Whether a higher score (similarity, accuracy) or a lower one (distance) wins. */
  datatype Direction = HigherIsBetter | LowerIsBetter

  /** math.MaxFloat64, the largest finite float64: 2^1024 - 2^971. */
  const MaxFloat64: real := 179769313486231570814527423731704356798070567525844996598917476803157260780028538760589558632766878171540458953514382464234321326889464182768467546703537516986049910576551282076245490090389328944075868508455133942304583236903222948165808559332123348274797826204144723168738177180919299881250404026184124858368.0

  /** The running best the scan starts from: -1.0 for `>` scans, MaxFloat64 for `<`. */
  function Sentinel(dir: Direction): real
  {
    match dir
    case HigherIsBetter => -1.0
    case LowerIsBetter => MaxFloat64
  }

  /** The scan's strict comparison: `x > best` or `x < best`. */
  predicate Beats(dir: Direction, x: real, best: real)
  {
    match dir
    case HigherIsBetter => x > best
    case LowerIsBetter => x < best
  }

  /** `w` is a model whose score beats the sentinel and that no other score beats. */
  predicate IsBest(results: map<string, TaskResult>, dir: Direction, w: string)
  {
    && w in results
    && Beats(dir, results[w].metric, Sentinel(dir))
    && forall k :: k in results ==> !Beats(dir, results[k].metric, results[w].metric)
  }

  /** Some score beats the sentinel, so the scan picks somebody. */
  predicate HasCandidate(results: map<string, TaskResult>, dir: Direction)
  {
    exists k :: k in results && Beats(dir, results[k].metric, Sentinel(dir))
  }

  /** The scan as a function of the visiting order: (winner, best) after the last key;
      ("", sentinel) when no key beats the sentinel. */
  function Scan(results: map<string, TaskResult>, order: seq<string>, dir: Direction): (string, real)
    requires forall i :: 0 <= i < |order| ==> order[i] in results
    decreases |order|
  {
    if |order| == 0 then ("", Sentinel(dir))
    else
      var (w, best) := Scan(results, order[..|order| - 1], dir);
      var model := order[|order| - 1];
      if Beats(dir, results[model].metric, best) then (model, results[model].metric)
      else (w, best)
  }

  /** After any prefix of the scan, the best so far is either still the sentinel with no
      winner, or the score of a visited model that beats the sentinel; and no visited
      score beats it. */
  lemma {:induction false} ScanSound(results: map<string, TaskResult>, order: seq<string>, dir: Direction)
    requires forall i :: 0 <= i < |order| ==> order[i] in results
    ensures var (w, best) := Scan(results, order, dir);
      || (w == "" && best == Sentinel(dir))
      || (w in order && best == results[w].metric && Beats(dir, best, Sentinel(dir)))
    ensures forall i :: 0 <= i < |order| ==>
      !Beats(dir, results[order[i]].metric, Scan(results, order, dir).1)
  {
    if |order| > 0 {
      var prefix := order[..|order| - 1];
      ScanSound(results, prefix, dir);
      forall i | 0 <= i < |order| - 1 ensures order[i] == prefix[i] {}
    }
  }

  /** For every complete visiting order: when some score beats the sentinel the scan
      ends on a best model; otherwise it ends with no winner. */
  lemma ScanPicksBest(results: map<string, TaskResult>, order: seq<string>, dir: Direction)
    requires IsOrderOf(order, results.Keys)
    ensures HasCandidate(results, dir) ==> IsBest(results, dir, Scan(results, order, dir).0)
    ensures !HasCandidate(results, dir) ==> Scan(results, order, dir).0 == ""
  {
    ScanSound(results, order, dir);
    var (w, best) := Scan(results, order, dir);
    forall k | k in results
      ensures !Beats(dir, results[k].metric, best)
    {
      var i :| 0 <= i < |order| && order[i] == k;
    }
    if HasCandidate(results, dir) {
      var k :| k in results && Beats(dir, results[k].metric, Sentinel(dir));
      assert !Beats(dir, results[k].metric, best);
    }
  }

  /** The first pass: a strict scan from the sentinel, in the given visiting order. */
  method SelectWinner(results: map<string, TaskResult>, order: seq<string>, dir: Direction)
    returns (winner: string)
    requires IsOrderOf(order, results.Keys)
    ensures winner == Scan(results, order, dir).0
    ensures HasCandidate(results, dir) ==> IsBest(results, dir, winner)
    ensures !HasCandidate(results, dir) ==> winner == ""
  {
    var best := Sentinel(dir);
    winner := "";
    for i := 0 to |order|
      invariant (winner, best) == Scan(results, order[..i], dir)
    {
      assert order[..i + 1][..i] == order[..i];
      var model := order[i];
      if Beats(dir, results[model].metric, best) {
        best := results[model].metric;
        winner := model;
      }
    }
    assert order[..|order|] == order;
    ScanPicksBest(results, order, dir);
  }

  /** The results after the second pass: only `w`'s entry changes, and only its winner
      field, which becomes `w`. */
  function Marked(results: map<string, TaskResult>, w: string): (marked: map<string, TaskResult>)
    ensures marked.Keys == results.Keys
    ensures forall k :: k in marked ==> marked[k].metric == results[k].metric
    ensures forall k :: k in marked && k != w ==> marked[k] == results[k]
    ensures w in results ==> marked[w].winner == w
  {
    if w in results then results[w := results[w].(winner := w)] else results
  }

  /** The second pass: visit every key (in any order) and rewrite the winner's entry. */
  method MarkWinner(results: map<string, TaskResult>, order: seq<string>, winner: string)
    returns (marked: map<string, TaskResult>)
    requires IsOrderOf(order, results.Keys)
    ensures marked == Marked(results, winner)
  {
    marked := results;
    for i := 0 to |order|
      invariant marked == if winner in order[..i] then Marked(results, winner) else results
    {
      var model := order[i];
      if model == winner {
        var result := marked[model];
        result := result.(winner := model);
        marked := marked[model := result];
      }
    }
    assert order[..|order|] == order;
  }

  /** The outcome of both passes for a given scan order. */
  function Decided(results: map<string, TaskResult>, order: seq<string>, dir: Direction): map<string, TaskResult>
    requires IsOrderOf(order, results.Keys)
  {
    Marked(results, Scan(results, order, dir).0)
  }

  /** Every entry still unmarked before the passes. */
  predicate Unmarked(results: map<string, TaskResult>)
  {
    forall k :: k in results ==> results[k].winner == ""
  }

  /** For every scan order: the keys and every metric stay; an entry with a non-empty
      winner names itself and has a best score; when some score beats the sentinel
      there is a best model whose entry carries its own name while every other entry
      stays unmarked; when none does, nothing changes. */
  lemma DecidedMarksBest(results: map<string, TaskResult>, order: seq<string>, dir: Direction)
    requires IsOrderOf(order, results.Keys)
    requires Unmarked(results)
    ensures var d := Decided(results, order, dir);
      && d.Keys == results.Keys
      && (forall k :: k in d ==> d[k].metric == results[k].metric)
      && (forall k :: k in d && d[k].winner != "" ==> d[k].winner == k && IsBest(results, dir, k))
      && (HasCandidate(results, dir) ==>
            exists w :: IsBest(results, dir, w) && d[w].winner == w
                     && forall k :: k in d && k != w ==> d[k].winner == "")
      && (!HasCandidate(results, dir) ==> d == results)
  {
    ScanPicksBest(results, order, dir);
    var w := Scan(results, order, dir).0;
    if HasCandidate(results, dir) {
      assert IsBest(results, dir, w);
    }
  }

  /** Ties are settled by the visiting order alone: every model with a best score is
      the one marked for some order of the keys. */
  lemma EveryBestCanWin(results: map<string, TaskResult>, dir: Direction, w: string)
    requires IsBest(results, dir, w)
    ensures exists order :: IsOrderOf(order, results.Keys) && Scan(results, order, dir).0 == w
  {
    var rest := SomeOrder(results.Keys - {w});
    var order := [w] + rest;
    forall i, j | 0 <= i < j < |order| ensures order[i] != order[j] {
      if i > 0 { assert order[i] == rest[i - 1]; }
      assert order[j] == rest[j - 1];
    }
    assert forall k :: k in order <==> k in results.Keys;
    ScanFromFront(results, w, rest, dir);
  }

  /** Starting the scan with a best model keeps it to the end. */
  lemma {:induction false} ScanFromFront(results: map<string, TaskResult>, w: string, rest: seq<string>, dir: Direction)
    requires IsBest(results, dir, w)
    requires forall i :: 0 <= i < |rest| ==> rest[i] in results
    ensures forall i :: 0 <= i < |[w] + rest| ==> ([w] + rest)[i] in results
    ensures Scan(results, [w] + rest, dir) == (w, results[w].metric)
  {
    var order := [w] + rest;
    if |rest| == 0 {
      assert order[..0] == [];
    } else {
      var shorter := rest[..|rest| - 1];
      ScanFromFront(results, w, shorter, dir);
      assert order[..|order| - 1] == [w] + shorter;
    }
  }

  /** When one model alone has the best score, every visiting order marks it. */
  lemma UniqueBestWinsInEveryOrder(results: map<string, TaskResult>, order: seq<string>, dir: Direction, w: string)
    requires IsOrderOf(order, results.Keys)
    requires IsBest(results, dir, w)
    requires forall k :: k in results && k != w ==> results[k].metric != results[w].metric
    ensures Scan(results, order, dir).0 == w
  {
    ScanPicksBest(results, order, dir);
  }

  /** Some order that lists every element of a finite set once. */
  ghost function SomeOrder(s: set<string>): (order: seq<string>)
    ensures IsOrderOf(order, s)
    decreases |s|
  {
    if s == {} then []
    else
      var x :| x in s;
      var rest := SomeOrder(s - {x});
      assert forall i, j :: 0 <= i < j < |[x] + rest| ==> ([x] + rest)[i] != ([x] + rest)[j] by {
        forall i, j | 0 <= i < j < |[x] + rest| ensures ([x] + rest)[i] != ([x] + rest)[j] {
          if i > 0 { assert ([x] + rest)[i] == rest[i - 1]; }
          assert ([x] + rest)[j] == rest[j - 1];
        }
      }
      [x] + rest
  }
}
