/**
 * `searchByKeywords` (src/lib/opensearch.ts): one lexical query, retried
 * when the cluster answers 503, with a linear back-off between attempts.
 *
 * The cluster is the oracle parameter `backend`: `backend(n)` is how the
 * (n+1)-th attempt ends. Waiting is recorded, not performed: a run lists
 * the back-off delays it asked for, in milliseconds.
 */
module KeywordSearch {

  import opened Wrappers
  import opened Json

  const MaxAttempts: nat := 3
  const BackoffUnitMs: nat := 2000
  const BusyStatus := 503
  const ExhaustedMessage := "Search failed after multiple attempts"

  /** A lexical hit, fetched without its `embedding` field: its `_source` and its `_score`. */
  datatype KeywordHit = KeywordHit(source: Object, score: Value)

  /** What the client throws: the HTTP status of the response, when there was one, and a message. */
  datatype BackendError = BackendError(status: Option<int>, message: string)

  /** How one attempt ends: the hits, or a thrown error. */
  datatype Outcome =
    | Answered(hits: seq<KeywordHit>)
    | Failed(error: BackendError)

  /** What a failed search throws: the last attempt's own error, or the generic exhaustion error. */
  datatype Thrown =
    | Rethrown(error: BackendError)
    | Exhausted

  /**
   * The query every attempt sends: a boolean `should` of a fuzzy multi-field
   * match and a boosted title phrase match on `keywords`, returning up to
   * `size` hits.
   */
  datatype KeywordQuery = KeywordQuery(keywords: string, size: int)

  /** The query sent, the number of attempts made, the back-off delays waited between them, and the outcome. */
  datatype Run = Run(query: KeywordQuery, calls: nat, sleeps: seq<nat>, result: Result<seq<Object>, Thrown>)

  /** `error?.meta?.statusCode === 503`. */
  predicate Busy(o: Outcome)
  {
    o.Failed? && o.error.status == Some(BusyStatus)
  }

  /** `{...hit._source, _score: hit._score}` for every hit, in the cluster's order. */
  function Rows(hits: seq<KeywordHit>): (rows: seq<Object>)
    ensures |rows| == |hits|
    ensures forall i :: 0 <= i < |hits| ==>
      && rows[i].Keys == hits[i].source.Keys + {"_score"}
      && rows[i]["_score"] == hits[i].score
      && forall f :: f in hits[i].source && f != "_score" ==> rows[i][f] == hits[i].source[f]
  {
    seq(|hits|, i requires 0 <= i < |hits| => hits[i].source["_score" := hits[i].score])
  }

  /** The delay before retry number `n` (1-based): `n * 2000` ms. */
  function Backoff(n: nat): nat
  {
    n * BackoffUnitMs
  }

  /**
   * The retry loop from attempt number `attempt` (0-based) on, having
   * already waited `sleeps`.
   */
  function Attempts(query: KeywordQuery, backend: nat -> Outcome, attempt: nat, sleeps: seq<nat>): (run: Run)
    requires attempt < MaxAttempts
    requires |sleeps| == attempt
    requires forall i :: 0 <= i < |sleeps| ==> sleeps[i] == Backoff(i + 1)
    ensures run.query == query
    ensures attempt < run.calls <= MaxAttempts
    ensures |run.sleeps| == run.calls - 1
    ensures forall i :: 0 <= i < |run.sleeps| ==> run.sleeps[i] == Backoff(i + 1)
    ensures forall n :: attempt <= n < run.calls - 1 ==> Busy(backend(n))
    ensures run.calls < MaxAttempts ==> !Busy(backend(run.calls - 1))
    ensures run.result.Ok? <==> backend(run.calls - 1).Answered?
    ensures run.result.Ok? ==> run.result.value == Rows(backend(run.calls - 1).hits)
    ensures run.result.Err? ==> run.result.error == Rethrown(backend(run.calls - 1).error)
    decreases MaxAttempts - attempt
  {
    match backend(attempt)
    case Answered(hits) => Run(query, attempt + 1, sleeps, Ok(Rows(hits)))
    case Failed(e) =>
      var next := attempt + 1;
      if Busy(backend(attempt)) && next < MaxAttempts then
        Attempts(query, backend, next, sleeps + [Backoff(next)])
      else
        Run(query, next, sleeps, Err(Rethrown(e)))
  }

  /**
   * `searchByKeywords(keywords, size)`. It stops at the first attempt that
   * is not refused with 503, or after the third attempt: attempts before the
   * last were all refused with 503, retry n waited n * 2000 ms, and the search
   * returns the last attempt's rows or rethrows its error. The generic
   * "Search failed after multiple attempts" error is never thrown: the third
   * 503 is rethrown as it is.
   */
  function SearchByKeywords(keywords: string, size: int, backend: nat -> Outcome): (run: Run)
    ensures run.query == KeywordQuery(keywords, size)
    ensures 1 <= run.calls <= MaxAttempts
    ensures run.result != Err(Exhausted)
    ensures |run.sleeps| == run.calls - 1
    ensures forall i :: 0 <= i < |run.sleeps| ==> run.sleeps[i] == (i + 1) * 2000
    ensures forall n :: 0 <= n < run.calls - 1 ==> Busy(backend(n))
    ensures run.calls < MaxAttempts ==> !Busy(backend(run.calls - 1))
    ensures run.result.Ok? <==> backend(run.calls - 1).Answered?
    ensures run.result.Ok? ==> run.result.value == Rows(backend(run.calls - 1).hits)
    ensures run.result.Err? ==> run.result.error == Rethrown(backend(run.calls - 1).error)
  {
    Attempts(KeywordQuery(keywords, size), backend, 0, [])
  }

  /** Sum of a sequence of delays. */
  function Total(s: seq<nat>): nat
  {
    if |s| == 0 then 0 else s[0] + Total(s[1..])
  }

  /** The search waits at most 2 s + 4 s = 6 s in all, and 6 s exactly when it makes all three attempts. */
  lemma {:induction false} TotalBackoff(keywords: string, size: int, backend: nat -> Outcome)
    ensures var run := SearchByKeywords(keywords, size, backend);
      Total(run.sleeps) <= 6000 && (Total(run.sleeps) == 6000 <==> run.calls == MaxAttempts)
  {
    var s := SearchByKeywords(keywords, size, backend).sleeps;
    if |s| == 1 {
      assert Total(s) == s[0] + Total(s[1..]);
    } else if |s| == 2 {
      assert Total(s) == s[0] + Total(s[1..]);
      assert Total(s[1..]) == s[1] + Total(s[2..]);
    }
  }
}
