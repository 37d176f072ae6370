/**
 * The search endpoint, `POST` in src/app/api/search/route.ts: validates
 * the request, dispatches to the embedding or the keyword search, and turns
 * the outcome into a JSON response.
 *
 * The outside world is a parameter: `Backends` holds the oracles the two
 * searches consult, `Env` the elapsed time, the build mode and the stack
 * trace an error would carry.
 */
module SearchGateway {

  import opened Wrappers
  import opened Json
  import EmbeddingSearch
  import KeywordSearch
  import EmbeddingClient

  const DefaultSize := 100
  const EmbeddingMethod := "embedding"
  const MissingFieldsMessage := "Query and method required"
  const FailureMessage := "Search failed"

  /** The parsed request body; an absent field is `None`. */
  datatype Request = Request(query: Option<string>, searchMethod: Option<string>, size: Option<int>)

  /** The response bodies: the papers found, a rejected request, or a failed search. */
  datatype Body =
    | Papers(papers: seq<Object>, total: int, took: int)
    | Rejected(error: string)
    | Failure(error: string, details: string, stack: Option<string>)

  datatype Response = Response(status: nat, body: Body)

  /** Which search ran, with what it sent and received. */
  datatype Trace =
    | NotDispatched
    | ViaEmbedding(exchange: EmbeddingClient.Exchange<Value>, search: Option<EmbeddingSearch.Run>)
    | ViaKeyword(run: KeywordSearch.Run)

  /** A search path's result: which search ran, and what it returned or threw. */
  datatype Searched = Searched(trace: Trace, outcome: Result<seq<Object>, string>)

  /** The handler's result: the response sent, and which search ran to produce it. */
  datatype Handled = Handled(response: Response, trace: Trace)

  /** The elapsed time `Date.now() - startTime`, whether `NODE_ENV` is "development", and the error's stack. */
  datatype Env = Env(took: int, development: bool, stack: string)

  /** The oracles behind the two searches. */
  datatype Backends = Backends(
    provider: seq<EmbeddingClient.PaperInput> -> EmbeddingClient.ProviderReply,
    knn: Result<seq<EmbeddingSearch.Hit>, string>,
    mget: Result<seq<EmbeddingSearch.Doc>, string>,
    score: EmbeddingSearch.Doc -> real,
    sqrt: real -> real,
    cluster: nat -> KeywordSearch.Outcome)

  /** `size = 100`: the default applies when the field is absent. */
  function SizeOf(req: Request): int
  {
    if req.size.Some? then req.size.value else DefaultSize
  }

  /** The message of what a keyword search throws. */
  function ThrownMessage(t: KeywordSearch.Thrown): string
  {
    match t
    case Rethrown(e) => e.message
    case Exhausted => KeywordSearch.ExhaustedMessage
  }

  /**
   * The response to a search that returned `papers` or threw `message`:
   * 200 with the papers and their count, or 500 with the message and, in
   * development only, the stack.
   */
  function Respond(outcome: Result<seq<Object>, string>, env: Env): (resp: Response)
    ensures resp.status == 200 <==> outcome.Ok?
    ensures resp.status == 200 ==> resp.body == Papers(outcome.value, |outcome.value|, env.took)
    ensures resp.status != 200 ==>
      && resp.status == 500
      && resp.body.Failure?
      && resp.body.error == FailureMessage
      && resp.body.details == outcome.error
      && (resp.body.stack.Some? <==> env.development)
      && (env.development ==> resp.body.stack == Some(env.stack))
  {
    match outcome
    case Ok(papers) => Response(200, Papers(papers, |papers|, env.took))
    case Err(message) => Response(500, Failure(FailureMessage, message, if env.development then Some(env.stack) else None))
  }

  /** The objects the embedding search returns. */
  function Records(cs: seq<EmbeddingSearch.Candidate>): seq<Object>
  {
    seq(|cs|, i requires 0 <= i < |cs| => EmbeddingSearch.AsRecord(cs[i]))
  }

  /** A trace of a search that ran to an outcome: the embedding search runs unless embedding the query threw. */
  predicate Dispatched(t: Trace)
  {
    t.ViaKeyword? || (t.ViaEmbedding? && (t.search.Some? <==> t.exchange.result.Ok?))
  }

  /**
   * What the search of a trace returned or threw: the records of the
   * embedding search, the error embedding the query threw, or the rows of
   * the keyword search and the message of what it threw.
   */
  function OutcomeOf(t: Trace): Result<seq<Object>, string>
    requires Dispatched(t)
  {
    match t
    case ViaEmbedding(exchange, search) =>
      if search.None? then Err(exchange.result.error)
      else (match search.value.result
        case Ok(cs) => Ok(Records(cs))
        case Err(message) => Err(message))
    case ViaKeyword(run) =>
      match run.result
      case Ok(rows) => Ok(rows)
      case Err(t) => Err(ThrownMessage(t))
  }

  /**
   * The embedding path: embed the query; if that returns, run the vector
   * search with `size` as top-K and the default floor and candidate pool.
   * The outcome is what the search returned or what either step threw.
   */
  function EmbeddingPath(query: string, size: int, b: Backends): (r: Searched)
    ensures r.trace.ViaEmbedding? && Dispatched(r.trace)
    ensures r.trace.exchange == EmbeddingClient.GetEmbedding(query, b.provider)
    ensures r.trace.search.Some? ==>
      r.trace.search.value == EmbeddingSearch.SearchByEmbedding(
        r.trace.exchange.result.value, size, EmbeddingSearch.DefaultMinCosine, EmbeddingSearch.DefaultCandidatePool,
        b.knn, b.mget, b.score, b.sqrt)
    ensures r.outcome == OutcomeOf(r.trace)
  {
    var exchange := EmbeddingClient.GetEmbedding(query, b.provider);
    match exchange.result
    case Err(message) => Searched(ViaEmbedding(exchange, None), Err(message))
    case Ok(embedding) =>
      var run := EmbeddingSearch.SearchByEmbedding(
        embedding, size, EmbeddingSearch.DefaultMinCosine, EmbeddingSearch.DefaultCandidatePool,
        b.knn, b.mget, b.score, b.sqrt);
      var outcome := match run.result
        case Ok(cs) => Ok(Records(cs))
        case Err(message) => Err(message);
      Searched(ViaEmbedding(exchange, Some(run)), outcome)
  }

  /** The keyword path: the keyword search with `size`; its rows, or the message of what it threw. */
  function KeywordPath(query: string, size: int, b: Backends): (r: Searched)
    ensures r.trace.ViaKeyword? && Dispatched(r.trace)
    ensures r.trace.run == KeywordSearch.SearchByKeywords(query, size, b.cluster)
    ensures r.outcome == OutcomeOf(r.trace)
  {
    var run := KeywordSearch.SearchByKeywords(query, size, b.cluster);
    var outcome := match run.result
      case Ok(rows) => Ok(rows)
      case Err(t) => Err(ThrownMessage(t));
    Searched(ViaKeyword(run), outcome)
  }

  /**
   * `POST /api/search`. A request without a non-empty query or method is
   * rejected with 400 before any search. Method "embedding" embeds the
   * query and runs the vector search with `size` as top-K; any other
   * method runs the keyword search with `size`. The response is the
   * search's outcome: 200 with the papers and their count when it returns,
   * 500 with "Search failed" and the error's message when it throws.
   */
  function Post(req: Request, env: Env, b: Backends): (r: Handled)
    ensures r.response.status in {200, 400, 500}
    ensures r.response.status == 400 <==> !TruthyString(req.query) || !TruthyString(req.searchMethod)
    ensures r.response.status == 400 <==> r.trace == NotDispatched
    ensures r.response.status == 400 ==> r.response.body == Rejected(MissingFieldsMessage)
    ensures r.response.status == 200 ==> r.response.body.Papers? && r.response.body.total == |r.response.body.papers| && r.response.body.took == env.took
    ensures r.response.status == 500 ==>
      r.response.body.Failure? && r.response.body.error == FailureMessage && (r.response.body.stack.Some? <==> env.development)
    ensures r.trace.ViaEmbedding? <==> r.trace != NotDispatched && req.searchMethod == Some(EmbeddingMethod)
    ensures r.trace.ViaEmbedding? ==> r.trace.exchange.requests == [EmbeddingClient.QueryPayload(req.query.value)]
    ensures r.trace.ViaKeyword? ==> r.trace.run.query == KeywordSearch.KeywordQuery(req.query.value, SizeOf(req))
    ensures r.trace != NotDispatched ==> Dispatched(r.trace) && r.response == Respond(OutcomeOf(r.trace), env)
    ensures r.trace.ViaEmbedding? ==> r.trace.exchange == EmbeddingClient.GetEmbedding(req.query.value, b.provider)
    ensures r.trace.ViaEmbedding? && r.trace.search.Some? ==>
      r.trace.search.value == EmbeddingSearch.SearchByEmbedding(
        r.trace.exchange.result.value, SizeOf(req), EmbeddingSearch.DefaultMinCosine, EmbeddingSearch.DefaultCandidatePool,
        b.knn, b.mget, b.score, b.sqrt)
    ensures r.trace.ViaKeyword? ==> r.trace.run == KeywordSearch.SearchByKeywords(req.query.value, SizeOf(req), b.cluster)
  {
    if !TruthyString(req.query) || !TruthyString(req.searchMethod) then
      Handled(Response(400, Rejected(MissingFieldsMessage)), NotDispatched)
    else
      var query := req.query.value;
      var size := SizeOf(req);
      var searched :=
        if req.searchMethod.value == EmbeddingMethod then EmbeddingPath(query, size, b)
        else KeywordPath(query, size, b);
      Handled(Respond(searched.outcome, env), searched.trace)
  }

  /**
   * An embedding search that answers 200 returns at most `size` papers
   * (for a non-negative size), each with a `_cosine_score` of at least 0,
   * the default floor.
   */
  lemma {:induction false} EmbeddingAnswerBounded(req: Request, env: Env, b: Backends)
    ensures var r := Post(req, env, b);
      r.trace.ViaEmbedding? && r.response.status == 200 ==>
        && (SizeOf(req) >= 0 ==> |r.response.body.papers| <= SizeOf(req))
        && forall i :: 0 <= i < |r.response.body.papers| ==>
             && "_cosine_score" in r.response.body.papers[i]
             && r.response.body.papers[i]["_cosine_score"].Num?
             && r.response.body.papers[i]["_cosine_score"].n >= 0.0
  {
    var r := Post(req, env, b);
    if r.trace.ViaEmbedding? && r.response.status == 200 {
      var run := r.trace.search.value;
      assert r.response.body.papers == Records(run.result.value);
      SearchBounded(r.trace.exchange.result.value, SizeOf(req), b);
      RecordsScored(run.result.value);
    }
  }

  /** With the default floor, a vector search that returns gives at most `size` candidates, each scoring at least 0. */
  lemma {:induction false} SearchBounded(embedding: Value, size: int, b: Backends)
    ensures var run := EmbeddingSearch.SearchByEmbedding(
        embedding, size, EmbeddingSearch.DefaultMinCosine, EmbeddingSearch.DefaultCandidatePool,
        b.knn, b.mget, b.score, b.sqrt);
      run.result.Ok? ==>
        && (size >= 0 ==> |run.result.value| <= size)
        && forall c :: c in run.result.value ==> c.cosine >= 0.0
  {
    var run := EmbeddingSearch.SearchByEmbedding(
        embedding, size, EmbeddingSearch.DefaultMinCosine, EmbeddingSearch.DefaultCandidatePool,
        b.knn, b.mget, b.score, b.sqrt);
    if run.result.Ok? && |run.calls| == 2 {
      EmbeddingSearch.RerankCount(b.mget.value, size, 0.0, b.score);
      EmbeddingSearch.RerankSound(b.mget.value, size, 0.0, b.score);
    }
  }

  /** The records of candidates scoring at least 0 are as many, and each carries a `_cosine_score` of at least 0. */
  lemma {:induction false} RecordsScored(cs: seq<EmbeddingSearch.Candidate>)
    ensures |Records(cs)| == |cs|
    ensures (forall c :: c in cs ==> c.cosine >= 0.0) ==>
      forall i :: 0 <= i < |Records(cs)| ==>
        && "_cosine_score" in Records(cs)[i]
        && Records(cs)[i]["_cosine_score"].Num?
        && Records(cs)[i]["_cosine_score"].n >= 0.0
  {
    var rs := Records(cs);
    if forall c :: c in cs ==> c.cosine >= 0.0 {
      forall i | 0 <= i < |rs|
        ensures "_cosine_score" in rs[i] && rs[i]["_cosine_score"] == Num(cs[i].cosine) && cs[i].cosine >= 0.0
      {
        assert rs[i] == EmbeddingSearch.AsRecord(cs[i]);
        assert cs[i] in cs;
      }
    }
  }

  /**
   * A keyword search that answers 500 reports the message of the error the
   * last attempt threw; the cluster answered 503 to every attempt before it.
   */
  lemma {:induction false} KeywordFailureIsLastError(req: Request, env: Env, b: Backends)
    ensures var r := Post(req, env, b);
      r.trace.ViaKeyword? && r.response.status == 500 ==>
        var run := r.trace.run;
        && b.cluster(run.calls - 1).Failed?
        && r.response.body.details == b.cluster(run.calls - 1).error.message
        && forall n :: 0 <= n < run.calls - 1 ==> KeywordSearch.Busy(b.cluster(n))
  {
  }
}
