/**
 * The calls to the SPECTER embedding provider: `getEmbedding`
 * (src/app/api/search/route.ts) embeds one query string, `embed`
 * (scripts/embed_query.py) embeds a list of papers. Both post the papers in
 * batches of at most 16, one request after the other, stop at the first
 * refused request, and collect the returned embeddings by paper id, a later
 * prediction for an id replacing an earlier one.
 *
 * The provider is the oracle parameter `provider`: the reply it gives to a
 * batch.
 */
module EmbeddingClient {

  import opened Wrappers
  import opened Json
  import opened Text
  import opened Batching

  const QueryId := "QUERY"
  const ErrorPrefix := "SPECTER API error: "

  /** One paper to embed: `{paper_id, title, abstract}`. */
  datatype PaperInput = PaperInput(paperId: string, title: string, abstractText: string)

  /** One entry of the reply's `preds`. */
  datatype Prediction = Prediction(paperId: string, embedding: Value)

  /** The provider's reply to one batch: HTTP status, body text, and the parsed `preds`. */
  datatype ProviderReply = ProviderReply(status: nat, text: string, preds: seq<Prediction>)

  /**
   * Which statuses count as success: `response.ok` (any 2xx) for the web
   * route, exactly 200 for the script.
   */
  datatype StatusPolicy = AnySuccess | OnlyOk

  /** The batches posted, in order, and the collected result or the thrown message. */
  datatype Exchange<R> = Exchange(requests: seq<seq<PaperInput>>, result: Result<R, string>)

  type Embeddings = map<string, Value>

  predicate Accepted(reply: ProviderReply, policy: StatusPolicy)
  {
    match policy
    case AnySuccess => 200 <= reply.status <= 299
    case OnlyOk => reply.status == 200
  }

  /** `SPECTER API error: ${status} ${text}`. */
  function ErrorText(reply: ProviderReply): string
  {
    ErrorPrefix + NatToString(reply.status) + " " + reply.text
  }

  /** The error message names the status, in decimal, and then carries the reply's text. */
  lemma {:induction false} ErrorTextReadable(reply: ProviderReply)
    ensures var msg, d := ErrorText(reply), NatToString(reply.status);
      var k := |ErrorPrefix| + |d|;
      && |msg| == k + 1 + |reply.text|
      && msg[..|ErrorPrefix|] == ErrorPrefix
      && IsDigits(msg[|ErrorPrefix|..k])
      && DecimalValue(msg[|ErrorPrefix|..k]) == reply.status
      && msg[k] == ' '
      && msg[k + 1..] == reply.text
  {
    var d := NatToString(reply.status);
    var msg := ErrorText(reply);
    var k := |ErrorPrefix| + |d|;
    assert msg == ErrorPrefix + d + " " + reply.text;
    assert msg[|ErrorPrefix|..k] == d;
    assert msg[k + 1..] == reply.text;
    DecimalRoundTrip(reply.status);
  }

  /** The ids a list of predictions mentions. */
  function Ids(preds: seq<Prediction>): set<string>
  {
    set p | p in preds :: p.paperId
  }

  /** `preds[i]` is the last prediction for its id. */
  predicate LastFor(preds: seq<Prediction>, i: int)
    requires 0 <= i < |preds|
  {
    forall j :: i < j < |preds| ==> preds[j].paperId != preds[i].paperId
  }

  /** `embeddingsById[p.paper_id] = p.embedding` for each prediction, in order. */
  function Merge(acc: Embeddings, preds: seq<Prediction>): Embeddings
    decreases |preds|
  {
    if |preds| == 0 then acc
    else Merge(acc[preds[0].paperId := preds[0].embedding], preds[1..])
  }

  /** Merging adds exactly the predictions' ids. */
  lemma {:induction false} MergeKeys(acc: Embeddings, preds: seq<Prediction>)
    ensures Merge(acc, preds).Keys == acc.Keys + Ids(preds)
    decreases |preds|
  {
    if |preds| > 0 {
      var p := preds[0];
      MergeKeys(acc[p.paperId := p.embedding], preds[1..]);
      assert Ids(preds) == {p.paperId} + Ids(preds[1..]) by {
        assert forall q :: q in preds <==> q == p || q in preds[1..];
      }
    }
  }

  /** Ids no prediction mentions keep their value. */
  lemma {:induction false} MergeKeeps(acc: Embeddings, preds: seq<Prediction>, id: string)
    requires id in acc && id !in Ids(preds)
    ensures id in Merge(acc, preds) && Merge(acc, preds)[id] == acc[id]
    decreases |preds|
  {
    if |preds| > 0 {
      var p := preds[0];
      assert p in preds;
      assert Ids(preds[1..]) <= Ids(preds) by {
        assert forall q :: q in preds[1..] ==> q in preds;
      }
      MergeKeeps(acc[p.paperId := p.embedding], preds[1..], id);
    }
  }

  /** The last prediction for an id gives that id's value. */
  lemma {:induction false} MergeLastWins(acc: Embeddings, preds: seq<Prediction>, i: int)
    requires 0 <= i < |preds| && LastFor(preds, i)
    ensures preds[i].paperId in Merge(acc, preds)
    ensures Merge(acc, preds)[preds[i].paperId] == preds[i].embedding
    decreases |preds|
  {
    var p := preds[0];
    var rest := preds[1..];
    var acc' := acc[p.paperId := p.embedding];
    if i == 0 {
      assert p.paperId !in Ids(rest) by {
        forall q | q in rest
          ensures q.paperId != p.paperId
        {
          var j :| 0 <= j < |rest| && rest[j] == q;
          assert preds[j + 1] == q;
        }
      }
      MergeKeeps(acc', rest, p.paperId);
    } else {
      assert preds[i] == rest[i - 1];
      assert LastFor(rest, i - 1) by {
        forall j | i - 1 < j < |rest|
          ensures rest[j].paperId != rest[i - 1].paperId
        {
          assert rest[j] == preds[j + 1];
        }
      }
      MergeLastWins(acc', rest, i - 1);
    }
  }

  /** Merging reply after reply is merging all their predictions at once. */
  lemma {:induction false} MergeAppend(acc: Embeddings, a: seq<Prediction>, b: seq<Prediction>)
    ensures Merge(Merge(acc, a), b) == Merge(acc, a + b)
    decreases |a|
  {
    if |a| == 0 {
      assert a + b == b;
    } else {
      var p := a[0];
      MergeAppend(acc[p.paperId := p.embedding], a[1..], b);
      assert (a + b)[1..] == a[1..] + b;
    }
  }

  /** The predictions of the replies to a list of batches, in order. */
  function AllPreds(batches: seq<seq<PaperInput>>, provider: seq<PaperInput> -> ProviderReply): seq<Prediction>
  {
    if |batches| == 0 then [] else provider(batches[0]).preds + AllPreds(batches[1..], provider)
  }

  /**
   * Posts the batches in order. The first refused reply ends the exchange
   * with its error message; if none is refused, the result is every
   * prediction merged into `acc` in order.
   */
  function SendAll(batches: seq<seq<PaperInput>>, provider: seq<PaperInput> -> ProviderReply,
                   policy: StatusPolicy, acc: Embeddings): (x: Exchange<Embeddings>)
    ensures 0 < |x.requests| <= |batches| || (x.requests == [] && batches == [])
    ensures x.requests == batches[..|x.requests|]
    ensures forall i :: 0 <= i < |x.requests| - 1 ==> Accepted(provider(x.requests[i]), policy)
    ensures x.result.Ok? <==> forall i :: 0 <= i < |batches| ==> Accepted(provider(batches[i]), policy)
    ensures x.result.Ok? ==> x.requests == batches
    ensures x.result.Err? ==>
      var last := provider(x.requests[|x.requests| - 1]);
      !Accepted(last, policy) && x.result.error == ErrorText(last)
    decreases |batches|
  {
    if |batches| == 0 then Exchange([], Ok(acc))
    else
      var reply := provider(batches[0]);
      if !Accepted(reply, policy) then Exchange([batches[0]], Err(ErrorText(reply)))
      else
        var x := SendAll(batches[1..], provider, policy, Merge(acc, reply.preds));
        PrefixCons(batches, |x.requests|);
        Exchange([batches[0]] + x.requests, x.result)
  }

  /** A prefix of a non-empty list is its head followed by a prefix of its tail. */
  lemma {:induction false} PrefixCons<T>(s: seq<T>, k: nat)
    requires k < |s|
    ensures s[..k + 1] == [s[0]] + s[1..][..k]
    ensures forall i :: 1 <= i < |s| ==> s[i] == s[1..][i - 1]
  {
  }

  /** A successful exchange holds every prediction of every reply, merged in order. */
  lemma {:induction false} SendAllMerges(batches: seq<seq<PaperInput>>, provider: seq<PaperInput> -> ProviderReply,
                                         policy: StatusPolicy, acc: Embeddings)
    ensures var x := SendAll(batches, provider, policy, acc);
      x.result.Ok? ==> x.result.value == Merge(acc, AllPreds(batches, provider))
    decreases |batches|
  {
    if |batches| > 0 {
      var reply := provider(batches[0]);
      if Accepted(reply, policy) {
        SendAllMerges(batches[1..], provider, policy, Merge(acc, reply.preds));
        MergeAppend(acc, reply.preds, AllPreds(batches[1..], provider));
      }
    }
  }

  /** The payload `getEmbedding` sends: the query as the title of a paper with id "QUERY" and no abstract. */
  function QueryPayload(query: string): seq<PaperInput>
  {
    [PaperInput(QueryId, query, "")]
  }

  /**
   * `getEmbedding(query)`: the one-paper payload fits in one batch, so
   * exactly one request is posted. A non-2xx reply throws its error
   * message; otherwise the result is the embedding of the last "QUERY"
   * prediction, or `undefined` when the reply has none.
   */
  function GetEmbedding(query: string, provider: seq<PaperInput> -> ProviderReply): (x: Exchange<Value>)
    ensures x.requests == [QueryPayload(query)]
    ensures var reply := provider(QueryPayload(query));
      && (x.result.Ok? <==> 200 <= reply.status <= 299)
      && (x.result.Err? ==> x.result.error == ErrorText(reply))
      && (x.result.Ok? && QueryId !in Ids(reply.preds) ==> x.result.value == Undefined)
      && (forall i :: 0 <= i < |reply.preds| && reply.preds[i].paperId == QueryId && LastFor(reply.preds, i) ==>
            x.result.Ok? ==> x.result.value == reply.preds[i].embedding)
  {
    var payload := QueryPayload(query);
    var batches := Chunks(payload, MaxBatchSize);
    assert batches == [payload] by {
      assert payload[..1] == payload && payload[1..] == [];
    }
    var x := SendAll(batches, provider, AnySuccess, map[]);
    SendAllMerges(batches, provider, AnySuccess, map[]);
    assert AllPreds(batches, provider) == provider(payload).preds + [];
    MergeKeys(map[], provider(payload).preds);
    forall i | 0 <= i < |provider(payload).preds| && LastFor(provider(payload).preds, i) {
      MergeLastWins(map[], provider(payload).preds, i);
    }
    match x.result
    case Err(e) => Exchange(x.requests, Err(e))
    case Ok(m) => Exchange(x.requests, Ok(if QueryId in m then m[QueryId] else Undefined))
  }

  /**
   * `embed(papers)`: posts `chunks(papers)` in order until a reply other
   * than 200; on success, maps every returned paper id to the last
   * embedding returned for it.
   */
  function Embed(papers: seq<PaperInput>, provider: seq<PaperInput> -> ProviderReply): (x: Exchange<Embeddings>)
    ensures |x.requests| <= |Chunks(papers, MaxBatchSize)|
    ensures x.requests == Chunks(papers, MaxBatchSize)[..|x.requests|]
    ensures forall i :: 0 <= i < |x.requests| - 1 ==> provider(x.requests[i]).status == 200
    ensures x.result.Ok? <==> forall b :: b in Chunks(papers, MaxBatchSize) ==> provider(b).status == 200
    ensures x.result.Ok? ==>
      && x.requests == Chunks(papers, MaxBatchSize)
      && x.result.value == Merge(map[], AllPreds(x.requests, provider))
    ensures x.result.Err? ==> |x.requests| > 0
    ensures x.result.Err? ==>
      var last := provider(x.requests[|x.requests| - 1]);
      last.status != 200 && x.result.error == ErrorText(last)
  {
    var batches := Chunks(papers, MaxBatchSize);
    SendAllMerges(batches, provider, OnlyOk, map[]);
    SendAll(batches, provider, OnlyOk, map[])
  }

  /** Every request `embed` posts holds between 1 and 16 papers, and on success the requests are the papers, in order. */
  lemma {:induction false} EmbedBatches(papers: seq<PaperInput>, provider: seq<PaperInput> -> ProviderReply)
    ensures var x := Embed(papers, provider);
      && (forall i :: 0 <= i < |x.requests| ==> 0 < |x.requests[i]| <= MaxBatchSize)
      && (x.result.Ok? ==> Flatten(x.requests) == papers)
  {
    var cs := Chunks(papers, MaxBatchSize);
    ChunksShape(papers, MaxBatchSize);
    var x := Embed(papers, provider);
    forall i | 0 <= i < |x.requests|
      ensures 0 < |x.requests[i]| <= MaxBatchSize
    {
      assert x.requests[i] == cs[i];
    }
  }

  /** A batch whose reply predicts every paper in it. */
  predicate Answers(provider: seq<PaperInput> -> ProviderReply, batch: seq<PaperInput>)
  {
    forall p :: p in batch ==> p.paperId in Ids(provider(batch).preds)
  }

  /** When every reply predicts every paper of its batch, the predictions mention every paper sent. */
  lemma {:induction false} AllPredsCover(batches: seq<seq<PaperInput>>, provider: seq<PaperInput> -> ProviderReply)
    requires forall i :: 0 <= i < |batches| ==> Answers(provider, batches[i])
    ensures forall p :: p in Flatten(batches) ==> p.paperId in Ids(AllPreds(batches, provider))
    decreases |batches|
  {
    if |batches| > 0 {
      var rest := batches[1..];
      assert forall i :: 0 <= i < |rest| ==> rest[i] == batches[i + 1];
      AllPredsCover(rest, provider);
      var head := provider(batches[0]).preds;
      var all := AllPreds(batches, provider);
      assert all == head + AllPreds(rest, provider);
      forall p | p in Flatten(batches)
        ensures p.paperId in Ids(all)
      {
        if p in batches[0] {
          var q :| q in head && q.paperId == p.paperId;
          assert q in all;
        } else {
          assert p in Flatten(rest);
          var q :| q in AllPreds(rest, provider) && q.paperId == p.paperId;
          assert q in all;
        }
      }
    }
  }

  /**
   * However the papers are batched, if the provider predicts every paper
   * it is sent, a successful `embed` has an embedding for every paper.
   */
  lemma {:induction false} EmbedCoversPapers(papers: seq<PaperInput>, provider: seq<PaperInput> -> ProviderReply)
    requires forall b :: b in Chunks(papers, MaxBatchSize) ==> Answers(provider, b)
    ensures var x := Embed(papers, provider);
      x.result.Ok? ==> forall p :: p in papers ==> p.paperId in x.result.value
  {
    var cs := Chunks(papers, MaxBatchSize);
    var x := Embed(papers, provider);
    if x.result.Ok? {
      ChunksShape(papers, MaxBatchSize);
      AllPredsCover(cs, provider);
      MergeKeys(map[], AllPreds(cs, provider));
    }
  }
}
