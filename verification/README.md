# Semantic Scholar search core, in Dafny

A model of the search pipeline behind the Semantic Scholar paper-search web
application, with proofs of its contracts. A search request arrives at the
`POST /api/search` endpoint. It is either an *embedding* search or a
*keyword* search.

- **Embedding search.** The query text is embedded by the SPECTER provider,
  posted in batches of at most 16 papers. Approximate kNN retrieval over the
  OpenSearch index then fetches a candidate pool. The candidates' stored
  vectors are fetched with `mget`, rescored exactly, floored at `minCosine`,
  stably sorted by score and cut to the requested size.
- **Keyword search.** A single lexical query is retried when the cluster
  answers 503, with a linear back-off.

Two display helpers are modelled too: author-list formatting and text
truncation. So is the offline embedding script, which embeds a list of
papers in batches.

Everything outside the process is a parameter of the model:

- the kNN and `mget` responses;
- the cluster's answer to each keyword attempt;
- the embedding provider's reply to a batch;
- `Math.sqrt`;
- the exact score of a fetched document;
- the elapsed time, the build mode and an error's stack.

Back-off sleeps are recorded, not performed. Nothing in the model
performs I/O.

| module | file | models |
|---|---|---|
| `Wrappers` | wrappers.dfy | `Option` and `Result` |
| `Json` | json.dfy | the JavaScript values the search core tells apart (undefined, null, booleans, numbers, strings, number arrays), objects of them, and truthiness |
| `Text` | text.dfy | `split` on one character, `join`, `trim`, decimal rendering of non-negative integers |
| `Formatting` | formatting.dfy | `formatAuthors`, `truncateText` |
| `VectorMath` | vector_math.dfy | `normalize`, `cosine` |
| `Ranking` | ranking.dfy | stable descending `sort`, `slice(0, end)` |
| `EmbeddingSearch` | embedding_search.dfy | `searchByEmbeddingVectorOnly` |
| `KeywordSearch` | keyword_search.dfy | `searchByKeywords` and its retry loop |
| `Batching` | batching.dfy | `chunkArray` and the Python `chunks` generator |
| `EmbeddingClient` | embedding_client.dfy | `getEmbedding` and the Python `embed` |
| `SearchGateway` | search_gateway.dfy | the `POST` handler |

## Model

| member | source | states |
|---|---|---|
| Text.Split | src/utils/formatting.ts:2 | `split(',')` gives one more piece than there are commas, and no piece contains a comma |
| Text.JoinSplit | src/utils/formatting.ts:2-4 | joining the pieces of a split with the separator restores the input |
| Text.TrimSpec | src/utils/formatting.ts:2 | `trim` leaves no whitespace at either end, and what it keeps is the input minus whitespace margins |
| Text.NatToString | src/utils/formatting.ts:6 | the decimal text of a count is non-empty, all digits, and has no leading zero |
| Text.DecimalRoundTrip | src/utils/formatting.ts:6 | the decimal text of a count reads back as that count |
| Formatting.Names | src/utils/formatting.ts:2 | the author list has one name per comma plus one |
| Formatting.NamesShape | src/utils/formatting.ts:2 | every listed name is trimmed and comma-free |
| Formatting.FormatAuthorsSingle | src/utils/formatting.ts:2-4 | input without commas is returned trimmed (so `""` gives `""`) |
| Formatting.NamesOfJoin | src/utils/formatting.ts:2-4 | splitting and trimming trimmed, comma-free names joined by ", " gives the names back |
| Formatting.FormatAuthorsShortRoundTrip | src/utils/formatting.ts:2-5 | with at most three names the output is the trimmed names separated by ", ": split at commas it gives the first name, then each other name after exactly one space, and trimming those gives the input's names back |
| Formatting.FormatAuthorsShortIdempotent | src/utils/formatting.ts:1-5 | with at most three names, formatting a formatted list changes nothing |
| Formatting.FormatAuthorsLong | src/utils/formatting.ts:6 | with more than three names: the first three joined by ", ", then " +", then decimal digits without a leading zero that read back as the number of names left out, then " more" |
| Formatting.TruncateText | src/utils/formatting.ts:9-12 | text that fits is returned unchanged; otherwise the first `maxLength` characters (none for a negative length), then "...", for a length of `max(maxLength, 0) + 3` |
| Formatting.TruncateTextIdempotent | src/utils/formatting.ts:9-12 | truncating twice to the same length equals truncating once |
| VectorMath.Normalize | src/lib/opensearch.ts:18-22 | normalizing keeps the vector's length |
| VectorMath.NormalizeZero | src/lib/opensearch.ts:18-21 | a vector whose sum of squares is zero is returned unchanged |
| VectorMath.NormalizeScales | src/lib/opensearch.ts:18-22 | any other vector is divided by its norm, which is positive: scaling the result back by the norm restores the input |
| VectorMath.SumSquaresZero | src/lib/opensearch.ts:19-20 | the sum of squares is zero exactly for the zero vector |
| VectorMath.Cosine | src/lib/opensearch.ts:24-33 | the one-pass loop computes the dot product over the product of norms of `a` and the first `a.length` components of `b`, and 0 when either is the zero vector |
| VectorMath.CosineSymmetric | src/lib/opensearch.ts:24-33 | cosine similarity is symmetric |
| VectorMath.CosineZeroGuard | src/lib/opensearch.ts:31-32 | a zero vector has cosine 0 with anything; otherwise cosine times the product of norms is the dot product |
| Ranking.SortDesc | src/lib/opensearch.ts:77 | the sort is a permutation and orders by score, highest first |
| Ranking.SortDescStable | src/lib/opensearch.ts:77 | the sort is stable: elements of equal score keep their input order |
| Ranking.PrefixIsTop | src/lib/opensearch.ts:77-78 | a prefix of the sorted candidates holds the best of them: nothing left out scores higher than anything kept |
| EmbeddingSearch.AsRecord | src/lib/opensearch.ts:71-75 | a result keeps every `_source` field, sets `_id` to the document's id and adds `_cosine_score`, and has no other field |
| EmbeddingSearch.HitIds | src/lib/opensearch.ts:62 | the ids sent to mget are exactly the hits' truthy ids |
| EmbeddingSearch.HitIdsAppend | src/lib/opensearch.ts:62 | the ids of two runs of hits are those of the first followed by those of the second, so the ids keep hit order |
| EmbeddingSearch.HitIdsOne | src/lib/opensearch.ts:62 | a single hit contributes its id once when that is truthy, and nothing otherwise |
| EmbeddingSearch.ScoreDocs | src/lib/opensearch.ts:69-75 | documents without a stored embedding are dropped; every other one is scored |
| EmbeddingSearch.ScoreDocsAppend | src/lib/opensearch.ts:69-75 | scoring two runs of documents gives the candidates of the first followed by those of the second, so candidates keep mget order |
| EmbeddingSearch.ScoreDocsOne | src/lib/opensearch.ts:69-75 | a single document gives exactly one candidate, holding its `_source`, id and score, when it has a stored embedding, and none otherwise |
| EmbeddingSearch.AboveFloor | src/lib/opensearch.ts:76 | a candidate is kept exactly when its score reaches `minCosine` |
| EmbeddingSearch.AboveFloorAppend | src/lib/opensearch.ts:76 | the floor applied to two runs of candidates keeps those of the first followed by those of the second, so it keeps order |
| EmbeddingSearch.AboveFloorOne | src/lib/opensearch.ts:76 | a single candidate is kept once when its score reaches `minCosine`, and dropped otherwise |
| EmbeddingSearch.Eligible | src/lib/opensearch.ts:69-76 | the competing candidates are exactly the fetched documents with an embedding whose score reaches the floor |
| EmbeddingSearch.EligibleAppend | src/lib/opensearch.ts:69-76 | the eligible candidates of two runs of documents are those of the first followed by those of the second, so they keep mget order |
| EmbeddingSearch.EligibleOne | src/lib/opensearch.ts:69-76 | a single document gives one eligible candidate when it has a stored embedding whose score reaches the floor, and none otherwise |
| EmbeddingSearch.Rerank | src/lib/opensearch.ts:69-78 | the results are drawn from the eligible candidates, there are `slice(0, topK)` of them, and they are sorted by score, highest first |
| EmbeddingSearch.RerankSound | src/lib/opensearch.ts:69-76 | every result comes from a fetched document with a stored embedding and scores at least `minCosine` |
| EmbeddingSearch.RerankOrdered | src/lib/opensearch.ts:77 | ties keep mget order: the results with a given score are the first eligible candidates with that score |
| EmbeddingSearch.RerankCount | src/lib/opensearch.ts:77-78 | at most `topK` results, and all eligible candidates when `topK` is at least their number |
| EmbeddingSearch.RerankKeepsBest | src/lib/opensearch.ts:77-78 | no eligible candidate left out scores higher than a result |
| EmbeddingSearch.SearchByEmbedding | src/lib/opensearch.ts:36-81 | a missing or non-array embedding throws "Invalid embedding provided" before any index call; the kNN query uses the normalized vector with `k` set to the candidate pool; no hits, or no truthy id, gives `[]` without mget; otherwise mget is called with the ids and the documents are reranked; a kNN error, or an mget error after the ids were sent, is thrown as is |
| KeywordSearch.Rows | src/lib/opensearch.ts:106 | one row per hit, in backend order, holding the hit's `_source` fields and its `_score` |
| KeywordSearch.Attempts | src/lib/opensearch.ts:88-116 | the retry loop ends within three attempts, retries only after a 503, waits n × 2000 ms before retry n, and settles on the last attempt's outcome |
| KeywordSearch.SearchByKeywords | src/lib/opensearch.ts:84-119 | 1 to 3 attempts of the same query; every attempt before the last got a 503, and the last one got none unless it was the third; the rows or the last error are returned; the "after multiple attempts" error is never thrown |
| KeywordSearch.TotalBackoff | src/lib/opensearch.ts:106-112 | the total back-off is at most 6000 ms, and exactly 6000 ms when all three attempts are made |
| Batching.ChunksShape | scripts/embed_query.py:9-11 | every chunk is non-empty and at most `size` long, all but the last are exactly `size`, and the chunks concatenate to the input |
| Batching.ChunkCount | scripts/embed_query.py:10 | the number of chunks is the ceiling of the length over `size` |
| Batching.ChunkAt | scripts/embed_query.py:10-11 | chunk i is the slice `[i*size : (i+1)*size]` of the input |
| Batching.ChunkArray | src/app/api/search/route.ts:7-13 | the TypeScript loop yields the same chunks as the Python generator |
| EmbeddingClient.ErrorTextReadable | src/app/api/search/route.ts:28-31 | the provider error message is "SPECTER API error: ", the status in decimal, a space, and the reply's text |
| EmbeddingClient.MergeKeys | src/app/api/search/route.ts:33-36 | the merged map has exactly the earlier ids plus one key per predicted `paper_id` |
| EmbeddingClient.MergeKeeps | src/app/api/search/route.ts:33-36 | ids that no prediction mentions keep their value |
| EmbeddingClient.MergeLastWins | src/app/api/search/route.ts:34-36 | the last prediction for an id determines its embedding |
| EmbeddingClient.MergeAppend | src/app/api/search/route.ts:21-37 | merging reply by reply equals merging all predictions at once |
| EmbeddingClient.SendAll | src/app/api/search/route.ts:21-37 | batches are posted in order until the first refused reply; every batch before the last one posted was accepted; the exchange succeeds exactly when every reply is accepted, and otherwise fails with the refused reply's message |
| EmbeddingClient.SendAllMerges | src/app/api/search/route.ts:21-37 | a successful exchange holds all replies' predictions, merged in order |
| EmbeddingClient.GetEmbedding | src/app/api/search/route.ts:15-40 | exactly one request, holding the query as a paper with id "QUERY"; a non-2xx reply throws its error message; otherwise the last "QUERY" prediction's embedding, or `undefined` without one |
| EmbeddingClient.Embed | scripts/embed_query.py:13-21 | batches are posted in chunk order; every batch before the last one posted got 200; the call succeeds exactly when every reply is 200, with all predictions merged by id; otherwise it fails with the first non-200 reply's message |
| EmbeddingClient.EmbedBatches | scripts/embed_query.py:15-16 | every posted batch holds 1 to 16 papers, and on success the batches are the papers, in order |
| EmbeddingClient.AllPredsCover | scripts/embed_query.py:15-20 | if each reply predicts every paper of its batch, every paper sent is predicted |
| EmbeddingClient.EmbedCoversPapers | scripts/embed_query.py:13-21 | if the provider predicts every paper it is sent, a successful `embed` maps every paper's id |
| SearchGateway.Respond | src/app/api/search/route.ts:59-70 | a result gives 200 with the papers, `total` equal to their count, and `took`; an error gives 500 with "Search failed", the message as `details`, and the stack only in development |
| SearchGateway.EmbeddingPath | src/app/api/search/route.ts:52-54 | the query is embedded by `getEmbedding`; the vector search runs exactly when that returns, with `size` as top-K and the default floor and pool; the outcome is the search's records or whichever step's error |
| SearchGateway.KeywordPath | src/app/api/search/route.ts:55-57 | the keyword search runs with `size`; the outcome is its rows or the message of what it threw |
| SearchGateway.Post | src/app/api/search/route.ts:42-72 | a falsy query or method gives 400 "Query and method required" with no search; otherwise "embedding" runs `getEmbedding` on the query and then the vector search with top-K `size` (100 when absent), and any other method runs the keyword search with `size`; the response is that search's outcome: 200 with its papers, `total` their count and `took`, or 500 "Search failed" with the thrown message and a stack only in development |
| SearchGateway.EmbeddingAnswerBounded | src/app/api/search/route.ts:52-54 | an embedding search answering 200 returns at most `size` papers for a non-negative `size`, each with `_cosine_score` at least 0 |
| SearchGateway.KeywordFailureIsLastError | src/app/api/search/route.ts:56-68 | a failed keyword search reports the last attempt's error message, after 503s on every earlier attempt |

## Left out

- User interface and configuration: the React pages and components, the Next.js configuration, and the `relevancePercent` display heuristic (score / 2.5, rounded, capped).
- OpenSearch client construction: host, credentials, the 30-minute request timeout, transport-level retries and TLS flags. The kNN, mget and search calls are oracle parameters.
- Network and I/O: HTTP `fetch` and `requests.post`, JSON parsing of bodies and replies, real sleeps (only their durations are recorded), console logging, and the Python script's stdin, file output and printing.
- Clock: `took` is a parameter (`Env.took`), not `Date.now()` arithmetic.
- A request body that fails to parse also reaches the 500 branch. The model starts from a parsed `Request`.
- `Unknown error`: non-`Error` values are never thrown in the model, so the `'Unknown error'` and empty-stack branch of the error response is not modelled; the stack is a parameter.
- Request fields of other JSON types: a non-string query or method, or a non-integer or `null` size. The model takes an optional string query and method, and an optional integer size.
- Malformed index and provider replies are not modelled as such. In the vector search, a kNN response without `body.hits.hits` and an mget response without `body.docs` are both read as empty lists, as their `?? []` fallbacks do (src/lib/opensearch.ts lines 59 and 66); the model's `knn` and `mget` parameters are those lists. In the keyword search, a response without `body.hits.hits` makes `hit` access throw a `TypeError` inside the `try`. That error carries no status, so it is not a 503 and is rethrown without a retry. The model covers it as the cluster's answer `Failed(BackendError(None, message))`. A provider reply without `preds` would throw and is not modelled.
- Document fields: a `_source` field value is undefined, null, a boolean, a number, a string or an array of numbers. Nested objects and arrays of other values (an array of author objects, say) cannot be represented; the search core copies such fields without looking into them.
- Hit ids are optional strings. Other truthy `_id` values are not modelled.
- Floating point: reals have no NaN or infinity, so the `isFinite` half of `normalize`'s guard never fires. Unit norm of `normalize` and the [-1, 1] range of `cosine` (including `cosine(v, v) = 1`) are not claimed. `Math.sqrt` is a parameter constrained only by sqrt(0) = 0 and positivity on positive numbers.
- VectorMath.Cosine: requires `b` to be at least as long as `a`. A shorter `b` reads `undefined` and yields NaN, which the reals cannot represent.
- EmbeddingSearch.Rerank: the exact score of a fetched document is the parameter `score`. It stands for `cosine(normalize(query), normalize(stored))`; a stored embedding that is truthy but not an array, which would make `normalize` throw, is not modelled.
- Batching.Chunks: requires a positive `size`. Python's `range` raises `ValueError` for 0 and yields nothing for a negative step, and every caller passes 16.
- Batching.ChunkArray: requires a positive `size`. The TypeScript loop never ends on a non-empty input otherwise, and every caller passes 16.
- Formatting.TruncateText: `maxLength` is an integer. `substring` would truncate a fractional length.
- Lengths count Unicode code points, not UTF-16 code units as JavaScript's `length` does.
- The provider's reply depends only on the batch sent. Concurrent posting of batches is not modelled: both sources post them one after the other.

## Behaviour of note

- An empty array is a valid embedding: the validation only rejects a falsy or non-array value.
- A third 503 from the cluster rethrows that error. The generic "Search failed after multiple attempts" error is unreachable (`KeywordSearch.SearchByKeywords` proves it is never thrown).
- The web route accepts any 2xx provider status (`response.ok`); the script accepts only 200.
- Ties in the rerank keep the order in which `mget` returned the documents.
