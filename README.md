# SpringVectorDB similarity search, in Dafny

This project models `EmbeddingService`, the service at the centre of SpringVectorDB, and proves properties of the model. The service does four things:

- It stores text documents together with an embedding vector returned by a remote embedding API.
- It embeds a question through that API.
- It scores every stored document against the question by cosine similarity, writing each score into the document's transient `similarityScore` field.
- It answers with the documents that pass the threshold 0.5, best first, at most 10 of them, each projected to an `(id, content)` DTO.

Files:

- `wrappers.dfy`: `Option`, `Result` and `Outcome`, and the two Java exceptions the service throws, with their exact messages.
- `similarity.dfy` (module `Similarity`):
  - the scorer `calculateCosineSimilarity`, as the function `CosineSimilarity` and as the method `CalculateCosineSimilarity`, whose `for` loop runs over arrays;
  - lemmas about the score: symmetry, the Cauchy-Schwarz inequality, range [-1, 1], and NaN exactly for zero norms.
- `ranking.dfy` (module `Ranking`):
  - the stream steps after scoring: `filter(score >= SIMILARITY_THRESHOLD)`, the stable `sorted` with `Double.compare(d2, d1)`, and `limit(TOP_K)`;
  - these are generic over the scored item;
  - lemmas on threshold, order, stability, prefix truncation, top-K and sub-multiset.
- `documents.dfy` (module `Domain`): the `Documents` entity, a class with a mutable `similarityScore`, and `DocumentsDTO`.
- `embedding_service.dfy` (module `EmbeddingServiceImpl`):
  - the class `EmbeddingService`; its repository is a `seq<Documents>` field that `findAll` reads and `save` appends to;
  - the methods `GetRelevantDocuments`, `FindSimilarDocuments` and `SaveDocument`;
  - the specification functions `GenerateEmbedding`, `ScoreAll`, `RelevantDocuments` and `SimilarDocuments`, and the lemmas about them.

Modelling choices:

- **Math.sqrt** is a parameter `sqrt: real -> real` of every operation that scores. Lemmas that depend on what it computes require `IsSqrt(sqrt)`, which says that it returns the non-negative square root of every non-negative real.
- **Scores** are reals or `NaN`:
  - Java's `0.0 / 0.0` is `NaN`. Under `IsSqrt`, the denominator is zero only when a norm is zero, and then the dot product is zero too, so no infinity can arise.
  - `AtLeast` is `Double.compare(a, b) >= 0`, which ranks NaN above every number.
  - `Passes` is the Java `>=` test, which NaN fails.
- **The embedding API** is the function `embeddingClient` from the request map to the reply map. Its reply maps keys to numeric lists.
- **Stream evaluation order**:
  - `map` and `filter` run element by element, and `sorted` waits for all of them.
  - So when a stored embedding has the wrong length, every document before it has already been scored and none after it has.
  - `GetRelevantDocuments` states exactly this on its failure path.

Behaviour of the code that the model keeps as written:

- The errors are `IllegalArgumentException` (a stored embedding of the wrong length) and `IllegalStateException` (a reply without an embedding), with their messages.
- One stored embedding of the wrong length aborts the whole query; it is not skipped.
- A zero-norm vector scores NaN (0.0 / 0.0), not 0, and NaN never passes the threshold.
- `saveDocument` builds the record without an id; the database assigns ids, which is outside the model, so the saved document's id is `None`.
- The threshold 0.5 and the limit 10 are constants of the service, not per-query options. A comment next to the threshold mentions 0.8; the code uses 0.5.

A query is deterministic in the question embedding and the repository snapshot: `RelevantDocuments` is a function of exactly these. The question embedding itself comes from the remote provider, whose reply to the same text may change between calls.

## Model

| member | source | states |
|---|---|---|
| Similarity.Dot | src/main/java/kopo/poly/service/impl/EmbeddingService.java:117-126 | the dot product the loop accumulates from 0.0, front to back; its properties are DotSymmetric, DotSelfNonNegative and CauchySchwarz |
| Similarity.Normalize | src/main/java/kopo/poly/service/impl/EmbeddingService.java:129 | the final division dot / (sqrt(normA) · sqrt(normB)), NaN when the denominator is 0; its properties are NormalizeFacts, ZeroNormIsNaN and CosineInRange |
| Similarity.CosineSimilarity | src/main/java/kopo/poly/service/impl/EmbeddingService.java:112-130 | lengths differ exactly when the result is the IllegalArgumentException "Vectors must be of the same length" |
| Similarity.CalculateCosineSimilarity | src/main/java/kopo/poly/service/impl/EmbeddingService.java:112-130 | the length check precedes accumulation; after i iterations the accumulators hold Σa·b, Σa², Σb² over the first i positions, both norms non-negative; the result is the score of the two arrays' contents |
| Similarity.DotSymmetric | src/main/java/kopo/poly/service/impl/EmbeddingService.java:122-126 | the accumulated dot product does not depend on argument order |
| Similarity.DotSelfNonNegative | src/main/java/kopo/poly/service/impl/EmbeddingService.java:122-126 | a squared-norm accumulator is never negative |
| Similarity.CauchySchwarzStep | src/main/java/kopo/poly/service/impl/EmbeddingService.java:122-126 | one loop iteration keeps dot² <= normA·normB |
| Similarity.CauchySchwarz | src/main/java/kopo/poly/service/impl/EmbeddingService.java:122-129 | (a·b)² <= (a·a)(b·b) for the accumulated values |
| Similarity.CosineSymmetric | src/main/java/kopo/poly/service/impl/EmbeddingService.java:112-130 | swapping the two vectors gives the same result, exception included |
| Similarity.NormalizeFacts | src/main/java/kopo/poly/service/impl/EmbeddingService.java:129 | on Cauchy-Schwarz accumulators the division yields NaN exactly when a norm is 0 (and then the dot product is 0), otherwise a value in [-1, 1] |
| Similarity.ZeroNormIsNaN | src/main/java/kopo/poly/service/impl/EmbeddingService.java:112-130 | the score is NaN exactly when one vector has norm 0, and then the dot product is 0, so Java divides 0 by 0 and never a non-zero value by 0 |
| Similarity.CosineInRange | src/main/java/kopo/poly/service/impl/EmbeddingService.java:112-130 | equal-length vectors always score, and every numeric score lies in [-1, 1] |
| Similarity.CosineSelfIsOne | src/main/java/kopo/poly/service/impl/EmbeddingService.java:112-130 | a vector with non-zero norm scores exactly 1 against itself |
| Ranking.AtLeast | src/main/java/kopo/poly/service/impl/EmbeddingService.java:99 | the comparator `Double.compare(d2, d1)` as an order on scores, NaN above every number; it is a total preorder (AtLeastTransitive, AtLeastTotal) and the order of SortIsDescending and RankDescending |
| Ranking.Passes | src/main/java/kopo/poly/service/impl/EmbeddingService.java:97 | the test `score >= SIMILARITY_THRESHOLD`, false for NaN; Filter, FilterWithScore and RankPasses state what it keeps |
| Ranking.Filter | src/main/java/kopo/poly/service/impl/EmbeddingService.java:97 | keeps exactly the elements whose score is a number >= 0.5, each as often as in the input, and nothing else |
| Ranking.FilterWithScore | src/main/java/kopo/poly/service/impl/EmbeddingService.java:97 | for each score, the filter keeps all elements of a passing score in input order and none of a failing one |
| Ranking.Insert | src/main/java/kopo/poly/service/impl/EmbeddingService.java:99 | one insertion-sort step adds exactly the new element to the multiset |
| Ranking.InsertDescending | src/main/java/kopo/poly/service/impl/EmbeddingService.java:99 | inserting into a descending sequence keeps it descending |
| Ranking.InsertStable | src/main/java/kopo/poly/service/impl/EmbeddingService.java:99 | the inserted element goes after every element with the same score |
| Ranking.SortDescending | src/main/java/kopo/poly/service/impl/EmbeddingService.java:99 | the sort is a permutation of its input |
| Ranking.SortIsDescending | src/main/java/kopo/poly/service/impl/EmbeddingService.java:99 | the sorted sequence is non-increasing under Double.compare |
| Ranking.SortStable | src/main/java/kopo/poly/service/impl/EmbeddingService.java:99 | the sort is stable: elements of equal score keep their input order |
| Ranking.Limit | src/main/java/kopo/poly/service/impl/EmbeddingService.java:101 | the result is the prefix of length min(maxSize, n) |
| Ranking.Rank | src/main/java/kopo/poly/service/impl/EmbeddingService.java:97-101 | filter, then the stable sort, then limit(TOP_K); its properties are RankLength, RankSubMultiset, RankPreserves, RankPasses, RankDescending, RankStable, RankKeepsHighest and RankItems |
| Ranking.RankLength | src/main/java/kopo/poly/service/impl/EmbeddingService.java:97-101 | the result has at most TOP_K = 10 elements, is exactly the first min(10, n) of the sorted passing elements, and is empty for an empty input |
| Ranking.RankSubMultiset | src/main/java/kopo/poly/service/impl/EmbeddingService.java:97-101 | the result is a sub-multiset of the input |
| Ranking.RankPreserves | src/main/java/kopo/poly/service/impl/EmbeddingService.java:97-101 | any property of all input elements holds of all returned elements |
| Ranking.RankPasses | src/main/java/kopo/poly/service/impl/EmbeddingService.java:97 | every returned element's score is a number >= 0.5 |
| Ranking.RankDescending | src/main/java/kopo/poly/service/impl/EmbeddingService.java:99 | returned scores never increase |
| Ranking.RankStable | src/main/java/kopo/poly/service/impl/EmbeddingService.java:99-101 | returned elements of one score are a prefix of that score's elements in input order |
| Ranking.RankKeepsHighest | src/main/java/kopo/poly/service/impl/EmbeddingService.java:97-101 | a passing element left out implies exactly 10 were returned, each scoring at least as high |
| Ranking.RankItems | src/main/java/kopo/poly/service/impl/EmbeddingService.java:97-102 | the returned items are a sub-multiset of the input items |
| Ranking.RankOfThree | src/main/java/kopo/poly/service/impl/EmbeddingService.java:97-101 | two passing entries in descending order followed by a failing one rank as exactly the first two |
| Domain.Documents.constructor | src/main/java/kopo/poly/domain/Documents.java:32-37 | the builder sets id, content and embedding; the score starts at 0.0 |
| Domain.ToDtos | src/main/java/kopo/poly/service/impl/EmbeddingService.java:53-58 | one DTO per document, in order, carrying its id and content and no question, contents or embedding |
| EmbeddingServiceImpl.GenerateEmbedding | src/main/java/kopo/poly/service/impl/EmbeddingService.java:139-152 | sends {"text": text}; throws IllegalStateException "Embedding not found in the response" exactly when the reply lacks "embedding", otherwise returns that entry |
| EmbeddingServiceImpl.ScoredCount | src/main/java/kopo/poly/service/impl/EmbeddingService.java:85-95 | the number of documents scored before the stream stops: the index of the first length mismatch, or all |
| EmbeddingServiceImpl.ScoreAll | src/main/java/kopo/poly/service/impl/EmbeddingService.java:85-95 | fails with the length exception exactly when some stored embedding differs in length from the query; otherwise pairs every document, in repository order, with its score |
| EmbeddingServiceImpl.ScoredCountFirst | src/main/java/kopo/poly/service/impl/EmbeddingService.java:85-95 | the scored count is the first mismatching index |
| EmbeddingServiceImpl.ScoredUpToStep | src/main/java/kopo/poly/service/impl/EmbeddingService.java:93 | writing one document's score extends the scored prefix, even when the same object occurs earlier in the snapshot |
| EmbeddingServiceImpl.RelevantDocuments | src/main/java/kopo/poly/service/impl/EmbeddingService.java:84-103 | getRelevantDocuments as a value of the query embedding and the repository snapshot; GetRelevantDocuments is proved to return it, and RelevantDocumentsProperties, RelevantDocumentsKeepsHighest and ZeroNormNotReturned state what it is |
| EmbeddingServiceImpl.SimilarDocuments | src/main/java/kopo/poly/service/impl/EmbeddingService.java:43-64 | findSimilarDocuments as a value of the client, the snapshot and the question; FindSimilarDocuments is proved to return it, and SimilarDocumentsProperties states what it is |
| EmbeddingServiceImpl.EmbeddingService.constructor | src/main/java/kopo/poly/service/impl/EmbeddingService.java:22-34 | the service holds the given client and repository |
| EmbeddingServiceImpl.EmbeddingService.ScoreDocument | src/main/java/kopo/poly/service/impl/EmbeddingService.java:86-95 | the map lambda returns the document's score and stores it in the document; on a length mismatch it throws before touching the document |
| EmbeddingServiceImpl.EmbeddingService.GetRelevantDocuments | src/main/java/kopo/poly/service/impl/EmbeddingService.java:84-103 | returns the ranked snapshot; fails exactly when a length mismatch stops the stream; documents before the stop hold their score, the rest are untouched |
| EmbeddingServiceImpl.EmbeddingService.FindSimilarDocuments | src/main/java/kopo/poly/service/impl/EmbeddingService.java:43-76 | embeds the question, ranks and projects to DTOs; when embedding fails no score is written; otherwise every document up to the first length mismatch (all when none) holds its score against the question and the rest keep their old score |
| EmbeddingServiceImpl.EmbeddingService.SaveDocument | src/main/java/kopo/poly/service/impl/EmbeddingService.java:160-177 | appends exactly one fresh document with no id, the content and the returned embedding; when the reply lacks an embedding it throws and stores nothing |
| EmbeddingServiceImpl.RelevantDocumentsProperties | src/main/java/kopo/poly/service/impl/EmbeddingService.java:84-103 | a query fails exactly when a stored embedding has the wrong length, with the length exception; otherwise at most 10 stored documents, each passing the threshold, in non-increasing score order, a sub-multiset of the repository, none for an empty one |
| EmbeddingServiceImpl.RankedDocuments | src/main/java/kopo/poly/service/impl/EmbeddingService.java:97-99 | the returned documents pass the threshold and come in non-increasing score order |
| EmbeddingServiceImpl.RankedScores | src/main/java/kopo/poly/service/impl/EmbeddingService.java:86-101 | every ranked entry carries its own document's score against the query |
| EmbeddingServiceImpl.RankedItemScores | src/main/java/kopo/poly/service/impl/EmbeddingService.java:86-102 | the i-th returned document is the i-th ranked entry's and scores that entry's score |
| EmbeddingServiceImpl.ScoredEntry | src/main/java/kopo/poly/service/impl/EmbeddingService.java:85-95 | every stored document appears among the scored entries with its own score, when no length mismatches |
| EmbeddingServiceImpl.ScoredItems | src/main/java/kopo/poly/service/impl/EmbeddingService.java:85-95 | the scored entries list exactly the stored documents |
| EmbeddingServiceImpl.RelevantDocumentsKeepsHighest | src/main/java/kopo/poly/service/impl/EmbeddingService.java:97-101 | a stored document that passes the threshold but is not returned implies 10 documents were returned, each scoring at least as high |
| EmbeddingServiceImpl.ZeroNormNotReturned | src/main/java/kopo/poly/service/impl/EmbeddingService.java:97 | with a zero question vector nothing is returned, and no document with a zero embedding is ever returned |
| EmbeddingServiceImpl.SimilarDocumentsProperties | src/main/java/kopo/poly/service/impl/EmbeddingService.java:43-64 | the missing-embedding exception when the reply has none; else the length exception exactly on a mismatch; else the DTOs are the projection, index by index, of the ranked documents, which pass the threshold in non-increasing score order; at most 10 DTOs, each the id and content of a stored document that passes the threshold |
| EmbeddingServiceImpl.ExampleQuery | src/main/java/kopo/poly/service/impl/EmbeddingService.java:84-103 | stored A [1, 0], B [0.9, 0.1], C [0, 1] and question [1, 0]: A scores 1, B between 0.99 and 0.995, C 0, and the answer is [A, B] |
| EmbeddingServiceImpl.ExampleScores | src/main/java/kopo/poly/service/impl/EmbeddingService.java:112-130 | the scores of [0.9, 0.1] and [0, 1] against [1, 0] |

Helper facts with no row of their own: `Similarity.NormalizeSymmetric` (swapping the norms in the final division), `Similarity.QuotientBounded` (d² <= e² with e > 0 puts d / e in [-1, 1]), `Ranking.AtLeastTransitive` and `Ranking.AtLeastTotal` (the comparator's order is a total preorder), `EmbeddingServiceImpl.StoredDtos` (the success-case clauses of SimilarDocumentsProperties, stated on the ranked documents), and the small unfolding and arithmetic lemmas beside them.

## Left out

- HTTP transport and response shaping are not modelled: `VectorController` and `CommonResponse`. The batch endpoint is a loop of `saveDocument` calls.
- The Feign client and its configuration are not modelled: `IEmbeddingClient` and `OpenFeignConfig`. The remote call is the pure function `embeddingClient`, so timeouts and transport errors of the call itself do not appear, and the model fixes the provider's reply to each request for the service's lifetime.
- MongoDB internals are not modelled:
  - `findAll` is a read of the `documentRepository` field and `save` an append to it;
  - the database assigns ids on save, so a saved document's id stays `None` in the model;
  - `similarityScore` is transient in the database; the model keeps the stored objects themselves, so whether a score survives a reload is not captured.
- IEEE-754 arithmetic is not modelled:
  - scores are exact reals and `Math.sqrt` is a parameter;
  - rounding, overflow to infinity, and the difference between -0.0 and 0.0 in `Double.compare` are not captured;
  - NaN arises only as 0/0.
- Java nulls are not modelled. A null stored embedding would raise a `NullPointerException`, and a reply whose "embedding" value is not a list of numbers would fail a cast later. The model's types rule both out.
- Logging, the application bootstrap and concurrent access to the repository are not modelled.
- `embedQuestion` (lines 72-76) is not a separate member. It only copies the list into an array, so `FindSimilarDocuments` does this copy inline.
- EmbeddingServiceImpl.EmbeddingService.FindSimilarDocuments: requires the question field of the DTO to be set. Its only caller always sets it, and the behaviour with a null question, which would send a null text to the API, is not modelled.
