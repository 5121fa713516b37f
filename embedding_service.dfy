/**
 * EmbeddingService: embeds text through a remote client, stores documents, and
 * answers similarity queries against every stored document.
 *
 * The document repository is the field `documentRepository`: `findAll` reads a
 * snapshot of it and `save` appends to it. The remote embedding client is the
 * function `embeddingClient` from a request body to a reply map. `Math.sqrt`
 * is the parameter `sqrt` of the operations that score.
 */
module EmbeddingServiceImpl {
  import opened Wrappers
  import opened Exceptions
  import opened Similarity
  import opened Ranking
  import opened Domain

  /** The form parameters sent to the embedding API. */
  type EmbeddingRequest = map<string, string>

  /** The reply of the embedding API, as a map from keys to numeric lists. */
  type EmbeddingReply = map<string, seq<real>>

  /** generateEmbedding: send {"text": text} and take the reply's "embedding" entry. */
  function GenerateEmbedding(embeddingClient: EmbeddingRequest -> EmbeddingReply, text: string)
    : (r: Result<seq<real>, JavaException>)
    ensures var reply := embeddingClient(map["text" := text]);
      && (r.Failure? <==> "embedding" !in reply)
      && (r.Failure? ==> r.error == IllegalStateException(MISSING_EMBEDDING_MESSAGE))
      && (r.Success? ==> r.value == reply["embedding"])
  {
    var response := embeddingClient(map["text" := text]);
    if "embedding" !in response then Failure(IllegalStateException(MISSING_EMBEDDING_MESSAGE))
    else Success(response["embedding"])
  }

  /**
   * How many documents the query scores before it stops: all of them, or the
   * index of the first document whose embedding length differs from the query's.
   */
  function ScoredCount(q: seq<real>, docs: seq<Documents>): (k: nat)
    ensures k <= |docs|
    ensures forall j :: 0 <= j < k ==> |docs[j].embedding| == |q|
    ensures k < |docs| ==> |docs[k].embedding| != |q|
  {
    if docs == [] || |docs[0].embedding| != |q| then 0 else 1 + ScoredCount(q, docs[1..])
  }

  /**
   * The stream's `map` step: every document paired with its score against the
   * query, in repository order, or the exception of the first document whose
   * length does not match.
   */
  function ScoreAll(q: seq<real>, docs: seq<Documents>, sqrt: real -> real)
    : (r: Result<seq<Scored<Documents>>, JavaException>)
    ensures r.Failure? <==> exists i :: 0 <= i < |docs| && |docs[i].embedding| != |q|
    ensures r.Failure? ==> r.error == IllegalArgumentException(VECTOR_LENGTH_MESSAGE)
    ensures r.Success? ==> |r.value| == |docs| && forall i :: 0 <= i < |docs| ==>
      r.value[i].item == docs[i] && CosineSimilarity(q, docs[i].embedding, sqrt) == Success(r.value[i].score)
  {
    if docs == [] then Success([])
    else
      match ScoreAll(q, docs[..|docs| - 1], sqrt)
      case Failure(e) => Failure(e)
      case Success(init) =>
        var last := docs[|docs| - 1];
        match CosineSimilarity(q, last.embedding, sqrt)
        case Failure(e) => Failure(e)
        case Success(s) => Success(init + [Scored(last, s)])
  }

  /** getRelevantDocuments as a value: score every document, then filter, sort and limit. */
  function RelevantDocuments(q: seq<real>, docs: seq<Documents>, sqrt: real -> real)
    : Result<seq<Documents>, JavaException>
  {
    match ScoreAll(q, docs, sqrt)
    case Failure(e) => Failure(e)
    case Success(scored) => Success(Items(Rank(scored)))
  }

  /** findSimilarDocuments as a value: embed the question, rank the corpus, project to DTOs. */
  function SimilarDocuments(
    embeddingClient: EmbeddingRequest -> EmbeddingReply, docs: seq<Documents>, question: string, sqrt: real -> real)
    : Result<seq<DocumentsDto>, JavaException>
  {
    match GenerateEmbedding(embeddingClient, question)
    case Failure(e) => Failure(e)
    case Success(q) =>
      match RelevantDocuments(q, docs, sqrt)
      case Failure(e) => Failure(e)
      case Success(ranked) => Success(ToDtos(ranked))
  }

  /** The score of a document whose embedding has the query's length. */
  function ScoreOf(q: seq<real>, d: Documents, sqrt: real -> real): Score
    requires |d.embedding| == |q|
  {
    CosineSimilarity(q, d.embedding, sqrt).value
  }

  /** The first k documents carry their score against the query. */
  ghost predicate ScoredUpTo(q: seq<real>, docs: seq<Documents>, k: nat, sqrt: real -> real)
    requires k <= |docs|
    reads set d | d in docs
  {
    forall j :: 0 <= j < k ==> CosineSimilarity(q, docs[j].embedding, sqrt) == Success(docs[j].similarityScore)
  }

  class EmbeddingService {
    const embeddingClient: EmbeddingRequest -> EmbeddingReply
    var documentRepository: seq<Documents>

    constructor (embeddingClient: EmbeddingRequest -> EmbeddingReply, documentRepository: seq<Documents>)
      ensures this.embeddingClient == embeddingClient && this.documentRepository == documentRepository
    {
      this.embeddingClient := embeddingClient;
      this.documentRepository := documentRepository;
    }

    /**
     * getRelevantDocuments. Each document of the snapshot is scored in turn and
     * its similarityScore set; a length mismatch aborts the whole query with
     * the exception, leaving the documents before it scored and the others
     * untouched. Otherwise the result is the ranked snapshot.
     */
    method GetRelevantDocuments(questionEmbedding: array<real>, sqrt: real -> real)
      returns (r: Result<seq<Documents>, JavaException>)
      modifies set d | d in documentRepository
      ensures r == RelevantDocuments(questionEmbedding[..], documentRepository, sqrt)
      ensures var k := ScoredCount(questionEmbedding[..], documentRepository);
        && (r.Failure? <==> k < |documentRepository|)
        && ScoredUpTo(questionEmbedding[..], documentRepository, k, sqrt)
        && forall d :: d in documentRepository && d !in documentRepository[..k] ==>
             d.similarityScore == old(d.similarityScore)
    {
      var q := questionEmbedding[..];
      var documents := documentRepository;
      var scored: seq<Scored<Documents>> := [];
      var i := 0;
      while i < |documents|
        invariant 0 <= i <= |documents|
        invariant forall j :: 0 <= j < i ==> |documents[j].embedding| == |q|
        invariant ScoreAll(q, documents[..i], sqrt) == Success(scored)
        invariant ScoredUpTo(q, documents, i, sqrt)
        invariant forall d :: d in documents && d !in documents[..i] ==> d.similarityScore == old(d.similarityScore)
      {
        var document := documents[i];
        ghost var before := seq(|documents|, j requires 0 <= j < |documents| reads documents => documents[j].similarityScore);
        var similarity := ScoreDocument(questionEmbedding, document, sqrt);
        if similarity.Failure? {
          assert ScoredCount(q, documents) == i by {
            ScoredCountFirst(q, documents, i);
          }
          assert ScoreAll(q, documents, sqrt).Failure?;
          return Failure(similarity.error);
        }
        ScoreAllStep(q, documents, i, scored, similarity.value, sqrt);
        ScoredUpToStep(q, documents, i, before, sqrt);
        assert documents[..i + 1] == documents[..i] + [document];
        scored := scored + [Scored(document, document.similarityScore)];
        i := i + 1;
      }
      assert documents[..i] == documents;
      assert ScoredCount(q, documents) == |documents| by {
        ScoredCountFirst(q, documents, |documents|);
      }
      r := Success(Items(Rank(scored)));
    }

    /**
     * The `map` lambda of getRelevantDocuments: score one document against the
     * query and store the score in it; a length mismatch throws before the
     * document is touched.
     */
    method ScoreDocument(questionEmbedding: array<real>, document: Documents, sqrt: real -> real)
      returns (r: Result<Score, JavaException>)
      modifies document
      ensures r == CosineSimilarity(questionEmbedding[..], document.embedding, sqrt)
      ensures document.similarityScore == if r.Success? then r.value else old(document.similarityScore)
    {
      var embedding := new real[|document.embedding|](j requires 0 <= j < |document.embedding| => document.embedding[j]);
      assert embedding[..] == document.embedding;
      r := CalculateCosineSimilarity(questionEmbedding, embedding, sqrt);
      if r.Success? {
        document.similarityScore := r.value;
      }
    }

    /**
     * findSimilarDocuments: embed the question, rank the stored documents and
     * map each ranked document to a DTO, keeping the order. Ranking writes the
     * scores as getRelevantDocuments does: every document up to the first
     * length mismatch (all of them when there is none) holds its score against
     * the question, and the others keep theirs.
     */
    method FindSimilarDocuments(pDTO: DocumentsDto, sqrt: real -> real)
      returns (r: Result<seq<DocumentsDto>, JavaException>)
      requires pDTO.question.Some?
      modifies set d | d in documentRepository
      ensures r == SimilarDocuments(embeddingClient, documentRepository, pDTO.question.value, sqrt)
      ensures GenerateEmbedding(embeddingClient, pDTO.question.value).Failure? ==>
        forall d :: d in documentRepository ==> d.similarityScore == old(d.similarityScore)
      ensures GenerateEmbedding(embeddingClient, pDTO.question.value).Success? ==>
        var q := GenerateEmbedding(embeddingClient, pDTO.question.value).value;
        var k := ScoredCount(q, documentRepository);
        && ScoredUpTo(q, documentRepository, k, sqrt)
        && forall d :: d in documentRepository && d !in documentRepository[..k] ==>
             d.similarityScore == old(d.similarityScore)
    {
      var embedded := GenerateEmbedding(embeddingClient, pDTO.question.value);
      if embedded.Failure? {
        return Failure(embedded.error);
      }
      var questionEmbedding := new real[|embedded.value|](j requires 0 <= j < |embedded.value| => embedded.value[j]);
      assert questionEmbedding[..] == embedded.value;
      var relevantDocuments := GetRelevantDocuments(questionEmbedding, sqrt);
      if relevantDocuments.Failure? {
        return Failure(relevantDocuments.error);
      }
      r := Success(ToDtos(relevantDocuments.value));
    }

    /**
     * saveDocument: embed the content and append a new document carrying it;
     * when the reply has no embedding the exception propagates and nothing is
     * stored.
     */
    method SaveDocument(content: string) returns (o: Outcome<JavaException>)
      modifies this
      ensures var embedded := GenerateEmbedding(embeddingClient, content);
        && (o.Fail? <==> embedded.Failure?)
        && (o.Fail? ==> o.error == embedded.error && documentRepository == old(documentRepository))
        && (o.Pass? ==>
              && |documentRepository| == |old(documentRepository)| + 1
              && documentRepository[..|old(documentRepository)|] == old(documentRepository)
              && var saved := documentRepository[|old(documentRepository)|];
                 fresh(saved) && saved.id.None? && saved.content == content && saved.embedding == embedded.value)
    {
      var embedded := GenerateEmbedding(embeddingClient, content);
      if embedded.Failure? {
        return Fail(embedded.error);
      }
      var documentEntry := new Documents(None, content, embedded.value);
      documentRepository := documentRepository + [documentEntry];
      o := Pass;
    }
  }

  /**
   * Setting the score of document i, and of no other document, extends the
   * scored prefix by one: a repeated occurrence of the same object earlier in
   * the snapshot gets the same score again. `before` holds the scores as they
   * were before document i was scored.
   */
  lemma ScoredUpToStep(q: seq<real>, docs: seq<Documents>, i: nat, before: seq<Score>, sqrt: real -> real)
    requires i < |docs| == |before|
    requires forall j :: 0 <= j < i ==> CosineSimilarity(q, docs[j].embedding, sqrt) == Success(before[j])
    requires CosineSimilarity(q, docs[i].embedding, sqrt) == Success(docs[i].similarityScore)
    requires forall j :: 0 <= j < |docs| && docs[j] != docs[i] ==> docs[j].similarityScore == before[j]
    ensures ScoredUpTo(q, docs, i + 1, sqrt)
  {
  }

  /** Scoring one more document extends the scored prefix by that document and its score. */
  lemma ScoreAllStep(q: seq<real>, docs: seq<Documents>, i: nat, scored: seq<Scored<Documents>>, s: Score, sqrt: real -> real)
    requires i < |docs| && ScoreAll(q, docs[..i], sqrt) == Success(scored)
    requires CosineSimilarity(q, docs[i].embedding, sqrt) == Success(s)
    ensures ScoreAll(q, docs[..i + 1], sqrt) == Success(scored + [Scored(docs[i], s)])
  {
    assert docs[..i + 1][..i] == docs[..i];
  }

  /** The scored count is the first index whose embedding length differs, or the length. */
  lemma ScoredCountFirst(q: seq<real>, docs: seq<Documents>, k: nat)
    requires k <= |docs|
    requires forall j :: 0 <= j < k ==> |docs[j].embedding| == |q|
    requires k < |docs| ==> |docs[k].embedding| != |q|
    ensures ScoredCount(q, docs) == k
  {
    // ScoredCount's own contract already pins its value down.
  }

  /**
   * What a query returns: an exception exactly when some stored embedding has
   * a different length from the query's; otherwise at most TOP_K stored
   * documents, each scoring at least the threshold, in non-increasing score
   * order, none more often than it is stored, and none at all for an empty
   * repository.
   */
  lemma RelevantDocumentsProperties(q: seq<real>, docs: seq<Documents>, sqrt: real -> real)
    ensures var r := RelevantDocuments(q, docs, sqrt);
      && (r.Failure? <==> exists i :: 0 <= i < |docs| && |docs[i].embedding| != |q|)
      && (r.Failure? ==> r.error == IllegalArgumentException(VECTOR_LENGTH_MESSAGE))
      && (r.Success? ==>
            && |r.value| <= TOP_K
            && (forall i :: 0 <= i < |r.value| ==>
                  |r.value[i].embedding| == |q| && Passes(ScoreOf(q, r.value[i], sqrt)))
            && (forall i, j :: 0 <= i < j < |r.value| ==>
                  AtLeast(ScoreOf(q, r.value[i], sqrt), ScoreOf(q, r.value[j], sqrt)))
            && multiset(r.value) <= multiset(docs)
            && (docs == [] ==> r.value == []))
  {
    var scoredAll := ScoreAll(q, docs, sqrt);
    if scoredAll.Success? {
      var r := Items(Rank(scoredAll.value));
      assert RelevantDocuments(q, docs, sqrt) == Success(r);
      RankLength(scoredAll.value);
      RankedDocuments(q, docs, sqrt);
      assert multiset(r) <= multiset(docs) by {
        RankItems(scoredAll.value);
        ScoredItems(q, docs, sqrt);
      }
    }
  }

  /** The ranked documents pass the threshold and come in descending score order. */
  lemma RankedDocuments(q: seq<real>, docs: seq<Documents>, sqrt: real -> real)
    requires RelevantDocuments(q, docs, sqrt).Success?
    ensures var r := RelevantDocuments(q, docs, sqrt).value;
      && (forall i :: 0 <= i < |r| ==> |r[i].embedding| == |q| && Passes(ScoreOf(q, r[i], sqrt)))
      && (forall i, j :: 0 <= i < j < |r| ==> AtLeast(ScoreOf(q, r[i], sqrt), ScoreOf(q, r[j], sqrt)))
  {
    var scored := ScoreAll(q, docs, sqrt).value;
    var ranked := Rank(scored);
    var r := Items(ranked);
    assert RelevantDocuments(q, docs, sqrt).value == r;
    RankedScores(q, docs, sqrt);
    ItemsIndex(ranked);
    forall i | 0 <= i < |r|
      ensures |r[i].embedding| == |q| && Passes(ScoreOf(q, r[i], sqrt))
    {
      RankPasses(scored);
      assert r[i] == ranked[i].item;
    }
    forall i, j | 0 <= i < j < |r|
      ensures AtLeast(ScoreOf(q, r[i], sqrt), ScoreOf(q, r[j], sqrt))
    {
      RankDescending(scored);
      assert r[i] == ranked[i].item && r[j] == ranked[j].item;
    }
  }

  /**
   * What findSimilarDocuments answers: the missing-embedding exception when the
   * reply has no embedding; otherwise the length exception exactly when some
   * stored embedding differs in length from the question's; otherwise at most
   * TOP_K DTOs, each carrying the id and content of a stored document whose
   * score passes the threshold: the projection, in order, of the documents the
   * query ranks, so in non-increasing score order.
   */
  lemma SimilarDocumentsProperties(
    embeddingClient: EmbeddingRequest -> EmbeddingReply, docs: seq<Documents>, question: string, sqrt: real -> real)
    ensures var r := SimilarDocuments(embeddingClient, docs, question, sqrt);
      var reply := embeddingClient(map["text" := question]);
      && ("embedding" !in reply ==> r == Failure(IllegalStateException(MISSING_EMBEDDING_MESSAGE)))
      && ("embedding" in reply ==> var q := reply["embedding"];
            && (r.Failure? <==> exists i :: 0 <= i < |docs| && |docs[i].embedding| != |q|)
            && (r.Failure? ==> r.error == IllegalArgumentException(VECTOR_LENGTH_MESSAGE))
            && (r.Success? ==>
                  && RelevantDocuments(q, docs, sqrt).Success?
                  && var ranked := RelevantDocuments(q, docs, sqrt).value;
                  && r.value == ToDtos(ranked)
                  && (forall i :: 0 <= i < |ranked| ==>
                        |ranked[i].embedding| == |q| && Passes(ScoreOf(q, ranked[i], sqrt)))
                  && (forall i, j :: 0 <= i < j < |ranked| ==>
                        AtLeast(ScoreOf(q, ranked[i], sqrt), ScoreOf(q, ranked[j], sqrt)))
                  && |r.value| <= TOP_K
                  && forall i :: 0 <= i < |r.value| ==>
                       exists d :: d in docs && |d.embedding| == |q| && Passes(ScoreOf(q, d, sqrt)) &&
                         r.value[i] == DocumentsDto(d.id, None, Some(d.content), None, None)))
  {
    var reply := embeddingClient(map["text" := question]);
    if "embedding" in reply {
      var q := reply["embedding"];
      assert GenerateEmbedding(embeddingClient, question) == Success(q);
      var ranked := RelevantDocuments(q, docs, sqrt);
      if ranked.Success? {
        assert SimilarDocuments(embeddingClient, docs, question, sqrt) == Success(ToDtos(ranked.value));
        assert ScoreAll(q, docs, sqrt).Success?;
        StoredDtos(q, docs, sqrt);
      } else {
        assert SimilarDocuments(embeddingClient, docs, question, sqrt) == Failure(ranked.error);
        assert ScoreAll(q, docs, sqrt).Failure?;
      }
    }
  }

  /**
   * The DTOs of a successful query: the projection of the ranked documents,
   * which pass the threshold in non-increasing score order, at most TOP_K of
   * them, each projecting a stored document.
   */
  lemma StoredDtos(q: seq<real>, docs: seq<Documents>, sqrt: real -> real)
    requires RelevantDocuments(q, docs, sqrt).Success?
    ensures var ranked := RelevantDocuments(q, docs, sqrt).value;
      var r := ToDtos(ranked);
      && (forall i :: 0 <= i < |ranked| ==>
            |ranked[i].embedding| == |q| && Passes(ScoreOf(q, ranked[i], sqrt)))
      && (forall i, j :: 0 <= i < j < |ranked| ==>
            AtLeast(ScoreOf(q, ranked[i], sqrt), ScoreOf(q, ranked[j], sqrt)))
      && |r| <= TOP_K
      && forall i :: 0 <= i < |r| ==>
           exists d :: d in docs && |d.embedding| == |q| && Passes(ScoreOf(q, d, sqrt)) &&
             r[i] == DocumentsDto(d.id, None, Some(d.content), None, None)
  {
    var ranked := RelevantDocuments(q, docs, sqrt).value;
    var r := ToDtos(ranked);
    RelevantDocumentsProperties(q, docs, sqrt);
    forall i | 0 <= i < |r|
      ensures exists d :: d in docs && |d.embedding| == |q| && Passes(ScoreOf(q, d, sqrt)) &&
                           r[i] == DocumentsDto(d.id, None, Some(d.content), None, None)
    {
      var d := ranked[i];
      assert d in multiset(ranked);
      assert d in docs;
    }
  }

  /** The scored entries list exactly the stored documents. */
  lemma ScoredItems(q: seq<real>, docs: seq<Documents>, sqrt: real -> real)
    requires ScoreAll(q, docs, sqrt).Success?
    ensures Items(ScoreAll(q, docs, sqrt).value) == docs
  {
    ItemsIndex(ScoreAll(q, docs, sqrt).value);
  }

  /** Every ranked entry carries its document's score against the query. */
  lemma RankedScores(q: seq<real>, docs: seq<Documents>, sqrt: real -> real)
    requires ScoreAll(q, docs, sqrt).Success?
    ensures var ranked := Rank(ScoreAll(q, docs, sqrt).value);
      forall i :: 0 <= i < |ranked| ==>
        |ranked[i].item.embedding| == |q| && ranked[i].score == ScoreOf(q, ranked[i].item, sqrt)
  {
    var scored := ScoreAll(q, docs, sqrt).value;
    var p := (e: Scored<Documents>) => CosineSimilarity(q, e.item.embedding, sqrt) == Success(e.score);
    RankPreserves(scored, p);
  }

  /**
   * Top-K at the level of documents: a stored document whose score passes the
   * threshold but is not returned is left out only because TOP_K documents
   * were returned, each scoring at least as high as it.
   */
  lemma RelevantDocumentsKeepsHighest(q: seq<real>, docs: seq<Documents>, sqrt: real -> real, d: Documents)
    requires RelevantDocuments(q, docs, sqrt).Success?
    requires d in docs && d !in RelevantDocuments(q, docs, sqrt).value
    ensures |d.embedding| == |q|
    ensures Passes(ScoreOf(q, d, sqrt)) ==>
      var r := RelevantDocuments(q, docs, sqrt).value;
      |r| == TOP_K && forall i :: 0 <= i < |r| ==>
        |r[i].embedding| == |q| && AtLeast(ScoreOf(q, r[i], sqrt), ScoreOf(q, d, sqrt))
  {
    var scored := ScoreAll(q, docs, sqrt).value;
    var ranked := Rank(scored);
    assert RelevantDocuments(q, docs, sqrt).value == Items(ranked);
    var e := Scored(d, ScoreOf(q, d, sqrt));
    ScoredEntry(q, docs, sqrt, d);
    if Passes(e.score) {
      RankedItemScores(q, docs, sqrt);
      RankKeepsHighest(scored, e);
    }
  }

  /** A stored document appears among the scored entries with its own score. */
  lemma ScoredEntry(q: seq<real>, docs: seq<Documents>, sqrt: real -> real, d: Documents)
    requires ScoreAll(q, docs, sqrt).Success? && d in docs
    ensures |d.embedding| == |q| && Scored(d, ScoreOf(q, d, sqrt)) in ScoreAll(q, docs, sqrt).value
  {
    var k :| 0 <= k < |docs| && docs[k] == d;
    assert ScoreAll(q, docs, sqrt).value[k] == Scored(d, ScoreOf(q, d, sqrt));
  }

  /**
   * A zero-norm vector scores NaN, which never passes the threshold: neither a
   * zero question embedding nor a stored zero embedding yields a document.
   */
  lemma ZeroNormNotReturned(q: seq<real>, docs: seq<Documents>, sqrt: real -> real, d: Documents)
    requires IsSqrt(sqrt) && RelevantDocuments(q, docs, sqrt).Success?
    requires d in RelevantDocuments(q, docs, sqrt).value
    ensures Dot(q, q) != 0.0 && Dot(d.embedding, d.embedding) != 0.0
  {
    RelevantDocumentsProperties(q, docs, sqrt);
    var r := RelevantDocuments(q, docs, sqrt).value;
    var i :| 0 <= i < |r| && r[i] == d;
    assert Passes(ScoreOf(q, d, sqrt));
    ZeroNormIsNaN(q, d.embedding, sqrt);
  }

  /** The ranked documents in order, each with its entry's score. */
  lemma RankedItemScores(q: seq<real>, docs: seq<Documents>, sqrt: real -> real)
    requires ScoreAll(q, docs, sqrt).Success?
    ensures var ranked := Rank(ScoreAll(q, docs, sqrt).value);
      var r := Items(ranked);
      forall i :: 0 <= i < |ranked| ==>
        r[i] == ranked[i].item && |r[i].embedding| == |q| && ScoreOf(q, r[i], sqrt) == ranked[i].score
  {
    ItemsIndex(Rank(ScoreAll(q, docs, sqrt).value));
    RankedScores(q, docs, sqrt);
  }

  /**
   * The worked query: stored documents A with embedding [1, 0], B with
   * [0.9, 0.1] and C with [0, 1], asked with the question embedding [1, 0].
   * A scores 1, B about 0.994 and C 0, which is below the threshold, so the
   * answer is A followed by B.
   */
  lemma ExampleQuery(a: Documents, b: Documents, c: Documents, sqrt: real -> real)
    requires IsSqrt(sqrt)
    requires a.embedding == [1.0, 0.0] && b.embedding == [0.9, 0.1] && c.embedding == [0.0, 1.0]
    ensures ScoreOf([1.0, 0.0], a, sqrt) == Value(1.0)
    ensures var s := ScoreOf([1.0, 0.0], b, sqrt); s.Value? && 0.99 <= s.value <= 0.995
    ensures ScoreOf([1.0, 0.0], c, sqrt) == Value(0.0)
    ensures RelevantDocuments([1.0, 0.0], [a, b, c], sqrt) == Success([a, b])
  {
    var q := [1.0, 0.0];
    ExampleScores(q, b.embedding, c.embedding, sqrt);
    CosineSelfIsOne(q, sqrt);
    var sa, sb, sc := Scored(a, Value(1.0)), Scored(b, ScoreOf(q, b, sqrt)), Scored(c, Value(0.0));
    var scored := ScoreAll(q, [a, b, c], sqrt).value;
    assert scored == [sa, sb, sc] by {
      assert scored[0] == sa && scored[1] == sb && scored[2] == sc;
    }
    RankOfThree(sa, sb, sc);
    ItemsOfPair(sa, sb);
  }

  /** The scores of [0.9, 0.1] and [0, 1] against [1, 0]. */
  lemma ExampleScores(q: seq<real>, eb: seq<real>, ec: seq<real>, sqrt: real -> real)
    requires IsSqrt(sqrt)
    requires q == [1.0, 0.0] && eb == [0.9, 0.1] && ec == [0.0, 1.0]
    ensures Dot(q, q) == 1.0
    ensures var s := CosineSimilarity(q, eb, sqrt); s.Success? && s.value.Value? && 0.99 <= s.value.value <= 0.995
    ensures CosineSimilarity(q, ec, sqrt) == Success(Value(0.0))
  {
    DotOfPair(1.0, 0.0, 1.0, 0.0);
    DotOfPair(1.0, 0.0, 0.9, 0.1);
    DotOfPair(0.9, 0.1, 0.9, 0.1);
    DotOfPair(1.0, 0.0, 0.0, 1.0);
    DotOfPair(0.0, 1.0, 0.0, 1.0);
    SqrtOne(sqrt);
    var t := sqrt(0.82);
    assert 0.0 <= t && t * t == 0.82;
    ScaledQuotientBounds(t);
  }

  /** The dot product of two vectors of length two. */
  lemma DotOfPair(x0: real, x1: real, y0: real, y1: real)
    ensures Dot([x0, x1], [y0, y1]) == x0 * y0 + x1 * y1
  {
    assert Dot([x0], [y0]) == x0 * y0 by {
      assert [x0][..0] == [] && [y0][..0] == [];
    }
    assert [x0, x1][..1] == [x0] && [y0, y1][..1] == [y0];
  }

  /** For t = sqrt(0.82): 0.9 / t lies between 0.99 and 0.995. */
  lemma ScaledQuotientBounds(t: real)
    requires 0.0 <= t && t * t == 0.82
    ensures 0.0 < t && 0.99 <= 0.9 / (1.0 * t) <= 0.995
  {
    if 0.99 * t > 0.9 {
      ProductPositive(0.99 * t - 0.9, 0.99 * t + 0.9);
    }
    if 0.995 * t < 0.9 {
      ProductPositive(0.9 - 0.995 * t, 0.9 + 0.995 * t);
    }
    assert 0.0 < t;
    var v := 0.9 / (1.0 * t);
    assert v * t == 0.9;
    if v < 0.99 {
      ProductPositive(0.99 - v, t);
    }
    if v > 0.995 {
      ProductPositive(v - 0.995, t);
    }
  }
}
