/** The stored document entity and the DTO the service hands back to its callers. */
module Domain {
  import opened Wrappers
  import opened Similarity

  /**
   * A document of the `documents` collection. Its id, content and embedding are
   * fixed once it is built; `similarityScore` is a transient field that each
   * query overwrites and that is never persisted.
   */
  class Documents {
    const id: Option<string>
    const content: string
    const embedding: seq<real>
    var similarityScore: Score

    /** The builder: a Java double field starts at 0.0. */
    constructor (id: Option<string>, content: string, embedding: seq<real>)
      ensures this.id == id && this.content == content && this.embedding == embedding
      ensures similarityScore == Value(0.0)
    {
      this.id := id;
      this.content := content;
      this.embedding := embedding;
      similarityScore := Value(0.0);
    }
  }

  /** The DocumentsDTO record; every field may be left unset (null). */
  datatype DocumentsDto = DocumentsDto(
    id: Option<string>,
    question: Option<string>,
    content: Option<string>,
    contents: Option<seq<string>>,
    embedding: Option<seq<real>>)

  /**
   * The projection of findSimilarDocuments: each document, in order, becomes a
   * DTO carrying its id and content and nothing else (no embedding, no score).
   */
  function ToDtos(docs: seq<Documents>): (r: seq<DocumentsDto>)
    ensures |r| == |docs|
    ensures forall i :: 0 <= i < |docs| ==>
      r[i].id == docs[i].id && r[i].content == Some(docs[i].content) &&
      r[i].question.None? && r[i].contents.None? && r[i].embedding.None?
  {
    if docs == [] then []
    else ToDtos(docs[..|docs| - 1]) + [DocumentsDto(docs[|docs| - 1].id, None, Some(docs[|docs| - 1].content), None, None)]
  }
}
