/** The records the retrieval pipeline reads, in the shape src/apis.rs uses
    them: search hits, captions and answers returned by a semantic index, the
    configured indexes, completion results and the incoming request. Every
    field the source reads through `Option` stays an `Option` here. */
module Entities {
  import opened Wrappers

  /** An extractive caption of a hit. */
  datatype Caption = Caption(text: Option<string>, highlights: Option<string>)

  /** An extractive answer returned with a search result. */
  datatype Answer = Answer(text: Option<string>)

  /** One document returned by a semantic index, with the fields the pipeline
      reads: the relevance score, its captions, the two application names used
      for enrichment, and the six application-information fields. */
  datatype Hit = Hit(
    score: Option<real>,
    captions: Option<seq<Caption>>,
    appOwner: Option<string>,
    consumerApp: Option<string>,
    fullApplicationName: Option<string>,
    applicationId: Option<string>,
    businessApplicationName: Option<string>,
    applicationLevel: Option<string>,
    service: Option<string>,
    appCategory: Option<string>)

  /** The answer of one semantic search: extractive answers and hits, each
      possibly absent. */
  datatype SearchResult = SearchResult(answers: Option<seq<Answer>>, value: Option<seq<Hit>>)

  /** One search request sent to the semantic index. */
  datatype SearchCall = SearchCall(index: string, semantic: string, selectFields: string, query: string)

  /** A semantic configuration of an index: its name and selected fields. */
  datatype SemanticConfig = SemanticConfig(name: string, selectFields: string)

  /** A configured index and its semantic configurations. */
  datatype SearchIndex = SearchIndex(indexName: string, semantics: Option<seq<SemanticConfig>>)

  datatype Message = Message(content: Option<string>)

  datatype Choice = Choice(message: Option<Message>)

  /** A chat-completion result; `choices` is absent when the model returned
      nothing usable. */
  datatype Completion = Completion(choices: Option<seq<Choice>>)

  /** The search request: the free-text query and three optional filters. */
  datatype SearchRequest = SearchRequest(
    aiSearchQuery: Option<string>,
    appOwner: Option<string>,
    topicName: Option<string>,
    consumerApp: Option<string>)
}
