/**
 * Chunking and indexing of policy documents.  The LangChain text splitter
 * and the embedding model are parameters: the splitter maps documents to
 * chunks (or raises), the embedder either succeeds on a list of chunks or
 * raises.  What is modelled is the code around them: the fallback that
 * copies the first document's `source` into chunks without one, the
 * exception handling, and the empty-chunks guard before embedding.
 */
module DocumentProcessor {
  import opened Wrappers
  import opened Entities

  /** The metadata key naming a chunk's origin. */
  const SourceKey: string := "source"

  /** The parameters `split_documents` gives the splitter. */
  datatype SplitterConfig = SplitterConfig(chunkSize: nat, chunkOverlap: nat, separators: seq<string>)

  /** The defaults of `split_documents`: 1000-character chunks, 200 characters of overlap. */
  const DefaultSplitter: SplitterConfig := SplitterConfig(1000, 200, ["\n\n", "\n", ".", " ", ""])

  /** `'source' in doc.metadata`. */
  predicate HasSource(doc: Document) {
    SourceKey in doc.metadata
  }

  /** `chunk` with `first`'s source copied in, as one step of the fallback loop does. */
  function CopySource(chunk: Document, first: Document): (r: Document)
    requires HasSource(first)
    ensures r.content == chunk.content && HasSource(r)
    ensures r.metadata[SourceKey] == first.metadata[SourceKey]
    ensures forall key :: key in chunk.metadata && key != SourceKey ==> key in r.metadata && r.metadata[key] == chunk.metadata[key]
    ensures r.metadata.Keys == chunk.metadata.Keys + {SourceKey}
  {
    chunk.(metadata := chunk.metadata[SourceKey := first.metadata[SourceKey]])
  }

  /**
   * The loop after splitting: a chunk without `source` takes the first
   * document's, when that one has it.  The condition reads
   * `documents[0]` only for a chunk lacking `source`, so with no documents
   * and such a chunk the loop raises `IndexError` (`None` here).
   */
  function FillMissingSources(chunks: seq<Document>, documents: seq<Document>): (r: Option<seq<Document>>)
    ensures r.None? <==> |documents| == 0 && exists i :: 0 <= i < |chunks| && !HasSource(chunks[i])
    ensures r.Some? ==> |r.value| == |chunks|
    ensures r.Some? ==> forall i :: 0 <= i < |chunks| ==> r.value[i].content == chunks[i].content
    ensures r.Some? ==> forall i :: 0 <= i < |chunks| && HasSource(chunks[i]) ==> r.value[i] == chunks[i]
    ensures r.Some? ==> forall i :: 0 <= i < |chunks| && !HasSource(chunks[i]) ==>
      if HasSource(documents[0]) then r.value[i] == CopySource(chunks[i], documents[0]) else r.value[i] == chunks[i]
    decreases |chunks|
  {
    if |chunks| == 0 then
      Some([])
    else
      var rest := FillMissingSources(chunks[1..], documents);
      assert forall i :: 1 <= i < |chunks| ==> chunks[i] == chunks[1..][i - 1];
      if HasSource(chunks[0]) then
        if rest.Some? then Some([chunks[0]] + rest.value) else None
      else if |documents| == 0 then
        None
      else
        var head := if HasSource(documents[0]) then CopySource(chunks[0], documents[0]) else chunks[0];
        if rest.Some? then Some([head] + rest.value) else None
  }

  /** When the first document has a source, every chunk has one after the fallback. */
  lemma FillGivesEverySource(chunks: seq<Document>, documents: seq<Document>)
    requires |documents| > 0 && HasSource(documents[0])
    ensures FillMissingSources(chunks, documents).Some?
    ensures forall i :: 0 <= i < |chunks| ==> HasSource(FillMissingSources(chunks, documents).value[i])
  {
  }

  /**
   * `split_documents`: split, then fill in missing sources; an exception
   * from the splitter or from the loop gives the empty list.
   */
  function SplitDocuments(documents: seq<Document>, config: SplitterConfig,
                          splitter: (seq<Document>, SplitterConfig) -> Option<seq<Document>>): (r: seq<Document>)
    ensures splitter(documents, config).None? ==> r == []
    ensures splitter(documents, config).Some? ==>
      var chunks := splitter(documents, config).value;
      && (FillMissingSources(chunks, documents).None? ==> r == [])
      && (FillMissingSources(chunks, documents).Some? ==> r == FillMissingSources(chunks, documents).value)
      && (FillMissingSources(chunks, documents).Some? ==> |r| == |chunks|)
      && (forall i :: 0 <= i < |r| ==> r[i].content == chunks[i].content)
  {
    match splitter(documents, config)
    case None => []
    case Some(chunks) =>
      match FillMissingSources(chunks, documents)
      case None => []
      case Some(filled) => filled
  }

  /**
   * `create_vector_store`: split with the default settings; no chunks means
   * no store and no embedding call; otherwise the store over the chunks,
   * unless embedding raises.
   */
  function CreateVectorStore(documents: seq<Document>,
                             splitter: (seq<Document>, SplitterConfig) -> Option<seq<Document>>,
                             embeds: seq<Document> -> bool): (r: Option<VectorStore>)
    ensures |SplitDocuments(documents, DefaultSplitter, splitter)| == 0 ==> r.None?
    ensures r.Some? ==> r.value.chunks == SplitDocuments(documents, DefaultSplitter, splitter) && |r.value.chunks| > 0
    ensures r.Some? <==> |SplitDocuments(documents, DefaultSplitter, splitter)| > 0 &&
                         embeds(SplitDocuments(documents, DefaultSplitter, splitter))
  {
    var chunks := SplitDocuments(documents, DefaultSplitter, splitter);
    if |chunks| == 0 then None
    else if embeds(chunks) then Some(VectorStore(chunks))
    else None
  }

  /** With no chunks the embedder is never consulted: any two embedders give the same (absent) store. */
  lemma EmptyChunksSkipEmbedding(documents: seq<Document>,
                                 splitter: (seq<Document>, SplitterConfig) -> Option<seq<Document>>,
                                 embeds1: seq<Document> -> bool, embeds2: seq<Document> -> bool)
    requires |SplitDocuments(documents, DefaultSplitter, splitter)| == 0
    ensures CreateVectorStore(documents, splitter, embeds1) == CreateVectorStore(documents, splitter, embeds2) == None
  {
  }
}
