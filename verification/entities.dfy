/** The records the chatbot passes between its components. */
module Entities {

  /** One chat turn, `{"role": ..., "content": ...}`; the roles used are "user" and "assistant". */
  datatype Message = Message(role: string, content: string)

  /** A LangChain document: page text plus its metadata dictionary (only string values are modelled). */
  datatype Document = Document(content: string, metadata: map<string, string>)

  /**
   * The FAISS index built over a list of chunks.  Embedding vectors are not
   * modelled; the store is identified by the chunks it indexes.
   */
  datatype VectorStore = VectorStore(chunks: seq<Document>)
}
