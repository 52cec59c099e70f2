/** The retrieval manager: a FAISS-backed retriever that returns the four
    most similar chunks, the top-k truncation of `search`, the numbered
    plain-text context and the lazily created process-wide instance. The
    vector index itself is abstract: a function from query to its chunks
    ranked by similarity. */
module Rag {
  import opened Strings
  import opened Documents

  const DEFAULT_DB_PATH := "vectorstore_faiss"
  /** `search_kwargs={"k": 4}` of the retriever. */
  const RETRIEVER_K: nat := 4
  const BLOCK_SEPARATOR := "\n---\n"

  /** A loaded vector index: each query's chunks, most similar first. */
  type VectorIndex = string -> seq<Document>

  /** `vector_store.as_retriever(search_kwargs={"k": k})`. */
  datatype Retriever = Retriever(index: VectorIndex, k: nat)

  /** `retriever.invoke(query)`: the k most similar chunks. */
  function Invoke(r: Retriever, query: string): (docs: seq<Document>)
    ensures |docs| <= r.k
    ensures docs <= r.index(query)
    ensures |docs| == r.k || docs == r.index(query)
  {
    var ranked := r.index(query);
    if |ranked| <= r.k then ranked else ranked[..r.k]
  }

  /** Python's `s[:k]`, negative k counting from the end. */
  function PyPrefix<T>(s: seq<T>, k: int): (r: seq<T>)
    ensures r <= s
    ensures k >= 0 ==> |r| == if k <= |s| then k else |s|
    ensures k < 0 ==> |r| == if -k <= |s| then |s| + k else 0
  {
    if k >= 0 then (if k <= |s| then s[..k] else s)
    else if -k <= |s| then s[..|s| + k]
    else []
  }

  /** Block i (counting from 1) of the plain context. */
  function ContextBlock(i: nat, doc: Document): string
  {
    Label(i) + doc.pageContent
  }

  function ContextBlocks(docs: seq<Document>): (blocks: seq<string>)
    ensures |blocks| == |docs|
    ensures forall i :: 0 <= i < |docs| ==> blocks[i] == ContextBlock(i + 1, docs[i])
  {
    seq(|docs|, i requires 0 <= i < |docs| => ContextBlock(i + 1, docs[i]))
  }

  /** The context `format_context` produces for `docs`. */
  function ContextOf(docs: seq<Document>): string
  {
    Join(ContextBlocks(docs), BLOCK_SEPARATOR)
  }

  /** The context is empty exactly when there are no documents; otherwise it
      starts with "[1] " and the first chunk, and between its n blocks stand
      exactly n - 1 separators. */
  lemma ContextShape(docs: seq<Document>)
    ensures ContextOf(docs) == "" <==> docs == []
    ensures docs != [] ==> StartsWith(ContextOf(docs), "[1] " + docs[0].pageContent)
    ensures docs != [] ==>
      |ContextOf(docs)| == TotalLength(ContextBlocks(docs)) + (|docs| - 1) * |BLOCK_SEPARATOR|
  {
    if docs != [] {
      var blocks := ContextBlocks(docs);
      JoinStartsWithFirst(blocks, BLOCK_SEPARATOR);
      JoinLength(blocks, BLOCK_SEPARATOR);
      assert Label(1) == "[1] ";
      assert |ContextOf(docs)| >= |blocks[0]| >= 4;
    }
  }

  /** One more document appends one separator and its numbered block. */
  lemma ContextAppend(docs: seq<Document>, doc: Document)
    requires docs != []
    ensures ContextOf(docs + [doc]) ==
      ContextOf(docs) + BLOCK_SEPARATOR + ContextBlock(|docs| + 1, doc)
  {
    assert ContextBlocks(docs + [doc]) == ContextBlocks(docs) + [ContextBlock(|docs| + 1, doc)];
    JoinSnoc(ContextBlocks(docs), ContextBlock(|docs| + 1, doc), BLOCK_SEPARATOR);
  }

  class RagManager {
    var dbPath: string
    /** The loaded FAISS index, when there is one. */
    var vectorStore: Option<VectorIndex>
    var retriever: Option<Retriever>

    /** `RAGManager(db_path)`: the index found at `dbPath` is loaded and a
        retriever of the four most similar chunks is built over it. */
    constructor (dbPath: string, loaded: VectorIndex)
      ensures this.dbPath == dbPath
      ensures vectorStore == Some(loaded)
      ensures retriever == Some(Retriever(loaded, RETRIEVER_K))
    {
      this.dbPath := dbPath;
      vectorStore := Some(loaded);
      retriever := Some(Retriever(loaded, RETRIEVER_K));
    }

    /** `search(query, k)`: nothing without a retriever; otherwise a prefix
        of the retriever's answer, of length min(k, its length) for k >= 0,
        hence never more than k nor more than the retriever's own limit. */
    function Search(query: string, k: int): (docs: seq<Document>)
      reads this
      ensures retriever.None? ==> docs == []
      ensures retriever.Some? ==>
        var answer := Invoke(retriever.value, query);
        && docs <= answer
        && (k >= 0 ==> |docs| == if k <= |answer| then k else |answer|)
        && (k >= 0 ==> |docs| <= k && |docs| <= retriever.value.k)
    {
      if retriever.None? then [] else PyPrefix(Invoke(retriever.value, query), k)
    }

    /** `format_context(docs)`: the numbered blocks "[i] content", joined by
        "\n---\n"; "" for no documents. */
    method FormatContext(docs: seq<Document>) returns (context: string)
      ensures context == ContextOf(docs)
      ensures context == "" <==> docs == []
    {
      ContextShape(docs);
      if docs == [] {
        return "";
      }
      var formatted: seq<string> := [];
      for i := 0 to |docs|
        invariant formatted == ContextBlocks(docs)[..i]
      {
        assert ContextBlocks(docs)[..i + 1] == ContextBlocks(docs)[..i] + [ContextBlock(i + 1, docs[i])];
        formatted := formatted + [Label(i + 1) + docs[i].pageContent];
      }
      assert ContextBlocks(docs)[..|docs|] == ContextBlocks(docs);
      context := Join(formatted, BLOCK_SEPARATOR);
    }

    /** `search_and_format(query, k)`: the documents `search` returns and the
        context `format_context` builds from exactly those. */
    method SearchAndFormat(query: string, k: int) returns (context: string, docs: seq<Document>)
      ensures docs == Search(query, k)
      ensures context == ContextOf(docs)
      ensures context == "" <==> docs == []
    {
      docs := Search(query, k);
      context := FormatContext(docs);
    }

    /** `get_document_metadata(doc)`: the metadata attribute itself (which
        may be None), or an empty dictionary when there is no attribute. */
    function GetDocumentMetadata(doc: Document): (m: Option<Meta>)
      ensures doc.metadata.Dict? ==> m == Some(doc.metadata.entries)
      ensures doc.metadata.Missing? ==> m == Some(map[])
      ensures doc.metadata.Null? ==> m.None?
    {
      match doc.metadata
      case Missing => Some(map[])
      case Null => None
      case Dict(entries) => Some(entries)
    }
  }

  /** The module-level `_rag_manager_instance` of the process. */
  class RagManagerGlobal {
    var instance: RagManager?

    /** At import time there is no instance yet. */
    constructor ()
      ensures instance == null
    {
      instance := null;
    }

    /** `get_rag_manager()`: the first call builds the manager over the index
        found at the default path; every later call returns that same
        instance and builds nothing. */
    method GetRagManager(loaded: VectorIndex) returns (m: RagManager)
      modifies this
      ensures instance == m
      ensures old(instance) != null ==> m == old(instance)
      ensures old(instance) == null ==>
        fresh(m) && m.dbPath == DEFAULT_DB_PATH && m.retriever == Some(Retriever(loaded, RETRIEVER_K))
    {
      if instance == null {
        instance := new RagManager(DEFAULT_DB_PATH, loaded);
      }
      m := instance;
    }
  }

  /** Two calls to `get_rag_manager()` yield one and the same manager. */
  method GetRagManagerTwice(g: RagManagerGlobal, loaded: VectorIndex) returns (first: RagManager, second: RagManager)
    modifies g
    ensures first == second == g.instance
    ensures old(g.instance) != null ==> first == old(g.instance)
  {
    first := g.GetRagManager(loaded);
    second := g.GetRagManager(loaded);
  }
}
