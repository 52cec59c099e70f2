/** Chunk metadata enrichment at ingestion time and the file-type check.
    The clock reading and the file-system existence test are parameters. */
module Ingest {
  import opened Strings
  import opened Documents
  import Metadata

  const DEFAULT_SOURCE_NAME := "desconocido"
  const UNNAMED_DOCUMENT := "Documento sin nombre"
  /** The longest `file_name` that is stored as it is. */
  const MAX_FILE_NAME: nat := 50
  /** The characters kept from a longer name, before "...". */
  const KEPT_FILE_NAME: nat := 47

  /** The five keys every enriched chunk carries. */
  const ENRICHED_KEYS := {"chunk_index", "source", "file_name", "processed_date", "page"}

  /** A basename longer than 50 characters keeps its first 47 and gets "...". */
  function TruncateFileName(name: string): (r: string)
    ensures |r| <= MAX_FILE_NAME
    ensures |name| <= MAX_FILE_NAME ==> r == name
    ensures |name| > MAX_FILE_NAME ==>
      |r| == MAX_FILE_NAME && r[..KEPT_FILE_NAME] == name[..KEPT_FILE_NAME] && r[KEPT_FILE_NAME..] == "..."
  {
    if |name| > MAX_FILE_NAME then name[..KEPT_FILE_NAME] + "..." else name
  }

  /** The `file_name` stored for a `source` value: the (truncated) basename of
      a non-empty path, and "Documento sin nombre" for a falsy source. A
      truthy non-string source makes `os.path.basename` raise, so it is
      excluded. */
  function FileNameFor(source: Value): (name: string)
    requires !TruthyNonString(source)
    ensures |name| <= MAX_FILE_NAME
    ensures !Truthy(source) ==> name == UNNAMED_DOCUMENT
    ensures Truthy(source) ==> source.VStr? && name == TruncateFileName(Basename(source.s))
  {
    if Truthy(source) then TruncateFileName(Basename(source.s)) else UNNAMED_DOCUMENT
  }

  /** The dictionary the loop works on: `{}` replaces a missing or None
      metadata attribute. */
  function MetaOf(md: Documents.Metadata): Meta
  {
    if md.Dict? then md.entries else map[]
  }

  /** A source value the loop can take the basename of, once the default
      source has been filled in. */
  predicate Enrichable(md: Documents.Metadata)
  {
    "source" in MetaOf(md) ==> !TruthyNonString(MetaOf(md)["source"])
  }

  /** The enriched dictionary: the old one with its five enrichment entries
      written over it; every other key keeps its value. */
  function EnrichMeta(m: Meta, index: nat, sourceName: string, processedDate: string): (r: Meta)
    requires "source" in m ==> !TruthyNonString(m["source"])
    ensures r.Keys == m.Keys + ENRICHED_KEYS
    ensures r["chunk_index"] == VInt(index)
    ensures "source" in m ==> r["source"] == m["source"]
    ensures "source" !in m ==> r["source"] == VStr(sourceName)
    ensures !TruthyNonString(r["source"]) && r["file_name"] == VStr(FileNameFor(r["source"]))
    ensures r["processed_date"] == VStr(processedDate)
    ensures "page" in m ==> r["page"] == m["page"]
    ensures "page" !in m ==> r["page"] == VInt(0)
    ensures forall k :: k in m && k !in ENRICHED_KEYS ==> r[k] == m[k]
  {
    var withIndex := m["chunk_index" := VInt(index)];
    var withSource := if "source" in withIndex then withIndex else withIndex["source" := VStr(sourceName)];
    var withName := withSource["file_name" := VStr(FileNameFor(withSource["source"]))];
    var withDate := withName["processed_date" := VStr(processedDate)];
    if "page" in withDate then withDate else withDate["page" := VInt(0)]
  }

  /** Document `index` after enrichment: same content, enriched dictionary. */
  function Enriched(doc: Document, index: nat, sourceName: string, processedDate: string): Document
    requires Enrichable(doc.metadata)
  {
    doc.(metadata := Dict(EnrichMeta(MetaOf(doc.metadata), index, sourceName, processedDate)))
  }

  /** The body of the loop for one document: the stored metadata dictionary
      (or `{}`) gets its index, the default source, the file name, the
      timestamp and the default page, in that order. */
  method EnrichChunk(doc: Document, idx: nat, sourceName: string, processedDate: string)
    returns (meta: Meta)
    requires Enrichable(doc.metadata)
    ensures meta == EnrichMeta(MetaOf(doc.metadata), idx, sourceName, processedDate)
  {
    meta := if doc.metadata.Dict? then doc.metadata.entries else map[];
    meta := meta["chunk_index" := VInt(idx)];
    if "source" !in meta {
      meta := meta["source" := VStr(sourceName)];
    }
    var sourcePath := Get(meta, "source", VStr(""));
    if Truthy(sourcePath) {
      var fileName := Basename(sourcePath.s);
      if |fileName| > MAX_FILE_NAME {
        fileName := fileName[..KEPT_FILE_NAME] + "...";
      }
      meta := meta["file_name" := VStr(fileName)];
    } else {
      meta := meta["file_name" := VStr(UNNAMED_DOCUMENT)];
    }
    meta := meta["processed_date" := VStr(processedDate)];
    if "page" !in meta {
      meta := meta["page" := VInt(0)];
    }
  }

  /** `add_chunk_metadata(documents, source_name)`: every document's metadata
      is updated in place, in list order; the same list is returned. */
  method AddChunkMetadata(docs: array<Document>, sourceName: string, processedDate: string)
    returns (result: array<Document>)
    requires forall i :: 0 <= i < docs.Length ==> Enrichable(docs[i].metadata)
    modifies docs
    ensures result == docs
    ensures forall i :: 0 <= i < docs.Length ==>
      docs[i] == Enriched(old(docs[i]), i, sourceName, processedDate)
  {
    for idx := 0 to docs.Length
      invariant forall i :: 0 <= i < idx ==>
        docs[i] == Enriched(old(docs[i]), i, sourceName, processedDate)
      invariant forall i :: idx <= i < docs.Length ==> docs[i] == old(docs[i])
    {
      var meta := EnrichChunk(docs[idx], idx, sourceName, processedDate);
      docs[idx] := docs[idx].(metadata := Dict(meta));
    }
    result := docs;
  }

  /** Every enriched chunk keeps its text and carries the five keys, its own
      position as `chunk_index` and the ingestion timestamp. */
  lemma EnrichedChunkFields(doc: Document, index: nat, sourceName: string, processedDate: string)
    requires Enrichable(doc.metadata)
    ensures var e := Enriched(doc, index, sourceName, processedDate);
      && e.pageContent == doc.pageContent
      && e.metadata.Dict?
      && ENRICHED_KEYS <= e.metadata.entries.Keys
      && e.metadata.entries["chunk_index"] == VInt(index)
      && e.metadata.entries["processed_date"] == VStr(processedDate)
      && (doc.metadata.Dict? ==> doc.metadata.entries.Keys <= e.metadata.entries.Keys)
  {
  }

  /** With the default source name, a chunk that had no "source" is stored
      under source "desconocido" and file name "desconocido". */
  lemma EnrichDefaultSource(m: Meta, index: nat, processedDate: string)
    requires "source" !in m
    ensures EnrichMeta(m, index, DEFAULT_SOURCE_NAME, processedDate)["source"] == VStr("desconocido")
    ensures EnrichMeta(m, index, DEFAULT_SOURCE_NAME, processedDate)["file_name"] == VStr("desconocido")
  {
    assert '/' !in DEFAULT_SOURCE_NAME;
    BasenameIsLastSegment(DEFAULT_SOURCE_NAME);
  }

  /** Enrichment is the identity on a document it has already enriched at
      the same position with the same timestamp. */
  lemma EnrichIdempotent(doc: Document, index: nat, sourceName: string, processedDate: string)
    requires Enrichable(doc.metadata)
    ensures Enrichable(Enriched(doc, index, sourceName, processedDate).metadata)
    ensures Enriched(Enriched(doc, index, sourceName, processedDate), index, sourceName, processedDate)
         == Enriched(doc, index, sourceName, processedDate)
  {
    var m := EnrichMeta(MetaOf(doc.metadata), index, sourceName, processedDate);
    var m2 := EnrichMeta(m, index, sourceName, processedDate);
    assert m2.Keys == m.Keys;
    assert forall k :: k in m ==> m2[k] == m[k];
  }

  /** An enriched chunk is cited by the file name stored for it: the source
      information `extract_source_info` reads back holds that name and the
      chunk's index, `format_source_citation` can take it, and the
      annotation shows the name, with page 0 when the chunk had no page. */
  lemma EnrichedDocumentCitation(doc: Document, index: nat, sourceName: string, processedDate: string)
    requires Enrichable(doc.metadata)
    ensures var e := Enriched(doc, index, sourceName, processedDate);
      var info := Metadata.ExtractSourceInfo(e);
      var name := FileNameFor(e.metadata.entries["source"]);
      && info["file_name"] == VStr(name)
      && info["chunk_index"] == VInt(index)
      && Metadata.Citable(info)
      && ("page" !in MetaOf(doc.metadata) ==>
            Metadata.CreateSourceAnnotation(e) == "[Fuente: " + name + ", página 0]")
  {
    var e := Enriched(doc, index, sourceName, processedDate);
    var m := e.metadata.entries;
    var name := FileNameFor(m["source"]);
    assert m["file_name"] == VStr(name) && m["chunk_index"] == VInt(index);
    assert "page" !in MetaOf(doc.metadata) ==> m["page"] == VInt(0);
    InfoOfEnriched(e, name);
  }

  /** What `extract_source_info` reads from a chunk carrying a file name and
      a page. */
  lemma InfoOfEnriched(e: Document, name: string)
    requires e.metadata.Dict? && "file_name" in e.metadata.entries && "chunk_index" in e.metadata.entries
    requires "page" in e.metadata.entries
    requires e.metadata.entries["file_name"] == VStr(name)
    ensures var info := Metadata.ExtractSourceInfo(e);
      && info["file_name"] == VStr(name)
      && info["chunk_index"] == e.metadata.entries["chunk_index"]
      && Metadata.Citable(info)
      && (e.metadata.entries["page"] == VInt(0) ==>
            Metadata.CreateSourceAnnotation(e) == "[Fuente: " + name + ", página 0]")
  {
    assert Metadata.HasUsableMetadata(e);
    var info := Metadata.ExtractSourceInfo(e);
    assert info["page"] == e.metadata.entries["page"];
    assert Show(VInt(0)) == "0";
  }

  // ---------------------------------------------------------------------------
  // validate_file

  /** `validate_file(path, file_type)`: false when the file does not exist,
      false when the lower-cased path does not end with the lower-cased type,
      true otherwise. */
  function ValidateFile(path: string, fileType: string, fileExists: bool): (valid: bool)
    ensures valid <==> fileExists && EndsWith(Lower(path), Lower(fileType))
    ensures valid ==> |fileType| <= |path|
  {
    if !fileExists then false
    else if !EndsWith(Lower(path), Lower(fileType)) then false
    else true
  }

  lemma {:induction false} LowerAt(s: string, i: nat)
    requires i < |s|
    ensures Lower(s)[i] == LowerChar(s[i])
    decreases |s|
  {
    if i > 0 {
      LowerAt(s[1..], i - 1);
    }
  }

  /** The check compares the path's last characters with the type's, one
      by one and ignoring case: any mismatch, or a path shorter than the
      type, rejects the file. */
  lemma ValidateFileCharwise(path: string, fileType: string, fileExists: bool)
    ensures ValidateFile(path, fileType, fileExists) <==>
      && fileExists
      && |fileType| <= |path|
      && forall i :: 0 <= i < |fileType| ==>
           LowerChar(path[|path| - |fileType| + i]) == LowerChar(fileType[i])
  {
    if fileExists && |fileType| <= |path| {
      var d := |path| - |fileType|;
      var tail := Lower(path)[d..];
      forall i | 0 <= i < |fileType|
        ensures tail[i] == LowerChar(path[d + i]) && Lower(fileType)[i] == LowerChar(fileType[i])
      {
        LowerAt(path, d + i);
        LowerAt(fileType, i);
      }
      if forall i :: 0 <= i < |fileType| ==> LowerChar(path[d + i]) == LowerChar(fileType[i]) {
        assert tail == Lower(fileType);
      }
    }
  }

  /** An existing file whose path ends with the type, in any case, is valid. */
  lemma ValidateFileAcceptsType(stem: string, fileType: string)
    ensures ValidateFile(stem + fileType, fileType, true)
    ensures ValidateFile(stem + Lower(fileType), fileType, true)
  {
    LowerConcat(stem, fileType);
    LowerConcat(stem, Lower(fileType));
    LowerIdempotent(fileType);
  }

  /** The check ignores the case of the path and of the type. */
  lemma ValidateFileIgnoresCase(path: string, fileType: string, fileExists: bool)
    ensures ValidateFile(Lower(path), fileType, fileExists) == ValidateFile(path, fileType, fileExists)
    ensures ValidateFile(path, Lower(fileType), fileExists) == ValidateFile(path, fileType, fileExists)
  {
    LowerIdempotent(path);
    LowerIdempotent(fileType);
  }

  /** As written, the check accepts a path whose name only ends with the
      letters of the type, without a dot before them. */
  lemma ValidateFileAcceptsNameWithoutDot()
    ensures ValidateFile("informePDF", "PDF", true)
    ensures '.' !in "informePDF"
  {
    ValidateFileAcceptsType("informe", "PDF");
    assert "informe" + "PDF" == "informePDF";
  }

  /** The check with the dot the error message announces (".pdf"): the
      lower-cased path must end with "." and the lower-cased type. */
  function ValidateFileExtension(path: string, fileType: string, fileExists: bool): (valid: bool)
    ensures valid ==> fileExists && |fileType| < |path| && path[|path| - |fileType| - 1] == '.'
    ensures valid ==> ValidateFile(path, fileType, fileExists)
  {
    if fileExists && EndsWith(Lower(path), "." + Lower(fileType)) then
      var n := |path| - |fileType| - 1;
      LowerAt(path, n);
      assert Lower(path)[n..] == "." + Lower(fileType);
      assert Lower(path)[n + 1..] == Lower(path)[n..][1..];
      true
    else false
  }

  /** The corrected check accepts a name with the extension. */
  lemma ValidateFileExtensionAccepts(stem: string, fileType: string)
    ensures ValidateFileExtension(stem + "." + fileType, fileType, true)
  {
    LowerConcat(stem + ".", fileType);
    LowerConcat(stem, ".");
    assert Lower(".") == ".";
  }

  /** The corrected check rejects the dotless name the check as written
      accepts. */
  lemma ValidateFileExtensionRejectsNameWithoutDot()
    ensures !ValidateFileExtension("informePDF", "PDF", true)
  {
    LowerAt("informePDF", 6);
  }
}
