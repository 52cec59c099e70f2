/** Citation and metadata formatting for retrieved chunks: the source
    information of a document, its display citation, the de-duplicated
    "FUENTES CONSULTADAS" list and the annotated context blocks. */
module Metadata {
  import opened Strings
  import opened Documents

  const UNKNOWN_SOURCE := "Desconocido"
  const UNKNOWN_DOCUMENT := "Documento desconocido"
  const SOURCES_HEADER := "FUENTES CONSULTADAS:"
  const GENERAL_KNOWLEDGE := "(Conocimiento general)"
  const BLOCK_SEPARATOR := "\n---\n"

  /** The keys `extract_source_info` fills when a document has no usable metadata. */
  const DEFAULT_INFO_KEYS :=
    {"source", "file_name", "page", "chunk_index", "processed_date", "title", "author"}

  /** The keys it copies out of a non-empty metadata dictionary. */
  const COPIED_INFO_KEYS := DEFAULT_INFO_KEYS + {"creator", "total_pages"}

  /** `not hasattr(doc, 'metadata') or not doc.metadata` fails. */
  predicate HasUsableMetadata(doc: Document)
  {
    doc.metadata.Dict? && |doc.metadata.entries| > 0
  }

  // ---------------------------------------------------------------------------
  // extract_source_info

  /** The source information of a document: every field is copied verbatim
      from a non-empty metadata dictionary (absent ones read as None, the
      source as "Desconocido"); a document without metadata gets the unknown
      source and None everywhere else. */
  function ExtractSourceInfo(doc: Document): (info: Meta)
    ensures !HasUsableMetadata(doc) ==>
      && info.Keys == DEFAULT_INFO_KEYS
      && info["source"] == VStr(UNKNOWN_SOURCE)
      && forall k :: k in info && k != "source" ==> info[k] == VNone
    ensures HasUsableMetadata(doc) ==>
      var m := doc.metadata.entries;
      && info.Keys == COPIED_INFO_KEYS
      && info["source"] == (if "source" in m then m["source"] else VStr(UNKNOWN_SOURCE))
      && forall k :: k in info && k != "source" ==>
           info[k] == (if k in m then m[k] else VNone)
  {
    if !HasUsableMetadata(doc) then
      map k | k in DEFAULT_INFO_KEYS :: if k == "source" then VStr(UNKNOWN_SOURCE) else VNone
    else
      var m := doc.metadata.entries;
      map k | k in COPIED_INFO_KEYS ::
        if k == "source" then Get(m, k, VStr(UNKNOWN_SOURCE)) else Get(m, k, VNone)
  }

  // ---------------------------------------------------------------------------
  // format_source_citation

  /** The file name with every ".pdf" and then every ".txt" removed. */
  function StripExtensions(fileName: string): string
  {
    RemoveAll(RemoveAll(fileName, ".pdf"), ".txt")
  }

  /** A name followed by ".pdf" is stripped back to the name, when the name
      holds no ".txt" and no ".pdf" of its own (none straddling the added
      extension either). */
  lemma StripPdfExtension(name: string)
    requires forall i :: 0 <= i < |name| ==> !StartsWith(name[i..] + ".pdf", ".pdf")
    requires !Contains(name, ".txt")
    ensures StripExtensions(name + ".pdf") == name
  {
    RemoveAllSuffix(name, ".pdf");
  }

  /** A name followed by ".txt" is stripped back to the name, when the
      name holds no ".txt" of its own (none straddling the added extension
      either) and no ".pdf" is found in the whole. */
  lemma StripTxtExtension(name: string)
    requires forall i :: 0 <= i < |name| ==> !StartsWith(name[i..] + ".txt", ".txt")
    requires !Contains(name + ".txt", ".pdf")
    ensures StripExtensions(name + ".txt") == name
  {
    RemoveAllSuffix(name, ".txt");
  }

  function CapitalizeAll(words: seq<string>): (r: seq<string>)
    ensures |r| == |words|
    ensures forall i :: 0 <= i < |words| ==> r[i] == Capitalize(words[i])
  {
    seq(|words|, i requires 0 <= i < |words| => Capitalize(words[i]))
  }

  function LowerAll(words: seq<string>): (r: seq<string>)
    ensures |r| == |words|
    ensures forall i :: 0 <= i < |words| ==> r[i] == Lower(words[i])
  {
    seq(|words|, i requires 0 <= i < |words| => Lower(words[i]))
  }

  /** Split on "_", every piece capitalised, the pieces joined by single
      spaces. */
  function Humanize(text: string): string
  {
    Join(CapitalizeAll(Split(text, '_')), " ")
  }

  /** The humanised name of a file: stripped of its extensions, then
      humanised. */
  function DisplayName(fileName: string): string
  {
    Humanize(StripExtensions(fileName))
  }

  /** A piece without "_" is capitalised as a whole: its first character
      upper-cased and every later one lower-cased. */
  lemma HumanizeWord(w: string)
    requires '_' !in w
    ensures Humanize(w) == Capitalize(w)
    ensures w != [] ==> Humanize(w)[0] == UpperChar(w[0]) && Humanize(w)[1..] == Lower(w[1..])
  {
    SplitWithoutSep(w, '_');
  }

  /** Each "_" becomes one space between the humanised texts on either side. */
  lemma HumanizeUnderscore(a: string, b: string)
    ensures Humanize(a + "_" + b) == Humanize(a) + " " + Humanize(b)
  {
    SplitConcat(a, b, '_');
    var xs := Split(a, '_');
    var ys := Split(b, '_');
    assert CapitalizeAll(xs + ys) == CapitalizeAll(xs) + CapitalizeAll(ys);
    JoinAppend(CapitalizeAll(xs), CapitalizeAll(ys), " ");
  }

  /** Whether a page value is shown: not None and not the string "None". */
  predicate HasPage(page: Value)
  {
    page != VNone && page != VStr("None")
  }

  /** The `file_name` value of a source-information dictionary, with the
      default `format_source_citation` reads it with. */
  function CitedFileName(info: Meta): Value
  {
    Get(info, "file_name", VStr(UNKNOWN_DOCUMENT))
  }

  /** The citation name of a file-name value: the display name of a non-empty
      string other than "Documento desconocido", and "Documento desconocido"
      for everything falsy. A truthy non-string raises in the source
      (`replace` on it), so it is excluded. */
  function CitationName(fileName: Value): (name: string)
    requires !TruthyNonString(fileName)
    ensures !Truthy(fileName) || fileName == VStr(UNKNOWN_DOCUMENT) ==> name == UNKNOWN_DOCUMENT
    ensures Truthy(fileName) && fileName != VStr(UNKNOWN_DOCUMENT) ==>
      fileName.VStr? && name == DisplayName(fileName.s)
  {
    if Truthy(fileName) && fileName != VStr(UNKNOWN_DOCUMENT) then DisplayName(fileName.s)
    else UNKNOWN_DOCUMENT
  }

  /** What `format_source_citation` needs of its input: a file name it can
      call `replace` on. */
  predicate Citable(info: Meta)
  {
    !TruthyNonString(CitedFileName(info))
  }

  /** The display citation: the citation name, followed by " (página p)" if
      and only if there is a page that is neither None nor "None". */
  function FormatSourceCitation(info: Meta): (citation: string)
    requires Citable(info)
    ensures var page := Get(info, "page", VNone);
      && (HasPage(page) ==>
            citation == CitationName(CitedFileName(info)) + " (página " + Show(page) + ")")
      && (!HasPage(page) ==> citation == CitationName(CitedFileName(info)))
  {
    var name := CitationName(CitedFileName(info));
    var page := Get(info, "page", VNone);
    if HasPage(page) then name + " (página " + Show(page) + ")" else name
  }

  /** A document whose citation can be formatted. */
  predicate CitableDocument(doc: Document)
  {
    Citable(ExtractSourceInfo(doc))
  }

  /** The citation of one document. */
  function DocumentCitation(doc: Document): string
    requires CitableDocument(doc)
  {
    FormatSourceCitation(ExtractSourceInfo(doc))
  }

  /** The citation of each document, in order. */
  function Citations(docs: seq<Document>): (cs: seq<string>)
    requires forall i :: 0 <= i < |docs| ==> CitableDocument(docs[i])
    ensures |cs| == |docs|
    ensures forall i :: 0 <= i < |docs| ==> cs[i] == DocumentCitation(docs[i])
  {
    seq(|docs|, i requires 0 <= i < |docs| => DocumentCitation(docs[i]))
  }

  /** Lower-cased, a display name reads as the stripped file name with every
      "_" turned into a space: capitalising changes only case, and the pieces
      are re-joined by one space each. */
  lemma DisplayNameReadsAsFileName(fileName: string)
    ensures Lower(DisplayName(fileName)) == Lower(ReplaceChar(StripExtensions(fileName), '_', ' '))
    ensures |DisplayName(fileName)| == |StripExtensions(fileName)|
  {
    var words := Split(StripExtensions(fileName), '_');
    var caps := CapitalizeAll(words);
    LowerJoin(caps, " ");
    LowerJoin(words, " ");
    forall i | 0 <= i < |words| ensures LowerAll(caps)[i] == LowerAll(words)[i] {
      LowerCapitalize(words[i]);
    }
    assert LowerAll(caps) == LowerAll(words);
    JoinSplit(StripExtensions(fileName), '_', ' ');
  }

  /** A display name holds no underscore. */
  lemma DisplayNameHasNoUnderscore(fileName: string)
    ensures '_' !in DisplayName(fileName)
  {
    DisplayNameReadsAsFileName(fileName);
    var replaced := ReplaceChar(StripExtensions(fileName), '_', ' ');
    ReplaceCharRemoves(StripExtensions(fileName), '_', ' ');
    LowerKeepsChar(replaced, '_');
    LowerKeepsChar(DisplayName(fileName), '_');
  }

  lemma {:induction false} ReplaceCharRemoves(s: string, a: char, b: char)
    requires a != b
    ensures a !in ReplaceChar(s, a, b)
    decreases |s|
  {
    if s != [] {
      ReplaceCharRemoves(s[1..], a, b);
    }
  }

  /** Lower-casing a join lower-cases each part (the separator is lower-case). */
  lemma {:induction false} LowerJoin(parts: seq<string>, sep: string)
    requires Lower(sep) == sep
    ensures Lower(Join(parts, sep)) == Join(LowerAll(parts), sep)
    decreases |parts|
  {
    if |parts| > 1 {
      LowerJoin(parts[1..], sep);
      LowerConcat(parts[0] + sep, Join(parts[1..], sep));
      LowerConcat(parts[0], sep);
      assert LowerAll(parts)[1..] == LowerAll(parts[1..]);
    }
  }

  /** A file name without extensions is shown by its display name, with the
      page when there is one: the first case of the metadata test
      ("historia_universidad.pdf", page 42). */
  lemma CitationOfNamedFile(name: string, page: int)
    requires name != "" && name != UNKNOWN_DOCUMENT
    ensures FormatSourceCitation(map["file_name" := VStr(name), "page" := VInt(page)])
         == DisplayName(name) + " (página " + IntToString(page) + ")"
    ensures FormatSourceCitation(map["file_name" := VStr(name), "page" := VNone])
         == DisplayName(name)
  {
  }

  /** A missing or None file name, or the literal "Documento desconocido",
      is cited as "Documento desconocido". */
  lemma CitationOfUnknownFile(info: Meta)
    requires "file_name" !in info || info["file_name"] in {VNone, VStr(""), VStr(UNKNOWN_DOCUMENT)}
    ensures !HasPage(Get(info, "page", VNone)) ==> FormatSourceCitation(info) == UNKNOWN_DOCUMENT
    ensures StartsWith(FormatSourceCitation(info), UNKNOWN_DOCUMENT)
  {
  }

  // ---------------------------------------------------------------------------
  // format_source_list

  /** The distinct elements of `s` in first-seen order, built as the loop of
      `format_source_list` builds them: an element is appended when it is not
      already there. */
  function Dedup(s: seq<string>): seq<string>
  {
    if s == [] then []
    else
      var d := Dedup(s[..|s| - 1]);
      if s[|s| - 1] in d then d else d + [s[|s| - 1]]
  }

  /** The elements of `s` at the positions where they occur for the first
      time, in order. */
  function FirstOccurrences(s: seq<string>): seq<string>
  {
    if s == [] then []
    else
      var p := s[..|s| - 1];
      FirstOccurrences(p) + (if s[|s| - 1] in p then [] else [s[|s| - 1]])
  }

  predicate NoDuplicates(s: seq<string>)
  {
    forall i, j :: 0 <= i < j < |s| ==> s[i] != s[j]
  }

  /** The de-duplicated list has no repeated entry, the same entries as the
      input, at most as many, keeps exactly the first occurrences in input
      order and starts with the first input. */
  lemma {:induction false} DedupProperties(s: seq<string>)
    ensures NoDuplicates(Dedup(s))
    ensures forall x :: x in Dedup(s) <==> x in s
    ensures |Dedup(s)| <= |s|
    ensures Dedup(s) == FirstOccurrences(s)
    ensures |s| > 0 ==> |Dedup(s)| > 0 && Dedup(s)[0] == s[0]
    decreases |s|
  {
    if s != [] {
      var p := s[..|s| - 1];
      DedupProperties(p);
      assert forall x :: x in s <==> x in p || x == s[|s| - 1];
      if |p| > 0 {
        assert p[0] == s[0];
      }
    }
  }

  /** A document whose citation is already in the list adds nothing to it:
      the metadata test's duplicated "Reglamento" document is listed once. */
  lemma DedupIgnoresRepeat(s: seq<string>, x: string)
    requires x in s
    ensures Dedup(s + [x]) == Dedup(s)
  {
    DedupProperties(s);
    assert (s + [x])[..|s|] == s;
  }

  /** The "- citation" line of each citation. */
  function Bullets(citations: seq<string>): (lines: seq<string>)
    ensures |lines| == |citations|
    ensures forall i :: 0 <= i < |citations| ==> lines[i] == "- " + citations[i]
  {
    seq(|citations|, i requires 0 <= i < |citations| => "- " + citations[i])
  }

  /** Distinct citations give distinct lines. */
  lemma BulletsKeepDistinct(citations: seq<string>)
    requires NoDuplicates(citations)
    ensures NoDuplicates(Bullets(citations))
  {
    forall i, j | 0 <= i < j < |citations|
      ensures Bullets(citations)[i] != Bullets(citations)[j]
    {
      var a, b := Bullets(citations)[i], Bullets(citations)[j];
      assert a[2..] == citations[i] && b[2..] == citations[j];
    }
  }

  /** The source list: with no documents, the general-knowledge entry; else a
      header line and one "- " line per distinct citation in first-seen order. */
  method FormatSourceList(docs: seq<Document>) returns (text: string)
    requires forall i :: 0 <= i < |docs| ==> CitableDocument(docs[i])
    ensures docs == [] ==> text == SOURCES_HEADER + "\n- " + GENERAL_KNOWLEDGE
    ensures docs != [] ==>
      text == "\n" + SOURCES_HEADER + "\n" + Join(Bullets(Dedup(Citations(docs))), "\n")
  {
    if docs == [] {
      return SOURCES_HEADER + "\n- " + GENERAL_KNOWLEDGE;
    }
    ghost var all := Citations(docs);
    var sources: seq<string> := [];
    var seen: set<string> := {};
    for i := 0 to |docs|
      invariant sources == Dedup(all[..i])
      invariant forall c :: c in seen <==> c in sources
    {
      var info := ExtractSourceInfo(docs[i]);
      var citation := FormatSourceCitation(info);
      assert all[..i + 1][..i] == all[..i];
      if citation !in seen {
        sources := sources + [citation];
        seen := seen + {citation};
      }
    }
    assert all[..|docs|] == all;
    var lines := Bullets(sources);
    text := "\n" + SOURCES_HEADER + "\n" + Join(lines, "\n");
  }

  /** The lines of a non-empty list are pairwise distinct, at least one and
      at most one per document, and each names a document's citation. */
  lemma SourceLinesDistinct(docs: seq<Document>)
    requires |docs| > 0
    requires forall i :: 0 <= i < |docs| ==> CitableDocument(docs[i])
    ensures var lines := Bullets(Dedup(Citations(docs)));
      && NoDuplicates(lines)
      && 1 <= |lines| <= |docs|
      && forall i :: 0 <= i < |lines| ==>
           exists j :: 0 <= j < |docs| && lines[i] == "- " + DocumentCitation(docs[j])
  {
    var cs := Citations(docs);
    DedupProperties(cs);
    BulletsKeepDistinct(Dedup(cs));
    forall i | 0 <= i < |Dedup(cs)|
      ensures exists j :: 0 <= j < |docs| && Bullets(Dedup(cs))[i] == "- " + DocumentCitation(docs[j])
    {
      assert Dedup(cs)[i] in cs;
      var j :| 0 <= j < |cs| && cs[j] == Dedup(cs)[i];
      assert Bullets(Dedup(cs))[i] == "- " + DocumentCitation(docs[j]);
    }
  }

  // ---------------------------------------------------------------------------
  // create_source_annotation and format_context_with_annotations

  /** The `file_name` value as `create_source_annotation` reads it. */
  function AnnotatedFileName(info: Meta): Value
  {
    Get(info, "file_name", VStr(UNKNOWN_SOURCE))
  }

  /** "[Fuente: f, página p]", or "[Fuente: f]" when there is no page, where f
      is the file-name value as text: the file name itself, or "None" for a
      document whose metadata has no file name. */
  function CreateSourceAnnotation(doc: Document): (annotation: string)
    ensures var info := ExtractSourceInfo(doc);
      var page := info["page"];
      var f := Show(info["file_name"]);
      && (HasPage(page) ==> annotation == "[Fuente: " + f + ", página " + Show(page) + "]")
      && (!HasPage(page) ==> annotation == "[Fuente: " + f + "]")
    ensures !HasUsableMetadata(doc) ==> annotation == "[Fuente: None]"
  {
    var info := ExtractSourceInfo(doc);
    var fileName := AnnotatedFileName(info);
    var page := Get(info, "page", VNone);
    if HasPage(page) then "[Fuente: " + Show(fileName) + ", página " + Show(page) + "]"
    else "[Fuente: " + Show(fileName) + "]"
  }

  /** Block i (counting from 1): label, content, a newline and the annotation. */
  function AnnotatedBlock(i: nat, doc: Document): string
  {
    Label(i) + doc.pageContent + "\n" + CreateSourceAnnotation(doc)
  }

  function AnnotatedBlocks(docs: seq<Document>): (blocks: seq<string>)
    ensures |blocks| == |docs|
    ensures forall i :: 0 <= i < |docs| ==> blocks[i] == AnnotatedBlock(i + 1, docs[i])
  {
    seq(|docs|, i requires 0 <= i < |docs| => AnnotatedBlock(i + 1, docs[i]))
  }

  /** The annotated context: "" for no documents, else the blocks numbered
      from 1, joined by "\n---\n". */
  method FormatContextWithAnnotations(docs: seq<Document>) returns (text: string)
    ensures docs == [] ==> text == ""
    ensures text == Join(AnnotatedBlocks(docs), BLOCK_SEPARATOR)
  {
    if docs == [] {
      return "";
    }
    var formatted: seq<string> := [];
    for i := 0 to |docs|
      invariant formatted == AnnotatedBlocks(docs)[..i]
    {
      var annotation := CreateSourceAnnotation(docs[i]);
      assert AnnotatedBlocks(docs)[..i + 1] == AnnotatedBlocks(docs)[..i] + [AnnotatedBlock(i + 1, docs[i])];
      formatted := formatted + [Label(i + 1) + docs[i].pageContent + "\n" + annotation];
    }
    assert AnnotatedBlocks(docs)[..|docs|] == AnnotatedBlocks(docs);
    text := Join(formatted, BLOCK_SEPARATOR);
  }

  /** A non-empty annotated context starts with block 1's label and the
      first document's content, and holds n - 1 separators between the n
      blocks. */
  lemma AnnotatedContextShape(docs: seq<Document>)
    requires |docs| > 0
    ensures var text := Join(AnnotatedBlocks(docs), BLOCK_SEPARATOR);
      && StartsWith(text, "[1] " + docs[0].pageContent + "\n")
      && |text| == TotalLength(AnnotatedBlocks(docs)) + (|docs| - 1) * |BLOCK_SEPARATOR|
  {
    var blocks := AnnotatedBlocks(docs);
    JoinStartsWithFirst(blocks, BLOCK_SEPARATOR);
    JoinLength(blocks, BLOCK_SEPARATOR);
    assert Label(1) == "[1] ";
    var prefix := "[1] " + docs[0].pageContent + "\n";
    assert blocks[0][..|prefix|] == prefix;
  }

  // ---------------------------------------------------------------------------
  // clean_file_path

  /** `path.split("/")[-1] if "/" in path else path`. */
  function CleanFilePath(path: string): string
  {
    if '/' in path then Last(Split(path, '/')) else path
  }

  /** The cleaned path is the basename: it holds no "/", a path without "/"
      is returned unchanged, and cleaning twice is cleaning once. */
  lemma CleanFilePathIsBasename(path: string)
    ensures CleanFilePath(path) == Basename(path)
    ensures '/' !in CleanFilePath(path)
    ensures '/' !in path ==> CleanFilePath(path) == path
    ensures CleanFilePath(CleanFilePath(path)) == CleanFilePath(path)
  {
    LastSplitIsBasename(path);
    BasenameIsLastSegment(path);
  }
}
