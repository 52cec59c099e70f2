# University history chatbot: retrieval, citation and agent core in Dafny

This project models the core of a retrieval-augmented chatbot about the
history and regulations of the Universidad de Oriente. It covers five
components:

- **Chunk ingestion** (`ingest_utils.py`, module `Ingest`). Before indexing,
  every chunk of an ingested document is enriched with five metadata
  entries: its position, a default source, the basename of the source path
  (truncated to 50 characters), the ingestion timestamp and a default
  page. It also models the file-type check done before loading a file.
- **Retrieval** (`rag_manager.py`, module `Rag`). The vector index is
  abstract: a function from a query to its chunks, most similar first. The
  retriever keeps the best 4. `search` cuts the retriever's answer to `k`
  with Python's slice semantics, including negative `k`. `format_context`
  numbers the chunks `[1] …` and joins them with `\n---\n`. The manager is
  a lazily created process-wide instance.
- **Citations** (`metadata_handler.py`, module `Metadata`). It models:
  - the source information read back from a chunk's metadata;
  - the display citation ("Historia Universidad (página 42)");
  - the de-duplicated "FUENTES CONSULTADAS" list;
  - the `[Fuente: …]` annotation of each context block;
  - `clean_file_path`.
- **Conversation memory** (`memory_manager.py`, module `Memory`). Session ids
  `user_<user>_<n>` come from a per-instance counter. The configuration
  handed to the graph names the thread. `get_last_state` reads the
  checkpoint saver, which is abstract: a map from thread id to what the
  checkpoint saver answers for it.
- **Agent graph** (`agent_brain.py`, module `Agent`). The three nodes
  ("agent", "call_tool", "respond") are functions from the state to an
  update of its channels. Channels have no reducers, so an update
  overwrites. The routing predicate `should_continue` and the fixed edges
  form a step function. The model calls are uninterpreted functions.

Shared pieces are in `documents.dfy` (module `Documents`) and `strings.dfy`
(module `Strings`):

- Python metadata values (`None`, `str`, `int`) and their truthiness;
- the three shapes of `doc.metadata`: no attribute, `None`, a dictionary;
- ASCII `lower`/`capitalize`, `split`, `join` and `replace`;
- posix `basename`;
- decimal rendering of integers.

A Python exception on a given input becomes a precondition that excludes
that input. Examples:

- `replace` or `basename` called on a truthy non-string value;
- `execute_tool` reading a tool call that has no "query" argument.

Retrieval is not done on every turn: the model decides whether to call the
search tool (agent_brain.py:148-155), as the tool's docstring tells it to
(agent_brain.py:27-29). `Agent.RunTrace` states both runs.

One place where the code does less than its own documentation says; the
model follows the code:

- **Session history and ids.** The memory module's docstring promises
  conversations that persist per session (memory_manager.py:1-3), and
  `create_session` promises a unique id (memory_manager.py:45). The code
  does not keep either promise:
  - `app` is compiled without a checkpoint saver (agent_brain.py:164),
    and neither agent_brain.py nor main.py calls `get_saver`. So nothing writes a
    checkpoint, and `get_last_state` reads only what was already in the
    database.
  - The graph's `chat_history` channel is overwritten with the one new
    answer (`Agent.RunFinalState`).
  - The session counter restarts at 0 in every new manager while the
    checkpoints persist (`Memory.SessionIdsRepeatAcrossInstances`).

## Model

| member | source | states |
|---|---|---|
| Documents.Show | metadata_handler.py:169 | an f-string shows a string as itself, a non-negative int in decimal and None as "None" |
| Strings.BasenameIsLastSegment | ingest_utils.py:135 | the basename holds no "/", ends the path, is the whole path when there is no "/" and is preceded by a "/" otherwise |
| Strings.LastSplitIsBasename | metadata_handler.py:214 | the last piece of `path.split("/")` is the basename |
| Metadata.ExtractSourceInfo | metadata_handler.py:45-69 | without usable metadata: the seven default keys, source "Desconocido", None elsewhere; otherwise the nine keys, each copied from the metadata, absent ones None and source "Desconocido" |
| Metadata.CitationName | metadata_handler.py:89-99 | a falsy file name or "Documento desconocido" is cited as "Documento desconocido"; any other name by its display name |
| Metadata.FormatSourceCitation | metadata_handler.py:89-105 | the citation is the citation name followed by " (página p)" if and only if the page is neither None nor "None" |
| Metadata.StripPdfExtension | metadata_handler.py:95 | a name followed by ".pdf", holding no extension of its own, is stripped back to the name |
| Metadata.StripTxtExtension | metadata_handler.py:95 | a name followed by ".txt", holding no extension of its own, is stripped back to the name |
| Metadata.DisplayNameReadsAsFileName | metadata_handler.py:95-97 | lower-cased, the display name equals the stripped file name with "_" replaced by " ", and has its length |
| Metadata.HumanizeWord | metadata_handler.py:97 | a piece without "_" is capitalised as a whole: its first character upper-case and every later one lower-case, so "Historia de la Universidad" reads "Historia de la universidad" |
| Metadata.HumanizeUnderscore | metadata_handler.py:97 | each "_" becomes exactly one space between the humanised text before it and the humanised text after it |
| Metadata.DisplayNameHasNoUnderscore | metadata_handler.py:97 | no display name contains "_" |
| Metadata.CitationOfNamedFile | metadata_handler.py:93-103 | a named file with a page is cited "Display (página p)", without a page by its display name alone |
| Metadata.CitationOfUnknownFile | metadata_handler.py:89-99 | a missing, None, empty or "Documento desconocido" file name is cited as "Documento desconocido", with the page suffix only when there is a page |
| Metadata.Citations | metadata_handler.py:133-135 | one citation per document, in document order |
| Metadata.DedupProperties | metadata_handler.py:130-140 | the kept citations have no duplicates, the same elements as the input, are no more than it, are exactly its first occurrences in order and start with its first element |
| Metadata.DedupIgnoresRepeat | metadata_handler.py:137-140 | a citation already listed adds nothing |
| Metadata.BulletsKeepDistinct | metadata_handler.py:146 | distinct citations give distinct "- " lines |
| Metadata.FormatSourceList | metadata_handler.py:127-147 | no documents: "FUENTES CONSULTADAS:\n- (Conocimiento general)"; otherwise "\n", the header and one "- " line per distinct citation in first-seen order |
| Metadata.SourceLinesDistinct | metadata_handler.py:130-147 | a non-empty list has between 1 and n pairwise distinct lines, each the citation of some document |
| Metadata.CreateSourceAnnotation | metadata_handler.py:164-171 | "[Fuente: f, página p]" if and only if there is a page, "[Fuente: f]" otherwise; "[Fuente: None]" for a document without usable metadata |
| Metadata.AnnotatedBlocks | metadata_handler.py:192-194 | block i is "[i] ", the content, a newline and the annotation |
| Metadata.FormatContextWithAnnotations | metadata_handler.py:186-196 | "" for no documents, else the annotated blocks joined by "\n---\n" |
| Metadata.AnnotatedContextShape | metadata_handler.py:186-196 | a non-empty annotated context starts with "[1] ", the first content and a newline, and holds n - 1 separators |
| Metadata.CleanFilePathIsBasename | metadata_handler.py:214 | `clean_file_path` is the basename: no "/", identity without "/", idempotent |
| Rag.Invoke | rag_manager.py:71-73 | the retriever returns a prefix of the ranked chunks of length k, or all of them when there are fewer |
| Rag.PyPrefix | rag_manager.py:97 | `docs[:k]` is a prefix of length min(k, n) for k >= 0 and max(n + k, 0) for k < 0 |
| Rag.ContextShape | rag_manager.py:109-116 | the context is empty if and only if there are no documents, starts with "[1] " and the first content, and holds n - 1 separators |
| Rag.ContextAppend | rag_manager.py:113-116 | one more document appends one separator and its numbered block |
| Rag.RagManager.constructor | rag_manager.py:37-73 | a new manager holds the loaded index and a retriever of the 4 best chunks over it |
| Rag.RagManager.Search | rag_manager.py:82-97 | nothing without a retriever; otherwise a prefix of the retriever's answer of length min(k, its length), never more than k or 4 |
| Rag.RagManager.FormatContext | rag_manager.py:99-116 | the loop builds the numbered context; "" if and only if there are no documents |
| Rag.RagManager.SearchAndFormat | rag_manager.py:118-133 | the returned documents are `search`'s and the context is built from exactly them |
| Rag.RagManager.GetDocumentMetadata | rag_manager.py:145 | the metadata dictionary, {} without the attribute, None when it is None |
| Rag.RagManagerGlobal.GetRagManager | rag_manager.py:152-164 | the first call creates a manager over "vectorstore_faiss", later calls return that same instance |
| Rag.GetRagManagerTwice | rag_manager.py:152-164 | two calls return one and the same manager |
| Ingest.TruncateFileName | ingest_utils.py:137-138 | a name of more than 50 characters becomes its first 47 and "..."; shorter ones are kept |
| Ingest.FileNameFor | ingest_utils.py:133-141 | a truthy source gives its truncated basename, a falsy one "Documento sin nombre" |
| Ingest.EnrichMeta | ingest_utils.py:121-148 | the five keys are added: index, source kept or defaulted, the file name of that source, the date, page kept or 0; every other key keeps its value |
| Ingest.EnrichChunk | ingest_utils.py:122-148 | the loop body produces the enriched dictionary |
| Ingest.AddChunkMetadata | ingest_utils.py:119-156 | every document of the list is enriched in place with its own position; the same list is returned |
| Ingest.EnrichedChunkFields | ingest_utils.py:121-148 | an enriched chunk keeps its text and old keys, and carries the five keys, its index and the date |
| Ingest.EnrichDefaultSource | ingest_utils.py:93-141 | with the default source name "desconocido", a chunk without a source is stored under source and file name "desconocido" |
| Ingest.EnrichIdempotent | ingest_utils.py:121-148 | enriching an enriched chunk again at the same position and time changes nothing |
| Ingest.EnrichedDocumentCitation | ingest_utils.py:133-148 | the citation side reads back the stored file name and index, can cite the chunk and, for a chunk that had no page, annotates it "[Fuente: name, página 0]" |
| Ingest.ValidateFile | ingest_utils.py:159-178 | valid if and only if the file exists and the lower-cased path ends with the lower-cased type; so a missing file, or a path with another ending, is rejected |
| Ingest.ValidateFileCharwise | ingest_utils.py:174-176 | valid if and only if the file exists, the path is at least as long as the type and its last characters equal the type's one by one, ignoring case; any mismatch rejects |
| Ingest.ValidateFileAcceptsType | ingest_utils.py:174 | an existing path ending with the type, in any case, is valid |
| Ingest.ValidateFileIgnoresCase | ingest_utils.py:174 | lower-casing the path or the type does not change the verdict |
| Ingest.ValidateFileAcceptsNameWithoutDot | ingest_utils.py:174 | as written, "informePDF" passes as a "PDF" file |
| Ingest.ValidateFileExtension | ingest_utils.py:174-175 | the corrected check: a valid path has a "." just before the type, and passes the check as written |
| Ingest.ValidateFileExtensionAccepts | ingest_utils.py:174-175 | the corrected check accepts `stem.type` |
| Ingest.ValidateFileExtensionRejectsNameWithoutDot | ingest_utils.py:174-175 | the corrected check rejects "informePDF" |
| Memory.SessionId | memory_manager.py:47 | the id starts with "user_", the user and "_", followed by the counter in decimal |
| Memory.SessionIdSuffix | memory_manager.py:47 | the text after the last "_" of an id parses back to the counter |
| Memory.SessionIdsDistinct | memory_manager.py:45-49 | ids drawn with different counter values differ, whatever the users |
| Memory.SessionIds | memory_manager.py:37-49 | the i-th id an instance hands out is built from the counter value i |
| Memory.SessionIdsUnique | memory_manager.py:37-49 | one instance never hands out the same id twice |
| Memory.ConfigForThread | memory_manager.py:61 | the configuration's only entry is "configurable", holding only "thread_id", which is the thread id |
| Memory.ConfigForThreadInjective | memory_manager.py:61 | different threads get different configurations |
| Memory.GetTuple | memory_manager.py:76-77 | the checkpoint saver answers for the thread named in the configuration, None when it holds nothing for it |
| Memory.LastState | memory_manager.py:74-86 | None if and only if the thread has no checkpoint or the checkpoint saver raises; else the channel values, {} when there are none |
| Memory.PutThenLastState | memory_manager.py:74-86 | after a checkpoint write, the thread's last state is what was written, and other threads' last states are unchanged |
| Memory.PutReplaces | memory_manager.py:74-86 | after two writes to a thread, every thread's last state reads as if only the second had been made; that thread reads the second write |
| Memory.MemoryManager.constructor | memory_manager.py:15-28 | a new manager has the given path and checkpoint saver, and a counter at 0 |
| Memory.MemoryManager.CreateSession | memory_manager.py:37-49 | the id uses the counter before the call, the counter goes up by exactly 1, the id is new to the instance, nothing else changes |
| Memory.MemoryManager.GetLastState | memory_manager.py:63-86 | the last state of the thread in this manager's checkpoint saver |
| Memory.CreateSessionKeepsState | memory_manager.py:37-49 | creating a session leaves every thread's last state as it was |
| Memory.SessionIdsRepeatAcrossInstances | memory_manager.py:28-48 | two distinct managers over the same checkpoints hand out the same first id, and that id reads the same last state in both |
| Memory.MemoryManagerHolder.GetInstance | memory_manager.py:30-35 | the first call creates a manager over "checkpoints.db" with its counter at 0, later calls return that same instance; the instance is always a well-formed manager |
| Memory.CreateSessionThroughInstance | memory_manager.py:98-100 | `get_memory_manager().create_session(user)` gives id counter 0 when it creates the manager, otherwise the instance's current counter, which goes up by 1 |
| Agent.Apply | agent_brain.py:50-55 | written channels take the written value, the others and the input keep theirs |
| Agent.SearchUniversityHistory | agent_brain.py:25-44 | searches with k = 4; the "No se encontró…" sentence if and only if nothing is found, else the prefix and the numbered context |
| Agent.ToolOutputStartsWithFirstChunk | agent_brain.py:35-44 | a non-empty tool output starts with the prefix, "[1] " and the first chunk |
| Agent.RunAgent | agent_brain.py:60-74 | the update writes only the intermediate steps: the model's decision on the input |
| Agent.ShouldContinue | agent_brain.py:121-133 | "call_tool" if and only if the first step has tool calls, "respond" otherwise |
| Agent.ExecuteTool | agent_brain.py:100-118 | the update writes only the context: the tool's output on the first call's "query" |
| Agent.ExecuteToolUsesFirstQuery | agent_brain.py:104-110 | states with the same first query give the same update |
| Agent.SystemPrompt | agent_brain.py:84-91 | the prompt is the fixed instructions, the context heading, a newline and the context |
| Agent.SystemPromptInjective | agent_brain.py:84-91 | different contexts give different prompts |
| Agent.GenerateResponse | agent_brain.py:77-97 | the update writes only the chat history: one model message with the answer under the context's prompt |
| Agent.RouteTarget | agent_brain.py:148-155 | "call_tool" leads to the tool node, "respond" to the responder |
| Agent.Next | agent_brain.py:145-161 | "agent" goes where the route says, "call_tool" to "respond", "respond" to END; every edge lowers the rank |
| Agent.Step | agent_brain.py:137-161 | one step applies the node's update and follows its edge |
| Agent.Execute | agent_brain.py:137-164 | a run from a node visits it first and ends after at most its rank of steps |
| Agent.ExecuteRespondsOnce | agent_brain.py:158-161 | every run from a node other than END visits "respond" exactly once, as its last node |
| Agent.Run | agent_brain.py:145-164 | a run starts at "agent" |
| Agent.RunTrace | agent_brain.py:145-161 | a run is "agent, call_tool, respond" when the model asks for a tool call and "agent, respond" otherwise |
| Agent.RunShape | agent_brain.py:145-161 | the tool runs if and only if `should_continue` routes to it; a run visits at most three nodes, "respond" once and last |
| Agent.RunFinalState | agent_brain.py:60-161 | the final state keeps the input, holds the decision, the tool's output (or the given context) and, as chat history, only the one generated answer |

## Left out

- Embeddings, the FAISS index and its similarity ranking are left out: the index is an abstract function from query to ranked chunks.
- The language-model calls are uninterpreted functions (`Agent.Llm`); the tool-binding and the system-prompt binding are not modelled.
- The SQLite connection and `SqliteSaver` are left out: the checkpoint saver is an abstract map. `workflow.compile()` at agent_brain.py:164 gets no checkpoint saver, and neither agent_brain.py nor main.py calls `get_saver`, so nothing writes a checkpoint. `Memory.Put` stands for the write a graph compiled with the saver would make; it is the partner `get_last_state` is stated against. `get_saver` only returns the saver and is not modelled.
- `datetime.now()` and `os.path.exists` are parameters (`processedDate`, `fileExists`).
- The console prints, the `__main__` test blocks and the `test_agent` helper are left out. The error message of `validate_file` is not modelled.
- `main.py` (HTTP routing) and `frontend/script.js` are not part of this model. Neither are the ingestion scripts and the test files.
- Case mapping and `capitalize` are ASCII only; `os.path.basename` is the posix `/` form.
- Metadata values are `None`, strings and integers only. A checkpoint's channel values are kept as such a dictionary, not as the graph's message lists.
- Python exceptions are preconditions. A truthy non-string `file_name` or `source` is excluded, as is an intermediate step that is not a model message. So is a tool call without "query", and a call to `should_continue` with no intermediate step.
- Rag.RagManager.constructor: a failing load raises in the source; the model has no such failure, only a loaded index.
- Metadata.FormatSourceList: the `if not sources` fallback cannot be reached for a non-empty list and is not modelled separately.
- Ingest.AddChunkMetadata: the documents are values in an array, so two list entries sharing one metadata dictionary object (aliasing) are not modelled.
- Memory.MemoryManager.CreateSession: the counter's concurrent use from several threads (`check_same_thread=False`) is not modelled.
- Agent.Execute: a state missing the "context" key (a KeyError in "respond") is not modelled; the state always has the four channels.

## Findings

| source | as written | input that shows it | evidently intended | confidence | as-written member | corrected member |
|---|---|---|---|---|---|---|
| ingest_utils.py:174 | the path only has to end with the type's letters, in any case | an existing file "informePDF" with type "PDF" is accepted | the message on line 175 expects the extension "." + type, so the path should end with "." and the type | not executed | Ingest.ValidateFileAcceptsNameWithoutDot | Ingest.ValidateFileExtension |
