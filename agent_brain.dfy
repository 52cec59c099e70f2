/** The agent graph: the search tool over the retrieval manager, the three
    nodes and their state updates, the routing predicate and the fixed
    transition relation `agent -> call_tool | respond`, `call_tool ->
    respond`, `respond -> END`. The language model is a pair of
    uninterpreted functions. */
module Agent {
  import opened Strings
  import opened Documents
  import Rag

  /** `k=4` in the tool's search. */
  const TOOL_K: int := 4
  const NO_INFO := "No se encontró " + "información relevante en los documentos de la universidad."
  const CONTEXT_PREFIX := "Contexto recuperado de la universidad: "

  /** The fixed instructions of the responder, up to the context heading. */
  const PROMPT_INSTRUCTIONS :=
    "Eres un chatbot experto en la historia y reglamentos de la Universidad de Oriente (Santiago de Cuba). "
    + "Tu misión es responder las preguntas del usuario de forma precisa y profesional. "
    + "Utiliza EXCLUSIVAMENTE el siguiente contexto recuperado de los documentos de la universidad (si existe) para formular tu respuesta. "
    + "Si el contexto está vacío o no es relevante, responde de forma educada que no tienes la información disponible en tu base de datos."
  const CONTEXT_HEADING := "\n\n--- CONTEXTO DE LOS DOCUMENTOS ---"

  /** A tool call the model asks for: the tool's name and its arguments. */
  datatype ToolCall = ToolCall(name: string, args: map<string, string>)

  /** The messages of a conversation. */
  datatype Message =
    | Human(content: string)
    | AI(content: string, toolCalls: seq<ToolCall>)

  /** `AgentState`: the four channels of the graph. */
  datatype AgentState = AgentState(
    input: string,
    chatHistory: seq<Message>,
    intermediateSteps: seq<Message>,
    context: string)

  /** A node's return value: the channels it writes. A channel without
      reducer is overwritten by the value written to it. */
  datatype Update = Update(
    intermediateSteps: Option<seq<Message>>,
    chatHistory: Option<seq<Message>>,
    context: Option<string>)

  /** The model: `decide` is the tool-bound call on the user input, and
      `answer` is the call with a system prompt on the user input. */
  datatype Llm = Llm(decide: string -> Message, answer: (string, string) -> string)

  /** The keys of an update dictionary. */
  function UpdateKeys(u: Update): (keys: set<string>)
    ensures "intermediate_steps" in keys <==> u.intermediateSteps.Some?
    ensures "chat_history" in keys <==> u.chatHistory.Some?
    ensures "context" in keys <==> u.context.Some?
    ensures "input" !in keys
  {
    (if u.intermediateSteps.Some? then {"intermediate_steps"} else {})
    + (if u.chatHistory.Some? then {"chat_history"} else {})
    + (if u.context.Some? then {"context"} else {})
  }

  /** The state after a node's update: written channels take the written
      value, the others keep theirs. */
  function Apply(s: AgentState, u: Update): (r: AgentState)
    ensures r.input == s.input
    ensures u.intermediateSteps.None? ==> r.intermediateSteps == s.intermediateSteps
    ensures u.chatHistory.None? ==> r.chatHistory == s.chatHistory
    ensures u.context.None? ==> r.context == s.context
    ensures u.intermediateSteps.Some? ==> r.intermediateSteps == u.intermediateSteps.value
    ensures u.chatHistory.Some? ==> r.chatHistory == u.chatHistory.value
    ensures u.context.Some? ==> r.context == u.context.value
  {
    AgentState(
      s.input,
      if u.chatHistory.Some? then u.chatHistory.value else s.chatHistory,
      if u.intermediateSteps.Some? then u.intermediateSteps.value else s.intermediateSteps,
      if u.context.Some? then u.context.value else s.context)
  }

  // ---------------------------------------------------------------------------
  // The search tool

  /** `search_university_history(query)`: the four best chunks for the
      query; the fixed "nothing found" sentence exactly when there are
      none, otherwise the numbered context after its prefix. */
  function SearchUniversityHistory(rag: Rag.RagManager, query: string): (output: string)
    reads rag
    ensures output == NO_INFO <==> rag.Search(query, TOOL_K) == []
    ensures rag.Search(query, TOOL_K) != [] ==>
      output == CONTEXT_PREFIX + Rag.ContextOf(rag.Search(query, TOOL_K))
    ensures |rag.Search(query, TOOL_K)| <= TOOL_K
  {
    var docs := rag.Search(query, TOOL_K);
    var context := Rag.ContextOf(docs);
    Rag.ContextShape(docs);
    if context == "" then NO_INFO
    else
      assert (CONTEXT_PREFIX + context)[0] == 'C' && NO_INFO[0] == 'N';
      CONTEXT_PREFIX + context
  }

  /** The tool's output names the first retrieved chunk whenever there is
      one: it starts with the prefix, "[1] " and that chunk's text. */
  lemma ToolOutputStartsWithFirstChunk(rag: Rag.RagManager, query: string)
    requires rag.Search(query, TOOL_K) != []
    ensures StartsWith(SearchUniversityHistory(rag, query),
                       CONTEXT_PREFIX + "[1] " + rag.Search(query, TOOL_K)[0].pageContent)
  {
    var docs := rag.Search(query, TOOL_K);
    var p := "[1] " + docs[0].pageContent;
    Rag.ContextShape(docs);
    StartsWithPrepend(CONTEXT_PREFIX, Rag.ContextOf(docs), p);
    assert CONTEXT_PREFIX + "[1] " + docs[0].pageContent == CONTEXT_PREFIX + p;
  }

  // ---------------------------------------------------------------------------
  // The nodes

  /** `run_agent(state)`: the model's decision on the input, as the only
      intermediate step. */
  function RunAgent(llm: Llm, s: AgentState): (u: Update)
    ensures UpdateKeys(u) == {"intermediate_steps"}
    ensures u.intermediateSteps == Some([llm.decide(s.input)])
  {
    Update(Some([llm.decide(s.input)]), None, None)
  }

  /** What `should_continue` needs: a first intermediate step that is a
      model message. */
  predicate CanRoute(s: AgentState)
  {
    |s.intermediateSteps| >= 1 && s.intermediateSteps[0].AI?
  }

  /** `should_continue(state)`: "call_tool" exactly when the first
      intermediate step asks for tool calls, "respond" otherwise. */
  function ShouldContinue(s: AgentState): (route: string)
    requires CanRoute(s)
    ensures route == "call_tool" || route == "respond"
    ensures route == "call_tool" <==> s.intermediateSteps[0].toolCalls != []
  {
    if s.intermediateSteps[0].toolCalls != [] then "call_tool" else "respond"
  }

  /** What `execute_tool` needs: a first tool call with a "query" argument. */
  predicate CanCallTool(s: AgentState)
  {
    && CanRoute(s)
    && |s.intermediateSteps[0].toolCalls| >= 1
    && "query" in s.intermediateSteps[0].toolCalls[0].args
  }

  /** The query of the first tool call of the first intermediate step. */
  function ToolQuery(s: AgentState): string
    requires CanCallTool(s)
  {
    s.intermediateSteps[0].toolCalls[0].args["query"]
  }

  /** `execute_tool(state)`: the tool run on the first call's query; the
      update writes the context and nothing else. */
  function ExecuteTool(rag: Rag.RagManager, s: AgentState): (u: Update)
    requires CanCallTool(s)
    reads rag
    ensures UpdateKeys(u) == {"context"}
    ensures u.context == Some(SearchUniversityHistory(rag, ToolQuery(s)))
  {
    var toolCalls := s.intermediateSteps[0].toolCalls;
    var toolInput := toolCalls[0].args["query"];
    Update(None, None, Some(SearchUniversityHistory(rag, toolInput)))
  }

  /** Only the first call's "query" matters: the tool's name, its other
      arguments, the later calls and the later steps are ignored. */
  lemma ExecuteToolUsesFirstQuery(rag: Rag.RagManager, s: AgentState, t: AgentState)
    requires CanCallTool(s) && CanCallTool(t)
    requires ToolQuery(s) == ToolQuery(t)
    ensures ExecuteTool(rag, s) == ExecuteTool(rag, t)
  {
  }

  /** The responder's system prompt around a context. */
  function SystemPrompt(context: string): (prompt: string)
    ensures StartsWith(prompt, PROMPT_INSTRUCTIONS + CONTEXT_HEADING + "\n")
    ensures EndsWith(prompt, context)
  {
    PROMPT_INSTRUCTIONS + CONTEXT_HEADING + "\n" + context
  }

  /** Different contexts give different prompts: the context is recovered
      from the prompt by dropping the fixed head. */
  lemma SystemPromptInjective(c1: string, c2: string)
    requires SystemPrompt(c1) == SystemPrompt(c2)
    ensures c1 == c2
  {
    var n := |PROMPT_INSTRUCTIONS + CONTEXT_HEADING + "\n"|;
    assert SystemPrompt(c1)[n..] == c1;
    assert SystemPrompt(c2)[n..] == c2;
  }

  /** `generate_response(state)`: the model's answer to the input under the
      prompt built from the context; the update writes the chat history,
      and only it, as one model message. */
  function GenerateResponse(llm: Llm, s: AgentState): (u: Update)
    ensures UpdateKeys(u) == {"chat_history"}
    ensures u.chatHistory == Some([AI(llm.answer(SystemPrompt(s.context), s.input), [])])
  {
    var finalResponse := llm.answer(SystemPrompt(s.context), s.input);
    Update(None, Some([AI(finalResponse, [])]), None)
  }

  // ---------------------------------------------------------------------------
  // The graph

  datatype Node = AgentNode | CallToolNode | RespondNode | EndNode

  /** `set_entry_point("agent")`. */
  const ENTRY := AgentNode

  /** The conditional edges out of "agent": "call_tool" leads to the tool
      node, "respond" to the responder. */
  function RouteTarget(route: string): (n: Node)
    requires route == "call_tool" || route == "respond"
    ensures n == CallToolNode <==> route == "call_tool"
    ensures n == RespondNode <==> route == "respond"
  {
    if route == "call_tool" then CallToolNode else RespondNode
  }

  /** Steps still possible from a node; every edge lowers it. */
  function Rank(n: Node): nat
  {
    match n
    case AgentNode => 3
    case CallToolNode => 2
    case RespondNode => 1
    case EndNode => 0
  }

  /** The successor of a node, given the route `should_continue` chose
      (used only out of "agent"). */
  function Next(n: Node, route: string): (m: Node)
    requires n != EndNode
    requires n == AgentNode ==> route == "call_tool" || route == "respond"
    ensures Rank(m) < Rank(n)
    ensures n == AgentNode ==> m == RouteTarget(route)
    ensures n == CallToolNode ==> m == RespondNode
    ensures n == RespondNode ==> m == EndNode
  {
    match n
    case AgentNode => RouteTarget(route)
    case CallToolNode => RespondNode
    case RespondNode => EndNode
  }

  /** What the source needs of the model's decision: a model message
      whose first tool call, if there is one, carries a "query". */
  predicate WellFormedDecision(d: Message)
  {
    d.AI? && (d.toolCalls != [] ==> "query" in d.toolCalls[0].args)
  }

  /** What a run from `n` needs: a well-formed decision when it starts at
      "agent", a callable tool when it starts at "call_tool". */
  predicate Runnable(llm: Llm, n: Node, s: AgentState)
  {
    && (n == AgentNode ==> WellFormedDecision(llm.decide(s.input)))
    && (n == CallToolNode ==> CanCallTool(s))
  }

  /** One step of the compiled graph from a node other than END: the node's
      update applied to the state, and the node the edges lead to next. */
  function Step(llm: Llm, rag: Rag.RagManager, n: Node, s: AgentState): (next: (Node, AgentState))
    requires n != EndNode && Runnable(llm, n, s)
    reads rag
    ensures Rank(next.0) < Rank(n)
    ensures Runnable(llm, next.0, next.1)
    ensures n == AgentNode ==>
      next.1 == Apply(s, RunAgent(llm, s)) && next.0 == RouteTarget(ShouldContinue(next.1))
    ensures n == CallToolNode ==> next == (RespondNode, Apply(s, ExecuteTool(rag, s)))
    ensures n == RespondNode ==> next == (EndNode, Apply(s, GenerateResponse(llm, s)))
  {
    match n
    case AgentNode =>
      var s' := Apply(s, RunAgent(llm, s));
      (Next(AgentNode, ShouldContinue(s')), s')
    case CallToolNode => (Next(CallToolNode, ""), Apply(s, ExecuteTool(rag, s)))
    case RespondNode => (Next(RespondNode, ""), Apply(s, GenerateResponse(llm, s)))
  }

  /** A run of the compiled graph from node `n`: the nodes visited before
      END, in order, and the final state; it takes at most as many steps as
      the node's rank. */
  function Execute(llm: Llm, rag: Rag.RagManager, n: Node, s: AgentState): (run: (seq<Node>, AgentState))
    requires Runnable(llm, n, s)
    reads rag
    ensures n == EndNode <==> run.0 == []
    ensures n != EndNode ==> run.0[0] == n
    ensures |run.0| <= Rank(n)
    decreases Rank(n)
  {
    if n == EndNode then ([], s)
    else
      var next := Step(llm, rag, n, s);
      var rest := Execute(llm, rag, next.0, next.1);
      ([n] + rest.0, rest.1)
  }

  /** Every run from a node other than END passes "respond" exactly once,
      and "respond" is the last node before END. */
  lemma {:induction false} ExecuteRespondsOnce(llm: Llm, rag: Rag.RagManager, n: Node, s: AgentState)
    requires Runnable(llm, n, s) && n != EndNode
    ensures var trace := Execute(llm, rag, n, s).0;
      && Last(trace) == RespondNode
      && multiset(trace)[RespondNode] == 1
    decreases Rank(n)
  {
    var next := Step(llm, rag, n, s);
    var rest := Execute(llm, rag, next.0, next.1).0;
    assert Execute(llm, rag, n, s).0 == [n] + rest;
    if n == RespondNode {
      assert rest == [];
      assert [n] + rest == [RespondNode];
    } else {
      ExecuteRespondsOnce(llm, rag, next.0, next.1);
      ConsLastAndCount(n, rest, RespondNode);
    }
  }

  /** Putting an element other than `y` in front keeps the last element
      and the number of `y`s. */
  lemma ConsLastAndCount<T>(x: T, xs: seq<T>, y: T)
    requires xs != [] && x != y
    ensures Last([x] + xs) == Last(xs)
    ensures multiset([x] + xs)[y] == multiset(xs)[y]
  {
    assert multiset([x] + xs) == multiset{x} + multiset(xs);
  }

  /** `app.invoke(state)`: a run from the entry point. */
  function Run(llm: Llm, rag: Rag.RagManager, s: AgentState): (run: (seq<Node>, AgentState))
    requires WellFormedDecision(llm.decide(s.input))
    reads rag
    ensures run.0 != [] && run.0[0] == ENTRY
  {
    Execute(llm, rag, ENTRY, s)
  }

  /** The two runs of the graph: "agent, call_tool, respond" when the model
      asks for a tool call, "agent, respond" otherwise. */
  lemma RunTrace(llm: Llm, rag: Rag.RagManager, s: AgentState)
    requires WellFormedDecision(llm.decide(s.input))
    ensures Run(llm, rag, s).0 ==
      if llm.decide(s.input).toolCalls != [] then [AgentNode, CallToolNode, RespondNode]
      else [AgentNode, RespondNode]
  {
    var s1 := Apply(s, RunAgent(llm, s));
    if llm.decide(s.input).toolCalls != [] {
      var s2 := Apply(s1, ExecuteTool(rag, s1));
      assert Execute(llm, rag, RespondNode, s2).0 == [RespondNode];
      assert Execute(llm, rag, CallToolNode, s1).0 == [CallToolNode, RespondNode];
    } else {
      assert Execute(llm, rag, RespondNode, s1).0 == [RespondNode];
    }
  }

  /** The tool runs exactly when `should_continue` routes to it, and a run
      visits at most three nodes, "respond" once and last. */
  lemma RunShape(llm: Llm, rag: Rag.RagManager, s: AgentState)
    requires WellFormedDecision(llm.decide(s.input))
    ensures var trace := Run(llm, rag, s).0;
      var routed := Apply(s, RunAgent(llm, s));
      && CanRoute(routed)
      && (CallToolNode in trace <==> ShouldContinue(routed) == "call_tool")
      && |trace| <= 3
      && Last(trace) == RespondNode
      && multiset(trace)[RespondNode] == 1
  {
    var routed := Apply(s, RunAgent(llm, s));
    assert routed.intermediateSteps == [llm.decide(s.input)];
    RunTrace(llm, rag, s);
    ExecuteRespondsOnce(llm, rag, ENTRY, s);
  }

  /** The state a run ends in: the input as given, the decision as the only
      intermediate step, the tool's output on the first call's query as
      context when the model asked for a tool (the given context
      otherwise), and as chat history only the one answer generated from
      that context; whatever history the run started with is replaced. */
  lemma RunFinalState(llm: Llm, rag: Rag.RagManager, s: AgentState)
    requires WellFormedDecision(llm.decide(s.input))
    ensures var final := Run(llm, rag, s).1;
      var d := llm.decide(s.input);
      && final.input == s.input
      && final.intermediateSteps == [d]
      && (d.toolCalls != [] ==>
            final.context == SearchUniversityHistory(rag, d.toolCalls[0].args["query"]))
      && (d.toolCalls == [] ==> final.context == s.context)
      && final.chatHistory == [AI(llm.answer(SystemPrompt(final.context), s.input), [])]
  {
    var s1 := Apply(s, RunAgent(llm, s));
    if llm.decide(s.input).toolCalls != [] {
      var s2 := Apply(s1, ExecuteTool(rag, s1));
      assert ToolQuery(s1) == llm.decide(s.input).toolCalls[0].args["query"];
      var s3 := Apply(s2, GenerateResponse(llm, s2));
      assert Execute(llm, rag, RespondNode, s2).1 == s3;
      assert Execute(llm, rag, CallToolNode, s1).1 == s3;
    } else {
      var s3 := Apply(s1, GenerateResponse(llm, s1));
      assert Execute(llm, rag, RespondNode, s1).1 == s3;
    }
  }
}
