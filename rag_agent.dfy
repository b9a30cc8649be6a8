/** `rag_agent_node`, reduced to what the graph sees of it: the index and its
    query engine are built outside the model, so the engine is a parameter. */
module RagAgent {
  import opened Conversation

  /** `str(query_engine.query(q))`. */
  type QueryEngine = string -> string

  /** Queries the engine with the last entry's text and returns the answer
      wrapped as one AIMessage. */
  function RagAgentNode(h: History, query: QueryEngine): (r: Result<seq<Message>>)
    ensures r.Err? <==> |h| == 0
    ensures r.Err? ==> r.fault == IndexError
    ensures r.Ok? ==> |r.value| == 1 && IsAiMessage(r.value[0])
    ensures r.Ok? ==> r.value[0].content == query(Text(h[|h| - 1]))
  {
    match LastText(h)
    case Err(f) => Err(f)
    case Ok(text) => Ok([Message(Assistant, query(text))])
  }
}
