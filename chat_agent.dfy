/** `chat_agent_node`: a single-turn passthrough to the chat model. */
module ChatAgent {
  import opened Conversation

  /** The chat model behind `llm.invoke`: a prompt of messages to the reply's
      `content`. */
  type Llm = History -> string

  /** The one-element prompt `[{"role": "user", "content": text}]`. */
  function Prompt(text: string): History {
    [Message(User, text)]
  }

  /** Reads the last entry (its content, or its string form), sends it alone
      as a user prompt, and returns the reply wrapped as one AIMessage. */
  function ChatAgentNode(h: History, llm: Llm): (r: Result<seq<Message>>)
    ensures r.Err? <==> |h| == 0
    ensures r.Err? ==> r.fault == IndexError
    ensures r.Ok? ==> |r.value| == 1 && IsAiMessage(r.value[0])
    ensures r.Ok? ==> r.value[0].content == llm([Message(User, Text(h[|h| - 1]))])
  {
    match LastText(h)
    case Err(f) => Err(f)
    case Ok(text) => Ok([Message(Assistant, llm(Prompt(text)))])
  }

  /** Earlier history is ignored: two histories that end alike get the same
      reply, whatever came before. */
  lemma ChatIgnoresEarlier(a: History, b: History, last: Message, llm: Llm)
    ensures ChatAgentNode(a + [last], llm) == ChatAgentNode(b + [last], llm)
  {
    assert (a + [last])[|a|] == last;
    assert (b + [last])[|b|] == last;
  }
}
