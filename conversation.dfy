/** Conversation state as LangGraph's `MessagesState` holds it: an ordered
    history of messages, extended only by appending. */
module Conversation {

  /** `HumanMessage` / `{"role": "user"}` is User, `AIMessage` is Assistant,
      `{"role": "system"}` is System. */
  datatype Role = System | User | Assistant

  /** A history entry.  Every message object the program builds has a
      `content`; `Raw` stands for an entry without that attribute, known only
      by its string form `str(entry)`. */
  datatype Message = Message(role: Role, content: string) | Raw(text: string)

  type History = seq<Message>

  /** The Python exceptions the deterministic code can raise:
      `[-1]` of an empty list, `.content` of an entry that has none, and a
      missing `"next"` key at the conditional edge. */
  datatype Fault = IndexError | AttributeError | KeyError

  datatype Result<T> = Ok(value: T) | Err(fault: Fault)

  /** `m.content if hasattr(m, "content") else str(m)`. */
  function Text(m: Message): string {
    match m
    case Message(_, c) => c
    case Raw(t) => t
  }

  /** Text of the last entry, by `messages[-1]`. */
  function LastText(h: History): (r: Result<string>)
    ensures r.Err? <==> |h| == 0
    ensures r.Err? ==> r.fault == IndexError
    ensures r.Ok? ==> r.value == Text(h[|h| - 1])
  {
    if |h| == 0 then Err(IndexError) else Ok(Text(h[|h| - 1]))
  }

  /** `isinstance(m, AIMessage)`. */
  predicate IsAiMessage(m: Message) {
    m.Message? && m.role == Assistant
  }

  predicate EndsWithUser(h: History) {
    |h| > 0 && h[|h| - 1].Message? && h[|h| - 1].role == User
  }

  /** The `MessagesState` reducer: a node's returned messages are appended. */
  function Reduce(h: History, added: seq<Message>): (r: History)
    ensures |r| == |h| + |added|
    ensures r[..|h|] == h && r[|h|..] == added
  {
    h + added
  }

  /** Contents of the messages with role `role`, in history order. */
  function ContentsOf(h: History, role: Role): seq<string>
    decreases |h|
  {
    if |h| == 0 then []
    else
      var m := h[|h| - 1];
      ContentsOf(h[..|h| - 1], role) + (if m.Message? && m.role == role then [m.content] else [])
  }

  lemma {:induction false} ContentsOfAppend(a: History, b: History, role: Role)
    ensures ContentsOf(a + b, role) == ContentsOf(a, role) + ContentsOf(b, role)
    decreases |b|
  {
    if |b| == 0 {
      assert a + b == a;
    } else {
      assert (a + b)[..|a + b| - 1] == a + b[..|b| - 1];
      ContentsOfAppend(a, b[..|b| - 1], role);
    }
  }
}
