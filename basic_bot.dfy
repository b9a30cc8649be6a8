/** `agents/basic.py`: a one-node graph START -> llm_chat -> END whose node
    prepends a system prompt to an empty history, and the console loop
    around it. */
module BasicBot {
  import opened Conversation
  import opened ChatAgent
  import Cli

  const SystemPrompt: Message :=
    Message(System, "You are a helpful, friendly assistant. Answer clearly and concisely.")

  /** The messages `llm_chat_node` sends: the system prompt alone when the
      history is empty, the history unchanged otherwise.  The test is for
      emptiness, not for a system prompt already being there. */
  function LlmInput(h: History): History {
    if |h| == 0 then [SystemPrompt] + h else h
  }

  lemma LlmInputSpec(h: History)
    ensures |h| == 0 ==> LlmInput(h) == [SystemPrompt]
    ensures |h| > 0 ==> LlmInput(h) == h
    ensures SystemPrompt in LlmInput(h) <==> |h| == 0 || SystemPrompt in h
  {
  }

  /** `llm_chat_node`: one reply, `llm.invoke(messages)`, as an AIMessage. */
  function LlmChatNode(h: History, llm: Llm): (r: seq<Message>)
    ensures |r| == 1 && IsAiMessage(r[0])
    ensures r[0].content == llm(if |h| == 0 then [SystemPrompt] else h)
  {
    assert |h| == 0 ==> [SystemPrompt] + h == [SystemPrompt];
    [Message(Assistant, llm(LlmInput(h)))]
  }

  datatype Node = Start | LlmChat | End

  datatype Run = Run(path: seq<Node>, messages: History)

  function Rank(n: Node): nat {
    match n
    case Start => 2
    case LlmChat => 1
    case End => 0
  }

  /** The two edges START -> llm_chat -> END. */
  function Successor(n: Node): (m: Node)
    requires n != End
    ensures Rank(m) < Rank(n)
  {
    match n
    case Start => LlmChat
    case LlmChat => End
  }

  /** Runs node `n` and appends its update to the messages. */
  function Execute(n: Node, h: History, llm: Llm): History
    requires n != End
  {
    match n
    case Start => h
    case LlmChat => Reduce(h, LlmChatNode(h, llm))
  }

  function Walk(n: Node, h: History, llm: Llm): Run
    decreases Rank(n)
  {
    if n == End then Run([End], h)
    else
      var h1 := Execute(n, h, llm);
      var run := Walk(Successor(n), h1, llm);
      Run([n] + run.path, run.messages)
  }

  /** `graph.invoke({"messages": h})`. */
  function Invoke(h: History, llm: Llm): Run {
    Walk(Start, h, llm)
  }

  /** One pass is the single path START, llm_chat, END, and appends exactly
      the model's one reply to the history. */
  lemma InvokeSpec(h: History, llm: Llm)
    ensures Invoke(h, llm).path == [Start, LlmChat, End]
    ensures Invoke(h, llm).messages == h + [Message(Assistant, llm(LlmInput(h)))]
  {
    var h1 := h + [Message(Assistant, llm(LlmInput(h)))];
    assert Walk(End, h1, llm) == Run([End], h1);
    assert Walk(LlmChat, h, llm) == Run([LlmChat] + [End], h1);
    assert [Start] + ([LlmChat] + [End]) == [Start, LlmChat, End];
  }

  /** The loop's view of a pass; `llm_chat_node` never raises. */
  function BasicInvoker(llm: Llm): Cli.Invoker {
    h => Ok(Invoke(h, llm).messages)
  }

  /** From the loop the node always receives a non-empty history, so the
      system-prompt branch is never taken and the model sees the history as
      it stands, ending in the user's line. */
  lemma LoopSkipsSystemPrompt(h: History, line: string, llm: Llm)
    ensures LlmInput(h + [Message(User, line)]) == h + [Message(User, line)]
    ensures Invoke(h + [Message(User, line)], llm).messages ==
      h + [Message(User, line), Message(Assistant, llm(h + [Message(User, line)]))]
  {
    InvokeSpec(h + [Message(User, line)], llm);
  }

  lemma BasicAnswersOnce(llm: Llm)
    ensures Cli.AnswersOnce(BasicInvoker(llm))
  {
    forall h: History | EndsWithUser(h)
      ensures BasicInvoker(llm)(h).Ok? && Cli.Answered(h, BasicInvoker(llm)(h).value)
    {
      InvokeSpec(h, llm);
    }
  }

  /** A history of user lines and replies holds no system message. */
  lemma ExchangesLackSystemPrompt(h: History)
    requires Cli.Exchanges(h)
    ensures SystemPrompt !in h
  {
  }

  /** What the loop does over this graph, from the empty history. */
  lemma BasicSession(inputs: seq<string>, llm: Llm)
    ensures var o := Cli.Session(BasicInvoker(llm), [], inputs);
      o.ending == (if Cli.Taken(inputs) == inputs then Cli.EndOfInput else Cli.Exited) &&
      (o.ending == Cli.Exited ==> Cli.EndsWithGoodbye(o.printed)) &&
      Cli.Exchanges(o.history) && |o.history| == 2 * |Cli.Taken(inputs)| &&
      ContentsOf(o.history, User) == Cli.Taken(inputs) &&
      SystemPrompt !in o.history
  {
    var invoke := BasicInvoker(llm);
    BasicAnswersOnce(llm);
    var e: History := [];
    Cli.SessionEnding(invoke, e, inputs);
    Cli.SessionHistory(invoke, e, inputs);
    Cli.SessionUserLines(invoke, e, inputs);
    Cli.SessionGoodbye(invoke, e, inputs);
    ExchangesLackSystemPrompt(Cli.Session(invoke, e, inputs).history);
  }

  /** The console session of `agents/basic.py`: it never raises, stops at the
      first exit line after printing "Goodbye!", leaves a history that
      alternates the lines sent and the replies, and the system prompt never
      enters that history. */
  method RunCli(inputs: seq<string>, llm: Llm) returns (o: Cli.Outcome)
    ensures o == Cli.Session(BasicInvoker(llm), [], inputs)
    ensures o.ending == (if Cli.Taken(inputs) == inputs then Cli.EndOfInput else Cli.Exited)
    ensures o.ending == Cli.Exited ==> Cli.EndsWithGoodbye(o.printed)
    ensures Cli.Exchanges(o.history) && |o.history| == 2 * |Cli.Taken(inputs)|
    ensures ContentsOf(o.history, User) == Cli.Taken(inputs)
    ensures SystemPrompt !in o.history
  {
    o := Cli.ChatLoop(BasicInvoker(llm), inputs);
    BasicSession(inputs, llm);
  }
}
