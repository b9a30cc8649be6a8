/** `main.py`: the super-agent graph START -> super_agent -> (chat_agent |
    rag_agent) -> END, and the console loop around it. */
module MainApp {
  import opened Conversation
  import opened SuperAgent
  import opened ChatAgent
  import opened RagAgent
  import Cli

  /** The graph's nodes; a handler node carries the decision that names it. */
  datatype Node = Start | SuperAgentNode | Handler(agent: Agent) | End

  /** The graph state: the messages, and the `"next"` key once the router has
      set it. */
  datatype State = State(messages: History, next: Option<Agent>)

  datatype Option<T> = None | Some(value: T)

  /** The trace of one pass and its final messages. */
  datatype Run = Run(path: seq<Node>, messages: History)

  /** Distance to END along the graph's edges. */
  function Rank(n: Node): nat {
    match n
    case Start => 3
    case SuperAgentNode => 2
    case Handler(_) => 1
    case End => 0
  }

  /** The edges: START to the router, the conditional edge
      `lambda state: state["next"]` from the router, and each handler to END.
      Every edge lowers the rank, so the graph has no cycle, and both handlers
      go straight to END. */
  function Successor(n: Node, s: State): (r: Result<Node>)
    requires n != End
    ensures r.Ok? ==> Rank(r.value) < Rank(n)
    ensures n.Handler? ==> r == Ok(End)
    ensures n == SuperAgentNode && s.next.Some? ==> r == Ok(Handler(s.next.value))
  {
    match n
    case Start => Ok(SuperAgentNode)
    case SuperAgentNode =>
      (match s.next
       case Some(a) => Ok(Handler(a))
       case None => Err(KeyError))
    case Handler(_) => Ok(End)
  }

  /** The node function behind each handler. */
  function Handle(a: Agent, h: History, llm: Llm, query: QueryEngine): Result<seq<Message>> {
    match a
    case ChatAgent => ChatAgentNode(h, llm)
    case RagAgent => RagAgentNode(h, query)
  }

  /** Runs node `n` on the state and folds its update in: the router sets
      `"next"` and leaves the messages alone, a handler's messages are
      appended by the reducer. */
  function Execute(n: Node, s: State, llm: Llm, query: QueryEngine): Result<State>
    requires n != End
  {
    match n
    case Start => Ok(s)
    case SuperAgentNode =>
      (match Route(s.messages)
       case Err(f) => Err(f)
       case Ok(a) => Ok(State(s.messages, Some(a))))
    case Handler(a) =>
      (match Handle(a, s.messages, llm, query)
       case Err(f) => Err(f)
       case Ok(added) => Ok(State(Reduce(s.messages, added), s.next)))
  }

  /** Runs the compiled graph from node `n` until END. */
  function Walk(n: Node, s: State, llm: Llm, query: QueryEngine): Result<Run>
    decreases Rank(n)
  {
    if n == End then Ok(Run([End], s.messages))
    else
      match Execute(n, s, llm, query)
      case Err(f) => Err(f)
      case Ok(s1) =>
        match Successor(n, s1)
        case Err(f) => Err(f)
        case Ok(m) =>
          match Walk(m, s1, llm, query)
          case Err(f) => Err(f)
          case Ok(run) => Ok(Run([n] + run.path, run.messages))
  }

  /** `graph.invoke({"messages": h})`. */
  function Invoke(h: History, llm: Llm, query: QueryEngine): Result<Run> {
    Walk(Start, State(h, None), llm, query)
  }

  /** One pass runs the router, then exactly the handler it chose, then END;
      the messages grow by that handler's one reply.  The only exceptions are
      the router's, and a handler never fails once the router has succeeded. */
  lemma InvokeSpec(h: History, llm: Llm, query: QueryEngine)
    ensures Route(h).Err? ==> Invoke(h, llm, query) == Err(Route(h).fault)
    ensures Route(h).Ok? ==>
      var a := Route(h).value;
      Handle(a, h, llm, query).Ok? &&
      |Handle(a, h, llm, query).value| == 1 &&
      IsAiMessage(Handle(a, h, llm, query).value[0]) &&
      Invoke(h, llm, query) == Ok(Run([Start, SuperAgentNode, Handler(a), End], h + Handle(a, h, llm, query).value))
  {
    var s0 := State(h, None);
    if Route(h).Ok? {
      var a := Route(h).value;
      var s1 := State(h, Some(a));
      assert Execute(Start, s0, llm, query) == Ok(s0);
      assert Execute(SuperAgentNode, s0, llm, query) == Ok(s1);
      var out := Handle(a, h, llm, query);
      assert out.Ok?;
      var s2 := State(h + out.value, Some(a));
      assert Execute(Handler(a), s1, llm, query) == Ok(s2);
      assert Successor(Start, s0) == Ok(SuperAgentNode);
      assert Successor(SuperAgentNode, s1) == Ok(Handler(a));
      assert Successor(Handler(a), s2) == Ok(End);
      assert Walk(End, s2, llm, query) == Ok(Run([End], s2.messages));
      assert [Handler(a)] + [End] == [Handler(a), End];
      assert Walk(Handler(a), s1, llm, query) == Ok(Run([Handler(a), End], s2.messages));
      assert [SuperAgentNode] + [Handler(a), End] == [SuperAgentNode, Handler(a), End];
      assert Walk(SuperAgentNode, s0, llm, query) == Ok(Run([SuperAgentNode, Handler(a), End], s2.messages));
      assert [Start] + [SuperAgentNode, Handler(a), End] == [Start, SuperAgentNode, Handler(a), End];
    } else {
      assert Execute(SuperAgentNode, s0, llm, query) == Err(Route(h).fault);
    }
  }

  /** "hello" goes to the chat agent, whose model sees that one line alone
      and whose reply is appended. */
  lemma InvokeHello(llm: Llm, query: QueryEngine)
    ensures Invoke([Message(User, "hello")], llm, query) ==
      Ok(Run([Start, SuperAgentNode, Handler(ChatAgent), End],
             [Message(User, "hello"), Message(Assistant, llm([Message(User, "hello")]))]))
  {
    var h := [Message(User, "hello")];
    RouteHello();
    InvokeSpec(h, llm, query);
    var out := Handle(ChatAgent, h, llm, query);
    assert out == ChatAgentNode(h, llm);
    assert out.value == [Message(Assistant, llm([Message(User, "hello")]))];
    assert h + out.value == [Message(User, "hello"), Message(Assistant, llm([Message(User, "hello")]))];
  }

  /** The router node changes only `"next"`: running it again on its own
      result gives the same state, hence the same decision. */
  lemma RouterNodeIdempotent(s: State, llm: Llm, query: QueryEngine)
    ensures Execute(SuperAgentNode, s, llm, query).Ok? ==>
      var s1 := Execute(SuperAgentNode, s, llm, query).value;
      s1.messages == s.messages && s1.next.Some? &&
      Execute(SuperAgentNode, s1, llm, query) == Ok(s1)
  {
  }

  /** The loop's view of a pass: the result's messages. */
  function MainInvoker(llm: Llm, query: QueryEngine): Cli.Invoker {
    h => match Invoke(h, llm, query)
         case Err(f) => Err(f)
         case Ok(run) => Ok(run.messages)
  }

  /** From the loop the router always sees a history ending in the user's
      line, so every pass succeeds and adds exactly one AIMessage. */
  lemma MainAnswersOnce(llm: Llm, query: QueryEngine)
    ensures Cli.AnswersOnce(MainInvoker(llm, query))
  {
    forall h: History | EndsWithUser(h)
      ensures MainInvoker(llm, query)(h).Ok? && Cli.Answered(h, MainInvoker(llm, query)(h).value)
    {
      RouteSpec(h);
      InvokeSpec(h, llm, query);
    }
  }

  /** What the loop does over this graph, from the empty history. */
  lemma MainSession(inputs: seq<string>, llm: Llm, query: QueryEngine)
    ensures var o := Cli.Session(MainInvoker(llm, query), [], inputs);
      o.ending == (if Cli.Taken(inputs) == inputs then Cli.EndOfInput else Cli.Exited) &&
      (o.ending == Cli.Exited ==> Cli.EndsWithGoodbye(o.printed)) &&
      Cli.Exchanges(o.history) && |o.history| == 2 * |Cli.Taken(inputs)| &&
      ContentsOf(o.history, User) == Cli.Taken(inputs)
  {
    var invoke := MainInvoker(llm, query);
    MainAnswersOnce(llm, query);
    var e: History := [];
    Cli.SessionEnding(invoke, e, inputs);
    Cli.SessionHistory(invoke, e, inputs);
    Cli.SessionUserLines(invoke, e, inputs);
    Cli.SessionGoodbye(invoke, e, inputs);
  }

  /** The console session of `main.py`: it never raises, stops at the first
      exit line after printing "Goodbye!", and leaves a history that
      alternates the lines sent and the replies to them. */
  method RunCli(inputs: seq<string>, llm: Llm, query: QueryEngine) returns (o: Cli.Outcome)
    ensures o == Cli.Session(MainInvoker(llm, query), [], inputs)
    ensures o.ending == (if Cli.Taken(inputs) == inputs then Cli.EndOfInput else Cli.Exited)
    ensures o.ending == Cli.Exited ==> Cli.EndsWithGoodbye(o.printed)
    ensures Cli.Exchanges(o.history) && |o.history| == 2 * |Cli.Taken(inputs)|
    ensures ContentsOf(o.history, User) == Cli.Taken(inputs)
  {
    o := Cli.ChatLoop(MainInvoker(llm, query), inputs);
    MainSession(inputs, llm, query);
  }
}
