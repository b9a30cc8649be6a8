# Oracle chatbot: a Dafny model of its routing, graphs and console loops

The repository is a small LangGraph chatbot. This project models the deterministic
logic its files contain:

- the **intent router** `super_agent_router` (`agents/super_agent.py`). It lower-cases the
  content of the last message and picks `rag_agent` when `"find"`, `"search"` or
  `"tell me about"` occurs in it as a substring. Otherwise it picks `chat_agent`;
- the **chat handler** `chat_agent_node` (`agents/chat_agent.py`). It sends the last
  message's text alone, as a one-element user prompt, and wraps the reply as one AIMessage;
- the **retrieval handler** `rag_agent_node` (`agents/rag_agent.py`), as the graph sees it:
  the last message's text goes to a query engine and the answer comes back as one AIMessage;
- the **super-agent graph** of `main.py`: START → `super_agent` → (`chat_agent` |
  `rag_agent`) → END. It is walked node by node, with the `MessagesState` reducer
  appending each handler's messages;
- the **basic bot** of `agents/basic.py`: a one-node graph START → `llm_chat` → END whose
  node prepends a system prompt when, and only when, the history is empty;
- the **console loop** both programs run. It stops on a trimmed, case-insensitive `exit`
  and prints `Goodbye!`. Otherwise it appends the line as a user message, runs one graph
  pass, prints every AIMessage of the result and adopts the result as the history.

Modules: `PyStr` (`pystr.dfy`: Python's `lower()`, `strip()` and `in` on ASCII text),
`Conversation` (`conversation.dfy`: messages, history, the Python exceptions as `Fault`,
the reducer), `SuperAgent`, `ChatAgent`, `RagAgent`, `Cli` (`cli.dfy`: the loop as the
method `ChatLoop`, specified by the function `Session`), `MainApp` (`main_app.dfy`) and
`BasicBot` (`basic_bot.dfy`).

Exceptions the code can raise are modelled as `Err` values rather than preconditions:
`IndexError` for `[-1]` of an empty history, `AttributeError` for `.content` of an entry
that has none (the constructor `Raw`), and `KeyError` for a missing `"next"` at the
conditional edge. The chat model (`llm.invoke`) and the query engine are function-typed
parameters. Console input is the sequence of lines typed; console output is the sequence
of lines printed.

Two comments in the source disagree with the code, and the model follows the code.
`main.py:32` says only the latest reply is printed, but lines 34-36 print every AIMessage
of the whole history on every turn (`Cli.ReprintsEarlierReplies`). `agents/basic.py:29`
says the system prompt is prepended "if not already present", but line 30 tests only
whether the history is empty (`BasicBot.LlmInputSpec`). The loop always appends before
invoking, so that branch is never taken from the loop (`BasicBot.LoopSkipsSystemPrompt`).

## Model

| member | source | states |
|---|---|---|
| PyStr.Lower | agents/super_agent.py:2 | lower-casing keeps the length and maps every character on its own |
| PyStr.LowerIdempotent | agents/super_agent.py:2 | lower-casing twice is lower-casing once |
| PyStr.LowerOfLowercase | agents/super_agent.py:2 | text with no upper-case letter is left unchanged |
| PyStr.ContainsIff | agents/super_agent.py:3 | `p in s` holds exactly when `p` occurs in `s` at some index |
| PyStr.StripLeftShape | main.py:27 | stripping the front removes a run of whitespace, all of it, and keeps the rest as a suffix |
| PyStr.StripRightShape | main.py:27 | stripping the end removes a run of whitespace, all of it, and keeps the rest as a prefix |
| PyStr.StripPadded | main.py:27 | stripping a word that neither starts nor ends with whitespace returns that word, whatever whitespace surrounds it |
| Conversation.LastText | agents/chat_agent.py:11 | the last entry's content, or its string form when it has none; an empty history raises IndexError |
| Conversation.Reduce | main.py:6 | the `MessagesState` reducer keeps the history as a prefix, followed by the node's messages |
| SuperAgent.RouteSpec | agents/super_agent.py:1-6 | empty history raises IndexError; a last entry without content raises AttributeError; otherwise the decision is `rag_agent` exactly when a keyword occurs in the lower-cased content, and `chat_agent` exactly when none does |
| SuperAgent.RouteIgnoresCase | agents/super_agent.py:2 | a content string and its lower-cased form route alike |
| SuperAgent.RouteIgnoresEarlier | agents/super_agent.py:2 | prepending any messages to a non-empty history never changes the decision |
| SuperAgent.RouteResearch | agents/super_agent.py:3 | "research" routes to `rag_agent`: matching is by substring, not by word |
| SuperAgent.RouteFindings | agents/super_agent.py:3 | "Findings" routes to `rag_agent`: matching ignores case and word boundaries |
| SuperAgent.RouteTellMeAbout | agents/super_agent.py:3 | any line opening with "Tell me about " routes to `rag_agent` |
| SuperAgent.RouteHello | agents/super_agent.py:5-6 | "hello" holds no keyword and routes to `chat_agent` |
| ChatAgent.ChatAgentNode | agents/chat_agent.py:10-13 | an empty history raises IndexError; otherwise exactly one AIMessage whose content is the model's reply to the single user prompt made of the last entry's text |
| ChatAgent.ChatIgnoresEarlier | agents/chat_agent.py:11-12 | two histories with the same last entry get the same result |
| RagAgent.RagAgentNode | agents/rag_agent.py:11-14 | an empty history raises IndexError; otherwise exactly one AIMessage holding the query engine's answer to the last entry's text |
| MainApp.Successor | main.py:10-16 | every edge leads closer to END, so the graph has no cycle; both handlers go straight to END; the router's edge goes to the handler named by `"next"` |
| MainApp.InvokeSpec | main.py:6-18 | a pass that gets past the router visits START, the router, exactly the handler it chose, then END, and appends that handler's one AIMessage; otherwise it raises the router's exception |
| MainApp.InvokeHello | main.py:10-16 | "hello" is answered by the chat agent, whose model sees that line alone, and the reply is appended |
| MainApp.RouterNodeIdempotent | agents/super_agent.py:3-6 | the router node changes only `"next"`; running it again on its result gives the same state and decision |
| MainApp.MainAnswersOnce | main.py:30-31 | on any history ending in a user message, a pass succeeds and appends exactly one AIMessage |
| MainApp.MainSession | main.py:24-37 | over the super-agent graph, the loop never raises, ends by exit exactly when an exit line was read, and leaves alternating user lines and replies, the user lines being those read before the exit |
| MainApp.RunCli | main.py:24-37 | the `main.py` console session equals `Session` over its graph, and has the properties `MainSession` lists |
| Cli.IsExitIff | main.py:27 | a line ends the loop exactly when it is "exit", in any case, with only whitespace around it |
| Cli.ExitExamples | main.py:27-29 | "  EXIT " ends the loop; "exit now" and "exits" do not |
| Cli.AssistantLinesAppend | main.py:34-36 | the lines printed for a concatenation are the lines of each part, in order |
| Cli.AssistantLinesSpec | main.py:34-36 | one `Assistant: ` line per AIMessage of the history, in order, and none for other entries |
| Cli.AssistantReplies | main.py:34-36 | the printing loop yields exactly those lines |
| Cli.ChatLoop | main.py:25-37 | the loop's history, printed lines and way of ending are those `Session` gives from the empty history |
| Cli.TurnSpec | main.py:30-37 | one turn appends the user message, then one reply; the turn prints the lines of the old history followed by the new reply |
| Cli.SessionEnding | main.py:25-29 | over a graph that answers once, the session never raises; it ends by exit exactly when an exit line was read |
| Cli.SessionHistory | main.py:30-37 | over a graph that answers once, the old history stays a prefix and grows by two entries per line sent, alternating user and assistant |
| Cli.SessionUserLines | main.py:30 | the user messages added are exactly the lines read before the first exit line, in order |
| Cli.SessionGoodbye | main.py:27-29 | a session that ends by exit printed "Goodbye!" last |
| Cli.ReprintsEarlierReplies | main.py:32-36 | after two turns the first reply has been printed twice: each turn prints the whole history's replies, not only the latest |
| BasicBot.LlmInputSpec | agents/basic.py:28-33 | an empty history is sent as the system prompt alone; a non-empty one is sent unchanged; the system prompt is sent only when the history is empty or already holds it |
| BasicBot.LlmChatNode | agents/basic.py:34 | the node returns exactly one AIMessage, the model's reply to those messages |
| BasicBot.Successor | agents/basic.py:38-40 | the two edges START → `llm_chat` → END each lead closer to END |
| BasicBot.InvokeSpec | agents/basic.py:37-43 | a pass is the single path START, `llm_chat`, END, and appends the model's one reply |
| BasicBot.LoopSkipsSystemPrompt | agents/basic.py:54-56 | a history the loop has just appended to is sent unchanged, without the system prompt |
| BasicBot.BasicAnswersOnce | agents/basic.py:54-62 | on any history ending in a user message, a pass succeeds and appends exactly one AIMessage |
| BasicBot.BasicSession | agents/basic.py:47-62 | over the basic graph, the loop never raises, ends by exit exactly when an exit line was read, leaves alternating user lines and replies, and the system prompt never enters the history |
| BasicBot.RunCli | agents/basic.py:47-62 | the `agents/basic.py` console session equals `Session` over its graph, and has the properties `BasicSession` lists |

## Left out

- Index building in `agents/rag_agent.py` (lines 5-9) is left out: it loads the `data` directory and builds a vector index with llama_index. The query engine is a parameter.
- The chat model and the query engine are deterministic function parameters. The model does not capture a model that answers the same prompt differently, nor exceptions from the backend or the network.
- LangGraph internals (`StateGraph`, `compile`, `invoke`) are left out; dispatch is modelled directly. `"next"` is not a declared field of `MessagesState`, and whether the conditional edge sees it is library behaviour. The model gives the intended dispatch: the router's `"next"` picks the handler.
- `agents/basic.py` appends plain dicts to the history, which LangGraph turns into message objects. The model enters them as user messages directly.
- Message content is a string. Non-string (multi-part) content of LangChain messages is not modelled.
- Input and output: `dotenv` loading, the welcome banners (`main.py:23`, `agents/basic.py:46`) and the final `print(messages)` (`agents/basic.py:64`) are left out. Typed lines are a sequence, and the end of that sequence (where `input()` raises EOFError) is the ending `EndOfInput`.
- `lower()` and `strip()` are modelled on ASCII only. Unicode case mapping and non-ASCII whitespace are left out.
- The staged retrieval fallback, its fixed "No relevant text was retrieved." reply, the named error types, rollback on failure and timeouts are not modelled. They appear only in the repository's design text; the code has none of them.
- There is no concurrency, cancellation or timeout in the code, so none is modelled.
