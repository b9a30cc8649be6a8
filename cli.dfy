/** The console loop that `main.py` and `agents/basic.py` both run around
    their graphs: read a line, stop on "exit", otherwise append it as a user
    message, run one graph pass, print every AIMessage of the result and adopt
    the result as the history.  Console input is the sequence of lines the
    user types; console output is the sequence of printed lines. */
module Cli {
  import opened PyStr
  import opened Conversation

  /** One graph pass, `graph.invoke({"messages": h})["messages"]`, which may
      raise. */
  type Invoker = History -> Result<History>

  const Goodbye: string := "Goodbye!"

  /** `print("Assistant:", content)` prints the two parts joined by a space. */
  function ReplyLine(content: string): string {
    "Assistant: " + content
  }

  /** `user_input.strip().lower() == "exit"`. */
  predicate IsExit(line: string) {
    Lower(Strip(line)) == "exit"
  }

  /** The line is "exit" in some mix of cases between whitespace runs:
      `line[..i]` and `line[j..]` are whitespace and `line[i..j]` is the word. */
  predicate PaddedExit(line: string, i: int, j: int) {
    0 <= i <= j <= |line| && AllSpace(line[..i]) && AllSpace(line[j..]) && Lower(line[i..j]) == "exit"
  }

  lemma ExitWordEnds(x: string)
    requires Lower(x) == "exit"
    ensures x != [] && !IsSpace(x[0]) && !IsSpace(x[|x| - 1])
  {
    assert |x| == 4;
    assert LowerChar(x[0]) == 'e';
    assert LowerChar(x[3]) == 't';
  }

  /** The exit test accepts exactly the word "exit", in any case, with any
      whitespace around it and nothing else. */
  lemma IsExitIff(line: string)
    ensures IsExit(line) <==> exists i, j :: PaddedExit(line, i, j)
  {
    if IsExit(line) {
      var l := StripLeft(line);
      StripLeftShape(line);
      StripRightShape(l);
      var x := StripRight(l);
      var i := |line| - |l|;
      var j := i + |x|;
      assert line[i..] == l;
      assert line[i..j] == x;
      assert line[j..] == l[|x|..];
      assert PaddedExit(line, i, j);
    }
    if exists i, j :: PaddedExit(line, i, j) {
      var i, j :| PaddedExit(line, i, j);
      ExitWordEnds(line[i..j]);
      assert line == line[..i] + line[i..j] + line[j..];
      StripPadded(line[..i], line[i..j], line[j..]);
    }
  }

  /** "  EXIT " ends the loop; "exit now" and "exits" do not. */
  lemma ExitExamples()
    ensures IsExit("  EXIT ")
    ensures !IsExit("exit now")
    ensures !IsExit("exits")
  {
    IsExitIff("  EXIT ");
    assert PaddedExit("  EXIT ", 2, 6) by {
      assert "  EXIT "[2..6] == "EXIT";
      assert "  EXIT "[..2] == "  ";
      assert "  EXIT "[6..] == " ";
    }
    var s := "exit now";
    StripLeftPadded([], s);
    StripRightPadded(s, []);
    assert s + [] == s;
    assert [] + s == s;
    assert Strip(s) == s;
    var t := "exits";
    StripLeftPadded([], t);
    StripRightPadded(t, []);
    assert t + [] == t;
    assert [] + t == t;
    assert Strip(t) == t;
  }

  /** The lines `for msg in h: if isinstance(msg, AIMessage): print(...)`
      prints. */
  function AssistantLines(h: History): seq<string>
    decreases |h|
  {
    if |h| == 0 then []
    else
      var m := h[|h| - 1];
      AssistantLines(h[..|h| - 1]) + (if IsAiMessage(m) then [ReplyLine(m.content)] else [])
  }

  lemma {:induction false} AssistantLinesAppend(a: History, b: History)
    ensures AssistantLines(a + b) == AssistantLines(a) + AssistantLines(b)
    decreases |b|
  {
    if |b| == 0 {
      assert a + b == a;
    } else {
      assert (a + b)[..|a + b| - 1] == a + b[..|b| - 1];
      AssistantLinesAppend(a, b[..|b| - 1]);
    }
  }

  /** One printed line per assistant message of the history, in order, and
      none for any other entry. */
  lemma {:induction false} AssistantLinesSpec(h: History)
    ensures |AssistantLines(h)| <= |h|
    ensures AssistantLines(h) == seq(|ContentsOf(h, Assistant)|, k requires 0 <= k < |ContentsOf(h, Assistant)| => ReplyLine(ContentsOf(h, Assistant)[k]))
    decreases |h|
  {
    if |h| > 0 {
      AssistantLinesSpec(h[..|h| - 1]);
    }
  }

  /** The printing loop of one turn. */
  method AssistantReplies(h: History) returns (lines: seq<string>)
    ensures lines == AssistantLines(h)
  {
    lines := [];
    for k := 0 to |h|
      invariant lines == AssistantLines(h[..k])
    {
      assert h[..k + 1][..k] == h[..k];
      if IsAiMessage(h[k]) {
        lines := lines + [ReplyLine(h[k].content)];
      }
    }
    assert h[..|h|] == h;
  }

  /** How the loop ends: on an exit line, when the input runs out (`input()`
      raising EOFError), or with an exception out of the graph. */
  datatype Ending = Exited | EndOfInput | Crashed(fault: Fault)

  datatype Outcome = Outcome(history: History, printed: seq<string>, ending: Ending)

  /** `printed` came out before the rest of the session. */
  function After(printed: seq<string>, o: Outcome): Outcome {
    Outcome(o.history, printed + o.printed, o.ending)
  }

  /** What the loop does from history `h` on the remaining input lines. */
  function Session(invoke: Invoker, h: History, inputs: seq<string>): Outcome
    decreases |inputs|
  {
    if inputs == [] then Outcome(h, [], EndOfInput)
    else if IsExit(inputs[0]) then Outcome(h, [Goodbye], Exited)
    else
      var sent := h + [Message(User, inputs[0])];
      match invoke(sent)
      case Err(f) => Outcome(sent, [], Crashed(f))
      case Ok(result) => After(AssistantLines(result), Session(invoke, result, inputs[1..]))
  }

  /** The `while True` loop, starting from the empty history. */
  method ChatLoop(invoke: Invoker, inputs: seq<string>) returns (o: Outcome)
    ensures o == Session(invoke, [], inputs)
  {
    var messages: History := [];
    var printed: seq<string> := [];
    var i := 0;
    while i < |inputs|
      invariant 0 <= i <= |inputs|
      invariant Session(invoke, [], inputs) == After(printed, Session(invoke, messages, inputs[i..]))
    {
      var line := inputs[i];
      assert inputs[i..][0] == line && inputs[i..][1..] == inputs[i + 1..];
      if IsExit(line) {
        printed := printed + [Goodbye];
        return Outcome(messages, printed, Exited);
      }
      messages := messages + [Message(User, line)];
      var result := invoke(messages);
      if result.Err? {
        return Outcome(messages, printed, Crashed(result.fault));
      }
      var shown := AssistantReplies(result.value);
      printed := printed + shown;
      messages := result.value;
      i := i + 1;
    }
    o := Outcome(messages, printed, EndOfInput);
  }

  /** The lines read before the first exit line: the ones the loop sends. */
  function Taken(inputs: seq<string>): seq<string>
    decreases |inputs|
  {
    if inputs == [] || IsExit(inputs[0]) then [] else [inputs[0]] + Taken(inputs[1..])
  }

  /** `r` is `h` with exactly one assistant message appended. */
  predicate Answered(h: History, r: History) {
    |r| == |h| + 1 && r[..|h|] == h && IsAiMessage(r[|h|])
  }

  /** A graph pass that, on every history ending in a user message, succeeds
      and appends exactly one assistant message. */
  ghost predicate AnswersOnce(invoke: Invoker) {
    forall h: History :: EndsWithUser(h) ==> invoke(h).Ok? && Answered(h, invoke(h).value)
  }

  /** The history is user, assistant, user, assistant, ... */
  predicate Exchanges(h: History) {
    |h| % 2 == 0 &&
    forall k :: 0 <= k < |h| ==> h[k].Message? && h[k].role == (if k % 2 == 0 then User else Assistant)
  }

  /** One turn over a graph that answers once: the history gains the user
      message and one reply, and the printed lines are those of the old history
      followed by the new reply. */
  lemma TurnSpec(invoke: Invoker, h: History, c: string)
    requires AnswersOnce(invoke) && Exchanges(h)
    ensures invoke(h + [Message(User, c)]).Ok?
    ensures var r := invoke(h + [Message(User, c)]).value;
      |r| == |h| + 2 && r[..|h|] == h && r[|h|] == Message(User, c) && IsAiMessage(r[|h| + 1]) &&
      Exchanges(r) &&
      ContentsOf(r, User) == ContentsOf(h, User) + [c] &&
      AssistantLines(r) == AssistantLines(h) + [ReplyLine(r[|h| + 1].content)]
  {
    var sent := h + [Message(User, c)];
    assert EndsWithUser(sent);
    var r := invoke(sent).value;
    assert Answered(sent, r);
    var m := r[|sent|];
    assert r == sent + [m];
    assert r[..|h|] == h;
    ContentsOfAppend(h, [Message(User, c)], User);
    ContentsOfAppend(sent, [m], User);
    assert ContentsOf([Message(User, c)], User) == [c];
    assert ContentsOf([m], User) == [];
    AssistantLinesAppend(h, [Message(User, c)]);
    AssistantLinesAppend(sent, [m]);
    assert AssistantLines([Message(User, c)]) == [];
    assert AssistantLines([m]) == [ReplyLine(m.content)];
  }

  /** Over a graph that answers once, the session never crashes: it ends by
      "exit" exactly when an exit line was read, and otherwise runs out of
      input. */
  lemma {:induction false} SessionEnding(invoke: Invoker, h: History, inputs: seq<string>)
    requires AnswersOnce(invoke) && Exchanges(h)
    ensures Session(invoke, h, inputs).ending == (if Taken(inputs) == inputs then EndOfInput else Exited)
    decreases |inputs|
  {
    if inputs != [] && !IsExit(inputs[0]) {
      TurnSpec(invoke, h, inputs[0]);
      var r := invoke(h + [Message(User, inputs[0])]).value;
      SessionEnding(invoke, r, inputs[1..]);
      assert Taken(inputs) == [inputs[0]] + Taken(inputs[1..]);
    }
  }

  /** Over a graph that answers once, the session keeps the old history as a
      prefix and extends it by one user message per line sent and one reply
      to each, in alternation. */
  lemma {:induction false} SessionHistory(invoke: Invoker, h: History, inputs: seq<string>)
    requires AnswersOnce(invoke) && Exchanges(h)
    ensures Exchanges(Session(invoke, h, inputs).history)
    ensures |Session(invoke, h, inputs).history| == |h| + 2 * |Taken(inputs)|
    ensures Session(invoke, h, inputs).history[..|h|] == h
    decreases |inputs|
  {
    if inputs == [] || IsExit(inputs[0]) {
      assert h[..|h|] == h;
    } else {
      TurnSpec(invoke, h, inputs[0]);
      var r := invoke(h + [Message(User, inputs[0])]).value;
      SessionHistory(invoke, r, inputs[1..]);
      var o := Session(invoke, r, inputs[1..]);
      assert o.history[..|h|] == o.history[..|r|][..|h|];
      assert Taken(inputs) == [inputs[0]] + Taken(inputs[1..]);
    }
  }

  /** Over a graph that answers once, the user messages the session adds are
      exactly the lines read before the first exit line, in order. */
  lemma {:induction false} SessionUserLines(invoke: Invoker, h: History, inputs: seq<string>)
    requires AnswersOnce(invoke) && Exchanges(h)
    ensures ContentsOf(Session(invoke, h, inputs).history, User) == ContentsOf(h, User) + Taken(inputs)
    decreases |inputs|
  {
    if inputs == [] || IsExit(inputs[0]) {
      assert ContentsOf(h, User) + [] == ContentsOf(h, User);
    } else {
      TurnSpec(invoke, h, inputs[0]);
      var r := invoke(h + [Message(User, inputs[0])]).value;
      SessionUserLines(invoke, r, inputs[1..]);
      assert Taken(inputs) == [inputs[0]] + Taken(inputs[1..]);
    }
  }

  predicate EndsWithGoodbye(printed: seq<string>) {
    |printed| > 0 && printed[|printed| - 1] == Goodbye
  }

  /** A session that ends by "exit" has printed "Goodbye!" last. */
  lemma {:induction false} SessionGoodbye(invoke: Invoker, h: History, inputs: seq<string>)
    ensures Session(invoke, h, inputs).ending == Exited ==> EndsWithGoodbye(Session(invoke, h, inputs).printed)
    decreases |inputs|
  {
    if inputs != [] && !IsExit(inputs[0]) {
      var sent := h + [Message(User, inputs[0])];
      if invoke(sent).Ok? {
        SessionGoodbye(invoke, invoke(sent).value, inputs[1..]);
      }
    }
  }

  /** Each turn prints every assistant message of the whole history, not only
      the newest: the first reply is printed again after the second turn. */
  lemma ReprintsEarlierReplies(invoke: Invoker, a: string, b: string)
    requires AnswersOnce(invoke)
    requires !IsExit(a) && !IsExit(b)
    ensures var r1 := invoke([Message(User, a)]).value;
            var r2 := invoke(r1 + [Message(User, b)]).value;
            Session(invoke, [], [a, b]).printed ==
              [ReplyLine(r1[1].content), ReplyLine(r1[1].content), ReplyLine(r2[3].content)]
  {
    var e: History := [];
    assert Exchanges(e);
    assert e + [Message(User, a)] == [Message(User, a)];
    TurnSpec(invoke, e, a);
    var r1 := invoke([Message(User, a)]).value;
    TurnSpec(invoke, r1, b);
    var r2 := invoke(r1 + [Message(User, b)]).value;
    assert [a, b][1..] == [b];
    assert [b][1..] == [];
    assert Session(invoke, r2, []).printed == [];
    assert Session(invoke, r1, [b]).printed == AssistantLines(r2);
    assert Session(invoke, e, [a, b]).printed == AssistantLines(r1) + AssistantLines(r2);
  }
}
