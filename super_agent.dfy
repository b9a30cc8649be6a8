/** The intent router `super_agent_router`: keyword substring routing on the
    last message of the history. */
module SuperAgent {
  import opened PyStr
  import opened Conversation

  /** The two values the router puts under `"next"`. */
  datatype Agent = ChatAgent | RagAgent

  /** The node name each decision stands for. */
  function Name(a: Agent): string {
    match a
    case ChatAgent => "chat_agent"
    case RagAgent => "rag_agent"
  }

  const Keywords: seq<string> := ["find", "search", "tell me about"]

  /** Some keyword occurs somewhere in `text`. */
  ghost predicate MentionsKeyword(text: string) {
    exists k, i :: k in Keywords && OccursAt(text, k, i)
  }

  /** `state["messages"][-1].content.lower()` tested with `in` against the
      three keywords. */
  function Route(h: History): Result<Agent> {
    if |h| == 0 then Err(IndexError)
    else
      match h[|h| - 1]
      case Raw(_) => Err(AttributeError)
      case Message(_, c) =>
        var t := Lower(c);
        if Contains(t, "find") || Contains(t, "search") || Contains(t, "tell me about")
        then Ok(RagAgent) else Ok(ChatAgent)
  }

  lemma MentionsKeywordIff(t: string)
    ensures MentionsKeyword(t) <==>
      Contains(t, "find") || Contains(t, "search") || Contains(t, "tell me about")
  {
    ContainsIff(t, "find");
    ContainsIff(t, "search");
    ContainsIff(t, "tell me about");
    if MentionsKeyword(t) {
      var k, i :| k in Keywords && OccursAt(t, k, i);
      assert k == "find" || k == "search" || k == "tell me about";
    }
    if Contains(t, "find") {
      var i :| OccursAt(t, "find", i);
      assert Keywords[0] == "find";
    }
    if Contains(t, "search") {
      var i :| OccursAt(t, "search", i);
      assert Keywords[1] == "search";
    }
    if Contains(t, "tell me about") {
      var i :| OccursAt(t, "tell me about", i);
      assert Keywords[2] == "tell me about";
    }
  }

  /** The router's whole behaviour: an empty history raises IndexError, a last
      entry without `content` raises AttributeError, and otherwise the decision
      is RagAgent exactly when a keyword occurs in the lower-cased content. */
  lemma RouteSpec(h: History)
    ensures Route(h) == Err(IndexError) <==> |h| == 0
    ensures Route(h) == Err(AttributeError) <==> |h| > 0 && h[|h| - 1].Raw?
    ensures Route(h) == Ok(RagAgent) <==>
      |h| > 0 && h[|h| - 1].Message? && MentionsKeyword(Lower(h[|h| - 1].content))
    ensures Route(h) == Ok(ChatAgent) <==>
      |h| > 0 && h[|h| - 1].Message? && !MentionsKeyword(Lower(h[|h| - 1].content))
    ensures Route(h).Ok? <==> |h| > 0 && h[|h| - 1].Message?
  {
    if |h| > 0 && h[|h| - 1].Message? {
      MentionsKeywordIff(Lower(h[|h| - 1].content));
    }
  }

  /** Matching ignores case: content and its lower-cased form route alike. */
  lemma RouteIgnoresCase(h: History, role: Role, c: string)
    ensures Route(h + [Message(role, c)]) == Route(h + [Message(role, Lower(c))])
  {
    LowerIdempotent(c);
  }

  /** Only the last entry matters: earlier history never changes the decision. */
  lemma RouteIgnoresEarlier(earlier: History, h: History)
    requires |h| > 0
    ensures Route(earlier + h) == Route(h)
  {
    assert (earlier + h)[|earlier + h| - 1] == h[|h| - 1];
  }

  /** Matching is by substring, not by word: "research" holds "search". */
  lemma RouteResearch()
    ensures Route([Message(User, "research")]) == Ok(RagAgent)
  {
    LowerOfLowercase("research");
    ContainsIff("research", "search");
    assert OccursAt("research", "search", 2);
  }

  /** "Findings" holds "find" once lower-cased. */
  lemma RouteFindings()
    ensures Route([Message(User, "Findings")]) == Ok(RagAgent)
  {
    var t := Lower("Findings");
    assert t[..4] == "find" by {
      forall i | 0 <= i < 4 ensures t[i] == "find"[i] {
        assert t[i] == LowerChar("Findings"[i]);
      }
    }
    ContainsIff(t, "find");
    assert OccursAt(t, "find", 0);
  }

  /** Any question opening with "Tell me about", such as "Tell me about
      eclipses", goes to the retrieval agent. */
  lemma RouteTellMeAbout(topic: string)
    ensures Route([Message(User, "Tell me about " + topic)]) == Ok(RagAgent)
  {
    var head := "Tell me about ";
    var t := Lower(head + topic);
    assert t[..13] == "tell me about" by {
      forall i | 0 <= i < 13 ensures t[i] == "tell me about"[i] {
        assert t[i] == LowerChar((head + topic)[i]);
      }
    }
    ContainsIff(t, "tell me about");
    assert OccursAt(t, "tell me about", 0);
  }

  /** A greeting holds no keyword and goes to the chat agent. */
  lemma RouteHello()
    ensures Route([Message(User, "hello")]) == Ok(ChatAgent)
  {
    LowerOfLowercase("hello");
    assert "hello"[1..] == "ello";
    assert "ello"[1..] == "llo";
    assert !Contains("llo", "find");
    assert !Contains("ello", "find");
    assert !Contains("hello", "find");
    assert !Contains("hello", "search");
    assert !Contains("hello", "tell me about");
  }
}
