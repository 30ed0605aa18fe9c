/**
 * Chat sessions: appending messages, deriving a title from the first user
 * message, shrinking the context window, and the numeric bounds of the
 * model preferences.
 */
module ChatModel {
  import opened Common

  datatype Role = User | Assistant | System

  datatype Message = Message(role: Role, content: string)

  const NewConversation := "New Conversation"
  const TitleLength := 30
  const DefaultMaxMessages := 10

  /** The index of the first message with the given role, if there is one. */
  function FirstWithRole(msgs: seq<Message>, role: Role): (r: Option<nat>)
    ensures r.Some? ==> r.value < |msgs| && msgs[r.value].role == role
    ensures r.Some? ==> forall j :: 0 <= j < r.value ==> msgs[j].role != role
    ensures r.None? ==> forall j :: 0 <= j < |msgs| ==> msgs[j].role != role
  {
    if msgs == [] then None
    else if msgs[0].role == role then Some(0)
    else match FirstWithRole(msgs[1..], role)
      case None => None
      case Some(i) => Some(i + 1)
  }

  /** A title cut from message content: its first 30 characters, with "..." iff it was longer. */
  function TitleFrom(content: string): (t: string)
    ensures |content| <= TitleLength ==> t == content
    ensures |content| > TitleLength ==> |t| == TitleLength + 3 && t[..TitleLength] == content[..TitleLength] && t[TitleLength..] == "..."
  {
    Take(content, TitleLength) + (if |content| > TitleLength then "..." else "")
  }

  /** The title after `updateTitle`. */
  function NextTitle(title: string, msgs: seq<Message>): string {
    if title == NewConversation && |msgs| > 0 then
      match FirstWithRole(msgs, User)
      case None => title
      case Some(i) => TitleFrom(msgs[i].content)
    else title
  }

  /**
   * The title changes only from "New Conversation" and only when some
   * message is from the user; then it is cut from the first user message.
   */
  lemma TitleChangesOnlyWhen(title: string, msgs: seq<Message>)
    ensures NextTitle(title, msgs) != title ==> title == NewConversation && exists j :: 0 <= j < |msgs| && msgs[j].role == User
    ensures title == NewConversation && FirstWithRole(msgs, User).Some? ==>
      NextTitle(title, msgs) == TitleFrom(msgs[FirstWithRole(msgs, User).value].content)
  {
    if NextTitle(title, msgs) != title {
      var i := FirstWithRole(msgs, User).value;
      assert msgs[i].role == User;
    }
  }

  /** Deriving the title twice gives what deriving it once gave. */
  lemma TitleIdempotent(title: string, msgs: seq<Message>)
    ensures NextTitle(NextTitle(title, msgs), msgs) == NextTitle(title, msgs)
  {
  }

  /** The synthetic system message that stands for the dropped part of the conversation. */
  function SummaryMessage(total: nat): Message {
    Message(System, "This conversation has " + NatToString(total) + " messages. Earlier messages have been summarized.")
  }

  predicate IsSystem(m: Message) {
    m.role == System
  }

  /**
   * `summarizeContext(maxMessages)`: the messages themselves when they are
   * few enough, otherwise the first system message (if any), a summary
   * message and `messages.slice(-maxMessages)`.
   */
  function Summarize(msgs: seq<Message>, maxMessages: int): seq<Message> {
    if |msgs| <= maxMessages then msgs
    else
      var systems := Filter(msgs, IsSystem);
      (if |systems| > 0 then [systems[0]] else []) + [SummaryMessage(|msgs|)] + SliceFrom(msgs, -maxMessages)
  }

  lemma SummarizeShort(msgs: seq<Message>, maxMessages: int)
    requires |msgs| <= maxMessages
    ensures Summarize(msgs, maxMessages) == msgs
  {
  }

  /**
   * With maxMessages >= 1 and more messages than that, the result is the
   * first system message if there is one, then the summary, then exactly the
   * last maxMessages messages: maxMessages + 1 or + 2 messages in all.
   */
  lemma SummarizeShape(msgs: seq<Message>, maxMessages: int)
    requires 1 <= maxMessages < |msgs|
    ensures var r := Summarize(msgs, maxMessages);
      var first := FirstWithRole(msgs, System);
      && |r| == maxMessages + (if first.Some? then 2 else 1)
      && r[|r| - maxMessages..] == msgs[|msgs| - maxMessages..]
      && r[|r| - maxMessages - 1] == SummaryMessage(|msgs|)
      && (first.Some? ==> r[0] == msgs[first.value])
  {
    var r := Summarize(msgs, maxMessages);
    var tail := SliceFrom(msgs, -maxMessages);
    assert tail == msgs[|msgs| - maxMessages..];
    match FirstWithRole(msgs, System)
    case Some(i) =>
      FilterHead(msgs, IsSystem, i);
      assert r == [msgs[i]] + [SummaryMessage(|msgs|)] + tail;
      assert r[|r| - maxMessages..] == tail;
    case None =>
      FilterNone(msgs, IsSystem);
      assert r == [SummaryMessage(|msgs|)] + tail;
      assert r[|r| - maxMessages..] == tail;
  }

  /**
   * `slice(-0)` is `slice(0)`: with maxMessages = 0 every message is kept
   * behind the summary instead of none.
   */
  lemma SummarizeZeroKeepsAll(msgs: seq<Message>)
    requires msgs != []
    ensures var r := Summarize(msgs, 0);
      |r| > |msgs| && r[|r| - |msgs|..] == msgs
  {
  }

  /**
   * With the default of 10, a conversation of more than 10 messages is cut
   * to its last 10, behind the summary and the first system message if any.
   */
  lemma DefaultSummary(msgs: seq<Message>)
    requires |msgs| > DefaultMaxMessages
    ensures var r := Summarize(msgs, DefaultMaxMessages);
      && |r| <= 12
      && r[|r| - 10..] == msgs[|msgs| - 10..]
      && r[|r| - 11] == SummaryMessage(|msgs|)
  {
    SummarizeShape(msgs, DefaultMaxMessages);
  }

  class ChatSession {
    var title: string
    var messages: seq<Message>

    constructor ()
      ensures title == NewConversation && messages == []
    {
      title := NewConversation;
      messages := [];
    }

    /** The `messageCount` virtual. */
    function MessageCount(): nat
      reads this
    {
      |messages|
    }

    /** `addMessage`: one message at the end, the earlier ones untouched. */
    method AddMessage(role: Role, content: string)
      modifies this
      ensures messages == old(messages) + [Message(role, content)]
      ensures MessageCount() == old(MessageCount()) + 1
      ensures title == old(title)
    {
      messages := messages + [Message(role, content)];
    }

    /** `updateTitle`: name a new conversation after its first user message. */
    method UpdateTitle()
      modifies this
      ensures title == NextTitle(old(title), messages)
      ensures messages == old(messages)
    {
      if title == NewConversation && |messages| > 0 {
        var first := FirstWithRole(messages, User);
        if first.Some? {
          var content := messages[first.value].content;
          title := Take(content, TitleLength);
          if |content| > TitleLength {
            title := title + "...";
          }
        }
      }
    }

    /** `summarizeContext`: computed from the messages without changing them. */
    function SummarizeContext(maxMessages: int): (r: seq<Message>)
      reads this
      ensures |messages| <= maxMessages ==> r == messages
      ensures 1 <= maxMessages < |messages| ==>
        maxMessages < |r| <= maxMessages + 2 && r[|r| - maxMessages..] == messages[|messages| - maxMessages..]
    {
      var r := Summarize(messages, maxMessages);
      if 1 <= maxMessages < |messages| then
        SummarizeShape(messages, maxMessages);
        r
      else r
    }
  }

  // ---------------------------------------------------------------------
  // Model preferences
  // ---------------------------------------------------------------------

  datatype ModelPreferences = ModelPreferences(defaultModel: string, maxTokens: int, contextWindow: int)

  const DefaultPreferences := ModelPreferences("gemini-pro", 1024, 10)

  /** The schema's min/max validators, in field order; an empty list means the document is valid. */
  function BoundErrors(p: ModelPreferences): (errs: seq<string>)
    ensures errs == [] <==> 1 <= p.maxTokens <= 8192 && 1 <= p.contextWindow <= 100
    ensures "maxTokens" in errs <==> !(1 <= p.maxTokens <= 8192)
    ensures "contextWindow" in errs <==> !(1 <= p.contextWindow <= 100)
  {
    (if 1 <= p.maxTokens <= 8192 then [] else ["maxTokens"])
      + (if 1 <= p.contextWindow <= 100 then [] else ["contextWindow"])
  }

  lemma DefaultPreferencesValid()
    ensures BoundErrors(DefaultPreferences) == []
  {
  }

  /** A valid context window is at least 1, so summarizing to it keeps the shape above. */
  lemma ValidWindowSummarizes(p: ModelPreferences, msgs: seq<Message>)
    requires BoundErrors(p) == []
    requires |msgs| > p.contextWindow
    ensures |Summarize(msgs, p.contextWindow)| <= p.contextWindow + 2
    ensures Summarize(msgs, p.contextWindow)[|Summarize(msgs, p.contextWindow)| - p.contextWindow..]
      == msgs[|msgs| - p.contextWindow..]
  {
    SummarizeShape(msgs, p.contextWindow);
  }
}
