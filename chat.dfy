/**
 * The mentor chat page: a message list that starts with one greeting,
 * an input that sends on Enter (without Shift) or the send button, and a
 * canned reply chosen by keywords in the sent text, delivered after a
 * fixed delay.
 */
module Chat {
  import opened JsText

  /** A canned mentor text; the opening greeting is one, the three replies the others. */
  datatype Topic = Hello | ApiDesign | Authentication | StepByStep

  /** `getAIResponse(input)`: "api" is checked before "authentication", case-insensitively. */
  function TopicOf(input: string): (t: Topic)
    ensures t == ApiDesign <==> Includes(Lower(input), "api")
    ensures t == Authentication <==> !Includes(Lower(input), "api") && Includes(Lower(input), "authentication")
    ensures t != Hello
  {
    var m := Lower(input);
    if Includes(m, "api") then ApiDesign
    else if Includes(m, "authentication") then Authentication
    else StepByStep
  }

  /** A question naming both keywords gets the API answer. */
  lemma ApiWinsOverAuthentication(input: string)
    requires Includes(Lower(input), "authentication") && Includes(Lower(input), "api")
    ensures TopicOf(input) == ApiDesign
  {
  }

  /** "api" inside another word counts too: "Rapid" gets the API answer. */
  lemma ApiInsideWord(input: string)
    requires input == "Rapid"
    ensures TopicOf(input) == ApiDesign
  {
    assert Lower(input) == "rapid";
    assert OccursAt("rapid", "api", 1);
    IncludesShifted("rapid", "api", 1);
  }

  datatype Sender = User | Ai
  datatype Kind = Text | Code

  /** A message's content: what the user typed, or a canned answer. */
  datatype Content = Typed(text: string) | Answer(topic: Topic)

  /** A message; timestamps are not modelled. */
  datatype Message = Message(id: string, content: Content, sender: Sender, kind: Kind, language: Option<string>)

  const Greeting := Message("1", Answer(Hello), Ai, Text, None)

  /** The reply to a sent text: its answer, "code" kind iff it mentions code, JavaScript iff it mentions node. */
  function ReplyTo(sent: string, id: string): (m: Message)
    ensures m.sender == Ai && m.content == Answer(TopicOf(sent))
    ensures m.kind == Code <==> Includes(Lower(sent), "code")
    ensures m.language == Some("javascript") <==> Includes(Lower(sent), "node")
    ensures m.language.None? <==> !Includes(Lower(sent), "node")
  {
    Message(id, Answer(TopicOf(sent)),
      Ai,
      if Includes(Lower(sent), "code") then Code else Text,
      if Includes(Lower(sent), "node") then Some("javascript") else None)
  }

  /** The suggestion buttons' texts. */
  const QuickSuggestions: seq<string> := [
    "Help me understand REST API design",
    "How do I implement authentication?",
    "Explain database relationships",
    "Review my Node.js code",
    "Best practices for API security"
  ]

  /** The page's state; `pending` holds the texts whose replies are still on their timers, oldest first. */
  class ChatPage {
    var messages: seq<Message>
    var newMessage: string
    var isTyping: bool
    var pending: seq<string>

    constructor ()
      ensures messages == [Greeting] && newMessage == "" && !isTyping && pending == []
    {
      messages := [Greeting];
      newMessage := "";
      isTyping := false;
      pending := [];
    }

    /** The send button's `disabled`: blank input, or a reply still being typed. */
    predicate SendDisabled(): (r: bool)
      reads this
      // an enabled button's click always sends; no click sends while a reply is typed
      ensures !r ==> !IsBlank(newMessage)
      ensures isTyping ==> r
    {
      IsBlank(newMessage) || isTyping
    }

    /** The suggestions show only while the greeting is the only message. */
    predicate ShowsSuggestions(): (r: bool)
      reads this
      ensures messages != [] && messages[0] == Greeting ==> (r <==> messages == [Greeting])
    {
      |messages| == 1
    }

    /** Typing in the input, or clicking a suggestion. */
    method SetNewMessage(value: string)
      modifies this
      ensures newMessage == value
      ensures messages == old(messages) && isTyping == old(isTyping) && pending == old(pending)
    {
      newMessage := value;
    }

    /**
     * `handleSendMessage()`: blank input changes nothing; otherwise the
     * text is appended as a user message, the input is cleared, the typing
     * indicator goes on and the reply is scheduled.
     */
    method HandleSendMessage(id: string)
      modifies this
      ensures IsBlank(old(newMessage)) ==>
        messages == old(messages) && newMessage == old(newMessage)
        && isTyping == old(isTyping) && pending == old(pending)
      ensures !IsBlank(old(newMessage)) ==>
        messages == old(messages) + [Message(id, Typed(old(newMessage)), User, Text, None)]
        && newMessage == "" && isTyping && pending == old(pending) + [old(newMessage)]
    {
      if IsBlank(newMessage) {
        return;
      }
      messages := messages + [Message(id, Typed(newMessage), User, Text, None)];
      pending := pending + [newMessage];
      newMessage := "";
      isTyping := true;
    }

    /** The oldest timer fires (all wait the same time): its reply is appended and the indicator goes off. */
    method DeliverReply(id: string)
      requires pending != []
      modifies this
      ensures messages == old(messages) + [ReplyTo(old(pending)[0], id)]
      ensures pending == old(pending)[1..] && !isTyping && newMessage == old(newMessage)
    {
      messages := messages + [ReplyTo(pending[0], id)];
      pending := pending[1..];
      isTyping := false;
    }

    /** `handleKeyPress`: Enter without Shift sends (even while a reply is pending); other keys do nothing. */
    method HandleKeyPress(key: string, shiftKey: bool, id: string)
      modifies this
      ensures !(key == "Enter" && !shiftKey) ==>
        messages == old(messages) && newMessage == old(newMessage)
        && isTyping == old(isTyping) && pending == old(pending)
      ensures key == "Enter" && !shiftKey && IsBlank(old(newMessage)) ==>
        messages == old(messages) && newMessage == old(newMessage)
        && isTyping == old(isTyping) && pending == old(pending)
      ensures key == "Enter" && !shiftKey && !IsBlank(old(newMessage)) ==>
        messages == old(messages) + [Message(id, Typed(old(newMessage)), User, Text, None)]
        && newMessage == "" && isTyping && pending == old(pending) + [old(newMessage)]
    {
      if key == "Enter" && !shiftKey {
        HandleSendMessage(id);
      }
    }
  }

  /** A send and its reply leave the suggestions hidden and the button enabled only for new text. */
  method SendThenReply(page: ChatPage, text: string, userId: string, replyId: string)
    requires page.messages == [Greeting] && page.pending == [] && !page.isTyping && !IsBlank(text)
    modifies page
    ensures page.messages == [Greeting, Message(userId, Typed(text), User, Text, None), ReplyTo(text, replyId)]
    ensures !page.ShowsSuggestions() && page.SendDisabled() && page.pending == []
  {
    page.SetNewMessage(text);
    page.HandleSendMessage(userId);
    page.DeliverReply(replyId);
    assert IsBlank(page.newMessage) by {
      TrimEmptyIffBlank(page.newMessage);
    }
  }
}
