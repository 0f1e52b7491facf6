/**
 * The workspace's mentor panel: messages, an input with four quick-action
 * buttons that prefill it, and a reply drawn at random from one of five
 * pools chosen by keywords, delivered after a random delay.
 */
module ChatInterface {
  import opened JsText

  /** The reply pools, in the order the keywords are checked. */
  datatype Pool = Stuck | CodeReview | Concept | Hint | Default

  /** How many canned replies each pool holds. */
  function PoolSize(p: Pool): (n: nat)
    ensures n >= 2
  {
    match p
    case Stuck => 2
    case CodeReview => 2
    case Concept => 2
    case Hint => 2
    case Default => 3
  }

  predicate MentionsAny(m: string, words: seq<string>) {
    exists i :: 0 <= i < |words| && Includes(m, words[i])
  }

  const StuckWords: seq<string> := ["stuck", "help", "confused"]
  const CodeWords: seq<string> := ["code", "review"]
  const ConceptWords: seq<string> := ["explain", "concept", "understand"]
  const HintWords: seq<string> := ["hint", "clue"]

  /** The pool `generateMentorResponse` draws from: the first keyword group the lower-cased message mentions. */
  function PoolOf(userMessage: string): (p: Pool)
    ensures var m := Lower(userMessage);
      && (p == Stuck <==> MentionsAny(m, StuckWords))
      && (p == CodeReview <==> !MentionsAny(m, StuckWords) && MentionsAny(m, CodeWords))
      && (p == Concept <==>
          !MentionsAny(m, StuckWords) && !MentionsAny(m, CodeWords) && MentionsAny(m, ConceptWords))
      && (p == Hint <==>
          !MentionsAny(m, StuckWords) && !MentionsAny(m, CodeWords) && !MentionsAny(m, ConceptWords)
          && MentionsAny(m, HintWords))
  {
    var m := Lower(userMessage);
    if Includes(m, "stuck") || Includes(m, "help") || Includes(m, "confused") then
      assert StuckWords[0] == "stuck" && StuckWords[1] == "help" && StuckWords[2] == "confused";
      Stuck
    else if Includes(m, "code") || Includes(m, "review") then
      assert CodeWords[0] == "code" && CodeWords[1] == "review";
      CodeReview
    else if Includes(m, "explain") || Includes(m, "concept") || Includes(m, "understand") then
      assert ConceptWords[0] == "explain" && ConceptWords[1] == "concept" && ConceptWords[2] == "understand";
      Concept
    else if Includes(m, "hint") || Includes(m, "clue") then
      assert HintWords[0] == "hint" && HintWords[1] == "clue";
      Hint
    else Default
  }

  /** `Math.floor(r * len)` for `r` from `Math.random()`: always an index into the pool. */
  function PickIndex(r: real, len: nat): (i: nat)
    requires 0.0 <= r < 1.0 && len > 0
    ensures i < len
    ensures i as real <= r * len as real < i as real + 1.0
  {
    var x := r * len as real;
    assert 0.0 <= x < len as real;
    x.Floor
  }

  /** A canned reply: its pool and its position in the pool. */
  datatype Reply = Reply(pool: Pool, index: nat)

  /** The reply to a message, given the random number drawn. */
  function MentorResponse(userMessage: string, r: real): (reply: Reply)
    requires 0.0 <= r < 1.0
    ensures reply.pool == PoolOf(userMessage) && reply.index < PoolSize(reply.pool)
  {
    var p := PoolOf(userMessage);
    Reply(p, PickIndex(r, PoolSize(p)))
  }

  /** The index `i` is drawn for the random number `i / len`. */
  lemma PickIndexHits(i: nat, len: nat)
    requires i < len
    ensures 0.0 <= i as real / len as real < 1.0
    ensures PickIndex(i as real / len as real, len) == i
  {
    var r := i as real / len as real;
    assert r * len as real == i as real;
  }

  /** Every entry of the selected pool is reachable for some random number. */
  lemma EveryReplyReachable(userMessage: string, i: nat)
    requires i < PoolSize(PoolOf(userMessage))
    ensures exists r: real :: 0.0 <= r < 1.0 && MentorResponse(userMessage, r) == Reply(PoolOf(userMessage), i)
  {
    var p := PoolOf(userMessage);
    var r := i as real / PoolSize(p) as real;
    PickIndexHits(i, PoolSize(p));
    assert MentorResponse(userMessage, r) == Reply(p, i);
  }

  // ---------------------------------------------------------------------
  // Quick actions
  // ---------------------------------------------------------------------

  const QuickActions: seq<string> := ["I'm stuck", "Review my code", "Explain concept", "Give me a hint"]

  lemma MentionsNone(m: string, words: seq<string>, ks: seq<nat>)
    requires |ks| == |words|
    requires forall j :: 0 <= j < |words| ==> ks[j] < |words[j]| && forall i :: 0 <= i < |m| ==> m[i] != words[j][ks[j]]
    ensures !MentionsAny(m, words)
  {
    forall j | 0 <= j < |words| ensures !Includes(m, words[j]) {
      LacksCharNotIncluded(m, words[j], ks[j]);
    }
  }

  lemma MentionsAt(m: string, words: seq<string>, j: nat, at: nat)
    requires j < |words| && OccursAt(m, words[j], at)
    ensures MentionsAny(m, words)
  {
    IncludesShifted(m, words[j], at);
  }

  /** "I'm stuck" reaches the stuck pool. */
  lemma StuckActionRoutes(action: string)
    requires action == "I'm stuck"
    ensures PoolOf(action) == Stuck
  {
    StuckActionLower(action);
    StuckActionMentions("i'm stuck");
  }

  lemma StuckActionLower(action: string)
    requires action == "I'm stuck"
    ensures Lower(action) == "i'm stuck"
  {
  }

  lemma StuckActionMentions(m: string)
    requires m == "i'm stuck"
    ensures MentionsAny(m, StuckWords)
  {
    assert m[4..9] == StuckWords[0];
    MentionsAt(m, StuckWords, 0, 4);
  }

  /** "Review my code" reaches the code-review pool. */
  lemma ReviewActionRoutes(action: string)
    requires action == "Review my code"
    ensures PoolOf(action) == CodeReview
  {
    ReviewActionLower(action);
    ReviewActionMentions("review my code");
  }

  lemma ReviewActionLower(action: string)
    requires action == "Review my code"
    ensures Lower(action) == "review my code"
  {
  }

  lemma ReviewActionMentions(m: string)
    requires m == "review my code"
    ensures !MentionsAny(m, StuckWords) && MentionsAny(m, CodeWords)
  {
    MentionsNone(m, StuckWords, [4, 0, 3]);  // no 'k', 'h', 'f'
    assert m[10..14] == CodeWords[0];
    MentionsAt(m, CodeWords, 0, 10);
  }

  /** "Explain concept" reaches the concept pool. */
  lemma ExplainActionRoutes(action: string)
    requires action == "Explain concept"
    ensures PoolOf(action) == Concept
  {
    ExplainActionLower(action);
    ExplainActionMentions("explain concept");
  }

  lemma ExplainActionLower(action: string)
    requires action == "Explain concept"
    ensures Lower(action) == "explain concept"
  {
  }

  lemma ExplainActionMentions(m: string)
    requires m == "explain concept"
    ensures !MentionsAny(m, StuckWords) && !MentionsAny(m, CodeWords) && MentionsAny(m, ConceptWords)
  {
    MentionsNone(m, StuckWords, [4, 0, 3]);  // no 'k', 'h', 'f'
    MentionsNone(m, CodeWords, [2, 2]);      // no 'd', 'v'
    assert m[0..7] == ConceptWords[0];
    MentionsAt(m, ConceptWords, 0, 0);
  }

  /** "Give me a hint" reaches the hint pool. */
  lemma HintActionRoutes(action: string)
    requires action == "Give me a hint"
    ensures PoolOf(action) == Hint
  {
    HintActionLower(action);
    HintActionMentions("give me a hint");
  }

  lemma HintActionLower(action: string)
    requires action == "Give me a hint"
    ensures Lower(action) == "give me a hint"
  {
  }

  lemma HintActionMentions(m: string)
    requires m == "give me a hint"
    ensures !MentionsAny(m, StuckWords) && !MentionsAny(m, CodeWords) && !MentionsAny(m, ConceptWords)
    ensures MentionsAny(m, HintWords)
  {
    MentionsNone(m, StuckWords, [4, 2, 3]);      // no 'k', 'l', 'f'
    MentionsNone(m, CodeWords, [0, 0]);          // no 'c', 'r'
    MentionsNone(m, ConceptWords, [1, 0, 0]);    // no 'x', 'c', 'u'
    assert m[10..14] == HintWords[0];
    MentionsAt(m, HintWords, 0, 10);
  }

  // ---------------------------------------------------------------------
  // The panel
  // ---------------------------------------------------------------------

  datatype Sender = User | Mentor

  /** A message's content: what the user typed, a canned reply, or the fixed welcome text. */
  datatype Content = Typed(text: string) | Canned(reply: Reply) | WelcomeText

  /** A message; all are plain text, and timestamps are not modelled. */
  datatype Message = Message(id: string, content: Content, sender: Sender)

  /** The opening message. */
  const Welcome := Message("1", WelcomeText, Mentor)

  /** The panel's state; `pending` holds the texts whose replies are still on their timers. */
  class MentorPanel {
    var messages: seq<Message>
    var newMessage: string
    var isTyping: bool
    var pending: seq<string>
    var sentToParent: seq<string>

    constructor ()
      ensures messages == [Welcome] && newMessage == "" && !isTyping && pending == [] && sentToParent == []
    {
      messages := [Welcome];
      newMessage := "";
      isTyping := false;
      pending := [];
      sentToParent := [];
    }

    /** The send button is disabled for blank input only, not while a reply is pending. */
    predicate SendDisabled(): (r: bool)
      reads this
      // an enabled button's click always sends, and a pending reply does not disable it
      ensures !r ==> !IsBlank(newMessage)
      ensures isTyping && !IsBlank(newMessage) ==> !r
    {
      IsBlank(newMessage)
    }

    /** A quick-action button puts its label in the input. */
    method HandleQuickAction(i: nat)
      requires i < |QuickActions|
      modifies this
      ensures newMessage == QuickActions[i]
      ensures messages == old(messages) && isTyping == old(isTyping) && pending == old(pending)
      ensures sentToParent == old(sentToParent)
    {
      newMessage := QuickActions[i];
    }

    /**
     * `handleSendMessage()`: blank input changes nothing; otherwise the
     * text is appended, the input cleared, the indicator turned on, the
     * reply scheduled and the text passed to the parent's callback.
     */
    method HandleSendMessage(id: string)
      modifies this
      ensures IsBlank(old(newMessage)) ==>
        messages == old(messages) && newMessage == old(newMessage) && isTyping == old(isTyping)
        && pending == old(pending) && sentToParent == old(sentToParent)
      ensures !IsBlank(old(newMessage)) ==>
        messages == old(messages) + [Message(id, Typed(old(newMessage)), User)]
        && newMessage == "" && isTyping
        && pending == old(pending) + [old(newMessage)]
        && sentToParent == old(sentToParent) + [old(newMessage)]
    {
      if IsBlank(newMessage) {
        return;
      }
      messages := messages + [Message(id, Typed(newMessage), User)];
      pending := pending + [newMessage];
      sentToParent := sentToParent + [newMessage];
      newMessage := "";
      isTyping := true;
    }

    /** The `k`-th pending timer fires (delays are random, so any may be first), with random number `r`. */
    method DeliverReply(k: nat, id: string, r: real)
      requires k < |pending| && 0.0 <= r < 1.0
      modifies this
      ensures messages == old(messages) + [Message(id, Canned(MentorResponse(old(pending)[k], r)), Mentor)]
      ensures pending == old(pending)[..k] + old(pending)[k + 1..] && !isTyping
      ensures newMessage == old(newMessage) && sentToParent == old(sentToParent)
    {
      messages := messages + [Message(id, Canned(MentorResponse(pending[k], r)), Mentor)];
      pending := pending[..k] + pending[k + 1..];
      isTyping := false;
    }

    /** `handleKeyPress`: Enter without Shift sends; other keys do nothing. */
    method HandleKeyPress(key: string, shiftKey: bool, id: string)
      modifies this
      ensures !(key == "Enter" && !shiftKey) ==>
        messages == old(messages) && newMessage == old(newMessage) && isTyping == old(isTyping)
        && pending == old(pending) && sentToParent == old(sentToParent)
      ensures key == "Enter" && !shiftKey && IsBlank(old(newMessage)) ==>
        messages == old(messages) && newMessage == old(newMessage) && isTyping == old(isTyping)
        && pending == old(pending) && sentToParent == old(sentToParent)
      ensures key == "Enter" && !shiftKey && !IsBlank(old(newMessage)) ==>
        messages == old(messages) + [Message(id, Typed(old(newMessage)), User)]
        && newMessage == "" && isTyping
        && pending == old(pending) + [old(newMessage)]
        && sentToParent == old(sentToParent) + [old(newMessage)]
    {
      if key == "Enter" && !shiftKey {
        HandleSendMessage(id);
      }
    }
  }

  /** Pressing "I'm stuck" and sending it brings a reply from the stuck pool, whatever the random draw. */
  method QuickActionRoundTrip(panel: MentorPanel, userId: string, replyId: string, r: real)
    requires panel.pending == [] && 0.0 <= r < 1.0
    modifies panel
    ensures |panel.messages| >= 2
    ensures panel.messages[|panel.messages| - 1].content.Canned?
    ensures panel.messages[|panel.messages| - 1].content.reply.pool == Stuck
  {
    panel.HandleQuickAction(0);
    assert !IsBlank(panel.newMessage) by {
      assert panel.newMessage[0] == 'I' && !IsWhite('I');
      TrimEmptyIffBlank(panel.newMessage);
      assert TrimStart(panel.newMessage) == panel.newMessage;
    }
    panel.HandleSendMessage(userId);
    StuckActionRoutes(QuickActions[0]);
    panel.DeliverReply(0, replyId, r);
  }
}
