/** The chat assistant of `AIChatWidget.tsx`: an ordered keyword table
    searched in the lower-cased message, and the send guard that appends the
    user's message. */
module Chat {

  import opened Wrappers
  import opened Strings

  /** The seven things the assistant can say. */
  datatype Reply = TeamSizeInfo | BudgetInfo | LocationInfo | ActivitiesInfo | Greeting | HelpMenu | Fallback
  {
    function Text(): string {
      match this
      case TeamSizeInfo => "For teams of 8-12, I recommend our Blue Mountains Corporate Retreat or Sydney Harbour Charter. Both offer excellent team bonding opportunities. What type of experience are you looking for?"
      case BudgetInfo => "Most Australian companies spend between $150-$300 AUD per person for memorable team events. I can show you options across different price ranges. What's your approximate budget per person?"
      case LocationInfo => "We have premium venues across Sydney, Melbourne, Blue Mountains, Hunter Valley, and Barossa Valley. Where is your team based, and how far are you willing to travel?"
      case ActivitiesInfo => "Popular team activities include wine tastings, harbour cruises, mountain retreats, and city rooftop experiences. What kind of vibe are you going for - relaxed, adventurous, or professional?"
      case Greeting => "G'day! I'm here to help you find the perfect team experience. What kind of event are you planning? I can suggest venues based on your team size, budget, and preferences."
      case HelpMenu => "I can help you with:\n\U{2022} Venue recommendations based on your needs\n\U{2022} Budget planning for team events\n\U{2022} Activity suggestions for different team types\n\U{2022} Location advice across Australia\n\nWhat would you like to know?"
      case Fallback => "That's a great question! Our Australian venues offer diverse experiences from Sydney Harbour cruises to Blue Mountains retreats. Can you tell me more about your team size and preferred type of experience?"
    }
  }

  /** `SAMPLE_RESPONSES`, in the insertion order `Object.entries` visits. */
  const Responses: seq<(string, Reply)> := [
    ("team size", TeamSizeInfo),
    ("budget", BudgetInfo),
    ("location", LocationInfo),
    ("activities", ActivitiesInfo),
    ("hello", Greeting),
    ("help", HelpMenu)
  ]

  /** The reply of the first entry, from `from` on, whose key occurs in the
      message; the default reply when none does. */
  function FirstHit(lower: string, table: seq<(string, Reply)>, from: nat): (r: Reply)
    requires from <= |table|
    ensures r == Fallback || exists k | from <= k < |table| :: r == table[k].1
    ensures (forall k | from <= k < |table| :: !Contains(lower, table[k].0)) ==> r == Fallback
    ensures r != Fallback ==>
              exists k | from <= k < |table| ::
                && Contains(lower, table[k].0) && r == table[k].1
                && forall j | from <= j < k :: !Contains(lower, table[j].0)
    ensures (forall k | from <= k < |table| :: table[k].1 != Fallback) ==>
              (r == Fallback <==> forall k | from <= k < |table| :: !Contains(lower, table[k].0))
    decreases |table| - from
  {
    if from == |table| then Fallback
    else if Contains(lower, table[from].0) then table[from].1
    else FirstHit(lower, table, from + 1)
  }

  /** Which reply `getAIResponse(userMessage)` gives: the fallback exactly
      when no key occurs in the lower-cased message, otherwise the reply of
      the first key, in table order, that occurs. */
  function Answer(message: string): (r: Reply)
    ensures r == Fallback <==> forall k | 0 <= k < |Responses| :: !Contains(Lower(message), Responses[k].0)
    ensures r != Fallback ==>
              exists k | 0 <= k < |Responses| ::
                && Contains(Lower(message), Responses[k].0) && r == Responses[k].1
                && forall j | 0 <= j < k :: !Contains(Lower(message), Responses[j].0)
  {
    TableHasNoFallback();
    FirstHit(Lower(message), Responses, 0)
  }

  /** The default reply is not in the table. */
  lemma TableHasNoFallback()
    ensures forall k | 0 <= k < |Responses| :: Responses[k].1 != Fallback
  {
  }

  /** `getAIResponse(userMessage)`: the text of the chosen reply. */
  function GetAIResponse(message: string): string {
    Answer(message).Text()
  }

  /** The first key in table order that occurs wins. */
  lemma {:induction false} FirstKeyWins(lower: string, table: seq<(string, Reply)>, from: nat, k: nat)
    requires from <= k < |table|
    requires Contains(lower, table[k].0)
    requires forall j | from <= j < k :: !Contains(lower, table[j].0)
    ensures FirstHit(lower, table, from) == table[k].1
    decreases k - from
  {
    if from < k {
      FirstKeyWins(lower, table, from + 1, k);
    }
  }

  /** The reply to a message is the reply of the first key occurring in it,
      in table order. */
  lemma ReplyOfFirstKey(message: string, k: nat)
    requires k < |Responses|
    requires Contains(Lower(message), Responses[k].0)
    requires forall j | 0 <= j < k :: !Contains(Lower(message), Responses[j].0)
    ensures Answer(message) == Responses[k].1
  {
    FirstKeyWins(Lower(message), Responses, 0, k);
  }

  /** A message with no key in it gets the default reply. */
  lemma NoKeyDefault(message: string)
    requires forall k | 0 <= k < |Responses| :: !Contains(Lower(message), Responses[k].0)
    ensures Answer(message) == Fallback
  {
  }

  /** Earlier keys win: a message mentioning the budget is never answered
      with the help text, whether or not it also asks for help. */
  lemma BudgetBeforeHelp(message: string)
    requires Contains(Lower(message), "budget")
    ensures Answer(message) == TeamSizeInfo || Answer(message) == BudgetInfo
  {
    var lower := Lower(message);
    if Contains(lower, "team size") {
      FirstKeyWins(lower, Responses, 0, 0);
    } else {
      FirstKeyWins(lower, Responses, 0, 1);
    }
  }

  /** Case does not matter: the message is lower-cased before searching. */
  lemma CaseInsensitive(message: string)
    ensures Answer(Lower(message)) == Answer(message)
  {
    LowerIdempotent(message);
  }

  // ---------------------------------------------------------------------
  // Sending

  datatype Sender = UserSender | AssistantSender

  /** A chat message without its id and timestamp, which come from the clock. */
  datatype Message = Message(sender: Sender, text: string)

  datatype Conversation = Conversation(messages: seq<Message>, input: string, typing: bool)

  /** `handleSendMessage` up to the timer: a blank input does nothing; any
      other appends the user's message as typed, clears the input and shows
      the typing indicator. */
  function SendMessage(c: Conversation): (r: Conversation)
    ensures Trim(c.input) == "" ==> r == c
    ensures Trim(c.input) != "" ==>
              && |r.messages| == |c.messages| + 1
              && r.messages[..|c.messages|] == c.messages
              && r.messages[|c.messages|] == Message(UserSender, c.input)
              && r.input == "" && r.typing
  {
    if Trim(c.input) == "" then c
    else Conversation(c.messages + [Message(UserSender, c.input)], "", true)
  }

  /** The timer's callback: the assistant's answer to the sent text is
      appended and the typing indicator goes off. */
  function DeliverReply(c: Conversation, sent: string): (r: Conversation)
    ensures |r.messages| == |c.messages| + 1 && r.messages[..|c.messages|] == c.messages
    ensures r.messages[|c.messages|] == Message(AssistantSender, Answer(sent).Text())
    ensures !r.typing && r.input == c.input
  {
    Conversation(c.messages + [Message(AssistantSender, GetAIResponse(sent))], c.input, false)
  }

  /** An input of nothing but whitespace never reaches the conversation. */
  lemma BlankInputIgnored(c: Conversation)
    requires AllSpace(c.input)
    ensures SendMessage(c) == c
  {
  }
}
