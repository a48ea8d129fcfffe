/** The exam chatbot panel: the message list loaded from the history and
    extended by each question and its answer. */
module Chatbot {
  import opened Base

  const Apology: string := "Désolé, je n'ai pas pu traiter votre demande. Veuillez réessayer ultérieurement."

  datatype Sender = UserSender | BotSender

  datatype Message = Message(sender: Sender, text: string)

  /** A stored exchange as the history request returns it. */
  datatype HistoryEntry = HistoryEntry(isBot: bool, question: string, reponse: string)

  function HistoryMessage(h: HistoryEntry): Message
  {
    if h.isBot then Message(BotSender, h.reponse) else Message(UserSender, h.question)
  }

  /** The history shown as messages, one per entry and in the same order:
      bot entries show the answer, the others the question. */
  function HistoryMessages(history: seq<HistoryEntry>): (r: seq<Message>)
    ensures |r| == |history|
    ensures forall i :: 0 <= i < |r| ==> (r[i].sender == BotSender <==> history[i].isBot)
    ensures forall i :: 0 <= i < |r| ==> r[i].text == if history[i].isBot then history[i].reponse else history[i].question
  {
    seq(|history|, i requires 0 <= i < |history| => HistoryMessage(history[i]))
  }

  /** The answer to a question: the server's response, or the apology when
      the request fails. */
  function BotReply(reply: Option<string>): (m: Message)
    ensures m.sender == BotSender
    ensures reply.Some? ==> m.text == reply.value
    ensures reply.None? ==> m.text == Apology
  {
    Message(BotSender, if reply.Some? then reply.value else Apology)
  }

  /** The panel's state. */
  class ChatbotView {
    var messages: seq<Message>
    var newMessage: string
    var loading: bool

    constructor()
      ensures messages == [] && newMessage == "" && !loading
    {
      messages := [];
      newMessage := "";
      loading := false;
    }

    /** `fetchPreviousMessages`: a non-empty history replaces the list; an
        empty or missing one, or a failed request, leaves it. */
    method LoadHistory(history: Option<seq<HistoryEntry>>)
      modifies this
      ensures messages == if history.Some? && |history.value| > 0 then HistoryMessages(history.value) else old(messages)
      ensures newMessage == old(newMessage) && loading == old(loading)
    {
      if history.Some? && |history.value| > 0 {
        messages := HistoryMessages(history.value);
      }
    }

    /** The first half of `handleSubmit`: a blank input does nothing;
        otherwise the input is appended as the user's message and cleared,
        and the panel waits. */
    method Send() returns (question: Option<string>)
      modifies this
      ensures Trim(old(newMessage)) == "" ==>
                question == None && messages == old(messages) && newMessage == old(newMessage) && loading == old(loading)
      ensures Trim(old(newMessage)) != "" ==>
                question == Some(old(newMessage)) && messages == old(messages) + [Message(UserSender, old(newMessage))] &&
                newMessage == "" && loading
    {
      if Trim(newMessage) == "" {
        return None;
      }
      messages := messages + [Message(UserSender, newMessage)];
      question := Some(newMessage);
      newMessage := "";
      loading := true;
    }

    /** The second half: exactly one bot message follows, and the panel
        stops waiting whatever the outcome. */
    method Receive(reply: Option<string>)
      modifies this
      ensures messages == old(messages) + [BotReply(reply)]
      ensures !loading && newMessage == old(newMessage)
    {
      messages := messages + [BotReply(reply)];
      loading := false;
    }

    /** `handleSubmit` as one step, `reply` being the server's answer to the
        question or `None` when the request fails. */
    method HandleSubmit(reply: Option<string>) returns (asked: Option<string>)
      modifies this
      ensures IsBlank(old(newMessage)) ==>
                asked == None && messages == old(messages) && newMessage == old(newMessage) && loading == old(loading)
      ensures !IsBlank(old(newMessage)) ==>
                asked == Some(old(newMessage)) &&
                messages == old(messages) + [Message(UserSender, old(newMessage)), BotReply(reply)] &&
                newMessage == "" && !loading
    {
      TrimEmptyIffBlank(newMessage);
      asked := Send();
      if asked.Some? {
        Receive(reply);
      }
    }
  }
}
