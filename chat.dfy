/**
 * The maintenance-ticket chat screen: a list of messages and a draft, and the
 * send button that turns a non-blank draft into one more message.
 */
module Chat {
  import opened TextUtil

  datatype Message = Message(id: int, text: string, sender: string)

  /** The list every ticket is shown on opening: support, user, support. */
  const DummyMessages: seq<Message> := [
    Message(1, "Hello, how can I help you with this maintenance issue?", "support"),
    Message(2, "The AC unit is not working properly", "user"),
    Message(3, "I understand. When did you first notice the issue?", "support")
  ]

  /** The ids are exactly 1, 2, ..., n in list order. */
  predicate IdsSequential(ms: seq<Message>)
  {
    forall i :: 0 <= i < |ms| ==> ms[i].id == i + 1
  }

  /** No two messages share an id (React keys the bubbles by id). */
  predicate IdsDistinct(ms: seq<Message>)
  {
    forall i, j :: 0 <= i < j < |ms| ==> ms[i].id != ms[j].id
  }

  /** The message a send appends: numbered after the current count, from the user, text as typed. */
  function OutgoingMessage(messages: seq<Message>, draft: string): (m: Message)
    ensures IdsSequential(messages) ==> forall i :: 0 <= i < |messages| ==> messages[i].id < m.id
  {
    Message(|messages| + 1, draft, "user")
  }

  class ChatScreen {
    const ticketId: string
    var messages: seq<Message>
    var newMessage: string

    /** The screen mounts with no messages and an empty draft. */
    constructor (ticketId: string)
      ensures this.ticketId == ticketId
      ensures messages == [] && newMessage == ""
    {
      this.ticketId := ticketId;
      messages := [];
      newMessage := "";
    }

    /** The effect run for each ticket id: the dummy list replaces the messages. */
    method LoadMessages()
      modifies this`messages
      ensures messages == DummyMessages
    {
      messages := DummyMessages;
    }

    /** Typing in the input replaces the draft. */
    method SetNewMessage(text: string)
      modifies this`newMessage
      ensures newMessage == text
    {
      newMessage := text;
    }

    /**
     * `handleSend`: a draft that trims to nothing changes nothing; otherwise the
     * untrimmed draft is appended as the user's message numbered `count + 1`,
     * every earlier message stays where it was, and the draft is cleared.
     */
    method HandleSend()
      modifies this`messages, this`newMessage
      ensures IsBlank(old(newMessage)) ==> messages == old(messages) && newMessage == old(newMessage)
      ensures !IsBlank(old(newMessage)) ==>
        && |messages| == |old(messages)| + 1
        && messages[..|old(messages)|] == old(messages)
        && messages[|old(messages)|] == Message(|old(messages)| + 1, old(newMessage), "user")
        && newMessage == ""
    {
      if Trim(newMessage) != "" {
        var message := OutgoingMessage(messages, newMessage);
        messages := messages + [message];
        newMessage := "";
      }
    }
  }

  /** The dummy list is numbered 1, 2, 3. */
  lemma DummyIdsSequential()
    ensures IdsSequential(DummyMessages) && |DummyMessages| == 3
  {
  }

  /** Sequential ids are distinct. */
  lemma SequentialIdsDistinct(ms: seq<Message>)
    requires IdsSequential(ms)
    ensures IdsDistinct(ms)
  {
  }

  /** A send keeps the numbering 1..n: afterwards the ids are 1..n+1, pairwise distinct. */
  lemma SendKeepsIdsSequential(ms: seq<Message>, draft: string)
    requires IdsSequential(ms)
    ensures IdsSequential(ms + [OutgoingMessage(ms, draft)])
    ensures IdsDistinct(ms + [OutgoingMessage(ms, draft)])
  {
    SequentialIdsDistinct(ms + [OutgoingMessage(ms, draft)]);
  }

  /** Any number of accepted sends after loading keeps the ids 1..n. */
  lemma {:induction false} SendsKeepIdsSequential(ms: seq<Message>, drafts: seq<string>)
    requires IdsSequential(ms)
    ensures IdsSequential(SendAll(ms, drafts)) && |SendAll(ms, drafts)| == |ms| + |drafts|
    decreases |drafts|
  {
    if drafts != [] {
      SendKeepsIdsSequential(ms, drafts[0]);
      SendsKeepIdsSequential(ms + [OutgoingMessage(ms, drafts[0])], drafts[1..]);
    }
  }

  /** The list after sending each of `drafts` in turn (all accepted). */
  function SendAll(ms: seq<Message>, drafts: seq<string>): seq<Message>
    decreases |drafts|
  {
    if drafts == [] then ms else SendAll(ms + [OutgoingMessage(ms, drafts[0])], drafts[1..])
  }
}
