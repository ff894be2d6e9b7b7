/** The chat page's message list and send flow (app/chat/page.tsx):
    the `message` socket handler's reducer and `handleSendMessage`.
    Rendering, scrolling, storage and navigation are not modelled. */
module ChatClient {
  import opened Common
  import Text

  /** A message as the page holds it. */
  datatype ChatMessage = ChatMessage(id: string, sender: string, senderUsername: string,
                                     content: string, room: string, createdAt: string)

  /** `prev.some((m) => m._id === id)`. */
  function HasId(ms: seq<ChatMessage>, id: string): (b: bool)
    ensures b <==> exists i :: 0 <= i < |ms| && ms[i].id == id
  {
    if ms == [] then false
    else
      assert forall i :: 0 < i < |ms| ==> ms[i] == ms[1..][i - 1];
      ms[0].id == id || HasId(ms[1..], id)
  }

  /** The reducer of the `message` handler: an already listed id is
      ignored, anything else goes at the end. */
  function OnMessage(prev: seq<ChatMessage>, m: ChatMessage): seq<ChatMessage> {
    if HasId(prev, m.id) then prev else prev + [m]
  }

  /** A listed id leaves the list as it was; any other message is appended
      after the earlier ones, which keep their order. */
  lemma OnMessageSpec(prev: seq<ChatMessage>, m: ChatMessage)
    ensures (exists i :: 0 <= i < |prev| && prev[i].id == m.id) ==> OnMessage(prev, m) == prev
    ensures (forall i :: 0 <= i < |prev| ==> prev[i].id != m.id) ==>
      |OnMessage(prev, m)| == |prev| + 1 && OnMessage(prev, m)[..|prev|] == prev && OnMessage(prev, m)[|prev|] == m
  {
  }

  /** Delivering the same message twice is delivering it once. */
  lemma OnMessageIdempotent(prev: seq<ChatMessage>, m: ChatMessage)
    ensures OnMessage(OnMessage(prev, m), m) == OnMessage(prev, m)
  {
    var once := OnMessage(prev, m);
    assert once[|once| - 1].id == m.id || HasId(prev, m.id);
  }

  predicate UniqueIds(ms: seq<ChatMessage>) {
    forall i, j :: 0 <= i < j < |ms| ==> ms[i].id != ms[j].id
  }

  /** The reducer never introduces a second message with the same id. */
  lemma OnMessageKeepsUnique(prev: seq<ChatMessage>, m: ChatMessage)
    requires UniqueIds(prev)
    ensures UniqueIds(OnMessage(prev, m))
  {
  }

  /** What beginning a send did: nothing, a redirect to the login page
      (no stored token), or a POST of the trimmed draft. */
  datatype SendStart = Ignored | LoginRedirect | Posted(content: string)

  /** How the POST ended: a created message, an error response with its
      optional `error` field, or a failure to get or read a response. */
  datatype PostOutcome = Created(message: ChatMessage) | Rejected(error: Option<string>) | Unreachable

  const SendFailed: string := "Failed to send message"

  /** The page state `handleSendMessage` touches. */
  class ChatPage {
    var messages: seq<ChatMessage>
    var newMessage: string
    var sending: bool
    var error: string
    var connected: bool
    /** The contents sent over the socket as `sendMessage`, in order. */
    var socketSends: seq<string>

    constructor ()
      ensures messages == [] && newMessage == "" && !sending && error == "" && !connected && socketSends == []
    {
      messages := [];
      newMessage := "";
      sending := false;
      error := "";
      connected := false;
      socketSends := [];
    }

    /** The socket `message` handler. */
    method ReceiveMessage(m: ChatMessage)
      modifies this`messages
      ensures messages == OnMessage(old(messages), m)
    {
      if !HasId(messages, m.id) {
        messages := messages + [m];
      }
    }

    /** `handleSendMessage` up to the awaited request: a blank draft or a
        send in flight changes nothing; otherwise the send starts with the
        error cleared. */
    method BeginSend(hasToken: bool) returns (start: SendStart)
      modifies this`sending, this`error
      ensures Text.Trim(old(newMessage)) == "" || old(sending) ==>
        start == Ignored && sending == old(sending) && error == old(error)
      ensures Text.Trim(old(newMessage)) != "" && !old(sending) && !hasToken ==>
        start == LoginRedirect && sending == old(sending) && error == old(error)
      ensures Text.Trim(old(newMessage)) != "" && !old(sending) && hasToken ==>
        start == Posted(Text.Trim(newMessage)) && sending && error == ""
    {
      if Text.Trim(newMessage) == "" || sending {
        return Ignored;
      }
      if !hasToken {
        return LoginRedirect;
      }
      sending := true;
      error := "";
      start := Posted(Text.Trim(newMessage));
    }

    /** `handleSendMessage` after the request: on success the created
        message is appended, the draft cleared and the content relayed over
        a connected socket; on failure an error is shown and the draft
        kept. Either way the send is over. */
    method FinishSend(content: string, outcome: PostOutcome)
      modifies this`messages, this`newMessage, this`sending, this`error, this`socketSends
      ensures !sending
      ensures outcome.Created? ==>
        && messages == old(messages) + [outcome.message] && newMessage == "" && error == old(error)
        && socketSends == old(socketSends) + (if connected then [content] else [])
      ensures outcome.Rejected? ==>
        && messages == old(messages) && newMessage == old(newMessage) && socketSends == old(socketSends)
        && error == (if Present(outcome.error) then outcome.error.value else SendFailed)
      ensures outcome.Unreachable? ==>
        && messages == old(messages) && newMessage == old(newMessage) && socketSends == old(socketSends)
        && error == SendFailed
    {
      match outcome {
        case Created(m) =>
          messages := messages + [m];
          newMessage := "";
          if connected {
            socketSends := socketSends + [content];
          }
        case Rejected(e) =>
          error := if Present(e) then e.value else SendFailed;
        case Unreachable =>
          error := SendFailed;
      }
      sending := false;
    }
  }
}
