/** The stored message record and its schema (models/Message.ts): required
    fields, the `trim` setter and `maxlength` on `content`, and the
    defaults for `isRead` and `createdAt`. */
module MessageModel {
  import opened Common
  import Text

  const MaxContentLength: nat := 1000

  datatype Message = Message(
    id: string,
    sender: string,
    receiver: string,
    senderUsername: string,
    receiverUsername: string,
    content: string,
    conversationId: string,
    isRead: bool,
    readAt: Option<Time>,
    createdAt: Time)

  /** The fields a caller supplies to `new Message({...})`. */
  datatype Draft = Draft(
    sender: string,
    receiver: string,
    senderUsername: string,
    receiverUsername: string,
    content: string,
    conversationId: string)

  /** A record the schema accepts: every required field present (a required
      string may not be empty), content trimmed and within the length bound. */
  predicate Valid(m: Message) {
    && m.sender != "" && m.receiver != ""
    && m.senderUsername != "" && m.receiverUsername != ""
    && m.content != "" && m.content == Text.Trim(m.content) && |m.content| <= MaxContentLength
    && m.conversationId != ""
  }

  /** The schema paths whose validators reject the draft once `content` has
      been through the `trim` setter. */
  function Failures(d: Draft): set<string> {
    var content := Text.Trim(d.content);
    (if d.sender == "" then {"sender"} else {}) +
    (if d.receiver == "" then {"receiver"} else {}) +
    (if d.senderUsername == "" then {"senderUsername"} else {}) +
    (if d.receiverUsername == "" then {"receiverUsername"} else {}) +
    (if content == "" || |content| > MaxContentLength then {"content"} else {}) +
    (if d.conversationId == "" then {"conversationId"} else {})
  }

  /** `new Message(d)` followed by validation on `save()`: `id` is the
      generated `_id`, `now` the time of creation, `createdAt` an explicitly
      supplied creation time if any. */
  function Create(d: Draft, id: string, now: Time, createdAt: Option<Time>): (r: Result<Message, set<string>>)
    ensures r.Ok? <==>
      && d.sender != "" && d.receiver != "" && d.senderUsername != "" && d.receiverUsername != ""
      && d.conversationId != "" && Text.Trim(d.content) != "" && |Text.Trim(d.content)| <= MaxContentLength
    ensures r.Ok? ==> Valid(r.value)
    ensures r.Ok? ==> !r.value.isRead && r.value.readAt == None
    ensures r.Ok? ==> r.value.createdAt == (if createdAt.Some? then createdAt.value else now)
    ensures r.Ok? ==> r.value.content == Text.Trim(d.content) && r.value.id == id
    ensures r.Ok? ==> r.value.sender == d.sender && r.value.receiver == d.receiver
    ensures r.Ok? ==> r.value.senderUsername == d.senderUsername && r.value.receiverUsername == d.receiverUsername
    ensures r.Ok? ==> r.value.conversationId == d.conversationId
    ensures r.Err? ==> r.error != {}
  {
    var failures := Failures(d);
    if failures != {} then Err(failures)
    else
      Text.TrimIdempotent(d.content);
      Ok(Message(id, d.sender, d.receiver, d.senderUsername, d.receiverUsername,
                 Text.Trim(d.content), d.conversationId, false, None, createdAt.GetOr(now)))
  }

  /** A draft whose content is blank, even if every other field is there,
      is refused on the `content` path. */
  lemma BlankContentRejected(d: Draft, id: string, now: Time)
    requires Text.AllSpace(d.content)
    ensures Create(d, id, now, None).Err?
    ensures "content" in Create(d, id, now, None).error
  {
    Text.TrimEmptyIff(d.content);
  }
}
