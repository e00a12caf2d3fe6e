/**
 * The message thread of a complaint: posting a validated message, and reading
 * a thread oldest first.  Messages are linked to their complaint by tracking id.
 */
module MessageRoutes {
  import opened Strings
  import opened Documents
  import opened Store
  import opened Sorting

  const Senders: seq<string> := ["admin", "user", "super"]

  const MissingFieldsError: string := "sender and text are required."
  const EmptyTextError: string := "Message text cannot be empty."
  const NotFoundError: string := "Complaint not found."

  function UnknownSenderError(): string
  {
    "sender must be one of: " + Join(Senders, ", ") + "."
  }

  /** `newMessage`: the stored message, with the text trimmed. */
  function NewMessage(trackingId: string, sender: string, text: string, timestamp: string): (m: Doc)
    ensures m.Keys == {"complaintId", "sender", "text", "timestamp"}
    ensures FieldIs(m, "complaintId", Str(trackingId)) && FieldIs(m, "sender", Str(sender))
    ensures FieldIs(m, "text", Str(Trim(text))) && FieldIs(m, "timestamp", Str(timestamp))
  {
    map["complaintId" := Str(trackingId), "sender" := Str(sender), "text" := Str(Trim(text)), "timestamp" := Str(timestamp)]
  }

  /** The reply of POST /api/messages/:trackingId.  The checks come in the
      order the route makes them; `messageDocId` is the id `add` generates. */
  function PostOutcome(complaints: map<string, Doc>, trackingId: string, body: Doc,
                       timestamp: string, messageDocId: string): (r: Reply<Doc>)
    ensures !(Truthy(body, "sender") && Truthy(body, "text")) ==> r == Err(400, MissingFieldsError)
    ensures Truthy(body, "sender") && Truthy(body, "text") ==>
      var sender := TextOf(body, "sender");
      var text := TextOf(body, "text");
      && (sender !in Senders ==> r == Err(400, UnknownSenderError()))
      && (sender in Senders && Trim(text) == "" ==> r == Err(400, EmptyTextError))
      && (sender in Senders && Trim(text) != "" && !HasComplaint(complaints, trackingId) ==>
            r == Err(404, NotFoundError))
      && (sender in Senders && Trim(text) != "" && HasComplaint(complaints, trackingId) ==>
            r == Ok(201, WithId(messageDocId, NewMessage(trackingId, sender, text, timestamp))))
    ensures r.Ok? <==>
      && Truthy(body, "sender") && Truthy(body, "text") && TextOf(body, "sender") in Senders
      && Trim(TextOf(body, "text")) != "" && HasComplaint(complaints, trackingId)
  {
    if !(Truthy(body, "sender") && Truthy(body, "text")) then Err(400, MissingFieldsError)
    else
      var sender := TextOf(body, "sender");
      var text := TextOf(body, "text");
      if sender !in Senders then Err(400, UnknownSenderError())
      else if Trim(text) == "" then Err(400, EmptyTextError)
      else if !HasComplaint(complaints, trackingId) then Err(404, NotFoundError)
      else Ok(201, WithId(messageDocId, NewMessage(trackingId, sender, text, timestamp)))
  }

  /** POST /api/messages/:trackingId: a message is appended exactly when the
      reply is 201, and a rejected request changes nothing.  `messageDocId` is
      the id `add` generates, which no stored message has. */
  method PostMessage(db: Db, trackingId: string, body: Doc, timestamp: string, messageDocId: string)
    returns (reply: Reply<Doc>)
    requires db.Valid()
    requires forall m :: m in db.messages ==> m.id != messageDocId
    modifies db
    ensures db.Valid()
    ensures reply == PostOutcome(old(db.complaints), trackingId, body, timestamp, messageDocId)
    ensures reply.Err? ==> unchanged(db)
    ensures reply.Ok? ==>
      db.messages == old(db.messages)
           + [Stored(messageDocId, NewMessage(trackingId, TextOf(body, "sender"), TextOf(body, "text"), timestamp))]
    ensures reply.Ok? ==> unchanged(db`complaints, db`identities)
  {
    reply := PostOutcome(db.complaints, trackingId, body, timestamp, messageDocId);
    if reply.Ok? {
      var m := NewMessage(trackingId, TextOf(body, "sender"), TextOf(body, "text"), timestamp);
      db.messages := db.messages + [Stored(messageDocId, m)];
    }
  }

  /** A message that has passed the route's checks has non-blank text with no
      white space at either end. */
  lemma PostedTextIsTrimmed(text: string)
    requires Trim(text) != ""
    ensures var t := Trim(text); !IsSpace(t[0]) && !IsSpace(t[|t| - 1]) && Contains(text, t)
  {
  }

  /** The thread of `trackingId`: its messages in stored order, each with its id. */
  function Thread(messages: seq<Stored>, trackingId: string): (r: seq<Doc>)
    ensures |r| <= |messages|
    ensures forall d :: d in r <==>
      exists i :: 0 <= i < |messages| && FieldIs(messages[i].data, "complaintId", Str(trackingId))
        && d == WithId(messages[i].id, messages[i].data)
  {
    if |messages| == 0 then []
    else
      var rest := Thread(messages[1..], trackingId);
      assert forall i :: 1 <= i < |messages| ==> messages[i] == messages[1..][i - 1];
      assert forall i :: 0 <= i < |messages| - 1 ==> messages[1..][i] == messages[i + 1];
      var m := messages[0];
      (if FieldIs(m.data, "complaintId", Str(trackingId)) then [WithId(m.id, m.data)] else []) + rest
  }

  /** Appending a message extends its own thread by that message and leaves
      every other thread as it was. */
  lemma {:induction false} ThreadAfterAppend(messages: seq<Stored>, m: Stored, trackingId: string)
    ensures FieldIs(m.data, "complaintId", Str(trackingId)) ==>
      Thread(messages + [m], trackingId) == Thread(messages, trackingId) + [WithId(m.id, m.data)]
    ensures !FieldIs(m.data, "complaintId", Str(trackingId)) ==>
      Thread(messages + [m], trackingId) == Thread(messages, trackingId)
  {
    if |messages| > 0 {
      assert (messages + [m])[1..] == messages[1..] + [m];
      ThreadAfterAppend(messages[1..], m, trackingId);
    }
  }

  /** GET /api/messages/:trackingId: the thread, ordered by timestamp, oldest
      first, a missing timestamp counting as the empty string. */
  method ListMessages(db: Db, trackingId: string) returns (listing: seq<Doc>)
    ensures SortedBy(listing, "timestamp", false)
    ensures multiset(listing) == multiset(Thread(db.messages, trackingId))
    ensures forall d :: d in listing <==>
      exists i :: 0 <= i < |db.messages| && FieldIs(db.messages[i].data, "complaintId", Str(trackingId))
        && d == WithId(db.messages[i].id, db.messages[i].data)
  {
    var thread := Thread(db.messages, trackingId);
    listing := SortBy(thread, "timestamp", false);
    assert forall d :: d in listing <==> d in multiset(listing);
    assert forall d :: d in thread <==> d in multiset(thread);
  }
}
