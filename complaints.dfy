/**
 * The public complaint routes: anonymous submission, lookup by tracking id,
 * the unrestricted status update, deletion and the full listing.
 */
module ComplaintRoutes {
  import opened Strings
  import opened Documents
  import opened Store
  import opened Sorting
  import Tracking

  const RequiredFieldsError: string := "title, description, and category are required."
  const NotFoundError: string := "Complaint not found."

  /** The statuses this route accepts: a vocabulary of its own, with
      "In Progress" and "Cancelled", which the status workflow does not know. */
  const AnonymousStatuses: seq<string> := ["Pending", "In Progress", "Resolved", "Rejected", "Cancelled"]

  /** The fields `{ userId, email, phone, name, ...safeData }` removes. */
  const SensitiveFields: set<string> := {"userId", "email", "phone", "name"}

  /** `title`, `description` and `category` are all truthy. */
  predicate HasRequiredFields(body: Doc)
  {
    Truthy(body, "title") && Truthy(body, "description") && Truthy(body, "category")
  }

  /** `newComplaint`: the public record of a submission. */
  function NewComplaint(body: Doc, trackingId: string, timestamp: string): (d: Doc)
    requires HasRequiredFields(body)
    ensures d.Keys == {"title", "description", "category", "trackingId", "status", "createdAt", "updatedAt"}
    ensures WellFormedComplaint(d)
    ensures d["status"] == Str("Pending")
    ensures d["createdAt"] == d["updatedAt"] == Str(timestamp)
    ensures d["trackingId"] == Str(trackingId)
    ensures d["title"] == body["title"] && d["description"] == body["description"] && d["category"] == body["category"]
  {
    map[
      "title" := body["title"],
      "description" := body["description"],
      "category" := body["category"],
      "trackingId" := Str(trackingId),
      "status" := Str("Pending"),
      "createdAt" := Str(timestamp),
      "updatedAt" := Str(timestamp)
    ]
  }

  /** `identityData`: the private record; an absent or falsy identity field is stored as null. */
  function IdentityRecord(body: Doc, trackingId: string, timestamp: string): (d: Doc)
    ensures d.Keys == {"trackingId", "name", "email", "phone", "createdAt"}
    ensures d["trackingId"] == Str(trackingId) && d["createdAt"] == Str(timestamp)
    ensures forall f :: f == "name" || f == "email" || f == "phone" ==>
      (Truthy(body, f) ==> d[f] == body[f]) && (!Truthy(body, f) ==> d[f] == Null)
  {
    map[
      "trackingId" := Str(trackingId),
      "name" := OrNull(body, "name"),
      "email" := OrNull(body, "email"),
      "phone" := OrNull(body, "phone"),
      "createdAt" := Str(timestamp)
    ]
  }

  /** POST /api/complaints.  Both records are written by one batch, which is a
      single update of the store here.  `complaintDocId` and `identityDocId` are
      the ids `collection.doc()` generated; an automatic id is never one its
      collection already holds. */
  method Submit(db: Db, body: Doc, year: nat, picks: seq<int>, timestamp: string,
                complaintDocId: string, identityDocId: string)
    returns (reply: Reply<Doc>)
    requires db.Valid()
    requires |picks| == 5
    requires complaintDocId !in db.complaints
    requires forall r :: r in db.identities ==> r.id != identityDocId
    modifies db
    ensures db.Valid()
    ensures !HasRequiredFields(body) ==> reply == Err(400, RequiredFieldsError) && unchanged(db)
    ensures HasRequiredFields(body) ==>
      var trackingId := Tracking.TrackingId(year, picks);
      && reply == Ok(201, map["trackingId" := Str(trackingId)])
      && db.complaints == old(db.complaints)[complaintDocId := NewComplaint(body, trackingId, timestamp)]
      && db.identities == InsertById(Stored(identityDocId, IdentityRecord(body, trackingId, timestamp)), old(db.identities))
    ensures unchanged(db`messages)
    ensures reply.Ok? ==>
      && reply.data.Keys == {"trackingId"}
      && HasComplaint(db.complaints, reply.data["trackingId"].s)
      && (forall id :: id in old(db.complaints) ==> id in db.complaints && db.complaints[id] == old(db.complaints)[id])
      && Stored(identityDocId, IdentityRecord(body, reply.data["trackingId"].s, timestamp)) in db.identities
  {
    if !HasRequiredFields(body) {
      return Err(400, RequiredFieldsError);
    }
    var trackingId := Tracking.TrackingId(year, picks);
    var complaint := NewComplaint(body, trackingId, timestamp);
    var identity := Stored(identityDocId, IdentityRecord(body, trackingId, timestamp));
    var complaints := db.complaints[complaintDocId := complaint];
    var identities := InsertById(identity, db.identities);
    assert AllWellFormed(complaints);
    assert forall id :: id in db.complaints ==> id in complaints && complaints[id] == db.complaints[id];
    assert FieldIs(complaints[complaintDocId], "trackingId", Str(trackingId));
    assert identity in multiset(identities);
    db.complaints, db.identities := complaints, identities;
    reply := Ok(201, map["trackingId" := Str(trackingId)]);
  }

  /** `{ id: doc.id, ...safeData }` */
  function PublicView(docId: string, data: Doc): (v: Doc)
    ensures forall k :: k in SensitiveFields ==> k !in v
    ensures v.Keys == (data.Keys - SensitiveFields) + {"id"}
    ensures forall k :: k in data && k !in SensitiveFields ==> v[k] == data[k]
    ensures "id" !in data ==> v["id"] == Str(docId)
  {
    WithId(docId, data - SensitiveFields)
  }

  /** GET /api/complaints/:id, where the parameter is a tracking id. */
  method GetPublic(db: Db, trackingId: string) returns (reply: Reply<Doc>)
    ensures reply.Err? <==> !HasComplaint(db.complaints, trackingId)
    ensures reply.Err? ==> reply == Err(404, NotFoundError)
    ensures reply.Ok? ==>
      && reply.code == 200
      && exists id :: id in db.complaints && FieldIs(db.complaints[id], "trackingId", Str(trackingId))
           && reply.data == PublicView(id, db.complaints[id])
    ensures reply.Ok? ==> forall k :: k in SensitiveFields ==> k !in reply.data
  {
    if !HasComplaint(db.complaints, trackingId) {
      return Err(404, NotFoundError);
    }
    var id :| id in db.complaints && FieldIs(db.complaints[id], "trackingId", Str(trackingId));
    reply := Ok(200, PublicView(id, db.complaints[id]));
  }

  /** PATCH /api/complaints/:id/status: any status of its own list is written
      over any prior status, with no transition check. */
  method UpdateStatus(db: Db, docId: string, body: Doc, timestamp: string) returns (reply: Reply<string>)
    requires db.Valid()
    modifies db
    ensures db.Valid()
    ensures !(Truthy(body, "status") && TextOf(body, "status") in AnonymousStatuses) ==>
      reply == Err(400, "Status must be one of: " + Join(AnonymousStatuses, ", ")) && unchanged(db)
    ensures Truthy(body, "status") && TextOf(body, "status") in AnonymousStatuses ==>
      if docId !in old(db.complaints) then
        reply == Err(404, NotFoundError) && unchanged(db)
      else
        && reply == Ok(200, "Complaint status updated.")
        && db.complaints == old(db.complaints)[docId := WithStatus(old(db.complaints)[docId], TextOf(body, "status"), timestamp)]
        && unchanged(db`identities, db`messages)
  {
    if !(Truthy(body, "status") && TextOf(body, "status") in AnonymousStatuses) {
      return Err(400, "Status must be one of: " + Join(AnonymousStatuses, ", "));
    }
    if docId !in db.complaints {
      return Err(404, NotFoundError);
    }
    db.complaints := db.complaints[docId := WithStatus(db.complaints[docId], TextOf(body, "status"), timestamp)];
    reply := Ok(200, "Complaint status updated.");
  }

  /** DELETE /api/complaints/:id: removes the complaint document only; its
      identity record stays in `identity_map`. */
  method Delete(db: Db, docId: string) returns (reply: Reply<string>)
    requires db.Valid()
    modifies db
    ensures db.Valid()
    ensures docId !in old(db.complaints) ==> reply == Err(404, NotFoundError) && unchanged(db)
    ensures docId in old(db.complaints) ==>
      && reply == Ok(200, "Complaint deleted successfully.")
      && db.complaints == old(db.complaints) - {docId}
      && unchanged(db`identities, db`messages)
  {
    if docId !in db.complaints {
      return Err(404, NotFoundError);
    }
    db.complaints := db.complaints - {docId};
    reply := Ok(200, "Complaint deleted successfully.");
  }
}
