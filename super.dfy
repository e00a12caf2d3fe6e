/**
 * The super-admin routes: complaints joined with their identity records.  The
 * join reads `identity_map` and writes nothing.
 */
module SuperRoutes {
  import opened Wrappers
  import opened Strings
  import opened Documents
  import opened Store
  import opened Sorting
  import ComplaintRoutes

  const NotFoundError: string := "Complaint not found."

  const IdentityFields: set<string> := {"name", "email", "phone"}

  /** `where('trackingId', '==', value).limit(1)` on `identity_map`: the
      position of the first matching record, in the collection's order. */
  function FirstMatch(identities: seq<Stored>, value: Value): (r: Option<nat>)
    ensures r.None? <==> forall i :: 0 <= i < |identities| ==> !FieldIs(identities[i].data, "trackingId", value)
    ensures r.Some? ==>
      && r.value < |identities|
      && FieldIs(identities[r.value].data, "trackingId", value)
      && forall j :: 0 <= j < r.value ==> !FieldIs(identities[j].data, "trackingId", value)
  {
    if |identities| == 0 then None
    else if FieldIs(identities[0].data, "trackingId", value) then Some(0)
    else
      var rest := FirstMatch(identities[1..], value);
      assert forall i :: 1 <= i < |identities| ==> identities[i] == identities[1..][i - 1];
      if rest.None? then None else Some(rest.value + 1)
  }

  /** The data of the first identity record for `value`, if there is one. */
  function FirstIdentity(identities: seq<Stored>, value: Value): (r: Option<Doc>)
    ensures r.None? <==> forall i :: 0 <= i < |identities| ==> !FieldIs(identities[i].data, "trackingId", value)
    ensures r.Some? ==> exists i :: 0 <= i < |identities| && identities[i].data == r.value && FieldIs(r.value, "trackingId", value)
    ensures r.Some? ==> exists i :: && 0 <= i < |identities| && identities[i].data == r.value
                                    && FieldIs(identities[i].data, "trackingId", value)
                                    && (forall j :: 0 <= j < i ==> !FieldIs(identities[j].data, "trackingId", value))
  {
    match FirstMatch(identities, value)
    case None => None
    case Some(i) => Some(identities[i].data)
  }

  /** `{ ...complaint, name: identity.name || null, ... }`, where a missing
      identity record reads as `{}`. */
  function Join(complaint: Doc, identity: Option<Doc>): (r: Doc)
    ensures r.Keys == complaint.Keys + IdentityFields
    ensures forall k :: k in complaint && k !in IdentityFields ==> r[k] == complaint[k]
    ensures identity.None? ==> r["name"] == Null && r["email"] == Null && r["phone"] == Null
    ensures identity.Some? ==> forall f :: f in IdentityFields ==>
      (Truthy(identity.value, f) ==> r[f] == identity.value[f]) && (!Truthy(identity.value, f) ==> r[f] == Null)
  {
    var source := if identity.Some? then identity.value else map[];
    complaint + map["name" := OrNull(source, "name"), "email" := OrNull(source, "email"), "phone" := OrNull(source, "phone")]
  }

  /** The join leaves the creation time alone, so it keeps any order by it. */
  lemma JoinKeepsOrder(listing: seq<Doc>, joined: seq<Doc>, identities: seq<Stored>)
    requires SortedBy(listing, "createdAt", true)
    requires |joined| == |listing|
    requires forall i :: 0 <= i < |listing| ==> joined[i] == Join(listing[i], FirstIdentity(identities, TrackingValue(listing[i])))
    ensures SortedBy(joined, "createdAt", true)
  {
    forall i | 0 <= i < |joined| ensures KeyOf(joined[i], "createdAt") == KeyOf(listing[i], "createdAt") {
      assert "createdAt" !in IdentityFields;
    }
  }

  /** The value `complaint.trackingId` holds, `null` standing in for a missing field. */
  function TrackingValue(d: Doc): Value
  {
    if "trackingId" in d then d["trackingId"] else Null
  }

  /** The joined entry of the complaint stored under `id`. */
  function JoinedEntry(id: string, complaints: map<string, Doc>, identities: seq<Stored>): Doc
    requires id in complaints
  {
    Join(WithId(id, complaints[id]), FirstIdentity(identities, TrackingValue(complaints[id])))
  }

  /** Joining every entry of a complaint listing gives joined entries of complaints ... */
  lemma JoinedListingSound(listing: seq<Doc>, joined: seq<Doc>, complaints: map<string, Doc>, identities: seq<Stored>)
    requires IsListing(listing, complaints)
    requires |joined| == |listing|
    requires forall i :: 0 <= i < |listing| ==> joined[i] == Join(listing[i], FirstIdentity(identities, TrackingValue(listing[i])))
    ensures forall i :: 0 <= i < |joined| ==> exists id :: id in complaints && joined[i] == JoinedEntry(id, complaints, identities)
  {
    forall i | 0 <= i < |joined|
      ensures exists id :: id in complaints && joined[i] == JoinedEntry(id, complaints, identities)
    {
      var id :| id in complaints && listing[i] == WithId(id, complaints[id]);
      EntryOfListing(id, complaints, identities, listing[i]);
    }
  }

  /** ... and the joined entry of every complaint. */
  lemma JoinedListingComplete(listing: seq<Doc>, joined: seq<Doc>, complaints: map<string, Doc>, identities: seq<Stored>)
    requires IsListing(listing, complaints)
    requires |joined| == |listing|
    requires forall i :: 0 <= i < |listing| ==> joined[i] == Join(listing[i], FirstIdentity(identities, TrackingValue(listing[i])))
    ensures forall id :: id in complaints ==> JoinedEntry(id, complaints, identities) in joined
  {
    forall id | id in complaints ensures JoinedEntry(id, complaints, identities) in joined {
      var i :| 0 <= i < |listing| && listing[i] == WithId(id, complaints[id]);
      EntryOfListing(id, complaints, identities, listing[i]);
      assert joined[i] == JoinedEntry(id, complaints, identities);
    }
  }

  lemma EntryOfListing(id: string, complaints: map<string, Doc>, identities: seq<Stored>, entry: Doc)
    requires id in complaints && entry == WithId(id, complaints[id])
    ensures Join(entry, FirstIdentity(identities, TrackingValue(entry))) == JoinedEntry(id, complaints, identities)
  {
    assert TrackingValue(entry) == TrackingValue(complaints[id]);
  }

  /** `Promise.all(docs.map(...))`: the entries of a listing, each joined, in order. */
  function JoinAll(listing: seq<Doc>, identities: seq<Stored>): (joined: seq<Doc>)
    ensures |joined| == |listing|
    ensures forall i :: 0 <= i < |listing| ==> joined[i] == Join(listing[i], FirstIdentity(identities, TrackingValue(listing[i])))
  {
    seq(|listing|, i requires 0 <= i < |listing| => Join(listing[i], FirstIdentity(identities, TrackingValue(listing[i]))))
  }

  /** GET /api/super/complaints: the listing newest first, each complaint with
      the identity fields of its first identity record, or nulls. */
  method ListJoined(db: Db) returns (joined: seq<Doc>)
    requires db.Valid()
    ensures |joined| == |db.complaints|
    ensures SortedBy(joined, "createdAt", true)
    ensures forall i :: 0 <= i < |joined| ==>
      exists id :: id in db.complaints && joined[i] == JoinedEntry(id, db.complaints, db.identities)
    ensures forall id :: id in db.complaints ==> JoinedEntry(id, db.complaints, db.identities) in joined
  {
    var listing := ListNewestFirst(db);
    joined := JoinAll(listing, db.identities);
    JoinKeepsOrder(listing, joined, db.identities);
    JoinedListingSound(listing, joined, db.complaints, db.identities);
    JoinedListingComplete(listing, joined, db.complaints, db.identities);
  }

  /** GET /api/super/complaints/:trackingId: the stored data, without the
      document id, joined with the first identity record, or nulls. */
  method GetJoined(db: Db, trackingId: string) returns (reply: Reply<Doc>)
    requires db.Valid()
    ensures reply.Err? <==> !HasComplaint(db.complaints, trackingId)
    ensures reply.Err? ==> reply == Err(404, NotFoundError)
    ensures reply.Ok? ==>
      && reply.code == 200
      && "id" !in reply.data
      && exists id :: id in db.complaints && FieldIs(db.complaints[id], "trackingId", Str(trackingId))
           && reply.data == Join(db.complaints[id], FirstIdentity(db.identities, Str(trackingId)))
  {
    if !HasComplaint(db.complaints, trackingId) {
      return Err(404, NotFoundError);
    }
    var id :| id in db.complaints && FieldIs(db.complaints[id], "trackingId", Str(trackingId));
    reply := Ok(200, Join(db.complaints[id], FirstIdentity(db.identities, Str(trackingId))));
  }

  /** What the anonymous submission separates, the join puts back together: the
      complaint joined with its own identity record shows the identity fields
      as submitted, with null for an absent or empty one, and every complaint
      field unchanged. */
  lemma JoinRestoresSubmission(body: Doc, trackingId: string, timestamp: string)
    requires ComplaintRoutes.HasRequiredFields(body)
    ensures var complaint := ComplaintRoutes.NewComplaint(body, trackingId, timestamp);
      var r := Join(complaint, Some(ComplaintRoutes.IdentityRecord(body, trackingId, timestamp)));
      && (forall k :: k in complaint ==> r[k] == complaint[k])
      && (forall f :: f in IdentityFields ==> r[f] == OrNull(body, f))
  {
  }

  /** In an id-ordered `identity_map`, the record the join shows is the
      matching one with the smallest document id. */
  lemma FirstMatchHasLeastId(identities: seq<Stored>, value: Value)
    requires IdsAscending(identities)
    ensures FirstMatch(identities, value).Some? ==>
      forall j :: 0 <= j < |identities| && FieldIs(identities[j].data, "trackingId", value) ==>
        LexLeq(identities[FirstMatch(identities, value).value].id, identities[j].id)
  {
    if FirstMatch(identities, value).Some? {
      var k := FirstMatch(identities, value).value;
      LexLeqTotal(identities[k].id, identities[k].id);
    }
  }

  /** A matching position with no match before it is the first match. */
  lemma FirstMatchAt(identities: seq<Stored>, value: Value, p: nat)
    requires p < |identities| && FieldIs(identities[p].data, "trackingId", value)
    requires forall j :: 0 <= j < p ==> !FieldIs(identities[j].data, "trackingId", value)
    ensures FirstMatch(identities, value) == Some(p)
  {
  }

  /** A record added with an id that sorts at or after the shown record's id
      leaves the join as it was ... */
  lemma LaterIdKeepsIdentity(identities: seq<Stored>, extra: Stored, value: Value)
    requires IdsAscending(identities)
    requires FirstMatch(identities, value).Some?
    requires LexLeq(identities[FirstMatch(identities, value).value].id, extra.id)
    ensures FirstIdentity(InsertById(extra, identities), value) == FirstIdentity(identities, value)
  {
    var k := FirstMatch(identities, value).value;
    var p := InsertPosition(extra, identities);
    var out := InsertById(extra, identities);
    assert out == identities[..p] + [extra] + identities[p..];
    if p <= k {
      if p < k {
        LexLeqTransitive(identities[p].id, identities[k].id, extra.id);
      }
      assert false;
    }
    assert forall j :: 0 <= j <= k ==> out[j] == identities[j];
    FirstMatchAt(out, value, k);
  }

  /** ... while a record for the same tracking id whose id sorts before every
      matching one becomes the record the join shows: with colliding tracking
      ids, a later submission's identity can replace an earlier one's. */
  lemma EarlierIdTakesOver(identities: seq<Stored>, extra: Stored, value: Value)
    requires IdsAscending(identities)
    requires FieldIs(extra.data, "trackingId", value)
    requires forall j :: 0 <= j < |identities| && FieldIs(identities[j].data, "trackingId", value) ==>
      !LexLeq(identities[j].id, extra.id)
    ensures FirstIdentity(InsertById(extra, identities), value) == Some(extra.data)
  {
    var p := InsertPosition(extra, identities);
    var out := InsertById(extra, identities);
    assert out == identities[..p] + [extra] + identities[p..];
    assert out[p] == extra;
    assert forall j :: 0 <= j < p ==> out[j] == identities[j];
    FirstMatchAt(out, value, p);
  }
}
