/**
 * The three Firestore collections the backend uses, held in memory:
 * `complaints` (document id to data), `identity_map` (its documents in
 * ascending document-id order, the order a query without `orderBy` returns
 * them) and `messages` (in the order they were added; the thread is read back
 * sorted by timestamp).
 */
module Store {
  import opened Strings
  import opened Documents
  import opened Sorting

  /** The fields that identify a person. */
  predicate IdentityFree(d: Doc)
  {
    "name" !in d && "email" !in d && "phone" !in d
  }

  /** What every complaint document the backend writes satisfies: it holds no
      identity field, and its tracking id and creation time are strings. */
  predicate WellFormedComplaint(d: Doc)
  {
    && IdentityFree(d)
    && "id" !in d
    && "trackingId" in d && d["trackingId"].Str?
    && "createdAt" in d && d["createdAt"].Str?
  }

  class Db {
    var complaints: map<string, Doc>
    var identities: seq<Stored>
    var messages: seq<Stored>

    /** The identity-separation invariant: personal data lives only in
        `identities`, and that collection is kept in document-id order. */
    ghost predicate Valid()
      reads this`complaints, this`identities
    {
      && AllWellFormed(complaints)
      && IdsAscending(identities)
    }

    constructor ()
      ensures Valid()
      ensures complaints == map[] && identities == [] && messages == []
    {
      complaints := map[];
      identities := [];
      messages := [];
    }
  }

  /** Every complaint document is well formed. */
  predicate AllWellFormed(complaints: map<string, Doc>)
  {
    forall id :: id in complaints ==> WellFormedComplaint(complaints[id])
  }

  /** Documents in ascending order of their ids. */
  predicate IdsAscending(records: seq<Stored>)
  {
    forall i, j :: 0 <= i < j < |records| ==> LexLeq(records[i].id, records[j].id)
  }

  /** Where a document with the id of `r` goes in an id-ordered collection:
      after every document whose id sorts at or before its own. */
  function InsertPosition(r: Stored, records: seq<Stored>): (k: nat)
    ensures k <= |records|
    ensures forall j :: 0 <= j < k ==> LexLeq(records[j].id, r.id)
    ensures k < |records| ==> !LexLeq(records[k].id, r.id)
  {
    if |records| == 0 || !LexLeq(records[0].id, r.id) then 0
    else
      var k := InsertPosition(r, records[1..]);
      assert forall j :: 1 <= j < k + 1 ==> records[j] == records[1..][j - 1];
      k + 1
  }

  /** A collection with the document `r` added. */
  function InsertById(r: Stored, records: seq<Stored>): (out: seq<Stored>)
    ensures |out| == |records| + 1
    ensures multiset(out) == multiset(records) + multiset{r}
    ensures IdsAscending(records) ==> IdsAscending(out)
  {
    var k := InsertPosition(r, records);
    var out := records[..k] + [r] + records[k..];
    InsertAddsOne(r, records, k, out);
    InsertKeepsIdOrder(r, records, k, out);
    out
  }

  lemma InsertAddsOne(r: Stored, records: seq<Stored>, k: nat, out: seq<Stored>)
    requires k <= |records| && out == records[..k] + [r] + records[k..]
    ensures multiset(out) == multiset(records) + multiset{r}
  {
    assert records == records[..k] + records[k..];
  }

  lemma InsertKeepsIdOrder(r: Stored, records: seq<Stored>, k: nat, out: seq<Stored>)
    requires k == InsertPosition(r, records) && out == records[..k] + [r] + records[k..]
    ensures IdsAscending(records) ==> IdsAscending(out)
  {
    if IdsAscending(records) {
      InsertedInOrder(r, records, k, out);
    }
  }

  lemma InsertedInOrder(r: Stored, records: seq<Stored>, k: nat, out: seq<Stored>)
    requires IdsAscending(records)
    requires k == InsertPosition(r, records) && out == records[..k] + [r] + records[k..]
    ensures IdsAscending(out)
  {
    if k < |records| {
      LexLeqTotal(records[k].id, r.id);
      forall j | k <= j < |records| ensures LexLeq(r.id, records[j].id) {
        if j > k {
          LexLeqTransitive(r.id, records[k].id, records[j].id);
        }
      }
    }
    forall i, j | 0 <= i < j < |out| ensures LexLeq(out[i].id, out[j].id) {
      if j < k {
        assert out[i] == records[i] && out[j] == records[j];
      } else if j == k {
        assert out[i] == records[i];
      } else if i < k {
        assert out[i] == records[i] && out[j] == records[j - 1];
      } else if i == k {
        assert out[j] == records[j - 1];
      } else {
        assert out[i] == records[i - 1] && out[j] == records[j - 1];
      }
    }
  }

  /** `where('trackingId', '==', trackingId)` on `complaints` finds a document. */
  predicate HasComplaint(complaints: map<string, Doc>, trackingId: string)
  {
    exists id :: id in complaints && FieldIs(complaints[id], "trackingId", Str(trackingId))
  }

  /** `docRef.update({ status, updatedAt })`: those two fields change, no other. */
  function WithStatus(d: Doc, status: string, timestamp: string): (r: Doc)
    ensures r.Keys == d.Keys + {"status", "updatedAt"}
    ensures r["status"] == Str(status) && r["updatedAt"] == Str(timestamp)
    ensures forall k :: k in d && k != "status" && k != "updatedAt" ==> r[k] == d[k]
    ensures WellFormedComplaint(d) ==> WellFormedComplaint(r)
  {
    d["status" := Str(status)]["updatedAt" := Str(timestamp)]
  }

  /** The complaint listing of `orderBy('createdAt', 'desc')` mapped to
      `{ id: doc.id, ...doc.data() }`: every complaint once, newest first. */
  ghost predicate IsListing(listing: seq<Doc>, complaints: map<string, Doc>)
  {
    && |listing| == |complaints|
    && (forall id :: id in complaints ==> WithId(id, complaints[id]) in listing)
    && (forall i :: 0 <= i < |listing| ==> exists id :: id in complaints && listing[i] == WithId(id, complaints[id]))
  }

  /** `ids` names every document of `keys` exactly once. */
  predicate Enumerates(ids: seq<string>, keys: set<string>)
  {
    && |ids| == |keys|
    && (forall i :: 0 <= i < |ids| ==> ids[i] in keys)
    && (forall id :: id in keys ==> id in ids)
    && (forall i, j :: 0 <= i < j < |ids| ==> ids[i] != ids[j])
  }

  /** `collection('complaints').get()`: the document ids of a snapshot, in the
      order the query returns them, which the code does not rely on. */
  method SnapshotIds(db: Db) returns (ids: seq<string>)
    ensures Enumerates(ids, db.complaints.Keys)
  {
    ids := [];
    var rest := db.complaints.Keys;
    while rest != {}
      invariant rest <= db.complaints.Keys
      invariant |ids| + |rest| == |db.complaints|
      invariant forall i :: 0 <= i < |ids| ==> ids[i] in db.complaints && ids[i] !in rest
      invariant forall id :: id in db.complaints && id !in rest ==> id in ids
      invariant forall i, j :: 0 <= i < j < |ids| ==> ids[i] != ids[j]
      decreases |rest|
    {
      var id :| id in rest;
      ids := ids + [id];
      rest := rest - {id};
    }
  }

  /** `orderBy('createdAt', 'desc')` on `complaints`, each document mapped to
      `{ id: doc.id, ...doc.data() }`: every complaint once, newest first. */
  method ListNewestFirst(db: Db) returns (listing: seq<Doc>)
    requires db.Valid()
    ensures IsListing(listing, db.complaints)
    ensures SortedBy(listing, "createdAt", true)
  {
    var ids := SnapshotIds(db);
    var entries := EntriesOf(ids, db.complaints);
    EntriesAreListing(ids, db.complaints);
    listing := SortBy(entries, "createdAt", true);
    SameListing(entries, listing, db.complaints);
  }

  /** `{ id: doc.id, ...doc.data() }` for each id of a snapshot, in its order. */
  function EntriesOf(ids: seq<string>, complaints: map<string, Doc>): (entries: seq<Doc>)
    requires forall i :: 0 <= i < |ids| ==> ids[i] in complaints
    ensures |entries| == |ids|
    ensures forall i :: 0 <= i < |ids| ==> entries[i] == WithId(ids[i], complaints[ids[i]])
  {
    seq(|ids|, i requires 0 <= i < |ids| => WithId(ids[i], complaints[ids[i]]))
  }

  /** The entries of a snapshot that names every complaint once form a listing. */
  lemma EntriesAreListing(ids: seq<string>, complaints: map<string, Doc>)
    requires Enumerates(ids, complaints.Keys)
    ensures IsListing(EntriesOf(ids, complaints), complaints)
  {
    var entries := EntriesOf(ids, complaints);
    forall id | id in complaints ensures WithId(id, complaints[id]) in entries {
      var i :| 0 <= i < |ids| && ids[i] == id;
      assert entries[i] == WithId(id, complaints[id]);
    }
  }

  /** Reordering a listing leaves it a listing. */
  lemma SameListing(entries: seq<Doc>, listing: seq<Doc>, complaints: map<string, Doc>)
    requires IsListing(entries, complaints)
    requires multiset(listing) == multiset(entries)
    ensures IsListing(listing, complaints)
  {
    assert |listing| == |multiset(listing)| == |entries|;
    forall d ensures d in listing <==> d in entries {
      SameElements(d, entries, listing);
    }
    forall i | 0 <= i < |listing|
      ensures exists id :: id in complaints && listing[i] == WithId(id, complaints[id])
    {
      assert listing[i] in entries;
      var j :| 0 <= j < |entries| && entries[j] == listing[i];
    }
  }

  lemma SameElements(d: Doc, entries: seq<Doc>, listing: seq<Doc>)
    requires multiset(listing) == multiset(entries)
    ensures d in listing <==> d in entries
  {
    assert d in listing <==> d in multiset(listing);
    assert d in entries <==> d in multiset(entries);
  }

}
