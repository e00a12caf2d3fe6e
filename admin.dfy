/**
 * The admin routes: the status update gated by the workflow, and the status
 * statistics of the dashboard.
 */
module AdminRoutes {
  import opened Strings
  import opened Documents
  import opened Store
  import opened StatusWorkflow

  const NotFoundError: string := "Complaint not found."

  function InvalidStatusError(): string
  {
    "Invalid status. Allowed: " + Join(Statuses, ", ")
  }

  /** `doc.data().status` as the workflow's messages render it: a missing field
      is `undefined` and a null one `null`. */
  function CurrentStatus(d: Doc): (s: string)
    ensures "status" in d && d["status"].Str? ==> s == d["status"].s
    ensures "status" !in d ==> s == "undefined"
    ensures "status" in d && d["status"].Null? ==> s == "null"
  {
    if "status" !in d then "undefined"
    else match d["status"]
      case Str(s) => s
      case Null => "null"
  }

  /** The status this route will write, when the request names a workflow status. */
  predicate RequestsWorkflowStatus(body: Doc)
  {
    Truthy(body, "status") && IsValidStatus(TextOf(body, "status"))
  }

  /** PATCH /api/admin/complaints/:id.  The requested status is checked before
      the document is read; the workflow decides whether the move is made, and
      its reason is the error text when it is not. */
  method UpdateStatus(db: Db, docId: string, body: Doc, timestamp: string) returns (reply: Reply<string>)
    requires db.Valid()
    modifies db
    ensures db.Valid()
    ensures !RequestsWorkflowStatus(body) ==> reply == Err(400, InvalidStatusError()) && unchanged(db)
    ensures RequestsWorkflowStatus(body) && docId !in old(db.complaints) ==>
      reply == Err(404, NotFoundError) && unchanged(db)
    ensures RequestsWorkflowStatus(body) && docId in old(db.complaints) ==>
      var status := TextOf(body, "status");
      var decision := ValidateTransition(CurrentStatus(old(db.complaints)[docId]), status);
      && (decision.Denied? ==> reply == Err(400, decision.reason) && unchanged(db))
      && (decision.Allowed? ==>
            && reply == Ok(200, "Complaint status updated to \"" + status + "\".")
            && db.complaints == old(db.complaints)[docId := WithStatus(old(db.complaints)[docId], status, timestamp)]
            && unchanged(db`identities, db`messages))
    ensures docId in old(db.complaints) && !IsValidStatus(CurrentStatus(old(db.complaints)[docId])) ==>
      reply.Err? && reply.code == 400 && unchanged(db)
    ensures reply.Ok? ==>
      && docId in old(db.complaints)
      && Rank(CurrentStatus(old(db.complaints)[docId])) < Rank(TextOf(body, "status"))
  {
    if !RequestsWorkflowStatus(body) {
      return Err(400, InvalidStatusError());
    }
    var status := TextOf(body, "status");
    if docId !in db.complaints {
      return Err(404, NotFoundError);
    }
    var current := CurrentStatus(db.complaints[docId]);
    var decision := ValidateTransition(current, status);
    if decision.Denied? {
      return Err(400, decision.reason);
    }
    AllowedMovesForward(current, status);
    db.complaints := db.complaints[docId := WithStatus(db.complaints[docId], status, timestamp)];
    reply := Ok(200, "Complaint status updated to \"" + status + "\".");
  }

  /** Once the route has moved a complaint to `status`, asking for `status`
      again is refused with the "already" reason. */
  lemma RepeatedUpdateDenied(d: Doc, status: string, timestamp: string)
    requires ValidateTransition(CurrentStatus(d), status).Allowed?
    ensures ValidateTransition(CurrentStatus(WithStatus(d, status, timestamp)), status) == Denied(AlreadyReason(status))
  {
  }

  /** The anonymous route may store "In Progress" or "Cancelled", which are not
      workflow statuses; this route then refuses every request for that complaint. */
  lemma ForeignStatusLocksComplaint(d: Doc, status: string, timestamp: string, requested: string)
    requires status == "In Progress" || status == "Cancelled"
    ensures ValidateTransition(CurrentStatus(WithStatus(d, status, timestamp)), requested)
      == Denied(UnknownCurrentReason(status))
  {
  }

  /** The counters of GET /api/admin/stats. */
  datatype Stats = Stats(total: nat, pending: nat, underReview: nat, investigation: nat, resolved: nat, rejected: nat)

  /** `complaints.filter((c) => c.status === status).length` */
  function CountStatus(docs: seq<Doc>, status: string): (n: nat)
    ensures n <= |docs|
    ensures n == 0 <==> forall i :: 0 <= i < |docs| ==> !FieldIs(docs[i], "status", Str(status))
    ensures n == |docs| <==> forall i :: 0 <= i < |docs| ==> FieldIs(docs[i], "status", Str(status))
  {
    if |docs| == 0 then 0
    else
      var rest := CountStatus(docs[1..], status);
      assert forall i :: 1 <= i < |docs| ==> docs[i] == docs[1..][i - 1];
      Hit(docs[0], status) + rest
  }

  function ComputeStats(docs: seq<Doc>): (s: Stats)
    ensures s.total == |docs|
    ensures s.pending == CountStatus(docs, "Pending") && s.underReview == CountStatus(docs, "Under Review")
    ensures s.investigation == CountStatus(docs, "Investigation")
    ensures s.resolved == CountStatus(docs, "Resolved") && s.rejected == CountStatus(docs, "Rejected")
  {
    Stats(|docs|, CountStatus(docs, "Pending"), CountStatus(docs, "Under Review"),
          CountStatus(docs, "Investigation"), CountStatus(docs, "Resolved"), CountStatus(docs, "Rejected"))
  }

  /** The document holds one of the five workflow statuses. */
  predicate HasWorkflowStatus(d: Doc)
  {
    "status" in d && d["status"].Str? && IsValidStatus(d["status"].s)
  }

  function CounterSum(s: Stats): nat
  {
    s.pending + s.underReview + s.investigation + s.resolved + s.rejected
  }

  /** The five counters never add up to more than the total, and add up to
      exactly the total when every complaint holds a workflow status. */
  lemma {:induction false} CountersBoundedByTotal(docs: seq<Doc>)
    ensures CounterSum(ComputeStats(docs)) <= ComputeStats(docs).total
    ensures (forall i :: 0 <= i < |docs| ==> HasWorkflowStatus(docs[i])) <==>
      CounterSum(ComputeStats(docs)) == ComputeStats(docs).total
  {
    if |docs| > 0 {
      var rest := docs[1..];
      CountersBoundedByTotal(rest);
      CounterSumStep(docs);
      assert forall i :: 1 <= i < |docs| ==> docs[i] == rest[i - 1];
      assert forall i :: 0 <= i < |rest| ==> rest[i] == docs[i + 1];
    }
  }

  /** The first document adds one to the counter sum exactly when it holds a
      workflow status. */
  lemma CounterSumStep(docs: seq<Doc>)
    requires |docs| > 0
    ensures CounterSum(ComputeStats(docs))
      == CounterSum(ComputeStats(docs[1..])) + (if HasWorkflowStatus(docs[0]) then 1 else 0)
  {
    var d := docs[0];
    assert CountStatus(docs, "Pending") == Hit(d, "Pending") + CountStatus(docs[1..], "Pending");
    assert CountStatus(docs, "Under Review") == Hit(d, "Under Review") + CountStatus(docs[1..], "Under Review");
    assert CountStatus(docs, "Investigation") == Hit(d, "Investigation") + CountStatus(docs[1..], "Investigation");
    assert CountStatus(docs, "Resolved") == Hit(d, "Resolved") + CountStatus(docs[1..], "Resolved");
    assert CountStatus(docs, "Rejected") == Hit(d, "Rejected") + CountStatus(docs[1..], "Rejected");
    HeadContribution(d);
  }

  /** One document counted against one status. */
  function Hit(d: Doc, status: string): nat
  {
    if FieldIs(d, "status", Str(status)) then 1 else 0
  }

  lemma HeadContribution(d: Doc)
    ensures Hit(d, "Pending") + Hit(d, "Under Review") + Hit(d, "Investigation") + Hit(d, "Resolved") + Hit(d, "Rejected")
      == if HasWorkflowStatus(d) then 1 else 0
  {
    if "status" in d && d["status"].Str? {
      IsValidStatusIff(d["status"].s);
    }
  }

  /** `IdsWithStatus(c, s)`: the complaints whose status is exactly `s`. */
  function IdsWithStatus(complaints: map<string, Doc>, status: string): set<string>
  {
    set id | id in complaints && FieldIs(complaints[id], "status", Str(status))
  }

  /** The snapshot documents of `ids`, in that order. */
  function DocsOf(ids: seq<string>, complaints: map<string, Doc>): (docs: seq<Doc>)
    requires forall i :: 0 <= i < |ids| ==> ids[i] in complaints
    ensures |docs| == |ids| && forall i :: 0 <= i < |ids| ==> docs[i] == complaints[ids[i]]
  {
    if |ids| == 0 then [] else [complaints[ids[0]]] + DocsOf(ids[1..], complaints)
  }

  /** Counting over a snapshot that lists each document once counts the documents. */
  lemma {:induction false} CountIsCardinality(ids: seq<string>, complaints: map<string, Doc>, status: string)
    requires forall i :: 0 <= i < |ids| ==> ids[i] in complaints
    requires forall i, j :: 0 <= i < j < |ids| ==> ids[i] != ids[j]
    ensures CountStatus(DocsOf(ids, complaints), status)
      == |set id | id in ids && FieldIs(complaints[id], "status", Str(status))|
  {
    if |ids| > 0 {
      var rest := ids[1..];
      CountIsCardinality(rest, complaints, status);
      assert DocsOf(ids, complaints)[1..] == DocsOf(rest, complaints);
      MatchingSetStep(ids, complaints, status);
    }
  }

  /** The matching ids of a snapshot are those of its tail, plus its head when
      the head matches. */
  lemma MatchingSetStep(ids: seq<string>, complaints: map<string, Doc>, status: string)
    requires |ids| > 0
    requires forall i :: 0 <= i < |ids| ==> ids[i] in complaints
    requires forall i, j :: 0 <= i < j < |ids| ==> ids[i] != ids[j]
    ensures |set id | id in ids && FieldIs(complaints[id], "status", Str(status))|
      == Hit(complaints[ids[0]], status) + |set id | id in ids[1..] && FieldIs(complaints[id], "status", Str(status))|
  {
    var rest := ids[1..];
    var all := set id | id in ids && FieldIs(complaints[id], "status", Str(status));
    var tail := set id | id in rest && FieldIs(complaints[id], "status", Str(status));
    assert ids[0] !in rest;
    if FieldIs(complaints[ids[0]], "status", Str(status)) {
      assert all == tail + {ids[0]};
    } else {
      assert all == tail;
    }
  }

  /** Over a snapshot of the whole collection, each counter counts the
      complaints holding that status. */
  lemma CounterCountsCollection(ids: seq<string>, complaints: map<string, Doc>, status: string)
    requires Enumerates(ids, complaints.Keys)
    ensures CountStatus(DocsOf(ids, complaints), status) == |IdsWithStatus(complaints, status)|
  {
    CountIsCardinality(ids, complaints, status);
    assert (set id | id in ids && FieldIs(complaints[id], "status", Str(status)))
      == IdsWithStatus(complaints, status);
  }

  /** A property holds of every snapshot document exactly when it holds of
      every complaint. */
  lemma SnapshotCoversAll(ids: seq<string>, complaints: map<string, Doc>, p: Doc -> bool)
    requires forall i :: 0 <= i < |ids| ==> ids[i] in complaints
    requires forall id :: id in complaints ==> id in ids
    ensures (forall i :: 0 <= i < |ids| ==> p(complaints[ids[i]]))
      <==> forall id :: id in complaints ==> p(complaints[id])
  {
    if forall i :: 0 <= i < |ids| ==> p(complaints[ids[i]]) {
      forall id | id in complaints ensures p(complaints[id]) {
        var i :| 0 <= i < |ids| && ids[i] == id;
      }
    }
  }

  /** The counters of a snapshot that lists every complaint once. */
  lemma CountersOfSnapshot(ids: seq<string>, complaints: map<string, Doc>)
    requires Enumerates(ids, complaints.Keys)
    ensures var stats := ComputeStats(DocsOf(ids, complaints));
      && stats.total == |complaints|
      && stats.pending == |IdsWithStatus(complaints, "Pending")|
      && stats.underReview == |IdsWithStatus(complaints, "Under Review")|
      && stats.investigation == |IdsWithStatus(complaints, "Investigation")|
      && stats.resolved == |IdsWithStatus(complaints, "Resolved")|
      && stats.rejected == |IdsWithStatus(complaints, "Rejected")|
  {
    CounterCountsCollection(ids, complaints, "Pending");
    CounterCountsCollection(ids, complaints, "Under Review");
    CounterCountsCollection(ids, complaints, "Investigation");
    CounterCountsCollection(ids, complaints, "Resolved");
    CounterCountsCollection(ids, complaints, "Rejected");
  }

  /** The counter sum of a snapshot that lists every complaint once. */
  lemma SumOfSnapshot(ids: seq<string>, complaints: map<string, Doc>)
    requires forall i :: 0 <= i < |ids| ==> ids[i] in complaints
    requires forall id :: id in complaints ==> id in ids
    ensures var stats := ComputeStats(DocsOf(ids, complaints));
      && CounterSum(stats) <= stats.total
      && (CounterSum(stats) == stats.total <==> forall id :: id in complaints ==> HasWorkflowStatus(complaints[id]))
  {
    var docs := DocsOf(ids, complaints);
    CountersBoundedByTotal(docs);
    SnapshotCoversAll(ids, complaints, HasWorkflowStatus);
    assert (forall i :: 0 <= i < |docs| ==> HasWorkflowStatus(docs[i]))
      <==> (forall i :: 0 <= i < |ids| ==> HasWorkflowStatus(complaints[ids[i]]));
  }

  /** GET /api/admin/stats over the whole `complaints` collection. */
  method GetStats(db: Db) returns (stats: Stats)
    ensures stats.total == |db.complaints|
    ensures stats.pending == |IdsWithStatus(db.complaints, "Pending")|
    ensures stats.underReview == |IdsWithStatus(db.complaints, "Under Review")|
    ensures stats.investigation == |IdsWithStatus(db.complaints, "Investigation")|
    ensures stats.resolved == |IdsWithStatus(db.complaints, "Resolved")|
    ensures stats.rejected == |IdsWithStatus(db.complaints, "Rejected")|
    ensures CounterSum(stats) <= stats.total
    ensures CounterSum(stats) == stats.total <==> forall id :: id in db.complaints ==> HasWorkflowStatus(db.complaints[id])
  {
    var ids := SnapshotIds(db);
    var complaints := db.complaints;
    stats := ComputeStats(DocsOf(ids, complaints));
    CountersOfSnapshot(ids, complaints);
    SumOfSnapshot(ids, complaints);
  }
}
