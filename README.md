# Grievance portal backend, modelled in Dafny

This project models the backend of an anonymous grievance portal. Students file
complaints without identifying themselves. The complaint record and the
identity of the person who filed it are written to two separate collections,
and only the super admin sees them joined again. Each complaint carries a
tracking id of the form `SEC-<year>-<five characters>`. The free-form status
route accepts its own five statuses. The admin route is gated by a forward-only
workflow of five statuses. A message thread per complaint links messages to the
complaint by tracking id. A role middleware guards the admin and super-admin
routes.

The pieces:

- `status_workflow.dfy` (`StatusWorkflow`): the workflow table and the decision
  procedure, with its five refusal reasons.
- `tracking.dfy` (`Tracking`): tracking-id construction. The clock's year and the
  five random draws are parameters. It also parses an id back.
- `documents.dfy` (`Documents`): Firestore documents as maps from field name to
  value. A missing key reads as `undefined`. Object spread becomes map union and
  destructuring becomes key removal.
- `store.dfy` (`Store`): the three collections in a class `Db`.
  - `Valid()` is the identity-separation invariant: no complaint holds `name`,
    `email` or `phone`, and every complaint has a string `trackingId` and
    `createdAt`. It also keeps `identity_map` in ascending document-id order,
    the order Firestore returns for a query without `orderBy`, so a new
    identity record goes where its id sorts. Every writing route preserves it.
  - The module also holds the listing ordered by `createdAt`.
- `complaints.dfy`, `admin.dfy`, `super.dfy`, `messages.dfy`: the route handlers.
  - A route that writes is a method with `modifies db`. It states the whole new
    state, including "nothing changes" on every error path.
  - A read-only route is a method that reads `db`.
  - A route's reply is `Ok(code, data)` or `Err(code, error)`.
- `auth.dfy` (`Auth`): `requireRole`, the role helpers, and the header handling
  of `verifyToken` on a `Request` object whose `user` it sets.
- `sorting.dfy`, `strings.dfy`, `wrappers.dfy`: ordering by a string field, the
  string operations the routes use (join, trim, lexicographic order, `split`,
  decimal digits) and `Option`/`Result`.

Where the code and its comments disagree, the model follows the code:

- The header of `backend/services/statusWorkflow.js` promises "no skipping".
  The table allows `Pending → Rejected` and `Under Review → Resolved`, so only
  "no going backwards" holds (`AllowedMovesForward`).
- The examples in its doc comment use `submitted` and `under_review`, which are
  not statuses. The decision procedure refuses them as unrecognised.
- A tracking id with a four-digit year has 14 characters, as the comment's own
  example `SEC-2026-A3KP7` does (`FourDigitYearFormat`).
- The two status vocabularies are kept apart. The free-form route may store
  `In Progress` or `Cancelled`. The workflow route then refuses every request
  for that complaint (`ForeignStatusLocksComplaint`).

## Model

| member | source | states |
|---|---|---|
| StatusWorkflow.Transitions | backend/services/statusWorkflow.js:21-27 | every listed target is a recognised status other than the source, and only Pending, Under Review and Investigation have targets |
| StatusWorkflow.ValidateTransition | backend/services/statusWorkflow.js:52-87 | a move is allowed exactly when both statuses are recognised, they differ, and the target is in the current status's transition list |
| StatusWorkflow.IsValidStatusIff | backend/services/statusWorkflow.js:34-36 | a status is valid exactly when it is one of the five literal strings |
| StatusWorkflow.AllowedExactlyPermittedMoves | backend/services/statusWorkflow.js:21-27 | the decision procedure admits exactly the seven pairs of an independently written table |
| StatusWorkflow.PermittedMovesCount | backend/services/statusWorkflow.js:21-27 | that table holds exactly seven distinct moves, all between recognised statuses |
| StatusWorkflow.Rank | backend/services/statusWorkflow.js:12-18 | a recognised status's rank is its position in the ordered status list |
| StatusWorkflow.AllowedMovesForward | backend/services/statusWorkflow.js:20-27 | every allowed move raises the rank and starts from a non-terminal status |
| StatusWorkflow.UnknownCurrentDenied | backend/services/statusWorkflow.js:53-58 | an unrecognised current status is refused with the "not a recognised status" reason, whatever the target |
| StatusWorkflow.UnknownTargetListsStatuses | backend/services/statusWorkflow.js:60-65 | a recognised current status with an unrecognised target is refused, and the reason names all five statuses |
| StatusWorkflow.SameStatusDenied | backend/services/statusWorkflow.js:67-72 | asking for the current status is always refused, with the "already" reason when that status is recognised |
| StatusWorkflow.TerminalDenied | backend/services/statusWorkflow.js:74-83 | nothing leaves Resolved or Rejected; a different recognised target gets the terminal reason |
| StatusWorkflow.NotPermittedListsAllowed | backend/services/statusWorkflow.js:76-83 | a refused move out of a non-terminal status starts "Cannot transition from" and names every permitted target |
| StatusWorkflow.ChainRises | backend/services/statusWorkflow.js:20-27 | along a chain of allowed moves the rank rises by at least one per move |
| StatusWorkflow.ChainsAreShortAndAcyclic | backend/services/statusWorkflow.js:20-27 | no chain of allowed moves returns to its start, and none has more than three moves |
| StatusWorkflow.LongestChainExists | backend/services/statusWorkflow.js:22-24 | the three-move chain Pending, Under Review, Investigation, Resolved is allowed |
| Tracking.CharAt | backend/services/tracking.js:17 | `charAt` gives the one character at an index inside the string and the empty string outside it |
| Tracking.RandomPart | backend/services/tracking.js:16-18 | five in-range draws give five characters, each the alphabet character at its draw |
| Tracking.TrackingId | backend/services/tracking.js:13-21 | every id begins with "SEC-" |
| Tracking.AlphabetCharacters | backend/services/tracking.js:15 | every alphabet character is an upper-case letter or digit found at its own position |
| Tracking.ParseTrackingIdRoundTrip | backend/services/tracking.js:20 | reading an id back yields the year and the five draws it was built from, for any year |
| Tracking.DistinctPicksDistinctIds | backend/services/tracking.js:15-20 | for one year, different draws give different ids |
| Tracking.FourDigitYearFormat | backend/services/tracking.js:4-9 | with a four-digit year the id has 14 characters: "SEC-", four digits, "-", five upper-case letters or digits |
| Strings.NatToStringRoundTrip | backend/services/tracking.js:20 | the decimal text of the year reads back as the year |
| Strings.TextBefore | backend/middleware/auth.js:30 | the result is the prefix of the text up to the first separator, or the whole text when there is none |
| Strings.Trim | backend/routes/messages.js:23 | the trimmed text occurs in the original, has no white space at either end, and is empty exactly when the original is all white space |
| Strings.TrimRemovesOnlyWhiteSpace | backend/routes/messages.js:23 | the text is the trimmed text with a run of white space before it and a run after it, so nothing else was removed |
| Strings.LexLeqTotal | backend/routes/messages.js:74 | any two strings are comparable in the order used for sorting |
| Strings.LexLeqTransitive | backend/routes/messages.js:74 | that order is transitive |
| Strings.LexLeqAntisymmetric | backend/routes/messages.js:74 | strings ordered both ways are equal |
| Sorting.BeforeTotal | backend/routes/messages.js:74 | any two documents are comparable by a string field, in either direction |
| Sorting.BeforeTransitive | backend/routes/messages.js:74 | comparison by a string field is transitive |
| Sorting.Insert | backend/routes/messages.js:74 | inserting into an ordered sequence keeps it ordered and adds exactly that document |
| Sorting.SortBy | backend/routes/messages.js:74 | the result is ordered by the field, a missing field counting as "", and is a permutation of the input |
| Documents.OrNull | backend/routes/complaints.js:100-102 | `x \|\| null` is the field's value when that value is truthy, and null otherwise |
| Documents.WithId | backend/routes/complaints.js:19-22 | `{ id, ...data }` has the data's fields plus `id`, keeps every data value, and has the document id unless the data has its own `id` |
| Documents.KeyOf | backend/routes/messages.js:74 | `(d[key] \|\| '')` is the field's text when it is truthy and the empty string otherwise |
| Store.Db.Valid | backend/routes/complaints.js:86-110 | every complaint lacks the identity fields and has a string tracking id and creation time; `identity_map` is in document-id order |
| Store.InsertById | backend/routes/complaints.js:110-115 | a record added to `identity_map` is placed by its document id: the collection gains exactly that record and stays in id order |
| Store.WithStatus | backend/routes/complaints.js:159-162 | the update sets `status` and `updatedAt`, keeps every other field and preserves a well-formed complaint |
| Store.SnapshotIds | backend/routes/admin.js:105-106 | a snapshot names every complaint document exactly once |
| Store.ListNewestFirst | backend/routes/complaints.js:12-22 | the listing holds every complaint once with its id, newest `createdAt` first |
| Store.EntriesOf | backend/routes/complaints.js:19-22 | each snapshot document becomes `{ id, ...data }`, in snapshot order |
| ComplaintRoutes.NewComplaint | backend/routes/complaints.js:87-95 | the complaint record has exactly seven fields, no identity field, status Pending and `createdAt == updatedAt` |
| ComplaintRoutes.IdentityRecord | backend/routes/complaints.js:98-104 | the identity record carries the tracking id, and each identity field is the submitted value or null when absent or empty |
| ComplaintRoutes.Submit | backend/routes/complaints.js:73-126 | missing title, description or category gives 400 and no write; otherwise both records are written in one step: the complaint under its fresh id, keeping every existing complaint, and the identity record at its id's place in `identity_map`; the reply carries only the tracking id, and the privacy invariant holds |
| ComplaintRoutes.PublicView | backend/routes/complaints.js:54-59 | the public view drops `userId`, `email`, `phone` and `name`, keeps every other field, and adds `id`, which holds the document id unless the data has an `id` of its own |
| ComplaintRoutes.GetPublic | backend/routes/complaints.js:37-65 | 404 exactly when no complaint has the tracking id; otherwise the view of a matching complaint, with no sensitive field |
| ComplaintRoutes.UpdateStatus | backend/routes/complaints.js:134-172 | a status outside its own five gives 400, a missing document 404, each with no write; otherwise only `status` and `updatedAt` change, with no transition check |
| ComplaintRoutes.Delete | backend/routes/complaints.js:180-199 | a missing document gives 404 and no write; otherwise exactly that complaint is removed and `identity_map` is untouched |
| AdminRoutes.CurrentStatus | backend/routes/admin.js:41 | the stored status as a string; a missing one reads "undefined" and a null one "null" |
| AdminRoutes.UpdateStatus | backend/routes/admin.js:24-60 | an invalid requested status gives 400 before any lookup; a missing document 404; a refused move 400 with the workflow's reason verbatim; each with no write. An allowed move writes only `status` and `updatedAt` and moves the rank forward. A stored status outside the workflow always gives 400 |
| AdminRoutes.RepeatedUpdateDenied | backend/routes/admin.js:43-53 | right after a successful update to a status, asking for that status again is refused with the "already" reason |
| AdminRoutes.ForeignStatusLocksComplaint | backend/routes/admin.js:41-48 | once the free-form route stores In Progress or Cancelled, every workflow request for that complaint is refused |
| AdminRoutes.CountStatus | backend/routes/admin.js:108-115 | a counter is zero exactly when no document has the status, and equals the total exactly when all do |
| AdminRoutes.ComputeStats | backend/routes/admin.js:108-115 | the total is the number of documents and each of the five counters counts its own status |
| AdminRoutes.CountersBoundedByTotal | backend/routes/admin.js:108-115 | the five counters sum to at most the total, and to exactly the total when every status is a workflow status |
| AdminRoutes.CountIsCardinality | backend/routes/admin.js:105-115 | over a snapshot listing each document once, a counter is the number of documents with that status |
| AdminRoutes.GetStats | backend/routes/admin.js:103-122 | the total is the number of complaints; each counter is the number of complaints with exactly that status; the counter sum bound and its equality case hold |
| SuperRoutes.FirstMatch | backend/routes/super.js:22-25 | the position of the first identity record with the tracking id, or none exactly when no record has it |
| SuperRoutes.FirstIdentity | backend/routes/super.js:22-28 | the data of the matching identity record that comes first in the collection's order (no earlier record matches), or none exactly when there is no match |
| SuperRoutes.Join | backend/routes/super.js:27-42 | the complaint gains `name`, `email`, `phone`; all three are null without an identity record, and a falsy identity value becomes null |
| SuperRoutes.JoinKeepsOrder | backend/routes/super.js:12-44 | joining leaves `createdAt` alone, so the joined list stays newest first |
| SuperRoutes.JoinedListingSound | backend/routes/super.js:16-44 | every joined entry is the join of some complaint with its id |
| SuperRoutes.JoinedListingComplete | backend/routes/super.js:16-44 | every complaint's joined entry is in the joined list |
| SuperRoutes.JoinAll | backend/routes/super.js:16-44 | the joined list has one entry per listed complaint, in the same order, each joined with the first identity record for its tracking id |
| SuperRoutes.ListJoined | backend/routes/super.js:10-51 | the joined list has one entry per complaint, is newest first, and each entry is a complaint with its id joined with its first identity record |
| SuperRoutes.GetJoined | backend/routes/super.js:57-94 | 404 exactly when no complaint has the tracking id; otherwise the complaint's data joined with the first identity record, with no `id` field |
| SuperRoutes.JoinRestoresSubmission | backend/routes/super.js:28-34 | a submission's complaint joined with its own identity record shows every complaint field unchanged and each identity field as submitted, or null |
| SuperRoutes.FirstMatchHasLeastId | backend/routes/super.js:22-25 | the record the join shows is the matching identity record with the smallest document id |
| SuperRoutes.LaterIdKeepsIdentity | backend/routes/super.js:22-25 | adding an identity record whose id sorts at or after the shown record's id leaves the join unchanged |
| SuperRoutes.EarlierIdTakesOver | backend/routes/super.js:22-25 | a record with the same tracking id whose id sorts before every match becomes the one the join shows, so with colliding tracking ids a later submission's identity can replace an earlier one's |
| MessageRoutes.NewMessage | backend/routes/messages.js:38-43 | the message links to the tracking id and holds the sender, the trimmed text and the timestamp, and nothing else |
| MessageRoutes.PostOutcome | backend/routes/messages.js:9-51 | missing sender or text, an unknown sender, blank text and an unknown tracking id each give their own error, checked in that order; the reply is 201 with the new message and its id exactly when every check passes |
| MessageRoutes.PostMessage | backend/routes/messages.js:6-56 | the reply is the one the ordered checks give; a rejected request changes nothing; an accepted one appends exactly the new message and leaves complaints and identity records alone |
| MessageRoutes.PostedTextIsTrimmed | backend/routes/messages.js:23-25 | text that passes the blank check has no white space at either end and occurs in the submitted text |
| MessageRoutes.Thread | backend/routes/messages.js:64-73 | a document is in a thread exactly when it is a stored message with that tracking id, given its id |
| MessageRoutes.ThreadAfterAppend | backend/routes/messages.js:45 | appending a message extends its own thread by that message and leaves every other thread unchanged |
| MessageRoutes.ListMessages | backend/routes/messages.js:59-81 | the listing is ordered by timestamp, oldest first, and is a permutation of the thread |
| Auth.UnknownRoles | backend/middleware/auth.js:45 | the unknown roles are exactly the requested roles outside the fixed role set |
| Auth.RequireRole | backend/middleware/auth.js:42-48 | building a guard fails exactly when a requested role is unknown, with the "Unknown role(s)" message |
| Auth.RoleOf | backend/middleware/auth.js:55 | `req.user && req.user.role` yields a role exactly when there is a user with a non-empty role, and then that role |
| Auth.Admit | backend/middleware/auth.js:50-70 | with authentication off every request passes; with it on, a request without a role gets 403 "No role assigned", and a request passes exactly when its role is allowed |
| Auth.HelpersNested | backend/middleware/auth.js:74-77 | whoever passes a stricter role helper passes every looser one |
| Auth.HelpersStrict | backend/middleware/auth.js:74-77 | with authentication on each role passes its own helper and fails the next stricter one |
| Auth.DisabledAdmitsAll | backend/middleware/auth.js:53 | with authentication off every guard lets every request through |
| Auth.BearerToken | backend/middleware/auth.js:26-30 | a token exists exactly when the header starts with "Bearer "; it is the text after that prefix up to the next "Bearer ", or all of it when there is none, and holds no "Bearer " itself |
| Auth.VerifyToken | backend/middleware/auth.js:12-39 | with authentication off the demo super admin is installed; with it on, a missing bearer header gives 401 and a rejected token 403, each leaving the user unset; a good token installs its decoded user |
| Auth.GuardVerdict | backend/middleware/auth.js:12-39 | with authentication on: 401 without a bearer token, 403 when the verifier rejects it, and a pass exactly when the decoded user's role is allowed |
| Auth.ShippedSettingAdmitsAll | backend/middleware/auth.js:6 | as shipped `AUTH_ENABLED` is false, so every guard admits every request |
| Auth.Guarded | backend/routes/super.js:10 | with authentication off the demo super admin runs every route; with it on, the route runs exactly when a bearer token is present, the verifier accepts it and the role helper admits the decoded user, that user is what `req.user` then holds, and a refused token leaves `req.user` as it was |

## Left out

- `backend/services/firebase.js` and `backend/server.js` are not part of this model. They initialise the SDK and wire routes.
- Firestore is reduced to in-memory collections.
  - `batch.commit()` is taken to be atomic: both records are written in one state update.
  - A query failure (the 500 replies of every route) is not modelled.
- The clock and the random number generator are parameters.
  - `toISOString()` is a `timestamp` string.
  - `getFullYear()` is a natural-number `year`.
  - `Math.floor(Math.random() * 36)` is one of five integer draws.
  - New document ids from `doc()` and `add()` are parameters.
- Token verification (`verifyIdToken`) is a parameter that returns the decoded user or nothing. `verifyAdmin`, with its `getUser` and custom claims, is not modelled. Neither are the admin `/users` and `/users/:uid/set-admin` routes, which only call Firebase Auth.
- Concurrency is left out.
  - `Promise.all` in the super-admin join is modelled as a sequential map.
  - The lost-update race between two concurrent status updates is not modelled.
- The admin listing route `GET /api/admin/complaints` is the same query as `Store.ListNewestFirst` plus a count, so it has no member of its own.
- Request bodies hold only strings and null. Numbers, booleans and nested objects are not modelled.
- `localeCompare` is modelled as code-point lexicographic order, without locale collation.
- Sorting.SortBy: only order and permutation are stated. The relative order of equal timestamps, which JavaScript's stable sort keeps from the snapshot, is not.
- Store.ListNewestFirst: only order and content are stated. Firestore's tie-break on equal `createdAt` is not, and neither is its rule of leaving out documents without that field, which `Db.Valid` rules out.
- Store.ListNewestFirst, SuperRoutes.ListJoined and SuperRoutes.GetJoined require `Db.Valid`. That is the invariant every writing route keeps. The listings rely on it for `createdAt` and `trackingId` to be present, and `GetJoined` for a stored complaint never to carry a field named `id`, which is what keeps `id` out of its reply.
- ComplaintRoutes.Submit requires `complaintDocId` to be new to `complaints` and `identityDocId` to be new to `identity_map`, as ids from `doc()` are; an automatic id colliding with an existing one (where `batch.set` would overwrite that document) is not modelled.
- MessageRoutes.PostMessage requires `messageDocId` to be new to `messages`, as an id from `add` is; a colliding automatic id is not modelled.
- The `messages` collection keeps the order messages were added in. Firestore returns them in document-id order, which shows only in the order of messages with equal timestamps, and that order is not stated (see Sorting.SortBy).
- ComplaintRoutes.GetPublic: the `.limit(1)` query on `complaints` may return any matching complaint in the model, where Firestore returns the one with the smallest document id.
- SuperRoutes.GetJoined: the `.limit(1)` query on `complaints` may return any matching complaint in the model, where Firestore returns the one with the smallest document id.
- All frontend files are left out. They are DOM rendering, `fetch`, storage and polling.
