/**
 * The status workflow: five statuses in a fixed order, a table of allowed
 * forward moves, and the decision procedure that admits or refuses a move with
 * a human-readable reason.  Statuses are plain strings, so a status outside the
 * workflow (written by another entry point) can reach the decision procedure.
 */
module StatusWorkflow {
  import opened Strings

  /** The recognised statuses, in workflow order. */
  const Statuses: seq<string> := ["Pending", "Under Review", "Investigation", "Resolved", "Rejected"]

  /** `TRANSITIONS[status] || []`: the statuses a complaint may move to. */
  function Transitions(status: string): (r: seq<string>)
    ensures forall i :: 0 <= i < |r| ==> r[i] in Statuses && r[i] != status
    ensures |r| > 0 <==> status == "Pending" || status == "Under Review" || status == "Investigation"
  {
    if status == "Pending" then ["Under Review", "Rejected"]
    else if status == "Under Review" then ["Investigation", "Resolved", "Rejected"]
    else if status == "Investigation" then ["Resolved", "Rejected"]
    else []
  }

  predicate IsValidStatus(status: string)
  {
    status in Statuses
  }

  /** `{ allowed: true }` or `{ allowed: false, reason }` */
  datatype Decision = Allowed | Denied(reason: string)

  function UnknownCurrentReason(current: string): string
  {
    "Current status \"" + current + "\" is not a recognised status."
  }

  function UnknownTargetReason(next: string): string
  {
    "\"" + next + "\" is not a valid status. Valid statuses: " + Join(Statuses, ", ") + "."
  }

  function AlreadyReason(current: string): string
  {
    "Complaint is already \"" + current + "\"."
  }

  function TerminalReason(current: string): string
  {
    "\"" + current + "\" is a terminal status and cannot be changed."
  }

  function NotPermittedReason(current: string, next: string, allowed: seq<string>): string
  {
    "Cannot transition from \"" + current + "\" to \"" + next + "\". Allowed: \"" + Join(allowed, "\", \"") + "\"."
  }

  /** Decides whether a complaint in status `current` may move to `next`. */
  function ValidateTransition(current: string, next: string): (d: Decision)
    ensures d.Allowed? <==>
      IsValidStatus(current) && IsValidStatus(next) && current != next && next in Transitions(current)
  {
    if !IsValidStatus(current) then Denied(UnknownCurrentReason(current))
    else if !IsValidStatus(next) then Denied(UnknownTargetReason(next))
    else if current == next then Denied(AlreadyReason(current))
    else
      var allowed := Transitions(current);
      if next !in allowed then
        Denied(if |allowed| == 0 then TerminalReason(current) else NotPermittedReason(current, next, allowed))
      else Allowed
  }

  // ---------------------------------------------------------------------------
  // The table, stated independently, and what it implies.
  // ---------------------------------------------------------------------------

  /** The seven permitted moves, written out pair by pair. */
  const PermittedMoves: set<(string, string)> := {
    ("Pending", "Under Review"), ("Pending", "Rejected"),
    ("Under Review", "Investigation"), ("Under Review", "Resolved"), ("Under Review", "Rejected"),
    ("Investigation", "Resolved"), ("Investigation", "Rejected")
  }

  lemma IsValidStatusIff(status: string)
    ensures IsValidStatus(status) <==>
      status == "Pending" || status == "Under Review" || status == "Investigation"
      || status == "Resolved" || status == "Rejected"
  {
  }

  /** The decision procedure admits exactly the moves of the table. */
  lemma AllowedExactlyPermittedMoves(current: string, next: string)
    ensures ValidateTransition(current, next).Allowed? <==> (current, next) in PermittedMoves
  {
    if ValidateTransition(current, next).Allowed? {
      AllowedIsPermitted(current, next);
    }
    if (current, next) in PermittedMoves {
      PermittedIsAllowed(current, next);
    }
  }

  lemma AllowedIsPermitted(current: string, next: string)
    requires ValidateTransition(current, next).Allowed?
    ensures (current, next) in PermittedMoves
  {
    assert next in Transitions(current);
    if current == "Pending" {
      assert next == "Under Review" || next == "Rejected";
    } else if current == "Under Review" {
      assert next == "Investigation" || next == "Resolved" || next == "Rejected";
    } else {
      assert current == "Investigation";
      assert next == "Resolved" || next == "Rejected";
    }
  }

  lemma PermittedIsAllowed(current: string, next: string)
    requires (current, next) in PermittedMoves
    ensures ValidateTransition(current, next).Allowed?
  {
    assert current == "Pending" || current == "Under Review" || current == "Investigation";
    assert next == "Under Review" || next == "Investigation" || next == "Resolved" || next == "Rejected";
    assert IsValidStatus(current) && IsValidStatus(next);
    assert next in Transitions(current);
  }

  /** The table holds seven distinct moves between recognised statuses. */
  lemma PermittedMovesCount()
    ensures |PermittedMoves| == 7
    ensures forall m :: m in PermittedMoves ==> IsValidStatus(m.0) && IsValidStatus(m.1)
  {
    var moves := [
      ("Pending", "Under Review"), ("Pending", "Rejected"),
      ("Under Review", "Investigation"), ("Under Review", "Resolved"), ("Under Review", "Rejected"),
      ("Investigation", "Resolved"), ("Investigation", "Rejected")
    ];
    assert "Resolved"[2] != "Rejected"[2];
    assert forall i, j :: 0 <= i < j < |moves| ==> moves[i] != moves[j];
    CardinalityOfDistinct(moves);
    assert PermittedMoves == set m | m in moves;
    forall m | m in PermittedMoves ensures IsValidStatus(m.0) && IsValidStatus(m.1) {
      PermittedIsAllowed(m.0, m.1);
    }
  }

  lemma {:induction false} CardinalityOfDistinct<T>(xs: seq<T>)
    requires forall i, j :: 0 <= i < j < |xs| ==> xs[i] != xs[j]
    ensures |set x | x in xs| == |xs|
  {
    if xs != [] {
      CardinalityOfDistinct(xs[1..]);
      assert (set x | x in xs) == (set x | x in xs[1..]) + {xs[0]};
    }
  }

  /** Position of a recognised status in the workflow order. */
  function Rank(status: string): (r: nat)
    requires IsValidStatus(status)
    ensures r < |Statuses| && Statuses[r] == status
  {
    if status == "Pending" then 0
    else if status == "Under Review" then 1
    else if status == "Investigation" then 2
    else if status == "Resolved" then 3
    else 4
  }

  /** Every permitted move goes strictly forward, and only from a status that
      is not terminal (rank at most 2). */
  lemma AllowedMovesForward(current: string, next: string)
    requires ValidateTransition(current, next).Allowed?
    ensures IsValidStatus(current) && IsValidStatus(next)
    ensures Rank(current) < Rank(next)
    ensures Rank(current) <= 2
  {
  }

  /** An unrecognised current status is refused whatever the target. */
  lemma UnknownCurrentDenied(current: string, next: string)
    requires !IsValidStatus(current)
    ensures ValidateTransition(current, next) == Denied(UnknownCurrentReason(current))
  {
  }

  /** An unrecognised target is refused, and the reason names every recognised status. */
  lemma {:induction false} UnknownTargetListsStatuses(current: string, next: string)
    requires IsValidStatus(current) && !IsValidStatus(next)
    ensures ValidateTransition(current, next) == Denied(UnknownTargetReason(next))
    ensures forall i :: 0 <= i < |Statuses| ==> Contains(ValidateTransition(current, next).reason, Statuses[i])
  {
    var pre := "\"" + next + "\" is not a valid status. Valid statuses: ";
    forall i | 0 <= i < |Statuses| ensures Contains(UnknownTargetReason(next), Statuses[i]) {
      JoinContains(Statuses, ", ", i);
      ContainsInRight(pre, Join(Statuses, ", "), Statuses[i]);
      ContainsInLeft(pre + Join(Statuses, ", "), ".", Statuses[i]);
    }
  }

  /** No self-loops: asking for the current status is always refused, with the
      "already" reason when that status is recognised. */
  lemma SameStatusDenied(status: string)
    ensures ValidateTransition(status, status).Denied?
    ensures IsValidStatus(status) ==> ValidateTransition(status, status) == Denied(AlreadyReason(status))
  {
  }

  /** `Resolved` and `Rejected` are terminal: nothing leaves them, and a move to
      another recognised status is refused with the terminal reason. */
  lemma TerminalDenied(current: string, next: string)
    requires current == "Resolved" || current == "Rejected"
    ensures ValidateTransition(current, next).Denied?
    ensures IsValidStatus(next) && next != current ==>
      ValidateTransition(current, next) == Denied(TerminalReason(current))
  {
  }

  /** A refused move out of a non-terminal status to another recognised status
      is explained with "Cannot transition", naming every permitted target. */
  lemma NotPermittedListsAllowed(current: string, next: string)
    requires IsValidStatus(current) && IsValidStatus(next) && current != next
    requires |Transitions(current)| > 0 && next !in Transitions(current)
    ensures ValidateTransition(current, next) == Denied(NotPermittedReason(current, next, Transitions(current)))
    ensures StartsWith(ValidateTransition(current, next).reason, "Cannot transition from \"")
    ensures forall i :: 0 <= i < |Transitions(current)| ==>
      Contains(ValidateTransition(current, next).reason, Transitions(current)[i])
  {
    NotPermittedReasonNames(current, next, Transitions(current));
  }

  /** The "Cannot transition" reason names every target it is given. */
  lemma {:induction false} NotPermittedReasonNames(current: string, next: string, allowed: seq<string>)
    ensures StartsWith(NotPermittedReason(current, next, allowed), "Cannot transition from \"")
    ensures forall i :: 0 <= i < |allowed| ==> Contains(NotPermittedReason(current, next, allowed), allowed[i])
  {
    var head := "Cannot transition from \"";
    var pre := head + current + "\" to \"" + next + "\". Allowed: \"";
    var reason := NotPermittedReason(current, next, allowed);
    assert reason == pre + Join(allowed, "\", \"") + "\".";
    assert reason[..|head|] == head;
    forall i | 0 <= i < |allowed| ensures Contains(reason, allowed[i]) {
      JoinContains(allowed, "\", \"", i);
      ContainsInRight(pre, Join(allowed, "\", \""), allowed[i]);
      ContainsInLeft(pre + Join(allowed, "\", \""), "\".", allowed[i]);
    }
  }

  // ---------------------------------------------------------------------------
  // Chains of permitted moves.
  // ---------------------------------------------------------------------------

  /** A sequence of statuses in which each step is a permitted move. */
  predicate IsChain(path: seq<string>)
  {
    forall i :: 0 <= i < |path| - 1 ==> ValidateTransition(path[i], path[i + 1]).Allowed?
  }

  /** Along a chain of two or more statuses the rank rises by at least one per step. */
  lemma {:induction false} ChainRises(path: seq<string>)
    requires IsChain(path) && |path| >= 2
    ensures IsValidStatus(path[0]) && IsValidStatus(path[|path| - 1])
    ensures Rank(path[|path| - 1]) >= Rank(path[0]) + |path| - 1
  {
    AllowedMovesForward(path[0], path[1]);
    if |path| > 2 {
      ChainRises(path[1..]);
    }
  }

  /** Moves only go forward: a chain never returns to where it started, and
      no chain has more than three moves. */
  lemma {:induction false} ChainsAreShortAndAcyclic(path: seq<string>)
    requires IsChain(path)
    ensures |path| <= 4
    ensures |path| >= 2 ==> path[0] != path[|path| - 1]
  {
    if |path| >= 2 {
      ChainRises(path);
      var n := |path|;
      if n >= 3 {
        ChainRises(path[..n - 1]);
        AllowedMovesForward(path[n - 2], path[n - 1]);
      }
    }
  }

  /** The bound is reached: Pending, Under Review, Investigation, Resolved. */
  lemma LongestChainExists()
    ensures IsChain(["Pending", "Under Review", "Investigation", "Resolved"])
  {
    var path := ["Pending", "Under Review", "Investigation", "Resolved"];
    assert ValidateTransition(path[0], path[1]).Allowed?;
    assert ValidateTransition(path[1], path[2]).Allowed?;
    assert ValidateTransition(path[2], path[3]).Allowed?;
  }
}
