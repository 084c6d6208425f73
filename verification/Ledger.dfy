/** The accepted-vote ledger: rows, and the totals and voter sets that every other table must agree with. */
module Ledger {

  type InstallationId = string
  type RequestId = string
  type CaseId = string

  /** A business date as its day number; Calendar shows that day numbers order dates as their texts do. */
  type Day = int

  datatype Direction = Up | Down

  datatype VoteRow = VoteRow(
    installationId: InstallationId, requestId: RequestId, caseId: CaseId, day: Day, direction: Direction,
    requestedCount: nat, accepted: nat, usedAfter: int, remainingAfter: int, createdAt: int)

  type Filter = VoteRow -> bool

  function OnCase(c: CaseId, direction: Direction): Filter { (v: VoteRow) => v.caseId == c && v.direction == direction }

  function OfCase(c: CaseId): Filter { (v: VoteRow) => v.caseId == c }

  function ByOn(i: InstallationId, c: CaseId): Filter { (v: VoteRow) => v.installationId == i && v.caseId == c }

  function OnDay(d: Day, direction: Direction): Filter { (v: VoteRow) => v.day == d && v.direction == direction }

  function Between(first: Day, last: Day): Filter { (v: VoteRow) => first <= v.day <= last }

  function NotOn(d: Day): Filter { (v: VoteRow) => v.day != d }

  /** Sum of accepted amounts over the rows that pass a filter. */
  function Total(votes: seq<VoteRow>, keep: Filter): nat {
    if votes == [] then 0
    else Total(votes[..|votes| - 1], keep) + (if keep(votes[|votes| - 1]) then votes[|votes| - 1].accepted else 0)
  }

  /** Installations with at least one row that passes a filter. */
  function Voters(votes: seq<VoteRow>, keep: Filter): set<InstallationId> {
    set v | v in votes && keep(v) :: v.installationId
  }

  /** DELETE of every row that fails the filter. */
  function Kept(votes: seq<VoteRow>, keep: Filter): (kept: seq<VoteRow>)
    ensures forall v :: v in kept <==> v in votes && keep(v)
  {
    if votes == [] then []
    else
      var front := Kept(votes[..|votes| - 1], keep);
      var last := votes[|votes| - 1];
      assert votes == votes[..|votes| - 1] + [last];
      if keep(last) then front + [last] else front
  }

  lemma TotalAppend(votes: seq<VoteRow>, v: VoteRow, keep: Filter)
    ensures Total(votes + [v], keep) == Total(votes, keep) + (if keep(v) then v.accepted else 0)
  {
    assert (votes + [v])[..|votes|] == votes;
  }

  lemma VotersAppend(votes: seq<VoteRow>, v: VoteRow, keep: Filter)
    ensures Voters(votes + [v], keep) == Voters(votes, keep) + (if keep(v) then {v.installationId} else {})
  {
    forall i | i in Voters(votes, keep) ensures i in Voters(votes + [v], keep) {
      var u :| u in votes && keep(u) && u.installationId == i;
      assert u in votes + [v];
    }
  }

  lemma {:induction false} TotalSame(votes: seq<VoteRow>, a: Filter, b: Filter)
    requires forall v :: v in votes ==> a(v) == b(v)
    ensures Total(votes, a) == Total(votes, b)
  {
    if votes != [] {
      TotalSame(votes[..|votes| - 1], a, b);
    }
  }

  lemma {:induction false} TotalNone(votes: seq<VoteRow>, keep: Filter)
    requires forall v :: v in votes ==> !keep(v)
    ensures Total(votes, keep) == 0
  {
    if votes != [] {
      TotalNone(votes[..|votes| - 1], keep);
    }
  }

  /** Deleting rows that a total does not count leaves the total alone. */
  lemma {:induction false} TotalKept(votes: seq<VoteRow>, kept: Filter, keep: Filter)
    requires forall v :: v in votes && keep(v) ==> kept(v)
    ensures Total(Kept(votes, kept), keep) == Total(votes, keep)
  {
    if votes != [] {
      var front, last := votes[..|votes| - 1], votes[|votes| - 1];
      TotalKept(front, kept, keep);
      if kept(last) {
        TotalAppend(Kept(front, kept), last, keep);
      }
    }
  }

  lemma VotersKept(votes: seq<VoteRow>, kept: Filter, keep: Filter)
    requires forall v :: v in votes && keep(v) ==> kept(v)
    ensures Voters(Kept(votes, kept), keep) == Voters(votes, keep)
  {
  }

  /** A total splits over two filters that never hold together. */
  lemma {:induction false} TotalSplits(votes: seq<VoteRow>, a: Filter, b: Filter, both: Filter)
    requires forall v :: v in votes ==> both(v) == (a(v) || b(v)) && !(a(v) && b(v))
    ensures Total(votes, both) == Total(votes, a) + Total(votes, b)
  {
    if votes != [] {
      TotalSplits(votes[..|votes| - 1], a, b, both);
    }
  }

  /** Every voter contributes at least one stick. */
  lemma {:induction false} VotersAtMostTotal(votes: seq<VoteRow>, keep: Filter)
    requires forall v :: v in votes ==> v.accepted >= 1
    ensures |Voters(votes, keep)| <= Total(votes, keep)
  {
    if votes == [] {
      assert Voters(votes, keep) == {};
    } else {
      var front, last := votes[..|votes| - 1], votes[|votes| - 1];
      assert votes == front + [last];
      VotersAtMostTotal(front, keep);
      VotersAppend(front, last, keep);
    }
  }

  /** UNIQUE (installation_id, request_id). */
  predicate KeysUnique(votes: seq<VoteRow>) {
    forall i, j :: 0 <= i < j < |votes| ==>
      !(votes[i].installationId == votes[j].installationId && votes[i].requestId == votes[j].requestId)
  }

  lemma {:induction false} KeysUniqueKept(votes: seq<VoteRow>, keep: Filter)
    requires KeysUnique(votes)
    ensures KeysUnique(Kept(votes, keep))
  {
    if votes != [] {
      var front, last := votes[..|votes| - 1], votes[|votes| - 1];
      KeysUniqueKept(front, keep);
      var kept := Kept(front, keep);
      forall i | 0 <= i < |kept|
        ensures !(kept[i].installationId == last.installationId && kept[i].requestId == last.requestId)
      {
        assert kept[i] in front;
      }
    }
  }
}
