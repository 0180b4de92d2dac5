/**
 Claiming a batch: both queues of the program select due rows, order them, and cut the
 result at a limit. The order leaves ties open, so a batch is specified by a relation.
 */
module Batching {

  datatype Rank = Rank(major: int, minor: int)

  predicate Leq(a: Rank, b: Rank) {
    a.major < b.major || (a.major == b.major && a.minor <= b.minor)
  }

  predicate Distinct(ids: seq<nat>) {
    forall i, j :: 0 <= i < j < |ids| ==> ids[i] != ids[j]
  }

  /** `ids` are distinct due rows, in rank order, as many as the limit allows, and no due row
      that was left behind ranks before one that was taken. */
  ghost predicate LeastBatch(ranks: seq<Rank>, due: set<nat>, limit: nat, ids: seq<nat>)
    requires forall d :: d in due ==> d < |ranks|
  {
    && Distinct(ids)
    && (forall k :: 0 <= k < |ids| ==> ids[k] in due)
    && |ids| == (if limit <= |due| then limit else |due|)
    && (forall i, j :: 0 <= i < j < |ids| ==> Leq(ranks[ids[i]], ranks[ids[j]]))
    && (forall k, d :: 0 <= k < |ids| && d in due && d !in ids ==> Leq(ranks[ids[k]], ranks[d]))
  }

  /** A row of least rank among the candidates. */
  method LeastOf(ranks: seq<Rank>, candidates: set<nat>) returns (least: nat)
    requires candidates != {} && forall d :: d in candidates ==> d < |ranks|
    ensures least in candidates
    ensures forall d :: d in candidates ==> Leq(ranks[least], ranks[d])
  {
    least :| least in candidates;
    var rest := candidates - {least};
    while rest != {}
      invariant rest <= candidates && least in candidates
      invariant forall d :: d in candidates && d !in rest ==> Leq(ranks[least], ranks[d])
      decreases rest
    {
      var d :| d in rest;
      if !Leq(ranks[least], ranks[d]) {
        least := d;
      }
      rest := rest - {d};
    }
  }

  /** Takes least rows until the limit is reached or no due row is left. */
  method SelectBatch(ranks: seq<Rank>, due: set<nat>, limit: nat) returns (ids: seq<nat>)
    requires forall d :: d in due ==> d < |ranks|
    ensures LeastBatch(ranks, due, limit, ids)
  {
    ids := [];
    var rest := due;
    while |ids| < limit && rest != {}
      invariant |ids| <= limit && rest <= due && |ids| + |rest| == |due|
      invariant forall k :: 0 <= k < |ids| ==> ids[k] in due && ids[k] !in rest
      invariant forall d :: d in due && d !in rest ==> d in ids
      invariant Distinct(ids)
      invariant forall i, j :: 0 <= i < j < |ids| ==> Leq(ranks[ids[i]], ranks[ids[j]])
      invariant forall k, d :: 0 <= k < |ids| && d in rest ==> Leq(ranks[ids[k]], ranks[d])
      decreases rest
    {
      var least := LeastOf(ranks, rest);
      ids, rest := ids + [least], rest - {least};
    }
  }

  lemma LeastExists(ranks: seq<Rank>, due: set<nat>) returns (least: nat)
    requires due != {} && forall d :: d in due ==> d < |ranks|
    ensures least in due && forall d :: d in due ==> Leq(ranks[least], ranks[d])
    decreases due
  {
    var first :| first in due;
    var rest := due - {first};
    assert forall d :: d in due ==> d == first || d in rest;
    least := first;
    if rest != {} {
      var other := LeastExists(ranks, rest);
      least := if Leq(ranks[first], ranks[other]) then first else other;
    }
  }

  /** A limit of as many rows as are due admits a batch of all of them. */
  lemma {:induction false} FullBatch(ranks: seq<Rank>, due: set<nat>) returns (ids: seq<nat>)
    requires forall d :: d in due ==> d < |ranks|
    ensures LeastBatch(ranks, due, |due|, ids) && forall d :: d in due ==> d in ids
    decreases due
  {
    if due == {} {
      ids := [];
    } else {
      var least := LeastExists(ranks, due);
      var rest := FullBatch(ranks, due - {least});
      ids := [least] + rest;
      assert forall k :: 1 <= k < |ids| ==> ids[k] == rest[k - 1];
    }
  }
}
