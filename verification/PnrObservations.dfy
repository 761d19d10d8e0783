// Saved PNR lookups (src/booking.rs reconcile_owned, read back by src/portal_holds.rs).  Lookups
// overlap: each carries the time it was sent, and they complete in any order.
module PnrObservations {
  import opened Wrappers
  import opened Json

  // deadline: the ticketing deadline the body states, if it is a well-formed one.
  datatype Observation = Observation(requested: int, body: Value, verified: bool, deadline: Option<string>)

  // The booking's latest-attempt columns.
  datatype Row = Row(last: Option<Value>, verified: bool, checked: Option<int>, deadline: Option<string>)

  predicate Applies(row: Row, seen: Observation) {
    row.checked.None? || row.checked.value <= seen.requested
  }

  function Saved(row: Row, seen: Observation): Row {
    if Applies(row, seen)
    then Row(Some(seen.body), seen.verified, Some(seen.requested), if seen.verified then seen.deadline else row.deadline)
    else row
  }

  function Replayed(row: Row, log: seq<Observation>): Row {
    if log == [] then row else Saved(Replayed(row, log[..|log| - 1]), log[|log| - 1])
  }

  // ORDER BY requested_at DESC, id DESC LIMIT 1 among the verified.
  function LatestVerified(log: seq<Observation>): (latest: Option<Observation>)
    ensures latest.Some? ==> latest.value in log && latest.value.verified
    ensures forall seen :: seen in log && seen.verified ==> latest.Some? && seen.requested <= latest.value.requested
  {
    if log == [] then None
    else
      var earlier, seen := LatestVerified(log[..|log| - 1]), log[|log| - 1];
      assert log == log[..|log| - 1] + [seen];
      if seen.verified && (earlier.None? || earlier.value.requested <= seen.requested) then Some(seen) else earlier
  }

  // The columns of an attempt; only a verified one states a deadline.
  ghost predicate Shows(row: Row, seen: Observation) {
    && row.last == Some(seen.body) && row.verified == seen.verified && row.checked == Some(seen.requested)
    && (seen.verified ==> row.deadline == seen.deadline)
  }

  class PnrRecord {
    var row: Row
    var log: seq<Observation>

    constructor (row: Row)
      ensures this.row == row && log == []
    {
      this.row, this.log := row, [];
    }

    // Every lookup is logged; the columns move only forward in dispatch time.
    method Record(seen: Observation)
      modifies this
      ensures log == old(log) + [seen]
      ensures row == Saved(old(row), seen)
      ensures old(row).checked.Some? && seen.requested < old(row).checked.value ==> row == old(row)
      ensures old(row).checked.None? || old(row).checked.value <= seen.requested ==> Shows(row, seen)
      ensures !seen.verified ==> row.deadline == old(row).deadline
    {
      log := log + [seen];
      if row.checked.None? || row.checked.value <= seen.requested {
        var deadline := row.deadline;
        if seen.verified {
          deadline := seen.deadline;
        }
        row := Row(Some(seen.body), seen.verified, Some(seen.requested), deadline);
      }
    }

    method RecordAll(lookups: seq<Observation>)
      modifies this
      ensures row == Replayed(old(row), lookups) && log == old(log) + lookups
    {
      for i := 0 to |lookups|
        invariant row == Replayed(old(row), lookups[..i]) && log == old(log) + lookups[..i]
      {
        assert lookups[..i + 1][..i] == lookups[..i];
        assert lookups[..i + 1] == lookups[..i] + [lookups[i]];
        Record(lookups[i]);
      }
      assert lookups[..|lookups|] == lookups;
    }
  }

  ghost predicate DistinctTimes(log: seq<Observation>) {
    forall i, j :: 0 <= i < j < |log| ==> log[i].requested != log[j].requested
  }

  // The attempt the columns describe: the latest sent of those not older than the row.
  ghost predicate IsLatest(row: Row, log: seq<Observation>, seen: Observation) {
    && seen in log && Applies(row, seen)
    && forall other :: other in log && Applies(row, other) ==> other.requested <= seen.requested
  }

  lemma {:induction false} ReplayShowsLatest(row: Row, log: seq<Observation>) returns (latest: Option<Observation>)
    ensures latest.None? ==> Replayed(row, log) == row && forall seen :: seen in log ==> !Applies(row, seen)
    ensures latest.Some? ==> IsLatest(row, log, latest.value) && Shows(Replayed(row, log), latest.value)
  {
    if log == [] {
      latest := None;
    } else {
      var before, seen := log[..|log| - 1], log[|log| - 1];
      assert log == before + [seen];
      latest := ReplayShowsLatest(row, before);
      if Applies(Replayed(row, before), seen) {
        latest := Some(seen);
      }
    }
  }

  lemma SameMembers(a: seq<Observation>, b: seq<Observation>)
    requires multiset(a) == multiset(b)
    ensures forall seen :: seen in a <==> seen in b
  {
    forall seen ensures seen in a <==> seen in b {
      assert seen in multiset(a) <==> seen in multiset(b);
    }
  }

  lemma SameTimeSameLookup(log: seq<Observation>, a: Observation, b: Observation)
    requires DistinctTimes(log) && a in log && b in log && a.requested == b.requested
    ensures a == b
  {
    var i :| 0 <= i < |log| && log[i] == a;
    var j :| 0 <= j < |log| && log[j] == b;
    assert i == j;
  }

  // The saved response, its verified flag and its check time do not depend on the completion order.
  lemma LastAttemptConfluent(row: Row, a: seq<Observation>, b: seq<Observation>)
    requires DistinctTimes(a) && multiset(a) == multiset(b)
    ensures var x, y := Replayed(row, a), Replayed(row, b);
            x.last == y.last && x.verified == y.verified && x.checked == y.checked
    ensures Replayed(row, a).verified && Replayed(row, a) != row ==> Replayed(row, a) == Replayed(row, b)
  {
    SameMembers(a, b);
    var first := ReplayShowsLatest(row, a);
    var second := ReplayShowsLatest(row, b);
    if first.Some? && second.Some? {
      SameTimeSameLookup(a, first.value, second.value);
    }
  }

  // Nor does the latest verified lookup that the portal shows, so its deadline does not either.
  lemma LatestVerifiedConfluent(a: seq<Observation>, b: seq<Observation>)
    requires DistinctTimes(a) && multiset(a) == multiset(b)
    ensures LatestVerified(a) == LatestVerified(b)
  {
    SameMembers(a, b);
    var first, second := LatestVerified(a), LatestVerified(b);
    if first.Some? && second.Some? {
      SameTimeSameLookup(a, first.value, second.value);
    }
  }

  // ---- The deadline column -----------------------------------------------------------------------------

  ghost predicate DeadlineConfluent(row: Row, log: seq<Observation>) {
    forall other :: multiset(other) == multiset(log) ==> Replayed(row, other).deadline == Replayed(row, log).deadline
  }

  // Nothing newer than the row, a verified latest attempt, or no verified attempt that says anything new.
  ghost predicate DeadlineSettled(row: Row, log: seq<Observation>) {
    || (exists seen :: IsLatest(row, log, seen) && seen.verified)
    || (forall seen :: seen in log && seen.verified && Applies(row, seen) ==> seen.deadline == row.deadline)
  }

  lemma {:induction false} NothingNew(row: Row, log: seq<Observation>)
    requires forall seen :: seen in log && seen.verified && Applies(row, seen) ==> seen.deadline == row.deadline
    ensures Replayed(row, log).deadline == row.deadline
    ensures row.checked.Some? ==> Replayed(row, log).checked.Some? && row.checked.value <= Replayed(row, log).checked.value
  {
    if log != [] {
      var before, seen := log[..|log| - 1], log[|log| - 1];
      assert log == before + [seen];
      NothingNew(row, before);
    }
  }

  lemma {:induction false} AllOlder(row: Row, first: seq<Observation>, log: seq<Observation>)
    requires forall seen :: seen in log ==> !Applies(Replayed(row, first), seen)
    ensures Replayed(row, first + log) == Replayed(row, first)
  {
    if log == [] {
      assert first + log == first;
    } else {
      var before, seen := log[..|log| - 1], log[|log| - 1];
      assert log == before + [seen];
      AllOlder(row, first, before);
      assert (first + log)[..|first + log| - 1] == first + before;
    }
  }

  function Removed(log: seq<Observation>, i: nat): (rest: seq<Observation>)
    requires i < |log|
    ensures multiset(rest) + multiset{log[i]} == multiset(log)
  {
    assert log == log[..i] + [log[i]] + log[i + 1..];
    log[..i] + log[i + 1..]
  }

  // Completing the latest attempt first leaves the deadline alone.
  lemma LatestFirst(row: Row, log: seq<Observation>, k: nat)
    requires DistinctTimes(log) && k < |log| && IsLatest(row, log, log[k])
    ensures Replayed(row, [log[k]] + Removed(log, k)) == Saved(row, log[k])
    ensures multiset([log[k]] + Removed(log, k)) == multiset(log)
  {
    RestOlder(row, log, k, log[k]);
    ReplayOne(row, log[k]);
    AllOlder(row, [log[k]], Removed(log, k));
    hide Removed;
  }

  // Completing a verified one just before it does not.
  lemma VerifiedFirst(row: Row, log: seq<Observation>, k: nat, j: nat)
    requires DistinctTimes(log) && k < |log| && IsLatest(row, log, log[k])
    requires j < |Removed(log, k)| && Applies(row, Removed(log, k)[j])
    ensures var rest := Removed(log, k);
            var order := [rest[j], log[k]] + Removed(rest, j);
            Replayed(row, order) == Saved(Saved(row, rest[j]), log[k]) && multiset(order) == multiset(log)
  {
    var rest := Removed(log, k);
    var others := Removed(rest, j);
    RestOlder(row, log, k, log[k]);
    ReplayTwo(row, rest[j], log[k]);
    hide Removed, IsLatest, DistinctTimes;
    forall other | other in others ensures other in rest {
      assert other in multiset(others);
      assert other in multiset(rest);
    }
    assert rest[j] in rest;
    AllOlder(row, [rest[j], log[k]], others);
    assert multiset([rest[j], log[k]] + others) == multiset{log[k]} + (multiset{rest[j]} + multiset(others));
  }

  lemma TwoOrders(row: Row, log: seq<Observation>, latest: Observation, seen: Observation)
    returns (without: seq<Observation>, with: seq<Observation>)
    requires DistinctTimes(log) && IsLatest(row, log, latest) && !latest.verified
    requires seen in log && seen.verified && Applies(row, seen)
    ensures multiset(without) == multiset(log) && Replayed(row, without).deadline == row.deadline
    ensures multiset(with) == multiset(log) && Replayed(row, with).deadline == seen.deadline
  {
    var k :| 0 <= k < |log| && log[k] == latest;
    var rest := Removed(log, k);
    without := [latest] + rest;
    LatestFirst(row, log, k);
    var j := PlaceIn(log, k, seen);
    VerifiedFirst(row, log, k, j);
    with := [seen, latest] + Removed(rest, j);
    hide Removed, IsLatest, DistinctTimes, Replayed;
  }

  lemma PlaceIn(log: seq<Observation>, k: nat, seen: Observation) returns (j: nat)
    requires k < |log| && seen in log && seen != log[k]
    ensures j < |Removed(log, k)| && Removed(log, k)[j] == seen
  {
    var i :| 0 <= i < |log| && log[i] == seen;
    j := if i < k then i else i - 1;
  }

  lemma ReplayOne(row: Row, seen: Observation)
    ensures Replayed(row, [seen]) == Saved(row, seen)
  {
    assert [seen][..0] == [];
  }

  lemma ReplayTwo(row: Row, first: Observation, second: Observation)
    ensures Replayed(row, [first, second]) == Saved(Saved(row, first), second)
  {
    assert [first, second][..1] == [first];
    ReplayOne(row, first);
  }

  lemma RestOlder(row: Row, log: seq<Observation>, k: nat, latest: Observation)
    requires DistinctTimes(log) && IsLatest(row, log, latest) && k < |log| && log[k] == latest
    ensures forall other :: other in Removed(log, k) ==> other.requested < latest.requested
  {
    var rest := Removed(log, k);
    forall i | 0 <= i < |rest| ensures rest[i].requested < latest.requested {
      var place := if i < k then i else i + 1;
      assert rest[i] == log[place] && place != k;
      assert log[place] in log;
    }
  }

  // The deadline column is independent of the completion order exactly in these cases.
  lemma DeadlineConfluentIffSettled(row: Row, log: seq<Observation>)
    requires DistinctTimes(log)
    ensures DeadlineConfluent(row, log) <==> DeadlineSettled(row, log)
  {
    var latest := ReplayShowsLatest(row, log);
    if DeadlineSettled(row, log) {
      forall other | multiset(other) == multiset(log)
        ensures Replayed(row, other).deadline == Replayed(row, log).deadline
      {
        SettledConfluent(row, log, other);
      }
    } else {
      var seen :| seen in log && seen.verified && Applies(row, seen) && seen.deadline != row.deadline;
      var without, with := TwoOrders(row, log, latest.value, seen);
      assert Replayed(row, without).deadline != Replayed(row, with).deadline;
    }
  }

  lemma SettledConfluent(row: Row, log: seq<Observation>, other: seq<Observation>)
    requires DistinctTimes(log) && DeadlineSettled(row, log) && multiset(other) == multiset(log)
    ensures Replayed(row, other).deadline == Replayed(row, log).deadline
  {
    SameMembers(log, other);
    if seen :| IsLatest(row, log, seen) && seen.verified {
      var first := ReplayShowsLatest(row, log);
      var second := ReplayShowsLatest(row, other);
      SameTimeSameLookup(log, first.value, second.value);
      SameTimeSameLookup(log, first.value, seen);
    } else {
      NothingNew(row, log);
      NothingNew(row, other);
    }
  }

  // Two lookups suffice: a verified one with a new deadline, then an unverified one, completing in
  // either order.
  lemma DeadlineDependsOnOrder(row: Row, early: Observation, late: Observation)
    requires row.checked.None? && early.requested < late.requested
    requires early.verified && early.deadline != row.deadline && !late.verified
    ensures Replayed(row, [early, late]).deadline != Replayed(row, [late, early]).deadline
    ensures LatestVerified([early, late]) == LatestVerified([late, early]) == Some(early)
  {
    ReplayTwo(row, early, late);
    ReplayTwo(row, late, early);
    assert multiset([early, late]) == multiset([late, early]);
    LatestVerifiedConfluent([early, late], [late, early]);
    assert early in [early, late];
  }
}
