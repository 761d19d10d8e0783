// When the outcome of the fare selection is independent of the order in which suppliers answered
// (src/selection.rs winners), with unranked suppliers allowed.
module SelectionOrder {
  import opened Wrappers
  import opened Selection

  // An offer no rival undercuts.
  ghost predicate Lowest(cs: seq<Candidate>, i: nat)
    requires i < |cs|
  {
    forall j: nat :: j < |cs| && Rivals(cs, i, j) ==> cs[i].total.value <= cs[j].total.value
  }

  // A cheapest unranked offer that ties with two differently ranked ones.
  ghost predicate Unsettled(cs: seq<Candidate>, u: nat, a: nat, b: nat) {
    && u < |cs| && a < |cs| && b < |cs|
    && Rivals(cs, u, a) && Rivals(cs, u, b) && Lowest(cs, u)
    && cs[a].total == cs[u].total && cs[b].total == cs[u].total
    && cs[u].rank.None? && cs[a].rank.Some? && cs[b].rank.Some? && cs[a].rank.value < cs[b].rank.value
  }

  ghost predicate Settled(cs: seq<Candidate>) {
    forall u: nat, a: nat, b: nat :: !Unsettled(cs, u, a, b)
  }

  // Cheapest, and best ranked among the equally cheap as far as both are ranked.
  ghost predicate Leads(cs: seq<Candidate>, i: nat)
    requires i < |cs|
  {
    && Lowest(cs, i)
    && forall j: nat :: j < |cs| && Rivals(cs, i, j) && cs[j].total == cs[i].total && cs[i].rank.Some? && cs[j].rank.Some? ==>
         cs[i].rank.value <= cs[j].rank.value
  }

  ghost predicate Compared(cs: seq<Candidate>, i: nat)
    requires i < |cs|
  {
    Eligible(cs, ConflictSet(cs), i)
  }

  lemma ComparedIsOwnRival(cs: seq<Candidate>, i: nat)
    requires i < |cs|
    ensures Compared(cs, i) <==> Rivals(cs, i, i)
  {
    if Rivals(cs, i, i) {
      NotEligibleNoRivals(cs, i, i);
    }
  }

  lemma TiedIsLowest(cs: seq<Candidate>, i: nat, j: nat)
    requires i < |cs| && Compared(cs, i)
    ensures Tied(cs, ConflictSet(cs), cs[i].key.value, |cs|, j) <==> j < |cs| && Rivals(cs, i, j) && Lowest(cs, j)
  {
    var conflicts, key := ConflictSet(cs), cs[i].key.value;
    forall k: nat | k < |cs| ensures Contends(cs, conflicts, key, k) <==> Rivals(cs, i, k) {
      ContendsIsRival(cs, i, k);
    }
    if j < |cs| && Rivals(cs, i, j) {
      forall k: nat | k < |cs| ensures Rivals(cs, j, k) <==> Rivals(cs, i, k) {
      }
    }
    hide Conflicted, ConflictSet;
  }

  lemma Unfolded(cs: seq<Candidate>, i: nat) returns (first: nat, best: nat)
    requires i < |cs| && Compared(cs, i)
    ensures var conflicts, key, n := ConflictSet(cs), cs[i].key.value, |cs|;
            && FirstTied(cs, conflicts, key, n, first)
            && (cs[first].rank.Some? ==> FirstBest(cs, conflicts, key, n, best))
            && (Retained(cs, i) <==>
                  && Tied(cs, conflicts, key, n, i)
                  && (cs[first].rank.None? || (best <= i && (cs[i].rank.None? || cs[i].rank == cs[best].rank))))
  {
    var conflicts, key, n := ConflictSet(cs), cs[i].key.value, |cs|;
    first, best := StreamDescribed(cs, conflicts, key, n);
    assert Contends(cs, conflicts, key, i);
    FirstsAgree(cs, conflicts, key, n, first, best);
    hide ConflictSet, Streamed, Tied;
  }

  // In a settled list an offer that is compared stays exactly when it leads.
  lemma SettledKeepsLeaders(cs: seq<Candidate>, i: nat)
    requires i < |cs| && Settled(cs)
    ensures Retained(cs, i) <==> (Compared(cs, i) ==> Leads(cs, i))
  {
    if Compared(cs, i) {
      var first, best := Unfolded(cs, i);
      var conflicts, key, n := ConflictSet(cs), cs[i].key.value, |cs|;
      forall j: nat ensures Tied(cs, conflicts, key, n, j) <==> j < n && Rivals(cs, i, j) && Lowest(cs, j) {
        TiedIsLowest(cs, i, j);
      }
      ComparedIsOwnRival(cs, i);
      if Tied(cs, conflicts, key, n, i) {
        TiedSettled(cs, i, first, best);
      }
    }
    hide ConflictSet, Conflicted, Stays, Eligible, Tied;
  }

  lemma TiedSettled(cs: seq<Candidate>, i: nat, first: nat, best: nat)
    requires i < |cs| && Settled(cs) && Compared(cs, i)
    requires Tied(cs, ConflictSet(cs), cs[i].key.value, |cs|, i)
    requires FirstTied(cs, ConflictSet(cs), cs[i].key.value, |cs|, first)
    requires cs[first].rank.Some? ==> FirstBest(cs, ConflictSet(cs), cs[i].key.value, |cs|, best)
    ensures (cs[first].rank.None? || (best <= i && (cs[i].rank.None? || cs[i].rank == cs[best].rank))) <==> Leads(cs, i)
  {
    var conflicts, key, n := ConflictSet(cs), cs[i].key.value, |cs|;
    forall j: nat ensures Tied(cs, conflicts, key, n, j) <==> j < n && Rivals(cs, i, j) && Lowest(cs, j) {
      TiedIsLowest(cs, i, j);
    }
    hide ConflictSet, Conflicted, Eligible, Tied;
    forall j: nat | j < n && Rivals(cs, i, j) && cs[j].total == cs[i].total ensures Tied(cs, conflicts, key, n, j) {
      LowestTogether(cs, i, j);
    }
    forall j: nat, k: nat | Tied(cs, conflicts, key, n, j) && Tied(cs, conflicts, key, n, k)
      ensures cs[j].total == cs[k].total && Rivals(cs, j, k)
    {
      RivalsTogether(cs, i, j, k);
    }
    assert Lowest(cs, i);
    if cs[first].rank.None? {
      forall j: nat | j < n && Rivals(cs, i, j) && cs[j].total == cs[i].total && cs[i].rank.Some? && cs[j].rank.Some?
        ensures cs[i].rank.value <= cs[j].rank.value
      {
        assert !Unsettled(cs, first, j, i);
      }
    } else if cs[i].rank.None? {
      assert !Unsettled(cs, i, best, first);
    } else {
      assert Tied(cs, conflicts, key, n, best);
      assert Rivals(cs, i, best);
      forall j: nat | j < n && Rivals(cs, i, j) && cs[j].total == cs[i].total && cs[j].rank.Some?
        ensures cs[best].rank.value <= cs[j].rank.value
      {
        assert Tied(cs, conflicts, key, n, j);
      }
    }
  }

  lemma LowestTogether(cs: seq<Candidate>, i: nat, j: nat)
    requires i < |cs| && j < |cs| && Rivals(cs, i, j) && Lowest(cs, i) && cs[j].total == cs[i].total
    ensures Lowest(cs, j)
  {
    forall k: nat | k < |cs| && Rivals(cs, j, k) ensures cs[j].total.value <= cs[k].total.value {
      assert Rivals(cs, i, k);
    }
    hide Conflicted;
  }

  lemma RivalsTogether(cs: seq<Candidate>, i: nat, j: nat, k: nat)
    requires i < |cs| && j < |cs| && k < |cs| && Rivals(cs, i, j) && Rivals(cs, i, k) && Lowest(cs, j) && Lowest(cs, k)
    ensures cs[j].total == cs[k].total && Rivals(cs, j, k)
  {
    assert Rivals(cs, j, k) && Rivals(cs, k, j);
    hide Conflicted;
  }

  // ---- Reordering -------------------------------------------------------------------------------------

  ghost predicate Reordered(cs: seq<Candidate>, ds: seq<Candidate>, p: seq<nat>, q: seq<nat>) {
    && Permutation(p, q) && |cs| == |ds| == |p|
    && forall i :: 0 <= i < |ds| ==> ds[i] == cs[p[i]]
  }

  ghost predicate SameOutcome(cs: seq<Candidate>, ds: seq<Candidate>, p: seq<nat>)
    requires |cs| == |ds| == |p| && forall i :: 0 <= i < |p| ==> p[i] < |cs|
  {
    forall i :: 0 <= i < |ds| ==> (Retained(ds, i) <==> Retained(cs, p[i]))
  }

  ghost predicate OrderInvariant(cs: seq<Candidate>) {
    forall ds: seq<Candidate>, p: seq<nat>, q: seq<nat> :: Reordered(cs, ds, p, q) ==> SameOutcome(cs, ds, p)
  }

  lemma RivalsReordered(cs: seq<Candidate>, ds: seq<Candidate>, p: seq<nat>, q: seq<nat>, i: nat, j: nat)
    requires Reordered(cs, ds, p, q) && i < |ds| && j < |ds|
    ensures Rivals(ds, i, j) <==> Rivals(cs, p[i], p[j])
  {
    if ds[i].key.Some? {
      ConflictsIgnoreOrder(cs, ds, p, q, ds[i].key.value);
    }
    hide Conflicted, Permutation;
  }

  lemma LowestReordered(cs: seq<Candidate>, ds: seq<Candidate>, p: seq<nat>, q: seq<nat>, i: nat)
    requires Reordered(cs, ds, p, q) && i < |ds|
    ensures Lowest(ds, i) <==> Lowest(cs, p[i])
    ensures Leads(ds, i) <==> Leads(cs, p[i])
    ensures Compared(ds, i) <==> Compared(cs, p[i])
  {
    forall j: nat | j < |ds| ensures Rivals(ds, i, j) <==> Rivals(cs, p[i], p[j]) {
      RivalsReordered(cs, ds, p, q, i, j);
    }
    forall k: nat | k < |cs| ensures Rivals(cs, p[i], k) <==> Rivals(ds, i, q[k]) {
      RivalsReordered(cs, ds, p, q, i, q[k]);
      assert p[q[k]] == k;
    }
    ComparedIsOwnRival(ds, i);
    ComparedIsOwnRival(cs, p[i]);
    forall k: nat | k < |cs| ensures cs[k] == ds[q[k]] && q[k] < |ds| {
      assert p[q[k]] == k;
    }
    hide Rivals, Compared, Conflicted;
  }

  lemma UnsettledReordered(cs: seq<Candidate>, ds: seq<Candidate>, p: seq<nat>, q: seq<nat>, u: nat, a: nat, b: nat)
    requires Reordered(cs, ds, p, q) && Unsettled(ds, u, a, b)
    ensures Unsettled(cs, p[u], p[a], p[b])
  {
    RivalsReordered(cs, ds, p, q, u, a);
    RivalsReordered(cs, ds, p, q, u, b);
    LowestReordered(cs, ds, p, q, u);
    hide Rivals, Lowest;
  }

  lemma SettledReordered(cs: seq<Candidate>, ds: seq<Candidate>, p: seq<nat>, q: seq<nat>)
    requires Reordered(cs, ds, p, q) && Settled(cs)
    ensures Settled(ds)
  {
    forall u: nat, a: nat, b: nat ensures !Unsettled(ds, u, a, b) {
      if Unsettled(ds, u, a, b) {
        UnsettledReordered(cs, ds, p, q, u, a, b);
      }
    }
    hide Unsettled;
  }

  // k first, the others in their order.
  function ToFront(n: nat, k: nat): (p: seq<nat>)
    requires k < n
  {
    seq(n, i requires 0 <= i < n => if i == 0 then k else if i <= k then i - 1 else i)
  }

  function FromFront(n: nat, k: nat): (q: seq<nat>)
    requires k < n
  {
    seq(n, i requires 0 <= i < n => if i == k then 0 else if i < k then i + 1 else i)
  }

  function MovedFirst(cs: seq<Candidate>, k: nat): (ds: seq<Candidate>)
    requires k < |cs|
  {
    seq(|cs|, i requires 0 <= i < |cs| => cs[ToFront(|cs|, k)[i]])
  }

  lemma MovedIsReordered(cs: seq<Candidate>, k: nat)
    requires k < |cs|
    ensures Reordered(cs, MovedFirst(cs, k), ToFront(|cs|, k), FromFront(|cs|, k))
  {
  }

  // Led by the unranked offer the whole tie stays; led by a better ranked one the worse ranked goes.
  lemma LeaderDecides(cs: seq<Candidate>, u: nat, a: nat, b: nat)
    requires Unsettled(cs, u, a, b)
    ensures Retained(MovedFirst(cs, u), FromFront(|cs|, u)[b])
    ensures !Retained(MovedFirst(cs, a), FromFront(|cs|, a)[b])
  {
    LedByUnranked(cs, u, a, b);
    LedByRanked(cs, u, a, b);
    hide Retained, MovedFirst;
  }

  lemma FrontIsFirst(cs: seq<Candidate>, k: nat, b: nat)
    requires k < |cs| && b < |cs| && Rivals(cs, k, b) && Lowest(cs, k) && cs[b].total == cs[k].total
    ensures var ds, y := MovedFirst(cs, k), FromFront(|cs|, k)[b];
            && y < |ds| && ds[y] == cs[b] && ds[0] == cs[k]
            && Compared(ds, y)
            && Tied(ds, ConflictSet(ds), ds[y].key.value, |ds|, y)
            && Tied(ds, ConflictSet(ds), ds[y].key.value, |ds|, 0)
  {
    var ds, p, q := MovedFirst(cs, k), ToFront(|cs|, k), FromFront(|cs|, k);
    MovedIsReordered(cs, k);
    var y := q[b];
    assert p[y] == b && p[0] == k;
    LowestTogether(cs, k, b);
    RivalsReordered(cs, ds, p, q, y, 0);
    RivalsReordered(cs, ds, p, q, y, y);
    LowestReordered(cs, ds, p, q, y);
    LowestReordered(cs, ds, p, q, 0);
    ComparedIsOwnRival(ds, y);
    hide Lowest, Permutation, Conflicted, ConflictSet, Eligible;
    TiedIsLowest(ds, y, y);
    TiedIsLowest(ds, y, 0);
  }

  lemma LedByUnranked(cs: seq<Candidate>, u: nat, a: nat, b: nat)
    requires Unsettled(cs, u, a, b)
    ensures Retained(MovedFirst(cs, u), FromFront(|cs|, u)[b])
  {
    FrontIsFirst(cs, u, b);
    var ds, y := MovedFirst(cs, u), FromFront(|cs|, u)[b];
    var first, best := Unfolded(ds, y);
    hide MovedFirst, ConflictSet, Retained, Tied;
    assert first == 0;
  }

  lemma LedByRanked(cs: seq<Candidate>, u: nat, a: nat, b: nat)
    requires Unsettled(cs, u, a, b)
    ensures !Retained(MovedFirst(cs, a), FromFront(|cs|, a)[b])
  {
    LowestTogether(cs, u, a);
    assert Rivals(cs, a, b);
    FrontIsFirst(cs, a, b);
    var ds, y := MovedFirst(cs, a), FromFront(|cs|, a)[b];
    var first, best := Unfolded(ds, y);
    hide MovedFirst, ConflictSet, Retained, Tied, Lowest, Rivals;
    assert first == 0;
    assert ds[best].rank.value <= ds[0].rank.value;
  }

  lemma SettledSameOutcome(cs: seq<Candidate>, ds: seq<Candidate>, p: seq<nat>, q: seq<nat>)
    requires Reordered(cs, ds, p, q) && Settled(cs)
    ensures SameOutcome(cs, ds, p)
  {
    SettledReordered(cs, ds, p, q);
    forall i | 0 <= i < |ds| ensures Retained(ds, i) <==> Retained(cs, p[i]) {
      SettledKeepsLeaders(ds, i);
      SettledKeepsLeaders(cs, p[i]);
      LowestReordered(cs, ds, p, q, i);
      hide Retained, Compared, Leads, Settled;
    }
  }

  // The selection is independent of the order of the answers exactly when no cheapest tie mixes an
  // unranked supplier with two different ranks.
  lemma OrderInvariantIffSettled(cs: seq<Candidate>)
    ensures OrderInvariant(cs) <==> Settled(cs)
  {
    if Settled(cs) {
      forall ds: seq<Candidate>, p: seq<nat>, q: seq<nat> | Reordered(cs, ds, p, q) ensures SameOutcome(cs, ds, p) {
        SettledSameOutcome(cs, ds, p, q);
      }
    } else {
      var u: nat, a: nat, b: nat :| Unsettled(cs, u, a, b);
      LeaderDecides(cs, u, a, b);
      MovedIsReordered(cs, u);
      MovedIsReordered(cs, a);
      assert ToFront(|cs|, u)[FromFront(|cs|, u)[b]] == b && ToFront(|cs|, a)[FromFront(|cs|, a)[b]] == b;
      hide Retained, MovedFirst, Reordered, Unsettled;
    }
  }
}
