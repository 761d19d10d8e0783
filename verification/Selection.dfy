/**
 Cross-supplier fare selection (src/selection.rs): a one-pass cabin conflict fold,
 then a one-pass streaming minimum that withdraws earlier winners in place. The
 declarative meaning is Kept; the streaming code is proved equal to it.
 */
module Selection {
  import opened Wrappers
  import opened Json
  import opened SelectionKey
  import Decimals

  datatype SourceOffer = SourceOffer(supplier: string, tree: Value)

  /** What selection looks at in an offer. */
  datatype Candidate = Candidate(key: Option<string>, cabins: seq<Option<string>>, total: Option<real>, rank: Option<nat>)

  function RankFrom(supplier: string, priority: seq<string>, from: nat): Option<nat>
    requires from <= |priority|
    decreases |priority| - from
  {
    if from == |priority| then None
    else if priority[from] == supplier then Some(from)
    else RankFrom(supplier, priority, from + 1)
  }

  function TotalPrice(tree: Value): Option<real> {
    var price :- Get(tree, "totalPrice");
    if price.Number? then Decimals.Decimal(price.lexeme) else None
  }

  function CandidateOf(offer: SourceOffer, priority: seq<string>): Candidate {
    var rank := RankFrom(offer.supplier, priority, 0);
    if Comparable(offer.tree)
    then Candidate(Some(KeyOf(offer.tree).text), KeyOf(offer.tree).cabins, TotalPrice(offer.tree), rank)
    else Candidate(None, [], TotalPrice(offer.tree), rank)
  }

  function Candidates(offers: seq<SourceOffer>, priority: seq<string>): (cs: seq<Candidate>)
    ensures |cs| == |offers|
  {
    seq(|offers|, i requires 0 <= i < |offers| => CandidateOf(offers[i], priority))
  }

  // ---------------------------------------------------------------------------
  // Cabin conflicts.

  /** Two cabin lists disagree when their lengths differ or some position names two cabins. */
  predicate Clash(a: seq<Option<string>>, b: seq<Option<string>>) {
    || |a| != |b|
    || exists p | 0 <= p < |a| :: a[p].Some? && b[p].Some? && a[p] != b[p]
  }

  ghost predicate Conflicted(cs: seq<Candidate>, key: string) {
    exists i, j | 0 <= i < |cs| && 0 <= j < |cs| ::
      cs[i].key == Some(key) && cs[j].key == Some(key) && Clash(cs[i].cabins, cs[j].cabins)
  }

  /** Every known label was stated by a member seen before n. */
  ghost predicate Stated(cs: seq<Candidate>, n: nat, key: string, row: seq<Option<string>>)
    requires n <= |cs|
  {
    && (exists i | 0 <= i < n :: cs[i].key == Some(key) && |cs[i].cabins| == |row|)
    && forall p | 0 <= p < |row| && row[p].Some? ::
         exists i | 0 <= i < n :: cs[i].key == Some(key) && p < |cs[i].cabins| && cs[i].cabins[p] == row[p]
  }

  /** Every member before n agrees with the merged row. */
  ghost predicate Merged(cs: seq<Candidate>, n: nat, key: string, row: seq<Option<string>>)
    requires n <= |cs|
  {
    forall i | 0 <= i < n && cs[i].key == Some(key) :: Covers(row, cs[i].cabins)
  }

  predicate Covers(row: seq<Option<string>>, cabins: seq<Option<string>>) {
    |row| == |cabins| && forall p | 0 <= p < |row| :: cabins[p].None? || cabins[p] == row[p]
  }

  /** Merge one member into the known row; the flag reports a conflict. */
  method MergeRow(known: seq<Option<string>>, current: seq<Option<string>>) returns (row: seq<Option<string>>, conflict: bool)
    requires |known| == |current|
    ensures |row| == |known|
    ensures forall p | 0 <= p < |row| :: row[p] == if known[p].Some? then known[p] else current[p]
    ensures conflict <==> Clash(known, current)
  {
    row, conflict := known, false;
    for p := 0 to |known|
      invariant |row| == |known|
      invariant forall q | 0 <= q < p :: row[q] == if known[q].Some? then known[q] else current[q]
      invariant forall q | p <= q < |known| :: row[q] == known[q]
      invariant conflict <==> exists q | 0 <= q < p :: known[q].Some? && current[q].Some? && known[q] != current[q]
    {
      if row[p].Some? && current[p].Some? && row[p] != current[p] {
        conflict := true;
      } else if row[p].None? && current[p].Some? {
        row := row[p := current[p]];
      }
    }
  }

  /** What the fold knows about one key after n offers. */
  ghost predicate Tracked(cs: seq<Candidate>, n: nat, key: string, known: map<string, seq<Option<string>>>, conflicts: set<string>)
    requires n <= |cs|
  {
    && ((exists i | 0 <= i < n :: cs[i].key == Some(key)) ==> key in known)
    && (key in known ==> Stated(cs, n, key, known[key]))
    && (key in known && key !in conflicts ==> Merged(cs, n, key, known[key]))
    && (key in conflicts ==> Conflicted(cs, key))
  }

  ghost predicate AllTracked(cs: seq<Candidate>, n: nat, known: map<string, seq<Option<string>>>, conflicts: set<string>)
    requires n <= |cs|
  {
    forall key :: Tracked(cs, n, key, known, conflicts)
  }

  /** The conflict fold finds exactly the keys with two disagreeing members. */
  method ConflictingKeys(cs: seq<Candidate>) returns (conflicts: set<string>)
    ensures forall key :: key in conflicts <==> Conflicted(cs, key)
  {
    var known: map<string, seq<Option<string>>> := map[];
    conflicts := {};
    for n := 0 to |cs|
      invariant AllTracked(cs, n, known, conflicts)
    {
      var c := cs[n];
      ghost var before, conflictsBefore := known, conflicts;
      if c.key.Some? {
        var key := c.key.value;
        assert Tracked(cs, n, key, known, conflicts);
        if key !in known {
          known := known[key := c.cabins];
          StatedAlone(cs, n, key);
        } else if |known[key]| != |c.cabins| {
          LengthConflict(cs, n, key, known[key]);
          conflicts := conflicts + {key};
        } else {
          var row, conflict := MergeRow(known[key], c.cabins);
          if conflict {
            LabelConflict(cs, n, key, known[key]);
            conflicts := conflicts + {key};
          }
          StatedMerge(cs, n, key, known[key], row);
          MergedStep(cs, n, key, known[key], row);
          known := known[key := row];
        }
        assert Tracked(cs, n + 1, key, known, conflicts);
      }
      TrackedElsewhere(cs, n, before, conflictsBefore, known, conflicts);
    }
    forall key | Conflicted(cs, key)
      ensures key in conflicts
    {
      assert Tracked(cs, |cs|, key, known, conflicts);
      MergedNeverClashes(cs, key, known, conflicts);
    }
    assert forall key | key in conflicts :: Tracked(cs, |cs|, key, known, conflicts);
  }

  lemma MergedNeverClashes(cs: seq<Candidate>, key: string, known: map<string, seq<Option<string>>>, conflicts: set<string>)
    requires Tracked(cs, |cs|, key, known, conflicts)
    ensures Conflicted(cs, key) ==> key in conflicts
  {
    if key in known && key !in conflicts {
      forall i, j | 0 <= i < |cs| && 0 <= j < |cs| && cs[i].key == Some(key) && cs[j].key == Some(key)
        ensures !Clash(cs[i].cabins, cs[j].cabins)
      {
        assert Covers(known[key], cs[i].cabins) && Covers(known[key], cs[j].cabins);
      }
    }
  }

  lemma MergedStep(cs: seq<Candidate>, n: nat, key: string, known: seq<Option<string>>, row: seq<Option<string>>)
    requires n < |cs| && cs[n].key == Some(key)
    requires |known| == |row| == |cs[n].cabins|
    requires forall p | 0 <= p < |row| :: row[p] == if known[p].Some? then known[p] else cs[n].cabins[p]
    ensures Merged(cs, n, key, known) && !Clash(known, cs[n].cabins) ==> Merged(cs, n + 1, key, row)
  {
    if Merged(cs, n, key, known) && !Clash(known, cs[n].cabins) {
      forall i | 0 <= i < n + 1 && cs[i].key == Some(key)
        ensures Covers(row, cs[i].cabins)
      {
        if i < n {
          assert Covers(known, cs[i].cabins);
        }
      }
    }
  }

  /** A step concerns only the key of the offer it reads. */
  lemma TrackedElsewhere(cs: seq<Candidate>, n: nat, known: map<string, seq<Option<string>>>, conflicts: set<string>,
                         known': map<string, seq<Option<string>>>, conflicts': set<string>)
    requires n < |cs| && AllTracked(cs, n, known, conflicts)
    requires cs[n].key.Some? ==> Tracked(cs, n + 1, cs[n].key.value, known', conflicts')
    requires forall key | Some(key) != cs[n].key ::
               (key in known' <==> key in known) && (key in known ==> known'[key] == known[key]) && (key in conflicts' <==> key in conflicts)
    ensures AllTracked(cs, n + 1, known', conflicts')
  {
    var next := n + 1;
    forall key
      ensures Tracked(cs, next, key, known', conflicts')
    {
      assert Tracked(cs, n, key, known, conflicts);
      if Some(key) != cs[n].key && key in known {
        StatedLonger(cs, n, key, known[key]);
      }
    }
  }

  lemma StatedLonger(cs: seq<Candidate>, n: nat, key: string, row: seq<Option<string>>)
    requires n < |cs| && Stated(cs, n, key, row)
    ensures Stated(cs, n + 1, key, row)
  {
    forall p | 0 <= p < |row| && row[p].Some?
      ensures exists i | 0 <= i < n + 1 :: cs[i].key == Some(key) && p < |cs[i].cabins| && cs[i].cabins[p] == row[p]
    {
      var i :| 0 <= i < n && cs[i].key == Some(key) && p < |cs[i].cabins| && cs[i].cabins[p] == row[p];
    }
  }

  lemma StatedAlone(cs: seq<Candidate>, n: nat, key: string)
    requires n < |cs| && cs[n].key == Some(key)
    ensures Stated(cs, n + 1, key, cs[n].cabins)
  {
  }

  lemma LengthConflict(cs: seq<Candidate>, n: nat, key: string, row: seq<Option<string>>)
    requires n < |cs| && cs[n].key == Some(key)
    requires Stated(cs, n, key, row) && |row| != |cs[n].cabins|
    ensures Conflicted(cs, key)
  {
    var i :| 0 <= i < n && cs[i].key == Some(key) && |cs[i].cabins| == |row|;
    assert Clash(cs[i].cabins, cs[n].cabins);
  }

  lemma LabelConflict(cs: seq<Candidate>, n: nat, key: string, row: seq<Option<string>>)
    requires n < |cs| && cs[n].key == Some(key)
    requires Stated(cs, n, key, row) && |row| == |cs[n].cabins| && Clash(row, cs[n].cabins)
    ensures Conflicted(cs, key)
  {
    var p :| 0 <= p < |row| && row[p].Some? && cs[n].cabins[p].Some? && row[p] != cs[n].cabins[p];
    var i :| 0 <= i < n && cs[i].key == Some(key) && p < |cs[i].cabins| && cs[i].cabins[p] == row[p];
    assert Clash(cs[i].cabins, cs[n].cabins);
  }

  lemma StatedMerge(cs: seq<Candidate>, n: nat, key: string, known: seq<Option<string>>, row: seq<Option<string>>)
    requires n < |cs| && cs[n].key == Some(key)
    requires Stated(cs, n, key, known) && |known| == |row| == |cs[n].cabins|
    requires forall p | 0 <= p < |row| :: row[p] == if known[p].Some? then known[p] else cs[n].cabins[p]
    ensures Stated(cs, n + 1, key, row)
  {
    forall p | 0 <= p < |row| && row[p].Some?
      ensures exists i | 0 <= i < n + 1 :: cs[i].key == Some(key) && p < |cs[i].cabins| && cs[i].cabins[p] == row[p]
    {
      if known[p].None? {
        assert cs[n].cabins[p] == row[p];
      }
    }
  }

  // ---------------------------------------------------------------------------
  // The streaming minimum.

  datatype Group = Group(lowest: real, indices: seq<nat>)

  datatype Ordering = Less | Equal | Greater

  /** Totals first; supplier ranks only when both suppliers are ranked. */
  function Compare(total: real, rank: Option<nat>, lowest: real, leader: Option<nat>): Ordering {
    if total < lowest then Less
    else if total > lowest then Greater
    else if rank.None? || leader.None? || rank.value == leader.value then Equal
    else if rank.value < leader.value then Less
    else Greater
  }

  /** An offer that takes part in the comparison for a key. */
  predicate Eligible(cs: seq<Candidate>, conflicts: set<string>, i: nat)
    requires i < |cs|
  {
    cs[i].key.Some? && cs[i].key.value !in conflicts && cs[i].total.Some?
  }

  predicate Contends(cs: seq<Candidate>, conflicts: set<string>, key: string, i: nat)
    requires i < |cs|
  {
    Eligible(cs, conflicts, i) && cs[i].key == Some(key)
  }

  /** The group of one key after the first n offers. */
  function Streamed(cs: seq<Candidate>, conflicts: set<string>, key: string, n: nat): (g: Option<Group>)
    requires n <= |cs|
    ensures g.Some? ==> g.value.indices != [] && forall p | 0 <= p < |g.value.indices| :: g.value.indices[p] < n && Contends(cs, conflicts, key, g.value.indices[p])
  {
    if n == 0 then None
    else
      var before := Streamed(cs, conflicts, key, n - 1);
      if !Contends(cs, conflicts, key, n - 1) then before
      else Admit(cs, before, n - 1)
  }

  function Admit(cs: seq<Candidate>, before: Option<Group>, i: nat): Option<Group>
    requires i < |cs| && cs[i].total.Some?
    requires before.Some? ==> before.value.indices != [] && forall p | 0 <= p < |before.value.indices| :: before.value.indices[p] < |cs|
  {
    var total := cs[i].total.value;
    if before.None? then Some(Group(total, [i]))
    else
      match Compare(total, cs[i].rank, before.value.lowest, cs[before.value.indices[0]].rank)
      case Less => Some(Group(total, [i]))
      case Equal => Some(Group(before.value.lowest, before.value.indices + [i]))
      case Greater => before
  }

  predicate StillRetained(cs: seq<Candidate>, conflicts: set<string>, n: nat, i: nat)
    requires i < n <= |cs|
  {
    Eligible(cs, conflicts, i) ==>
      var g := Streamed(cs, conflicts, cs[i].key.value, n);
      g.Some? && i in g.value.indices
  }

  /** One offer changes only the group of its own key. */
  lemma StreamedElsewhere(cs: seq<Candidate>, conflicts: set<string>, key: string, n: nat)
    requires n < |cs| && !Contends(cs, conflicts, key, n)
    ensures Streamed(cs, conflicts, key, n + 1) == Streamed(cs, conflicts, key, n)
  {
  }

  /** Which offers stay, by withdrawing beaten ones as better ones arrive. */
  method Retain(cs: seq<Candidate>, conflicts: set<string>) returns (retained: seq<bool>)
    ensures |retained| == |cs|
    ensures forall i | 0 <= i < |cs| :: retained[i] <==> StillRetained(cs, conflicts, |cs|, i)
  {
    var groups: map<string, Group> := map[];
    retained := seq(|cs|, _ => true);
    for n := 0 to |cs|
      invariant |retained| == |cs|
      invariant forall i | 0 <= i < n :: retained[i] <==> StillRetained(cs, conflicts, n, i)
      invariant forall i | n <= i < |cs| :: retained[i]
      invariant forall key :: if key in groups then Streamed(cs, conflicts, key, n) == Some(groups[key])
                              else Streamed(cs, conflicts, key, n).None?
    {
      ghost var was := retained;
      if Eligible(cs, conflicts, n) {
        var key, total := cs[n].key.value, cs[n].total.value;
        assert Streamed(cs, conflicts, key, n + 1) == Admit(cs, Streamed(cs, conflicts, key, n), n);
        if key !in groups {
          groups := groups[key := Group(total, [n])];
        } else {
          var g := groups[key];
          match Compare(total, cs[n].rank, g.lowest, cs[g.indices[0]].rank) {
            case Less =>
              retained := Withdraw(retained, g.indices);
              groups := groups[key := Group(total, [n])];
            case Greater =>
              retained := retained[n := false];
            case Equal =>
              groups := groups[key := Group(g.lowest, g.indices + [n])];
          }
        }
        RetainedStep(cs, conflicts, n, was, retained);
      }
    }
  }

  method Withdraw(retained: seq<bool>, indices: seq<nat>) returns (r: seq<bool>)
    requires forall p | 0 <= p < |indices| :: indices[p] < |retained|
    ensures |r| == |retained|
    ensures forall i | 0 <= i < |r| :: r[i] == (retained[i] && i !in indices)
  {
    r := retained;
    for k := 0 to |indices|
      invariant |r| == |retained|
      invariant forall i | 0 <= i < |r| :: r[i] == (retained[i] && i !in indices[..k])
    {
      r := r[indices[k] := false];
    }
    assert indices[..|indices|] == indices;
  }

  /** The flags after one eligible offer, given what happened to its group. */
  lemma RetainedStep(cs: seq<Candidate>, conflicts: set<string>, n: nat, was: seq<bool>, now: seq<bool>)
    requires n < |cs| == |was| == |now| && Eligible(cs, conflicts, n)
    requires forall i | 0 <= i < n :: was[i] <==> StillRetained(cs, conflicts, n, i)
    requires var before := Streamed(cs, conflicts, cs[n].key.value, n);
             if before.None? then now == was[n := true]
             else match Compare(cs[n].total.value, cs[n].rank, before.value.lowest, cs[before.value.indices[0]].rank)
               case Less => now[n] && forall i | 0 <= i < n :: now[i] == (was[i] && i !in before.value.indices)
               case Equal => now == was[n := true]
               case Greater => now == was[n := false]
    ensures forall i | 0 <= i < n + 1 :: now[i] <==> StillRetained(cs, conflicts, n + 1, i)
  {
    forall i | 0 <= i < n + 1
      ensures now[i] <==> StillRetained(cs, conflicts, n + 1, i)
    {
      if i < n && Eligible(cs, conflicts, i) && cs[i].key != cs[n].key {
        StreamedElsewhere(cs, conflicts, cs[i].key.value, n);
        var before := Streamed(cs, conflicts, cs[n].key.value, n);
        assert before.Some? ==> i !in before.value.indices;
      }
    }
  }

  // ---------------------------------------------------------------------------
  // What the stream leaves, for any offers and any priority list.

  /** Among the first n offers of a key, one whose total nobody undercuts. */
  ghost predicate Tied(cs: seq<Candidate>, conflicts: set<string>, key: string, n: nat, i: nat)
    requires n <= |cs|
  {
    && i < n && Contends(cs, conflicts, key, i)
    && forall j | 0 <= j < n && Contends(cs, conflicts, key, j) :: cs[i].total.value <= cs[j].total.value
  }

  ghost predicate FirstTied(cs: seq<Candidate>, conflicts: set<string>, key: string, n: nat, i: nat)
    requires n <= |cs|
  {
    Tied(cs, conflicts, key, n, i) && forall j: nat | j < i :: !Tied(cs, conflicts, key, n, j)
  }

  /** The earliest of the best ranked among the tied. */
  ghost predicate FirstBest(cs: seq<Candidate>, conflicts: set<string>, key: string, n: nat, b: nat)
    requires n <= |cs|
  {
    && Tied(cs, conflicts, key, n, b) && cs[b].rank.Some?
    && forall j: nat | Tied(cs, conflicts, key, n, j) && cs[j].rank.Some? ::
         if j < b then cs[b].rank.value < cs[j].rank.value else cs[b].rank.value <= cs[j].rank.value
  }

  /**
   A tied offer stays when the first of the tied has no rank, or when it does not come
   before the earliest best ranked one and does not rank below it.
   */
  ghost predicate Stays(cs: seq<Candidate>, conflicts: set<string>, key: string, n: nat, i: nat)
    requires n <= |cs|
  {
    && Tied(cs, conflicts, key, n, i)
    && exists f: nat :: FirstTied(cs, conflicts, key, n, f) &&
         (cs[f].rank.None? ||
          exists b: nat :: FirstBest(cs, conflicts, key, n, b) && b <= i && (cs[i].rank.None? || cs[i].rank == cs[b].rank))
  }

  /** The stream's group in terms of its first and best members. */
  ghost predicate Describes(cs: seq<Candidate>, conflicts: set<string>, key: string, n: nat, g: Group, first: nat, best: nat)
    requires n <= |cs|
  {
    && FirstTied(cs, conflicts, key, n, first)
    && g.lowest == cs[first].total.value
    && g.indices != []
    && g.indices[0] == best && best < n
    && if cs[first].rank.None? then best == first && forall x: nat :: x in g.indices <==> Tied(cs, conflicts, key, n, x)
       else
         && FirstBest(cs, conflicts, key, n, best)
         && forall x: nat :: x in g.indices <==> Tied(cs, conflicts, key, n, x) && best <= x && (cs[x].rank.None? || cs[x].rank == cs[best].rank)
  }

  lemma {:induction false} StreamDescribed(cs: seq<Candidate>, conflicts: set<string>, key: string, n: nat) returns (first: nat, best: nat)
    requires n <= |cs|
    ensures var g := Streamed(cs, conflicts, key, n);
            if g.None? then forall i | 0 <= i < n :: !Contends(cs, conflicts, key, i)
            else Describes(cs, conflicts, key, n, g.value, first, best)
  {
    hide FirstTied, FirstBest, Tied;
    if n == 0 {
      first, best := 0, 0;
    } else {
      var f, b := StreamDescribed(cs, conflicts, key, n - 1);
      var before := Streamed(cs, conflicts, key, n - 1);
      var c := n - 1;
      if !Contends(cs, conflicts, key, c) {
        first, best := f, b;
        if before.Some? {
          DescribedUnmoved(cs, conflicts, key, c, before.value, f, b);
        }
      } else if before.None? || cs[c].total.value < before.value.lowest {
        first, best := c, c;
        DescribedFresh(cs, conflicts, key, c, before, f, b);
      } else if cs[c].total.value > before.value.lowest {
        first, best := f, b;
        DescribedUnmoved(cs, conflicts, key, c, before.value, f, b);
      } else {
        first := f;
        best := if Compare(cs[c].total.value, cs[c].rank, before.value.lowest, cs[b].rank).Less? then c else b;
        DescribedTie(cs, conflicts, key, c, before.value, f, b);
      }
    }
  }

  lemma DescribedUnmoved(cs: seq<Candidate>, conflicts: set<string>, key: string, c: nat, g: Group, f: nat, b: nat)
    requires c < |cs| && Describes(cs, conflicts, key, c, g, f, b)
    requires Contends(cs, conflicts, key, c) ==> cs[c].total.value > g.lowest
    ensures Describes(cs, conflicts, key, c + 1, g, f, b)
  {
    TiedUnmoved(cs, conflicts, key, c, c + 1, f);
  }

  /** A strictly lower total starts the group again. */
  lemma DescribedFresh(cs: seq<Candidate>, conflicts: set<string>, key: string, c: nat, before: Option<Group>, f: nat, b: nat)
    requires c < |cs| && Contends(cs, conflicts, key, c)
    requires if before.None? then forall i | 0 <= i < c :: !Contends(cs, conflicts, key, i)
             else Describes(cs, conflicts, key, c, before.value, f, b) && cs[c].total.value < before.value.lowest
    ensures Describes(cs, conflicts, key, c + 1, Group(cs[c].total.value, [c]), c, c)
  {
    var n := c + 1;
    assert Tied(cs, conflicts, key, n, c);
    assert forall j: nat :: Tied(cs, conflicts, key, n, j) ==> j == c;
  }

  lemma DescribedTie(cs: seq<Candidate>, conflicts: set<string>, key: string, c: nat, g: Group, f: nat, b: nat)
    requires c < |cs| && Contends(cs, conflicts, key, c)
    requires Describes(cs, conflicts, key, c, g, f, b) && cs[c].total.value == g.lowest
    ensures match Compare(cs[c].total.value, cs[c].rank, g.lowest, cs[b].rank)
            case Less => Describes(cs, conflicts, key, c + 1, Group(cs[c].total.value, [c]), f, c)
            case Equal => Describes(cs, conflicts, key, c + 1, Group(g.lowest, g.indices + [c]), f, b)
            case Greater => Describes(cs, conflicts, key, c + 1, g, f, b)
  {
    TiedGains(cs, conflicts, key, c, c + 1, f);
    assert FirstTied(cs, conflicts, key, c + 1, f);
    match Compare(cs[c].total.value, cs[c].rank, g.lowest, cs[b].rank) {
      case Less =>
        assert FirstBest(cs, conflicts, key, c + 1, c);
      case Equal =>
        assert cs[f].rank.Some? ==> FirstBest(cs, conflicts, key, c + 1, b);
      case Greater =>
        assert cs[f].rank.Some? ==> FirstBest(cs, conflicts, key, c + 1, b);
    }
  }

  /** A newcomer that does not tie leaves the tied as they were. */
  lemma TiedUnmoved(cs: seq<Candidate>, conflicts: set<string>, key: string, c: nat, n: nat, f: nat)
    requires n == c + 1 <= |cs| && Tied(cs, conflicts, key, c, f)
    requires Contends(cs, conflicts, key, c) ==> cs[c].total.value > cs[f].total.value
    ensures forall i: nat :: Tied(cs, conflicts, key, n, i) <==> Tied(cs, conflicts, key, c, i)
  {
  }

  lemma TiedGains(cs: seq<Candidate>, conflicts: set<string>, key: string, c: nat, n: nat, f: nat)
    requires n == c + 1 <= |cs| && Contends(cs, conflicts, key, c)
    requires Tied(cs, conflicts, key, c, f) && cs[c].total == cs[f].total
    ensures forall i: nat :: Tied(cs, conflicts, key, n, i) <==> Tied(cs, conflicts, key, c, i) || i == c
  {
  }

  lemma StreamedIsStays(cs: seq<Candidate>, conflicts: set<string>, key: string)
    ensures var g := Streamed(cs, conflicts, key, |cs|);
            forall i: nat :: (g.Some? && i in g.value.indices) <==> Stays(cs, conflicts, key, |cs|, i)
  {
    var n := |cs|;
    var first, best := StreamDescribed(cs, conflicts, key, n);
    var g := Streamed(cs, conflicts, key, n);
    if g.Some? {
      forall i: nat
        ensures i in g.value.indices <==> Stays(cs, conflicts, key, n, i)
      {
        FirstsAgree(cs, conflicts, key, n, first, best);
      }
    }
  }

  lemma FirstsAgree(cs: seq<Candidate>, conflicts: set<string>, key: string, n: nat, first: nat, best: nat)
    requires n <= |cs| && FirstTied(cs, conflicts, key, n, first)
    requires cs[first].rank.Some? ==> FirstBest(cs, conflicts, key, n, best)
    ensures forall f: nat | FirstTied(cs, conflicts, key, n, f) :: f == first
    ensures forall b: nat | cs[first].rank.Some? && FirstBest(cs, conflicts, key, n, b) :: b == best
  {
  }

  // ---------------------------------------------------------------------------
  // The whole selection.

  ghost function ConflictSet(cs: seq<Candidate>): set<string> {
    set i | 0 <= i < |cs| && cs[i].key.Some? && Conflicted(cs, cs[i].key.value) :: cs[i].key.value
  }

  /** Keyless, conflicted and unpriced offers stay; the others stay by the rule above. */
  ghost predicate Retained(cs: seq<Candidate>, i: nat)
    requires i < |cs|
  {
    Eligible(cs, ConflictSet(cs), i) ==> Stays(cs, ConflictSet(cs), cs[i].key.value, |cs|, i)
  }

  ghost predicate Ascending(s: seq<nat>) {
    forall i, j | 0 <= i < j < |s| :: s[i] < s[j]
  }

  method Describe(offers: seq<SourceOffer>, priority: seq<string>) returns (cs: seq<Candidate>)
    ensures cs == Candidates(offers, priority)
  {
    cs := [];
    for i := 0 to |offers|
      invariant cs == Candidates(offers, priority)[..i]
    {
      var key := EquivalenceKey(offers[i].tree);
      var rank := RankFrom(offers[i].supplier, priority, 0);
      var total := TotalPrice(offers[i].tree);
      cs := cs + [if key.Some? then Candidate(Some(key.value.text), key.value.cabins, total, rank) else Candidate(None, [], total, rank)];
    }
  }

  lemma ConflictsAreSet(cs: seq<Candidate>, conflicts: set<string>)
    requires forall key :: key in conflicts <==> Conflicted(cs, key)
    ensures conflicts == ConflictSet(cs)
  {
    forall key | Conflicted(cs, key)
      ensures key in ConflictSet(cs)
    {
      var i :| 0 <= i < |cs| && cs[i].key == Some(key);
      assert cs[i].key.value == key;
    }
  }

  lemma StillIsRetained(cs: seq<Candidate>, i: nat)
    requires i < |cs|
    ensures StillRetained(cs, ConflictSet(cs), |cs|, i) <==> Retained(cs, i)
  {
    hide ConflictSet, Streamed, Stays;
    if Eligible(cs, ConflictSet(cs), i) {
      StreamedIsStays(cs, ConflictSet(cs), cs[i].key.value);
    }
  }

  method Listed(retained: seq<bool>) returns (kept: seq<nat>)
    ensures Ascending(kept)
    ensures forall i: nat :: i in kept <==> i < |retained| && retained[i]
  {
    kept := [];
    for i := 0 to |retained|
      invariant Ascending(kept)
      invariant forall k | 0 <= k < |kept| :: kept[k] < i
      invariant forall k: nat :: k in kept <==> k < i && retained[k]
    {
      if retained[i] {
        kept := kept + [i];
      }
    }
  }

  // ---------------------------------------------------------------------------
  // Consequences.

  predicate AtMost(a: Candidate, b: Candidate)
    requires a.total.Some? && b.total.Some? && a.rank.Some? && b.rank.Some?
  {
    a.total.value < b.total.value || (a.total == b.total && a.rank.value <= b.rank.value)
  }

  ghost predicate AllRanked(cs: seq<Candidate>) {
    forall i | 0 <= i < |cs| :: cs[i].rank.Some?
  }

  ghost predicate Rivals(cs: seq<Candidate>, i: nat, j: nat)
    requires i < |cs| && j < |cs|
  {
    cs[i].key.Some? && cs[j].key == cs[i].key && cs[i].total.Some? && cs[j].total.Some? && !Conflicted(cs, cs[i].key.value)
  }

  /** The rule a reader expects: no comparable offer is cheaper, or as cheap and better ranked. */
  ghost predicate Minimal(cs: seq<Candidate>, i: nat)
    requires i < |cs| && AllRanked(cs)
  {
    forall j: nat | j < |cs| && Rivals(cs, i, j) :: AtMost(cs[i], cs[j])
  }

  lemma ContendsIsRival(cs: seq<Candidate>, i: nat, j: nat)
    requires i < |cs| && j < |cs| && Eligible(cs, ConflictSet(cs), i)
    ensures Contends(cs, ConflictSet(cs), cs[i].key.value, j) <==> Rivals(cs, i, j)
  {
  }

  lemma NotEligibleNoRivals(cs: seq<Candidate>, i: nat, j: nat)
    requires i < |cs| && j < |cs| && Rivals(cs, i, j)
    ensures Eligible(cs, ConflictSet(cs), i)
  {
  }

  lemma RankedTies(cs: seq<Candidate>, conflicts: set<string>, key: string, g: Group, first: nat, best: nat, i: nat)
    requires AllRanked(cs) && Describes(cs, conflicts, key, |cs|, g, first, best)
    requires i < |cs| && Contends(cs, conflicts, key, i)
    ensures i in g.indices <==> forall j: nat | j < |cs| && Contends(cs, conflicts, key, j) :: AtMost(cs[i], cs[j])
  {
    var n := |cs|;
    if i in g.indices {
      forall j: nat | j < n && Contends(cs, conflicts, key, j)
        ensures AtMost(cs[i], cs[j])
      {
        assert cs[i].total == cs[j].total ==> Tied(cs, conflicts, key, n, j);
      }
    }
    if forall j: nat | j < n && Contends(cs, conflicts, key, j) :: AtMost(cs[i], cs[j]) {
      assert Tied(cs, conflicts, key, n, i);
      assert AtMost(cs[i], cs[best]);
    }
  }

  /** With every supplier ranked the stream keeps exactly the minima. */
  lemma RankedKeepsMinima(cs: seq<Candidate>, i: nat)
    requires i < |cs| && AllRanked(cs)
    ensures Retained(cs, i) <==> Minimal(cs, i)
  {
    var conflicts := ConflictSet(cs);
    if Eligible(cs, conflicts, i) {
      var key := cs[i].key.value;
      var first, best := StreamDescribed(cs, conflicts, key, |cs|);
      assert Contends(cs, conflicts, key, i);
      StreamedIsStays(cs, conflicts, key);
      RankedTies(cs, conflicts, key, Streamed(cs, conflicts, key, |cs|).value, first, best, i);
      forall j: nat | j < |cs|
        ensures Contends(cs, conflicts, key, j) <==> Rivals(cs, i, j)
      {
        ContendsIsRival(cs, i, j);
      }
    } else {
      forall j: nat | j < |cs|
        ensures !Rivals(cs, i, j)
      {
        if Rivals(cs, i, j) {
          NotEligibleNoRivals(cs, i, j);
        }
      }
    }
  }

  /** Ranked or not, an offer that stays has the lowest total of its rivals. */
  lemma RetainedIsCheapest(cs: seq<Candidate>, i: nat, j: nat)
    requires i < |cs| && j < |cs|
    requires Rivals(cs, i, j) && Retained(cs, i)
    ensures cs[i].total.value <= cs[j].total.value
  {
    NotEligibleNoRivals(cs, i, j);
    ContendsIsRival(cs, i, j);
  }

  /** Every offer that goes leaves behind a rival that stays and is at most as dear. */
  lemma SomeRivalStays(cs: seq<Candidate>, i: nat) returns (w: nat)
    requires i < |cs|
    ensures w < |cs| && Retained(cs, w)
    ensures !Retained(cs, i) ==> Rivals(cs, i, w) && cs[w].total.value <= cs[i].total.value
  {
    w := i;
    if !Retained(cs, i) {
      var conflicts, key := ConflictSet(cs), cs[i].key.value;
      var first, best := StreamDescribed(cs, conflicts, key, |cs|);
      assert Contends(cs, conflicts, key, i);
      w := best;
      StreamedIsStays(cs, conflicts, key);
      ContendsIsRival(cs, i, best);
    }
  }

  ghost predicate Permutation(p: seq<nat>, q: seq<nat>) {
    && |p| == |q|
    && (forall i | 0 <= i < |p| :: p[i] < |q| && q[p[i]] == i)
    && (forall i | 0 <= i < |q| :: q[i] < |p| && p[q[i]] == i)
  }

  lemma ConflictsIgnoreOrder(cs: seq<Candidate>, ds: seq<Candidate>, p: seq<nat>, q: seq<nat>, key: string)
    requires Permutation(p, q) && |cs| == |ds| == |p|
    requires forall i | 0 <= i < |ds| :: ds[i] == cs[p[i]]
    ensures Conflicted(ds, key) <==> Conflicted(cs, key)
  {
    if Conflicted(cs, key) {
      var i, j :| 0 <= i < |cs| && 0 <= j < |cs| && cs[i].key == Some(key) && cs[j].key == Some(key) && Clash(cs[i].cabins, cs[j].cabins);
      assert ds[q[i]] == cs[i] && ds[q[j]] == cs[j];
    }
  }

  /** With every supplier ranked the outcome does not depend on the order of the responses. */
  lemma OrderIndependent(cs: seq<Candidate>, ds: seq<Candidate>, p: seq<nat>, q: seq<nat>, i: nat)
    requires Permutation(p, q) && |cs| == |ds| == |p| && AllRanked(cs)
    requires forall i | 0 <= i < |ds| :: ds[i] == cs[p[i]]
    requires i < |ds|
    ensures Retained(ds, i) <==> Retained(cs, p[i])
  {
    RankedKeepsMinima(ds, i);
    RankedKeepsMinima(cs, p[i]);
    if cs[p[i]].key.Some? {
      ConflictsIgnoreOrder(cs, ds, p, q, cs[p[i]].key.value);
      forall j: nat | j < |cs| && Rivals(cs, p[i], j)
        ensures Rivals(ds, i, q[j])
      {
        assert ds[q[j]] == cs[j];
      }
      assert Minimal(ds, i) ==> Minimal(cs, p[i]);
    }
  }

  /** An unranked supplier makes the outcome depend on the order: a tie led by it keeps everyone. */
  lemma UnrankedOrderMatters()
    ensures var offer := (rank: Option<nat>) => Candidate(Some("k"), [], Some(100.0), rank);
            Retained([offer(None), offer(Some(1)), offer(Some(0))], 1) &&
            !Retained([offer(Some(1)), offer(Some(0)), offer(None)], 0)
  {
    var u, r1, r0 := Candidate(Some("k"), [], Some(100.0), None), Candidate(Some("k"), [], Some(100.0), Some(1)), Candidate(Some("k"), [], Some(100.0), Some(0));
    var cs, ds := [u, r1, r0], [r1, r0, u];
    assert ConflictSet(cs) == {} && ConflictSet(ds) == {};
    assert FirstTied(cs, {}, "k", 3, 0) && Tied(cs, {}, "k", 3, 1);
    assert Tied(ds, {}, "k", 3, 0) && Tied(ds, {}, "k", 3, 1);
    assert FirstTied(ds, {}, "k", 3, 0) && FirstBest(ds, {}, "k", 3, 1);
    FirstsAgree(ds, {}, "k", 3, 0, 1);
  }

  /** The offers that stayed, as a new list. */
  function Picked(cs: seq<Candidate>, kept: seq<nat>): (ds: seq<Candidate>)
    requires forall k | 0 <= k < |kept| :: kept[k] < |cs|
  {
    seq(|kept|, k requires 0 <= k < |kept| => cs[kept[k]])
  }

  ghost predicate Selected(cs: seq<Candidate>, kept: seq<nat>) {
    && Ascending(kept)
    && (forall k | 0 <= k < |kept| :: kept[k] < |cs| && Retained(cs, kept[k]))
    && forall i: nat | i < |cs| && Retained(cs, i) :: i in kept
  }

  lemma ConflictedStays(cs: seq<Candidate>, i: nat)
    requires i < |cs| && cs[i].key.Some? && Conflicted(cs, cs[i].key.value)
    ensures Retained(cs, i)
  {
    hide Conflicted;
  }

  lemma PickedConflicts(cs: seq<Candidate>, kept: seq<nat>, key: string)
    requires Selected(cs, kept)
    ensures Conflicted(Picked(cs, kept), key) <==> Conflicted(cs, key)
  {
    hide Clash, Streamed, Stays;
    var ds := Picked(cs, kept);
    if Conflicted(ds, key) {
      var x, y :| 0 <= x < |ds| && 0 <= y < |ds| && ds[x].key == Some(key) && ds[y].key == Some(key) && Clash(ds[x].cabins, ds[y].cabins);
      assert cs[kept[x]] == ds[x] && cs[kept[y]] == ds[y];
    }
    if Conflicted(cs, key) {
      var i, j :| 0 <= i < |cs| && 0 <= j < |cs| && cs[i].key == Some(key) && cs[j].key == Some(key) && Clash(cs[i].cabins, cs[j].cabins);
      ConflictedStays(cs, i);
      ConflictedStays(cs, j);
      hide ConflictSet, Eligible, Retained;
      var x :| 0 <= x < |kept| && kept[x] == i;
      var y :| 0 <= y < |kept| && kept[y] == j;
      assert ds[x] == cs[i] && ds[y] == cs[j];
    }
  }

  /** Among what stayed, the contenders for a key are its former group, and all of them tie. */
  lemma PickedTies(cs: seq<Candidate>, kept: seq<nat>, key: string, y: nat)
    requires Selected(cs, kept) && y < |kept|
    requires !Conflicted(cs, key)
    ensures var ds := Picked(cs, kept);
            Tied(ds, ConflictSet(ds), key, |ds|, y) <==> Stays(cs, ConflictSet(cs), key, |cs|, kept[y])
  {
    var ds := Picked(cs, kept);
    PickedConflicts(cs, kept, key);
    forall z: nat | z < |ds|
      ensures Contends(ds, ConflictSet(ds), key, z) <==> Stays(cs, ConflictSet(cs), key, |cs|, kept[z])
    {
      assert ds[z] == cs[kept[z]];
      assert Retained(cs, kept[z]);
    }
  }

  /** Selecting again from what stayed changes nothing, ranked or not. */
  lemma SelectionIsIdempotent(cs: seq<Candidate>, kept: seq<nat>, x: nat)
    requires Selected(cs, kept) && x < |kept|
    ensures Retained(Picked(cs, kept), x)
  {
    hide Conflicted, Streamed;
    var ds := Picked(cs, kept);
    if Eligible(ds, ConflictSet(ds), x) {
      var key, n := ds[x].key.value, |cs|;
      PickedConflicts(cs, kept, key);
      var first, best := StreamDescribed(cs, ConflictSet(cs), key, n);
      StreamedIsStays(cs, ConflictSet(cs), key);
      assert Contends(cs, ConflictSet(cs), key, kept[x]);
      assert Stays(cs, ConflictSet(cs), key, n, best);
      assert Retained(cs, best);
      var b :| 0 <= b < |kept| && kept[b] == best;
      forall y: nat | y < |kept|
        ensures Tied(ds, ConflictSet(ds), key, |ds|, y) <==> Stays(cs, ConflictSet(cs), key, n, kept[y])
      {
        PickedTies(cs, kept, key, y);
      }
      assert Retained(cs, kept[x]);
      assert Tied(ds, ConflictSet(ds), key, |ds|, x);
      assert FirstTied(ds, ConflictSet(ds), key, |ds|, b);
      if cs[best].rank.Some? {
        assert FirstBest(ds, ConflictSet(ds), key, |ds|, b);
      }
    }
  }

  // ---------------------------------------------------------------------------
  // The selection told from the offers: their written prices, and the priority list.

  /** The price as it is written; none when there is none or it is no number. */
  ghost predicate PriceIs(tree: Value, price: Option<Decimals.Numeral>) {
    match price
    case Some(n) => Decimals.Grammatical(n) && Get(tree, "totalPrice") == Some(Number(Decimals.Spelled(n)))
    case None => Get(tree, "totalPrice").None? || !Get(tree, "totalPrice").value.Number?
  }

  ghost predicate PricesAre(offers: seq<SourceOffer>, prices: seq<Option<Decimals.Numeral>>) {
    |prices| == |offers| && forall i | 0 <= i < |offers| :: PriceIs(offers[i].tree, prices[i])
  }

  predicate Priced(price: Option<Decimals.Numeral>) {
    price.Some? && Decimals.Readable(price.value)
  }

  predicate SameTrip(a: SourceOffer, b: SourceOffer) {
    Comparable(a.tree) && Comparable(b.tree) && KeyOf(a.tree).text == KeyOf(b.tree).text
  }

  /** Two offers of the same trip name different cabins for one flight, or differ in the number of flights. */
  ghost predicate CabinConflict(offers: seq<SourceOffer>, i: nat)
    requires i < |offers|
  {
    exists a, b | 0 <= a < |offers| && 0 <= b < |offers| ::
      SameTrip(offers[a], offers[i]) && SameTrip(offers[b], offers[i]) &&
      Clash(KeyOf(offers[a].tree).cabins, KeyOf(offers[b].tree).cabins)
  }

  /** Two offers whose prices are compared. */
  ghost predicate Compared(offers: seq<SourceOffer>, prices: seq<Option<Decimals.Numeral>>, i: nat, j: nat)
    requires |prices| == |offers| && i < |offers| && j < |offers|
  {
    SameTrip(offers[i], offers[j]) && Priced(prices[i]) && Priced(prices[j]) && !CabinConflict(offers, i)
  }

  ghost predicate Cheaper(offers: seq<SourceOffer>, prices: seq<Option<Decimals.Numeral>>, i: nat, j: nat)
    requires |prices| == |offers| && i < |offers| && j < |offers|
  {
    Compared(offers, prices, i, j) && Decimals.Worth(prices[i].value) < Decimals.Worth(prices[j].value)
  }

  ghost predicate AsCheap(offers: seq<SourceOffer>, prices: seq<Option<Decimals.Numeral>>, i: nat, j: nat)
    requires |prices| == |offers| && i < |offers| && j < |offers|
  {
    Compared(offers, prices, i, j) && Decimals.Worth(prices[i].value) == Decimals.Worth(prices[j].value)
  }

  /** The supplier stands first at this place of the priority list. */
  predicate Position(priority: seq<string>, supplier: string, r: nat) {
    r < |priority| && priority[r] == supplier && forall k | 0 <= k < r :: priority[k] != supplier
  }

  ghost predicate Before(priority: seq<string>, a: string, b: string) {
    exists r: nat, s: nat :: Position(priority, a, r) && Position(priority, b, s) && r < s
  }

  /** Cheaper, or as cheap and earlier in the priority list. */
  ghost predicate Beats(offers: seq<SourceOffer>, priority: seq<string>, prices: seq<Option<Decimals.Numeral>>, i: nat, j: nat)
    requires |prices| == |offers| && i < |offers| && j < |offers|
  {
    || Cheaper(offers, prices, i, j)
    || (AsCheap(offers, prices, i, j) && Before(priority, offers[i].supplier, offers[j].supplier))
  }

  lemma {:induction false} RankIsPosition(supplier: string, priority: seq<string>, from: nat)
    requires from <= |priority| && forall k | 0 <= k < from :: priority[k] != supplier
    ensures var rank := RankFrom(supplier, priority, from);
            && (rank.None? <==> supplier !in priority)
            && (rank.Some? ==> Position(priority, supplier, rank.value))
    decreases |priority| - from
  {
    if from < |priority| && priority[from] != supplier {
      RankIsPosition(supplier, priority, from + 1);
    }
  }

  lemma OnePosition(priority: seq<string>, supplier: string, r: nat, s: nat)
    requires Position(priority, supplier, r) && Position(priority, supplier, s)
    ensures r == s
  {
  }

  lemma TotalIsWorth(tree: Value, price: Option<Decimals.Numeral>)
    requires PriceIs(tree, price)
    ensures TotalPrice(tree) == if Priced(price) then Some(Decimals.Worth(price.value)) else None
  {
    if price.Some? {
      Decimals.DecimalIsWorth(price.value);
    }
    hide Decimals.Decimal, Decimals.Spelled, Decimals.Worth, Get;
  }

  lemma ConflictIsSame(offers: seq<SourceOffer>, priority: seq<string>, i: nat)
    requires i < |offers| && Comparable(offers[i].tree)
    ensures Conflicted(Candidates(offers, priority), KeyOf(offers[i].tree).text) <==> CabinConflict(offers, i)
  {
    hide FlagsKnown, CountsKnown, PricesShaped, Travellers, KeyOf, Clash, TotalPrice, RankFrom;
    var cs, key := Candidates(offers, priority), KeyOf(offers[i].tree).text;
    forall a | 0 <= a < |offers|
      ensures cs[a].key == Some(key) <==> SameTrip(offers[a], offers[i])
      ensures SameTrip(offers[a], offers[i]) ==> cs[a].cabins == KeyOf(offers[a].tree).cabins
    {
      assert cs[a] == CandidateOf(offers[a], priority);
    }
  }

  lemma RivalsAreCompared(offers: seq<SourceOffer>, priority: seq<string>, prices: seq<Option<Decimals.Numeral>>, i: nat, j: nat)
    requires PricesAre(offers, prices) && i < |offers| && j < |offers|
    ensures var cs := Candidates(offers, priority);
            && (Rivals(cs, i, j) <==> Compared(offers, prices, i, j))
            && (Compared(offers, prices, i, j) ==>
                  cs[i].total == Some(Decimals.Worth(prices[i].value)) && cs[j].total == Some(Decimals.Worth(prices[j].value)))
  {
    hide Comparable, KeyOf, Conflicted, CabinConflict, TotalPrice, RankFrom, Priced, PriceIs, Decimals.Worth;
    var cs := Candidates(offers, priority);
    TotalIsWorth(offers[i].tree, prices[i]);
    TotalIsWorth(offers[j].tree, prices[j]);
    assert cs[i] == CandidateOf(offers[i], priority) && cs[j] == CandidateOf(offers[j], priority);
    if Comparable(offers[i].tree) {
      ConflictIsSame(offers, priority, i);
    }
  }

  lemma RanksOrder(offers: seq<SourceOffer>, priority: seq<string>, i: nat, j: nat)
    requires i < |offers| && j < |offers| && offers[i].supplier in priority && offers[j].supplier in priority
    ensures var cs := Candidates(offers, priority);
            && cs[i].rank.Some? && cs[j].rank.Some?
            && (cs[i].rank.value < cs[j].rank.value <==> Before(priority, offers[i].supplier, offers[j].supplier))
  {
    hide Comparable, KeyOf, TotalPrice;
    var cs := Candidates(offers, priority);
    RankIsPosition(offers[i].supplier, priority, 0);
    RankIsPosition(offers[j].supplier, priority, 0);
    hide RankFrom;
    assert cs[i] == CandidateOf(offers[i], priority) && cs[j] == CandidateOf(offers[j], priority);
    if Before(priority, offers[i].supplier, offers[j].supplier) {
      var r: nat, s: nat :| Position(priority, offers[i].supplier, r) && Position(priority, offers[j].supplier, s) && r < s;
      OnePosition(priority, offers[i].supplier, r, cs[i].rank.value);
      OnePosition(priority, offers[j].supplier, s, cs[j].rank.value);
    }
  }

  ghost predicate AllListed(offers: seq<SourceOffer>, priority: seq<string>) {
    forall i | 0 <= i < |offers| :: offers[i].supplier in priority
  }

  ghost predicate Beaten(offers: seq<SourceOffer>, priority: seq<string>, prices: seq<Option<Decimals.Numeral>>, i: nat)
    requires |prices| == |offers| && i < |offers|
  {
    exists j | 0 <= j < |offers| :: Beats(offers, priority, prices, j, i)
  }

  lemma ComparedSymmetric(offers: seq<SourceOffer>, prices: seq<Option<Decimals.Numeral>>, i: nat, j: nat)
    requires |prices| == |offers| && i < |offers| && j < |offers|
    ensures Compared(offers, prices, i, j) <==> Compared(offers, prices, j, i)
  {
    hide FlagsKnown, CountsKnown, PricesShaped, Travellers, Clash, KeyOf, Priced;
    if SameTrip(offers[i], offers[j]) {
      if CabinConflict(offers, i) {
        var a, b :| 0 <= a < |offers| && 0 <= b < |offers| && SameTrip(offers[a], offers[i]) && SameTrip(offers[b], offers[i]) &&
                    Clash(KeyOf(offers[a].tree).cabins, KeyOf(offers[b].tree).cabins);
        assert SameTrip(offers[a], offers[j]) && SameTrip(offers[b], offers[j]);
      }
      if CabinConflict(offers, j) {
        var a, b :| 0 <= a < |offers| && 0 <= b < |offers| && SameTrip(offers[a], offers[j]) && SameTrip(offers[b], offers[j]) &&
                    Clash(KeyOf(offers[a].tree).cabins, KeyOf(offers[b].tree).cabins);
        assert SameTrip(offers[a], offers[i]) && SameTrip(offers[b], offers[i]);
      }
    }
  }

  lemma ListedAreRanked(offers: seq<SourceOffer>, priority: seq<string>)
    requires AllListed(offers, priority)
    ensures AllRanked(Candidates(offers, priority))
  {
    hide Candidates, Before;
    forall k | 0 <= k < |offers| ensures Candidates(offers, priority)[k].rank.Some? {
      RanksOrder(offers, priority, k, k);
    }
  }

  lemma ComparedArePriced(offers: seq<SourceOffer>, prices: seq<Option<Decimals.Numeral>>, i: nat, j: nat)
    requires |prices| == |offers| && i < |offers| && j < |offers| && Compared(offers, prices, i, j)
    ensures Priced(prices[i]) && Priced(prices[j])
  {
  }

  lemma BeatsIsLess(offers: seq<SourceOffer>, priority: seq<string>, prices: seq<Option<Decimals.Numeral>>, i: nat, j: nat)
    requires PricesAre(offers, prices) && AllListed(offers, priority) && i < |offers| && j < |offers|
    ensures var cs := Candidates(offers, priority);
            && AllRanked(cs)
            && (Beats(offers, priority, prices, j, i) <==> Rivals(cs, i, j) && !AtMost(cs[i], cs[j]))
  {
    assert |prices| == |offers| && offers[i].supplier in priority && offers[j].supplier in priority;
    hide Compared, Rivals, Candidates, Before, PricesAre, AllListed, AllRanked, AtMost, Decimals.Worth;
    ListedAreRanked(offers, priority);
    RivalsAreCompared(offers, priority, prices, i, j);
    ComparedSymmetric(offers, prices, i, j);
    RanksOrder(offers, priority, j, i);
    var cs := Candidates(offers, priority);
    if Rivals(cs, i, j) {
      ComparedArePriced(offers, prices, i, j);
      NotAtMost(cs[i], cs[j], Decimals.Worth(prices[i].value), Decimals.Worth(prices[j].value));
    }
  }

  lemma NotAtMost(a: Candidate, b: Candidate, x: real, y: real)
    requires a.total == Some(x) && b.total == Some(y) && a.rank.Some? && b.rank.Some?
    ensures !AtMost(a, b) <==> y < x || (y == x && b.rank.value < a.rank.value)
  {
  }

  /** With every supplier in the list, an offer stays exactly when no offer of its trip beats it. */
  lemma StaysUnlessBeaten(offers: seq<SourceOffer>, priority: seq<string>, prices: seq<Option<Decimals.Numeral>>, i: nat)
    requires PricesAre(offers, prices) && AllListed(offers, priority) && i < |offers|
    ensures Retained(Candidates(offers, priority), i) <==> !Beaten(offers, priority, prices, i)
  {
    var cs := Candidates(offers, priority);
    BeatsIsLess(offers, priority, prices, i, i);
    RankedKeepsMinima(cs, i);
    forall j | 0 <= j < |offers|
      ensures Beats(offers, priority, prices, j, i) <==> Rivals(cs, i, j) && !AtMost(cs[i], cs[j])
    {
      BeatsIsLess(offers, priority, prices, i, j);
    }
    hide Retained, Rivals, Beats, Candidates, AtMost;
  }

  /** Ranked or not, no kept offer has a cheaper one of its trip, and a dropped one leaves one that is not dearer. */
  lemma KeptAreCheapest(offers: seq<SourceOffer>, priority: seq<string>, prices: seq<Option<Decimals.Numeral>>, i: nat) returns (w: nat)
    requires PricesAre(offers, prices) && i < |offers|
    ensures Retained(Candidates(offers, priority), i) ==> forall j | 0 <= j < |offers| :: !Cheaper(offers, prices, j, i)
    ensures w < |offers| && Retained(Candidates(offers, priority), w)
    ensures !Retained(Candidates(offers, priority), i) ==> Cheaper(offers, prices, w, i) || AsCheap(offers, prices, w, i)
  {
    var cs := Candidates(offers, priority);
    assert |prices| == |offers|;
    hide Compared, Rivals, Retained, Candidates, PricesAre, Decimals.Worth;
    if Retained(cs, i) {
      forall j | 0 <= j < |offers| ensures !Cheaper(offers, prices, j, i) {
        if Cheaper(offers, prices, j, i) {
          ComparedSymmetric(offers, prices, i, j);
          RivalsAreCompared(offers, priority, prices, i, j);
          RetainedIsCheapest(cs, i, j);
        }
      }
    }
    w := SomeRivalStays(cs, i);
    if !Retained(cs, i) {
      RivalsAreCompared(offers, priority, prices, i, w);
      ComparedSymmetric(offers, prices, i, w);
    }
  }

  /** The indices of the offers that stay, in input order. */
  method Winners(offers: seq<SourceOffer>, priority: seq<string>) returns (kept: seq<nat>)
    ensures Ascending(kept)
    ensures forall i: nat :: i in kept <==> i < |offers| && Retained(Candidates(offers, priority), i)
    // By the prices as they are written: a kept offer has no cheaper one of its trip, and a dropped one
    // leaves one that is not dearer; with every supplier listed exactly the unbeaten ones are kept.
    ensures forall prices :: PricesAre(offers, prices) ==>
              && (forall i, j | 0 <= i < |offers| && 0 <= j < |offers| && i in kept :: !Cheaper(offers, prices, j, i))
              && (forall i | 0 <= i < |offers| && i !in kept ::
                    exists w | w in kept :: w < |offers| && (Cheaper(offers, prices, w, i) || AsCheap(offers, prices, w, i)))
              && (AllListed(offers, priority) ==>
                    forall i | 0 <= i < |offers| :: i in kept <==> !Beaten(offers, priority, prices, i))
  {
    var cs := Describe(offers, priority);
    var conflicts := ConflictingKeys(cs);
    ConflictsAreSet(cs, conflicts);
    var retained := Retain(cs, conflicts);
    kept := Listed(retained);
    hide Retained, StillRetained, ConflictSet, Conflicted, Candidates, Ascending;
    forall i: nat | i < |cs|
      ensures retained[i] <==> Retained(cs, i)
    {
      StillIsRetained(cs, i);
    }
    forall prices | PricesAre(offers, prices)
      ensures forall i, j | 0 <= i < |offers| && 0 <= j < |offers| && i in kept :: !Cheaper(offers, prices, j, i)
      ensures forall i | 0 <= i < |offers| && i !in kept ::
                exists w | w in kept :: w < |offers| && (Cheaper(offers, prices, w, i) || AsCheap(offers, prices, w, i))
      ensures AllListed(offers, priority) ==> forall i | 0 <= i < |offers| :: i in kept <==> !Beaten(offers, priority, prices, i)
    {
      KeptByPrice(offers, priority, prices, kept);
    }
  }

  lemma KeptByPrice(offers: seq<SourceOffer>, priority: seq<string>, prices: seq<Option<Decimals.Numeral>>, kept: seq<nat>)
    requires PricesAre(offers, prices)
    requires forall i: nat :: i in kept <==> i < |offers| && Retained(Candidates(offers, priority), i)
    ensures forall i, j | 0 <= i < |offers| && 0 <= j < |offers| && i in kept :: !Cheaper(offers, prices, j, i)
    ensures forall i | 0 <= i < |offers| && i !in kept ::
              exists w | w in kept :: w < |offers| && (Cheaper(offers, prices, w, i) || AsCheap(offers, prices, w, i))
    ensures AllListed(offers, priority) ==> forall i | 0 <= i < |offers| :: i in kept <==> !Beaten(offers, priority, prices, i)
  {
    assert |prices| == |offers|;
    hide Retained, Candidates, Cheaper, AsCheap, Beaten, PricesAre, AllListed;
    forall i | 0 <= i < |offers|
      ensures i in kept ==> forall j | 0 <= j < |offers| :: !Cheaper(offers, prices, j, i)
      ensures i !in kept ==> exists w | w in kept :: w < |offers| && (Cheaper(offers, prices, w, i) || AsCheap(offers, prices, w, i))
      ensures AllListed(offers, priority) ==> (i in kept <==> !Beaten(offers, priority, prices, i))
    {
      var w := KeptAreCheapest(offers, priority, prices, i);
      assert w in kept;
      if AllListed(offers, priority) {
        StaysUnlessBeaten(offers, priority, prices, i);
      }
    }
  }
}
