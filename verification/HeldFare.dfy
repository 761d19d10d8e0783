// A supplier's Book answer against the accepted quote (src/booking.rs same_held_itinerary and
// project_booking_response): the same flights, the same money, and then the selling prices in place of
// the supplier's.
module HeldFare {
  import opened Wrappers
  import opened Json
  import opened Decimals

  // ---- The itinerary ---------------------------------------------------------------------------------

  // One flight: from, to, airline, number, departure, arrival and booking class, and the cabin label.
  datatype Flight = Flight(facts: seq<Value>, cabin: Value)

  function FlightOf(segment: Value): Flight {
    Flight([Member(segment, "from"), Member(segment, "to"), Member(segment, "airlineCode"), Member(segment, "flightNumber"),
            Member(segment, "departure"), Member(segment, "arrival"), Member(segment, "bookingClass")],
           Member(segment, "cabinClass"))
  }

  type Direction = seq<Flight>
  type Group = seq<Direction>

  function FlightsOf(segments: seq<Value>): seq<Flight> {
    seq(|segments|, i requires 0 <= i < |segments| => FlightOf(segments[i]))
  }

  function OptionsOf(options: seq<Value>): Option<Group> {
    if options == [] then Some([])
    else
      var earlier := OptionsOf(options[..|options| - 1]);
      var segments := AsArray(Member(options[|options| - 1], "segments"));
      if earlier.None? || segments.None? || segments.value == [] then None
      else Some(earlier.value + [FlightsOf(segments.value)])
  }

  function GroupsOf(groups: seq<Value>): Option<seq<Group>> {
    if groups == [] then Some([])
    else
      var earlier := GroupsOf(groups[..|groups| - 1]);
      var options := AsArray(groups[|groups| - 1]);
      if earlier.None? || options.None? then None
      else
        var last := OptionsOf(options.value);
        if last.None? then None else Some(earlier.value + [last.value])
  }

  function Itinerary(fare: Value): Option<seq<Group>> {
    var groups := AsArray(Member(fare, "directions"));
    if groups.None? then None else GroupsOf(groups.value)
  }

  predicate Unlabelled(cabin: Value) {
    cabin == Null || cabin == Text("")
  }

  // Cabin labels are optional; two given ones must agree.
  predicate CabinsAgree(a: Value, b: Value) {
    && (Unlabelled(a) || a.Text?)
    && (Unlabelled(b) || b.Text?)
    && (Unlabelled(a) || Unlabelled(b) || a == b)
  }

  predicate SameFlight(a: Flight, b: Flight) {
    a.facts == b.facts && CabinsAgree(a.cabin, b.cabin)
  }

  predicate SameFlights(a: seq<Flight>, b: seq<Flight>) {
    |a| == |b| && forall i :: 0 <= i < |a| ==> SameFlight(a[i], b[i])
  }

  predicate SameOptions(a: Group, b: Group) {
    |a| == |b| && forall i :: 0 <= i < |a| ==> SameFlights(a[i], b[i])
  }

  predicate SameGroups(a: seq<Group>, b: seq<Group>) {
    |a| == |b| && forall i :: 0 <= i < |a| ==> SameOptions(a[i], b[i])
  }

  function SameItinerary(a: Value, b: Value): Option<bool> {
    var x, y := Itinerary(a), Itinerary(b);
    if x.None? || y.None? then None else Some(SameGroups(x.value, y.value))
  }

  // ---- The same comparison told on the trees ---------------------------------------------------------

  function FlightKeys(): seq<string> {
    ["from", "to", "airlineCode", "flightNumber", "departure", "arrival", "bookingClass"]
  }

  // The same flight, of whose cabin labels one may be left out.
  ghost predicate SameSegment(a: Value, b: Value) {
    var x, y := Member(a, "cabinClass"), Member(b, "cabinClass");
    && (forall key :: key in FlightKeys() ==> Member(a, key) == Member(b, key))
    && (x.Null? || x.Text?) && (y.Null? || y.Text?)
    && (x == y || x in [Null, Text("")] || y in [Null, Text("")])
  }

  ghost predicate SameOption(a: Value, b: Value) {
    var s, t := Member(a, "segments"), Member(b, "segments");
    s.Array? && t.Array? && |s.items| == |t.items| > 0 && forall i :: 0 <= i < |s.items| ==> SameSegment(s.items[i], t.items[i])
  }

  ghost predicate SameGroup(a: Value, b: Value) {
    a.Array? && b.Array? && |a.items| == |b.items| && forall i :: 0 <= i < |a.items| ==> SameOption(a.items[i], b.items[i])
  }

  // Group by group, option by option and segment by segment.
  ghost predicate SameDirections(a: Value, b: Value) {
    var x, y := Member(a, "directions"), Member(b, "directions");
    x.Array? && y.Array? && |x.items| == |y.items| && forall i :: 0 <= i < |x.items| ==> SameGroup(x.items[i], y.items[i])
  }

  lemma FactsAre(segment: Value)
    ensures var keys := FlightKeys();
            |FlightOf(segment).facts| == |keys| && forall i :: 0 <= i < |keys| ==> FlightOf(segment).facts[i] == Member(segment, keys[i])
    ensures FlightOf(segment).cabin == Member(segment, "cabinClass")
  {
    hide Member;
  }

  lemma AgreeOn(keys: seq<string>, a: Value, b: Value, x: seq<Value>, y: seq<Value>)
    requires |x| == |y| == |keys| && forall i :: 0 <= i < |keys| ==> x[i] == Member(a, keys[i]) && y[i] == Member(b, keys[i])
    ensures x == y <==> forall key :: key in keys ==> Member(a, key) == Member(b, key)
  {
    hide Member;
    if x == y {
      forall key | key in keys ensures Member(a, key) == Member(b, key) {
        var i :| 0 <= i < |keys| && keys[i] == key;
        assert x[i] == y[i];
      }
    }
  }

  lemma SegmentTold(a: Value, b: Value)
    ensures SameFlight(FlightOf(a), FlightOf(b)) <==> SameSegment(a, b)
  {
    FactsAre(a);
    FactsAre(b);
    hide FlightKeys, FlightOf, Member;
    AgreeOn(FlightKeys(), a, b, FlightOf(a).facts, FlightOf(b).facts);
  }

  lemma {:induction false} OptionsAre(options: seq<Value>)
    ensures OptionsOf(options).Some? <==>
            forall i :: 0 <= i < |options| ==> Member(options[i], "segments").Array? && Member(options[i], "segments").items != []
    ensures OptionsOf(options).Some? ==>
              && |OptionsOf(options).value| == |options|
              && forall i :: 0 <= i < |options| ==> OptionsOf(options).value[i] == FlightsOf(Member(options[i], "segments").items)
  {
    hide Member, FlightsOf;
    if options != [] {
      OptionsAre(options[..|options| - 1]);
    }
  }

  lemma {:induction false} GroupsAre(groups: seq<Value>)
    ensures GroupsOf(groups).Some? <==> forall i :: 0 <= i < |groups| ==> groups[i].Array? && OptionsOf(groups[i].items).Some?
    ensures GroupsOf(groups).Some? ==>
              && |GroupsOf(groups).value| == |groups|
              && forall i :: 0 <= i < |groups| ==> Some(GroupsOf(groups).value[i]) == OptionsOf(groups[i].items)
  {
    hide OptionsOf;
    if groups != [] {
      GroupsAre(groups[..|groups| - 1]);
    }
  }

  lemma FlightsTold(a: seq<Value>, b: seq<Value>)
    ensures SameFlights(FlightsOf(a), FlightsOf(b)) <==> |a| == |b| && forall i :: 0 <= i < |a| ==> SameSegment(a[i], b[i])
  {
    hide SameFlight, FlightOf, SameSegment;
    if |a| == |b| {
      forall i | 0 <= i < |a| ensures SameFlight(FlightsOf(a)[i], FlightsOf(b)[i]) <==> SameSegment(a[i], b[i]) {
        SegmentTold(a[i], b[i]);
      }
    }
  }

  lemma GroupTold(a: seq<Value>, b: seq<Value>)
    ensures OptionsOf(a).Some? && OptionsOf(b).Some? && SameOptions(OptionsOf(a).value, OptionsOf(b).value) <==>
            SameGroup(Array(a), Array(b))
  {
    OptionsAre(a);
    OptionsAre(b);
    hide OptionsOf, FlightsOf, SameFlights, SameSegment, Member;
    if OptionsOf(a).Some? && OptionsOf(b).Some? && |a| == |b| {
      var x, y := OptionsOf(a).value, OptionsOf(b).value;
      forall i | 0 <= i < |a| ensures SameFlights(x[i], y[i]) <==> SameOption(a[i], b[i]) {
        FlightsTold(Member(a[i], "segments").items, Member(b[i], "segments").items);
      }
    }
  }

  // None where the tree is no list of options.
  function GroupFlights(group: Value): Option<Group> {
    if group.Array? then OptionsOf(group.items) else None
  }

  ghost predicate GroupsAgree(x: Option<Group>, y: Option<Group>) {
    x.Some? && y.Some? && SameOptions(x.value, y.value)
  }

  lemma OneGroupTold(a: Value, b: Value)
    ensures GroupsAgree(GroupFlights(a), GroupFlights(b)) <==> SameGroup(a, b)
  {
    if a.Array? && b.Array? {
      GroupTold(a.items, b.items);
    }
    hide SameOptions, OptionsOf, SameOption;
  }

  lemma GroupsTold(x: seq<Value>, y: seq<Value>)
    ensures GroupsOf(x).Some? && GroupsOf(y).Some? && SameGroups(GroupsOf(x).value, GroupsOf(y).value) <==>
            |x| == |y| && forall i :: 0 <= i < |x| ==> SameGroup(x[i], y[i])
  {
    GroupsAre(x);
    GroupsAre(y);
    hide OptionsOf, GroupsOf, SameOptions, SameGroup;
    if |x| == |y| {
      forall i | 0 <= i < |x| ensures GroupsAgree(GroupFlights(x[i]), GroupFlights(y[i])) <==> SameGroup(x[i], y[i]) {
        OneGroupTold(x[i], y[i]);
      }
    }
  }

  // Two fares fly the same exactly when their trees agree segment by segment.
  lemma ItineraryTold(a: Value, b: Value)
    ensures SameItinerary(a, b) == Some(true) <==> SameDirections(a, b)
  {
    var x, y := Member(a, "directions"), Member(b, "directions");
    if x.Array? && y.Array? {
      GroupsTold(x.items, y.items);
    }
    hide GroupsOf, SameGroups, SameGroup, Member;
  }

  // Blanks both labels where one is missing; none when the lists can no longer be equal.
  method BlankFlights(a: seq<Flight>, b: seq<Flight>) returns (blanked: Option<(seq<Flight>, seq<Flight>)>)
    ensures blanked.None? ==> !SameFlights(a, b)
    ensures blanked.Some? ==> (blanked.value.0 == blanked.value.1 <==> SameFlights(a, b))
  {
    if |a| != |b| {
      return None;
    }
    var x, y := a, b;
    for i := 0 to |a|
      invariant |x| == |y| == |a|
      invariant forall k :: i <= k < |a| ==> x[k] == a[k] && y[k] == b[k]
      invariant forall k :: 0 <= k < i ==> (x[k] == y[k] <==> SameFlight(a[k], b[k]))
    {
      var ca, cb := x[i].cabin, y[i].cabin;
      if (!Unlabelled(ca) && !ca.Text?) || (!Unlabelled(cb) && !cb.Text?) {
        assert !SameFlight(a[i], b[i]);
        return None;
      }
      if Unlabelled(ca) || Unlabelled(cb) {
        x, y := x[i := x[i].(cabin := Null)], y[i := y[i].(cabin := Null)];
      }
    }
    blanked := Some((x, y));
    assert x == y <==> forall k :: 0 <= k < |a| ==> x[k] == y[k];
  }

  method BlankOptions(a: Group, b: Group) returns (blanked: Option<(Group, Group)>)
    ensures blanked.None? ==> !SameOptions(a, b)
    ensures blanked.Some? ==> (blanked.value.0 == blanked.value.1 <==> SameOptions(a, b))
  {
    if |a| != |b| {
      return None;
    }
    var x, y := a, b;
    for i := 0 to |a|
      invariant |x| == |y| == |a|
      invariant forall k :: i <= k < |a| ==> x[k] == a[k] && y[k] == b[k]
      invariant forall k :: 0 <= k < i ==> (x[k] == y[k] <==> SameFlights(a[k], b[k]))
    {
      var flights := BlankFlights(x[i], y[i]);
      if flights.None? {
        assert !SameFlights(a[i], b[i]);
        return None;
      }
      x, y := x[i := flights.value.0], y[i := flights.value.1];
    }
    blanked := Some((x, y));
    assert x == y <==> forall k :: 0 <= k < |a| ==> x[k] == y[k];
  }

  // The two trees are walked and blanked in step, and compared as a whole at the end.
  method CompareItineraries(a: Value, b: Value) returns (same: Option<bool>)
    ensures same == SameItinerary(a, b)
  {
    var first, second := Itinerary(a), Itinerary(b);
    if first.None? || second.None? {
      return None;
    }
    var x, y := first.value, second.value;
    if |x| != |y| {
      return Some(false);
    }
    for i := 0 to |x|
      invariant |x| == |y| == |first.value| == |second.value|
      invariant forall k :: i <= k < |x| ==> x[k] == first.value[k] && y[k] == second.value[k]
      invariant forall k :: 0 <= k < i ==> (x[k] == y[k] <==> SameOptions(first.value[k], second.value[k]))
    {
      var options := BlankOptions(x[i], y[i]);
      if options.None? {
        assert !SameOptions(first.value[i], second.value[i]);
        return Some(false);
      }
      x, y := x[i := options.value.0], y[i := options.value.1];
    }
    assert x == y <==> forall k :: 0 <= k < |x| ==> x[k] == y[k];
    same := Some(x == y);
  }

  // The comparison does not depend on which side is the quote.
  lemma ItinerarySymmetric(a: Value, b: Value)
    ensures SameItinerary(a, b) == SameItinerary(b, a)
  {
    var x, y := Itinerary(a), Itinerary(b);
    if x.Some? && y.Some? {
      if SameGroups(x.value, y.value) {
        GroupsSymmetric(x.value, y.value);
      }
      if SameGroups(y.value, x.value) {
        GroupsSymmetric(y.value, x.value);
      }
    }
    hide Itinerary, SameGroups;
  }

  lemma GroupsSymmetric(a: seq<Group>, b: seq<Group>)
    requires SameGroups(a, b)
    ensures SameGroups(b, a)
  {
    forall i | 0 <= i < |b| ensures SameOptions(b[i], a[i]) {
      assert SameOptions(a[i], b[i]);
      forall j | 0 <= j < |b[i]| ensures SameFlights(b[i][j], a[i][j]) {
        assert SameFlights(a[i][j], b[i][j]);
      }
    }
  }

  // The middle flight has no label and hides two labels that differ.
  predicate Bridges(a: Flight, b: Flight, c: Flight) {
    Unlabelled(b.cabin) && !Unlabelled(a.cabin) && !Unlabelled(c.cabin) && a.cabin != c.cabin
  }

  ghost predicate BridgedAt(a: seq<Group>, b: seq<Group>, c: seq<Group>, g: nat, o: nat, s: nat) {
    && g < |a| && g < |b| && g < |c|
    && o < |a[g]| && o < |b[g]| && o < |c[g]|
    && s < |a[g][o]| && s < |b[g][o]| && s < |c[g][o]|
    && Bridges(a[g][o][s], b[g][o][s], c[g][o][s])
  }

  ghost predicate Bridged(a: seq<Group>, b: seq<Group>, c: seq<Group>) {
    exists g: nat, o: nat, s: nat :: BridgedAt(a, b, c, g, o, s)
  }

  lemma FlightTransitiveIff(a: Flight, b: Flight, c: Flight)
    requires SameFlight(a, b) && SameFlight(b, c)
    ensures SameFlight(a, c) <==> !Bridges(a, b, c)
  {
  }

  lemma DirectionTransitive(a: seq<Flight>, b: seq<Flight>, c: seq<Flight>)
    requires SameFlights(a, b) && SameFlights(b, c)
    ensures SameFlights(a, c) <==> forall s: nat :: s < |a| ==> !Bridges(a[s], b[s], c[s])
  {
    forall s: nat | s < |a| ensures SameFlight(a[s], c[s]) <==> !Bridges(a[s], b[s], c[s]) {
      assert SameFlight(a[s], b[s]) && SameFlight(b[s], c[s]);
      FlightTransitiveIff(a[s], b[s], c[s]);
    }
    hide SameFlight, Bridges;
  }

  lemma GroupTransitive(a: Group, b: Group, c: Group)
    requires SameOptions(a, b) && SameOptions(b, c)
    ensures SameOptions(a, c) <==>
            forall o: nat, s: nat :: o < |a| && s < |a[o]| ==>
              s < |b[o]| && s < |c[o]| && !Bridges(a[o][s], b[o][s], c[o][s])
  {
    forall o: nat | o < |a|
      ensures |a[o]| == |b[o]| == |c[o]|
      ensures SameFlights(a[o], c[o]) <==> forall s: nat :: s < |a[o]| ==> !Bridges(a[o][s], b[o][s], c[o][s])
    {
      assert SameFlights(a[o], b[o]) && SameFlights(b[o], c[o]);
      DirectionTransitive(a[o], b[o], c[o]);
    }
    hide SameFlights, Bridges;
  }

  lemma GroupsTransitive(a: seq<Group>, b: seq<Group>, c: seq<Group>)
    requires SameGroups(a, b) && SameGroups(b, c)
    ensures SameGroups(a, c) <==> !Bridged(a, b, c)
  {
    forall g: nat | g < |a|
      ensures |a[g]| == |b[g]| == |c[g]|
      ensures forall o: nat :: o < |a[g]| ==> |a[g][o]| == |b[g][o]| == |c[g][o]|
      ensures SameOptions(a[g], c[g]) <==> forall o: nat, s: nat :: !BridgedAt(a, b, c, g, o, s)
    {
      assert SameOptions(a[g], b[g]) && SameOptions(b[g], c[g]);
      GroupTransitive(a[g], b[g], c[g]);
      forall o: nat | o < |a[g]| ensures |a[g][o]| == |b[g][o]| == |c[g][o]| {
        assert SameFlights(a[g][o], b[g][o]) && SameFlights(b[g][o], c[g][o]);
      }
      hide SameOptions, Bridges;
      OptionsUnbridged(a, b, c, g);
    }
    hide SameOptions, BridgedAt;
  }

  lemma OptionsUnbridged(a: seq<Group>, b: seq<Group>, c: seq<Group>, g: nat)
    requires g < |a| && g < |b| && g < |c| && |a[g]| == |b[g]| == |c[g]|
    requires forall o: nat :: o < |a[g]| ==> |a[g][o]| == |b[g][o]| == |c[g][o]|
    ensures (forall o: nat, s: nat :: !BridgedAt(a, b, c, g, o, s)) <==>
            forall o: nat, s: nat :: o < |a[g]| && s < |a[g][o]| ==>
              s < |b[g][o]| && s < |c[g][o]| && !Bridges(a[g][o][s], b[g][o][s], c[g][o][s])
  {
    hide Bridges;
    if forall o: nat, s: nat :: !BridgedAt(a, b, c, g, o, s) {
      forall o: nat, s: nat | o < |a[g]| && s < |a[g][o]|
        ensures !Bridges(a[g][o][s], b[g][o][s], c[g][o][s])
      {
        assert !BridgedAt(a, b, c, g, o, s);
      }
    }
  }

  // Agreement carries over from a to c through b exactly when nowhere b leaves out a label on which a
  // and c differ; so a stored answer has to be compared with the quote itself.
  lemma ItineraryTransitiveIff(a: Value, b: Value, c: Value)
    requires SameItinerary(a, b) == Some(true) && SameItinerary(b, c) == Some(true)
    ensures SameItinerary(a, c) == Some(true) <==> !Bridged(Itinerary(a).value, Itinerary(b).value, Itinerary(c).value)
  {
    GroupsTransitive(Itinerary(a).value, Itinerary(b).value, Itinerary(c).value);
    hide Itinerary, SameGroups, Bridged;
  }

  // ---- Writing into a tree ---------------------------------------------------------------------------------

  datatype Step = Name(key: string) | At(index: nat)
  type Path = seq<Step>

  function Child(v: Value, step: Step): Option<Value> {
    match step
    case Name(key) => Get(v, key)
    case At(index) => if v.Array? && index < |v.items| then Some(v.items[index]) else None
  }

  function GetIn(v: Value, path: Path): Option<Value>
    decreases |path|
  {
    if path == [] then Some(v)
    else
      var child := Child(v, path[0]);
      if child.None? then None else GetIn(child.value, path[1..])
  }

  function Replaced(fields: seq<Field>, key: string, value: Value): seq<Field> {
    if fields == [] then []
    else if fields[0].key == key then [Field(key, value)] + fields[1..]
    else [fields[0]] + Replaced(fields[1..], key, value)
  }

  function WithChild(v: Value, step: Step, value: Value): Value
    requires Child(v, step).Some?
  {
    match step
    case Name(key) => Object(Replaced(v.fields, key, value))
    case At(index) => Array(v.items[index := value])
  }

  // Overwrites what is at the path; a path that leads nowhere changes nothing.
  function SetIn(v: Value, path: Path, value: Value): Value
    decreases |path|
  {
    if path == [] then value
    else
      var child := Child(v, path[0]);
      if child.None? then v else WithChild(v, path[0], SetIn(child.value, path[1..], value))
  }

  // Neither path leads through the other.
  predicate Apart(p: Path, q: Path)
    decreases |p|
  {
    p != [] && q != [] && (p[0] != q[0] || Apart(p[1..], q[1..]))
  }

  lemma {:induction false} ReplacedLookup(fields: seq<Field>, key: string, value: Value, other: string)
    ensures Lookup(Replaced(fields, key, value), other) ==
            if other == key && Lookup(fields, key).Some? then Some(value) else Lookup(fields, other)
  {
    if fields != [] {
      ReplacedLookup(fields[1..], key, value, other);
    }
  }

  lemma WithChildAt(v: Value, step: Step, value: Value, other: Step)
    requires Child(v, step).Some?
    ensures Child(WithChild(v, step, value), other) == if other == step then Some(value) else Child(v, other)
  {
    if step.Name? && other.Name? {
      ReplacedLookup(v.fields, step.key, value, other.key);
    }
  }

  lemma {:induction false} SetInReads(v: Value, path: Path, value: Value)
    requires GetIn(v, path).Some?
    ensures GetIn(SetIn(v, path, value), path) == Some(value)
    decreases |path|
  {
    if path != [] {
      var child := Child(v, path[0]).value;
      SetInReads(child, path[1..], value);
      WithChildAt(v, path[0], SetIn(child, path[1..], value), path[0]);
      hide WithChild, Child;
    }
  }

  lemma {:induction false} SetInElsewhere(v: Value, path: Path, value: Value, other: Path)
    requires Apart(path, other)
    ensures GetIn(SetIn(v, path, value), other) == GetIn(v, other)
    decreases |path|
  {
    var child := Child(v, path[0]);
    if child.Some? {
      var inner := SetIn(child.value, path[1..], value);
      WithChildAt(v, path[0], inner, other[0]);
      if path[0] == other[0] {
        SetInElsewhere(child.value, path[1..], value, other[1..]);
      }
      hide WithChild, Child;
    }
  }

  // What is set where; a later entry overwrites an earlier one.
  function Written(v: Value, writes: seq<(Path, Value)>): Value {
    if writes == [] then v
    else
      var last := writes[|writes| - 1];
      SetIn(Written(v, writes[..|writes| - 1]), last.0, last.1)
  }

  ghost predicate AllApart(writes: seq<(Path, Value)>) {
    forall i, j :: 0 <= i < |writes| && 0 <= j < |writes| && i != j ==> Apart(writes[i].0, writes[j].0)
  }

  // Writes to separate existing places all take effect, and every other place keeps its value.
  lemma {:induction false} WritesTakeEffect(v: Value, writes: seq<(Path, Value)>, i: nat)
    requires AllApart(writes) && i < |writes|
    requires forall k :: 0 <= k < |writes| ==> GetIn(v, writes[k].0).Some?
    ensures GetIn(Written(v, writes), writes[i].0) == Some(writes[i].1)
  {
    var n := |writes| - 1;
    var before := writes[..n];
    if i < n {
      WritesTakeEffect(v, before, i);
      assert Apart(writes[n].0, writes[i].0);
      SetInElsewhere(Written(v, before), writes[n].0, writes[n].1, writes[i].0);
    } else {
      forall k | 0 <= k < n ensures Apart(before[k].0, writes[n].0) {
        assert Apart(writes[k].0, writes[n].0);
      }
      WritesLeave(v, before, writes[n].0);
      SetInReads(Written(v, before), writes[n].0, writes[n].1);
    }
    hide GetIn, SetIn, Apart;
  }

  lemma {:induction false} WritesLeave(v: Value, writes: seq<(Path, Value)>, other: Path)
    requires forall k :: 0 <= k < |writes| ==> Apart(writes[k].0, other)
    ensures GetIn(Written(v, writes), other) == GetIn(v, other)
  {
    if writes != [] {
      var n := |writes| - 1;
      WritesLeave(v, writes[..n], other);
      SetInElsewhere(Written(v, writes[..n]), writes[n].0, writes[n].1, other);
    }
    hide GetIn, SetIn, Apart;
  }

  lemma WrittenMore(v: Value, first: seq<(Path, Value)>, second: seq<(Path, Value)>)
    ensures Written(v, first + second) == Written(Written(v, first), second)
    decreases |second|
  {
    if second == [] {
      assert first + second == first;
    } else {
      var n := |second| - 1;
      WrittenMore(v, first, second[..n]);
      assert (first + second)[..|first + second| - 1] == first + second[..n];
    }
  }

  // ---- Money ---------------------------------------------------------------------------------------------------

  function Money(v: Value): Option<real> {
    if v.Number? then Decimal(v.lexeme) else None
  }

  predicate SameMoney(a: Value, b: Value) {
    Money(a).Some? && Money(a) == Money(b)
  }

  datatype Price = Total | Base | Tax | Ait | Discount

  function KeyOf(price: Price): string {
    match price
    case Total => "totalPrice"
    case Base => "basePrice"
    case Tax => "taxes"
    case Ait => "ait"
    case Discount => "discountPrice"
  }

  function PriceIn(record: Value, price: Price): Value {
    Member(record, KeyOf(price))
  }

  predicate States(record: Value, price: Price) {
    Get(record, KeyOf(price)).Some?
  }

  // All four amounts of a fare are the quoted ones.
  predicate SameAmounts(fare: Value, quoted: Value) {
    && SameMoney(PriceIn(fare, Total), PriceIn(quoted, Total))
    && SameMoney(PriceIn(fare, Base), PriceIn(quoted, Base))
    && SameMoney(PriceIn(fare, Tax), PriceIn(quoted, Tax))
    && SameMoney(PriceIn(fare, Ait), PriceIn(quoted, Ait))
  }

  function FareOf(flight: Value, kind: string): Value {
    Member(Member(flight, "passengerFares"), kind)
  }

  function ComponentOf(flight: Value): Value {
    var components := Member(flight, "bookingComponents");
    if components.Array? && components.items != [] then components.items[0] else Null
  }

  predicate KindAccepted(flight: Value, original: Value, count: Field) {
    && AsU64(count.value).Some?
    && (AsU64(count.value).value > 0 ==> SameAmounts(FareOf(flight, count.key), FareOf(original, count.key)))
  }

  // Optional aggregates must match when they are given.
  predicate AggregateAccepted(flight: Value, original: Value, price: Price) {
    States(flight, price) ==> SameMoney(PriceIn(flight, price), PriceIn(original, price))
  }

  // Same flights, currency, passengers and money as the accepted quote.
  predicate FlightAccepted(flight: Value, original: Value) {
    var counts := Member(original, "passengerCounts");
    && SameItinerary(flight, original) == Some(true)
    && (Get(flight, "currency").Some? ==> Member(flight, "currency") == Member(original, "currency"))
    && Member(flight, "passengerCounts") == counts
    && Member(flight, "bookingComponents").Array? && |Member(flight, "bookingComponents").items| == 1
    && AggregateAccepted(flight, original, Total)
    && AggregateAccepted(flight, original, Base)
    && AggregateAccepted(flight, original, Tax)
    && counts.Object?
    && (forall k :: 0 <= k < |counts.fields| ==> KindAccepted(flight, original, counts.fields[k]))
    && SameAmounts(ComponentOf(flight), ComponentOf(original))
  }

  // Two amounts are the same exactly when both can be read and are worth the same, however written.
  lemma SameMoneyIsWorth(a: Numeral, b: Numeral)
    requires Grammatical(a) && Grammatical(b)
    ensures SameMoney(Number(Spelled(a)), Number(Spelled(b))) <==> Readable(a) && Readable(b) && Worth(a) == Worth(b)
  {
    DecimalIsWorth(a);
    DecimalIsWorth(b);
    hide Decimal, Spelled, Readable, Worth;
  }

  ghost predicate SamePrices(fare: Value, quoted: Value, keys: seq<string>) {
    forall key :: key in keys ==> SameMoney(Member(fare, key), Member(quoted, key))
  }

  function FareKeys(): seq<string> {
    ["totalPrice", "basePrice", "taxes", "ait"]
  }

  // A count in range and, if anyone of the kind travels, the quoted money.
  ghost predicate KindAtTheQuote(flight: Value, original: Value, count: Field) {
    && AsU64(count.value).Some?
    && (AsU64(count.value) != Some(0) ==>
          SamePrices(Member(Member(flight, "passengerFares"), count.key), Member(Member(original, "passengerFares"), count.key), FareKeys()))
  }

  lemma KindTold(flight: Value, original: Value, count: Field)
    ensures KindAccepted(flight, original, count) <==> KindAtTheQuote(flight, original, count)
  {
    AmountsTold(FareOf(flight, count.key), FareOf(original, count.key));
    hide SameAmounts, SamePrices, AsU64, Member;
  }

  // A flight of the quoted booking: the same segments; the quoted currency, unless it is left out; the
  // quoted passenger counts; one component; and the quoted money for all who travel and as a whole.
  ghost predicate AtTheQuote(flight: Value, original: Value) {
    var counts, components, quoted := Member(original, "passengerCounts"), Member(flight, "bookingComponents"), Member(original, "bookingComponents");
    && SameDirections(flight, original)
    && (Get(flight, "currency").Some? ==> Member(flight, "currency") == Member(original, "currency"))
    && counts.Object? && Member(flight, "passengerCounts") == counts
    && (forall key :: key in ["totalPrice", "basePrice", "taxes"] && Get(flight, key).Some? ==>
          SameMoney(Member(flight, key), Member(original, key)))
    && (forall k :: 0 <= k < |counts.fields| ==> KindAtTheQuote(flight, original, counts.fields[k]))
    && components.Array? && |components.items| == 1
    && quoted.Array? && quoted.items != [] && SamePrices(components.items[0], quoted.items[0], FareKeys())
  }

  lemma AmountsTold(fare: Value, quoted: Value)
    ensures SameAmounts(fare, quoted) <==> SamePrices(fare, quoted, FareKeys())
  {
    hide SameMoney, Member;
    var keys := FareKeys();
    assert keys[0] == KeyOf(Total) && keys[1] == KeyOf(Base) && keys[2] == KeyOf(Tax) && keys[3] == KeyOf(Ait) && |keys| == 4;
    assert forall i :: 0 <= i < 4 ==> keys[i] in keys;
    hide FareKeys, KeyOf;
  }

  lemma AggregatesTold(flight: Value, original: Value)
    ensures AggregateAccepted(flight, original, Total) && AggregateAccepted(flight, original, Base) && AggregateAccepted(flight, original, Tax) <==>
            forall key :: key in ["totalPrice", "basePrice", "taxes"] && Get(flight, key).Some? ==>
              SameMoney(Member(flight, key), Member(original, key))
  {
    hide SameMoney, Member, Get;
    var keys := ["totalPrice", "basePrice", "taxes"];
    assert keys[0] == KeyOf(Total) && keys[1] == KeyOf(Base) && keys[2] == KeyOf(Tax) && |keys| == 3;
    assert forall i :: 0 <= i < 3 ==> keys[i] in keys;
    hide KeyOf;
  }

  lemma UnlistedComponent(flight: Value, original: Value)
    ensures var quoted := Member(original, "bookingComponents");
            SameAmounts(ComponentOf(flight), ComponentOf(original)) ==> quoted.Array? && quoted.items != []
  {
    hide SameMoney, KeyOf;
    assert !SameMoney(PriceIn(ComponentOf(flight), Total), Null) by {
      NoMoney(PriceIn(ComponentOf(flight), Total));
    }
  }

  lemma NoMoney(v: Value)
    ensures !SameMoney(v, Null)
  {
  }

  // An answer's flight is accepted exactly when it is that of the quoted booking.
  lemma AcceptedExactlyWhen(flight: Value, original: Value)
    ensures FlightAccepted(flight, original) <==> AtTheQuote(flight, original)
  {
    ItineraryTold(flight, original);
    AggregatesTold(flight, original);
    UnlistedComponent(flight, original);
    AmountsTold(ComponentOf(flight), ComponentOf(original));
    forall count: Field ensures KindAccepted(flight, original, count) <==> KindAtTheQuote(flight, original, count) {
      KindTold(flight, original, count);
    }
    hide SameItinerary, SameDirections, SameAmounts, SamePrices, SameMoney, KindAccepted, KindAtTheQuote, AggregateAccepted, Member, Get;
  }

  // ---- The shown prices --------------------------------------------------------------------------------------------

  // The prices a client sees: a passenger kind's, the whole fare's total, the component's.
  datatype Place = FarePlace(kind: string, price: Price) | TotalPlace | ComponentPlace(price: Price)

  function PathOf(place: Place): Path {
    [Name("item1"), Name("flightInfo")] +
    match place
    case FarePlace(kind, price) => [Name("passengerFares"), Name(kind), Name(KeyOf(price))]
    case TotalPlace => [Name("totalPrice")]
    case ComponentPlace(price) => [Name("bookingComponents"), At(0), Name(KeyOf(price))]
  }

  function WriteIf(stated: bool, place: Place, value: Value): seq<(Path, Value)> {
    if stated then [(PathOf(place), value)] else []
  }

  function KindWrites(flight: Value, selling: Value, kind: string): seq<(Path, Value)> {
    WriteIf(States(FareOf(flight, kind), Total), FarePlace(kind, Total), PriceIn(FareOf(selling, kind), Total)) +
    WriteIf(States(FareOf(flight, kind), Discount), FarePlace(kind, Discount), PriceIn(FareOf(selling, kind), Discount))
  }

  function PassengerWrites(flight: Value, selling: Value, counts: seq<Field>): seq<(Path, Value)> {
    if counts == [] then []
    else
      var earlier, last := PassengerWrites(flight, selling, counts[..|counts| - 1]), counts[|counts| - 1];
      if AsU64(last.value) == Some(0) then earlier else earlier + KindWrites(flight, selling, last.key)
  }

  function FlightWrites(flight: Value, selling: Value): seq<(Path, Value)> {
    WriteIf(States(flight, Total), TotalPlace, PriceIn(selling, Total)) +
    WriteIf(States(ComponentOf(flight), Total), ComponentPlace(Total), PriceIn(ComponentOf(selling), Total)) +
    WriteIf(States(ComponentOf(flight), Discount), ComponentPlace(Discount), PriceIn(ComponentOf(selling), Discount))
  }

  function Writes(flight: Value, original: Value, selling: Value): seq<(Path, Value)> {
    PassengerWrites(flight, selling, Members(Member(original, "passengerCounts"))) + FlightWrites(flight, selling)
  }

  // Prices outside flightInfo are never expected.
  predicate NoLoosePrices(info: Value) {
    !States(info, Total) && Get(info, "passengerFares").None? && Get(info, "bookingComponents").None?
  }

  // The answer with selling prices, before its references are rewritten; none when it is not the
  // quoted booking.
  function Projected(body: Value, original: Value, selling: Value): Option<Value> {
    var info := Member(body, "item1");
    var flight := Get(info, "flightInfo");
    if !NoLoosePrices(info) then None
    else if flight.None? then Some(body)
    else if FlightAccepted(flight.value, original) then Some(Written(body, Writes(flight.value, original, selling)))
    else None
  }

  // No price stands outside the flight, and a flight is that of the quoted booking.
  ghost predicate AnswersQuote(body: Value, original: Value) {
    var info := Member(body, "item1");
    && Get(info, "totalPrice").None? && Get(info, "passengerFares").None? && Get(info, "bookingComponents").None?
    && (Get(info, "flightInfo").Some? ==> AtTheQuote(Get(info, "flightInfo").value, original))
  }

  lemma LooseTold(info: Value)
    ensures NoLoosePrices(info) <==> Get(info, "totalPrice").None? && Get(info, "passengerFares").None? && Get(info, "bookingComponents").None?
  {
    hide Get;
  }

  lemma ProjectedExactlyWhen(body: Value, original: Value, selling: Value)
    ensures Projected(body, original, selling).Some? <==> AnswersQuote(body, original)
  {
    var flight := Get(Member(body, "item1"), "flightInfo");
    if flight.Some? {
      AcceptedExactlyWhen(flight.value, original);
    }
    LooseTold(Member(body, "item1"));
    hide FlightAccepted, AtTheQuote, NoLoosePrices, Written, Writes, Get, Member;
  }

  method WritePrice(tree: Value, stated: bool, place: Place, value: Value) returns (written: Value)
    ensures written == Written(tree, WriteIf(stated, place, value))
  {
    written := tree;
    if stated {
      written := SetIn(tree, PathOf(place), value);
      assert [(PathOf(place), value)][..0] == [];
    }
  }

  method Project(body: Value, original: Value, selling: Value) returns (shown: Option<Value>)
    ensures shown == Projected(body, original, selling)
    ensures shown.Some? <==> AnswersQuote(body, original)
  {
    ProjectedExactlyWhen(body, original, selling);
    hide AnswersQuote, NoLoosePrices, States, PriceIn, SameAmounts, ComponentOf, AggregateAccepted,
         KindAccepted, PassengerWrites, Written, SetIn, SameItinerary, WriteIf;
    var info := Member(body, "item1");
    if !NoLoosePrices(info) {
      return None;
    }
    var result := body;
    var found := Get(info, "flightInfo");
    if found.Some? {
      var flight := found.value;
      var same := CompareItineraries(flight, original);
      if same != Some(true) {
        return None;
      }
      if Get(flight, "currency").Some? && Member(flight, "currency") != Member(original, "currency") {
        return None;
      }
      var components := Member(flight, "bookingComponents");
      if Member(flight, "passengerCounts") != Member(original, "passengerCounts") || !components.Array? || |components.items| != 1 {
        return None;
      }
      if !AggregateAccepted(flight, original, Total) || !AggregateAccepted(flight, original, Base) || !AggregateAccepted(flight, original, Tax) {
        return None;
      }
      var counts := Member(original, "passengerCounts");
      if !counts.Object? {
        return None;
      }
      var accepted := KindsAccepted(flight, original, counts.fields);
      if !accepted || !SameAmounts(ComponentOf(flight), ComponentOf(original)) {
        return None;
      }
      result := ProjectKinds(body, flight, selling, counts.fields);
      result := ProjectFlight(result, flight, selling);
      WrittenMore(body, PassengerWrites(flight, selling, counts.fields), FlightWrites(flight, selling));
    }
    shown := Some(result);
  }

  method KindsAccepted(flight: Value, original: Value, counts: seq<Field>) returns (accepted: bool)
    ensures accepted <==> forall k :: 0 <= k < |counts| ==> KindAccepted(flight, original, counts[k])
  {
    for k := 0 to |counts|
      invariant forall j :: 0 <= j < k ==> KindAccepted(flight, original, counts[j])
    {
      if !KindAccepted(flight, original, counts[k]) {
        return false;
      }
    }
    accepted := true;
  }

  method ProjectFlight(body: Value, flight: Value, selling: Value) returns (result: Value)
    ensures result == Written(body, FlightWrites(flight, selling))
  {
    hide Written, States, PriceIn, ComponentOf, WriteIf;
    var component, sold := ComponentOf(flight), ComponentOf(selling);
    result := WritePrice(body, States(flight, Total), TotalPlace, PriceIn(selling, Total));
    result := WritePrice(result, States(component, Total), ComponentPlace(Total), PriceIn(sold, Total));
    result := WritePrice(result, States(component, Discount), ComponentPlace(Discount), PriceIn(sold, Discount));
    ghost var total := WriteIf(States(flight, Total), TotalPlace, PriceIn(selling, Total));
    ghost var whole := WriteIf(States(component, Total), ComponentPlace(Total), PriceIn(sold, Total));
    ghost var discount := WriteIf(States(component, Discount), ComponentPlace(Discount), PriceIn(sold, Discount));
    WrittenMore(body, total, whole);
    WrittenMore(body, total + whole, discount);
  }

  method ProjectKind(body: Value, flight: Value, selling: Value, kind: string) returns (result: Value)
    ensures result == Written(body, KindWrites(flight, selling, kind))
  {
    hide Written, States, PriceIn, FareOf, WriteIf;
    var fare, sold := FareOf(flight, kind), FareOf(selling, kind);
    result := WritePrice(body, States(fare, Total), FarePlace(kind, Total), PriceIn(sold, Total));
    result := WritePrice(result, States(fare, Discount), FarePlace(kind, Discount), PriceIn(sold, Discount));
    WrittenMore(body, WriteIf(States(fare, Total), FarePlace(kind, Total), PriceIn(sold, Total)),
                WriteIf(States(fare, Discount), FarePlace(kind, Discount), PriceIn(sold, Discount)));
  }

  method ProjectKinds(body: Value, flight: Value, selling: Value, counts: seq<Field>) returns (result: Value)
    ensures result == Written(body, PassengerWrites(flight, selling, counts))
  {
    hide KindWrites;
    result := body;
    for k := 0 to |counts|
      invariant result == Written(body, PassengerWrites(flight, selling, counts[..k]))
    {
      assert counts[..k + 1][..k] == counts[..k];
      if AsU64(counts[k].value) != Some(0) {
        WrittenMore(body, PassengerWrites(flight, selling, counts[..k]), KindWrites(flight, selling, counts[k].key));
        result := ProjectKind(result, flight, selling, counts[k].key);
      }
    }
    assert counts[..|counts|] == counts;
  }

  // ---- What the client is shown ----------------------------------------------------------------------------------

  lemma KeysDiffer(a: Price, b: Price)
    ensures KeyOf(a) == KeyOf(b) <==> a == b
  {
    assert |KeyOf(Total)| == 10 && |KeyOf(Base)| == 9 && |KeyOf(Tax)| == 5 && |KeyOf(Ait)| == 3 && |KeyOf(Discount)| == 13;
  }

  lemma {:induction false} ApartAfter(prefix: Path, p: Path, q: Path)
    requires Apart(p, q)
    ensures Apart(prefix + p, prefix + q)
  {
    if prefix == [] {
      assert prefix + p == p && prefix + q == q;
    } else {
      ApartAfter(prefix[1..], p, q);
      assert (prefix + p)[1..] == prefix[1..] + p && (prefix + q)[1..] == prefix[1..] + q;
    }
  }

  // Different prices are at different places.
  lemma PlacesApart(a: Place, b: Place)
    requires a != b
    ensures Apart(PathOf(a), PathOf(b))
  {
    var flight: Path := [Name("item1"), Name("flightInfo")];
    var p, q := PathOf(a)[2..], PathOf(b)[2..];
    assert PathOf(a) == flight + p && PathOf(b) == flight + q;
    assert Apart(p, q) by {
      if a.FarePlace? && b.FarePlace? {
        KeysDiffer(a.price, b.price);
        ApartSteps(Name("passengerFares"), Name(a.kind), Name(KeyOf(a.price)), Name(b.kind), Name(KeyOf(b.price)));
      } else if a.ComponentPlace? && b.ComponentPlace? {
        KeysDiffer(a.price, b.price);
        ApartSteps(Name("bookingComponents"), At(0), Name(KeyOf(a.price)), At(0), Name(KeyOf(b.price)));
      }
      hide KeyOf;
    }
    ApartAfter(flight, p, q);
    hide PathOf, Apart;
  }

  lemma ApartSteps(root: Step, a: Step, x: Step, b: Step, y: Step)
    requires a != b || x != y
    ensures Apart([root, a, x], [root, b, y])
  {
    assert [root, a, x][1..] == [a, x] && [root, b, y][1..] == [b, y];
    assert [a, x][1..] == [x] && [b, y][1..] == [y];
  }

  // A passenger kind of the quote whose count is not zero.
  predicate Counted(counts: seq<Field>, kind: string) {
    exists i :: 0 <= i < |counts| && counts[i].key == kind && AsU64(counts[i].value) != Some(0)
  }

  predicate Shown(price: Price) {
    price == Total || price == Discount
  }

  ghost predicate PassengerPath(path: Path, counts: seq<Field>) {
    exists kind, price :: Counted(counts, kind) && Shown(price) && path == PathOf(FarePlace(kind, price))
  }

  ghost predicate OtherPath(path: Path) {
    path == PathOf(TotalPlace) || path == PathOf(ComponentPlace(Total)) || path == PathOf(ComponentPlace(Discount))
  }

  lemma KindWritesApart(flight: Value, selling: Value, kind: string)
    ensures AllApart(KindWrites(flight, selling, kind))
    ensures forall w :: w in KindWrites(flight, selling, kind) ==> w.0 == PathOf(FarePlace(kind, Total)) || w.0 == PathOf(FarePlace(kind, Discount))
  {
    PlacesApart(FarePlace(kind, Total), FarePlace(kind, Discount));
    PlacesApart(FarePlace(kind, Discount), FarePlace(kind, Total));
    hide PathOf, Apart, States, FareOf;
  }

  lemma AllApartTogether(first: seq<(Path, Value)>, second: seq<(Path, Value)>)
    requires AllApart(first) && AllApart(second)
    requires forall a, b :: a in first && b in second ==> Apart(a.0, b.0) && Apart(b.0, a.0)
    ensures AllApart(first + second)
  {
    var both := first + second;
    forall i, j | 0 <= i < |both| && 0 <= j < |both| && i != j ensures Apart(both[i].0, both[j].0) {
      if i < |first| && j >= |first| {
        assert first[i] in first && second[j - |first|] in second;
      } else if i >= |first| && j < |first| {
        assert first[j] in first && second[i - |first|] in second;
      } else if i >= |first| {
        assert both[i] == second[i - |first|] && both[j] == second[j - |first|];
      }
    }
    hide Apart;
  }

  lemma CountedSooner(counts: seq<Field>, n: nat, kind: string)
    requires n <= |counts| && Counted(counts[..n], kind)
    ensures Counted(counts, kind)
  {
    var i :| 0 <= i < n && counts[..n][i].key == kind && AsU64(counts[..n][i].value) != Some(0);
    assert counts[i].key == kind && AsU64(counts[i].value) != Some(0);
  }

  lemma NothingApart()
    ensures AllApart([])
  {
  }

  lemma {:induction false} PassengerWritesApart(flight: Value, selling: Value, counts: seq<Field>)
    requires DistinctKeys(counts)
    ensures AllApart(PassengerWrites(flight, selling, counts))
    ensures forall w :: w in PassengerWrites(flight, selling, counts) ==> PassengerPath(w.0, counts)
  {
    hide PathOf, Apart, AllApart, AsU64, KindWrites;
    if counts != [] {
      var n := |counts| - 1;
      var before, kind := counts[..n], counts[n].key;
      PassengerWritesApart(flight, selling, before);
      var earlier := PassengerWrites(flight, selling, before);
      forall w | w in earlier ensures PassengerPath(w.0, counts) {
        var other, price :| Counted(before, other) && Shown(price) && w.0 == PathOf(FarePlace(other, price));
        CountedSooner(counts, n, other);
      }
      if AsU64(counts[n].value) != Some(0) {
        KindAdded(flight, selling, counts, earlier);
      }
    } else {
      NothingApart();
    }
  }

  lemma KindAdded(flight: Value, selling: Value, counts: seq<Field>, earlier: seq<(Path, Value)>)
    requires counts != [] && DistinctKeys(counts) && AsU64(counts[|counts| - 1].value) != Some(0)
    requires AllApart(earlier) && forall w :: w in earlier ==> PassengerPath(w.0, counts[..|counts| - 1])
    ensures AllApart(earlier + KindWrites(flight, selling, counts[|counts| - 1].key))
    ensures forall w :: w in KindWrites(flight, selling, counts[|counts| - 1].key) ==> PassengerPath(w.0, counts)
  {
    var n := |counts| - 1;
    var before, kind := counts[..n], counts[n].key;
    var last := KindWrites(flight, selling, kind);
    KindWritesApart(flight, selling, kind);
    hide PathOf, Apart, KindWrites, AllApart, AsU64;
    assert Counted(counts, kind);
    forall w | w in last ensures PassengerPath(w.0, counts) {
      assert Counted(counts, kind) && Shown(Total) && Shown(Discount);
    }
    forall a, b | a in earlier && b in last ensures Apart(a.0, b.0) && Apart(b.0, a.0) {
      var other, price :| Counted(before, other) && Shown(price) && a.0 == PathOf(FarePlace(other, price));
      var i :| 0 <= i < |before| && before[i].key == other;
      assert counts[i].key != counts[n].key;
      var mine := if b.0 == PathOf(FarePlace(kind, Total)) then Total else Discount;
      PlacesApart(FarePlace(other, price), FarePlace(kind, mine));
      PlacesApart(FarePlace(kind, mine), FarePlace(other, price));
    }
    AllApartTogether(earlier, last);
  }

  lemma FlightWritesApart(flight: Value, selling: Value)
    ensures AllApart(FlightWrites(flight, selling))
    ensures forall w :: w in FlightWrites(flight, selling) ==> OtherPath(w.0)
  {
    PlacesApart(TotalPlace, ComponentPlace(Total));
    PlacesApart(ComponentPlace(Total), TotalPlace);
    PlacesApart(TotalPlace, ComponentPlace(Discount));
    PlacesApart(ComponentPlace(Discount), TotalPlace);
    PlacesApart(ComponentPlace(Total), ComponentPlace(Discount));
    PlacesApart(ComponentPlace(Discount), ComponentPlace(Total));
    hide PathOf, Apart, States, ComponentOf;
  }

  lemma OthersApart(path: Path, other: Path, counts: seq<Field>)
    requires PassengerPath(path, counts) && OtherPath(other)
    ensures Apart(path, other) && Apart(other, path)
  {
    var kind, price :| Counted(counts, kind) && Shown(price) && path == PathOf(FarePlace(kind, price));
    var place := if other == PathOf(TotalPlace) then TotalPlace
                 else if other == PathOf(ComponentPlace(Total)) then ComponentPlace(Total) else ComponentPlace(Discount);
    PlacesApart(FarePlace(kind, price), place);
    PlacesApart(place, FarePlace(kind, price));
    hide PathOf, Apart;
  }

  lemma WritesApart(flight: Value, original: Value, selling: Value)
    requires DistinctKeys(Members(Member(original, "passengerCounts")))
    ensures AllApart(Writes(flight, original, selling))
  {
    var counts := Members(Member(original, "passengerCounts"));
    var passengers, others := PassengerWrites(flight, selling, counts), FlightWrites(flight, selling);
    PassengerWritesApart(flight, selling, counts);
    FlightWritesApart(flight, selling);
    forall a, b | a in passengers && b in others ensures Apart(a.0, b.0) && Apart(b.0, a.0) {
      OthersApart(a.0, b.0, counts);
    }
    AllApartTogether(passengers, others);
    hide Apart, AllApart, PassengerWrites, FlightWrites, PassengerPath, OtherPath;
  }

  // The tree that holds flight at the response's flightInfo.
  ghost predicate Carries(body: Value, flight: Value) {
    GetIn(body, [Name("item1"), Name("flightInfo")]) == Some(flight)
  }

  lemma GetInThrough(v: Value, prefix: Path, rest: Path)
    requires GetIn(v, prefix).Some?
    ensures GetIn(v, prefix + rest) == GetIn(GetIn(v, prefix).value, rest)
    decreases |prefix|
  {
    if prefix == [] {
      assert prefix + rest == rest;
    } else {
      assert (prefix + rest)[1..] == prefix[1..] + rest;
      GetInThrough(Child(v, prefix[0]).value, prefix[1..], rest);
    }
  }

  lemma GetThree(v: Value, a: Step, b: Step, c: Step)
    ensures GetIn(v, [a, b, c]) ==
            var x := Child(v, a);
            if x.None? then None
            else var y := Child(x.value, b); if y.None? then None else Child(y.value, c)
  {
    assert [a, b, c][1..] == [b, c] && [b, c][1..] == [c] && [c][1..] == [];
    hide Child;
    var x := Child(v, a);
    if x.Some? {
      assert GetIn(v, [a, b, c]) == GetIn(x.value, [b, c]);
      var y := Child(x.value, b);
      if y.Some? {
        assert GetIn(x.value, [b, c]) == GetIn(y.value, [c]);
        var z := Child(y.value, c);
        if z.Some? {
          assert GetIn(z.value, []) == Some(z.value);
        }
      }
    }
  }

  lemma MemberChild(v: Value, key: string)
    ensures Child(v, Name(key)) == Get(v, key)
    ensures Get(v, key).Some? ==> Member(v, key) == Get(v, key).value
    ensures Get(v, key).None? ==> Member(v, key) == Null
  {
  }

  lemma NothingInNull(key: string)
    ensures Get(Null, key).None?
  {
  }

  lemma FareStated(flight: Value, kind: string, price: Price)
    requires States(FareOf(flight, kind), price)
    ensures GetIn(flight, [Name("passengerFares"), Name(kind), Name(KeyOf(price))]) == Some(PriceIn(FareOf(flight, kind), price))
  {
    var root := "passengerFares";
    GetThree(flight, Name(root), Name(kind), Name(KeyOf(price)));
    MemberChild(flight, root);
    MemberChild(Member(flight, root), kind);
    MemberChild(FareOf(flight, kind), KeyOf(price));
    NothingInNull(kind);
    NothingInNull(KeyOf(price));
    hide GetIn, Child, Get, Member, KeyOf;
  }

  lemma ComponentStated(flight: Value, price: Price)
    requires States(ComponentOf(flight), price)
    ensures GetIn(flight, [Name("bookingComponents"), At(0), Name(KeyOf(price))]) == Some(PriceIn(ComponentOf(flight), price))
  {
    var root := "bookingComponents";
    GetThree(flight, Name(root), At(0), Name(KeyOf(price)));
    MemberChild(flight, root);
    MemberChild(ComponentOf(flight), KeyOf(price));
    NothingInNull(KeyOf(price));
    hide GetIn, Get, Member, KeyOf;
  }

  lemma TotalStated(flight: Value)
    requires States(flight, Total)
    ensures GetIn(flight, [Name("totalPrice")]) == Some(PriceIn(flight, Total))
  {
    var key := "totalPrice";
    assert [Name(key)][1..] == [];
    var child := Child(flight, Name(key)).value;
    assert GetIn(child, []) == Some(child);
  }

  // A stated price is found in the response at its place.
  predicate StatedAt(flight: Value, place: Place) {
    match place
    case FarePlace(kind, price) => States(FareOf(flight, kind), price)
    case TotalPlace => States(flight, Total)
    case ComponentPlace(price) => States(ComponentOf(flight), price)
  }

  function PriceAt(fare: Value, place: Place): Value {
    match place
    case FarePlace(kind, price) => PriceIn(FareOf(fare, kind), price)
    case TotalPlace => PriceIn(fare, Total)
    case ComponentPlace(price) => PriceIn(ComponentOf(fare), price)
  }

  lemma PlaceResolves(body: Value, flight: Value, place: Place)
    requires Carries(body, flight) && StatedAt(flight, place)
    ensures GetIn(body, PathOf(place)) == Some(PriceAt(flight, place))
  {
    var prefix: Path := [Name("item1"), Name("flightInfo")];
    GetInThrough(body, prefix, PathOf(place)[2..]);
    assert PathOf(place) == prefix + PathOf(place)[2..];
    match place
    case FarePlace(kind, price) => FareStated(flight, kind, price);
    case TotalPlace => TotalStated(flight);
    case ComponentPlace(price) => ComponentStated(flight, price);
    hide GetIn, States, KeyOf;
  }

  lemma {:induction false} PassengerWritesResolve(body: Value, flight: Value, selling: Value, counts: seq<Field>)
    requires Carries(body, flight)
    ensures forall w :: w in PassengerWrites(flight, selling, counts) ==> GetIn(body, w.0).Some?
  {
    if counts != [] {
      var n := |counts| - 1;
      PassengerWritesResolve(body, flight, selling, counts[..n]);
      KindWritesResolve(body, flight, selling, counts[n].key);
    }
    hide GetIn, KindWrites, Carries;
  }

  lemma KindWritesResolve(body: Value, flight: Value, selling: Value, kind: string)
    requires Carries(body, flight)
    ensures forall w :: w in KindWrites(flight, selling, kind) ==> GetIn(body, w.0).Some?
  {
    if States(FareOf(flight, kind), Total) {
      PlaceResolves(body, flight, FarePlace(kind, Total));
    }
    if States(FareOf(flight, kind), Discount) {
      PlaceResolves(body, flight, FarePlace(kind, Discount));
    }
    hide GetIn, PathOf, States, FareOf, Carries;
  }

  lemma FlightWritesResolve(body: Value, flight: Value, selling: Value)
    requires Carries(body, flight)
    ensures forall w :: w in FlightWrites(flight, selling) ==> GetIn(body, w.0).Some?
  {
    if States(flight, Total) {
      PlaceResolves(body, flight, TotalPlace);
    }
    if States(ComponentOf(flight), Total) {
      PlaceResolves(body, flight, ComponentPlace(Total));
    }
    if States(ComponentOf(flight), Discount) {
      PlaceResolves(body, flight, ComponentPlace(Discount));
    }
    hide GetIn, PathOf, States, ComponentOf, Carries;
  }

  lemma BodyCarries(body: Value)
    requires Get(Member(body, "item1"), "flightInfo").Some?
    ensures Carries(body, Get(Member(body, "item1"), "flightInfo").value)
  {
    var outer, inner := "item1", "flightInfo";
    MemberChild(body, outer);
    NothingInNull(inner);
    var path: Path := [Name(outer), Name(inner)];
    assert path[1..] == [Name(inner)] && [Name(inner)][1..] == [];
    var flight := Get(Member(body, outer), inner).value;
    assert GetIn(flight, []) == Some(flight);
    assert GetIn(Member(body, outer), [Name(inner)]) == Some(flight);
    hide Member;
  }

  // Every price of the answer that is projected shows its selling value, and everything apart from
  // those prices is what the supplier sent.
  lemma OnlyPricesShown(body: Value, original: Value, selling: Value, i: nat, other: Path)
    requires Projected(body, original, selling).Some? && Get(Member(body, "item1"), "flightInfo").Some?
    requires DistinctKeys(Members(Member(original, "passengerCounts")))
    ensures var writes := Writes(Get(Member(body, "item1"), "flightInfo").value, original, selling);
            var shown := Projected(body, original, selling).value;
            && (i < |writes| ==> GetIn(shown, writes[i].0) == Some(writes[i].1))
            && ((forall k :: 0 <= k < |writes| ==> Apart(writes[k].0, other)) ==> GetIn(shown, other) == GetIn(body, other))
  {
    var flight := Get(Member(body, "item1"), "flightInfo").value;
    var counts := Members(Member(original, "passengerCounts"));
    var writes := Writes(flight, original, selling);
    BodyCarries(body);
    WritesApart(flight, original, selling);
    PassengerWritesResolve(body, flight, selling, counts);
    FlightWritesResolve(body, flight, selling);
    hide GetIn, Apart, AllApart, PassengerWrites, FlightWrites, FlightAccepted, Carries, Member, Get;
    forall k | 0 <= k < |writes| ensures GetIn(body, writes[k].0).Some? {
      assert writes[k] in writes;
    }
    if i < |writes| {
      WritesTakeEffect(body, writes, i);
    }
    if forall k :: 0 <= k < |writes| ==> Apart(writes[k].0, other) {
      WritesLeave(body, writes, other);
    }
  }

  lemma {:induction false} KindIsWritten(flight: Value, selling: Value, counts: seq<Field>, k: nat, price: Price) returns (i: nat)
    requires k < |counts| && AsU64(counts[k].value) != Some(0) && (price == Total || price == Discount)
    requires States(FareOf(flight, counts[k].key), price)
    ensures i < |PassengerWrites(flight, selling, counts)|
    ensures PassengerWrites(flight, selling, counts)[i] ==
            (PathOf(FarePlace(counts[k].key, price)), PriceIn(FareOf(selling, counts[k].key), price))
  {
    hide PathOf, States, FareOf, PriceIn, KindWrites, KeyOf, AsU64;
    var n := |counts| - 1;
    var earlier := PassengerWrites(flight, selling, counts[..n]);
    if k < n {
      i := KindIsWritten(flight, selling, counts[..n], k, price);
    } else {
      var kind := counts[k].key;
      var place := KindWriteAt(flight, selling, kind, price);
      i := |earlier| + place;
    }
  }

  lemma KindWriteAt(flight: Value, selling: Value, kind: string, price: Price) returns (i: nat)
    requires (price == Total || price == Discount) && States(FareOf(flight, kind), price)
    ensures i < |KindWrites(flight, selling, kind)|
    ensures KindWrites(flight, selling, kind)[i] == (PathOf(FarePlace(kind, price)), PriceIn(FareOf(selling, kind), price))
  {
    i := if price == Discount && States(FareOf(flight, kind), Total) then 1 else 0;
    hide PathOf, States, FareOf, PriceIn, KeyOf;
  }

  // Which prices the projection replaces: total and discount of the counted kinds and of the
  // component, and the fare's total.
  predicate Replaces(place: Place, counts: seq<Field>) {
    match place
    case FarePlace(kind, price) => Shown(price) && Counted(counts, kind)
    case TotalPlace => true
    case ComponentPlace(price) => Shown(price)
  }

  lemma FlightPlaceWritten(flight: Value, selling: Value, place: Place) returns (i: nat)
    requires !place.FarePlace? && Replaces(place, []) && StatedAt(flight, place)
    ensures i < |FlightWrites(flight, selling)|
    ensures FlightWrites(flight, selling)[i] == (PathOf(place), PriceAt(selling, place))
  {
    hide PathOf, States, ComponentOf, PriceIn, KeyOf;
    var total := if States(flight, Total) then 1 else 0;
    var component := if States(ComponentOf(flight), Total) then 1 else 0;
    i := if place.TotalPlace? then 0 else if place.price == Total then total else total + component;
  }

  lemma PlaceWritten(flight: Value, original: Value, selling: Value, place: Place) returns (i: nat)
    requires Replaces(place, Members(Member(original, "passengerCounts"))) && StatedAt(flight, place)
    ensures i < |Writes(flight, original, selling)|
    ensures Writes(flight, original, selling)[i] == (PathOf(place), PriceAt(selling, place))
  {
    var counts := Members(Member(original, "passengerCounts"));
    hide PathOf, States, FareOf, PriceIn, KeyOf, AsU64, PassengerWrites, FlightWrites, ComponentOf;
    if place.FarePlace? {
      var k :| 0 <= k < |counts| && counts[k].key == place.kind && AsU64(counts[k].value) != Some(0);
      i := KindIsWritten(flight, selling, counts, k, place.price);
    } else {
      var later := FlightPlaceWritten(flight, selling, place);
      i := |PassengerWrites(flight, selling, counts)| + later;
    }
  }

  lemma WritesLeavePlace(flight: Value, original: Value, selling: Value, place: Place)
    requires DistinctKeys(Members(Member(original, "passengerCounts")))
    requires !Replaces(place, Members(Member(original, "passengerCounts")))
    ensures forall k :: 0 <= k < |Writes(flight, original, selling)| ==> Apart(Writes(flight, original, selling)[k].0, PathOf(place))
  {
    var counts := Members(Member(original, "passengerCounts"));
    var writes := Writes(flight, original, selling);
    PassengerWritesApart(flight, selling, counts);
    FlightWritesApart(flight, selling);
    hide PathOf, Apart, AllApart, PassengerWrites, FlightWrites, Counted, DistinctKeys;
    forall k | 0 <= k < |writes| ensures Apart(writes[k].0, PathOf(place)) {
      var passengers := PassengerWrites(flight, selling, counts);
      if k < |passengers| {
        assert writes[k] in passengers;
        var kind, price :| Counted(counts, kind) && Shown(price) && writes[k].0 == PathOf(FarePlace(kind, price));
        PlacesApart(FarePlace(kind, price), place);
      } else {
        assert writes[k] in FlightWrites(flight, selling);
        var other := if writes[k].0 == PathOf(TotalPlace) then TotalPlace
                     else if writes[k].0 == PathOf(ComponentPlace(Total)) then ComponentPlace(Total) else ComponentPlace(Discount);
        PlacesApart(other, place);
      }
    }
  }

  // Every price the answer states, exactly: a replaced one shows the selling value, and the
  // supplier's survives everywhere else, in particular under kinds that are not counted.
  lemma ShownPrice(body: Value, original: Value, selling: Value, place: Place)
    requires Projected(body, original, selling).Some? && Get(Member(body, "item1"), "flightInfo").Some?
    requires DistinctKeys(Members(Member(original, "passengerCounts")))
    requires StatedAt(Get(Member(body, "item1"), "flightInfo").value, place)
    ensures var flight := Get(Member(body, "item1"), "flightInfo").value;
            GetIn(Projected(body, original, selling).value, PathOf(place)) ==
            Some(PriceAt(if Replaces(place, Members(Member(original, "passengerCounts"))) then selling else flight, place))
    ensures Replaces(place, Members(Member(original, "passengerCounts"))) <==>
            match place
            case TotalPlace => true
            case ComponentPlace(price) => price == Total || price == Discount
            case FarePlace(kind, price) =>
              && (price == Total || price == Discount)
              && exists field :: field in Members(Member(original, "passengerCounts")) && field.key == kind && AsU64(field.value) != Some(0)
  {
    var flight := Get(Member(body, "item1"), "flightInfo").value;
    BodyCarries(body);
    PlaceResolves(body, flight, place);
    hide GetIn, PathOf, Projected, PassengerWrites, FlightWrites, Writes, Member, Get, StatedAt, PriceAt, Apart, Carries, DistinctKeys;
    if Replaces(place, Members(Member(original, "passengerCounts"))) {
      var i := PlaceWritten(flight, original, selling, place);
      OnlyPricesShown(body, original, selling, i, []);
    } else {
      WritesLeavePlace(flight, original, selling, place);
      OnlyPricesShown(body, original, selling, |Writes(flight, original, selling)|, PathOf(place));
    }
  }

  // Two answers accepted against one quote cost the same for every counted passenger kind.
  lemma AcceptedAnswersAgree(a: Value, b: Value, original: Value, k: nat)
    requires FlightAccepted(a, original) && FlightAccepted(b, original)
    requires k < |Members(Member(original, "passengerCounts"))|
    requires AsU64(Members(Member(original, "passengerCounts"))[k].value) != Some(0)
    ensures var kind := Members(Member(original, "passengerCounts"))[k].key; SameAmounts(FareOf(a, kind), FareOf(b, kind))
    ensures SameAmounts(ComponentOf(a), ComponentOf(b))
  {
    KindAgrees(a, b, original, k);
    AmountsAgree(ComponentOf(a), ComponentOf(b), ComponentOf(original));
    hide SameItinerary, FareOf, ComponentOf, SameAmounts, KindAccepted, AggregateAccepted;
  }

  lemma KindAgrees(a: Value, b: Value, original: Value, k: nat)
    requires FlightAccepted(a, original) && FlightAccepted(b, original)
    requires k < |Members(Member(original, "passengerCounts"))|
    requires AsU64(Members(Member(original, "passengerCounts"))[k].value) != Some(0)
    ensures var kind := Members(Member(original, "passengerCounts"))[k].key; SameAmounts(FareOf(a, kind), FareOf(b, kind))
  {
    hide SameItinerary, FareOf, ComponentOf, SameAmounts, AggregateAccepted, AsU64;
    var count := Members(Member(original, "passengerCounts"))[k];
    assert KindAccepted(a, original, count) && KindAccepted(b, original, count);
    AmountsAgree(FareOf(a, count.key), FareOf(b, count.key), FareOf(original, count.key));
  }

  lemma AmountsAgree(a: Value, b: Value, quoted: Value)
    ensures SameAmounts(a, quoted) && SameAmounts(b, quoted) ==> SameAmounts(a, b)
  {
    hide Money, PriceIn;
  }
}
