// The pricing scope of an offer (src/search.rs journey_context and matching_context): the airline and
// route that markup rules are matched against, or a refusal where they cannot be told.
module JourneyContext {
  import opened Wrappers
  import opened Json
  import Pricing

  datatype Route = Route(origin: string, destination: string)
  datatype Context = Context(carrier: string, origin: string, destination: string)
  datatype Failure = ScopeUnresolved

  // `v[i]` on a tree: anything but an array with that index reads as null.
  function ItemAt(v: Value, i: nat): Value {
    if v.Array? && i < |v.items| then v.items[i] else Null
  }

  predicate CarrierCode(code: string) {
    |code| == 2 && forall i :: 0 <= i < 2 ==> 'A' <= code[i] <= 'Z' || '0' <= code[i] <= '9'
  }

  function FirstAirline(option: Value): Option<string> {
    AsText(Member(ItemAt(Member(option, "segments"), 0), "airlineCode"))
  }

  // The airline every first-route option starts with, if they agree on a well-formed one.
  function Carrier(options: seq<Value>): Option<string>
    requires options != []
  {
    var first := FirstAirline(options[0]);
    if first.Some? && CarrierCode(first.value) && (forall i :: 0 <= i < |options| ==> FirstAirline(options[i]) == first)
    then first
    else None
  }

  predicate Named(v: Value) {
    v.Text? && v.text != ""
  }

  // The option flies the requested route without a gap.
  predicate Flies(option: Value, route: Route) {
    var segments := Member(option, "segments");
    && segments.Array? && segments.items != []
    && Member(option, "from") == Text(route.origin)
    && Member(option, "to") == Text(route.destination)
    && Member(segments.items[0], "from") == Text(route.origin)
    && Member(segments.items[|segments.items| - 1], "to") == Text(route.destination)
    && (forall i :: 0 <= i < |segments.items| ==>
          Named(Member(segments.items[i], "from")) && Named(Member(segments.items[i], "to")))
    && (forall i, j {:trigger segments.items[i], segments.items[j]} :: 0 <= i < |segments.items| && 0 <= j < |segments.items| && j == i + 1 ==>
          Member(segments.items[i], "to") == Member(segments.items[j], "from"))
  }

  predicate GroupFlies(group: Value, route: Route) {
    group.Array? && group.items != [] && forall i :: 0 <= i < |group.items| ==> Flies(group.items[i], route)
  }

  function Journey(offer: Value, routes: seq<Route>, rules: seq<Pricing.Rule>): Option<Context> {
    var groups := Member(offer, "directions");
    if routes == [] || !groups.Array? || |groups.items| != |routes| then None
    else if !(forall g :: 0 <= g < |routes| ==> GroupFlies(groups.items[g], routes[g])) then None
    else
      var carrier := Carrier(groups.items[0].items);
      if carrier.None? && (exists r :: 0 <= r < |rules| && rules[r].airline.Some?) then None
      else Some(Context(if carrier.Some? then carrier.value else "", routes[0].origin, routes[0].destination))
  }

  predicate Scoped(rules: seq<Pricing.Rule>) {
    exists r :: 0 <= r < |rules| && (rules[r].airline.Some? || rules[r].route.Some?)
  }

  function Matching(offer: Value, routes: seq<Route>, rules: seq<Pricing.Rule>): (context: Result<Context, Failure>)
    ensures context.Err? <==> Journey(offer, routes, rules).None? && Scoped(rules)
  {
    var journey := Journey(offer, routes, rules);
    if journey.Some? then Ok(journey.value)
    else if Scoped(rules) then Err(ScopeUnresolved)
    else Ok(Context("", "", ""))
  }

  // What the offer itself establishes about a scope: its airline when every option agrees on one,
  // and its route when every option flies it.
  ghost predicate Established(offer: Value, routes: seq<Route>, rules: seq<Pricing.Rule>, airline: string, route: (string, string)) {
    var journey := Journey(offer, routes, rules);
    journey.Some? ==>
      && (journey.value.carrier != "" ==> airline == journey.value.carrier)
      && route == (journey.value.origin, journey.value.destination)
  }

  lemma CarrierNotEmpty(options: seq<Value>)
    requires options != []
    ensures Carrier(options).Some? ==> Carrier(options).value != "" && forall i :: 0 <= i < |options| ==> FirstAirline(options[i]) == Carrier(options)
  {
  }

  // A rule covers the same offers under every scope the offer allows.
  lemma CoversAgree(offer: Value, routes: seq<Route>, rules: seq<Pricing.Rule>, airline: string, route: (string, string), r: nat)
    requires Matching(offer, routes, rules).Ok? && Established(offer, routes, rules, airline, route) && r < |rules|
    ensures var context := Matching(offer, routes, rules).value;
            Pricing.Covers(rules[r], airline, route) <==>
            Pricing.Covers(rules[r], context.carrier, (context.origin, context.destination))
  {
    var journey := Journey(offer, routes, rules);
    if journey.Some? {
      CarrierNotEmpty(Member(offer, "directions").items[0].items);
    } else {
      assert rules[r].airline.None? && rules[r].route.None?;
    }
    hide Carrier, GroupFlies;
  }

  // The price never rests on a guessed scope: whatever the airline and route really are, as far as
  // the offer leaves them open, the same rule is resolved.
  lemma ScopeIsNeverGuessed(offer: Value, routes: seq<Route>, rules: seq<Pricing.Rule>, audience: Pricing.Audience,
                            airline: string, route: (string, string), winner: nat)
    requires Matching(offer, routes, rules).Ok? && Established(offer, routes, rules, airline, route)
    ensures var context := Matching(offer, routes, rules).value;
            Pricing.Resolves(rules, audience, airline, route, winner) <==>
            Pricing.Resolves(rules, audience, context.carrier, (context.origin, context.destination), winner)
  {
    forall r | 0 <= r < |rules|
      ensures var context := Matching(offer, routes, rules).value;
              Pricing.Applies(rules[r], audience, airline, route) <==>
              Pricing.Applies(rules[r], audience, context.carrier, (context.origin, context.destination))
    {
      CoversAgree(offer, routes, rules, airline, route, r);
    }
    hide Matching, Established, Pricing.Applies, Pricing.Specificity;
  }

  // The airports of an option in the order it visits them.
  ghost predicate Visits(option: Value, stops: seq<string>) {
    var segments := Member(option, "segments");
    && segments.Array? && segments.items != [] && |stops| == |segments.items| + 1
    && (forall k :: 0 <= k < |stops| ==> stops[k] != "")
    && (forall k :: 0 <= k < |segments.items| ==> Leg(segments.items[k], stops, k))
  }

  predicate Leg(segment: Value, stops: seq<string>, k: nat)
    requires k + 1 < |stops|
  {
    Member(segment, "from") == Text(stops[k]) && Member(segment, "to") == Text(stops[k + 1])
  }

  ghost predicate VisitsBetween(option: Value, stops: seq<string>, route: Route) {
    Visits(option, stops) && stops[0] == route.origin && stops[|stops| - 1] == route.destination
  }

  ghost predicate IsTrip(option: Value, route: Route) {
    exists stops :: VisitsBetween(option, stops, route)
  }

  function StopText(v: Value): string {
    if v.Text? then v.text else ""
  }

  function StopsOf(segments: seq<Value>): (stops: seq<string>)
    requires segments != []
    ensures |stops| == |segments| + 1
    ensures stops[0] == StopText(Member(segments[0], "from"))
    ensures forall k :: 0 <= k < |segments| ==> stops[k + 1] == StopText(Member(segments[k], "to"))
  {
    [StopText(Member(segments[0], "from"))] +
    seq(|segments|, k requires 0 <= k < |segments| => StopText(Member(segments[k], "to")))
  }

  lemma FliesAt(option: Value, route: Route, k: nat)
    requires Flies(option, route) && k < |Member(option, "segments").items|
    ensures var segments := Member(option, "segments").items;
            && Named(Member(segments[k], "from")) && Named(Member(segments[k], "to"))
            && (k > 0 ==> Member(segments[k - 1], "to") == Member(segments[k], "from"))
  {
    var segments := Member(option, "segments").items;
    if k > 0 {
      assert Member(segments[k - 1], "to") == Member(segments[k], "from");
    }
    hide Member, Named;
  }

  lemma FliesVisits(option: Value, route: Route)
    requires Flies(option, route)
    ensures IsTrip(option, route)
  {
    var segments := Member(option, "segments").items;
    var stops := StopsOf(segments);
    hide Member, StopsOf;
    assert stops[0] == route.origin && stops[|segments|] == route.destination;
    hide Flies;
    forall k | 0 <= k < |segments| ensures Leg(segments[k], stops, k) && stops[k + 1] != "" && (k == 0 ==> stops[0] != "") {
      FliesAt(option, route, k);
    }
    assert forall k :: 0 <= k < |stops| ==> stops[k] != "" by {
      forall k | 0 <= k < |stops| ensures stops[k] != "" {
        assert k > 0 ==> stops[(k - 1) + 1] != "";
      }
      hide Leg;
    }
    hide Leg;
    assert VisitsBetween(option, stops, route);
  }

  lemma VisitsFlies(option: Value, route: Route, stops: seq<string>)
    requires VisitsBetween(option, stops, route)
    requires Member(option, "from") == Text(route.origin) && Member(option, "to") == Text(route.destination)
    ensures Flies(option, route)
  {
    var segments := Member(option, "segments").items;
    forall i | 0 <= i < |segments| ensures Named(Member(segments[i], "from")) && Named(Member(segments[i], "to")) {
      assert Leg(segments[i], stops, i);
    }
    forall i, j {:trigger segments[i], segments[j]} | 0 <= i < |segments| && 0 <= j < |segments| && j == i + 1
      ensures Member(segments[i], "to") == Member(segments[j], "from")
    {
      assert Leg(segments[i], stops, i) && Leg(segments[j], stops, j);
    }
    assert Leg(segments[0], stops, 0) && Leg(segments[|segments| - 1], stops, |segments| - 1);
    hide Member, Leg;
  }

  // The checks on an option admit exactly a trip through named airports from the requested origin to
  // the requested destination, each segment starting where the last one ended.
  lemma FliesIffVisits(option: Value, route: Route)
    ensures Flies(option, route) <==>
              && Member(option, "from") == Text(route.origin) && Member(option, "to") == Text(route.destination)
              && IsTrip(option, route)
  {
    if Flies(option, route) {
      FliesVisits(option, route);
    }
    if Member(option, "from") == Text(route.origin) && Member(option, "to") == Text(route.destination) && IsTrip(option, route) {
      var stops :| VisitsBetween(option, stops, route);
      VisitsFlies(option, route, stops);
    }
    hide VisitsBetween;
  }

  // The options an offer gives for one route.
  function Options(offer: Value, g: nat): seq<Value> {
    var group := ItemAt(Member(offer, "directions"), g);
    if group.Array? then group.items else []
  }

  // An offer has a known journey only if it gives every route options and each is such a trip over its
  // route; the matched airline, if any, is the one every trip of the first route starts with.
  lemma MatchedScopeIsFlown(offer: Value, routes: seq<Route>, rules: seq<Pricing.Rule>, g: nat)
    requires Journey(offer, routes, rules).Some? && g < |routes|
    ensures Options(offer, g) != []
    ensures forall i :: 0 <= i < |Options(offer, g)| ==> IsTrip(Options(offer, g)[i], routes[g])
    ensures var context := Journey(offer, routes, rules).value;
            && context.origin == routes[0].origin && context.destination == routes[0].destination
            && (context.carrier != "" ==>
                  forall i :: 0 <= i < |Options(offer, 0)| ==> FirstAirline(Options(offer, 0)[i]) == Some(context.carrier))
  {
    var groups := Member(offer, "directions").items;
    CarrierNotEmpty(groups[0].items);
    assert GroupFlies(groups[g], routes[g]);
    forall i | 0 <= i < |Options(offer, g)| ensures IsTrip(Options(offer, g)[i], routes[g]) {
      FliesVisits(Options(offer, g)[i], routes[g]);
    }
    hide Carrier, Flies, IsTrip, Member, FirstAirline;
  }

  // The code every option of the first route starts with: two capitals or digits.
  ghost predicate StartsWith(offer: Value, code: string) {
    && Options(offer, 0) != [] && |code| == 2
    && (forall c :: c in code ==> 'A' <= c <= 'Z' || '0' <= c <= '9')
    && forall i :: 0 <= i < |Options(offer, 0)| ==>
         Member(ItemAt(Member(Options(offer, 0)[i], "segments"), 0), "airlineCode") == Text(code)
  }

  // The option states the route's ends and is a trip between them.
  ghost predicate TripOf(option: Value, route: Route) {
    Member(option, "from") == Text(route.origin) && Member(option, "to") == Text(route.destination) && IsTrip(option, route)
  }

  ghost predicate EveryRouteFlown(offer: Value, routes: seq<Route>) {
    && Member(offer, "directions").Array? && |Member(offer, "directions").items| == |routes|
    && forall g :: 0 <= g < |routes| ==> RouteServed(Options(offer, g), routes[g])
  }

  ghost predicate RouteServed(options: seq<Value>, route: Route) {
    options != [] && forall i :: 0 <= i < |options| ==> TripOf(options[i], route)
  }

  lemma FlownIsServed(offer: Value, routes: seq<Route>, g: nat)
    requires Member(offer, "directions").Array? && |Member(offer, "directions").items| == |routes| && g < |routes|
    ensures GroupFlies(Member(offer, "directions").items[g], routes[g]) <==> RouteServed(Options(offer, g), routes[g])
  {
    var group := Member(offer, "directions").items[g];
    if group.Array? {
      forall i | 0 <= i < |group.items| ensures Flies(group.items[i], routes[g]) <==> TripOf(group.items[i], routes[g]) {
        FliesIffVisits(group.items[i], routes[g]);
      }
    }
    hide Flies, TripOf, Member;
  }

  lemma CodeLetters(code: string)
    ensures CarrierCode(code) <==> |code| == 2 && forall c :: c in code ==> 'A' <= c <= 'Z' || '0' <= c <= '9'
  {
    if |code| == 2 {
      assert code[0] in code && code[1] in code;
    }
  }

  lemma CarrierIsStart(offer: Value)
    requires Options(offer, 0) != []
    ensures Carrier(Options(offer, 0)).Some? <==> exists code :: StartsWith(offer, code)
    ensures forall code :: StartsWith(offer, code) ==> Carrier(Options(offer, 0)) == Some(code)
  {
    var options := Options(offer, 0);
    hide Options, Member, ItemAt;
    forall code ensures StartsWith(offer, code) <==> Carrier(options) == Some(code) {
      CodeLetters(code);
      if StartsWith(offer, code) {
        forall i | 0 <= i < |options| ensures FirstAirline(options[i]) == Some(code) {
        }
      }
      if Carrier(options) == Some(code) {
        forall i | 0 <= i < |options|
          ensures Member(ItemAt(Member(options[i], "segments"), 0), "airlineCode") == Text(code)
        {
          assert FirstAirline(options[i]) == Some(code);
        }
      }
    }
    if Carrier(options).Some? {
      assert StartsWith(offer, Carrier(options).value);
    }
  }

  // A journey is known exactly when every route is flown by all its options and, if some rule names an
  // airline, they all start the first route with one; that airline is then the one that is matched.
  lemma JourneyKnownIff(offer: Value, routes: seq<Route>, rules: seq<Pricing.Rule>)
    ensures var journey := Journey(offer, routes, rules);
            && (journey.Some? <==>
                  && routes != [] && EveryRouteFlown(offer, routes)
                  && ((exists code :: StartsWith(offer, code)) || forall r :: 0 <= r < |rules| ==> rules[r].airline.None?))
            && (journey.Some? ==>
                  && journey.value.origin == routes[0].origin && journey.value.destination == routes[0].destination
                  && (forall code :: StartsWith(offer, code) ==> journey.value.carrier == code)
                  && ((forall code :: !StartsWith(offer, code)) ==> journey.value.carrier == ""))
            && (journey.Some? ==> Matching(offer, routes, rules) == Ok(journey.value))
            && (journey.None? && Matching(offer, routes, rules).Ok? ==> Matching(offer, routes, rules).value == Context("", "", ""))
  {
    hide GroupFlies, RouteServed, StartsWith, Carrier, Scoped;
    var groups := Member(offer, "directions");
    if routes != [] && groups.Array? && |groups.items| == |routes| {
      forall g | 0 <= g < |routes| ensures GroupFlies(groups.items[g], routes[g]) <==> RouteServed(Options(offer, g), routes[g]) {
        FlownIsServed(offer, routes, g);
      }
      if GroupFlies(groups.items[0], routes[0]) {
        FliesHasOptions(groups.items[0], routes[0]);
        CarrierIsStart(offer);
      }
    }
  }

  lemma FliesHasOptions(group: Value, route: Route)
    requires GroupFlies(group, route)
    ensures group.Array? && group.items != []
  {
    hide Flies;
  }
}
