// A supplier's RePrice answer (src/reprice.rs reprice and valid_routes, src/search.rs matches_passengers,
// src/reprice_selection.rs matches_flights): whether it is about the offer, the search and the selected
// flights it was asked for.
module RepriceAnswer {
  import opened Wrappers
  import opened Json
  import opened RepriceSelection
  import HeldFare
  import JourneyContext

  // What a Search asked for.
  datatype Travel = Travel(routes: seq<JourneyContext.Route>, adults: nat, childs: nat, infants: nat)

  predicate MatchesPassengers(fare: Value, travel: Travel) {
    var counts := Member(fare, "passengerCounts");
    && AsU64(Member(counts, "adt")) == Some(travel.adults)
    && AsU64(Member(counts, "inf")) == Some(travel.infants)
    && AsU64(Member(counts, "ins")) == Some(0)
    && AsU64(Member(counts, "chd")).Some? && AsU64(Member(counts, "cnn")).Some?
    && AsU64(Member(counts, "chd")).value + AsU64(Member(counts, "cnn")).value == travel.childs
  }

  predicate Connected(segments: seq<Value>) {
    forall i, j {:trigger segments[i], segments[j]} :: 0 <= i < |segments| && 0 <= j < |segments| && j == i + 1 ==>
      Member(segments[i], "to") == Member(segments[j], "from")
  }

  predicate RouteFlown(option: Value, route: JourneyContext.Route) {
    var segments := Member(option, "segments");
    && segments.Array? && segments.items != []
    && Member(segments.items[0], "from") == Text(route.origin)
    && Member(segments.items[|segments.items| - 1], "to") == Text(route.destination)
    && Connected(segments.items)
  }

  predicate RouteOffered(group: Value, route: JourneyContext.Route) {
    group.Array? && group.items != [] && forall i :: 0 <= i < |group.items| ==> RouteFlown(group.items[i], route)
  }

  predicate ValidRoutes(fare: Value, routes: seq<JourneyContext.Route>) {
    var groups := Member(fare, "directions");
    groups.Array? && |groups.items| == |routes| && forall g :: 0 <= g < |routes| ==> RouteOffered(groups.items[g], routes[g])
  }

  // A departure may separate date and time by either character.
  function Spaced(text: string): (spaced: string)
    ensures |spaced| == |text|
    ensures forall i :: 0 <= i < |text| ==> spaced[i] == if text[i] == 'T' then ' ' else text[i]
  {
    seq(|text|, i requires 0 <= i < |text| => if text[i] == 'T' then ' ' else text[i])
  }

  predicate SameText(a: Value, b: Value) {
    a.Text? && a.text != "" && b == a
  }

  predicate SameDeparture(a: Value, b: Value) {
    a.Text? && b.Text? && a.text != "" && b.text != "" && Spaced(a.text) == Spaced(b.text)
  }

  predicate FlownAs(actual: Value, expected: Value) {
    && SameText(Member(actual, "from"), Member(expected, "from"))
    && SameText(Member(actual, "to"), Member(expected, "to"))
    && SameText(Member(actual, "airlineCode"), Member(expected, "airlineCode"))
    && SameText(Member(actual, "flightNumber"), Member(expected, "flightNumber"))
    && SameDeparture(Member(actual, "departure"), Member(expected, "departure"))
  }

  predicate AllFlown(actual: seq<Value>, expected: seq<Value>) {
    |actual| == |expected| && forall i :: 0 <= i < |actual| ==> FlownAs(actual[i], expected[i])
  }

  // The only option of a route is the selected one.
  predicate OptionFlown(group: Value, selected: Value) {
    && group.Array? && |group.items| == 1 && Member(group.items[0], "segments").Array?
    && Member(JourneyContext.ItemAt(selected, 0), "segments").Array?
    && AllFlown(Member(group.items[0], "segments").items, Member(JourneyContext.ItemAt(selected, 0), "segments").items)
  }

  predicate MatchesFlights(fare: Value, directions: seq<Value>) {
    var groups := Member(fare, "directions");
    && groups.Array? && |groups.items| == |directions|
    && forall g :: 0 <= g < |directions| ==> OptionFlown(groups.items[g], directions[g])
  }

  datatype Refusal =
    | PassengerMismatch | ItineraryMismatch | ResponseInvalid | CurrencyMismatch | BrandedFareUnsupported | ReferenceMissing

  predicate Referenced(fare: Value, key: string) {
    Member(fare, key).Text? && Member(fare, key).text != ""
  }

  // offer: the supplier's own offer the price is asked for.
  function RefusalOf(fare: Value, offer: Value, currency: string, travel: Travel, directions: seq<Value>): Option<Refusal> {
    if !MatchesPassengers(fare, travel) || Member(fare, "passengerCounts") != Member(offer, "passengerCounts")
    then Some(PassengerMismatch)
    else if !ValidRoutes(fare, travel.routes) || !MatchesFlights(fare, directions) ||
            Member(fare, "platingCarrier") != Member(offer, "platingCarrier")
    then Some(ItineraryMismatch)
    else if !Member(fare, "isPriceChanged").Bool? || !Member(fare, "bookable").Bool? || !Member(fare, "refundable").Bool?
    then Some(ResponseInvalid)
    else if Member(fare, "currency") != Text(currency) then Some(CurrencyMismatch)
    else if Member(fare, "brandedFares").Array? && Member(fare, "brandedFares").items != [] then Some(BrandedFareUnsupported)
    else if !Referenced(fare, "uniqueTransID") || !Referenced(fare, "itemCodeRef") || !Referenced(fare, "priceCodeRef")
    then Some(ReferenceMissing)
    else None
  }

  // ---- The same three comparisons, told differently -----------------------------------------------------

  // Some way to tell older and younger children apart gives every kind its count.
  ghost predicate CountedAs(fare: Value, travel: Travel) {
    exists chd: nat, cnn: nat :: chd + cnn == travel.childs && HasCounts(fare, travel.adults, chd, cnn, travel.infants)
  }

  predicate HasCounts(fare: Value, adt: nat, chd: nat, cnn: nat, inf: nat) {
    var counts := Member(fare, "passengerCounts");
    && AsU64(Member(counts, "adt")) == Some(adt) && AsU64(Member(counts, "chd")) == Some(chd)
    && AsU64(Member(counts, "cnn")) == Some(cnn) && AsU64(Member(counts, "inf")) == Some(inf) && AsU64(Member(counts, "ins")) == Some(0)
  }

  lemma CountsTold(fare: Value, travel: Travel)
    ensures MatchesPassengers(fare, travel) <==> CountedAs(fare, travel)
  {
    hide AsU64, Member;
    var counts := Member(fare, "passengerCounts");
    if MatchesPassengers(fare, travel) {
      assert HasCounts(fare, travel.adults, AsU64(Member(counts, "chd")).value, AsU64(Member(counts, "cnn")).value, travel.infants);
    }
  }

  // The segments lead from stop to stop.
  ghost predicate Calls(segments: seq<Value>, stops: seq<Value>) {
    && |stops| == |segments| + 1
    && forall i :: 0 <= i < |segments| ==> Member(segments[i], "from") == stops[i] && Member(segments[i], "to") == stops[i + 1]
  }

  ghost predicate Reaches(option: Value, route: JourneyContext.Route, stops: seq<Value>) {
    && Member(option, "segments").Array? && |stops| > 1 && Calls(Member(option, "segments").items, stops)
    && stops[0] == Text(route.origin) && stops[|stops| - 1] == Text(route.destination)
  }

  ghost predicate Trip(option: Value, route: JourneyContext.Route) {
    exists stops :: Reaches(option, route, stops)
  }

  lemma RouteTold(option: Value, route: JourneyContext.Route)
    ensures RouteFlown(option, route) <==> Trip(option, route)
  {
    hide Member;
    var segments := Member(option, "segments");
    if RouteFlown(option, route) {
      var n := |segments.items|;
      var stops := seq(n + 1, i requires 0 <= i <= n =>
        if i < n then Member(segments.items[i], "from") else Member(segments.items[n - 1], "to"));
      forall i | 0 <= i < n
        ensures Member(segments.items[i], "from") == stops[i] && Member(segments.items[i], "to") == stops[i + 1]
      {
        if i + 1 < n {
          assert Member(segments.items[i], "to") == Member(segments.items[i + 1], "from");
        }
      }
      assert Reaches(option, route, stops);
    }
  }

  // As many groups as routes, none empty, and each of their options a trip from stop to stop.
  ghost predicate TripsOffered(fare: Value, routes: seq<JourneyContext.Route>) {
    var groups := Member(fare, "directions");
    && groups.Array? && |groups.items| == |routes|
    && forall g :: 0 <= g < |routes| ==> TripsIn(groups.items[g], routes[g])
  }

  ghost predicate TripsIn(group: Value, route: JourneyContext.Route) {
    group.Array? && group.items != [] && forall o :: 0 <= o < |group.items| ==> Trip(group.items[o], route)
  }

  lemma OfferedTold(group: Value, route: JourneyContext.Route)
    ensures RouteOffered(group, route) <==> TripsIn(group, route)
  {
    hide RouteFlown, Trip;
    forall option: Value ensures RouteFlown(option, route) <==> Trip(option, route) {
      RouteTold(option, route);
    }
  }

  lemma RoutesTold(fare: Value, routes: seq<JourneyContext.Route>)
    ensures ValidRoutes(fare, routes) <==> TripsOffered(fare, routes)
  {
    hide RouteOffered, TripsIn, Member;
    forall group: Value, route: JourneyContext.Route ensures RouteOffered(group, route) <==> TripsIn(group, route) {
      OfferedTold(group, route);
    }
  }

  // The same stated text under each of four names, and one departure written with a space or a T.
  ghost predicate SameFlight(actual: Value, expected: Value) {
    var a, b := Member(actual, "departure"), Member(expected, "departure");
    && (forall key :: key in ["from", "to", "airlineCode", "flightNumber"] ==>
          Member(actual, key).Text? && Member(actual, key).text != "" && Member(expected, key) == Member(actual, key))
    && a.Text? && b.Text? && |a.text| == |b.text| > 0
    && forall i :: 0 <= i < |a.text| ==> a.text[i] == b.text[i] || (a.text[i] in "T " && b.text[i] in "T ")
  }

  lemma FlownTold(actual: Value, expected: Value)
    ensures FlownAs(actual, expected) <==> SameFlight(actual, expected)
  {
    hide Member;
    var keys := ["from", "to", "airlineCode", "flightNumber"];
    assert |keys| == 4 && keys[0] in keys && keys[1] in keys && keys[2] in keys && keys[3] in keys;
    assert (forall key :: key in keys ==> SameText(Member(actual, key), Member(expected, key))) <==>
           SameText(Member(actual, "from"), Member(expected, "from")) && SameText(Member(actual, "to"), Member(expected, "to")) &&
           SameText(Member(actual, "airlineCode"), Member(expected, "airlineCode")) &&
           SameText(Member(actual, "flightNumber"), Member(expected, "flightNumber"));
    DepartureTold(Member(actual, "departure"), Member(expected, "departure"));
    hide SameDeparture;
  }

  lemma DepartureTold(a: Value, b: Value)
    ensures SameDeparture(a, b) <==>
            && a.Text? && b.Text? && |a.text| == |b.text| > 0
            && forall i :: 0 <= i < |a.text| ==> a.text[i] == b.text[i] || (a.text[i] in "T " && b.text[i] in "T ")
  {
    if a.Text? && b.Text? && |a.text| == |b.text| {
      if SameDeparture(a, b) {
        forall i | 0 <= i < |a.text| ensures a.text[i] == b.text[i] || (a.text[i] in "T " && b.text[i] in "T ") {
          assert Spaced(a.text)[i] == Spaced(b.text)[i];
        }
      }
    }
  }

  // Every route has one option, whose segments are in order the flights of the selected one.
  ghost predicate FliesSelected(fare: Value, directions: seq<Value>) {
    var groups := Member(fare, "directions");
    && groups.Array? && |groups.items| == |directions|
    && forall g :: 0 <= g < |directions| ==>
         && groups.items[g].Array? && |groups.items[g].items| == 1
         && var actual, expected := Member(groups.items[g].items[0], "segments"), Member(JourneyContext.ItemAt(directions[g], 0), "segments");
            && actual.Array? && expected.Array? && |actual.items| == |expected.items|
            && forall i :: 0 <= i < |actual.items| ==> SameFlight(actual.items[i], expected.items[i])
  }

  lemma FlightsTold(fare: Value, directions: seq<Value>)
    ensures MatchesFlights(fare, directions) <==> FliesSelected(fare, directions)
  {
    hide FlownAs, SameFlight, Member;
    forall actual: Value, expected: Value ensures FlownAs(actual, expected) <==> SameFlight(actual, expected) {
      FlownTold(actual, expected);
    }
  }

  // What a fare is compared with: the passengers and routes searched and the flights selected.
  lemma MatchesExactlyWhen(fare: Value, travel: Travel, directions: seq<Value>)
    ensures MatchesPassengers(fare, travel) <==> CountedAs(fare, travel)
    ensures ValidRoutes(fare, travel.routes) <==> TripsOffered(fare, travel.routes)
    ensures MatchesFlights(fare, directions) <==> FliesSelected(fare, directions)
  {
    CountsTold(fare, travel);
    RoutesTold(fare, travel.routes);
    FlightsTold(fare, directions);
    hide *;
  }

  // ---- What an accepted answer promises ------------------------------------------------------------------

  // The offer's passengers, airline and currency, the search's routes and the selected flights.
  predicate Confirms(fare: Value, offer: Value, currency: string, travel: Travel, directions: seq<Value>) {
    && MatchesPassengers(fare, travel) && Member(fare, "passengerCounts") == Member(offer, "passengerCounts")
    && ValidRoutes(fare, travel.routes) && MatchesFlights(fare, directions)
    && Member(fare, "platingCarrier") == Member(offer, "platingCarrier")
    && Member(fare, "currency") == Text(currency)
  }

  // Why a fare is refused, of several reasons the first, told from what is compared.
  function Reason(fare: Value, offer: Value, currency: string, travel: Travel, directions: seq<Value>): Option<Refusal> {
    var passengers := MatchesPassengers(fare, travel) && Member(fare, "passengerCounts") == Member(offer, "passengerCounts");
    var itinerary := && ValidRoutes(fare, travel.routes) && MatchesFlights(fare, directions)
                     && Member(fare, "platingCarrier") == Member(offer, "platingCarrier");
    var flags := Member(fare, "isPriceChanged").Bool? && Member(fare, "bookable").Bool? && Member(fare, "refundable").Bool?;
    var branded := Member(fare, "brandedFares").Array? && Member(fare, "brandedFares").items != [];
    if passengers && itinerary && flags && Member(fare, "currency") == Text(currency) && !branded then
      if Referenced(fare, "uniqueTransID") && Referenced(fare, "itemCodeRef") && Referenced(fare, "priceCodeRef")
      then None else Some(ReferenceMissing)
    else Some(if !passengers then PassengerMismatch else if !itinerary then ItineraryMismatch else if !flags then ResponseInvalid
              else if Member(fare, "currency") != Text(currency) then CurrencyMismatch else BrandedFareUnsupported)
  }

  lemma RefusedFor(fare: Value, offer: Value, currency: string, travel: Travel, directions: seq<Value>)
    ensures RefusalOf(fare, offer, currency, travel, directions) == Reason(fare, offer, currency, travel, directions)
  {
    hide MatchesPassengers, ValidRoutes, MatchesFlights, Member, Referenced;
  }

  // What else a fare has to state to be priced.
  predicate Complete(fare: Value) {
    && Member(fare, "isPriceChanged").Bool? && Member(fare, "bookable").Bool? && Member(fare, "refundable").Bool?
    && (Member(fare, "brandedFares").Array? ==> Member(fare, "brandedFares").items == [])
    && Referenced(fare, "uniqueTransID") && Referenced(fare, "itemCodeRef") && Referenced(fare, "priceCodeRef")
  }

  lemma AcceptedExactlyWhen(fare: Value, offer: Value, currency: string, travel: Travel, directions: seq<Value>)
    ensures RefusalOf(fare, offer, currency, travel, directions).None? <==>
            Confirms(fare, offer, currency, travel, directions) && Complete(fare)
  {
    hide MatchesPassengers, ValidRoutes, MatchesFlights, Member, Referenced;
  }

  // ---- From the quote to the answer of a booking -----------------------------------------------------------

  lemma {:induction false} OptionsListed(options: seq<Value>, i: nat)
    requires HeldFare.OptionsOf(options).Some? && i < |options|
    ensures |HeldFare.OptionsOf(options).value| == |options|
    ensures Member(options[i], "segments").Array?
    ensures HeldFare.OptionsOf(options).value[i] == HeldFare.FlightsOf(Member(options[i], "segments").items)
  {
    var n := |options| - 1;
    hide HeldFare.FlightsOf, Member;
    if i < n {
      OptionsListed(options[..n], i);
    } else if n > 0 {
      OptionsListed(options[..n], 0);
    }
  }

  lemma {:induction false} GroupsListed(groups: seq<Value>, g: nat)
    requires HeldFare.GroupsOf(groups).Some? && g < |groups|
    ensures |HeldFare.GroupsOf(groups).value| == |groups|
    ensures groups[g].Array? && HeldFare.OptionsOf(groups[g].items) == Some(HeldFare.GroupsOf(groups).value[g])
  {
    var n := |groups| - 1;
    hide HeldFare.OptionsOf;
    if g < n {
      GroupsListed(groups[..n], g);
    } else if n > 0 {
      GroupsListed(groups[..n], 0);
    }
  }

  // The same facts as a flight that is flown as selected.
  lemma SameFlightFlown(a: Value, b: Value, expected: Value)
    requires HeldFare.SameFlight(HeldFare.FlightOf(a), HeldFare.FlightOf(b)) && FlownAs(b, expected)
    ensures FlownAs(a, expected)
  {
    var x, y := HeldFare.FlightOf(a).facts, HeldFare.FlightOf(b).facts;
    assert x[0] == y[0] && x[1] == y[1] && x[2] == y[2] && x[3] == y[3] && x[4] == y[4];
    hide Member, Spaced, HeldFare.CabinsAgree;
  }

  lemma OptionCarried(a: Value, b: Value, x: HeldFare.Group, y: HeldFare.Group, selected: Value)
    requires a.Array? && b.Array? && HeldFare.OptionsOf(a.items) == Some(x) && HeldFare.OptionsOf(b.items) == Some(y)
    requires HeldFare.SameOptions(x, y) && OptionFlown(b, selected)
    ensures OptionFlown(a, selected)
  {
    hide HeldFare.OptionsOf, HeldFare.SameFlight, HeldFare.FlightOf, FlownAs, Member, JourneyContext.ItemAt;
    OptionsListed(b.items, 0);
    if a.items == [] {
      NoOptions(a.items);
      assert false;
    }
    OptionsListed(a.items, 0);
    assert |a.items| == |x| == |y| == |b.items| == 1;
    var actual, quoted := Member(a.items[0], "segments").items, Member(b.items[0], "segments").items;
    assert HeldFare.SameFlights(HeldFare.FlightsOf(actual), HeldFare.FlightsOf(quoted));
    var expected := Member(JourneyContext.ItemAt(selected, 0), "segments").items;
    forall i | 0 <= i < |actual| ensures FlownAs(actual[i], expected[i]) {
      assert HeldFare.SameFlight(HeldFare.FlightsOf(actual)[i], HeldFare.FlightsOf(quoted)[i]);
      SameFlightFlown(actual[i], quoted[i], expected[i]);
    }
  }

  lemma NoOptions(options: seq<Value>)
    requires options == []
    ensures HeldFare.OptionsOf(options) == Some([])
  {
  }

  lemma NoGroups(groups: seq<Value>)
    requires groups == []
    ensures HeldFare.GroupsOf(groups) == Some([])
  {
  }

  lemma GroupsCount(groups: seq<Value>)
    requires HeldFare.GroupsOf(groups).Some?
    ensures |HeldFare.GroupsOf(groups).value| == |groups|
  {
    if groups == [] {
      NoGroups(groups);
    } else {
      GroupsListed(groups, 0);
    }
  }

  // An answer with the itinerary of a fare that flies the selection flies it too.
  lemma SameItineraryFlies(a: Value, b: Value, directions: seq<Value>)
    requires HeldFare.SameItinerary(a, b) == Some(true) && MatchesFlights(b, directions)
    ensures MatchesFlights(a, directions)
  {
    var x, y := Member(a, "directions"), Member(b, "directions");
    hide HeldFare.GroupsOf, HeldFare.SameOptions, OptionFlown, Member;
    GroupsCount(x.items);
    GroupsCount(y.items);
    forall g | 0 <= g < |directions| ensures OptionFlown(x.items[g], directions[g]) {
      GroupsListed(x.items, g);
      GroupsListed(y.items, g);
      OptionCarried(x.items[g], y.items[g], HeldFare.GroupsOf(x.items).value[g], HeldFare.GroupsOf(y.items).value[g], directions[g]);
    }
  }

  // ---- The searched routes -----------------------------------------------------------------------------------

  lemma SameEnds(a: Value, b: Value)
    requires HeldFare.SameFlight(HeldFare.FlightOf(a), HeldFare.FlightOf(b))
    ensures Member(a, "from") == Member(b, "from") && Member(a, "to") == Member(b, "to")
  {
    var x, y := HeldFare.FlightOf(a).facts, HeldFare.FlightOf(b).facts;
    assert x[0] == y[0] && x[1] == y[1];
    hide Member, HeldFare.CabinsAgree;
  }

  lemma SameSegmentsRoute(a: Value, b: Value, route: JourneyContext.Route)
    requires Member(a, "segments").Array? && RouteFlown(b, route)
    requires HeldFare.SameFlights(HeldFare.FlightsOf(Member(a, "segments").items), HeldFare.FlightsOf(Member(b, "segments").items))
    ensures RouteFlown(a, route)
  {
    var x, y := Member(a, "segments").items, Member(b, "segments").items;
    hide Member, HeldFare.FlightOf, HeldFare.SameFlight;
    forall i | 0 <= i < |x| ensures Member(x[i], "from") == Member(y[i], "from") && Member(x[i], "to") == Member(y[i], "to") {
      assert HeldFare.SameFlight(HeldFare.FlightsOf(x)[i], HeldFare.FlightsOf(y)[i]);
      SameEnds(x[i], y[i]);
    }
  }

  lemma RouteCarried(a: Value, b: Value, x: HeldFare.Group, y: HeldFare.Group, route: JourneyContext.Route)
    requires a.Array? && b.Array? && HeldFare.OptionsOf(a.items) == Some(x) && HeldFare.OptionsOf(b.items) == Some(y)
    requires HeldFare.SameOptions(x, y) && RouteOffered(b, route)
    ensures RouteOffered(a, route)
  {
    hide HeldFare.OptionsOf, HeldFare.SameFlights, HeldFare.FlightsOf, RouteFlown, Member;
    OptionsListed(b.items, 0);
    if a.items == [] {
      NoOptions(a.items);
      assert false;
    }
    OptionsListed(a.items, 0);
    forall i | 0 <= i < |a.items| ensures RouteFlown(a.items[i], route) {
      OptionsListed(a.items, i);
      OptionsListed(b.items, i);
      assert HeldFare.SameFlights(x[i], y[i]);
      SameSegmentsRoute(a.items[i], b.items[i], route);
    }
  }

  // An answer with the itinerary of a fare for these routes is for these routes too.
  lemma SameItineraryRoutes(a: Value, b: Value, routes: seq<JourneyContext.Route>)
    requires HeldFare.SameItinerary(a, b) == Some(true) && ValidRoutes(b, routes)
    ensures ValidRoutes(a, routes)
  {
    var x, y := Member(a, "directions"), Member(b, "directions");
    hide HeldFare.GroupsOf, HeldFare.SameOptions, RouteOffered, Member;
    GroupsCount(x.items);
    GroupsCount(y.items);
    forall g | 0 <= g < |routes| ensures RouteOffered(x.items[g], routes[g]) {
      GroupsListed(x.items, g);
      GroupsListed(y.items, g);
      RouteCarried(x.items[g], y.items[g], HeldFare.GroupsOf(x.items).value[g], HeldFare.GroupsOf(y.items).value[g], routes[g]);
    }
  }

  // An answer accepted against a confirming fare is for its passengers, its routes and its flights.
  lemma AcceptedFlies(flight: Value, fare: Value, offer: Value, currency: string, travel: Travel, directions: seq<Value>)
    requires HeldFare.FlightAccepted(flight, fare) && Confirms(fare, offer, currency, travel, directions)
    ensures MatchesPassengers(flight, travel) && ValidRoutes(flight, travel.routes) && MatchesFlights(flight, directions)
  {
    hide HeldFare.SameItinerary, HeldFare.KindAccepted, HeldFare.AggregateAccepted, HeldFare.SameAmounts, HeldFare.ComponentOf,
         ValidRoutes, MatchesFlights, Member;
    SameItineraryFlies(flight, fare, directions);
    SameItineraryRoutes(flight, fare, travel.routes);
  }
}
