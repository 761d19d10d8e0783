// Answers and quotes at which two properties one might expect of the held-answer check fail
// (src/booking.rs same_held_itinerary and project_booking_response).
module HeldExamples {
  import opened Wrappers
  import opened Json
  import opened Decimals
  import opened HeldFare

  // ---- Comparing itineraries is not transitive -----------------------------------------------------------

  // One flight that states its cabin and nothing else; none for a label that is left out.
  function OneFlight(cabin: Option<string>): Value {
    var segment := Object(if cabin.Some? then [Field("cabinClass", Text(cabin.value))] else []);
    Object([Field("directions", Array([Array([Object([Field("segments", Array([segment]))])])]))])
  }

  function BareFlight(cabin: Option<string>): Flight {
    Flight([Null, Null, Null, Null, Null, Null, Null], if cabin.Some? then Text(cabin.value) else Null)
  }

  lemma SegmentFlight(segment: Value, cabin: Option<string>)
    requires segment == Object(if cabin.Some? then [Field("cabinClass", Text(cabin.value))] else [])
    ensures FlightOf(segment) == BareFlight(cabin)
  {
    hide Lookup;
    LookupNone(segment.fields, "from");
    LookupNone(segment.fields, "to");
    LookupNone(segment.fields, "airlineCode");
    LookupNone(segment.fields, "flightNumber");
    LookupNone(segment.fields, "departure");
    LookupNone(segment.fields, "arrival");
    LookupNone(segment.fields, "bookingClass");
    if cabin.Some? {
      LookupAt(segment.fields, "cabinClass", 0);
    } else {
      LookupNone(segment.fields, "cabinClass");
    }
  }

  lemma OneOption(option: Value, segment: Value)
    requires Member(option, "segments") == Array([segment])
    ensures OptionsOf([option]) == Some([[FlightOf(segment)]])
  {
    hide Member, FlightOf;
    var options := [option];
    assert options[..0] == [] && OptionsOf(options[..0]) == Some([]);
    assert FlightsOf([segment]) == [FlightOf(segment)];
    assert [] + [FlightsOf([segment])] == [[FlightOf(segment)]];
  }

  lemma OneGroup(option: Value, segment: Value)
    requires Member(option, "segments") == Array([segment])
    ensures GroupsOf([Array([option])]) == Some([[[FlightOf(segment)]]])
  {
    OneOption(option, segment);
    hide Member, FlightOf, OptionsOf;
    var groups := [Array([option])];
    assert groups[..0] == [] && GroupsOf(groups[..0]) == Some([]);
    assert [] + [[[FlightOf(segment)]]] == [[[FlightOf(segment)]]];
  }

  lemma OneFlightItinerary(cabin: Option<string>)
    ensures Itinerary(OneFlight(cabin)) == Some([[[BareFlight(cabin)]]])
  {
    var segment := Object(if cabin.Some? then [Field("cabinClass", Text(cabin.value))] else []);
    var option := Object([Field("segments", Array([segment]))]);
    hide Lookup, FlightOf, BareFlight, GroupsOf;
    SegmentFlight(segment, cabin);
    LookupAt(option.fields, "segments", 0);
    OneGroup(option, segment);
    LookupAt(OneFlight(cabin).fields, "directions", 0);
  }

  lemma OneFlightSame(a: Option<string>, b: Option<string>)
    ensures SameItinerary(OneFlight(a), OneFlight(b)) == Some(SameFlight(BareFlight(a), BareFlight(b)))
  {
    OneFlightItinerary(a);
    OneFlightItinerary(b);
    var x, y := [[[BareFlight(a)]]], [[[BareFlight(b)]]];
    hide BareFlight, Itinerary, SameFlight, OneFlight;
    assert SameFlights(x[0][0], y[0][0]) <==> SameFlight(x[0][0][0], y[0][0][0]);
    assert SameOptions(x[0], y[0]) <==> SameFlights(x[0][0], y[0][0]);
    assert SameGroups(x, y) <==> SameOptions(x[0], y[0]);
  }

  // Economy agrees with a missing label and that with Business, but Economy does not agree with Business.
  lemma MissingLabelBridges()
    ensures SameItinerary(OneFlight(Some("Economy")), OneFlight(None)) == Some(true)
    ensures SameItinerary(OneFlight(None), OneFlight(Some("Business"))) == Some(true)
    ensures SameItinerary(OneFlight(Some("Economy")), OneFlight(Some("Business"))) == Some(false)
  {
    OneFlightSame(Some("Economy"), None);
    OneFlightSame(None, Some("Business"));
    OneFlightSame(Some("Economy"), Some("Business"));
    hide SameItinerary, OneFlight;
  }

  // ---- A fare of no counted kind keeps the supplier's price -----------------------------------------------

  function ChildFares(total: string): Value {
    Object([Field("CHD", Object([Field("totalPrice", Number(total))]))])
  }

  function OneComponent(): Value {
    Object([Field("ait", Number("1")), Field("basePrice", Number("1")), Field("taxes", Number("1")), Field("totalPrice", Number("1"))])
  }

  // A flight of no segments for no children, which still lists a child's fare.
  function Uncounted(total: string): Value {
    Object([Field("bookingComponents", Array([OneComponent()])), Field("directions", Array([])),
            Field("passengerCounts", Object([Field("CHD", Number("0"))])), Field("passengerFares", ChildFares(total))])
  }

  function UncountedAnswer(total: string): Value {
    Object([Field("item1", Object([Field("flightInfo", Uncounted(total))]))])
  }

  lemma UncountedMembers(total: string)
    ensures var fare := Uncounted(total);
            && Member(fare, "bookingComponents") == Array([OneComponent()]) && Member(fare, "directions") == Array([])
            && Member(fare, "passengerCounts") == Object([Field("CHD", Number("0"))])
            && Member(fare, "passengerFares") == ChildFares(total)
            && Get(fare, "currency").None? && Get(fare, "totalPrice").None? && Get(fare, "basePrice").None? && Get(fare, "taxes").None?
  {
    var fields := Uncounted(total).fields;
    var components, directions, counts, fares := "bookingComponents", "directions", "passengerCounts", "passengerFares";
    assert |components| == 17 && |directions| == 10 && |counts| == 15 && |fares| == 14;
    var whole := "totalPrice";
    assert whole[0] == 't' && directions[0] == 'd';
    hide Lookup, OneComponent, ChildFares;
    LookupAt(fields, components, 0);
    LookupAt(fields, directions, 1);
    LookupAt(fields, counts, 2);
    LookupAt(fields, fares, 3);
    LookupNone(fields, "currency");
    LookupNone(fields, "totalPrice");
    LookupNone(fields, "basePrice");
    LookupNone(fields, "taxes");
  }

  lemma OneIsMoney(v: Value)
    requires v == Number("1")
    ensures Money(v).Some?
  {
    var one := "1";
    assert one[1..] == "" && FindAny("", "eE") == None && FindAny("", ".") == None;
    assert FindAny(one, "eE") == None && FindAny(one, ".") == None;
    assert one + "" == one && AllDigits(one);
    assert Integer(one).Some?;
  }

  lemma OneComponentMoney()
    ensures SameAmounts(OneComponent(), OneComponent())
  {
    var fields := OneComponent().fields;
    var ait, base, tax, total := "ait", "basePrice", "taxes", "totalPrice";
    assert |ait| == 3 && |base| == 9 && |tax| == 5 && |total| == 10;
    hide Lookup, Money;
    LookupAt(fields, ait, 0);
    LookupAt(fields, base, 1);
    LookupAt(fields, tax, 2);
    LookupAt(fields, total, 3);
    OneIsMoney(Number("1"));
  }

  lemma NoneCounted()
    ensures AsU64(Number("0")) == Some(0)
  {
    var zero := "0";
    assert AllDigits(zero) && zero[..0] == "" && DigitsValue("") == 0;
    assert DigitsValue(zero) == 0;
  }

  lemma AcceptsItself(fare: Value, component: Value, count: Field)
    requires Member(fare, "bookingComponents") == Array([component]) && SameAmounts(component, component)
    requires Member(fare, "directions") == Array([])
    requires Member(fare, "passengerCounts") == Object([count]) && AsU64(count.value) == Some(0)
    requires Get(fare, "currency").None? && Get(fare, "totalPrice").None? && Get(fare, "basePrice").None? && Get(fare, "taxes").None?
    ensures FlightAccepted(fare, fare)
  {
    hide AsU64, SameAmounts, Lookup;
    assert Itinerary(fare) == Some([]);
    assert SameItinerary(fare, fare) == Some(true);
    hide SameItinerary, Itinerary, GroupsOf;
    assert ComponentOf(fare) == component;
    assert KindAccepted(fare, fare, count);
  }

  lemma UncountedAccepted(total: string)
    ensures FlightAccepted(Uncounted(total), Uncounted(total))
  {
    UncountedMembers(total);
    OneComponentMoney();
    NoneCounted();
    hide FlightAccepted, Uncounted, OneComponent, ChildFares, AsU64, SameAmounts, Member, Get;
    AcceptsItself(Uncounted(total), OneComponent(), Field("CHD", Number("0")));
  }

  lemma UncountedFare(total: string)
    ensures PriceIn(FareOf(Uncounted(total), "CHD"), Total) == Number(total)
    ensures States(FareOf(Uncounted(total), "CHD"), Total)
  {
    UncountedMembers(total);
    LookupAt(ChildFares(total).fields, "CHD", 0);
    hide Uncounted;
  }

  lemma UncountedTop(total: string)
    ensures var info := Member(UncountedAnswer(total), "item1");
            && Get(info, "flightInfo") == Some(Uncounted(total)) && NoLoosePrices(info)
  {
    var info := Object([Field("flightInfo", Uncounted(total))]);
    var key, whole := "flightInfo", "totalPrice";
    assert key[0] == 'f' && whole[0] == 't';
    hide Uncounted, Lookup;
    LookupAt(UncountedAnswer(total).fields, "item1", 0);
    LookupAt(info.fields, key, 0);
    LookupNone(info.fields, "totalPrice");
    LookupNone(info.fields, "passengerFares");
    LookupNone(info.fields, "bookingComponents");
  }

  // A quote that lists a fare for a kind of which nobody travels, and the same fare answered: the answer is
  // accepted, and the client sees the supplier's 9 where the quote sells at 5.
  lemma UncountedKeepsSupplierPrice()
    ensures var shown := Projected(UncountedAnswer("9"), Uncounted("9"), Uncounted("5"));
            && shown.Some?
            && GetIn(shown.value, PathOf(FarePlace("CHD", Total))) == Some(Number("9"))
            && PriceAt(Uncounted("5"), FarePlace("CHD", Total)) == Number("5")
  {
    UncountedTop("9");
    UncountedAccepted("9");
    UncountedFare("9");
    UncountedFare("5");
    UncountedMembers("9");
    NobodyCounted("9");
    assert Projected(UncountedAnswer("9"), Uncounted("9"), Uncounted("5")).Some? by {
      hide FlightAccepted, Uncounted, UncountedAnswer, Written, Writes, NoLoosePrices;
    }
    hide Projected, Uncounted, UncountedAnswer, GetIn, PathOf, NoLoosePrices, FlightAccepted, Member, Get, PriceIn, FareOf, States;
    ShownPrice(UncountedAnswer("9"), Uncounted("9"), Uncounted("5"), FarePlace("CHD", Total));
  }

  lemma NobodyCounted(total: string)
    ensures var counts := Members(Member(Uncounted(total), "passengerCounts"));
            DistinctKeys(counts) && !Counted(counts, "CHD")
  {
    UncountedMembers(total);
    NoneCounted();
    hide Uncounted, AsU64, Member;
  }
}
