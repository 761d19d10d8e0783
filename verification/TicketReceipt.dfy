// A Direct Issue answer as the client sees it (src/booking/direct.rs receipt, src/booking/ticketing.rs
// supplier_payload and issued_response): checked against the quote like a held one, with every passenger ticketed.
module TicketReceipt {
  import opened Wrappers
  import opened Json
  import opened BookAnswer
  import opened PassengerNames
  import opened TicketAssignment
  import HeldFare
  import References

  // ---- The whole receipt ----------------------------------------------------------------------------------

  function FirstFilled(a: Value, b: Value): Option<string> {
    if Filled(AsText(a)) then AsText(a) else if Filled(AsText(b)) then AsText(b) else None
  }

  // The supplier's references the receipt is about: the booking's own from the answer, the quoted
  // ones from the answer or else from the quote.
  datatype Servicing = Servicing(pnr: string, booking: string, search: string, item: string, price: string)

  function ServicingOf(info: Value, fare: Value): Option<Servicing> {
    var pnr, booking := AsText(Member(info, "pnr")), AsText(Member(info, "bookingCodeRef"));
    var search := FirstFilled(Member(info, "uniqueTransID"), Member(fare, "uniqueTransID"));
    var item := FirstFilled(Member(info, "itemCodeRef"), Member(fare, "itemCodeRef"));
    var price := FirstFilled(Member(info, "priceCodeRef"), Member(fare, "priceCodeRef"));
    if Filled(pnr) && Filled(booking) && search.Some? && item.Some? && price.Some?
    then Some(Servicing(pnr.value, booking.value, search.value, item.value, price.value))
    else None
  }

  // A quoted reference that the answer states at all is the quote's.
  predicate Echoes(info: Value, fare: Value, key: string) {
    Get(info, key).Some? ==> Get(info, key).value == Member(fare, key)
  }

  predicate Repeats(info: Value, key: string, text: string) {
    Get(info, key).Some? ==> Get(info, key).value in [Null, Text(""), Text(text)]
  }

  predicate AllRepeat(info: Value, servicing: Servicing) {
    && Repeats(info, "bookingCodeRef", servicing.booking) && Repeats(info, "priceCodeRef", servicing.price)
    && Repeats(info, "itemCodeRef", servicing.item) && Repeats(info, "uniqueTransID", servicing.search)
  }

  // A success for the quoted references, with the booking's and the ticket's own.
  predicate IssueEvidence(quote: Quote, body: Value) {
    var info, fare := Info(body), Info(quote.original);
    && Echoes(info, fare, "uniqueTransID") && Echoes(info, fare, "itemCodeRef") && Echoes(info, fare, "priceCodeRef")
    && ServicingOf(info, fare).Some? && AllRepeat(info, ServicingOf(info, fare).value)
    && Member(Member(body, "item2"), "isSuccess") == Bool(true)
    && Filled(AsText(Member(info, "ticketCodeRef")))
  }

  // Whether the answer's passenger counts are the quote's; one supplier's labels are trusted only then.
  predicate CountsVerified(quote: Quote, body: Value) {
    Member(Member(Info(body), "flightInfo"), "passengerCounts") == Member(Info(quote.original), "passengerCounts")
  }

  function TicketsOf(body: Value): seq<Value> {
    var tickets := AsArray(Member(Info(body), "ticketInfoes"));
    if tickets.Some? then tickets.value else []
  }

  function Handed(quote: Quote, passengers: Value, script: Script, supplier: string, body: Value): Option<seq<Value>> {
    var sent := AsArray(passengers);
    if sent.None? || sent.value == [] || |TicketsOf(body)| != |sent.value| then None
    else Assigned(sent.value, TicketsOf(body), Persons(script, supplier)(CountsVerified(quote, body)))
  }

  function Stated(key: string, value: Option<Value>): seq<Field> {
    if value.Some? then [Field(key, value.value)] else []
  }

  // The members in key order.
  function Public(pnr: Value, own: References.Identities, issue: string, tickets: seq<Value>, breakdown: Option<Value>,
                  flight: Option<Value>): Value
  {
    Object([Field("item1", Object(
                    [Field("bookingCodeRef", Text(own.booking))] + Stated("fareBreakdown", breakdown) + Stated("flightInfo", flight) +
                    [Field("itemCodeRef", Text(own.offer)), Field("pnr", pnr), Field("priceCodeRef", Text(own.price)),
                     Field("ticketCodeRef", Text(issue)), Field("ticketInfoes", Array(tickets)),
                     Field("uniqueTransID", Text(own.search))])),
            Field("item2", Object([Field("isSuccess", Bool(true))]))])
  }

  function Receipt(quote: Quote, own: References.Identities, ids: References.Supply, issue: string, passengers: Value,
                   script: Script, supplier: string, body: Value): Option<Value>
  {
    if !IssueEvidence(quote, body) then None
    else
      var tickets := Handed(quote, passengers, script, supplier, body);
      if tickets.None? then None
      else
        var priced := HeldFare.Projected(body, Info(quote.original), Info(quote.selling));
        if priced.None? then None
        else
          var info := Info(Completed(quote, own, ids, body, priced.value));
          Some(Public(Member(Info(body), "pnr"), own, issue, tickets.value, Get(info, "fareBreakdown"), Get(info, "flightInfo")))
  }

  method MakeReceipt(quote: Quote, own: References.Identities, ids: References.Supply, issue: string, passengers: Value,
                     script: Script, supplier: string, body: Value)
    returns (receipt: Option<Value>)
    ensures receipt == Receipt(quote, own, ids, issue, passengers, script, supplier, body)
    ensures receipt.Some? <==>
            && ConfirmsIssue(quote, body) && TicketsHandOut(quote, passengers, script, supplier, body)
            && HeldFare.AnswersQuote(body, Info(quote.original))
  {
    ReceiptedExactlyWhen(quote, own, ids, issue, passengers, script, supplier, body);
    hide ConfirmsIssue, TicketsHandOut, HeldFare.AnswersQuote, IssueEvidence, TicketsOf, HeldFare.Projected, AnswerMap, References.Bind,
         References.BindIdentities, Public, Assigned, Displayed, Breakdown;
    if !IssueEvidence(quote, body) {
      return None;
    }
    var sent, tickets := AsArray(passengers), TicketsOf(body);
    if sent.None? || sent.value == [] || |tickets| != |sent.value| {
      return None;
    }
    var handed := Assign(sent.value, tickets, Persons(script, supplier)(CountsVerified(quote, body)));
    if handed.None? {
      return None;
    }
    var priced := HeldFare.Project(body, Info(quote.original), Info(quote.selling));
    if priced.None? {
      return None;
    }
    var references := new References.ReferenceMap(AnswerMap(quote, own, body), ids);
    var bound := references.BindTree(priced.value);
    var shown := Displayed(References.BindIdentities(bound, own), Breakdown(quote));
    receipt := Some(Public(Member(Info(body), "pnr"), own, issue, handed.value,
                           Get(Info(shown), "fareBreakdown"), Get(Info(shown), "flightInfo")));
  }

  // ---- When there is a receipt, told from the answer and the quote alone -----------------------------------

  function QuotedKeys(): seq<string> {
    ["uniqueTransID", "itemCodeRef", "priceCodeRef"]
  }

  lemma ThreeKeys()
    ensures var keys := QuotedKeys();
            |keys| == 3 && keys[0] == "uniqueTransID" && keys[1] == "itemCodeRef" && keys[2] == "priceCodeRef"
  {
  }

  // A success with the booking's and the ticket's own references; the three quoted references are known,
  // and the answer states no others.
  ghost predicate ConfirmsIssue(quote: Quote, body: Value) {
    var info, fare := Member(body, "item1"), Info(quote.original);
    && Member(Member(body, "item2"), "isSuccess") == Bool(true)
    && StatesText(Member(info, "pnr")) && StatesText(Member(info, "bookingCodeRef")) && StatesText(Member(info, "ticketCodeRef"))
    && forall key :: key in QuotedKeys() ==>
         StatesText(Member(fare, key)) && (Get(info, key).Some? ==> Member(info, key) == Member(fare, key))
  }

  lemma EchoTold(info: Value, fare: Value, key: string)
    ensures Echoes(info, fare, key) && FirstFilled(Member(info, key), Member(fare, key)).Some? <==>
            StatesText(Member(fare, key)) && (Get(info, key).Some? ==> Member(info, key) == Member(fare, key))
    ensures Echoes(info, fare, key) && FirstFilled(Member(info, key), Member(fare, key)).Some? ==>
              Repeats(info, key, FirstFilled(Member(info, key), Member(fare, key)).value)
  {
    hide Get;
  }

  lemma ConfirmedExactlyWhen(quote: Quote, body: Value)
    ensures IssueEvidence(quote, body) <==> ConfirmsIssue(quote, body)
  {
    var info, fare := Info(body), Info(quote.original);
    hide Echoes, Repeats, FirstFilled, QuotedKeys, Get, Member;
    var keys := QuotedKeys();
    ThreeKeys();
    EchoTold(info, fare, keys[0]);
    EchoTold(info, fare, keys[1]);
    EchoTold(info, fare, keys[2]);
    if Member(info, "bookingCodeRef").Text? {
      BookingRepeated(info);
    }
  }

  lemma BookingRepeated(info: Value)
    requires Member(info, "bookingCodeRef").Text?
    ensures Repeats(info, "bookingCodeRef", Member(info, "bookingCodeRef").text)
  {
    hide Get;
  }

  // One ticket for each passenger sent, which can be handed out by the names on them.
  ghost predicate TicketsHandOut(quote: Quote, passengers: Value, script: Script, supplier: string, body: Value) {
    var tickets := Member(Member(body, "item1"), "ticketInfoes");
    && passengers.Array? && passengers.items != [] && tickets.Array? && |tickets.items| == |passengers.items|
    && Numbered(tickets.items)
    && exists seats :: Seated(passengers.items, tickets.items, Persons(script, supplier)(CountsVerified(quote, body)), seats)
  }

  lemma HandedExactlyWhen(quote: Quote, passengers: Value, script: Script, supplier: string, body: Value)
    ensures Handed(quote, passengers, script, supplier, body).Some? <==> TicketsHandOut(quote, passengers, script, supplier, body)
  {
    hide Numbered, Seated, Assigned, Persons, CountsVerified, Member;
    if passengers.Array? {
      AssignedExactlyWhen(passengers.items, TicketsOf(body), Persons(script, supplier)(CountsVerified(quote, body)));
    }
  }

  // There is a receipt exactly when the answer confirms the issue of the quoted booking, for the quoted
  // flights, currency, passengers and money, and its tickets can be handed out.
  lemma ReceiptedExactlyWhen(quote: Quote, own: References.Identities, ids: References.Supply, issue: string, passengers: Value,
                             script: Script, supplier: string, body: Value)
    ensures Receipt(quote, own, ids, issue, passengers, script, supplier, body).Some? <==>
            && ConfirmsIssue(quote, body) && TicketsHandOut(quote, passengers, script, supplier, body)
            && HeldFare.AnswersQuote(body, Info(quote.original))
  {
    ConfirmedExactlyWhen(quote, body);
    HandedExactlyWhen(quote, passengers, script, supplier, body);
    HeldFare.ProjectedExactlyWhen(body, Info(quote.original), Info(quote.selling));
    hide IssueEvidence, ConfirmsIssue, Handed, TicketsHandOut, HeldFare.Projected, HeldFare.AnswersQuote, Public, Completed;
  }

  // ---- Main results about receipts ------------------------------------------------------------------------

  lemma DifferentKeys(handed: string, display: string, flights: string, others: seq<string>)
    requires handed == "ticketInfoes" && display == "fareBreakdown" && flights == "flightInfo"
    requires others == ["bookingCodeRef", "itemCodeRef", "pnr", "priceCodeRef", "ticketCodeRef", "uniqueTransID"]
    ensures handed != display && handed != flights && display != flights
    ensures handed !in others && display !in others && flights !in others
  {
    assert handed[0] == 't' && display[0] == 'f' && flights[0] == 'f' && display[1] == 'a' && flights[1] == 'l';
    assert others[3][0] == 'p';
  }

  // Where the tickets, the display and the flight stand among members of other names.
  lemma FoundAmong(fields: seq<Field>, handed: string, display: string, flights: string, others: seq<string>, values: seq<Value>,
                   tickets: Value, breakdown: Option<Value>, flight: Option<Value>)
    requires |others| == |values| == 6 && handed != flights && handed != display && display != flights
    requires handed !in others && flights !in others && display !in others
    requires fields == [Field(others[0], values[0])] + Stated(display, breakdown) + Stated(flights, flight) +
                       [Field(others[1], values[1]), Field(others[2], values[2]), Field(others[3], values[3]),
                        Field(others[4], values[4]), Field(handed, tickets), Field(others[5], values[5])]
    ensures Lookup(fields, handed) == Some(tickets) && Lookup(fields, display) == breakdown && Lookup(fields, flights) == flight
  {
    hide Lookup;
    LookupAt(fields, handed, |fields| - 2);
    if breakdown.Some? {
      LookupAt(fields, display, 1);
    } else {
      LookupNone(fields, display);
    }
    if flight.Some? {
      LookupAt(fields, flights, |fields| - 7);
    } else {
      LookupNone(fields, flights);
    }
  }

  lemma PublicParts(pnr: Value, own: References.Identities, issue: string, tickets: seq<Value>, breakdown: Option<Value>,
                    flight: Option<Value>)
    ensures var shown := Info(Public(pnr, own, issue, tickets, breakdown, flight));
            && Member(shown, "ticketInfoes") == Array(tickets)
            && Get(shown, "fareBreakdown") == breakdown && Get(shown, "flightInfo") == flight
  {
    hide Stated;
    var shown := Public(pnr, own, issue, tickets, breakdown, flight);
    var fields := shown.fields[0].value.fields;
    assert Info(shown) == Object(fields);
    var others := ["bookingCodeRef", "itemCodeRef", "pnr", "priceCodeRef", "ticketCodeRef", "uniqueTransID"];
    var values := [Text(own.booking), Text(own.offer), pnr, Text(own.price), Text(issue), Text(own.search)];
    hide Lookup;
    DifferentKeys("ticketInfoes", "fareBreakdown", "flightInfo", others);
    FoundAmong(fields, "ticketInfoes", "fareBreakdown", "flightInfo", others, values, Array(tickets), breakdown, flight);
  }

  // What a receipt rests on and shows.
  lemma ReceiptParts(quote: Quote, own: References.Identities, ids: References.Supply, issue: string, passengers: Value,
                     script: Script, supplier: string, body: Value)
    requires Receipt(quote, own, ids, issue, passengers, script, supplier, body).Some?
    ensures IssueEvidence(quote, body) && passengers.Array? && |TicketsOf(body)| == |passengers.items|
    ensures HeldFare.Projected(body, Info(quote.original), Info(quote.selling)).Some?
    ensures Assigned(passengers.items, TicketsOf(body), Persons(script, supplier)(CountsVerified(quote, body))).Some?
    ensures var receipt := Receipt(quote, own, ids, issue, passengers, script, supplier, body).value;
            var priced := HeldFare.Projected(body, Info(quote.original), Info(quote.selling)).value;
            && Member(Info(receipt), "ticketInfoes") ==
               Array(Assigned(passengers.items, TicketsOf(body), Persons(script, supplier)(CountsVerified(quote, body))).value)
            && Get(Info(receipt), "fareBreakdown") == Get(Info(Completed(quote, own, ids, body, priced)), "fareBreakdown")
            && Get(Info(receipt), "flightInfo") == Get(Info(Completed(quote, own, ids, body, priced)), "flightInfo")
  {
    var priced := HeldFare.Projected(body, Info(quote.original), Info(quote.selling)).value;
    var info := Info(Completed(quote, own, ids, body, priced));
    PublicParts(Member(Info(body), "pnr"), own, issue, Handed(quote, passengers, script, supplier, body).value,
                Get(info, "fareBreakdown"), Get(info, "flightInfo"));
    hide IssueEvidence, TicketsOf, HeldFare.Projected, Completed, Public, Assigned, CountsVerified, Member, Get;
  }

  // A receipt is shown only for the quoted references and booking, and tickets every passenger sent:
  // in their order, each with the one ticket that names nobody else, no number stated twice.
  lemma ReceiptTicketsEveryone(quote: Quote, own: References.Identities, ids: References.Supply, issue: string, passengers: Value,
                               script: Script, supplier: string, body: Value)
    requires Receipt(quote, own, ids, issue, passengers, script, supplier, body).Some?
    ensures ConfirmsIssue(quote, body) && HeldFare.AnswersQuote(body, Info(quote.original))
    ensures Numbered(TicketsOf(body))
    ensures var receipt := Receipt(quote, own, ids, issue, passengers, script, supplier, body).value;
            && passengers.Array? && Member(Info(receipt), "ticketInfoes").Array?
            && var sent, shown := passengers.items, Member(Info(receipt), "ticketInfoes").items;
               && |shown| == |sent|
               && forall j :: 0 <= j < |sent| ==> TicketFor(sent, TicketsOf(body), Persons(script, supplier)(CountsVerified(quote, body)), j, shown[j])
  {
    ReceiptParts(quote, own, ids, issue, passengers, script, supplier, body);
    ReceiptedExactlyWhen(quote, own, ids, issue, passengers, script, supplier, body);
    var same := Persons(script, supplier)(CountsVerified(quote, body));
    AssignedExactlyWhen(passengers.items, TicketsOf(body), same);
    EveryPassengerTicketed(passengers.items, TicketsOf(body), same);
    hide IssueEvidence, ConfirmsIssue, TicketsOf, HeldFare.Projected, HeldFare.AnswersQuote, Receipt, Assigned, Numbered, TicketFor, Seated,
         CountsVerified, Member, Get;
  }

  lemma FlightPath(a: Value, b: Value, place: HeldFare.Place)
    requires Get(Info(a), "flightInfo") == Get(Info(b), "flightInfo")
    requires HeldFare.GetIn(b, HeldFare.PathOf(place)).Some?
    ensures HeldFare.GetIn(a, HeldFare.PathOf(place)) == HeldFare.GetIn(b, HeldFare.PathOf(place))
  {
    FlightAt(a, place);
    FlightAt(b, place);
    hide HeldFare.GetIn, HeldFare.PathOf;
  }

  // The receipt shows the quote's selling amounts where a held response would.
  lemma ReceiptShowsSelling(quote: Quote, own: References.Identities, ids: References.Supply, issue: string, passengers: Value,
                            script: Script, supplier: string, body: Value, place: HeldFare.Place)
    requires Receipt(quote, own, ids, issue, passengers, script, supplier, body).Some? && Get(Info(body), "flightInfo").Some?
    requires DistinctKeys(Members(Member(Info(quote.original), "passengerCounts")))
    requires HeldFare.StatedAt(Get(Info(body), "flightInfo").value, place)
    requires Plain(QuotedAt(quote, Get(Info(body), "flightInfo").value, place))
    ensures HeldFare.GetIn(Receipt(quote, own, ids, issue, passengers, script, supplier, body).value, HeldFare.PathOf(place)) ==
            Some(QuotedAt(quote, Get(Info(body), "flightInfo").value, place))
  {
    ReceiptParts(quote, own, ids, issue, passengers, script, supplier, body);
    var priced := HeldFare.Projected(body, Info(quote.original), Info(quote.selling)).value;
    HeldFare.ShownPrice(body, Info(quote.original), Info(quote.selling), place);
    hide IssueEvidence, TicketsOf, HeldFare.Projected, Receipt, Assigned, CountsVerified, Completed, HeldFare.GetIn, HeldFare.PathOf,
         HeldFare.StatedAt, HeldFare.PriceAt, HeldFare.Replaces, Get, Member, Plain, DistinctKeys;
    CompletedAt(quote, own, ids, body, priced, place);
    FlightPath(Receipt(quote, own, ids, issue, passengers, script, supplier, body).value, Completed(quote, own, ids, body, priced), place);
  }

  lemma NamedAmong(fields: seq<Field>, handed: string, display: string, flights: string, others: seq<string>, values: seq<Value>,
                   tickets: Value, breakdown: Option<Value>, flight: Option<Value>, k: nat)
    requires |others| == |values| == 6 && k < 6 && handed !in others && display !in others && flights !in others
    requires forall i, j :: 0 <= i < j < 6 ==> others[i] != others[j]
    requires fields == [Field(others[0], values[0])] + Stated(display, breakdown) + Stated(flights, flight) +
                       [Field(others[1], values[1]), Field(others[2], values[2]), Field(others[3], values[3]),
                        Field(others[4], values[4]), Field(handed, tickets), Field(others[5], values[5])]
    ensures Lookup(fields, others[k]) == Some(values[k])
  {
    hide Lookup;
    LookupAt(fields, others[k], if k == 0 then 0 else if k == 5 then |fields| - 1 else |fields| - 7 + k);
  }

  lemma NamesDiffer(others: seq<string>)
    requires others == ["bookingCodeRef", "itemCodeRef", "pnr", "priceCodeRef", "ticketCodeRef", "uniqueTransID"]
    ensures forall i, j :: 0 <= i < j < 6 ==> others[i] != others[j]
  {
    assert others[0][0] == 'b' && others[1][0] == 'i' && others[2][0] == 'p' && others[3][0] == 'p' && others[4][0] == 't' && others[5][0] == 'u';
    assert |others[2]| == 3 && |others[3]| == 12;
  }

  // The receipt names the platform's own rows, each under its own key, with the answer's PNR and a success.
  lemma ReceiptNamesRows(quote: Quote, own: References.Identities, ids: References.Supply, issue: string, passengers: Value,
                         script: Script, supplier: string, body: Value)
    requires Receipt(quote, own, ids, issue, passengers, script, supplier, body).Some?
    ensures var receipt := Receipt(quote, own, ids, issue, passengers, script, supplier, body).value;
            var shown := Member(receipt, "item1");
            && Member(shown, "bookingCodeRef") == Text(own.booking) && Member(shown, "itemCodeRef") == Text(own.offer)
            && Member(shown, "priceCodeRef") == Text(own.price) && Member(shown, "uniqueTransID") == Text(own.search)
            && Member(shown, "ticketCodeRef") == Text(issue) && Member(shown, "pnr") == Member(Member(body, "item1"), "pnr")
            && Member(Member(receipt, "item2"), "isSuccess") == Bool(true)
  {
    hide Receipt, Lookup, Stated, Completed, HeldFare.Projected;
    var receipt := Receipt(quote, own, ids, issue, passengers, script, supplier, body).value;
    var shown, handed := ReceiptIsPublic(quote, own, ids, issue, passengers, script, supplier, body);
    var breakdown, flight := Get(Info(shown), "fareBreakdown"), Get(Info(shown), "flightInfo");
    RowsNamed(Member(Info(body), "pnr"), own, issue, handed, breakdown, flight);
    hide Public, Member, Get;
  }

  lemma RowsNamed(pnr: Value, own: References.Identities, issue: string, tickets: seq<Value>, breakdown: Option<Value>, flight: Option<Value>)
    ensures var receipt := Public(pnr, own, issue, tickets, breakdown, flight);
            var shown := Member(receipt, "item1");
            && Member(shown, "bookingCodeRef") == Text(own.booking) && Member(shown, "itemCodeRef") == Text(own.offer)
            && Member(shown, "priceCodeRef") == Text(own.price) && Member(shown, "uniqueTransID") == Text(own.search)
            && Member(shown, "ticketCodeRef") == Text(issue) && Member(shown, "pnr") == pnr
            && Member(Member(receipt, "item2"), "isSuccess") == Bool(true)
  {
    hide Lookup, Stated;
    var receipt := Public(pnr, own, issue, tickets, breakdown, flight);
    var fields := receipt.fields[0].value.fields;
    var others := ["bookingCodeRef", "itemCodeRef", "pnr", "priceCodeRef", "ticketCodeRef", "uniqueTransID"];
    var values := [Text(own.booking), Text(own.offer), pnr, Text(own.price), Text(issue), Text(own.search)];
    DifferentKeys("ticketInfoes", "fareBreakdown", "flightInfo", others);
    NamesDiffer(others);
    ItemsDiffer("item1", "item2");
    LookupAt(receipt.fields, "item1", 0);
    LookupAt(receipt.fields, "item2", 1);
    LookupAt(receipt.fields[1].value.fields, "isSuccess", 0);
    forall k: nat | k < 6 ensures Lookup(fields, others[k]) == Some(values[k]) {
      NamedAmong(fields, "ticketInfoes", "fareBreakdown", "flightInfo", others, values, Array(tickets), breakdown, flight, k);
    }
    assert Lookup(fields, others[0]) == Some(values[0]) && Lookup(fields, others[1]) == Some(values[1]);
    assert Lookup(fields, others[2]) == Some(values[2]) && Lookup(fields, others[3]) == Some(values[3]);
    assert Lookup(fields, others[4]) == Some(values[4]) && Lookup(fields, others[5]) == Some(values[5]);
  }

  lemma ItemsDiffer(a: string, b: string)
    requires a == "item1" && b == "item2"
    ensures a != b
  {
    assert a[4] != b[4];
  }

  // And the quote's display.
  lemma ReceiptShowsDisplay(quote: Quote, own: References.Identities, ids: References.Supply, issue: string, passengers: Value,
                            script: Script, supplier: string, body: Value)
    requires Receipt(quote, own, ids, issue, passengers, script, supplier, body).Some? && Breakdown(quote).Some?
    ensures ShowsDisplay(Receipt(quote, own, ids, issue, passengers, script, supplier, body).value, Breakdown(quote).value)
  {
    ReceiptParts(quote, own, ids, issue, passengers, script, supplier, body);
    PnrIsText(quote, body);
    assert Info(body).Object? by {
      hide Info, Receipt, IssueEvidence;
    }
    hide Receipt, IssueEvidence, HeldFare.Projected, Completed, Breakdown, Assigned, TicketsOf, CountsVerified, Member, Info, Get;
    CompletedShowsDisplay(quote, own, ids, body);
  }

  // ---- References in a receipt -------------------------------------------------------------------------------

  lemma TextFieldReferences(key: string, text: string)
    ensures References.FieldReferences(Field(key, Text(text))) <= {text}
  {
    References.TextReferences(Text(text));
    hide References.Opaque;
  }

  lemma PnrIsPlain(key: string, v: Value)
    requires key == "pnr" && v.Text?
    ensures References.FieldReferences(Field(key, v)) == {}
  {
    var lower := References.LowerAll(key);
    assert key[0] == 'p' && lower[0] == 'p';
    if References.Contains(lower, "ref") {
      References.ContainsRefSpells(lower);
    }
    References.TextReferences(v);
    hide References.Contains;
  }

  lemma StatedReferences(key: string, value: Option<Value>)
    ensures References.FieldsReferences(Stated(key, value)) ==
            if value.Some? then References.FieldReferences(Field(key, value.value)) else {}
  {
    if value.Some? {
      References.OneReference(Field(key, value.value));
    }
    hide References.FieldReferences;
  }

  // The members that are always there.
  lemma FixedReferences(pnr: Value, own: References.Identities, issue: string, tickets: seq<Value>)
    requires pnr.Text?
    ensures var shown := References.FieldsReferences([Field("itemCodeRef", Text(own.offer)), Field("pnr", pnr),
                                                      Field("priceCodeRef", Text(own.price)), Field("ticketCodeRef", Text(issue)),
                                                      Field("ticketInfoes", Array(tickets)), Field("uniqueTransID", Text(own.search))]);
            && References.ReferencesOf(Array(tickets)) <= shown
            && shown <= References.ReferencesOf(Array(tickets)) + {own.offer, own.price, issue, own.search}
  {
    hide References.FieldReferences, References.Opaque, References.ReferencesOf;
    var item, number, price := Field("itemCodeRef", Text(own.offer)), Field("pnr", pnr), Field("priceCodeRef", Text(own.price));
    var code, handed, search := Field("ticketCodeRef", Text(issue)), Field("ticketInfoes", Array(tickets)), Field("uniqueTransID", Text(own.search));
    var rest := [item, number, price, code, handed, search];
    assert rest == [item] + ([number] + ([price] + ([code] + ([handed] + [search]))));
    References.ReferencesTogether([item], [number] + ([price] + ([code] + ([handed] + [search]))));
    References.ReferencesTogether([number], [price] + ([code] + ([handed] + [search])));
    References.ReferencesTogether([price], [code] + ([handed] + [search]));
    References.ReferencesTogether([code], [handed] + [search]);
    References.ReferencesTogether([handed], [search]);
    References.OneReference(item);
    References.OneReference(number);
    References.OneReference(price);
    References.OneReference(code);
    References.OneReference(handed);
    References.OneReference(search);
    TextFieldReferences(item.key, own.offer);
    PnrIsPlain(number.key, pnr);
    TextFieldReferences(price.key, own.price);
    TextFieldReferences(code.key, issue);
    TextFieldReferences(search.key, own.search);
    ArrayField(handed.key, tickets);
    hide References.FieldsReferences;
  }

  lemma PublicReferences(pnr: Value, own: References.Identities, issue: string, tickets: seq<Value>, breakdown: Option<Value>,
                         flight: Option<Value>)
    requires pnr.Text?
    ensures var shown := References.ReferencesOf(Public(pnr, own, issue, tickets, breakdown, flight));
            && References.ReferencesOf(Array(tickets)) <= shown
            && shown <= References.ReferencesOf(Array(tickets)) + {own.booking, own.offer, own.price, issue, own.search} +
                        References.FieldsReferences(Stated("fareBreakdown", breakdown)) +
                        References.FieldsReferences(Stated("flightInfo", flight))
  {
    hide References.FieldReferences, References.Opaque, References.ReferencesOf, References.FieldsReferences, Stated;
    var first, display, flights := Field("bookingCodeRef", Text(own.booking)), Stated("fareBreakdown", breakdown), Stated("flightInfo", flight);
    var rest := [Field("itemCodeRef", Text(own.offer)), Field("pnr", pnr), Field("priceCodeRef", Text(own.price)),
                 Field("ticketCodeRef", Text(issue)), Field("ticketInfoes", Array(tickets)), Field("uniqueTransID", Text(own.search))];
    FixedReferences(pnr, own, issue, tickets);
    References.ReferencesTogether([first] + display + flights, rest);
    References.ReferencesTogether([first] + display, flights);
    References.ReferencesTogether([first], display);
    References.OneReference(first);
    TextFieldReferences(first.key, own.booking);
    NestedReferences([first] + display + flights + rest, Public(pnr, own, issue, tickets, breakdown, flight));
  }

  lemma ArrayField(key: string, tickets: seq<Value>)
    ensures References.FieldReferences(Field(key, Array(tickets))) == References.ReferencesOf(Array(tickets))
  {
    hide References.Opaque;
  }

  lemma NestedReferences(fields: seq<Field>, shown: Value)
    requires shown == Object([Field("item1", Object(fields)), Field("item2", Object([Field("isSuccess", Bool(true))]))])
    ensures References.ReferencesOf(shown) == References.FieldsReferences(fields)
  {
    var inner, outer := Field("isSuccess", Bool(true)), Field("item1", Object(fields));
    var item2 := Field("item2", Object([inner]));
    hide References.Opaque;
    References.OneReference(inner);
    assert References.FieldReferences(inner) == {};
    References.ReferencesTogether([outer], [item2]);
    References.OneReference(outer);
    References.OneReference(item2);
    assert shown.fields == [outer] + [item2];
    assert References.FieldReferences(item2) == References.FieldsReferences([inner]);
    assert References.FieldReferences(outer) == References.FieldsReferences(fields);
    assert References.ReferencesOf(shown) == References.FieldsReferences(shown.fields);
    hide References.FieldsReferences, References.FieldReferences, References.ReferencesOf;
  }

  lemma PnrIsText(quote: Quote, body: Value)
    requires IssueEvidence(quote, body)
    ensures Member(Info(body), "pnr").Text?
  {
    hide Member, Get;
  }

  lemma ReceiptIsPublic(quote: Quote, own: References.Identities, ids: References.Supply, issue: string, passengers: Value,
                        script: Script, supplier: string, body: Value)
    returns (shown: Value, handed: seq<Value>)
    requires Receipt(quote, own, ids, issue, passengers, script, supplier, body).Some?
    ensures HeldFare.Projected(body, Info(quote.original), Info(quote.selling)).Some?
    ensures shown == Completed(quote, own, ids, body, HeldFare.Projected(body, Info(quote.original), Info(quote.selling)).value)
    ensures var receipt := Receipt(quote, own, ids, issue, passengers, script, supplier, body).value;
            && receipt == Public(Member(Info(body), "pnr"), own, issue, handed, Get(Info(shown), "fareBreakdown"), Get(Info(shown), "flightInfo"))
            && Member(Info(receipt), "ticketInfoes") == Array(handed) && Member(Info(body), "pnr").Text?
  {
    var priced := HeldFare.Projected(body, Info(quote.original), Info(quote.selling)).value;
    shown := Completed(quote, own, ids, body, priced);
    handed := Handed(quote, passengers, script, supplier, body).value;
    PnrIsText(quote, body);
    PublicParts(Member(Info(body), "pnr"), own, issue, handed, Get(Info(shown), "fareBreakdown"), Get(Info(shown), "flightInfo"));
    hide IssueEvidence, Handed, HeldFare.Projected, Public, Completed, Member, Get;
  }

  // Every reference in the tree is one of these ids.
  ghost predicate OnlyFrom(v: Value, platform: iset<string>) {
    forall text :: text in References.ReferencesOf(v) ==> text in platform
  }

  lemma StatedWithin(shown: Value, key: string)
    ensures References.FieldsReferences(Stated(key, Get(Info(shown), key))) <= References.ReferencesOf(shown)
  {
    References.MemberWithin(shown, "item1");
    References.MemberWithin(Info(shown), key);
    StatedReferences(key, Get(Info(shown), key));
    hide References.ReferencesOf, References.FieldReferences, References.FieldsReferences, Stated;
  }

  // ---- What the tickets of an answer hold ----------------------------------------------------------------

  lemma GenderIsPlain(key: string)
    requires key == "gender"
    ensures !References.Opaque(key)
  {
    References.NoRefSpelled(key);
    hide References.Contains, References.LowerAll;
  }

  lemma NameIsPlain(key: string)
    requires key == "nameElement"
    ensures !References.Opaque(key)
  {
    References.NoRefSpelled(key);
    hide References.Contains, References.LowerAll;
  }

  lemma {:induction false} TextsHaveNoReferences(items: seq<Value>)
    requires forall i :: 0 <= i < |items| ==> items[i].Text?
    ensures References.ItemsReferences(items) == {}
  {
    if items != [] {
      References.TextReferences(items[0]);
      TextsHaveNoReferences(items[1..]);
    }
  }

  lemma NumbersHoldNone(ticket: Value)
    requires OwnNumbers(ticket)
    ensures References.ReferencesOf(Member(ticket, "ticketNumbers")) == {}
  {
    var items := Numbers(ticket);
    forall i | 0 <= i < |items| ensures items[i].Text? {
      NumberIsText(items[i]);
    }
    TextsHaveNoReferences(items);
    hide TicketNumber, Member;
  }

  lemma ShownPassengerReferences(gender: Field, name: Field, kind: Field)
    requires !References.Opaque(gender.key) && !References.Opaque(name.key) && kind.value.Text?
    ensures var shown := References.ReferencesOf(Object([gender, name, kind]));
            var inner := References.ReferencesOf(gender.value) + References.ReferencesOf(name.value);
            inner <= shown <= inner + References.FieldReferences(kind)
  {
    hide References.Opaque, References.FieldReferences;
    References.PlainField(gender.key, gender.value);
    References.PlainField(name.key, name.value);
    References.ReferencesTogether([gender, name], [kind]);
    References.ReferencesTogether([gender], [name]);
    References.OneReference(gender);
    References.OneReference(name);
    References.OneReference(kind);
    assert [gender, name, kind] == [gender, name] + [kind] && [gender, name] == [gender] + [name];
    ObjectReferences([gender, name, kind]);
    hide References.FieldsReferences, References.ReferencesOf;
  }

  lemma ObjectReferences(fields: seq<Field>)
    ensures References.ReferencesOf(Object(fields)) == References.FieldsReferences(fields)
  {
  }

  lemma KindIsPlain(key: string)
    requires key == "passengerType"
    ensures !References.Opaque(key)
  {
    References.NoRefSpelled(key);
    hide References.Contains, References.LowerAll;
  }

  lemma ArrayIsNoText(ticket: Value)
    requires OwnNumbers(ticket)
    ensures Member(ticket, "ticketNumbers").Array?
  {
    hide Member;
  }

  lemma WholeTicketReferences(gender: Field, name: Field, kind: Field, info: Field, numbers: Field)
    requires !References.Opaque(gender.key) && !References.Opaque(name.key) && !References.Opaque(kind.key) && kind.value.Text?
    requires info.value == Object([gender, name, kind])
    requires !numbers.value.Text? && References.ReferencesOf(numbers.value) == {}
    ensures References.ReferencesOf(Object([info, numbers])) ==
            References.ReferencesOf(gender.value) + References.ReferencesOf(name.value)
  {
    hide References.Opaque, References.ReferencesOf, References.FieldReferences;
    References.TextReferences(kind.value);
    References.PlainField(kind.key, kind.value);
    ShownPassengerReferences(gender, name, kind);
    References.HeldByObject(info);
    References.HeldByObject(numbers);
    References.TwoFields(info, numbers);
  }

  // A shown ticket holds what its passenger's name and gender hold.
  lemma ShownTicketReferences(ticket: Value)
    requires OwnNumbers(ticket) && Member(Holder(ticket), "passengerType").Text?
    ensures References.ReferencesOf(PublicTicket(ticket)) ==
            References.ReferencesOf(Member(Holder(ticket), "gender")) + References.ReferencesOf(Member(Holder(ticket), "nameElement"))
  {
    hide References.Opaque, References.ReferencesOf, Member, Holder, OwnNumbers, References.Contains, References.LowerAll;
    var info, numbers := PublicTicket(ticket).fields[0], PublicTicket(ticket).fields[1];
    var gender, name, kind := info.value.fields[0], info.value.fields[1], info.value.fields[2];
    NumbersHoldNone(ticket);
    ArrayIsNoText(ticket);
    GenderIsPlain(gender.key);
    NameIsPlain(name.key);
    KindIsPlain(kind.key);
    WholeTicketReferences(gender, name, kind, info, numbers);
  }

  lemma {:induction false} ItemsOnlyFrom(items: seq<Value>, platform: iset<string>)
    ensures OnlyFrom(Array(items), platform) <==> forall i :: 0 <= i < |items| ==> OnlyFrom(items[i], platform)
  {
    hide References.ReferencesOf;
    assert References.ReferencesOf(Array(items)) == References.ItemsReferences(items) by {
      ArrayReferences(items);
    }
    if items != [] {
      ItemsOnlyFrom(items[1..], platform);
      ArrayReferences(items[1..]);
      assert forall i :: 0 < i < |items| ==> items[i] == items[1..][i - 1];
    }
  }

  lemma ArrayReferences(items: seq<Value>)
    ensures References.ReferencesOf(Array(items)) == References.ItemsReferences(items)
  {
  }

  // The name and gender a ticket of the answer states hold platform ids only.
  ghost predicate NamesOnlyFrom(ticket: Value, platform: iset<string>) {
    OnlyFrom(Member(Holder(ticket), "nameElement"), platform) && OnlyFrom(Member(Holder(ticket), "gender"), platform)
  }

  lemma ShownTicketOnlyFrom(ticket: Value, platform: iset<string>)
    requires OwnNumbers(ticket) && Member(Holder(ticket), "passengerType").Text?
    ensures OnlyFrom(PublicTicket(ticket), platform) <==> NamesOnlyFrom(ticket, platform)
  {
    ShownTicketReferences(ticket);
    hide References.ReferencesOf, PublicTicket, Member, OwnNumbers;
  }

  lemma NamedHasKind(script: Script, supplier: string, verified: bool, passengers: seq<Value>, ticket: Value, j: nat)
    requires OnlySeat(passengers, ticket, Persons(script, supplier)(verified), j)
    ensures Member(Holder(ticket), "passengerType").Text?
  {
    TicketNames(script, supplier, verified, passengers[j], ticket);
    hide Persons, Lenient, SamePerson, NamePart, Holder;
  }

  // Every ticket has its place and every place its ticket, so both hold the same.
  lemma PlacedOnlyFrom(shown: seq<Value>, tickets: seq<Value>, seats: seq<nat>, platform: iset<string>)
    requires |shown| == |tickets| == |seats| && (forall i :: 0 <= i < |seats| ==> seats[i] < |shown|)
    requires forall i, j :: 0 <= i < j < |seats| ==> seats[i] != seats[j]
    requires forall i :: 0 <= i < |tickets| ==> (OnlyFrom(shown[seats[i]], platform) <==> NamesOnlyFrom(tickets[i], platform))
    ensures OnlyFrom(Array(shown), platform) <==> forall i :: 0 <= i < |tickets| ==> NamesOnlyFrom(tickets[i], platform)
  {
    hide OnlyFrom, NamesOnlyFrom;
    ItemsOnlyFrom(shown, platform);
    if forall i :: 0 <= i < |tickets| ==> NamesOnlyFrom(tickets[i], platform) {
      forall j | 0 <= j < |shown| ensures OnlyFrom(shown[j], platform) {
        var i := TakenAt(seats, |seats|, j);
      }
    }
  }

  lemma PlaceOnlyFrom(script: Script, supplier: string, verified: bool, passengers: seq<Value>, tickets: seq<Value>, seats: seq<nat>,
                      i: nat, platform: iset<string>)
    requires Seated(passengers, tickets, Persons(script, supplier)(verified), seats) && Numbered(tickets) && i < |tickets|
    ensures |seats| == |tickets|
    ensures OnlyFrom(Slot(tickets, seats, seats[i]), platform) <==> NamesOnlyFrom(tickets[i], platform)
  {
    hide Persons, OnlySeat, Slot, OnlyFrom, NamesOnlyFrom, PublicTicket, OwnNumbers, NoneShared;
    SlotAt(tickets, seats, i);
    NamedHasKind(script, supplier, verified, passengers, tickets[i], seats[i]);
    ShownTicketOnlyFrom(tickets[i], platform);
  }

  lemma PlacesOnlyFrom(script: Script, supplier: string, verified: bool, passengers: seq<Value>, tickets: seq<Value>,
                       platform: iset<string>)
    requires Assigned(passengers, tickets, Persons(script, supplier)(verified)).Some? && |tickets| == |passengers|
    ensures OnlyFrom(Array(Assigned(passengers, tickets, Persons(script, supplier)(verified)).value), platform) <==>
            forall i :: 0 <= i < |tickets| ==> NamesOnlyFrom(tickets[i], platform)
  {
    var same := Persons(script, supplier)(verified);
    TallyIsSound(passengers, tickets, same);
    TallySize(passengers, tickets, same);
    var seats := TallyOf(passengers, tickets, same).value.seats;
    var shown := Slots(|passengers|, tickets, seats);
    assert Assigned(passengers, tickets, same) == Some(shown);
    hide Assigned, TallyOf, Persons, StatedIn, Slot, OnlyFrom, NamesOnlyFrom, Seated, Numbered;
    SeatsApart(passengers, tickets, same, seats);
    forall i | 0 <= i < |tickets| ensures OnlyFrom(shown[seats[i]], platform) <==> NamesOnlyFrom(tickets[i], platform) {
      PlaceOnlyFrom(script, supplier, verified, passengers, tickets, seats, i, platform);
    }
    PlacedOnlyFrom(shown, tickets, seats, platform);
  }

  // Names and genders on tickets are copied from the answer; apart from what those hold a receipt shows
  // only platform ids, so it does exactly when no ticket of the answer states another reference there.
  lemma ReceiptIsPlatformOnlyIff(quote: Quote, own: References.Identities, ids: References.Supply, issue: string, passengers: Value,
                                 script: Script, supplier: string, body: Value, platform: iset<string>)
    requires Receipt(quote, own, ids, issue, passengers, script, supplier, body).Some?
    requires References.AllPlatform(quote.references, platform) && References.SuppliesPlatform(ids, platform)
    requires References.OwnPlatform(own, platform) && issue in platform && "" !in platform
    requires OnlyFrom(quote.selling, platform)
    ensures OnlyFrom(Receipt(quote, own, ids, issue, passengers, script, supplier, body).value, platform) <==>
            forall i :: 0 <= i < |TicketsOf(body)| ==> NamesOnlyFrom(TicketsOf(body)[i], platform)
  {
    ReceiptParts(quote, own, ids, issue, passengers, script, supplier, body);
    PlacesOnlyFrom(script, supplier, CountsVerified(quote, body), passengers.items, TicketsOf(body), platform);
    hide Receipt, IssueEvidence, Assigned, OnlyFrom, NamesOnlyFrom, TicketsOf, CountsVerified, HeldFare.Projected, Member, Get,
         Persons, References.AllPlatform, References.SuppliesPlatform;
    ReceiptBesidesTickets(quote, own, ids, issue, passengers, script, supplier, body, platform);
  }

  lemma ReceiptBesidesTickets(quote: Quote, own: References.Identities, ids: References.Supply, issue: string, passengers: Value,
                              script: Script, supplier: string, body: Value, platform: iset<string>)
    requires Receipt(quote, own, ids, issue, passengers, script, supplier, body).Some?
    requires References.AllPlatform(quote.references, platform) && References.SuppliesPlatform(ids, platform)
    requires References.OwnPlatform(own, platform) && issue in platform && "" !in platform
    requires OnlyFrom(quote.selling, platform)
    ensures var receipt := Receipt(quote, own, ids, issue, passengers, script, supplier, body).value;
            OnlyFrom(receipt, platform) <==> OnlyFrom(Member(Info(receipt), "ticketInfoes"), platform)
  {
    hide Receipt, HeldFare.Projected, Public, Completed, References.ReferencesOf, References.FieldsReferences, Stated, Member, Get, Info,
         References.AllPlatform, References.SuppliesPlatform;
    var shown, handed := ReceiptIsPublic(quote, own, ids, issue, passengers, script, supplier, body);
    var priced := HeldFare.Projected(body, Info(quote.original), Info(quote.selling)).value;
    CompletedIsPlatformOnly(quote, own, ids, body, priced, platform);
    StatedWithin(shown, "fareBreakdown");
    StatedWithin(shown, "flightInfo");
    PublicReferences(Member(Info(body), "pnr"), own, issue, handed, Get(Info(shown), "fareBreakdown"), Get(Info(shown), "flightInfo"));
  }

  // Passengers no ticket can tell apart are never shown a receipt, whatever the supplier answers.
  lemma ConfusedNeverReceipted(quote: Quote, own: References.Identities, ids: References.Supply, issue: string, passengers: seq<Value>,
                               script: Script, supplier: string, body: Value)
    requires !ToldApart(script, Lenient(supplier, CountsVerified(quote, body)), passengers)
    ensures Receipt(quote, own, ids, issue, Array(passengers), script, supplier, body).None?
  {
    if Receipt(quote, own, ids, issue, Array(passengers), script, supplier, body).Some? {
      ReceiptParts(quote, own, ids, issue, Array(passengers), script, supplier, body);
      AssignedToldApart(script, supplier, CountsVerified(quote, body), passengers, TicketsOf(body));
    }
    hide *;
  }
}
