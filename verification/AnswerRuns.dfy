// What clients are shown over whole runs (src/search.rs, src/reprice.rs, src/booking.rs): platform ids
// are carried from Search through RePrice to Book, and held and issued bookings show their own quote.
module AnswerRuns {
  import opened Wrappers
  import opened Json
  import opened BookAnswer
  import opened Bookings
  import opened BookingRuns
  import Connections
  import HeldFare
  import PassengerNames
  import References
  import TicketAssignment
  import TicketReceipt

  // ---- The platform's own ids ------------------------------------------------------------------------

  ghost predicate NamesRow(setup: Setup, text: string, table: Table, row: Id) {
    text == setup.text(table, row) || exists n: nat :: text == setup.drawn(table, row)(n)
  }

  ghost predicate IsPlatformId(setup: Setup, text: string) {
    exists table: Table, row: Id :: NamesRow(setup, text, table, row)
  }

  // Every text that is, or could be drawn as, an id of some row.
  ghost function PlatformIds(setup: Setup): iset<string> {
    iset text | IsPlatformId(setup, text)
  }

  lemma RowNamed(setup: Setup, table: Table, row: Id)
    ensures setup.text(table, row) in PlatformIds(setup)
    ensures References.SuppliesPlatform(setup.drawn(table, row), PlatformIds(setup))
  {
    assert NamesRow(setup, setup.text(table, row), table, row);
    forall n: nat ensures setup.drawn(table, row)(n) in PlatformIds(setup) {
      assert NamesRow(setup, setup.drawn(table, row)(n), table, row);
    }
  }

  // A tree shown to clients beside its map: nothing but platform ids in either.
  ghost predicate Bound(setup: Setup, shown: Value, references: References.Entries) {
    && References.AllPlatform(references, PlatformIds(setup))
    && forall text :: text in References.ReferencesOf(shown) ==> text in PlatformIds(setup)
  }

  ghost predicate ReferencesSafe(setup: Setup, store: Store) {
    && (forall o :: 0 <= o < |store.offers| ==> Bound(setup, store.offers[o].selling, store.offers[o].references))
    && (forall p :: 0 <= p < |store.prices| ==>
          Bound(setup, store.prices[p].quote.selling, store.prices[p].quote.references))
  }

  lemma OfferIsBound(setup: Setup, search: Id, offer: Id, original: Value, selling: Value)
    requires OfferReferenced(original) && "" !in PlatformIds(setup)
    ensures var bound := OfferBound(setup, search, offer, original, selling);
            Bound(setup, bound.0, bound.1.entries)
  {
    RowNamed(setup, SearchRow, search);
    RowNamed(setup, OfferRow, offer);
    var own := map[Member(original, "uniqueTransID").text := Text(setup.text(SearchRow, search)),
                   Member(original, "itemCodeRef").text := Text(setup.text(OfferRow, offer))];
    hide References.Bind, References.Skeleton, References.ReferencesOf, References.SuppliesPlatform, PlatformIds, Member;
    References.BindHidesReferences(selling, References.Map(own, 0), setup.drawn(OfferRow, offer), PlatformIds(setup));
  }

  lemma KnownIsPlatform(setup: Setup, row: Offer, offer: Id, price: Id, a: string, b: string, c: string)
    requires References.AllPlatform(row.references, PlatformIds(setup))
    ensures References.AllPlatform(row.references[a := Text(setup.text(SearchRow, row.search))][b := Text(setup.text(OfferRow, offer))]
                                                 [c := Text(setup.text(PriceRow, price))], PlatformIds(setup))
  {
    RowNamed(setup, SearchRow, row.search);
    RowNamed(setup, OfferRow, offer);
    RowNamed(setup, PriceRow, price);
    hide PlatformIds, References.SuppliesPlatform;
  }

  lemma QuoteIsBound(setup: Setup, row: Offer, offer: Id, price: Id, original: Value, selling: Value)
    requires FareReferenced(Info(original)) && "" !in PlatformIds(setup)
    requires References.AllPlatform(row.references, PlatformIds(setup))
    ensures var quote := QuoteOf(setup, row, offer, price, original, selling);
            Bound(setup, quote.selling, quote.references)
  {
    var fare := Info(original);
    var a, b, c := Member(fare, "uniqueTransID").text, Member(fare, "itemCodeRef").text, Member(fare, "priceCodeRef").text;
    KnownIsPlatform(setup, row, offer, price, a, b, c);
    RowNamed(setup, PriceRow, price);
    hide References.Bind, References.Skeleton, References.ReferencesOf, References.SuppliesPlatform, References.AllPlatform,
         PlatformIds, Member;
    var known := row.references[a := Text(setup.text(SearchRow, row.search))][b := Text(setup.text(OfferRow, offer))]
                               [c := Text(setup.text(PriceRow, price))];
    References.BindHidesReferences(selling, References.Map(known, 0), setup.drawn(PriceRow, price), PlatformIds(setup));
  }

  // What steps leave alone keeps its references.
  lemma OldRowsBound(setup: Setup, store: Store, next: Store)
    requires ReferencesSafe(setup, store) && QuotesEndure(store, next)
    ensures forall o :: 0 <= o < |store.offers| ==> Bound(setup, next.offers[o].selling, next.offers[o].references)
    ensures forall p :: 0 <= p < |store.prices| ==>
              Bound(setup, next.prices[p].quote.selling, next.prices[p].quote.references)
  {
    hide Bound;
  }

  lemma StoreSearchBinds(setup: Setup, s: System, event: Event, next: System)
    requires ReferencesSafe(setup, s.store) && event.StoreSearch? && Step(setup, s, event, next)
    requires "" !in PlatformIds(setup)
    ensures ReferencesSafe(setup, next.store)
  {
    hide Step, Bound, OfferBound, Storable;
    StepMoves(setup, s, event, next);
    OldRowsBound(setup, s.store, next.store);
    StoreSearchEffect(setup, s, event, next);
    hide QuotesEndure;
    var n, search := |s.store.offers|, s.store.searches[event.search];
    forall o | n <= o < |next.store.offers| ensures Bound(setup, next.store.offers[o].selling, next.store.offers[o].references) {
      var offer := event.offers[o - n];
      StorableOffer(search, event.offers, o - n);
      assert next.store.offers[o] == StoredOffer(setup, search, event.search, offer, o);
      OfferIsBound(setup, event.search, o, offer.original, offer.selling);
    }
  }

  lemma PricedAnswer(store: Store, rows: Connections.Rows, setup: Setup, asked: Asked, offer: Id, answer: Answer, now: int)
    requires offer < |store.offers| && store.offers[offer].search < |store.searches|
    ensures var next := FinishReprice(store, rows, setup, asked, offer, answer, now).0;
            && |next.offers| == |store.offers|
            && (next.prices == store.prices ||
                (&& answer.Supplied? && answer.priced.Some? && FareReferenced(Info(answer.original))
                 && |next.prices| == |store.prices| + 1
                 && next.prices[|store.prices|].quote ==
                    QuoteOf(setup, store.offers[offer], offer, |store.prices|, answer.original, answer.priced.value)))
  {
    hide LatestVersion, Live, Connections.StillValid, FareReferenced, QuoteOf, Rejects, AnswerFailure;
    if AnswerFailure(store, setup, offer, asked, answer).None? && Live(store, offer, now) {
      UsableIsReferenced(store, setup, offer, asked, answer);
      LiveHasSearch(store, offer, now);
    }
  }

  lemma EndRepriceBinds(setup: Setup, s: System, event: Event, next: System)
    requires ReferencesSafe(setup, s.store) && event.EndReprice? && Step(setup, s, event, next)
    requires "" !in PlatformIds(setup)
    ensures ReferencesSafe(setup, next.store)
  {
    hide Step, QuoteOf, FareReferenced, FinishReprice;
    StepMoves(setup, s, event, next);
    OldRowsBound(setup, s.store, next.store);
    EndRepriceEffect(setup, s, event, next);
    hide QuotesEndure;
    PricedAnswer(s.store, s.rows, setup, s.repricing[event.offer], event.offer, event.answer, s.now);
    if next.store.prices != s.store.prices {
      assert Bound(setup, s.store.offers[event.offer].selling, s.store.offers[event.offer].references);
      hide PlatformIds, References.AllPlatform, References.ReferencesOf;
      QuoteIsBound(setup, s.store.offers[event.offer], event.offer, |s.store.prices|, event.answer.original, event.answer.priced.value);
    }
  }

  lemma ReferencesKept(setup: Setup, s: System, event: Event, next: System)
    requires ReferencesSafe(setup, s.store) && Step(setup, s, event, next) && "" !in PlatformIds(setup)
    ensures ReferencesSafe(setup, next.store)
  {
    hide Step, Bound, PlatformIds;
    if event.StoreSearch? {
      StoreSearchBinds(setup, s, event, next);
    } else if event.EndReprice? {
      EndRepriceBinds(setup, s, event, next);
    } else {
      StepMoves(setup, s, event, next);
      OldRowsBound(setup, s.store, next.store);
      hide QuotesEndure;
    }
  }

  // In every stored offer and quote of every run each text directly under an opaque key is a platform
  // id, and so is each value of the map later answers are bound with. Texts elsewhere follow
  // References.SupplierTextStaysIff.
  lemma {:induction false} OnlyPlatformIdsStored(setup: Setup, states: seq<System>, events: seq<Event>, i: nat)
    requires Run(setup, states, events) && i < |states| && "" !in PlatformIds(setup)
    ensures ReferencesSafe(setup, states[i].store)
    decreases i
  {
    hide Run, Step, ReferencesSafe, PlatformIds;
    if i > 0 {
      OnlyPlatformIdsStored(setup, states, events, i - 1);
      StepAt(setup, states, events, i - 1);
      ReferencesKept(setup, states[i - 1], events[i - 1], states[i]);
    } else {
      StartsEmpty(setup, states, events);
      NothingStored(setup, states[0]);
    }
  }

  lemma NothingStored(setup: Setup, s: System)
    requires Initial(s)
    ensures ReferencesSafe(setup, s.store)
  {
  }

  // ---- Held bookings -------------------------------------------------------------------------------------

  // The quote of a booking: the trees and the map of its price row.
  function QuoteKept(store: Store, id: Id): Quote
    requires id < |store.bookings| && store.bookings[id].price < |store.prices|
  {
    store.prices[store.bookings[id].price].quote
  }

  ghost predicate HeldBooking(setup: Setup, states: seq<System>, events: seq<Event>, i: nat, id: Id) {
    && Run(setup, states, events) && i < |states| && id < |states[i].store.bookings|
    && states[i].store.bookings[id].state == Held
  }

  // The stored answer is the supplier's own body, and the response its projection against the price row.
  lemma HeldIsAnswered(setup: Setup, states: seq<System>, events: seq<Event>, i: nat, id: Id)
    requires HeldBooking(setup, states, events, i, id)
    ensures var store := states[i].store;
            var row := store.bookings[id];
            && row.price < |store.prices| && row.offer < |store.offers|
            && store.prices[row.price].accepted && store.prices[row.price].offer == row.offer
            && row.kept == KeptOf(store, row.price, row.kept.passengers) && row.kept.quote == QuoteKept(store, id)
            && row.original.Some?
            && var shown := Answered(QuoteKept(store, id), Own(setup, row.kept, id), setup.drawn(BookingRow, id), row.original.value);
               shown.Some? && row.response == Some(Supplier(shown.value))
  {
    RunIsSafe(setup, states, events, i);
    hide Run, QuotesSafe, DispatchSafe, Answered, Own, LateCount, ResolutionCount, Done;
    assert OutcomeSound(setup, states[i].store, states[i].finished, id);
  }

  // Over every run, a held booking's stored answer confirms the hold, with both references and no ticket,
  // for the accepted price's own flights, currency, passengers and money.
  lemma HeldMatchesQuote(setup: Setup, states: seq<System>, events: seq<Event>, i: nat, id: Id)
    requires HeldBooking(setup, states, events, i, id)
    ensures var store := states[i].store;
            var row := store.bookings[id];
            && row.price < |store.prices| && store.prices[row.price].accepted && row.original.Some?
            && var body := row.original.value;
               && Member(Member(body, "item2"), "isSuccess") == Bool(true)
               && Member(Info(body), "bookingStatus") == Text("Created")
               && StatesText(Member(Info(body), "pnr")) && StatesText(Member(Info(body), "bookingCodeRef"))
               && !References.ContainsTicket(body)
               && HeldFare.AnswersQuote(body, Info(store.prices[row.price].quote.original))
  {
    HeldIsAnswered(setup, states, events, i, id);
    var row := states[i].store.bookings[id];
    hide HeldBooking, Answered, Own, HeldFare.AnswersQuote, References.ContainsTicket, Member;
    AnsweredExactlyWhen(row.kept.quote, Own(setup, row.kept, id), setup.drawn(BookingRow, id), row.original.value);
  }

  // Its response shows the accepted price's selling amounts at every price the answer states, except
  // those of fares under no counted passenger kind, which stay the supplier's.
  lemma HeldShowsSelling(setup: Setup, states: seq<System>, events: seq<Event>, i: nat, id: Id, place: HeldFare.Place)
    requires HeldBooking(setup, states, events, i, id)
    requires states[i].store.bookings[id].price < |states[i].store.prices| && states[i].store.bookings[id].original.Some?
    requires DistinctKeys(Members(Member(Info(QuoteKept(states[i].store, id).original), "passengerCounts")))
    requires var flight := Get(Info(states[i].store.bookings[id].original.value), "flightInfo");
             && flight.Some? && HeldFare.StatedAt(flight.value, place)
             && Plain(QuotedAt(QuoteKept(states[i].store, id), flight.value, place))
    ensures var row := states[i].store.bookings[id];
            && row.response.Some? && row.response.value.Supplier?
            && HeldFare.GetIn(row.response.value.body, HeldFare.PathOf(place)) ==
               Some(QuotedAt(QuoteKept(states[i].store, id), Get(Info(row.original.value), "flightInfo").value, place))
  {
    HeldIsAnswered(setup, states, events, i, id);
    var row := states[i].store.bookings[id];
    hide HeldBooking, Answered, Own, HeldFare.GetIn, HeldFare.PathOf, HeldFare.PriceAt, HeldFare.StatedAt, HeldFare.Replaces,
         Get, Member, Plain, DistinctKeys;
    AnsweredShowsSelling(row.kept.quote, Own(setup, row.kept, id), setup.drawn(BookingRow, id), row.original.value, place);
  }

  // What a booking kept when it was reserved are the ids of its own rows.
  lemma OwnRows(setup: Setup, states: seq<System>, events: seq<Event>, i: nat, id: Id)
    requires Run(setup, states, events) && i < |states| && id < |states[i].store.bookings|
    ensures var store := states[i].store;
            var row := store.bookings[id];
            && row.offer < |store.offers| && row.price < |store.prices| && store.prices[row.price].offer == row.offer
            && Own(setup, row.kept, id) == References.Identities(setup.text(SearchRow, store.offers[row.offer].search), setup.text(OfferRow, row.offer),
                                                                 setup.text(PriceRow, row.price), setup.text(BookingRow, id))
            && row.kept.supplier == store.offers[row.offer].supplier && row.kept.quote == store.prices[row.price].quote
  {
    RunIsSafe(setup, states, events, i);
    hide Run, QuotesSafe, DispatchSafe, LateCount, ResolutionCount, Done;
    assert OutcomeSound(setup, states[i].store, states[i].finished, id);
  }

  // Its response is an answer that names the booking's own search, offer, price and booking wherever it
  // states them, with the accepted price's display, and no other reference in it comes from a supplier.
  lemma HeldIsPlatformOnly(setup: Setup, states: seq<System>, events: seq<Event>, i: nat, id: Id) returns (answer: Value)
    requires HeldBooking(setup, states, events, i, id) && "" !in PlatformIds(setup)
    ensures var row := states[i].store.bookings[id];
            && row.price < |states[i].store.prices| && row.response.Some? && row.response.value.Supplier?
            && row.offer < |states[i].store.offers|
            && NamesOwn(answer, References.Identities(setup.text(SearchRow, states[i].store.offers[row.offer].search), setup.text(OfferRow, row.offer),
                                                      setup.text(PriceRow, row.price), setup.text(BookingRow, id)))
            && row.response.value.body == Displayed(answer, Breakdown(QuoteKept(states[i].store, id)))
            && forall text :: text in References.ReferencesOf(row.response.value.body) ==> text in PlatformIds(setup)
  {
    HeldIsAnswered(setup, states, events, i, id);
    OnlyPlatformIdsStored(setup, states, events, i);
    var row := states[i].store.bookings[id];
    assert Bound(setup, QuoteKept(states[i].store, id).selling, QuoteKept(states[i].store, id).references);
    OwnIsPlatform(setup, row.kept, id);
    RowNamed(setup, BookingRow, id);
    OwnRows(setup, states, events, i, id);
    hide HeldBooking, ReferencesSafe, Answered, Own, PlatformIds, References.AllPlatform, References.SuppliesPlatform,
         References.OwnPlatform, References.ReferencesOf, NamesOwn, Displayed, Breakdown;
    answer := AnsweredIsPlatformOnly(row.kept.quote, Own(setup, row.kept, id), setup.drawn(BookingRow, id), row.original.value, PlatformIds(setup));
  }

  lemma OwnIsPlatform(setup: Setup, kept: Kept, booking: Id)
    ensures References.OwnPlatform(Own(setup, kept, booking), PlatformIds(setup))
  {
    RowNamed(setup, SearchRow, kept.search);
    RowNamed(setup, OfferRow, kept.offer);
    RowNamed(setup, PriceRow, kept.price);
    RowNamed(setup, BookingRow, booking);
    hide PlatformIds, References.SuppliesPlatform;
  }

  // ---- Issued bookings -----------------------------------------------------------------------------------

  ghost predicate IssuedBooking(setup: Setup, states: seq<System>, events: seq<Event>, i: nat, id: Id) {
    && Run(setup, states, events) && i < |states| && id < |states[i].store.bookings|
    && states[i].store.bookings[id].state == Issued
  }

  // The receipt made from a stored answer for what its booking kept.
  function ReceiptOf(setup: Setup, kept: Kept, id: Id, body: Value): Option<Value> {
    TicketReceipt.Receipt(kept.quote, Own(setup, kept, id), setup.drawn(BookingRow, id), setup.text(TicketRow, id),
                          kept.passengers, setup.script, kept.supplier, body)
  }

  // The response is the receipt of the supplier's own body against the price row.
  lemma IssuedIsReceipted(setup: Setup, states: seq<System>, events: seq<Event>, i: nat, id: Id)
    requires IssuedBooking(setup, states, events, i, id)
    ensures var store := states[i].store;
            var row := store.bookings[id];
            && row.price < |store.prices| && row.offer < |store.offers|
            && store.prices[row.price].accepted && store.prices[row.price].offer == row.offer
            && row.kept == KeptOf(store, row.price, row.kept.passengers) && row.kept.quote == QuoteKept(store, id)
            && row.original.Some?
            && var shown := ReceiptOf(setup, row.kept, id, row.original.value);
               shown.Some? && row.response == Some(Supplier(shown.value))
  {
    RunIsSafe(setup, states, events, i);
    hide Run, QuotesSafe, DispatchSafe, Answered, TicketReceipt.Receipt, Own, LateCount, ResolutionCount, Done;
    assert OutcomeSound(setup, states[i].store, states[i].finished, id);
  }

  // The passengers' places, each with a ticket of the answer that names only that passenger.
  ghost predicate AllTicketed(sent: seq<Value>, body: Value, same: TicketAssignment.Same, response: Value) {
    var places := Member(Info(response), "ticketInfoes");
    && places.Array? && |places.items| == |sent|
    && forall j :: 0 <= j < |sent| ==>
         TicketAssignment.TicketFor(sent, TicketReceipt.TicketsOf(body), same, j, places.items[j])
  }

  // Over every run, an issued booking's stored answer is about the accepted price, and its response hands
  // every passenger sent the one ticket that names nobody else.
  lemma IssuedTicketsEveryone(setup: Setup, states: seq<System>, events: seq<Event>, i: nat, id: Id)
    requires IssuedBooking(setup, states, events, i, id)
    ensures var store := states[i].store;
            var row := store.bookings[id];
            && row.price < |store.prices| && store.prices[row.price].accepted && row.original.Some?
            && var quote, body := store.prices[row.price].quote, row.original.value;
               && TicketReceipt.ConfirmsIssue(quote, body) && HeldFare.AnswersQuote(body, Info(quote.original))
               && TicketAssignment.Numbered(TicketReceipt.TicketsOf(body))
               && row.response.Some? && row.response.value.Supplier? && row.kept.passengers.Array?
               && AllTicketed(row.kept.passengers.items, body,
                              PassengerNames.Persons(setup.script, row.kept.supplier)(TicketReceipt.CountsVerified(quote, body)), row.response.value.body)
  {
    IssuedIsReceipted(setup, states, events, i, id);
    var row := states[i].store.bookings[id];
    hide IssuedBooking, TicketReceipt.Receipt, Own, HeldFare.AnswersQuote, TicketReceipt.ConfirmsIssue, TicketAssignment.Numbered,
         TicketReceipt.TicketsOf, TicketReceipt.CountsVerified, TicketAssignment.TicketFor, Member, Get;
    TicketReceipt.ReceiptTicketsEveryone(row.kept.quote, Own(setup, row.kept, id), setup.drawn(BookingRow, id), setup.text(TicketRow, id),
                                         row.kept.passengers, setup.script, row.kept.supplier, row.original.value);
  }

  // Its response shows the accepted price's selling amounts, like a held one's.
  lemma IssuedShowsSelling(setup: Setup, states: seq<System>, events: seq<Event>, i: nat, id: Id, place: HeldFare.Place)
    requires IssuedBooking(setup, states, events, i, id)
    requires states[i].store.bookings[id].price < |states[i].store.prices| && states[i].store.bookings[id].original.Some?
    requires DistinctKeys(Members(Member(Info(QuoteKept(states[i].store, id).original), "passengerCounts")))
    requires var flight := Get(Info(states[i].store.bookings[id].original.value), "flightInfo");
             && flight.Some? && HeldFare.StatedAt(flight.value, place)
             && Plain(QuotedAt(QuoteKept(states[i].store, id), flight.value, place))
    ensures var row := states[i].store.bookings[id];
            && row.response.Some? && row.response.value.Supplier?
            && HeldFare.GetIn(row.response.value.body, HeldFare.PathOf(place)) ==
               Some(QuotedAt(QuoteKept(states[i].store, id), Get(Info(row.original.value), "flightInfo").value, place))
  {
    IssuedIsReceipted(setup, states, events, i, id);
    var row := states[i].store.bookings[id];
    hide IssuedBooking, TicketReceipt.Receipt, Own, HeldFare.GetIn, HeldFare.PathOf, HeldFare.StatedAt, QuotedAt, Get, Member, Plain,
         DistinctKeys;
    TicketReceipt.ReceiptShowsSelling(row.kept.quote, Own(setup, row.kept, id), setup.drawn(BookingRow, id), setup.text(TicketRow, id),
                                      row.kept.passengers, setup.script, row.kept.supplier, row.original.value, place);
  }

  // Held or issued, over every run the response shows the accepted price's own fare display.
  lemma OwnDisplayShown(setup: Setup, states: seq<System>, events: seq<Event>, i: nat, id: Id)
    requires HeldBooking(setup, states, events, i, id) || IssuedBooking(setup, states, events, i, id)
    requires states[i].store.bookings[id].price < |states[i].store.prices|
    requires Breakdown(QuoteKept(states[i].store, id)).Some?
    ensures var row := states[i].store.bookings[id];
            && row.response.Some? && row.response.value.Supplier?
            && ShowsDisplay(row.response.value.body, Breakdown(QuoteKept(states[i].store, id)).value)
  {
    var row := states[i].store.bookings[id];
    hide Answered, TicketReceipt.Receipt, Own, Breakdown, ShowsDisplay, Run;
    if HeldBooking(setup, states, events, i, id) {
      HeldIsAnswered(setup, states, events, i, id);
      AnsweredShowsDisplay(row.kept.quote, Own(setup, row.kept, id), setup.drawn(BookingRow, id), row.original.value);
    } else {
      IssuedIsReceipted(setup, states, events, i, id);
      TicketReceipt.ReceiptShowsDisplay(row.kept.quote, Own(setup, row.kept, id), setup.drawn(BookingRow, id), setup.text(TicketRow, id),
                                        row.kept.passengers, setup.script, row.kept.supplier, row.original.value);
    }
  }

  // It shows only platform ids exactly when no ticket of the stored answer states another reference in
  // its passenger's name or gender.
  lemma IssuedIsPlatformOnlyIff(setup: Setup, states: seq<System>, events: seq<Event>, i: nat, id: Id)
    requires IssuedBooking(setup, states, events, i, id) && "" !in PlatformIds(setup)
    ensures var row := states[i].store.bookings[id];
            && row.original.Some? && row.response.Some? && row.response.value.Supplier?
            && var tickets := TicketReceipt.TicketsOf(row.original.value);
               TicketReceipt.OnlyFrom(row.response.value.body, PlatformIds(setup)) <==>
               forall k :: 0 <= k < |tickets| ==> TicketReceipt.NamesOnlyFrom(tickets[k], PlatformIds(setup))
  {
    IssuedIsReceipted(setup, states, events, i, id);
    OnlyPlatformIdsStored(setup, states, events, i);
    var row := states[i].store.bookings[id];
    assert Bound(setup, QuoteKept(states[i].store, id).selling, QuoteKept(states[i].store, id).references);
    OwnIsPlatform(setup, row.kept, id);
    RowNamed(setup, BookingRow, id);
    RowNamed(setup, TicketRow, id);
    hide IssuedBooking, ReferencesSafe, TicketReceipt.Receipt, Own, PlatformIds, References.AllPlatform, References.SuppliesPlatform,
         References.OwnPlatform, References.ReferencesOf, TicketReceipt.OnlyFrom, TicketReceipt.NamesOnlyFrom, TicketReceipt.TicketsOf,
         Member, Get;
    TicketReceipt.ReceiptIsPlatformOnlyIff(row.kept.quote, Own(setup, row.kept, id), setup.drawn(BookingRow, id), setup.text(TicketRow, id),
                                           row.kept.passengers, setup.script, row.kept.supplier, row.original.value, PlatformIds(setup));
  }

  // Its response names the booking's own search, offer, price, booking and ticket rows, and the answer's PNR.
  lemma IssuedNamesRows(setup: Setup, states: seq<System>, events: seq<Event>, i: nat, id: Id)
    requires IssuedBooking(setup, states, events, i, id)
    ensures var store := states[i].store;
            var row := store.bookings[id];
            && row.offer < |store.offers| && row.original.Some? && row.response.Some? && row.response.value.Supplier?
            && var shown := Info(row.response.value.body);
               && Member(shown, "uniqueTransID") == Text(setup.text(SearchRow, store.offers[row.offer].search))
               && Member(shown, "itemCodeRef") == Text(setup.text(OfferRow, row.offer))
               && Member(shown, "priceCodeRef") == Text(setup.text(PriceRow, row.price))
               && Member(shown, "bookingCodeRef") == Text(setup.text(BookingRow, id))
               && Member(shown, "ticketCodeRef") == Text(setup.text(TicketRow, id))
               && Member(shown, "pnr") == Member(Info(row.original.value), "pnr")
  {
    IssuedIsReceipted(setup, states, events, i, id);
    OwnRows(setup, states, events, i, id);
    var row := states[i].store.bookings[id];
    hide IssuedBooking, TicketReceipt.Receipt, Own, Member;
    TicketReceipt.ReceiptNamesRows(row.kept.quote, Own(setup, row.kept, id), setup.drawn(BookingRow, id), setup.text(TicketRow, id),
                                   row.kept.passengers, setup.script, row.kept.supplier, row.original.value);
  }

  // Over every run, no issued booking has two passengers its supplier's tickets could not tell apart.
  lemma IssuedToldApart(setup: Setup, states: seq<System>, events: seq<Event>, i: nat, id: Id)
    requires IssuedBooking(setup, states, events, i, id)
    ensures var store := states[i].store;
            var row := store.bookings[id];
            && row.price < |store.prices| && row.original.Some? && row.kept.passengers.Array?
            && PassengerNames.ToldApart(setup.script, PassengerNames.Lenient(row.kept.supplier,
                 TicketReceipt.CountsVerified(store.prices[row.price].quote, row.original.value)), row.kept.passengers.items)
  {
    IssuedIsReceipted(setup, states, events, i, id);
    var row := states[i].store.bookings[id];
    hide IssuedBooking, TicketReceipt.Receipt, Own, TicketReceipt.CountsVerified, PassengerNames.ToldApart, PassengerNames.Lenient;
    TicketReceipt.ReceiptParts(row.kept.quote, Own(setup, row.kept, id), setup.drawn(BookingRow, id), setup.text(TicketRow, id),
                               row.kept.passengers, setup.script, row.kept.supplier, row.original.value);
    PassengerNames.AssignedToldApart(setup.script, row.kept.supplier, TicketReceipt.CountsVerified(row.kept.quote, row.original.value),
                                     row.kept.passengers.items, TicketReceipt.TicketsOf(row.original.value));
  }
}
