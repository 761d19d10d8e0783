// From Search through RePrice to Book over whole runs (src/reprice.rs, src/booking.rs): every price is for
// the flights its client selected from the stored offer, and so is what is booked.
module SelectionRuns {
  import opened Wrappers
  import opened Json
  import opened BookAnswer
  import opened Bookings
  import opened BookingRuns
  import AnswerRuns
  import Connections
  import HeldFare
  import RepriceAnswer
  import RepriceSelection

  // The selection is what its references stand for in this offer.
  predicate SelectedFrom(row: Offer, selection: RepriceSelection.Selection) {
    RepriceSelection.Selected(row.original, row.selling, selection.publicRefs) == Some(selection)
  }

  // The price is for its offer's passengers, airline and currency, its search's routes and its selection.
  ghost predicate PriceConfirmed(store: Store, p: Id)
    requires p < |store.prices|
  {
    var price := store.prices[p];
    && price.offer < |store.offers|
    && var row := store.offers[price.offer];
       && row.search < |store.searches| && SelectedFrom(row, price.selected)
       && RepriceAnswer.Confirms(Info(price.quote.original), row.original, row.currency, store.searches[row.search].travel,
                                 price.selected.directions)
  }

  ghost predicate SelectionsSafe(s: System) {
    && (forall o :: o in s.repricing ==> o < |s.store.offers| && SelectedFrom(s.store.offers[o], s.repricing[o].selection))
    && (forall p :: 0 <= p < |s.store.prices| ==> PriceConfirmed(s.store, p))
  }

  // ---- One step ------------------------------------------------------------------------------------------

  lemma BegunSelects(store: Store, rows: Connections.Rows, setup: Setup, machine: Machine, offer: Id, request: RepriceRequest, now: int)
    requires BeginReprice(store, rows, setup, machine, offer, request, now).Ok?
    ensures offer < |store.offers|
    ensures SelectedFrom(store.offers[offer], BeginReprice(store, rows, setup, machine, offer, request, now).value)
  {
    hide RepriceSelection.Parse, RepriceSelection.Shaped, RepriceSelection.SupplierRefs, RepriceSelection.ChosenOptions,
         CommissionsRepeated, Live, Connections.StillValid;
  }

  lemma StartSelects(setup: Setup, s: System, event: Event, next: System)
    requires event.StartReprice? && Step(setup, s, event, next)
    ensures next.store == s.store && event.offer < |s.store.offers| && event.offer in next.repricing
    ensures next.repricing == s.repricing[event.offer := next.repricing[event.offer]]
    ensures SelectedFrom(s.store.offers[event.offer], next.repricing[event.offer].selection)
  {
    BegunSelects(s.store, s.rows, setup, event.machine, event.offer, event.asking, s.now);
    hide BeginReprice, SelectedFrom;
  }

  // No other step begins a RePrice or changes one under way.
  lemma RepricingKept(setup: Setup, s: System, event: Event, next: System)
    requires !event.StartReprice? && Step(setup, s, event, next)
    ensures forall o :: o in next.repricing ==> o in s.repricing && next.repricing[o] == s.repricing[o]
  {
    hide Finish, FinishReprice, Accept, Book, Resolve, PricesOwned, BeginReprice, Connections.UpdateRow, Connections.EnabledEpochs,
         StoredOffers, LatestVersion, Rejects;
  }

  lemma FinishConfirms(store: Store, rows: Connections.Rows, setup: Setup, asked: Asked, offer: Id, answer: Answer, now: int)
    requires offer < |store.offers| && store.offers[offer].search < |store.searches|
    requires SelectedFrom(store.offers[offer], asked.selection)
    ensures var next := FinishReprice(store, rows, setup, asked, offer, answer, now).0;
            && |store.prices| <= |next.prices| <= |store.prices| + 1 && next.searches == store.searches
            && (|next.prices| == |store.prices| + 1 ==> PriceConfirmed(next, |store.prices|))
  {
    hide LatestVersion, Live, Connections.StillValid, FareReferenced, Rejects, AnswerFailure, SelectedFrom, RepriceAnswer.Confirms,
         QuoteOf, Info;
    if AnswerFailure(store, setup, offer, asked, answer).None? && Live(store, offer, now) {
      var row := store.offers[offer];
      UsableIsReferenced(store, setup, offer, asked, answer);
      LiveHasSearch(store, offer, now);
      QuoteKeepsOriginal(setup, row, offer, |store.prices|, answer.original, answer.priced.value);
      SameSelected(row, row.(repriceRequired := false), asked.selection);
    }
  }

  // An old price stays confirmed.
  lemma PriceStays(s: System, event: Event, next: System, p: Id)
    requires QuotesMove(s, event, next) && p < |s.store.prices| && PriceConfirmed(s.store, p)
    ensures PriceConfirmed(next.store, p)
  {
    hide SelectedFrom, RepriceAnswer.Confirms;
    var was, now := s.store.prices[p], next.store.prices[p];
    assert now.(accepted := true) == was.(accepted := true);
    var row, kept := s.store.offers[was.offer], next.store.offers[was.offer];
    assert kept.(repriceRequired := true) == row.(repriceRequired := true);
    assert next.store.searches[row.search].travel == s.store.searches[row.search].travel;
    SameSelected(row, kept, was.selected);
  }

  lemma SameSelected(row: Offer, kept: Offer, selection: RepriceSelection.Selection)
    requires kept.(repriceRequired := true) == row.(repriceRequired := true)
    ensures SelectedFrom(kept, selection) <==> SelectedFrom(row, selection)
    ensures kept.original == row.original && kept.currency == row.currency && kept.search == row.search
  {
    assert kept.(repriceRequired := true).original == kept.original && kept.(repriceRequired := true).selling == kept.selling;
    assert row.(repriceRequired := true).original == row.original && row.(repriceRequired := true).selling == row.selling;
    hide RepriceSelection.Selected;
  }

  lemma StartKeepsSelections(setup: Setup, s: System, event: Event, next: System)
    requires SelectionsSafe(s) && event.StartReprice? && Step(setup, s, event, next)
    ensures SelectionsSafe(next)
  {
    hide Step, SelectedFrom, PriceConfirmed;
    StartSelects(setup, s, event, next);
  }

  lemma OthersKeepSelections(setup: Setup, s: System, event: Event, next: System)
    requires SelectionsSafe(s) && !event.StartReprice? && Step(setup, s, event, next)
    ensures SelectionsSafe(next)
  {
    hide Step, SelectedFrom, PriceConfirmed, QuotesMove, BookingsMove, RestMoves;
    RepricingKept(setup, s, event, next);
    StepMoves(setup, s, event, next);
    forall o | o in next.repricing ensures o < |next.store.offers| && SelectedFrom(next.store.offers[o], next.repricing[o].selection) {
      OfferStays(s, event, next, o);
      SameSelected(s.store.offers[o], next.store.offers[o], next.repricing[o].selection);
    }
    forall p | 0 <= p < |next.store.prices| ensures PriceConfirmed(next.store, p) {
      if p < |s.store.prices| {
        PriceStays(s, event, next, p);
      } else {
        NewPriceConfirmed(setup, s, event, next, p);
      }
    }
  }

  lemma OfferStays(s: System, event: Event, next: System, o: Id)
    requires QuotesMove(s, event, next) && o < |s.store.offers|
    ensures o < |next.store.offers| && next.store.offers[o].(repriceRequired := true) == s.store.offers[o].(repriceRequired := true)
  {
  }

  // Only an answer to a RePrice adds a price.
  lemma NewPriceConfirmed(setup: Setup, s: System, event: Event, next: System, p: Id)
    requires SelectionsSafe(s) && Step(setup, s, event, next) && Moves(s, event, next)
    requires |s.store.prices| <= p < |next.store.prices|
    ensures PriceConfirmed(next.store, p)
  {
    hide Step, SelectedFrom, PriceConfirmed, QuotesEndure, FinishReprice;
    if event.StoreSearch? {
      StoreSearchEffect(setup, s, event, next);
      assert false;
    }
    assert event.EndReprice?;
    EndRepriceEffect(setup, s, event, next);
    FinishConfirms(s.store, s.rows, setup, s.repricing[event.offer], event.offer, event.answer, s.now);
  }

  lemma {:induction false} RunSelects(setup: Setup, states: seq<System>, events: seq<Event>, i: nat)
    requires Run(setup, states, events) && i < |states|
    ensures SelectionsSafe(states[i])
    decreases i
  {
    hide Run, Step, SelectionsSafe;
    if i > 0 {
      RunSelects(setup, states, events, i - 1);
      StepAt(setup, states, events, i - 1);
      if events[i - 1].StartReprice? {
        StartKeepsSelections(setup, states[i - 1], events[i - 1], states[i]);
      } else {
        OthersKeepSelections(setup, states[i - 1], events[i - 1], states[i]);
      }
    } else {
      StartsEmpty(setup, states, events);
      NothingSelected(states[0]);
    }
  }

  lemma NothingSelected(s: System)
    requires Initial(s)
    ensures SelectionsSafe(s)
  {
  }

  // ---- Main results --------------------------------------------------------------------------------------

  // Over every run, every stored price is for the passengers, airline and currency of its offer, the routes
  // and passengers of its search, and one flight option a route: the one the client's references stand for,
  // with every other reading of them ruled out.
  lemma PriceIsForTheSelection(setup: Setup, states: seq<System>, events: seq<Event>, i: nat, p: Id)
    requires Run(setup, states, events) && i < |states| && p < |states[i].store.prices|
    ensures PriceConfirmed(states[i].store, p)
    ensures var row, selection := states[i].store.offers[states[i].store.prices[p].offer], states[i].store.prices[p].selected;
            && RepriceSelection.Groups(row.selling).Some? && RepriceSelection.Groups(row.original).Some?
            && var groups, sources := RepriceSelection.Groups(row.selling).value, RepriceSelection.Groups(row.original).value;
               && |groups| == |sources|
               && RepriceSelection.IsChoice(groups, selection.indices)
               && RepriceSelection.Flattened(groups, selection.indices) == selection.publicRefs
               && RepriceSelection.Unambiguous(groups, selection.indices)
               && RepriceSelection.Mirrors(groups, sources, selection.indices)
               && selection.directions == RepriceSelection.ChosenOptions(sources, selection.indices)
  {
    RunSelects(setup, states, events, i);
    PriceOf(states[i], p);
    var row, selection := states[i].store.offers[states[i].store.prices[p].offer], states[i].store.prices[p].selected;
    hide Run, SelectionsSafe, RepriceSelection.Parse, RepriceSelection.IsChoice, RepriceSelection.Unambiguous, RepriceSelection.Mirrors,
         RepriceSelection.Flattened, RepriceSelection.ChosenOptions, RepriceSelection.SupplierRefs, RepriceAnswer.Confirms;
    RepriceSelection.ParseSound(RepriceSelection.Groups(row.selling).value, RepriceSelection.Groups(row.original).value, selection.publicRefs);
  }

  // ---- Who asked for a price -----------------------------------------------------------------------------

  // The machine began the RePrice under way, and every condition held when it did.
  ghost predicate BegunBy(setup: Setup, before: System, event: Event, offer: Id, asked: Asked) {
    && event.StartReprice? && event.offer == offer && asked.machine == event.machine
    && asked.selection.publicRefs == event.asking.segments
    && Repriceable(before.store, before.rows, setup, event.machine, offer, event.asking, before.now)
  }

  lemma StartBegins(setup: Setup, s: System, event: Event, next: System)
    requires event.StartReprice? && Step(setup, s, event, next)
    ensures event.offer in next.repricing && BegunBy(setup, s, event, event.offer, next.repricing[event.offer])
    ensures event.offer < |s.store.offers| && s.store.offers[event.offer].client == event.machine.client
  {
    RepricedExactlyWhen(s.store, s.rows, setup, event.machine, event.offer, event.asking, s.now);
    hide BeginReprice, ReferencesMatch, SameCommissions, Live, RepriceSelection.Chooses;
  }

  lemma {:induction false} AskedBy(setup: Setup, states: seq<System>, events: seq<Event>, i: nat, o: Id) returns (k: nat)
    requires Run(setup, states, events) && i < |states| && o in states[i].repricing
    ensures k < i && k < |events| && BegunBy(setup, states[k], events[k], o, states[i].repricing[o])
    ensures o < |states[i].store.offers| && states[i].store.offers[o].client == events[k].machine.client
    decreases i
  {
    hide Run, Step, BegunBy, QuotesMove, BookingsMove, RestMoves;
    if i == 0 {
      StartsEmpty(setup, states, events);
    }
    RunShape(setup, states, events);
    var s, event, next := states[i - 1], events[i - 1], states[i];
    StepAt(setup, states, events, i - 1);
    if event.StartReprice? && event.offer == o {
      StartBegins(setup, s, event, next);
      StartSelects(setup, s, event, next);
      k := i - 1;
    } else {
      AskedBefore(setup, s, event, next, o);
      k := AskedBy(setup, states, events, i - 1, o);
      StepMoves(setup, s, event, next);
      OfferStays(s, event, next, o);
      SameClient(s.store.offers[o], next.store.offers[o]);
    }
  }

  lemma AskedBefore(setup: Setup, s: System, event: Event, next: System, o: Id)
    requires Step(setup, s, event, next) && o in next.repricing && (event.StartReprice? ==> event.offer != o)
    ensures o in s.repricing && next.repricing[o] == s.repricing[o]
  {
    hide Step, SelectedFrom;
    if event.StartReprice? {
      StartSelects(setup, s, event, next);
    } else {
      RepricingKept(setup, s, event, next);
    }
  }

  lemma SameClient(row: Offer, kept: Offer)
    requires kept.(repriceRequired := true) == row.(repriceRequired := true)
    ensures kept.client == row.client
  {
    assert kept.(repriceRequired := true).client == kept.client && row.(repriceRequired := true).client == row.client;
  }

  lemma FinishAdds(setup: Setup, s: System, event: Event, next: System)
    requires event.EndReprice? && Step(setup, s, event, next) && |next.store.prices| > |s.store.prices|
    ensures event.offer in s.repricing && event.offer < |s.store.offers|
    ensures s.store.offers[event.offer].search < |s.store.searches| && |next.store.prices| == |s.store.prices| + 1
    ensures IsNewPrice(s.store, setup, s.repricing[event.offer], event.offer, event.answer, next.store.prices[|s.store.prices|])
  {
    EndRepriceEffect(setup, s, event, next);
    FinishedExactlyWhen(s.store, s.rows, setup, s.repricing[event.offer], event.offer, event.answer, s.now);
    hide FinishReprice, IsNewPrice, Priceable, AnswerRefusal, Live, Step;
  }

  // Over every run a price answers one RePrice: the machine that began it was the offer's own client, under
  // every condition and with the references it sent, and the row says so.
  lemma {:induction false} PriceWasAskedFor(setup: Setup, states: seq<System>, events: seq<Event>, i: nat, p: Id)
    returns (k: nat, j: nat)
    requires Run(setup, states, events) && i < |states| && p < |states[i].store.prices|
    ensures k < j < i && j < |events| && events[k].StartReprice? && events[j].EndReprice? && |states[j].store.prices| == p
    ensures var price, machine := states[i].store.prices[p], events[k].machine;
            && price.offer == events[k].offer == events[j].offer && price.client == machine.client
            && price.audience == machine.audience && price.agent == machine.agent
            && price.selected.publicRefs == events[k].asking.segments
            && Repriceable(states[k].store, states[k].rows, setup, machine, price.offer, events[k].asking, states[k].now)
    decreases i
  {
    hide Run, Step, QuotesEndure, Repriceable;
    if i == 0 {
      StartsEmpty(setup, states, events);
    }
    RunShape(setup, states, events);
    var s, event, next := states[i - 1], events[i - 1], states[i];
    StepAt(setup, states, events, i - 1);
    StepMoves(setup, s, event, next);
    if p < |s.store.prices| {
      k, j := PriceWasAskedFor(setup, states, events, i - 1, p);
      PriceRowStays(s.store, next.store, p);
    } else {
      if event.StoreSearch? {
        StoreSearchEffect(setup, s, event, next);
        assert false;
      }
      FinishAdds(setup, s, event, next);
      hide FinishReprice;
      j := i - 1;
      k := AskedBy(setup, states, events, j, event.offer);
      NewPriceAsked(setup, s.store, s.repricing[event.offer], event.offer, event.answer, next.store.prices[p]);
    }
  }

  lemma PriceRowStays(store: Store, next: Store, p: Id)
    requires QuotesEndure(store, next) && p < |store.prices|
    ensures p < |next.prices|
    ensures var was, now := store.prices[p], next.prices[p];
            now.offer == was.offer && now.client == was.client && now.audience == was.audience && now.agent == was.agent && now.selected == was.selected
  {
    var was, now := store.prices[p], next.prices[p];
    assert now.(accepted := true) == was.(accepted := true);
  }

  lemma NewPriceAsked(setup: Setup, store: Store, asked: Asked, offer: Id, answer: Answer, price: Price)
    requires offer < |store.offers| && store.offers[offer].search < |store.searches|
    requires IsNewPrice(store, setup, asked, offer, answer, price)
    ensures price.offer == offer && price.client == store.offers[offer].client
    ensures price.audience == asked.machine.audience && price.agent == asked.machine.agent && price.selected == asked.selection
  {
    hide QuoteFor, NextVersion;
  }

  // What was booked, told from the Search on: its passengers, its routes and the selected flights.
  ghost predicate BookedAsSelected(store: Store, id: Id, flight: Value) {
    && id < |store.bookings| && store.bookings[id].price < |store.prices| && PriceConfirmed(store, store.bookings[id].price)
    && var price := store.prices[store.bookings[id].price];
       && price.offer == store.bookings[id].offer
       && var travel := store.searches[store.offers[price.offer].search].travel;
          && RepriceAnswer.MatchesPassengers(flight, travel) && RepriceAnswer.ValidRoutes(flight, travel.routes)
          && RepriceAnswer.MatchesFlights(flight, price.selected.directions)
  }

  lemma ConfirmedMatches(setup: Setup, states: seq<System>, events: seq<Event>, i: nat, id: Id)
    requires AnswerRuns.HeldBooking(setup, states, events, i, id) || AnswerRuns.IssuedBooking(setup, states, events, i, id)
    ensures var store := states[i].store;
            var row := store.bookings[id];
            && row.price < |store.prices| && store.prices[row.price].offer == row.offer && row.original.Some?
            && (Get(Info(row.original.value), "flightInfo").Some? ==>
                  HeldFare.AtTheQuote(Get(Info(row.original.value), "flightInfo").value, Info(store.prices[row.price].quote.original)))
  {
    hide Run, HeldFare.AtTheQuote, Answered, AnswerRuns.ReceiptOf, AnswerRuns.AllTicketed, KeptOf, Own, TicketReceipt.ConfirmsIssue;
    if AnswerRuns.HeldBooking(setup, states, events, i, id) {
      AnswerRuns.HeldIsAnswered(setup, states, events, i, id);
      AnswerRuns.HeldMatchesQuote(setup, states, events, i, id);
    } else {
      AnswerRuns.IssuedIsReceipted(setup, states, events, i, id);
      AnswerRuns.IssuedTicketsEveryone(setup, states, events, i, id);
    }
  }

  // Over every run, the flight a supplier reports for a held or issued booking is for the passengers and
  // routes searched and flies, route by route, the option its client selected from the stored offer.
  lemma ConfirmedFliesTheSelection(setup: Setup, states: seq<System>, events: seq<Event>, i: nat, id: Id)
    requires AnswerRuns.HeldBooking(setup, states, events, i, id) || AnswerRuns.IssuedBooking(setup, states, events, i, id)
    ensures var row := states[i].store.bookings[id];
            && row.original.Some?
            && (Get(Info(row.original.value), "flightInfo").Some? ==>
                  BookedAsSelected(states[i].store, id, Get(Info(row.original.value), "flightInfo").value))
  {
    ConfirmedMatches(setup, states, events, i, id);
    RunSelects(setup, states, events, i);
    var store := states[i].store;
    var row := store.bookings[id];
    hide Run, PriceConfirmed, SelectionsSafe, HeldFare.AtTheQuote, Info;
    PriceOf(states[i], row.price);
    var flight := Get(Info(row.original.value), "flightInfo");
    if flight.Some? {
      BookingFlies(store, row.price, flight.value);
    }
  }

  lemma PriceOf(s: System, p: Id)
    requires SelectionsSafe(s) && p < |s.store.prices|
    ensures PriceConfirmed(s.store, p)
  {
    hide PriceConfirmed;
  }

  lemma BookingFlies(store: Store, p: Id, flight: Value)
    requires p < |store.prices| && PriceConfirmed(store, p)
    requires HeldFare.AtTheQuote(flight, Info(store.prices[p].quote.original))
    ensures var travel := store.searches[store.offers[store.prices[p].offer].search].travel;
            && RepriceAnswer.MatchesPassengers(flight, travel) && RepriceAnswer.ValidRoutes(flight, travel.routes)
            && RepriceAnswer.MatchesFlights(flight, store.prices[p].selected.directions)
  {
    HeldFare.AcceptedExactlyWhen(flight, Info(store.prices[p].quote.original));
    hide HeldFare.FlightAccepted, HeldFare.AtTheQuote, RepriceAnswer.Confirms, RepriceAnswer.MatchesPassengers, RepriceAnswer.ValidRoutes,
         RepriceAnswer.MatchesFlights, SelectedFrom, Info;
    var price := store.prices[p];
    var row := store.offers[price.offer];
    RepriceAnswer.AcceptedFlies(flight, Info(price.quote.original), row.original, row.currency, store.searches[row.search].travel,
                                price.selected.directions);
  }
}
