// Offers, RePrice versions and booking rows (src/reprice.rs, src/booking.rs, src/booking/direct.rs,
// src/admin_bookings.rs): what each committed transaction does to the tables.
//
// Tables are sequences and a row's number is its id, so a new id is always fresh and no row goes
// away.  `BookingDesk` changes the rows in place; every method is proved against the function of the
// same transaction, and those functions are what BookingRuns reasons about.
module Bookings {
  import opened Wrappers
  import opened Json
  import opened Connections
  import opened BookAnswer
  import HeldFare
  import PassengerNames
  import References
  import RepriceAnswer
  import RepriceSelection
  import TicketReceipt

  type Id = nat

  // A ticket row is named by its booking, which has at most one.
  datatype Table = SearchRow | OfferRow | PriceRow | BookingRow | TicketRow

  datatype Machine = Machine(client: Id, audience: string, agent: Option<Id>, booking: bool, ticketing: bool)

  // travel: the request.  epochs: the suppliers enabled when the Search began.  expires is set when its
  // offers are stored.
  datatype Search = Search(client: Id, travel: RepriceAnswer.Travel, epochs: map<string, int>, expires: Option<int>)
  datatype Offer = Offer(client: Id, search: Id, supplier: string, epoch: int, currency: string, original: Value,
                         selling: Value, references: References.Entries, expires: int, repriceRequired: bool)
  datatype Price = Price(offer: Id, client: Id, version: nat, audience: string, agent: Option<Id>,
                         currency: string, quote: Quote, selected: RepriceSelection.Selection, expires: int, accepted: bool)

  datatype Mode = Hold | Direct
  datatype State = Pending | Held | Issued | OutcomeUnknown | ManuallyResolved
  datatype Outcome = HeldOutcome | NotCreatedOutcome | IssuedOutcome | CancelledOutcome
  datatype Public = Supplier(body: Value) | Manual(outcome: Outcome)
  datatype Code = Diagnostic(text: string) | DirectIssueUnknown | LateOutcome

  // What a booking's worker keeps of the quote it reserved and the passengers it sends; no statement
  // reads it back from the row.
  datatype Kept = Kept(search: Id, offer: Id, price: Id, supplier: string, quote: Quote, passengers: Value)
  datatype Booking = Booking(
    client: Id, offer: Id, price: Id, supplier: string, key: string, hash: string, mode: Mode, kept: Kept,
    state: State, original: Option<Value>, response: Option<Public>, pnr: Option<string>,
    supplierRef: Option<string>, error: Option<Code>, created: int, updated: int)

  datatype Late = Late(booking: Id, response: Option<Value>)
  datatype Resolution = Resolution(booking: Id, outcome: Outcome, previous: State)
  datatype TicketIssue = TicketIssue(booking: Id, state: State, original: Option<Value>, response: Option<Value>)

  datatype Store = Store(
    searches: seq<Search>, offers: seq<Offer>, prices: seq<Price>, bookings: seq<Booking>,
    late: seq<Late>, resolutions: seq<Resolution>, issues: seq<TicketIssue>)

  datatype Transport = Transport(currency: Option<string>, holdEnabled: bool, directEnabled: bool)

  // text: the id of a row as clients see it.  drawn: the ids taken while the answer stored in a row is
  // bound.  script: the tables names are normalised with.
  datatype Setup = Setup(
    suppliers: map<string, Transport>, isTest: bool,
    text: (Table, Id) -> string, drawn: (Table, Id) -> References.Supply, script: PassengerNames.Script)

  datatype Failure =
    | Forbidden | IdempotencyKeyRequired | ClientBookingDisabled | IdempotencyKeyReused
    | NotFound | OfferReferenceMismatch | OfferExpired | PriceExpired | RepriceRequired
    | LatestPriceAcceptanceRequired | PriceContextChanged | BookingModeMismatch
    | TaxRedemptionUnsupported | CommissionReferenceMismatch | InvalidPassengers
    | NewSearchRequired | SupplierBookingDisabled | SupplierCurrencyMismatch
    | DirectIssueAlreadyReserved | DirectIssueDisabled
    | PriceVersionSuperseded | SupplierConfigurationError
    | SupplierUnavailable | SupplierRejected | Unconfirmed(refusal: RepriceAnswer.Refusal)
    | SupplierPricingUnsupported | SupplierReferenceMismatch
    | SupplierEvidenceRequired | AlreadyResolved | StaleBookingView | BookingNotResolvable

  // ---- References of offers and quotes ---------------------------------------------------------------

  // A Search fails unless every offer has both of its supplier references, and they differ.
  predicate OfferReferenced(original: Value) {
    && Filled(AsText(Member(original, "uniqueTransID")))
    && Filled(AsText(Member(original, "itemCodeRef")))
    && Member(original, "uniqueTransID") != Member(original, "itemCodeRef")
  }

  // The stored selling offer and the map from the supplier's references to platform ids.
  function OfferBound(setup: Setup, search: Id, offer: Id, original: Value, selling: Value): (Value, References.Map)
    requires OfferReferenced(original)
  {
    var own := map[Member(original, "uniqueTransID").text := Text(setup.text(SearchRow, search)),
                   Member(original, "itemCodeRef").text := Text(setup.text(OfferRow, offer))];
    References.Bind(selling, References.Map(own, 0), setup.drawn(OfferRow, offer))
  }

  // A fare is priced only with a booking mode and its three references, all different.
  predicate FareReferenced(fare: Value) {
    && Member(fare, "bookable").Bool?
    && Filled(AsText(Member(fare, "uniqueTransID")))
    && Filled(AsText(Member(fare, "itemCodeRef")))
    && Filled(AsText(Member(fare, "priceCodeRef")))
    && Member(fare, "uniqueTransID") != Member(fare, "itemCodeRef")
    && Member(fare, "uniqueTransID") != Member(fare, "priceCodeRef")
    && Member(fare, "itemCodeRef") != Member(fare, "priceCodeRef")
  }

  // The offer's map, with the refreshed references standing for its search, itself and the new price.
  function QuoteOf(setup: Setup, row: Offer, offer: Id, price: Id, original: Value, selling: Value): Quote
    requires FareReferenced(Info(original))
  {
    var fare := Info(original);
    var known := row.references[Member(fare, "uniqueTransID").text := Text(setup.text(SearchRow, row.search))]
                               [Member(fare, "itemCodeRef").text := Text(setup.text(OfferRow, offer))]
                               [Member(fare, "priceCodeRef").text := Text(setup.text(PriceRow, price))];
    var bound := References.Bind(selling, References.Map(known, 0), setup.drawn(PriceRow, price));
    Quote(original, bound.0, bound.1.entries)
  }

  // ---- RePrice and acceptance ---------------------------------------------------------------------

  function LatestVersion(prices: seq<Price>, offer: Id): nat {
    if prices == [] then 0
    else
      var earlier := LatestVersion(prices[..|prices| - 1], offer);
      var last := prices[|prices| - 1];
      if last.offer == offer && last.version > earlier then last.version else earlier
  }

  predicate Live(store: Store, offer: Id, now: int)
    requires offer < |store.offers|
  {
    var row := store.offers[offer];
    && row.expires > now
    && row.search < |store.searches|
    && store.searches[row.search].expires.Some?
    && store.searches[row.search].expires.value > now
  }

  datatype RepriceRequest = RepriceRequest(
    transaction: string, segments: seq<string>, brandedFares: string, taxRedemptions: seq<string>, commissions: seq<Value>)

  // A supplier's commission list is sent along; a client may only repeat it.
  function CommissionsOf(original: Value): Value {
    var stated := Get(original, "commissionOnTaxes");
    if stated.Some? then stated.value else Array([])
  }

  predicate CommissionsRepeated(request: RepriceRequest, original: Value) {
    request.commissions == [] || Array(request.commissions) == CommissionsOf(original)
  }

  // The request against the offer's own references.
  function Requested(setup: Setup, row: Offer, request: RepriceRequest): Result<RepriceSelection.Selection, Failure> {
    if request.transaction != setup.text(SearchRow, row.search) || request.brandedFares != "" then Err(OfferReferenceMismatch)
    else
      var selection := RepriceSelection.Selected(row.original, row.selling, request.segments);
      if selection.None? then Err(OfferReferenceMismatch)
      else if request.taxRedemptions != [] then Err(TaxRedemptionUnsupported)
      else if !CommissionsRepeated(request, row.original) then Err(CommissionReferenceMismatch)
      else Ok(selection.value)
  }

  // RePrice up to the supplier call; on success the offer's row lock is held until the answer is
  // processed.
  function BeginReprice(store: Store, rows: Rows, setup: Setup, machine: Machine, offer: Id, request: RepriceRequest, now: int):
    Result<RepriceSelection.Selection, Failure>
  {
    if offer >= |store.offers| || store.offers[offer].client != machine.client then Err(NotFound)
    else
      var row := store.offers[offer];
      if !Live(store, offer, now) then Err(OfferExpired)
      else if Requested(setup, row, request).Err? then Requested(setup, row, request)
      else if !StillValid(rows, row.supplier, row.epoch) then Err(NewSearchRequired)
      else if row.supplier !in setup.suppliers then Err(SupplierConfigurationError)
      else if setup.suppliers[row.supplier].currency != Some(row.currency) then Err(SupplierCurrencyMismatch)
      else Requested(setup, row, request)
  }

  // ---- When a RePrice begins, told from the rows and the request alone

  predicate OwnOffer(store: Store, machine: Machine, offer: Id) {
    offer < |store.offers| && store.offers[offer].client == machine.client
  }

  // Its own transaction, no branded fare, and one reading of the segment references.
  ghost predicate ReferencesMatch(setup: Setup, row: Offer, request: RepriceRequest) {
    && request.transaction == setup.text(SearchRow, row.search) && request.brandedFares == ""
    && exists indices :: RepriceSelection.Chooses(row.original, row.selling, request.segments, indices)
  }

  predicate SameCommissions(row: Offer, request: RepriceRequest) {
    || request.commissions == []
    || Get(row.original, "commissionOnTaxes") == Some(Array(request.commissions))
  }

  predicate Configured(setup: Setup, row: Offer) {
    row.supplier in setup.suppliers
  }

  predicate CurrencyServed(setup: Setup, row: Offer) {
    row.supplier in setup.suppliers && setup.suppliers[row.supplier].currency == Some(row.currency)
  }

  ghost predicate Repriceable(store: Store, rows: Rows, setup: Setup, machine: Machine, offer: Id, request: RepriceRequest, now: int) {
    && OwnOffer(store, machine, offer) && Live(store, offer, now)
    && var row := store.offers[offer];
       && ReferencesMatch(setup, row, request)
       && request.taxRedemptions == [] && SameCommissions(row, request)
       && StillValid(rows, row.supplier, row.epoch) && Configured(setup, row) && CurrencyServed(setup, row)
  }

  // Why one is refused, of several reasons the first.
  ghost function RepriceRefusal(store: Store, rows: Rows, setup: Setup, machine: Machine, offer: Id, request: RepriceRequest, now: int):
    Option<Failure>
  {
    if !OwnOffer(store, machine, offer) then Some(NotFound)
    else
      var row := store.offers[offer];
      Unless(Live(store, offer, now), OfferExpired,
      Unless(ReferencesMatch(setup, row, request), OfferReferenceMismatch,
      Unless(request.taxRedemptions == [], TaxRedemptionUnsupported,
      Unless(SameCommissions(row, request), CommissionReferenceMismatch,
      Unless(StillValid(rows, row.supplier, row.epoch), NewSearchRequired,
      Unless(Configured(setup, row), SupplierConfigurationError,
      Unless(CurrencyServed(setup, row), SupplierCurrencyMismatch, None)))))))
  }

  // A RePrice begins exactly then, with the one reading of the references sent; otherwise it is refused
  // for the first reason there is.
  lemma RepricedExactlyWhen(store: Store, rows: Rows, setup: Setup, machine: Machine, offer: Id, request: RepriceRequest, now: int)
    ensures var begun := BeginReprice(store, rows, setup, machine, offer, request, now);
            && (begun.Ok? <==> Repriceable(store, rows, setup, machine, offer, request, now))
            && (begun.Ok? ==>
                  var row := store.offers[offer];
                  && RepriceSelection.Chooses(row.original, row.selling, request.segments, begun.value.indices)
                  && RepriceSelection.Describes(begun.value, row.original, request.segments, begun.value.indices))
            && (begun.Err? ==> RepriceRefusal(store, rows, setup, machine, offer, request, now) == Some(begun.error))
  {
    hide RepriceSelection.Selected, RepriceSelection.Chooses, RepriceSelection.Describes, Get;
    if OwnOffer(store, machine, offer) {
      var row := store.offers[offer];
      RepriceSelection.SelectedExactlyWhen(row.original, row.selling, request.segments);
    }
  }

  // A RePrice under way: who asked, and the selected flights.
  datatype Asked = Asked(machine: Machine, selection: RepriceSelection.Selection)

  // No answer in time, or one with the selling answer priced from it if it can be priced.
  datatype Answer = Unavailable | Supplied(original: Value, priced: Option<Value>)

  predicate Succeeded(body: Value) {
    Member(Member(body, "item2"), "isSuccess") == Bool(true)
  }

  // The failures a client can act on: the fare is gone, or the supplier's session.
  predicate IsRejection(message: string) {
    || message == "000747 NO VALID FARE FOR INPUT CRITERIA"
    || message == "NO COMBINABLE FARES FOR CLASS USED"
    || message == "FLIGHT SEGMENTS UNAVAILABLE IN THE REQUESTED CLASS"
    || message == "The current session is invalid or has expired. Please restart your session.-Requested session not found in store"
  }

  predicate Rejects(setup: Setup, answer: Answer) {
    && answer.Supplied? && !Succeeded(answer.original)
    && Member(Member(answer.original, "item2"), "message").Text?
    && IsRejection(PassengerNames.Trim(setup.script, Member(Member(answer.original, "item2"), "message").text))
  }

  predicate DistinctReferences(fare: Value) {
    && Member(fare, "uniqueTransID") != Member(fare, "itemCodeRef")
    && Member(fare, "uniqueTransID") != Member(fare, "priceCodeRef")
    && Member(fare, "itemCodeRef") != Member(fare, "priceCodeRef")
  }

  function RefusalBy(store: Store, offer: Id, asked: Asked, original: Value): Option<RepriceAnswer.Refusal>
    requires offer < |store.offers| && store.offers[offer].search < |store.searches|
  {
    var row := store.offers[offer];
    RepriceAnswer.RefusalOf(Info(original), row.original, row.currency, store.searches[row.search].travel, asked.selection.directions)
  }

  // What keeps an answer from being priced.
  function AnswerFailure(store: Store, setup: Setup, offer: Id, asked: Asked, answer: Answer): Option<Failure>
    requires offer < |store.offers| && store.offers[offer].search < |store.searches|
  {
    if answer.Unavailable? then Some(SupplierUnavailable)
    else if !Succeeded(answer.original) then Some(if Rejects(setup, answer) then SupplierRejected else SupplierUnavailable)
    else
      var refusal := RefusalBy(store, offer, asked, answer.original);
      if refusal.Some? then Some(Unconfirmed(refusal.value))
      else if answer.priced.None? then Some(SupplierPricingUnsupported)
      else if !DistinctReferences(Info(answer.original)) then Some(SupplierReferenceMismatch)
      else None
  }

  // A successful answer that confirms what was asked for, states all that a price needs, has three
  // different references and can be priced.
  predicate Priceable(store: Store, offer: Id, asked: Asked, answer: Answer)
    requires offer < |store.offers| && store.offers[offer].search < |store.searches|
  {
    var row := store.offers[offer];
    && answer.Supplied? && Succeeded(answer.original) && answer.priced.Some?
    && RepriceAnswer.Confirms(Info(answer.original), row.original, row.currency, store.searches[row.search].travel,
                              asked.selection.directions)
    && RepriceAnswer.Complete(Info(answer.original)) && DistinctReferences(Info(answer.original))
  }

  // Why an answer is not priced, of several reasons the first.
  ghost function AnswerRefusal(store: Store, rows: Rows, setup: Setup, offer: Id, asked: Asked, answer: Answer, now: int): Option<Failure>
    requires offer < |store.offers| && store.offers[offer].search < |store.searches|
  {
    if answer.Unavailable? then Some(SupplierUnavailable)
    else
      var row := store.offers[offer];
      var refusal := RepriceAnswer.Reason(Info(answer.original), row.original, row.currency, store.searches[row.search].travel,
                                          asked.selection.directions);
      Unless(Succeeded(answer.original), if Rejects(setup, answer) then SupplierRejected else SupplierUnavailable,
      if refusal.Some? then Some(Unconfirmed(refusal.value)) else
      Unless(answer.priced.Some?, SupplierPricingUnsupported,
      Unless(DistinctReferences(Info(answer.original)), SupplierReferenceMismatch,
      Unless(StillValid(rows, row.supplier, row.epoch), NewSearchRequired,
      Unless(Live(store, offer, now), OfferExpired, None)))))
  }

  lemma AnswerRefused(store: Store, rows: Rows, setup: Setup, offer: Id, asked: Asked, answer: Answer, now: int)
    requires offer < |store.offers| && store.offers[offer].search < |store.searches|
    ensures var failure := AnswerFailure(store, setup, offer, asked, answer);
            AnswerRefusal(store, rows, setup, offer, asked, answer, now) ==
            if failure.Some? then failure
            else Unless(StillValid(rows, store.offers[offer].supplier, store.offers[offer].epoch), NewSearchRequired,
                        Unless(Live(store, offer, now), OfferExpired, None))
  {
    hide RepriceAnswer.Reason, RepriceAnswer.RefusalOf, Rejects, DistinctReferences, Succeeded, Info;
    if answer.Supplied? {
      var row := store.offers[offer];
      RepriceAnswer.RefusedFor(Info(answer.original), row.original, row.currency, store.searches[row.search].travel,
                               asked.selection.directions);
    }
  }

  lemma PriceableExactlyWhen(store: Store, setup: Setup, offer: Id, asked: Asked, answer: Answer)
    requires offer < |store.offers| && store.offers[offer].search < |store.searches|
    ensures AnswerFailure(store, setup, offer, asked, answer).None? <==> Priceable(store, offer, asked, answer)
  {
    hide RepriceAnswer.RefusalOf, RepriceAnswer.Confirms, RepriceAnswer.Complete, Rejects, DistinctReferences, Succeeded, Info;
    if answer.Supplied? {
      var row := store.offers[offer];
      RepriceAnswer.AcceptedExactlyWhen(Info(answer.original), row.original, row.currency, store.searches[row.search].travel,
                                        asked.selection.directions);
    }
  }

  lemma UsableIsReferenced(store: Store, setup: Setup, offer: Id, asked: Asked, answer: Answer)
    requires offer < |store.offers| && store.offers[offer].search < |store.searches|
    requires AnswerFailure(store, setup, offer, asked, answer).None?
    ensures answer.Supplied? && answer.priced.Some? && FareReferenced(Info(answer.original)) && !Rejects(setup, answer)
    ensures var row := store.offers[offer];
            RepriceAnswer.Confirms(Info(answer.original), row.original, row.currency, store.searches[row.search].travel,
                                   asked.selection.directions)
  {
    PriceableExactlyWhen(store, setup, offer, asked, answer);
    hide AnswerFailure, RepriceAnswer.RefusalOf, RepriceAnswer.Confirms, IsRejection, Member;
  }

  // The new price of an answer, and the offer no longer flagged.
  function Repriced(store: Store, setup: Setup, asked: Asked, offer: Id, answer: Answer): Store
    requires offer < |store.offers| && store.offers[offer].search < |store.searches|
    requires store.searches[store.offers[offer].search].expires.Some?
    requires answer.Supplied? && answer.priced.Some? && FareReferenced(Info(answer.original))
  {
    var row := store.offers[offer];
    var searchExpires := store.searches[row.search].expires.value;
    var price := Price(offer, row.client, LatestVersion(store.prices, offer) + 1, asked.machine.audience, asked.machine.agent,
                       row.currency, QuoteOf(setup, row, offer, |store.prices|, answer.original, answer.priced.value),
                       asked.selection, if row.expires <= searchExpires then row.expires else searchExpires, false);
    store.(prices := store.prices + [price], offers := store.offers[offer := row.(repriceRequired := false)])
  }

  function FinishReprice(store: Store, rows: Rows, setup: Setup, asked: Asked, offer: Id, answer: Answer, now: int):
    (Store, Result<Id, Failure>)
    requires offer < |store.offers| && store.offers[offer].search < |store.searches|
  {
    var row := store.offers[offer];
    var failure := AnswerFailure(store, setup, offer, asked, answer);
    if Rejects(setup, answer) then
      (store.(offers := store.offers[offer := row.(repriceRequired := true)]), Err(SupplierRejected))
    else if failure.Some? then (store, Err(failure.value))
    else if !StillValid(rows, row.supplier, row.epoch) then (store, Err(NewSearchRequired))
    else if !Live(store, offer, now) then (store, Err(OfferExpired))
    else
      UsableIsReferenced(store, setup, offer, asked, answer);
      (Repriced(store, setup, asked, offer, answer), Ok(|store.prices|))
  }

  predicate PriceLive(store: Store, price: Id, now: int)
    requires price < |store.prices| && store.prices[price].offer < |store.offers|
  {
    store.prices[price].expires > now && Live(store, store.prices[price].offer, now)
  }

  // Foreign keys: a price names an offer row of its own client.
  predicate PricesOwned(store: Store) {
    forall p :: 0 <= p < |store.prices| ==>
      && store.prices[p].offer < |store.offers|
      && store.offers[store.prices[p].offer].client == store.prices[p].client
  }

  function Accept(store: Store, rows: Rows, machine: Machine, price: Id, now: int): (Store, Result<int, Failure>)
    requires PricesOwned(store)
  {
    if price >= |store.prices| || store.prices[price].client != machine.client then (store, Err(NotFound))
    else
      var quote := store.prices[price];
      var row := store.offers[quote.offer];
      if row.repriceRequired then (store, Err(RepriceRequired))
      else if !StillValid(rows, row.supplier, row.epoch) then (store, Err(NewSearchRequired))
      else if quote.audience != machine.audience || quote.agent != machine.agent then (store, Err(PriceContextChanged))
      else if !PriceLive(store, price, now) then (store, Err(PriceExpired))
      else if quote.version != LatestVersion(store.prices, quote.offer) then (store, Err(PriceVersionSuperseded))
      else (store.(prices := store.prices[price := quote.(accepted := true)]), Ok(quote.version))
  }

  // ---- Book -----------------------------------------------------------------------------------------

  // key is absent when the header is missing or malformed; hash digests the canonical request.
  datatype BookRequest = BookRequest(
    key: Option<string>, hash: string, price: Id, search: Id, offer: Id, direct: bool,
    noTaxRedemptions: bool, commissionsMatch: bool, passengersValid: bool, passengers: Value)

  // What the quote SELECT reported from its own snapshot, possibly taken before it waited for the
  // offer lock; the locked offer row itself is read afresh.
  datatype Seen = Seen(valid: bool, accepted: bool, latest: bool)

  datatype Booked = Reserved(booking: Id) | Replayed(booking: Id) | Refused(failure: Failure)

  function FindKey(bookings: seq<Booking>, client: Id, key: string): (found: Option<Id>)
    ensures found.Some? ==>
              && found.value < |bookings|
              && bookings[found.value].client == client && bookings[found.value].key == key
    ensures found.None? ==> forall b :: 0 <= b < |bookings| ==> bookings[b].client != client || bookings[b].key != key
  {
    if bookings == [] then None
    else
      var n := |bookings| - 1;
      if bookings[n].client == client && bookings[n].key == key then Some(n)
      else FindKey(bookings[..n], client, key)
  }

  predicate DirectReserved(bookings: seq<Booking>, offer: Id) {
    exists b :: 0 <= b < |bookings| && bookings[b].offer == offer && bookings[b].mode == Direct
  }

  predicate Fresh(store: Store, price: Id, now: int)
    requires price < |store.prices| && store.prices[price].offer < |store.offers|
  {
    && PriceLive(store, price, now)
    && store.prices[price].accepted
    && store.prices[price].version == LatestVersion(store.prices, store.prices[price].offer)
  }

  // The checks on the quote, in the order the transaction makes them.
  function QuoteFailure(store: Store, machine: Machine, request: BookRequest, seen: Seen): Option<Failure>
    requires PricesOwned(store)
  {
    if request.price >= |store.prices| || store.prices[request.price].client != machine.client then Some(NotFound)
    else
      var quote := store.prices[request.price];
      var row := store.offers[quote.offer];
      if request.search != row.search || request.offer != quote.offer then Some(OfferReferenceMismatch)
      else if !seen.valid then Some(PriceExpired)
      else if row.repriceRequired then Some(RepriceRequired)
      else if !seen.accepted || !seen.latest then Some(LatestPriceAcceptanceRequired)
      else if machine.audience != quote.audience || machine.agent != quote.agent then Some(PriceContextChanged)
      else if Member(row.original, "bookable") != Bool(!request.direct) ||
              Member(Info(quote.quote.original), "bookable") != Bool(!request.direct)
      then Some(BookingModeMismatch)
      else if !request.noTaxRedemptions then Some(TaxRedemptionUnsupported)
      else if !request.commissionsMatch then Some(CommissionReferenceMismatch)
      else if !request.passengersValid then Some(InvalidPassengers)
      else None
  }

  // The checks on the supplier, then the recheck of the quote under the offer lock.
  function SupplierFailure(store: Store, rows: Rows, setup: Setup, request: BookRequest, now: int): Option<Failure>
    requires PricesOwned(store) && request.price < |store.prices|
  {
    var quote := store.prices[request.price];
    var row := store.offers[quote.offer];
    if !StillValid(rows, row.supplier, row.epoch) then Some(NewSearchRequired)
    else if !rows[row.supplier].bookingEnabled then Some(SupplierBookingDisabled)
    else if row.supplier !in setup.suppliers || setup.suppliers[row.supplier].currency != Some(quote.currency)
    then Some(SupplierCurrencyMismatch)
    else if request.direct && DirectReserved(store.bookings, quote.offer) then Some(DirectIssueAlreadyReserved)
    else if request.direct &&
            !(setup.isTest && setup.suppliers[row.supplier].directEnabled &&
              rows[row.supplier].ticketingEnabled && rows[row.supplier].servicingEnabled)
    then Some(DirectIssueDisabled)
    else if !request.direct && !setup.suppliers[row.supplier].holdEnabled then Some(SupplierBookingDisabled)
    else if !Fresh(store, request.price, now) then Some(LatestPriceAcceptanceRequired)
    else None
  }

  function KeptOf(store: Store, price: Id, passengers: Value): Kept
    requires price < |store.prices| && store.prices[price].offer < |store.offers|
  {
    var quote := store.prices[price];
    var row := store.offers[quote.offer];
    Kept(row.search, quote.offer, price, row.supplier, quote.quote, passengers)
  }

  function NewBooking(store: Store, machine: Machine, request: BookRequest, now: int): Booking
    requires PricesOwned(store) && request.price < |store.prices| && request.key.Some?
  {
    var offer := store.prices[request.price].offer;
    Booking(machine.client, offer, request.price, store.offers[offer].supplier, request.key.value, request.hash,
            if request.direct then Direct else Hold, KeptOf(store, request.price, request.passengers), Pending, None, None, None, None, None, now, now)
  }

  function Book(store: Store, rows: Rows, setup: Setup, machine: Machine, allowed: bool, request: BookRequest,
                seen: Seen, now: int): (Store, Booked)
    requires PricesOwned(store)
  {
    if !machine.booking || (request.direct && !machine.ticketing) then (store, Refused(Forbidden))
    else if request.key.None? then (store, Refused(IdempotencyKeyRequired))
    else if !allowed then (store, Refused(ClientBookingDisabled))
    else
      var previous := FindKey(store.bookings, machine.client, request.key.value);
      if previous.Some? then
        (store, if store.bookings[previous.value].hash != request.hash then Refused(IdempotencyKeyReused)
                else Replayed(previous.value))
      else
        var quoteFailure := QuoteFailure(store, machine, request, seen);
        if quoteFailure.Some? then (store, Refused(quoteFailure.value))
        else
          var supplierFailure := SupplierFailure(store, rows, setup, request, now);
          if supplierFailure.Some? then (store, Refused(supplierFailure.value))
          else (store.(bookings := store.bookings + [NewBooking(store, machine, request, now)]), Reserved(|store.bookings|))
  }

  // ---- Worker outcomes --------------------------------------------------------------------------------

  function Own(setup: Setup, kept: Kept, booking: Id): References.Identities {
    References.Identities(setup.text(SearchRow, kept.search), setup.text(OfferRow, kept.offer),
                          setup.text(PriceRow, kept.price), setup.text(BookingRow, booking))
  }

  function Verified(setup: Setup, mode: Mode, kept: Kept, booking: Id, answer: Option<Value>): Option<Value> {
    if answer.None? then None
    else match mode
      case Hold => Answered(kept.quote, Own(setup, kept, booking), setup.drawn(BookingRow, booking), answer.value)
      case Direct =>
        TicketReceipt.Receipt(kept.quote, Own(setup, kept, booking), setup.drawn(BookingRow, booking), setup.text(TicketRow, booking),
                              kept.passengers, setup.script, kept.supplier, answer.value)
  }

  function OrElse<T>(value: Option<T>, other: Option<T>): Option<T> {
    if value.Some? then value else other
  }

  function Shown(response: Option<Value>): Option<Public> {
    if response.Some? then Some(Supplier(response.value)) else None
  }

  function FinishHold(store: Store, setup: Setup, id: Id, answer: Option<Value>, reason: string, now: int): Store
    requires id < |store.bookings|
  {
    var row := store.bookings[id];
    var response := Verified(setup, Hold, row.kept, id, answer);
    if row.state == Pending then
      store.(bookings := store.bookings[id := row.(
        state := if response.Some? then Held else OutcomeUnknown,
        original := answer, response := Shown(response), pnr := InfoText(answer, "pnr"),
        supplierRef := InfoText(answer, "bookingCodeRef"),
        error := if response.Some? then None else Some(Diagnostic(reason)), updated := now)])
    else
      store.(late := store.late + [Late(id, answer)],
             bookings := store.bookings[id := row.(
               state := OutcomeUnknown, response := None, original := OrElse(answer, row.original),
               pnr := OrElse(InfoText(answer, "pnr"), row.pnr),
               supplierRef := OrElse(InfoText(answer, "bookingCodeRef"), row.supplierRef),
               error := Some(LateOutcome), updated := now)])
  }

  function FinishDirect(store: Store, setup: Setup, id: Id, answer: Option<Value>, now: int): Store
    requires id < |store.bookings|
  {
    var row := store.bookings[id];
    var response := Verified(setup, Direct, row.kept, id, answer);
    var state := if response.Some? then Issued else OutcomeUnknown;
    if row.state == Pending then
      store.(bookings := store.bookings[id := row.(
               state := state, original := answer, response := Shown(response), pnr := InfoText(answer, "pnr"),
               supplierRef := InfoText(answer, "bookingCodeRef"),
               error := if response.Some? then None else Some(DirectIssueUnknown), updated := now)],
             issues := store.issues + [TicketIssue(id, state, answer, response)])
    else
      store.(late := store.late + [Late(id, answer)],
             bookings := store.bookings[id := row.(
               state := OutcomeUnknown, response := None, error := Some(LateOutcome), updated := now)])
  }

  function Finish(store: Store, setup: Setup, id: Id, answer: Option<Value>, reason: string, now: int): Store
    requires id < |store.bookings|
  {
    if store.bookings[id].mode == Hold then FinishHold(store, setup, id, answer, reason, now)
    else FinishDirect(store, setup, id, answer, now)
  }

  // The text an answer states at item1.<key>, if it states one there.
  function StatedText(answer: Option<Value>, key: string): Option<string> {
    if answer.Some? && Member(Member(answer.value, "item1"), key).Text?
    then Some(Member(Member(answer.value, "item1"), key).text)
    else None
  }

  lemma InfoTextIsStated(answer: Option<Value>, key: string)
    ensures InfoText(answer, key) == StatedText(answer, key)
  {
  }

  // ---- Human resolution ---------------------------------------------------------------------------------

  const STALE_AFTER: int := 300

  function Resolve(store: Store, id: Id, outcome: Outcome, evidenceComplete: bool, expected: int, now: int):
    (Store, Result<Public, Failure>)
  {
    if !evidenceComplete then (store, Err(SupplierEvidenceRequired))
    else if id >= |store.bookings| then (store, Err(NotFound))
    else
      var row := store.bookings[id];
      if row.state == ManuallyResolved then (store, Err(AlreadyResolved))
      else if row.updated != expected then (store, Err(StaleBookingView))
      else if row.state != OutcomeUnknown && !(row.state == Pending && row.created < now - STALE_AFTER)
      then (store, Err(BookingNotResolvable))
      else
        (store.(resolutions := store.resolutions + [Resolution(id, outcome, row.state)],
                bookings := store.bookings[id := row.(
                  state := ManuallyResolved, response := Some(Manual(outcome)), error := None, updated := now)]),
         Ok(Manual(outcome)))
  }

  // ---- When a transaction succeeds, apart from the order of its checks ------------------------------------

  lemma {:induction false} LatestIsNewest(prices: seq<Price>, offer: Id)
    ensures forall p :: 0 <= p < |prices| && prices[p].offer == offer ==> prices[p].version <= LatestVersion(prices, offer)
    ensures LatestVersion(prices, offer) > 0 ==>
              exists p :: 0 <= p < |prices| && prices[p].offer == offer && prices[p].version == LatestVersion(prices, offer)
  {
    if prices != [] {
      var earlier := prices[..|prices| - 1];
      LatestIsNewest(earlier, offer);
      if LatestVersion(prices, offer) == LatestVersion(earlier, offer) > 0 {
        var p :| 0 <= p < |earlier| && earlier[p].offer == offer && earlier[p].version == LatestVersion(earlier, offer);
        assert prices[p] == earlier[p];
      }
      forall p | 0 <= p < |prices| && prices[p].offer == offer ensures prices[p].version <= LatestVersion(prices, offer) {
        if p < |earlier| {
          assert prices[p] == earlier[p];
        }
      }
    }
  }

  // No version of its offer is higher.
  ghost predicate Newest(prices: seq<Price>, price: Id)
    requires price < |prices|
  {
    forall p :: 0 <= p < |prices| && prices[p].offer == prices[price].offer ==> prices[p].version <= prices[price].version
  }

  lemma NewestIsLatest(prices: seq<Price>, price: Id)
    requires price < |prices|
    ensures Newest(prices, price) <==> prices[price].version == LatestVersion(prices, prices[price].offer)
  {
    LatestIsNewest(prices, prices[price].offer);
    hide LatestVersion;
  }

  ghost predicate Acceptable(store: Store, rows: Rows, machine: Machine, price: Id, now: int)
    requires PricesOwned(store)
  {
    && price < |store.prices|
    && var quote, row := store.prices[price], store.offers[store.prices[price].offer];
       && quote.client == machine.client && quote.audience == machine.audience && quote.agent == machine.agent
       && !row.repriceRequired && StillValid(rows, row.supplier, row.epoch)
       && PriceLive(store, price, now) && Newest(store.prices, price)
  }

  predicate OwnQuote(store: Store, machine: Machine, price: Id) {
    price < |store.prices| && store.prices[price].client == machine.client
  }

  // Why an acceptance is refused, of several reasons the first.
  ghost function AcceptRefusal(store: Store, rows: Rows, machine: Machine, price: Id, now: int): Option<Failure>
    requires PricesOwned(store)
  {
    if !OwnQuote(store, machine, price) then Some(NotFound)
    else
      var quote, row := store.prices[price], store.offers[store.prices[price].offer];
      Unless(!row.repriceRequired, RepriceRequired,
      Unless(StillValid(rows, row.supplier, row.epoch), NewSearchRequired,
      Unless(quote.audience == machine.audience && quote.agent == machine.agent, PriceContextChanged,
      Unless(PriceLive(store, price, now), PriceExpired,
      Unless(Newest(store.prices, price), PriceVersionSuperseded, None)))))
  }

  lemma AcceptedExactlyWhen(store: Store, rows: Rows, machine: Machine, price: Id, now: int)
    requires PricesOwned(store)
    ensures Accept(store, rows, machine, price, now).1.Ok? <==> Acceptable(store, rows, machine, price, now)
    ensures Accept(store, rows, machine, price, now).1.Err? ==>
              AcceptRefusal(store, rows, machine, price, now) == Some(Accept(store, rows, machine, price, now).1.error)
  {
    if price < |store.prices| {
      NewestIsLatest(store.prices, price);
    }
    hide LatestVersion, Newest;
  }

  predicate Permitted(machine: Machine, request: BookRequest) {
    machine.booking && (request.direct ==> machine.ticketing)
  }

  ghost predicate KeyTaken(bookings: seq<Booking>, client: Id, key: string) {
    exists b :: 0 <= b < |bookings| && bookings[b].client == client && bookings[b].key == key
  }

  // The quote is the client's own, current, accepted and of the mode asked for.
  ghost predicate QuoteReservable(store: Store, machine: Machine, request: BookRequest, seen: Seen)
    requires PricesOwned(store)
  {
    && request.price < |store.prices|
    && var quote, row := store.prices[request.price], store.offers[store.prices[request.price].offer];
       && quote.client == machine.client && quote.audience == machine.audience && quote.agent == machine.agent
       && request.offer == quote.offer && request.search == row.search
       && seen == Seen(true, true, true) && !row.repriceRequired
       && Member(row.original, "bookable") == Member(Info(quote.quote.original), "bookable") == Bool(!request.direct)
       && request.noTaxRedemptions && request.commissionsMatch && request.passengersValid
  }

  // The supplier was never disabled since the Search and may be booked in this mode; for Direct Issue
  // the offer is unused; and under the offer lock the quote is still live, accepted and the newest.
  ghost predicate SupplierReservable(store: Store, rows: Rows, setup: Setup, request: BookRequest, now: int)
    requires PricesOwned(store) && request.price < |store.prices|
  {
    var quote, row := store.prices[request.price], store.offers[store.prices[request.price].offer];
    && StillValid(rows, row.supplier, row.epoch) && rows[row.supplier].bookingEnabled
    && row.supplier in setup.suppliers && setup.suppliers[row.supplier].currency == Some(quote.currency)
    && (if request.direct
        then DirectPossible(store, rows, setup, quote.offer)
        else setup.suppliers[row.supplier].holdEnabled)
    && PriceLive(store, request.price, now) && quote.accepted && Newest(store.prices, request.price)
  }

  ghost predicate DirectPossible(store: Store, rows: Rows, setup: Setup, offer: Id)
    requires offer < |store.offers| && store.offers[offer].supplier in rows && store.offers[offer].supplier in setup.suppliers
  {
    var supplier := store.offers[offer].supplier;
    && setup.isTest && setup.suppliers[supplier].directEnabled
    && rows[supplier].ticketingEnabled && rows[supplier].servicingEnabled
    && forall b :: 0 <= b < |store.bookings| && store.bookings[b].offer == offer ==> store.bookings[b].mode == Hold
  }

  ghost predicate Reservable(store: Store, rows: Rows, setup: Setup, machine: Machine, allowed: bool, request: BookRequest,
                             seen: Seen, now: int)
    requires PricesOwned(store)
  {
    && Permitted(machine, request) && allowed && request.key.Some?
    && !KeyTaken(store.bookings, machine.client, request.key.value)
    && QuoteReservable(store, machine, request, seen)
    && SupplierReservable(store, rows, setup, request, now)
  }

  // Why a quote cannot be reserved, of several reasons the first.
  ghost function QuoteRefusal(store: Store, machine: Machine, request: BookRequest, seen: Seen): Option<Failure>
    requires PricesOwned(store)
  {
    if !OwnQuote(store, machine, request.price) then Some(NotFound)
    else
      var quote, row := store.prices[request.price], store.offers[store.prices[request.price].offer];
      Unless(request.offer == quote.offer && request.search == row.search, OfferReferenceMismatch,
      Unless(seen.valid, PriceExpired,
      Unless(!row.repriceRequired, RepriceRequired,
      Unless(seen.accepted && seen.latest, LatestPriceAcceptanceRequired,
      Unless(quote.audience == machine.audience && quote.agent == machine.agent, PriceContextChanged,
      Unless(Member(row.original, "bookable") == Member(Info(quote.quote.original), "bookable") == Bool(!request.direct),
             BookingModeMismatch,
      Unless(request.noTaxRedemptions, TaxRedemptionUnsupported,
      Unless(request.commissionsMatch, CommissionReferenceMismatch,
      Unless(request.passengersValid, InvalidPassengers, None)))))))))
  }

  ghost function SupplierRefusal(store: Store, rows: Rows, setup: Setup, request: BookRequest, now: int): Option<Failure>
    requires PricesOwned(store) && request.price < |store.prices|
  {
    var quote, row := store.prices[request.price], store.offers[store.prices[request.price].offer];
    if !StillValid(rows, row.supplier, row.epoch) then Some(NewSearchRequired)
    else if !rows[row.supplier].bookingEnabled then Some(SupplierBookingDisabled)
    else if row.supplier !in setup.suppliers || setup.suppliers[row.supplier].currency != Some(quote.currency)
    then Some(SupplierCurrencyMismatch)
    else
      Unless(request.direct ==> forall b :: 0 <= b < |store.bookings| && store.bookings[b].offer == quote.offer ==>
                                  store.bookings[b].mode == Hold, DirectIssueAlreadyReserved,
      Unless(request.direct ==> DirectPossible(store, rows, setup, quote.offer), DirectIssueDisabled,
      Unless(!request.direct ==> setup.suppliers[row.supplier].holdEnabled, SupplierBookingDisabled,
      Unless(PriceLive(store, request.price, now) && quote.accepted && Newest(store.prices, request.price),
             LatestPriceAcceptanceRequired, None))))
  }

  lemma QuoteReservableExactlyWhen(store: Store, machine: Machine, request: BookRequest, seen: Seen)
    requires PricesOwned(store)
    ensures QuoteFailure(store, machine, request, seen).None? <==> QuoteReservable(store, machine, request, seen)
    ensures QuoteFailure(store, machine, request, seen) == QuoteRefusal(store, machine, request, seen)
  {
    hide Member, Info;
  }

  lemma SupplierReservableExactlyWhen(store: Store, rows: Rows, setup: Setup, request: BookRequest, now: int)
    requires PricesOwned(store) && request.price < |store.prices|
    ensures SupplierFailure(store, rows, setup, request, now).None? <==> SupplierReservable(store, rows, setup, request, now)
    ensures SupplierFailure(store, rows, setup, request, now) == SupplierRefusal(store, rows, setup, request, now)
  {
    NewestIsLatest(store.prices, request.price);
    hide LatestVersion, Newest;
  }

  ghost function BookRefusal(store: Store, rows: Rows, setup: Setup, machine: Machine, allowed: bool, request: BookRequest,
                             seen: Seen, now: int): Option<Failure>
    requires PricesOwned(store)
  {
    Unless(Permitted(machine, request), Forbidden,
    Unless(request.key.Some?, IdempotencyKeyRequired,
    Unless(allowed, ClientBookingDisabled,
    Unless(request.key.Some? ==> !KeyTaken(store.bookings, machine.client, request.key.value), IdempotencyKeyReused,
    if QuoteRefusal(store, machine, request, seen).Some? then QuoteRefusal(store, machine, request, seen)
    else SupplierRefusal(store, rows, setup, request, now)))))
  }

  // The row of a new reservation, told from the request and the rows it names.
  predicate IsNewRow(store: Store, machine: Machine, request: BookRequest, now: int, row: Booking) {
    && request.price < |store.prices| && request.offer < |store.offers| && request.key.Some?
    && var supplier, quote := store.offers[request.offer].supplier, store.prices[request.price].quote;
       row == Booking(machine.client, request.offer, request.price, supplier, request.key.value, request.hash,
                      if request.direct then Direct else Hold,
                      Kept(request.search, request.offer, request.price, supplier, quote, request.passengers),
                      Pending, None, None, None, None, None, now, now)
  }

  lemma NewRowColumns(store: Store, machine: Machine, request: BookRequest, seen: Seen, now: int)
    requires PricesOwned(store) && QuoteReservable(store, machine, request, seen) && request.key.Some?
    ensures IsNewRow(store, machine, request, now, NewBooking(store, machine, request, now))
  {
    hide Member;
  }

  // A booking is reserved exactly when every condition holds, and then it is one new row; a request whose
  // key is taken is answered by that row or refused, and anything else changes nothing.
  lemma ReservedExactlyWhen(store: Store, rows: Rows, setup: Setup, machine: Machine, allowed: bool, request: BookRequest,
                            seen: Seen, now: int)
    requires PricesOwned(store)
    ensures var done := Book(store, rows, setup, machine, allowed, request, seen, now);
            && (done.1.Reserved? <==> Reservable(store, rows, setup, machine, allowed, request, seen, now))
            && (done.1.Reserved? ==>
                  && done.1.booking == |store.bookings| && |done.0.bookings| == |store.bookings| + 1
                  && done.0 == store.(bookings := store.bookings + [done.0.bookings[done.1.booking]])
                  && done.0.bookings[done.1.booking] == NewBooking(store, machine, request, now)
                  && IsNewRow(store, machine, request, now, done.0.bookings[done.1.booking]))
            && (!done.1.Reserved? ==> done.0 == store)
            && (done.1.Replayed? || done.1 == Refused(IdempotencyKeyReused) <==>
                  Permitted(machine, request) && allowed && request.key.Some? &&
                  KeyTaken(store.bookings, machine.client, request.key.value))
            && (done.1.Replayed? ==> Answers(store.bookings, done.1.booking, machine, request))
            && (done.1.Refused? ==>
                  BookRefusal(store, rows, setup, machine, allowed, request, seen, now) == Some(done.1.failure))
  {
    if request.key.Some? {
      KeyFound(store.bookings, machine.client, request.key.value);
    }
    QuoteReservableExactlyWhen(store, machine, request, seen);
    NotKeyReuse(store, rows, setup, machine, request, seen, now);
    if request.price < |store.prices| {
      SupplierReservableExactlyWhen(store, rows, setup, request, now);
    }
    if request.key.Some? && QuoteFailure(store, machine, request, seen).None? {
      NewRowColumns(store, machine, request, seen, now);
    }
    hide QuoteFailure, SupplierFailure, QuoteReservable, SupplierReservable, FindKey, KeyTaken, NewBooking, IsNewRow, QuoteRefusal,
         SupplierRefusal;
  }

  // The row a replay is answered with.
  predicate Answers(bookings: seq<Booking>, id: Id, machine: Machine, request: BookRequest) {
    && id < |bookings| && bookings[id].client == machine.client
    && Some(bookings[id].key) == request.key && bookings[id].hash == request.hash
  }

  lemma KeyFound(bookings: seq<Booking>, client: Id, key: string)
    ensures FindKey(bookings, client, key).Some? <==> KeyTaken(bookings, client, key)
  {
  }

  lemma NotKeyReuse(store: Store, rows: Rows, setup: Setup, machine: Machine, request: BookRequest, seen: Seen, now: int)
    requires PricesOwned(store)
    ensures QuoteFailure(store, machine, request, seen) != Some(IdempotencyKeyReused)
    ensures request.price < |store.prices| ==> SupplierFailure(store, rows, setup, request, now) != Some(IdempotencyKeyReused)
    ensures QuoteFailure(store, machine, request, seen).None? ==> request.price < |store.prices|
  {
    hide StillValid, Fresh, Member, DirectReserved;
  }

  predicate Resolvable(row: Booking, expected: int, now: int) {
    && row.updated == expected
    && (row.state == OutcomeUnknown || (row.state == Pending && row.created + STALE_AFTER < now))
  }

  // The row of a new price, told from the offer, the machine that asked and the answer.
  ghost predicate IsNewPrice(store: Store, setup: Setup, asked: Asked, offer: Id, answer: Answer, price: Price)
    requires offer < |store.offers| && store.offers[offer].search < |store.searches|
  {
    var row := store.offers[offer];
    && answer.Supplied? && answer.priced.Some? && store.searches[row.search].expires.Some?
    && price.offer == offer && price.client == row.client && price.currency == row.currency && !price.accepted
    && price.audience == asked.machine.audience && price.agent == asked.machine.agent && price.selected == asked.selection
    && NextVersion(store.prices, price)
    && (var other := store.searches[row.search].expires.value; price.expires == if row.expires <= other then row.expires else other)
    && QuoteFor(setup, row, offer, |store.prices|, answer.original, answer.priced.value, price.quote)
  }

  // One above the highest version of its offer, or the first.
  ghost predicate NextVersion(prices: seq<Price>, price: Price) {
    && price.version > 0
    && (forall p :: 0 <= p < |prices| && prices[p].offer == price.offer ==> prices[p].version < price.version)
    && (price.version > 1 ==> exists p :: 0 <= p < |prices| && prices[p].offer == price.offer && prices[p].version + 1 == price.version)
  }

  // The answer as it came, and the selling answer with every reference replaced by the quote's map: the
  // fare's own three references stand for the search, the offer and the new price, the offer's others for
  // what they stood for.
  ghost predicate QuoteFor(setup: Setup, row: Offer, offer: Id, price: Id, original: Value, selling: Value, quote: Quote) {
    var fare, ids := Member(original, "item1"), quote.references;
    && quote.original == original && quote.selling == References.Substitute(selling, ids)
    && StandsFor(ids, Member(fare, "uniqueTransID"), setup.text(SearchRow, row.search))
    && StandsFor(ids, Member(fare, "itemCodeRef"), setup.text(OfferRow, offer))
    && StandsFor(ids, Member(fare, "priceCodeRef"), setup.text(PriceRow, price))
    && ids.Keys == row.references.Keys + {AsText(Member(fare, "uniqueTransID")).value, AsText(Member(fare, "itemCodeRef")).value,
                                          AsText(Member(fare, "priceCodeRef")).value} + References.ReferencesOf(selling)
    && forall text :: text in row.references && !Restated(fare, text) ==> ids[text] == row.references[text]
  }

  predicate Restated(fare: Value, text: string) {
    Text(text) in [Member(fare, "uniqueTransID"), Member(fare, "itemCodeRef"), Member(fare, "priceCodeRef")]
  }

  predicate StandsFor(ids: References.Entries, reference: Value, id: string) {
    reference.Text? && reference.text in ids && ids[reference.text] == Text(id)
  }

  // A map that grew from one with three entries set.
  lemma ThreeSet(was: References.Entries, a: string, b: string, c: string, x: Value, y: Value, z: Value, texts: set<string>,
                 now: References.Entries)
    requires a != b && a != c && b != c
    requires References.Extends(was[a := x][b := y][c := z], now) && now.Keys == was[a := x][b := y][c := z].Keys + texts
    ensures a in now && now[a] == x && b in now && now[b] == y && c in now && now[c] == z
    ensures now.Keys == was.Keys + {a, b, c} + texts
    ensures forall text :: text in was && text != a && text != b && text != c ==> text in now && now[text] == was[text]
  {
  }

  lemma QuoteColumns(setup: Setup, row: Offer, offer: Id, price: Id, original: Value, selling: Value)
    requires FareReferenced(Info(original))
    ensures QuoteFor(setup, row, offer, price, original, selling, QuoteOf(setup, row, offer, price, original, selling))
  {
    hide References.Bind, References.Substitute, References.ReferencesOf, References.Extends, Member;
    var fare := Info(original);
    var a, b, c := Member(fare, "uniqueTransID").text, Member(fare, "itemCodeRef").text, Member(fare, "priceCodeRef").text;
    var x, y, z := Text(setup.text(SearchRow, row.search)), Text(setup.text(OfferRow, offer)), Text(setup.text(PriceRow, price));
    var known := References.Map(row.references[a := x][b := y][c := z], 0);
    References.BindIsSubstitution(selling, known, setup.drawn(PriceRow, price));
    ThreeSet(row.references, a, b, c, x, y, z, References.ReferencesOf(selling),
             References.Bind(selling, known, setup.drawn(PriceRow, price)).1.entries);
  }

  lemma PriceColumns(store: Store, setup: Setup, asked: Asked, offer: Id, answer: Answer, now: int)
    requires offer < |store.offers| && store.offers[offer].search < |store.searches| && Live(store, offer, now)
    requires AnswerFailure(store, setup, offer, asked, answer).None?
    ensures answer.Supplied? && answer.priced.Some? && FareReferenced(Info(answer.original))
    ensures store.searches[store.offers[offer].search].expires.Some?
    ensures var row := store.offers[offer];
            var other := store.searches[row.search].expires.value;
            IsNewPrice(store, setup, asked, offer, answer,
                       Price(offer, row.client, LatestVersion(store.prices, offer) + 1, asked.machine.audience, asked.machine.agent,
                             row.currency, QuoteOf(setup, row, offer, |store.prices|, answer.original, answer.priced.value),
                             asked.selection, if row.expires <= other then row.expires else other, false))
  {
    hide AnswerFailure, QuoteOf, QuoteFor, FareReferenced, LatestVersion, Info;
    UsableIsReferenced(store, setup, offer, asked, answer);
    LatestIsNewest(store.prices, offer);
    QuoteColumns(setup, store.offers[offer], offer, |store.prices|, answer.original, answer.priced.value);
  }

  // One price is added, and the offer needs no new RePrice.
  ghost predicate PriceAdded(store: Store, setup: Setup, asked: Asked, offer: Id, answer: Answer, next: Store)
    requires offer < |store.offers| && store.offers[offer].search < |store.searches|
  {
    && |next.prices| == |store.prices| + 1 && next.prices == store.prices + [next.prices[|store.prices|]]
    && IsNewPrice(store, setup, asked, offer, answer, next.prices[|store.prices|])
    && next == store.(prices := next.prices, offers := store.offers[offer := store.offers[offer].(repriceRequired := false)])
  }

  lemma PriceIsAdded(store: Store, rows: Rows, setup: Setup, asked: Asked, offer: Id, answer: Answer, now: int)
    requires offer < |store.offers| && store.offers[offer].search < |store.searches|
    ensures var done := FinishReprice(store, rows, setup, asked, offer, answer, now);
            done.1.Ok? ==> done.1.value == |store.prices| && PriceAdded(store, setup, asked, offer, answer, done.0)
  {
    hide AnswerFailure, IsNewPrice, QuoteOf, Rejects, LatestVersion, FareReferenced, Live, StillValid;
    if AnswerFailure(store, setup, offer, asked, answer).None? && Live(store, offer, now) {
      UsableIsReferenced(store, setup, offer, asked, answer);
      LiveHasSearch(store, offer, now);
      PriceColumns(store, setup, asked, offer, answer, now);
    }
  }

  // A price is added exactly for an answer that can be priced, of an offer still live and never disabled;
  // a rejection flags the offer, and nothing else changes the tables.
  lemma FinishedExactlyWhen(store: Store, rows: Rows, setup: Setup, asked: Asked, offer: Id, answer: Answer, now: int)
    requires offer < |store.offers| && store.offers[offer].search < |store.searches|
    ensures var done := FinishReprice(store, rows, setup, asked, offer, answer, now);
            && (done.1.Ok? <==> Priceable(store, offer, asked, answer) &&
                                StillValid(rows, store.offers[offer].supplier, store.offers[offer].epoch) && Live(store, offer, now))
            && (done.1.Ok? ==> done.1.value == |store.prices| && PriceAdded(store, setup, asked, offer, answer, done.0))
            && (done.1.Err? ==>
                  && AnswerRefusal(store, rows, setup, offer, asked, answer, now) == Some(done.1.error)
                  && done.0 == if Rejects(setup, answer)
                               then store.(offers := store.offers[offer := store.offers[offer].(repriceRequired := true)]) else store)
  {
    hide AnswerFailure, Priceable, AnswerRefusal, PriceAdded, Repriced, Rejects, Live, StillValid;
    PriceableExactlyWhen(store, setup, offer, asked, answer);
    AnswerRefused(store, rows, setup, offer, asked, answer, now);
    PriceIsAdded(store, rows, setup, asked, offer, answer, now);
    if Rejects(setup, answer) {
      RejectionFails(store, setup, offer, asked, answer);
    }
  }

  lemma RejectionFails(store: Store, setup: Setup, offer: Id, asked: Asked, answer: Answer)
    requires offer < |store.offers| && store.offers[offer].search < |store.searches|
    requires Rejects(setup, answer)
    ensures AnswerFailure(store, setup, offer, asked, answer) == Some(SupplierRejected)
  {
    hide IsRejection;
  }

  lemma LiveHasSearch(store: Store, offer: Id, now: int)
    requires offer < |store.offers| && Live(store, offer, now)
    ensures store.offers[offer].search < |store.searches| && store.searches[store.offers[offer].search].expires.Some?
  {
  }

  lemma QuoteKeepsOriginal(setup: Setup, row: Offer, offer: Id, price: Id, original: Value, selling: Value)
    requires FareReferenced(Info(original))
    ensures QuoteOf(setup, row, offer, price, original, selling).original == original
  {
    hide References.Bind;
  }

  lemma ValidIsKnown(rows: Rows, supplier: string, epoch: int)
    requires StillValid(rows, supplier, epoch)
    ensures supplier in rows
  {
  }

  lemma KeptFields(store: Store, price: Id, passengers: Value)
    requires price < |store.prices| && store.prices[price].offer < |store.offers|
    ensures var quote, row := store.prices[price], store.offers[store.prices[price].offer];
            KeptOf(store, price, passengers) == Kept(row.search, quote.offer, price, row.supplier, quote.quote, passengers)
  {
  }

  lemma QuoteFound(store: Store, machine: Machine, request: BookRequest, seen: Seen)
    requires PricesOwned(store)
    ensures QuoteFailure(store, machine, request, seen).None? ==>
              request.price < |store.prices| && store.prices[request.price].client == machine.client
  {
    hide Member;
  }

  // What no outcome touches: who booked what, at which price, under which key, and what was sent.
  predicate SameReservation(a: Booking, b: Booking) {
    && a.client == b.client && a.offer == b.offer && a.price == b.price && a.supplier == b.supplier
    && a.key == b.key && a.hash == b.hash && a.mode == b.mode && a.kept == b.kept && a.created == b.created
  }

  // Confirmed with the verified response, or unknown for this reason.
  predicate Settles(row: Booking, confirmed: State, verified: Option<Value>, reason: Code) {
    match verified
    case Some(body) => row.state == confirmed && row.response == Some(Supplier(body)) && row.error == None
    case None => row.state == OutcomeUnknown && row.response == None && row.error == Some(reason)
  }

  predicate Reopened(row: Booking) {
    row.state == OutcomeUnknown && row.response == None && row.error == Some(LateOutcome)
  }

  // Only this booking's row changes, and in it only what an outcome decides.
  predicate OneRowDecided(store: Store, id: Id, now: int, next: Store) {
    && id < |store.bookings| && id < |next.bookings|
    && next.bookings == store.bookings[id := next.bookings[id]]
    && SameReservation(store.bookings[id], next.bookings[id]) && next.bookings[id].updated == now
    && next == store.(bookings := next.bookings, late := next.late, issues := next.issues)
  }

  // A pending booking is decided by the answer: held exactly with a verified response, and its references
  // are the texts the answer states.  Any other is reopened; what the late answer states is kept, and what
  // it does not is left as it was.
  predicate HoldStored(store: Store, setup: Setup, id: Id, answer: Option<Value>, reason: string, now: int, next: Store) {
    && OneRowDecided(store, id, now, next) && next.issues == store.issues
    && var was, row := store.bookings[id], next.bookings[id];
       var pnr, code := StatedText(answer, "pnr"), StatedText(answer, "bookingCodeRef");
       if was.state == Pending then
         && next.late == store.late && row.original == answer && row.pnr == pnr && row.supplierRef == code
         && Settles(row, Held, Verified(setup, Hold, was.kept, id, answer), Diagnostic(reason))
       else
         && next.late == store.late + [Late(id, answer)] && Reopened(row)
         && row.original == (if answer.Some? then answer else was.original)
         && row.pnr == (if pnr.Some? then pnr else was.pnr)
         && row.supplierRef == (if code.Some? then code else was.supplierRef)
  }

  lemma HoldIsStored(store: Store, setup: Setup, id: Id, answer: Option<Value>, reason: string, now: int)
    requires id < |store.bookings|
    ensures HoldStored(store, setup, id, answer, reason, now, FinishHold(store, setup, id, answer, reason, now))
  {
    InfoTextIsStated(answer, "pnr");
    InfoTextIsStated(answer, "bookingCodeRef");
    hide StatedText, InfoText, Verified;
  }

  // A pending booking is decided by its receipt, with its references and one ticket row of the same outcome.
  // Any other is reopened, and keeps the answer and the references it had.
  predicate DirectStored(store: Store, setup: Setup, id: Id, answer: Option<Value>, now: int, next: Store) {
    && OneRowDecided(store, id, now, next)
    && var was, row := store.bookings[id], next.bookings[id];
       if was.state == Pending then
         var receipt := Verified(setup, Direct, was.kept, id, answer);
         && next.late == store.late && row.original == answer
         && row.pnr == StatedText(answer, "pnr") && row.supplierRef == StatedText(answer, "bookingCodeRef")
         && Settles(row, Issued, receipt, DirectIssueUnknown)
         && next.issues == store.issues + [TicketIssue(id, row.state, answer, receipt)]
       else
         && next.late == store.late + [Late(id, answer)] && next.issues == store.issues && Reopened(row)
         && row.original == was.original && row.pnr == was.pnr && row.supplierRef == was.supplierRef
  }

  lemma DirectIsStored(store: Store, setup: Setup, id: Id, answer: Option<Value>, now: int)
    requires id < |store.bookings|
    ensures DirectStored(store, setup, id, answer, now, FinishDirect(store, setup, id, answer, now))
  {
    InfoTextIsStated(answer, "pnr");
    InfoTextIsStated(answer, "bookingCodeRef");
    hide StatedText, InfoText, Verified;
  }

  // ---- The tables, changed in place ------------------------------------------------------------------------

  class BookingDesk {
    var searches: seq<Search>
    var offers: seq<Offer>
    var prices: seq<Price>
    var bookings: seq<Booking>
    var late: seq<Late>
    var resolutions: seq<Resolution>
    var issues: seq<TicketIssue>

    function Contents(): Store
      reads this
    {
      Store(searches, offers, prices, bookings, late, resolutions, issues)
    }

    constructor ()
      ensures Contents() == Store([], [], [], [], [], [], [])
    {
      searches, offers, prices, bookings, late, resolutions, issues := [], [], [], [], [], [], [];
    }

    method CheckRequest(setup: Setup, row: Offer, request: RepriceRequest) returns (selection: Result<RepriceSelection.Selection, Failure>)
      ensures selection == Requested(setup, row, request)
    {
      if request.transaction != setup.text(SearchRow, row.search) || request.brandedFares != "" {
        return Err(OfferReferenceMismatch);
      }
      var selected := RepriceSelection.Select(row.original, row.selling, request.segments);
      if selected.None? {
        return Err(OfferReferenceMismatch);
      }
      hide RepriceSelection.Selected, CommissionsOf;
      if request.taxRedemptions != [] {
        return Err(TaxRedemptionUnsupported);
      }
      if request.commissions != [] && Array(request.commissions) != CommissionsOf(row.original) {
        return Err(CommissionReferenceMismatch);
      }
      selection := Ok(selected.value);
    }

    method StartReprice(rows: Rows, setup: Setup, machine: Machine, offer: Id, request: RepriceRequest, now: int)
      returns (selection: Result<RepriceSelection.Selection, Failure>)
      ensures selection == BeginReprice(Contents(), rows, setup, machine, offer, request, now)
      // It begins exactly for the client's own live offer under every condition, with the one reading of the
      // references sent.
      ensures selection.Ok? <==> Repriceable(Contents(), rows, setup, machine, offer, request, now)
      ensures selection.Ok? ==>
                && RepriceSelection.Chooses(offers[offer].original, offers[offer].selling, request.segments, selection.value.indices)
                && RepriceSelection.Describes(selection.value, offers[offer].original, request.segments, selection.value.indices)
      ensures selection.Err? ==> RepriceRefusal(Contents(), rows, setup, machine, offer, request, now) == Some(selection.error)
    {
      RepricedExactlyWhen(Contents(), rows, setup, machine, offer, request, now);
      hide Requested, Live, StillValid, Repriceable, RepriceRefusal, RepriceSelection.Chooses, RepriceSelection.Describes;
      if offer >= |offers| || offers[offer].client != machine.client {
        return Err(NotFound);
      }
      var row := offers[offer];
      if !Live(Contents(), offer, now) {
        return Err(OfferExpired);
      }
      selection := CheckRequest(setup, row, request);
      if selection.Err? {
        return;
      }
      if !StillValid(rows, row.supplier, row.epoch) {
        return Err(NewSearchRequired);
      }
      if row.supplier !in setup.suppliers {
        return Err(SupplierConfigurationError);
      }
      if setup.suppliers[row.supplier].currency != Some(row.currency) {
        return Err(SupplierCurrencyMismatch);
      }
    }

    // The answer is a success that confirms what was asked for and can be priced.
    method CheckAnswer(setup: Setup, asked: Asked, offer: Id, answer: Answer) returns (failure: Option<Failure>)
      requires offer < |offers| && offers[offer].search < |searches|
      ensures failure == AnswerFailure(Contents(), setup, offer, asked, answer)
    {
      hide RepriceAnswer.RefusalOf, Rejects, DistinctReferences, Succeeded;
      if answer.Unavailable? {
        return Some(SupplierUnavailable);
      }
      if !Succeeded(answer.original) {
        return Some(if Rejects(setup, answer) then SupplierRejected else SupplierUnavailable);
      }
      var row, fare := offers[offer], Info(answer.original);
      var refusal := RepriceAnswer.RefusalOf(fare, row.original, row.currency, searches[row.search].travel, asked.selection.directions);
      if refusal.Some? {
        return Some(Unconfirmed(refusal.value));
      }
      if answer.priced.None? {
        return Some(SupplierPricingUnsupported);
      }
      failure := if DistinctReferences(fare) then None else Some(SupplierReferenceMismatch);
    }

    method ProcessReprice(rows: Rows, setup: Setup, asked: Asked, offer: Id, answer: Answer, now: int)
      returns (result: Result<Id, Failure>)
      requires offer < |offers| && offers[offer].search < |searches|
      modifies this`offers, this`prices
      ensures (Contents(), result) == FinishReprice(old(Contents()), rows, setup, asked, offer, answer, now)
      // A price is stored exactly for an answer that can be priced, for an offer that is still live and bookable.
      ensures result.Ok? <==>
                && Priceable(old(Contents()), offer, asked, answer)
                && StillValid(rows, old(offers[offer]).supplier, old(offers[offer]).epoch) && Live(old(Contents()), offer, now)
      // It is one new unaccepted row, next in its offer's versions, that lasts as long as offer and search.
      ensures result.Ok? ==> result.value == |old(prices)| && PriceAdded(old(Contents()), setup, asked, offer, answer, Contents())
      // Any other answer is refused for the first reason there is, and only a rejection flags the offer.
      ensures result.Err? ==>
                && AnswerRefusal(old(Contents()), rows, setup, offer, asked, answer, now) == Some(result.error)
                && prices == old(prices)
                && offers == if Rejects(setup, answer) then old(offers)[offer := old(offers[offer]).(repriceRequired := true)]
                             else old(offers)
    {
      ghost var was := Contents();
      result := DecideAnswer(rows, setup, asked, offer, answer, now);
      hide FinishReprice, PriceAdded, AnswerRefusal, Priceable, StillValid, Live, Rejects;
      FinishedExactlyWhen(was, rows, setup, asked, offer, answer, now);
    }

    method DecideAnswer(rows: Rows, setup: Setup, asked: Asked, offer: Id, answer: Answer, now: int) returns (result: Result<Id, Failure>)
      requires offer < |offers| && offers[offer].search < |searches|
      modifies this`offers, this`prices
      ensures (Contents(), result) == FinishReprice(old(Contents()), rows, setup, asked, offer, answer, now)
    {
      hide FareReferenced, Repriced, Live, Rejects, AnswerFailure, StillValid;
      var row := offers[offer];
      if Rejects(setup, answer) {
        offers := offers[offer := row.(repriceRequired := true)];
        return Err(SupplierRejected);
      }
      var failure := CheckAnswer(setup, asked, offer, answer);
      if failure.Some? {
        return Err(failure.value);
      }
      if !StillValid(rows, row.supplier, row.epoch) {
        return Err(NewSearchRequired);
      }
      if !Live(Contents(), offer, now) {
        return Err(OfferExpired);
      }
      UsableIsReferenced(Contents(), setup, offer, asked, answer);
      LiveHasSearch(Contents(), offer, now);
      AddPrice(setup, asked, offer, answer);
      result := Ok(|prices| - 1);
    }

    method AddPrice(setup: Setup, asked: Asked, offer: Id, answer: Answer)
      requires offer < |offers| && offers[offer].search < |searches| && searches[offers[offer].search].expires.Some?
      requires answer.Supplied? && answer.priced.Some? && FareReferenced(Info(answer.original))
      modifies this`offers, this`prices
      ensures Contents() == Repriced(old(Contents()), setup, asked, offer, answer)
      ensures |prices| == old(|prices|) + 1
    {
      hide FareReferenced, QuoteOf, LatestVersion;
      var row := offers[offer];
      var expires := row.expires;
      if searches[row.search].expires.value < expires {
        expires := searches[row.search].expires.value;
      }
      var price := Price(offer, row.client, LatestVersion(prices, offer) + 1, asked.machine.audience, asked.machine.agent, row.currency,
                         QuoteOf(setup, row, offer, |prices|, answer.original, answer.priced.value), asked.selection, expires, false);
      prices := prices + [price];
      offers := offers[offer := row.(repriceRequired := false)];
    }

    method AcceptPrice(rows: Rows, machine: Machine, price: Id, now: int) returns (result: Result<int, Failure>)
      requires PricesOwned(Contents())
      modifies this`prices
      ensures (Contents(), result) == Accept(old(Contents()), rows, machine, price, now)
      // Acceptance marks exactly the client's own live quote of the highest version, and only that row.
      ensures result.Ok? <==> Acceptable(old(Contents()), rows, machine, price, now)
      ensures |prices| == old(|prices|)
      ensures forall p :: 0 <= p < |prices| ==>
                prices[p] == old(prices)[p].(accepted := old(prices)[p].accepted || (result.Ok? && p == price))
      ensures result.Ok? ==> result.value == prices[price].version
      ensures result.Err? ==> AcceptRefusal(old(Contents()), rows, machine, price, now) == Some(result.error)
    {
      AcceptedExactlyWhen(Contents(), rows, machine, price, now);
      hide AcceptRefusal, Newest;
      hide Acceptable, PriceLive, StillValid, LatestVersion;
      if price >= |prices| || prices[price].client != machine.client {
        return Err(NotFound);
      }
      var quote := prices[price];
      var row := offers[quote.offer];
      if row.repriceRequired {
        return Err(RepriceRequired);
      }
      if !StillValid(rows, row.supplier, row.epoch) {
        return Err(NewSearchRequired);
      }
      if quote.audience != machine.audience || quote.agent != machine.agent {
        return Err(PriceContextChanged);
      }
      if !PriceLive(Contents(), price, now) {
        return Err(PriceExpired);
      }
      if quote.version != LatestVersion(prices, quote.offer) {
        return Err(PriceVersionSuperseded);
      }
      prices := prices[price := quote.(accepted := true)];
      result := Ok(quote.version);
    }

    // The quote belongs to the client, is current as its SELECT saw it and has the mode asked for.
    method CheckQuote(machine: Machine, request: BookRequest, seen: Seen) returns (failure: Option<Failure>)
      requires PricesOwned(Contents())
      ensures failure == QuoteFailure(Contents(), machine, request, seen)
      ensures failure.None? <==> QuoteReservable(Contents(), machine, request, seen)
      ensures failure == QuoteRefusal(Contents(), machine, request, seen)
    {
      QuoteReservableExactlyWhen(Contents(), machine, request, seen);
      hide Member, QuoteReservable, QuoteRefusal;
      if request.price >= |prices| || prices[request.price].client != machine.client {
        return Some(NotFound);
      }
      var quote := prices[request.price];
      var row := offers[quote.offer];
      if request.search != row.search || request.offer != quote.offer {
        return Some(OfferReferenceMismatch);
      }
      if !seen.valid {
        return Some(PriceExpired);
      }
      if row.repriceRequired {
        return Some(RepriceRequired);
      }
      if !seen.accepted || !seen.latest {
        return Some(LatestPriceAcceptanceRequired);
      }
      if machine.audience != quote.audience || machine.agent != quote.agent {
        return Some(PriceContextChanged);
      }
      var mode := Bool(!request.direct);
      if Member(row.original, "bookable") != mode || Member(Info(quote.quote.original), "bookable") != mode {
        return Some(BookingModeMismatch);
      }
      if !request.noTaxRedemptions {
        return Some(TaxRedemptionUnsupported);
      }
      if !request.commissionsMatch {
        return Some(CommissionReferenceMismatch);
      }
      if !request.passengersValid {
        return Some(InvalidPassengers);
      }
      failure := None;
    }

    // The supplier may still be booked in this mode, and the quote is still current under its lock.
    method CheckSupplier(rows: Rows, setup: Setup, request: BookRequest, now: int) returns (failure: Option<Failure>)
      requires PricesOwned(Contents()) && request.price < |prices|
      ensures failure == SupplierFailure(Contents(), rows, setup, request, now)
      ensures failure.None? <==> SupplierReservable(Contents(), rows, setup, request, now)
      ensures failure == SupplierRefusal(Contents(), rows, setup, request, now)
    {
      SupplierReservableExactlyWhen(Contents(), rows, setup, request, now);
      hide SupplierReservable, SupplierRefusal, Fresh, DirectReserved, StillValid;
      var quote := prices[request.price];
      var row := offers[quote.offer];
      if !StillValid(rows, row.supplier, row.epoch) {
        return Some(NewSearchRequired);
      }
      ValidIsKnown(rows, row.supplier, row.epoch);
      if !rows[row.supplier].bookingEnabled {
        return Some(SupplierBookingDisabled);
      }
      if row.supplier !in setup.suppliers || setup.suppliers[row.supplier].currency != Some(quote.currency) {
        return Some(SupplierCurrencyMismatch);
      }
      if request.direct {
        if DirectReserved(bookings, quote.offer) {
          return Some(DirectIssueAlreadyReserved);
        }
        if !setup.isTest || !setup.suppliers[row.supplier].directEnabled ||
           !rows[row.supplier].ticketingEnabled || !rows[row.supplier].servicingEnabled {
          return Some(DirectIssueDisabled);
        }
      } else if !setup.suppliers[row.supplier].holdEnabled {
        return Some(SupplierBookingDisabled);
      }
      if !Fresh(Contents(), request.price, now) {
        return Some(LatestPriceAcceptanceRequired);
      }
      failure := None;
    }

    method Reserve(rows: Rows, setup: Setup, machine: Machine, allowed: bool, request: BookRequest, seen: Seen, now: int)
      returns (result: Booked)
      requires PricesOwned(Contents())
      modifies this`bookings
      ensures (Contents(), result) == Book(old(Contents()), rows, setup, machine, allowed, request, seen, now)
      // One pending row is added exactly when every condition holds; otherwise nothing changes.
      ensures result.Reserved? <==> Reservable(old(Contents()), rows, setup, machine, allowed, request, seen, now)
      ensures result.Reserved? ==>
                && result.booking == old(|bookings|) && bookings == old(bookings) + [bookings[result.booking]]
                && IsNewRow(old(Contents()), machine, request, now, bookings[result.booking])
      ensures !result.Reserved? ==> bookings == old(bookings)
      // A taken key is answered by its own row, or refused as reused, and by nothing else.
      ensures result.Replayed? || result == Refused(IdempotencyKeyReused) <==>
                Permitted(machine, request) && allowed && request.key.Some? &&
                KeyTaken(old(bookings), machine.client, request.key.value)
      ensures result.Replayed? ==> Answers(bookings, result.booking, machine, request)
      ensures result.Refused? ==> BookRefusal(old(Contents()), rows, setup, machine, allowed, request, seen, now) == Some(result.failure)
    {
      ReservedExactlyWhen(Contents(), rows, setup, machine, allowed, request, seen, now);
      QuoteFound(Contents(), machine, request, seen);
      hide IsNewRow, BookRefusal, QuoteRefusal, SupplierRefusal, Reservable, QuoteReservable, SupplierReservable, QuoteFailure, SupplierFailure, KeyTaken, FindKey, KeptOf;
      if !machine.booking || (request.direct && !machine.ticketing) {
        return Refused(Forbidden);
      }
      if request.key.None? {
        return Refused(IdempotencyKeyRequired);
      }
      if !allowed {
        return Refused(ClientBookingDisabled);
      }
      var previous := FindKey(bookings, machine.client, request.key.value);
      if previous.Some? {
        if bookings[previous.value].hash != request.hash {
          return Refused(IdempotencyKeyReused);
        }
        return Replayed(previous.value);
      }
      var failure := CheckQuote(machine, request, seen);
      if failure.Some? {
        return Refused(failure.value);
      }
      failure := CheckSupplier(rows, setup, request, now);
      if failure.Some? {
        return Refused(failure.value);
      }
      var quote := prices[request.price];
      var row := offers[quote.offer];
      var kept := Kept(row.search, quote.offer, request.price, row.supplier, quote.quote, request.passengers);
      KeptFields(Contents(), request.price, request.passengers);
      var booking := Booking(
        machine.client, quote.offer, request.price, row.supplier, request.key.value, request.hash,
        if request.direct then Direct else Hold, kept, Pending, None, None, None, None, None, now, now);
      assert booking == NewBooking(Contents(), machine, request, now);
      hide NewBooking;
      bookings := bookings + [booking];
      result := Reserved(|bookings| - 1);
    }

    method HeldResponse(setup: Setup, kept: Kept, id: Id, body: Value) returns (response: Option<Value>)
      ensures response == Verified(setup, Hold, kept, id, Some(body))
      ensures response.Some? <==>
              && Member(Member(body, "item2"), "isSuccess") == Bool(true)
              && Member(Info(body), "bookingStatus") == Text("Created")
              && StatesText(Member(Info(body), "pnr")) && StatesText(Member(Info(body), "bookingCodeRef"))
              && !References.ContainsTicket(body) && HeldFare.AnswersQuote(body, Info(kept.quote.original))
    {
      AnsweredExactlyWhen(kept.quote, Own(setup, kept, id), setup.drawn(BookingRow, id), body);
      hide HeldFare.AnswersQuote, HoldEvidence, Member, HeldFare.Projected, AnswerMap, References.Bind, References.BindIdentities, Own, Displayed, Breakdown;
      if !HoldEvidence(body) {
        return None;
      }
      var priced := HeldFare.Project(body, Info(kept.quote.original), Info(kept.quote.selling));
      if priced.None? {
        return None;
      }
      var own := Own(setup, kept, id);
      var references := new References.ReferenceMap(AnswerMap(kept.quote, own, body), setup.drawn(BookingRow, id));
      var bound := references.BindTree(priced.value);
      response := Some(Displayed(References.BindIdentities(bound, own), Breakdown(kept.quote)));
    }

    method StoreHold(setup: Setup, id: Id, answer: Option<Value>, reason: string, now: int)
      requires id < |bookings|
      modifies this`bookings, this`late
      ensures Contents() == FinishHold(old(Contents()), setup, id, answer, reason, now)
      ensures HoldStored(old(Contents()), setup, id, answer, reason, now, Contents())
    {
      HoldIsStored(Contents(), setup, id, answer, reason, now);
      hide HoldStored, InfoText, Answered, Own, Member, Info, StatesText, HeldFare.AnswersQuote, References.ContainsTicket;
      var row := bookings[id];
      var response := None;
      if answer.Some? {
        response := HeldResponse(setup, row.kept, id, answer.value);
      }
      var pnr, supplierRef := InfoText(answer, "pnr"), InfoText(answer, "bookingCodeRef");
      if row.state == Pending {
        row := row.(original := answer, response := Shown(response), pnr := pnr, supplierRef := supplierRef, updated := now);
        if response.Some? {
          row := row.(state := Held, error := None);
        } else {
          row := row.(state := OutcomeUnknown, error := Some(Diagnostic(reason)));
        }
      } else {
        late := late + [Late(id, answer)];
        row := row.(state := OutcomeUnknown, response := None, error := Some(LateOutcome), updated := now);
        if answer.Some? {
          row := row.(original := answer);
        }
        row := row.(pnr := OrElse(pnr, row.pnr), supplierRef := OrElse(supplierRef, row.supplierRef));
      }
      bookings := bookings[id := row];
    }

    method StoreDirect(setup: Setup, id: Id, answer: Option<Value>, now: int)
      requires id < |bookings|
      modifies this`bookings, this`late, this`issues
      ensures Contents() == FinishDirect(old(Contents()), setup, id, answer, now)
      ensures DirectStored(old(Contents()), setup, id, answer, now, Contents())
    {
      DirectIsStored(Contents(), setup, id, answer, now);
      hide DirectStored, InfoText, Own, TicketReceipt.Receipt, TicketReceipt.ConfirmsIssue, TicketReceipt.TicketsHandOut, HeldFare.AnswersQuote;
      var row := bookings[id];
      var response := None;
      if answer.Some? {
        var kept := row.kept;
        response := TicketReceipt.MakeReceipt(
          kept.quote, Own(setup, kept, id), setup.drawn(BookingRow, id), setup.text(TicketRow, id),
          kept.passengers, setup.script, kept.supplier, answer.value);
      }
      if row.state == Pending {
        row := row.(original := answer, response := Shown(response), pnr := InfoText(answer, "pnr"),
                    supplierRef := InfoText(answer, "bookingCodeRef"), updated := now);
        if response.Some? {
          row := row.(state := Issued, error := None);
        } else {
          row := row.(state := OutcomeUnknown, error := Some(DirectIssueUnknown));
        }
        issues := issues + [TicketIssue(id, row.state, answer, response)];
      } else {
        late := late + [Late(id, answer)];
        row := row.(state := OutcomeUnknown, response := None, error := Some(LateOutcome), updated := now);
      }
      bookings := bookings[id := row];
    }

    method RecordResolution(id: Id, outcome: Outcome, evidenceComplete: bool, expected: int, now: int)
      returns (result: Result<Public, Failure>)
      modifies this`bookings, this`resolutions
      ensures (Contents(), result) == Resolve(old(Contents()), id, outcome, evidenceComplete, expected, now)
      // A decision is taken exactly on complete evidence about an unresolved row that is as it was seen.
      ensures result.Ok? <==> evidenceComplete && id < old(|bookings|) && Resolvable(old(bookings[id]), expected, now)
      ensures result.Err? ==> bookings == old(bookings) && resolutions == old(resolutions)
      // It is recorded with the state it replaced, and the supplier's answer stays on the row.
      ensures result.Ok? ==>
                && resolutions == old(resolutions) + [Resolution(id, outcome, old(bookings[id]).state)]
                && bookings == old(bookings)[id := bookings[id]]
                && bookings[id] == old(bookings[id]).(state := ManuallyResolved, response := Some(Manual(outcome)), error := None,
                                                      updated := now)
                && result.value == Manual(outcome)
      ensures result.Err? ==>
                Some(result.error) ==
                Unless(evidenceComplete, SupplierEvidenceRequired,
                Unless(id < |bookings|, NotFound,
                Unless(id < |bookings| ==> bookings[id].state != ManuallyResolved, AlreadyResolved,
                Unless(id < |bookings| ==> bookings[id].updated == expected, StaleBookingView,
                Unless(false, BookingNotResolvable, None)))))
    {
      if !evidenceComplete {
        return Err(SupplierEvidenceRequired);
      }
      if id >= |bookings| {
        return Err(NotFound);
      }
      var row := bookings[id];
      if row.state == ManuallyResolved {
        return Err(AlreadyResolved);
      }
      if row.updated != expected {
        return Err(StaleBookingView);
      }
      if row.state != OutcomeUnknown && !(row.state == Pending && row.created < now - STALE_AFTER) {
        return Err(BookingNotResolvable);
      }
      resolutions := resolutions + [Resolution(id, outcome, row.state)];
      bookings := bookings[id := row.(state := ManuallyResolved, response := Some(Manual(outcome)), error := None, updated := now)];
      result := Ok(Manual(outcome));
    }
  }
}
