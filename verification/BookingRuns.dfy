// Whole runs of the offer, RePrice, acceptance, Book and resolution protocol.  Supplier calls take
// time: a RePrice holds its offer's row lock across one, and a booking's worker makes one after the
// reservation committed.  Anything else may happen in between, and a crash loses both.
module BookingRuns {
  import opened Wrappers
  import opened Json
  import opened Connections
  import opened BookAnswer
  import opened Bookings
  import RepriceAnswer

  datatype Worker = Ready | Sent

  datatype QuoteEvent = Priced(version: int) | RejectedBySupplier

  datatype Finished = Finished(booking: Id, answer: Option<Value>)

  // sent, finished and history record what happened; no transaction reads them.
  datatype System = System(
    now: int,
    rows: Rows,
    store: Store,
    repricing: map<Id, Asked>,
    workers: map<Id, Worker>,
    sent: seq<Id>,
    finished: seq<Finished>,
    history: seq<seq<QuoteEvent>>)

  // original is the supplier's offer, selling the offer priced from it.
  datatype NewOffer = NewOffer(supplier: string, currency: string, original: Value, selling: Value, expires: int)

  datatype Event =
    | Tick(time: int)
    | Configure(supplier: string, input: Update)
    | TakeSnapshot(client: Id, travel: RepriceAnswer.Travel)
    | StoreSearch(search: Id, searchExpires: int, offers: seq<NewOffer>)
    | StartReprice(machine: Machine, offer: Id, asking: RepriceRequest)
    | EndReprice(offer: Id, answer: Answer)
    | AcceptPrice(machine: Machine, price: Id)
    | BookOffer(machine: Machine, allowed: bool, request: BookRequest, seen: Seen)
    | Send(booking: Id)
    | Receive(booking: Id, reply: Option<Value>, reason: string)
    | ResolveBooking(booking: Id, outcome: Outcome, evidenceComplete: bool, expected: int)
    | ObservePnr(booking: Id)
    | Crash

  predicate Storable(search: Search, offers: seq<NewOffer>) {
    forall i | 0 <= i < |offers| :: offers[i].supplier in search.epochs && OfferReferenced(offers[i].original)
  }

  function StoredOffer(setup: Setup, search: Search, id: Id, offer: NewOffer, row: Id): Offer
    requires offer.supplier in search.epochs && OfferReferenced(offer.original)
  {
    var bound := OfferBound(setup, id, row, offer.original, offer.selling);
    Offer(search.client, id, offer.supplier, search.epochs[offer.supplier], offer.currency, offer.original,
          bound.0, bound.1.entries, offer.expires, false)
  }

  // The rows of one search, numbered from first.
  function StoredOffers(setup: Setup, search: Search, id: Id, offers: seq<NewOffer>, first: Id): (r: seq<Offer>)
    requires Storable(search, offers)
    ensures |r| == |offers|
    ensures forall i :: 0 <= i < |r| ==> r[i] == StoredOffer(setup, search, id, offers[i], first + i)
  {
    seq(|offers|, i requires 0 <= i < |offers| => StoredOffer(setup, search, id, offers[i], first + i))
  }

  function Noted(history: seq<seq<QuoteEvent>>, offer: Id, event: QuoteEvent): seq<seq<QuoteEvent>>
    requires offer < |history|
  {
    history[offer := history[offer] + [event]]
  }

  // A booking that waits for an offer lock runs when the lock is free.
  predicate OfferUnlocked(s: System, price: Id) {
    price < |s.store.prices| ==> s.store.prices[price].offer !in s.repricing
  }

  ghost predicate Step(setup: Setup, s: System, event: Event, next: System) {
    match event
    case Tick(time) => s.now <= time && next == s.(now := time)
    case Configure(supplier, input) => next == s.(rows := UpdateRow(s.rows, supplier, input).0)
    case TakeSnapshot(client, travel) =>
      && EnabledEpochs(s.rows) != map[]
      && next == s.(store := s.store.(searches := s.store.searches + [Search(client, travel, EnabledEpochs(s.rows), None)]))
    case StoreSearch(id, expires, offers) =>
      && id < |s.store.searches| && s.store.searches[id].expires.None?
      && Storable(s.store.searches[id], offers)
      && var search := s.store.searches[id];
         next == s.(store := s.store.(searches := s.store.searches[id := search.(expires := Some(expires))],
                                      offers := s.store.offers + StoredOffers(setup, search, id, offers, |s.store.offers|)),
                    history := s.history + seq(|offers|, _ => []))
    case StartReprice(machine, offer, request) =>
      && offer !in s.repricing
      && var begun := BeginReprice(s.store, s.rows, setup, machine, offer, request, s.now);
         begun.Ok? && next == s.(repricing := s.repricing[offer := Asked(machine, begun.value)])
    case EndReprice(offer, answer) =>
      && offer in s.repricing && offer < |s.store.offers| && offer < |s.history|
      && s.store.offers[offer].search < |s.store.searches|
      && var done := FinishReprice(s.store, s.rows, setup, s.repricing[offer], offer, answer, s.now);
         next == s.(store := done.0, repricing := s.repricing - {offer},
                    history := if done.1.Ok? then Noted(s.history, offer, Priced(LatestVersion(s.store.prices, offer) + 1))
                               else if Rejects(setup, answer) then Noted(s.history, offer, RejectedBySupplier)
                               else s.history)
    case AcceptPrice(machine, price) =>
      && OfferUnlocked(s, price) && PricesOwned(s.store)
      && next == s.(store := Accept(s.store, s.rows, machine, price, s.now).0)
    case BookOffer(machine, allowed, request, seen) =>
      && OfferUnlocked(s, request.price) && PricesOwned(s.store)
      && var done := Book(s.store, s.rows, setup, machine, allowed, request, seen, s.now);
         next == s.(store := done.0,
                    workers := if done.1.Reserved? then s.workers[done.1.booking := Ready] else s.workers)
    case Send(id) =>
      && id in s.workers && s.workers[id] == Ready
      && next == s.(workers := s.workers[id := Sent], sent := s.sent + [id])
    case Receive(id, reply, reason) =>
      && id in s.workers && s.workers[id] == Sent && id < |s.store.bookings|
      && next == s.(store := Finish(s.store, setup, id, reply, reason, s.now), workers := s.workers - {id},
                    finished := s.finished + [Finished(id, reply)])
    case ResolveBooking(id, outcome, evidenceComplete, expected) =>
      next == s.(store := Resolve(s.store, id, outcome, evidenceComplete, expected, s.now).0)
    case ObservePnr(id) =>
      && id < |s.store.bookings|
      && next == s.(store := s.store.(bookings := s.store.bookings[id := s.store.bookings[id].(updated := s.now)]))
    case Crash => next == s.(repricing := map[], workers := map[])
  }

  ghost predicate Initial(s: System) {
    && s.store == Store([], [], [], [], [], [], [])
    && s.repricing == map[] && s.workers == map[] && s.sent == [] && s.finished == [] && s.history == []
  }

  ghost predicate Run(setup: Setup, states: seq<System>, events: seq<Event>) {
    && |states| == |events| + 1
    && Initial(states[0])
    && forall i, j {:trigger events[i], states[j]} :: 0 <= i < |events| && j == i + 1 ==> Step(setup, states[i], events[i], states[j])
  }

  // ---- Quotes: versions and rejections ------------------------------------------------------------

  // The versions of one offer, in the order they were inserted.
  function VersionsOf(prices: seq<Price>, offer: Id): seq<int> {
    if prices == [] then []
    else
      var earlier := VersionsOf(prices[..|prices| - 1], offer);
      if prices[|prices| - 1].offer == offer then earlier + [prices[|prices| - 1].version] else earlier
  }

  function PricedVersions(events: seq<QuoteEvent>): seq<int> {
    if events == [] then []
    else
      var earlier := PricedVersions(events[..|events| - 1]);
      match events[|events| - 1]
      case Priced(version) => earlier + [version]
      case RejectedBySupplier => earlier
  }

  function UpTo(n: nat): seq<int> {
    if n == 0 then [] else UpTo(n - 1) + [n]
  }

  predicate LastRejected(events: seq<QuoteEvent>) {
    events != [] && events[|events| - 1] == RejectedBySupplier
  }

  // One offer row against its own history: versions are 1, 2, ... in order, and the row is flagged
  // exactly while the last thing that happened was a rejection.
  ghost predicate RowSound(prices: seq<Price>, searches: seq<Search>, offer: Id, row: Offer, events: seq<QuoteEvent>) {
    && VersionsOf(prices, offer) == PricedVersions(events)
    && VersionsOf(prices, offer) == UpTo(|VersionsOf(prices, offer)|)
    && (row.repriceRequired <==> LastRejected(events))
    && row.search < |searches|
    && searches[row.search].expires.Some?
  }

  ghost predicate OfferSound(s: System, offer: Id)
    requires offer < |s.store.offers| && offer < |s.history|
  {
    RowSound(s.store.prices, s.store.searches, offer, s.store.offers[offer], s.history[offer])
  }

  ghost predicate SearchKeepsEpoch(s: System, offer: Id)
    requires offer < |s.store.offers| && s.store.offers[offer].search < |s.store.searches|
  {
    var row := s.store.offers[offer];
    && row.supplier in s.store.searches[row.search].epochs
    && s.store.searches[row.search].epochs[row.supplier] == row.epoch
  }

  ghost predicate QuotesSafe(s: System) {
    && |s.history| == |s.store.offers|
    && PricesOwned(s.store)
    && (forall offer :: 0 <= offer < |s.store.offers| ==> OfferSound(s, offer) && SearchKeepsEpoch(s, offer))
    && (forall offer :: offer in s.repricing ==> offer < |s.store.offers|)
  }

  // ---- Bookings: reservation, dispatch and outcome --------------------------------------------------

  ghost predicate ReservationsSafe(store: Store) {
    && (forall b :: 0 <= b < |store.bookings| ==>
          var row := store.bookings[b];
          && row.price < |store.prices| && store.prices[row.price].offer == row.offer
          && store.prices[row.price].client == row.client && store.prices[row.price].accepted
          && row.offer < |store.offers| && row.kept == KeptOf(store, row.price, row.kept.passengers))
    && (forall a, b :: 0 <= a < b < |store.bookings| ==>
          store.bookings[a].client != store.bookings[b].client || store.bookings[a].key != store.bookings[b].key)
    && (forall a, b :: 0 <= a < b < |store.bookings| && store.bookings[a].mode == Direct && store.bookings[b].mode == Direct ==>
          store.bookings[a].offer != store.bookings[b].offer)
  }

  ghost predicate Distinct<T(!new)>(items: seq<T>) {
    forall i, j :: 0 <= i < j < |items| ==> items[i] != items[j]
  }

  predicate Done(finished: seq<Finished>, id: Id) {
    exists i :: 0 <= i < |finished| && finished[i].booking == id
  }

  // A worker that may still send has not sent; one that has sent has no outcome yet.
  ghost predicate DispatchSafe(s: System) {
    && Distinct(s.sent)
    && (forall i :: 0 <= i < |s.sent| ==> s.sent[i] < |s.store.bookings|)
    && (forall i, j :: 0 <= i < j < |s.finished| ==> s.finished[i].booking != s.finished[j].booking)
    && (forall i :: 0 <= i < |s.finished| ==> s.finished[i].booking in s.sent)
    && (forall id :: id in s.workers ==>
          && id < |s.store.bookings|
          && (s.workers[id] == Sent <==> id in s.sent)
          && !Done(s.finished, id))
  }

  function LateCount(late: seq<Late>, id: Id): nat {
    if late == [] then 0
    else LateCount(late[..|late| - 1], id) + if late[|late| - 1].booking == id then 1 else 0
  }

  function ResolutionCount(resolutions: seq<Resolution>, id: Id): nat {
    if resolutions == [] then 0
    else ResolutionCount(resolutions[..|resolutions| - 1], id) + if resolutions[|resolutions| - 1].booking == id then 1 else 0
  }

  // The evidence behind each state, and where an answer went.
  ghost predicate OutcomeSound(setup: Setup, store: Store, finished: seq<Finished>, id: Id)
    requires id < |store.bookings|
  {
    var row := store.bookings[id];
    var late, resolved := LateCount(store.late, id), ResolutionCount(store.resolutions, id);
    && late <= 1
    && (late == 1 ==> Done(finished, id))
    && resolved <= late + (if row.state == ManuallyResolved then 1 else 0)
    && (row.state == ManuallyResolved ==> resolved >= 1)
    && (row.state == Pending ==> resolved == 0 && late == 0 && !Done(finished, id))
    && (row.state == OutcomeUnknown ==> Done(finished, id))
    && (row.state == Held || row.state == Issued ==>
          && resolved == 0 && late == 0
          && row.mode == (if row.state == Held then Hold else Direct)
          && row.original.Some?
          && Verified(setup, row.mode, row.kept, id, row.original).Some?
          && row.response == Shown(Verified(setup, row.mode, row.kept, id, row.original))
          && Done(finished, id))
  }

  ghost predicate AnswerStored(store: Store, entry: Finished) {
    && entry.booking < |store.bookings|
    && if LateCount(store.late, entry.booking) == 0
       then store.bookings[entry.booking].original == entry.answer
       else Late(entry.booking, entry.answer) in store.late
  }

  ghost predicate OutcomesSafe(setup: Setup, store: Store, finished: seq<Finished>) {
    && (forall id :: 0 <= id < |store.bookings| ==> OutcomeSound(setup, store, finished, id))
    && (forall i :: 0 <= i < |store.late| ==> store.late[i].booking < |store.bookings|)
    && (forall i :: 0 <= i < |store.resolutions| ==> store.resolutions[i].booking < |store.bookings|)
    && (forall i :: 0 <= i < |finished| ==> AnswerStored(store, finished[i]))
  }

  ghost predicate Safe(setup: Setup, s: System) {
    QuotesSafe(s) && ReservationsSafe(s.store) && DispatchSafe(s) && OutcomesSafe(setup, s.store, s.finished)
  }

  // ---- Every step keeps the quotes sound ------------------------------------------------------------

  lemma StepAt(setup: Setup, states: seq<System>, events: seq<Event>, i: nat)
    requires Run(setup, states, events) && i + 1 < |states|
    ensures i < |events| && Step(setup, states[i], events[i], states[i + 1])
  {
    hide Step, Initial;
  }

  lemma StartsEmpty(setup: Setup, states: seq<System>, events: seq<Event>)
    requires Run(setup, states, events)
    ensures |states| == |events| + 1 && Initial(states[0])
  {
  }

  lemma RunShape(setup: Setup, states: seq<System>, events: seq<Event>)
    requires Run(setup, states, events)
    ensures |states| == |events| + 1
  {
  }

  lemma {:induction false} NoVersions(prices: seq<Price>, offer: Id)
    requires forall p :: 0 <= p < |prices| ==> prices[p].offer != offer
    ensures VersionsOf(prices, offer) == []
  {
    if prices != [] {
      NoVersions(prices[..|prices| - 1], offer);
    }
  }

  lemma {:induction false} VersionsSame(prices: seq<Price>, others: seq<Price>, offer: Id)
    requires |prices| == |others|
    requires forall p :: 0 <= p < |prices| ==> prices[p].offer == others[p].offer && prices[p].version == others[p].version
    ensures VersionsOf(prices, offer) == VersionsOf(others, offer)
  {
    if prices != [] {
      VersionsSame(prices[..|prices| - 1], others[..|others| - 1], offer);
    }
  }

  lemma VersionsAppended(prices: seq<Price>, price: Price, offer: Id)
    ensures VersionsOf(prices + [price], offer) ==
            if price.offer == offer then VersionsOf(prices, offer) + [price.version] else VersionsOf(prices, offer)
  {
    assert (prices + [price])[..|prices|] == prices;
  }

  lemma NotedAppended(events: seq<QuoteEvent>, event: QuoteEvent)
    ensures PricedVersions(events + [event]) ==
            if event.Priced? then PricedVersions(events) + [event.version] else PricedVersions(events)
  {
    assert (events + [event])[..|events|] == events;
  }

  lemma {:induction false} UpToAt(n: nat)
    ensures |UpTo(n)| == n && forall i :: 0 <= i < n ==> UpTo(n)[i] == i + 1
  {
    if n > 0 {
      UpToAt(n - 1);
    }
  }

  lemma {:induction false} LatestIsMax(prices: seq<Price>, offer: Id)
    requires forall i :: 0 <= i < |VersionsOf(prices, offer)| ==> VersionsOf(prices, offer)[i] == i + 1
    ensures LatestVersion(prices, offer) == |VersionsOf(prices, offer)|
  {
    if prices != [] {
      var earlier := prices[..|prices| - 1];
      if prices[|prices| - 1].offer == offer {
        var versions := VersionsOf(earlier, offer);
        assert VersionsOf(prices, offer) == versions + [prices[|prices| - 1].version];
        forall i | 0 <= i < |versions| ensures versions[i] == i + 1 {
          assert versions[i] == VersionsOf(prices, offer)[i];
        }
        assert VersionsOf(prices, offer)[|versions|] == |versions| + 1;
      }
      LatestIsMax(earlier, offer);
    }
  }

  // With versions 1..n the maximum the code asks the table for is the number of versions.
  lemma LatestIsCount(s: System, offer: Id)
    requires offer < |s.store.offers| && offer < |s.history| && OfferSound(s, offer)
    ensures LatestVersion(s.store.prices, offer) == |VersionsOf(s.store.prices, offer)|
  {
    UpToAt(|VersionsOf(s.store.prices, offer)|);
    LatestIsMax(s.store.prices, offer);
  }

  // ---- One event's own effect ---------------------------------------------------------------------------

  lemma SnapshotEffect(setup: Setup, s: System, event: Event, next: System)
    requires event.TakeSnapshot? && Step(setup, s, event, next)
    ensures next.store == s.store.(searches := s.store.searches + [Search(event.client, event.travel, EnabledEpochs(s.rows), None)])
  {
    hide EnabledEpochs;
  }

  lemma SendEffect(setup: Setup, s: System, event: Event, next: System)
    requires event.Send? && Step(setup, s, event, next)
    ensures event.booking in s.workers && s.workers[event.booking] == Ready
    ensures next == s.(workers := s.workers[event.booking := Sent], sent := s.sent + [event.booking])
  {
  }

  lemma CrashEffect(setup: Setup, s: System, event: Event, next: System)
    requires event.Crash? && Step(setup, s, event, next)
    ensures next == s.(repricing := map[], workers := map[])
  {
  }

  lemma AcceptEffect(setup: Setup, s: System, event: Event, next: System)
    requires event.AcceptPrice? && Step(setup, s, event, next)
    ensures PricesOwned(s.store) && next == s.(store := Accept(s.store, s.rows, event.machine, event.price, s.now).0)
  {
    hide PricesOwned, Accept;
  }

  lemma EndRepriceEffect(setup: Setup, s: System, event: Event, next: System)
    requires event.EndReprice? && Step(setup, s, event, next)
    ensures event.offer in s.repricing && event.offer < |s.store.offers| && s.store.offers[event.offer].search < |s.store.searches|
    ensures next.store == FinishReprice(s.store, s.rows, setup, s.repricing[event.offer], event.offer, event.answer, s.now).0
    ensures next.repricing == s.repricing - {event.offer} && next.now == s.now
    ensures next.workers == s.workers && next.sent == s.sent && next.finished == s.finished
  {
    hide FinishReprice, LatestVersion;
  }

  lemma StoreSearchEffect(setup: Setup, s: System, event: Event, next: System)
    requires event.StoreSearch? && Step(setup, s, event, next)
    ensures event.search < |s.store.searches|
    ensures var search := s.store.searches[event.search];
            && Storable(search, event.offers)
            && next.store == s.store.(
                 searches := s.store.searches[event.search := search.(expires := Some(event.searchExpires))],
                 offers := s.store.offers + StoredOffers(setup, search, event.search, event.offers, |s.store.offers|))
    ensures next.repricing == s.repricing && next.finished == s.finished && next.now == s.now
  {
    hide StoredOffers, Storable;
  }

  lemma ReceiveEffect(setup: Setup, s: System, event: Event, next: System)
    requires event.Receive? && Step(setup, s, event, next)
    ensures event.booking in s.workers && s.workers[event.booking] == Sent && event.booking < |s.store.bookings|
    ensures next == s.(store := Finish(s.store, setup, event.booking, event.reply, event.reason, s.now),
                       workers := s.workers - {event.booking}, finished := s.finished + [Finished(event.booking, event.reply)])
  {
    hide Finish;
  }

  lemma ResolveEffect(setup: Setup, s: System, event: Event, next: System)
    requires event.ResolveBooking? && Step(setup, s, event, next)
    ensures next == s.(store := Resolve(s.store, event.booking, event.outcome, event.evidenceComplete, event.expected, s.now).0)
  {
    hide Resolve;
  }

  lemma ObserveEffect(setup: Setup, s: System, event: Event, next: System)
    requires event.ObservePnr? && Step(setup, s, event, next)
    ensures event.booking < |s.store.bookings|
    ensures next == s.(store := s.store.(bookings :=
              s.store.bookings[event.booking := s.store.bookings[event.booking].(updated := s.now)]))
  {
  }

  // A decision touches one unresolved row, and only if it is recorded.
  lemma ResolveChanges(store: Store, id: Id, outcome: Outcome, evidenceComplete: bool, expected: int, now: int)
    ensures var next := Resolve(store, id, outcome, evidenceComplete, expected, now).0;
            && next == store.(bookings := next.bookings, resolutions := next.resolutions)
            && |next.bookings| == |store.bookings| && store.resolutions <= next.resolutions
            && (next.resolutions == store.resolutions ==> next == store)
            && forall b :: 0 <= b < |store.bookings| ==> Decided(store.bookings[b], next.bookings[b], b == id, now)
  {
  }

  predicate Decided(was: Booking, row: Booking, decided: bool, now: int) {
    || row == was
    || (&& decided && (was.state == OutcomeUnknown || was.state == Pending)
        && row == was.(state := ManuallyResolved, response := row.response, error := None, updated := now))
  }

  lemma ObserveChanges(store: Store, id: Id, now: int)
    requires id < |store.bookings|
    ensures var next := store.(bookings := store.bookings[id := store.bookings[id].(updated := now)]);
            && |next.bookings| == |store.bookings|
            && forall b :: 0 <= b < |store.bookings| ==> Observed(store.bookings[b], next.bookings[b], b == id, now)
  {
  }

  predicate Observed(was: Booking, row: Booking, observed: bool, now: int) {
    row == was || (observed && row == was.(updated := now))
  }

  // Tick, Configure, TakeSnapshot, StartReprice, Send and Crash: at most a new search row.
  lemma OtherEffect(setup: Setup, s: System, event: Event, next: System)
    requires Step(setup, s, event, next)
    requires !event.AcceptPrice? && !event.EndReprice? && !event.StoreSearch? && !event.BookOffer? && !event.Receive?
    requires !event.ResolveBooking? && !event.ObservePnr?
    ensures s.store.searches <= next.store.searches && next.store == s.store.(searches := next.store.searches)
    ensures !event.TakeSnapshot? ==> next.store == s.store
    ensures next.history == s.history && next.finished == s.finished
    ensures event.StartReprice? || event.Crash? || next.repricing == s.repricing
    ensures event.StartReprice? ==>
              && event.offer < |s.store.offers| && event.offer in next.repricing
              && next.repricing == s.repricing[event.offer := next.repricing[event.offer]]
    ensures event.Crash? ==> next.repricing == map[]
    ensures s.now <= next.now
  {
    hide Live, StillValid, UpdateRow, EnabledEpochs;
  }

  // ---- What an event may change, for all events ------------------------------------------------------------

  // An offer row keeps everything but its flag, a price row everything but its acceptance.
  ghost predicate QuotesEndure(store: Store, next: Store) {
    && |store.offers| <= |next.offers|
    && (forall o :: 0 <= o < |store.offers| ==>
          next.offers[o].(repriceRequired := true) == store.offers[o].(repriceRequired := true))
    && |store.prices| <= |next.prices|
    && (forall p :: 0 <= p < |store.prices| ==>
          && next.prices[p].(accepted := true) == store.prices[p].(accepted := true)
          && (store.prices[p].accepted ==> next.prices[p].accepted))
  }

  // Answers, late outcomes and decisions are only ever added.
  predicate RecordsGrow(s: System, next: System) {
    s.store.late <= next.store.late && s.store.resolutions <= next.store.resolutions && s.finished <= next.finished
  }

  ghost predicate BookingsMove(s: System, event: Event, next: System) {
    match event
    case BookOffer(_, _, _, _) =>
      s.store.bookings <= next.store.bookings && |next.store.bookings| <= |s.store.bookings| + 1
    case Receive(id, _, _) =>
      && id in s.workers && id < |s.store.bookings| == |next.store.bookings|
      && (forall b :: 0 <= b < |s.store.bookings| && b != id ==> next.store.bookings[b] == s.store.bookings[b])
      && SameReservation(s.store.bookings[id], next.store.bookings[id]) && next.store.bookings[id].updated == s.now
    case ResolveBooking(id, _, _, _) =>
      && |next.store.bookings| == |s.store.bookings|
      && (next.store.resolutions == s.store.resolutions ==> next.store.bookings == s.store.bookings)
      && (forall b :: 0 <= b < |s.store.bookings| ==> Decided(s.store.bookings[b], next.store.bookings[b], b == id, s.now))
    case ObservePnr(id) =>
      && |next.store.bookings| == |s.store.bookings|
      && (forall b :: 0 <= b < |s.store.bookings| ==> Observed(s.store.bookings[b], next.store.bookings[b], b == id, s.now))
    case _ =>
      next.store.bookings == s.store.bookings
  }

  ghost predicate QuotesMove(s: System, event: Event, next: System) {
    && QuotesEndure(s.store, next.store)
    && |s.store.searches| <= |next.store.searches|
    && (forall k :: 0 <= k < |s.store.searches| ==>
          next.store.searches[k].epochs == s.store.searches[k].epochs && next.store.searches[k].travel == s.store.searches[k].travel)
    && (!event.TakeSnapshot? ==> |next.store.searches| == |s.store.searches|)
    && (!event.StoreSearch? ==> s.store.searches <= next.store.searches)
    && (!event.StoreSearch? && !event.EndReprice? ==>
          next.store.offers == s.store.offers && |next.store.prices| == |s.store.prices| && next.history == s.history)
  }

  ghost predicate RestMoves(s: System, event: Event, next: System) {
    && s.now <= next.now && RecordsGrow(s, next)
    && (!event.Receive? ==> next.finished == s.finished && next.store.late == s.store.late)
    && (!event.ResolveBooking? ==> next.store.resolutions == s.store.resolutions)
    && (forall offer :: offer in next.repricing ==>
          offer in s.repricing || (event.StartReprice? && offer == event.offer < |s.store.offers|))
  }

  ghost predicate Moves(s: System, event: Event, next: System) {
    BookingsMove(s, event, next) && QuotesMove(s, event, next) && RestMoves(s, event, next)
  }

  lemma AcceptEndures(store: Store, rows: Rows, machine: Machine, price: Id, now: int)
    requires PricesOwned(store)
    ensures var next := Accept(store, rows, machine, price, now).0;
            QuotesEndure(store, next) && next == store.(prices := next.prices) && |next.prices| == |store.prices|
  {
    hide LatestVersion, Live, StillValid, PriceLive;
  }

  lemma FinishRepriceEndures(store: Store, rows: Rows, setup: Setup, asked: Asked, offer: Id, answer: Answer, now: int)
    requires offer < |store.offers| && store.offers[offer].search < |store.searches|
    ensures var next := FinishReprice(store, rows, setup, asked, offer, answer, now).0;
            QuotesEndure(store, next) && next == store.(offers := next.offers, prices := next.prices)
  {
    hide FinishReprice, Priceable, AnswerRefusal, IsNewPrice, Rejects, Live, StillValid;
    FinishedExactlyWhen(store, rows, setup, asked, offer, answer, now);
  }

  lemma SameQuotesEndure(store: Store, next: Store)
    requires next.offers == store.offers && next.prices == store.prices
    ensures QuotesEndure(store, next)
  {
  }

  lemma MoreOffersEndure(store: Store, next: Store)
    requires store.offers <= next.offers && next.prices == store.prices
    ensures QuotesEndure(store, next)
  {
  }

  lemma FinishEffect(store: Store, setup: Setup, id: Id, answer: Option<Value>, reason: string, now: int)
    requires id < |store.bookings|
    ensures var next := Finish(store, setup, id, answer, reason, now);
            var was, row := store.bookings[id], next.bookings[id];
            && next.bookings == store.bookings[id := row] && SameReservation(was, row) && row.updated == now
            && next.resolutions == store.resolutions && next.prices == store.prices
            && (if was.state == Pending then
                  && next.late == store.late && row.original == answer
                  && var response := Verified(setup, was.mode, was.kept, id, answer);
                     && row.response == Shown(response)
                     && row.state == (if response.None? then OutcomeUnknown else if was.mode == Hold then Held else Issued)
                else
                  && next.late == store.late + [Late(id, answer)] && row.state == OutcomeUnknown && row.response.None?)
  {
    hide Verified, InfoText;
  }

  lemma FinishTables(store: Store, setup: Setup, id: Id, answer: Option<Value>, reason: string, now: int)
    requires id < |store.bookings|
    ensures var next := Finish(store, setup, id, answer, reason, now);
            next == store.(bookings := next.bookings, late := next.late, issues := next.issues)
  {
    hide Verified, InfoText;
  }

  lemma BookIsStep(setup: Setup, s: System, event: Event, next: System)
    requires event.BookOffer? && Step(setup, s, event, next)
    ensures PricesOwned(s.store)
    ensures var done := Book(s.store, s.rows, setup, event.machine, event.allowed, event.request, event.seen, s.now);
            next == s.(store := done.0, workers := if done.1.Reserved? then s.workers[done.1.booking := Ready] else s.workers)
  {
    hide Book, PricesOwned;
  }

  // What a reservation rests on, and that nothing else changes the tables.
  lemma BookRests(store: Store, rows: Rows, setup: Setup, machine: Machine, allowed: bool, request: BookRequest, seen: Seen, now: int)
    requires PricesOwned(store)
    ensures var done := Book(store, rows, setup, machine, allowed, request, seen, now);
            if !done.1.Reserved? then done.0 == store
            else
              && request.price < |store.prices| && request.key.Some?
              && done.1.booking == |store.bookings|
              && done.0 == store.(bookings := store.bookings + [NewBooking(store, machine, request, now)])
              && FindKey(store.bookings, machine.client, request.key.value).None?
              && Fresh(store, request.price, now)
              && store.prices[request.price].client == machine.client
              && (request.direct ==> !DirectReserved(store.bookings, store.prices[request.price].offer))
              && !store.offers[store.prices[request.price].offer].repriceRequired
              && var row := store.offers[store.prices[request.price].offer];
                 StillValid(rows, row.supplier, row.epoch) && rows[row.supplier].bookingEnabled
  {
    ReservedExactlyWhen(store, rows, setup, machine, allowed, request, seen, now);
    if Book(store, rows, setup, machine, allowed, request, seen, now).1.Reserved? {
      KeyFound(store.bookings, machine.client, request.key.value);
      ReservableQuote(store, machine, request, seen);
      ReservableSupplier(store, rows, setup, request, now);
    }
    hide Book, NewBooking, FindKey, KeyTaken, QuoteReservable, SupplierReservable, Fresh, DirectReserved, StillValid;
  }

  lemma ReservableQuote(store: Store, machine: Machine, request: BookRequest, seen: Seen)
    requires PricesOwned(store) && QuoteReservable(store, machine, request, seen)
    ensures store.prices[request.price].client == machine.client
    ensures !store.offers[store.prices[request.price].offer].repriceRequired
  {
    hide Member;
  }

  lemma ReservableSupplier(store: Store, rows: Rows, setup: Setup, request: BookRequest, now: int)
    requires PricesOwned(store) && request.price < |store.prices| && SupplierReservable(store, rows, setup, request, now)
    ensures Fresh(store, request.price, now)
    ensures request.direct ==> !DirectReserved(store.bookings, store.prices[request.price].offer)
    ensures var row := store.offers[store.prices[request.price].offer];
            StillValid(rows, row.supplier, row.epoch) && rows[row.supplier].bookingEnabled
  {
    NewestIsLatest(store.prices, request.price);
    hide LatestVersion, Newest, PriceLive;
  }

  lemma BookEffect(setup: Setup, s: System, event: Event, next: System)
    requires event.BookOffer? && Step(setup, s, event, next)
    ensures next.store.bookings == s.store.bookings ||
            (&& PricesOwned(s.store) && event.request.price < |s.store.prices| && event.request.key.Some?
             && next.store.bookings == s.store.bookings + [NewBooking(s.store, event.machine, event.request, s.now)]
             && FindKey(s.store.bookings, event.machine.client, event.request.key.value).None?
             && Fresh(s.store, event.request.price, s.now)
             && s.store.prices[event.request.price].client == event.machine.client
             && (event.request.direct ==> !DirectReserved(s.store.bookings, s.store.prices[event.request.price].offer))
             && !s.store.offers[s.store.prices[event.request.price].offer].repriceRequired
             && var row := s.store.offers[s.store.prices[event.request.price].offer];
                StillValid(s.rows, row.supplier, row.epoch) && s.rows[row.supplier].bookingEnabled)
    ensures next.store == s.store.(bookings := next.store.bookings)
    ensures next.workers == if next.store.bookings == s.store.bookings then s.workers
                            else s.workers[|s.store.bookings| := Ready]
    ensures next.sent == s.sent && next.finished == s.finished
    ensures next.repricing == s.repricing && next.history == s.history && next.now == s.now
  {
    hide Step, Book, Fresh, StillValid, FindKey, PricesOwned, NewBooking, DirectReserved;
    BookIsStep(setup, s, event, next);
    BookRests(s.store, s.rows, setup, event.machine, event.allowed, event.request, event.seen, s.now);
  }

  lemma AcceptMoves(setup: Setup, s: System, event: Event, next: System)
    requires event.AcceptPrice? && Step(setup, s, event, next)
    ensures Moves(s, event, next)
  {
    hide Step, Accept, QuotesEndure;
    AcceptEffect(setup, s, event, next);
    AcceptEndures(s.store, s.rows, event.machine, event.price, s.now);
  }

  lemma EndRepriceMoves(setup: Setup, s: System, event: Event, next: System)
    requires event.EndReprice? && Step(setup, s, event, next)
    ensures Moves(s, event, next)
  {
    hide Step, FinishReprice, QuotesEndure;
    EndRepriceEffect(setup, s, event, next);
    FinishRepriceEndures(s.store, s.rows, setup, s.repricing[event.offer], event.offer, event.answer, s.now);
  }

  lemma StoreSearchMoves(setup: Setup, s: System, event: Event, next: System)
    requires event.StoreSearch? && Step(setup, s, event, next)
    ensures Moves(s, event, next)
  {
    hide Step, StoredOffers, Storable, QuotesEndure;
    StoreSearchEffect(setup, s, event, next);
    MoreOffersEndure(s.store, next.store);
  }

  lemma BookMoves(setup: Setup, s: System, event: Event, next: System)
    requires event.BookOffer? && Step(setup, s, event, next)
    ensures Moves(s, event, next)
  {
    hide Step, NewBooking, Fresh, FindKey, DirectReserved, StillValid, PricesOwned, QuotesEndure;
    BookEffect(setup, s, event, next);
    SameQuotesEndure(s.store, next.store);
  }

  lemma ReceiveMoves(setup: Setup, s: System, event: Event, next: System)
    requires event.Receive? && Step(setup, s, event, next)
    ensures Moves(s, event, next)
  {
    hide Step, Finish, Verified, SameReservation, QuotesEndure;
    ReceiveEffect(setup, s, event, next);
    FinishEffect(s.store, setup, event.booking, event.reply, event.reason, s.now);
    FinishTables(s.store, setup, event.booking, event.reply, event.reason, s.now);
    SameQuotesEndure(s.store, next.store);
  }

  lemma ResolveMoves(setup: Setup, s: System, event: Event, next: System)
    requires event.ResolveBooking? && Step(setup, s, event, next)
    ensures Moves(s, event, next)
  {
    hide Step, Resolve, Decided, QuotesEndure;
    ResolveEffect(setup, s, event, next);
    ResolveChanges(s.store, event.booking, event.outcome, event.evidenceComplete, event.expected, s.now);
    SameQuotesEndure(s.store, next.store);
  }

  lemma ObserveMoves(setup: Setup, s: System, event: Event, next: System)
    requires event.ObservePnr? && Step(setup, s, event, next)
    ensures Moves(s, event, next)
  {
    hide Step, Observed, QuotesEndure;
    ObserveEffect(setup, s, event, next);
    ObserveChanges(s.store, event.booking, s.now);
    SameQuotesEndure(s.store, next.store);
  }

  lemma OtherMoves(setup: Setup, s: System, event: Event, next: System)
    requires Step(setup, s, event, next)
    requires !event.AcceptPrice? && !event.EndReprice? && !event.StoreSearch? && !event.BookOffer? && !event.Receive?
    requires !event.ResolveBooking? && !event.ObservePnr?
    ensures Moves(s, event, next)
  {
    hide Step, QuotesEndure;
    OtherEffect(setup, s, event, next);
    SameQuotesEndure(s.store, next.store);
  }

  lemma StepMoves(setup: Setup, s: System, event: Event, next: System)
    requires Step(setup, s, event, next)
    ensures Moves(s, event, next)
  {
    hide Step, Moves;
    match event
    case AcceptPrice(_, _) => AcceptMoves(setup, s, event, next);
    case EndReprice(_, _) => EndRepriceMoves(setup, s, event, next);
    case StoreSearch(_, _, _) => StoreSearchMoves(setup, s, event, next);
    case BookOffer(_, _, _, _) => BookMoves(setup, s, event, next);
    case Receive(_, _, _) => ReceiveMoves(setup, s, event, next);
    case ResolveBooking(_, _, _, _) => ResolveMoves(setup, s, event, next);
    case ObservePnr(_) => ObserveMoves(setup, s, event, next);
    case _ => OtherMoves(setup, s, event, next);
  }

  lemma StoreSearchHistory(setup: Setup, s: System, event: Event, next: System)
    requires event.StoreSearch? && Step(setup, s, event, next)
    ensures next.history == s.history + seq(|event.offers|, _ => [])
  {
    hide StoredOffers, Storable;
  }

  lemma OldOfferKept(s: System, next: System, search: Id, expires: int, offer: Id)
    requires offer < |s.store.offers| && offer < |s.history| && search < |s.store.searches|
    requires OfferSound(s, offer) && SearchKeepsEpoch(s, offer)
    requires |s.store.offers| <= |next.store.offers| && |s.history| <= |next.history|
    requires next.store.offers[offer] == s.store.offers[offer] && next.history[offer] == s.history[offer]
    requires next.store.prices == s.store.prices
    requires next.store.searches == s.store.searches[search := s.store.searches[search].(expires := Some(expires))]
    ensures OfferSound(next, offer) && SearchKeepsEpoch(next, offer)
  {
    hide PricedVersions, VersionsOf, UpTo, LastRejected;
  }

  lemma NewOfferSound(prices: seq<Price>, searches: seq<Search>, offer: Id, row: Offer)
    requires VersionsOf(prices, offer) == [] && !row.repriceRequired && row.search < |searches| && searches[row.search].expires.Some?
    ensures RowSound(prices, searches, offer, row, [])
  {
    UpToAt(0);
  }

  lemma StoreSearchKeepsQuotes(setup: Setup, s: System, event: Event, next: System)
    requires QuotesSafe(s) && event.StoreSearch? && Step(setup, s, event, next)
    ensures QuotesSafe(next)
  {
    StoreSearchEffect(setup, s, event, next);
    StoreSearchHistory(setup, s, event, next);
    hide Step, Storable, OfferBound, OfferSound, RowSound;
    var search := s.store.searches[event.search];
    forall offer | 0 <= offer < |next.store.offers|
      ensures OfferSound(next, offer) && SearchKeepsEpoch(next, offer)
    {
      if offer < |s.store.offers| {
        OldOfferKept(s, next, event.search, event.searchExpires, offer);
      } else {
        var i := offer - |s.store.offers|;
        StorableOffer(search, event.offers, i);
        assert next.store.offers[offer] == StoredOffer(setup, search, event.search, event.offers[i], offer);
        NoVersions(s.store.prices, offer);
        NewOfferSound(next.store.prices, next.store.searches, offer, next.store.offers[offer]);
        assert next.history[offer] == [];
        SoundFromRow(next, offer);
      }
    }
  }

  lemma SoundFromRow(s: System, offer: Id)
    requires offer < |s.store.offers| && offer < |s.history|
    requires RowSound(s.store.prices, s.store.searches, offer, s.store.offers[offer], s.history[offer])
    ensures OfferSound(s, offer)
  {
    hide RowSound;
  }

  lemma StorableOffer(search: Search, offers: seq<NewOffer>, i: nat)
    requires Storable(search, offers) && i < |offers|
    ensures offers[i].supplier in search.epochs && OfferReferenced(offers[i].original)
  {
  }

  lemma RejectedRowSound(prices: seq<Price>, searches: seq<Search>, offer: Id, row: Offer, events: seq<QuoteEvent>)
    requires RowSound(prices, searches, offer, row, events)
    ensures RowSound(prices, searches, offer, row.(repriceRequired := true), events + [RejectedBySupplier])
  {
    NotedAppended(events, RejectedBySupplier);
    hide PricedVersions, VersionsOf, UpTo;
  }

  lemma PricedRowSound(prices: seq<Price>, searches: seq<Search>, offer: Id, row: Offer, events: seq<QuoteEvent>, price: Price)
    requires RowSound(prices, searches, offer, row, events)
    requires price.offer == offer && price.version == LatestVersion(prices, offer) + 1
    ensures RowSound(prices + [price], searches, offer, row.(repriceRequired := false), events + [Priced(price.version)])
  {
    VersionsAppended(prices, price, offer);
    NotedAppended(events, Priced(price.version));
    var n := |VersionsOf(prices, offer)|;
    UpToAt(n);
    LatestIsMax(prices, offer);
    assert UpTo(n + 1) == UpTo(n) + [n + 1];
    hide PricedVersions, VersionsOf, UpTo, LatestVersion;
  }

  lemma OtherRowSound(prices: seq<Price>, searches: seq<Search>, offer: Id, row: Offer, events: seq<QuoteEvent>, price: Price)
    requires RowSound(prices, searches, offer, row, events) && price.offer != offer
    ensures RowSound(prices + [price], searches, offer, row, events)
  {
    VersionsAppended(prices, price, offer);
    hide PricedVersions, VersionsOf, UpTo;
  }

  lemma RejectionKeepsOffer(s: System, next: System, rejected: Id, offer: Id)
    requires offer < |s.store.offers| == |s.history| && rejected < |s.store.offers|
    requires OfferSound(s, offer) && SearchKeepsEpoch(s, offer)
    requires next.store == s.store.(offers := s.store.offers[rejected := s.store.offers[rejected].(repriceRequired := true)])
    requires next.history == Noted(s.history, rejected, RejectedBySupplier)
    ensures |next.history| == |next.store.offers| == |s.store.offers|
    ensures OfferSound(next, offer) && SearchKeepsEpoch(next, offer)
  {
    assert s.store.offers[offer].search < |s.store.searches|;
    hide RowSound;
    if offer == rejected {
      RejectedRowSound(s.store.prices, s.store.searches, offer, s.store.offers[offer], s.history[offer]);
    }
  }

  lemma PricingKeepsOffer(s: System, next: System, price: Price, offer: Id)
    requires offer < |s.store.offers| == |s.history| && price.offer < |s.store.offers|
    requires OfferSound(s, offer) && SearchKeepsEpoch(s, offer)
    requires price.version == LatestVersion(s.store.prices, price.offer) + 1
    requires next.store == s.store.(prices := s.store.prices + [price],
                                    offers := s.store.offers[price.offer := s.store.offers[price.offer].(repriceRequired := false)])
    requires next.history == Noted(s.history, price.offer, Priced(price.version))
    ensures |next.history| == |next.store.offers| == |s.store.offers|
    ensures OfferSound(next, offer) && SearchKeepsEpoch(next, offer)
  {
    assert s.store.offers[offer].search < |s.store.searches|;
    hide RowSound, LatestVersion;
    if offer == price.offer {
      PricedRowSound(s.store.prices, s.store.searches, offer, s.store.offers[offer], s.history[offer], price);
    } else {
      OtherRowSound(s.store.prices, s.store.searches, offer, s.store.offers[offer], s.history[offer], price);
    }
  }

  // What an answer does to the tables: a price, a flag or nothing.
  lemma FinishRepriceCases(store: Store, rows: Rows, setup: Setup, asked: Asked, offer: Id, answer: Answer, now: int)
    requires offer < |store.offers| && store.offers[offer].search < |store.searches|
    ensures var done := FinishReprice(store, rows, setup, asked, offer, answer, now);
            if done.1.Ok? then
              && |done.0.prices| == |store.prices| + 1
              && var price := done.0.prices[|store.prices|];
                 && price.offer == offer && price.version == LatestVersion(store.prices, offer) + 1
                 && done.0 == store.(prices := store.prices + [price],
                                     offers := store.offers[offer := store.offers[offer].(repriceRequired := false)])
            else if Rejects(setup, answer) then
              done.0 == store.(offers := store.offers[offer := store.offers[offer].(repriceRequired := true)])
            else done.0 == store
  {
    hide LatestVersion, Live, StillValid, FareReferenced, QuoteOf, Rejects, AnswerFailure;
    if AnswerFailure(store, setup, offer, asked, answer).None? && Live(store, offer, now) {
      UsableIsReferenced(store, setup, offer, asked, answer);
      LiveHasSearch(store, offer, now);
    }
  }

  lemma EndRepriceNoted(setup: Setup, s: System, event: Event, next: System)
    requires event.EndReprice? && Step(setup, s, event, next)
    ensures event.offer in s.repricing && event.offer < |s.store.offers| && event.offer < |s.history|
    ensures s.store.offers[event.offer].search < |s.store.searches|
    ensures var done := FinishReprice(s.store, s.rows, setup, s.repricing[event.offer], event.offer, event.answer, s.now);
            next.history == if done.1.Ok? then Noted(s.history, event.offer, Priced(LatestVersion(s.store.prices, event.offer) + 1))
                            else if Rejects(setup, event.answer) then Noted(s.history, event.offer, RejectedBySupplier)
                            else s.history
  {
    hide FinishReprice, LatestVersion, Rejects, Noted;
  }

  lemma EndRepriceKeepsOffer(setup: Setup, s: System, event: Event, next: System, offer: Id)
    requires QuotesSafe(s) && event.EndReprice? && Step(setup, s, event, next)
    requires offer < |s.store.offers|
    ensures |next.history| == |next.store.offers| == |s.store.offers| && OfferSound(next, offer) && SearchKeepsEpoch(next, offer)
  {
    SafeOffer(s, offer);
    EndRepriceEffect(setup, s, event, next);
    EndRepriceNoted(setup, s, event, next);
    hide *;
    var done := FinishReprice(s.store, s.rows, setup, s.repricing[event.offer], event.offer, event.answer, s.now);
    FinishRepriceCases(s.store, s.rows, setup, s.repricing[event.offer], event.offer, event.answer, s.now);
    if done.1.Ok? {
      PricingKeepsOffer(s, next, next.store.prices[|s.store.prices|], offer);
    } else if Rejects(setup, event.answer) {
      RejectionKeepsOffer(s, next, event.offer, offer);
    } else {
      SameOffer(s, next, offer);
    }
  }

  lemma SafeOffer(s: System, offer: Id)
    requires QuotesSafe(s) && offer < |s.store.offers|
    ensures |s.history| == |s.store.offers| && OfferSound(s, offer) && SearchKeepsEpoch(s, offer)
  {
    hide OfferSound, SearchKeepsEpoch;
  }

  lemma SameOffer(s: System, next: System, offer: Id)
    requires offer < |s.store.offers| && offer < |s.history| && OfferSound(s, offer) && SearchKeepsEpoch(s, offer)
    requires next.store == s.store && next.history == s.history
    ensures OfferSound(next, offer) && SearchKeepsEpoch(next, offer)
  {
  }

  lemma FinishRepriceOwned(store: Store, rows: Rows, setup: Setup, asked: Asked, offer: Id, answer: Answer, now: int)
    requires offer < |store.offers| && store.offers[offer].search < |store.searches| && PricesOwned(store)
    ensures PricesOwned(FinishReprice(store, rows, setup, asked, offer, answer, now).0)
  {
    hide LatestVersion, Live, StillValid, FareReferenced, QuoteOf, Rejects, AnswerFailure;
    if AnswerFailure(store, setup, offer, asked, answer).None? && Live(store, offer, now) {
      UsableIsReferenced(store, setup, offer, asked, answer);
      LiveHasSearch(store, offer, now);
    }
  }

  // The parts of the invariant an answer has to keep, one offer at a time.
  lemma QuotesSafeFrom(s: System, next: System)
    requires QuotesSafe(s) && PricesOwned(next.store)
    requires |next.history| == |next.store.offers| == |s.store.offers|
    requires forall offer :: 0 <= offer < |next.store.offers| ==> OfferSound(next, offer) && SearchKeepsEpoch(next, offer)
    requires forall offer :: offer in next.repricing ==> offer in s.repricing
    ensures QuotesSafe(next)
  {
    hide OfferSound, SearchKeepsEpoch, PricesOwned;
  }

  lemma EndRepriceKeepsQuotes(setup: Setup, s: System, event: Event, next: System)
    requires QuotesSafe(s) && event.EndReprice? && Step(setup, s, event, next)
    ensures QuotesSafe(next)
  {
    EndRepriceEffect(setup, s, event, next);
    assert PricesOwned(s.store) && |s.history| == |s.store.offers|;
    hide OfferSound, SearchKeepsEpoch, FinishReprice, Step, QuotesSafe, PricesOwned;
    FinishRepriceOwned(s.store, s.rows, setup, s.repricing[event.offer], event.offer, event.answer, s.now);
    EndRepriceKeepsOffer(setup, s, event, next, event.offer);
    forall offer | 0 <= offer < |next.store.offers| ensures OfferSound(next, offer) && SearchKeepsEpoch(next, offer) {
      EndRepriceKeepsOffer(setup, s, event, next, offer);
    }
    QuotesSafeFrom(s, next);
  }

  // Steps that leave offers, searches and the versions of prices alone.
  lemma SameQuotesSafe(s: System, next: System)
    requires QuotesSafe(s)
    requires next.history == s.history && next.store.offers == s.store.offers
    requires |s.store.searches| <= |next.store.searches|
    requires forall k :: 0 <= k < |s.store.searches| ==> next.store.searches[k] == s.store.searches[k]
    requires |next.store.prices| == |s.store.prices|
    requires forall p :: 0 <= p < |s.store.prices| ==>
               && next.store.prices[p].offer == s.store.prices[p].offer
               && next.store.prices[p].version == s.store.prices[p].version
               && next.store.prices[p].client == s.store.prices[p].client
    requires forall offer :: offer in next.repricing ==> offer < |next.store.offers|
    ensures QuotesSafe(next)
  {
    forall offer | 0 <= offer < |next.store.offers|
      ensures OfferSound(next, offer) && SearchKeepsEpoch(next, offer)
    {
      assert OfferSound(s, offer) && SearchKeepsEpoch(s, offer);
      VersionsSame(s.store.prices, next.store.prices, offer);
      hide VersionsOf, PricedVersions, UpTo;
    }
  }

  lemma PricesKept(store: Store, next: Store)
    requires QuotesEndure(store, next)
    ensures forall p :: 0 <= p < |store.prices| ==>
              && next.prices[p].offer == store.prices[p].offer && next.prices[p].version == store.prices[p].version
              && next.prices[p].client == store.prices[p].client
  {
  }

  lemma QuotesFrame(setup: Setup, s: System, event: Event, next: System)
    requires Step(setup, s, event, next) && !event.StoreSearch? && !event.EndReprice?
    requires forall offer :: offer in s.repricing ==> offer < |s.store.offers|
    ensures next.history == s.history && next.store.offers == s.store.offers
    ensures |s.store.searches| <= |next.store.searches|
    ensures forall k :: 0 <= k < |s.store.searches| ==> next.store.searches[k] == s.store.searches[k]
    ensures |next.store.prices| == |s.store.prices|
    ensures forall p :: 0 <= p < |s.store.prices| ==>
              && next.store.prices[p].offer == s.store.prices[p].offer
              && next.store.prices[p].version == s.store.prices[p].version
              && next.store.prices[p].client == s.store.prices[p].client
    ensures forall offer :: offer in next.repricing ==> offer < |next.store.offers|
  {
    hide Step, QuotesEndure;
    StepMoves(setup, s, event, next);
    PricesKept(s.store, next.store);
  }

  lemma QuotesKept(setup: Setup, s: System, event: Event, next: System)
    requires QuotesSafe(s) && Step(setup, s, event, next)
    ensures QuotesSafe(next)
  {
    if event.StoreSearch? {
      StoreSearchKeepsQuotes(setup, s, event, next);
    } else if event.EndReprice? {
      EndRepriceKeepsQuotes(setup, s, event, next);
    } else {
      RepricingKnown(s);
      QuotesFrame(setup, s, event, next);
      hide QuotesSafe, Step;
      SameQuotesSafe(s, next);
    }
    hide *;
  }

  lemma RepricingKnown(s: System)
    requires QuotesSafe(s)
    ensures forall offer :: offer in s.repricing ==> offer < |s.store.offers|
  {
  }

  // ---- Every step keeps reservations, dispatches and outcomes sound -----------------------------------

  ghost predicate RowsEndure(store: Store, next: Store) {
    && |store.bookings| <= |next.bookings|
    && (forall b :: 0 <= b < |store.bookings| ==> SameReservation(store.bookings[b], next.bookings[b]))
    && QuotesEndure(store, next)
  }

  lemma RowIsSame(s: System, event: Event, next: System, b: Id)
    requires BookingsMove(s, event, next) && b < |s.store.bookings| <= |next.store.bookings|
    ensures SameReservation(s.store.bookings[b], next.store.bookings[b])
  {
  }

  lemma BookingsNeverGo(s: System, event: Event, next: System)
    requires BookingsMove(s, event, next)
    ensures |s.store.bookings| <= |next.store.bookings|
    ensures !event.BookOffer? ==> |next.store.bookings| == |s.store.bookings|
  {
    hide SameReservation, Decided, Observed;
  }

  lemma StepKeepsRows(setup: Setup, s: System, event: Event, next: System)
    requires Step(setup, s, event, next)
    ensures RowsEndure(s.store, next.store)
  {
    hide Step, QuotesEndure, SameReservation, RestMoves;
    StepMoves(setup, s, event, next);
    forall b | 0 <= b < |s.store.bookings| ensures SameReservation(s.store.bookings[b], next.store.bookings[b]) {
      RowIsSame(s, event, next, b);
    }
    BookingsNeverGo(s, event, next);
    hide BookingsMove;
  }

  lemma ReservationAppended(store: Store, row: Booking)
    requires ReservationsSafe(store)
    requires row.price < |store.prices| && store.prices[row.price].offer == row.offer < |store.offers|
    requires store.prices[row.price].client == row.client && store.prices[row.price].accepted
    requires row.kept == KeptOf(store, row.price, row.kept.passengers)
    requires FindKey(store.bookings, row.client, row.key).None?
    requires row.mode == Direct ==> !DirectReserved(store.bookings, row.offer)
    ensures ReservationsSafe(store.(bookings := store.bookings + [row]))
  {
    hide FindKey;
  }

  lemma BookKeepsReservations(setup: Setup, s: System, event: Event, next: System)
    requires ReservationsSafe(s.store) && event.BookOffer? && Step(setup, s, event, next)
    ensures ReservationsSafe(next.store)
  {
    BookEffect(setup, s, event, next);
    hide Step, LatestVersion, PriceLive, StillValid, PricesOwned, ReservationsSafe, FindKey, DirectReserved;
    if next.store.bookings != s.store.bookings {
      ReservationAppended(s.store, NewBooking(s.store, event.machine, event.request, s.now));
    }
  }

  lemma ReservationsFrame(store: Store, next: Store)
    requires ReservationsSafe(store) && RowsEndure(store, next) && |next.bookings| == |store.bookings|
    ensures ReservationsSafe(next)
  {
  }

  lemma ReservationsKept(setup: Setup, s: System, event: Event, next: System)
    requires ReservationsSafe(s.store) && Step(setup, s, event, next)
    ensures ReservationsSafe(next.store)
  {
    if event.BookOffer? {
      BookKeepsReservations(setup, s, event, next);
    } else {
      StepKeepsRows(setup, s, event, next);
      BookingsCount(setup, s, event, next);
      ReservationsFrame(s.store, next.store);
    }
    hide *;
  }

  lemma BookingsCount(setup: Setup, s: System, event: Event, next: System)
    requires Step(setup, s, event, next) && !event.BookOffer?
    ensures |next.store.bookings| == |s.store.bookings|
  {
    hide Step, QuotesMove, RestMoves, BookingsMove;
    StepMoves(setup, s, event, next);
    BookingsNeverGo(s, event, next);
  }

  lemma IdleForWorkers(setup: Setup, s: System, event: Event, next: System)
    requires Step(setup, s, event, next)
    requires !event.BookOffer? && !event.Send? && !event.Receive? && !event.Crash?
    ensures next.workers == s.workers && next.sent == s.sent && next.finished == s.finished
  {
    hide Finish, FinishReprice, Accept, Book, Resolve, PricesOwned, BeginReprice, UpdateRow, EnabledEpochs, StoredOffers, LatestVersion;
  }

  lemma DispatchFrame(s: System, next: System)
    requires DispatchSafe(s) && |next.store.bookings| == |s.store.bookings|
    requires next.workers == s.workers && next.sent == s.sent && next.finished == s.finished
    ensures DispatchSafe(next)
  {
  }

  lemma BookKeepsDispatch(s: System, next: System)
    requires DispatchSafe(s) && |next.store.bookings| == |s.store.bookings| + 1
    requires next.workers == s.workers[|s.store.bookings| := Ready] && next.sent == s.sent && next.finished == s.finished
    ensures DispatchSafe(next)
  {
    assert |s.store.bookings| !in s.sent;
  }

  lemma SendKeepsDispatch(s: System, next: System, id: Id)
    requires DispatchSafe(s) && |next.store.bookings| == |s.store.bookings|
    requires id in s.workers && s.workers[id] == Ready
    requires next.workers == s.workers[id := Sent] && next.sent == s.sent + [id] && next.finished == s.finished
    ensures DispatchSafe(next)
  {
  }

  lemma ReceiveKeepsDispatch(s: System, next: System, id: Id, answer: Option<Value>)
    requires DispatchSafe(s) && |next.store.bookings| == |s.store.bookings|
    requires id in s.workers && s.workers[id] == Sent
    requires next.workers == s.workers - {id} && next.sent == s.sent && next.finished == s.finished + [Finished(id, answer)]
    ensures DispatchSafe(next)
  {
    forall other | other in next.workers ensures !Done(next.finished, other) {
      DoneAppended(s.finished, Finished(id, answer), other);
    }
    forall i | 0 <= i < |s.finished| ensures s.finished[i].booking != id {
      assert !Done(s.finished, id);
    }
    hide Done;
  }

  lemma BookDispatch(setup: Setup, s: System, event: Event, next: System)
    requires DispatchSafe(s) && event.BookOffer? && Step(setup, s, event, next)
    ensures DispatchSafe(next)
  {
    hide Step, DispatchSafe, Fresh, FindKey, NewBooking, DirectReserved, StillValid, PricesOwned;
    BookEffect(setup, s, event, next);
    if next.store.bookings == s.store.bookings {
      DispatchFrame(s, next);
    } else {
      BookKeepsDispatch(s, next);
    }
  }

  lemma DispatchKept(setup: Setup, s: System, event: Event, next: System)
    requires DispatchSafe(s) && Step(setup, s, event, next)
    ensures DispatchSafe(next)
  {
    hide *;
    if event.BookOffer? {
      BookDispatch(setup, s, event, next);
    } else {
      BookingsCount(setup, s, event, next);
      match event
      case Send(id) =>
        SendEffect(setup, s, event, next);
        SendKeepsDispatch(s, next, id);
      case Receive(id, reply, _) =>
        ReceiveEffect(setup, s, event, next);
        ReceiveKeepsDispatch(s, next, id, reply);
      case Crash =>
        CrashEffect(setup, s, event, next);
        CrashKeepsDispatch(s, next);
      case _ =>
        IdleForWorkers(setup, s, event, next);
        DispatchFrame(s, next);
    }
  }

  lemma CrashKeepsDispatch(s: System, next: System)
    requires DispatchSafe(s) && next == s.(repricing := map[], workers := map[])
    ensures DispatchSafe(next)
  {
  }

  lemma {:induction false} NoLate(late: seq<Late>, id: Id)
    requires forall i :: 0 <= i < |late| ==> late[i].booking != id
    ensures LateCount(late, id) == 0
  {
    if late != [] {
      NoLate(late[..|late| - 1], id);
    }
  }

  lemma {:induction false} NoResolution(resolutions: seq<Resolution>, id: Id)
    requires forall i :: 0 <= i < |resolutions| ==> resolutions[i].booking != id
    ensures ResolutionCount(resolutions, id) == 0
  {
    if resolutions != [] {
      NoResolution(resolutions[..|resolutions| - 1], id);
    }
  }

  lemma LateAppended(late: seq<Late>, entry: Late, id: Id)
    ensures LateCount(late + [entry], id) == LateCount(late, id) + if entry.booking == id then 1 else 0
  {
    assert (late + [entry])[..|late|] == late;
  }

  lemma ResolutionAppended(resolutions: seq<Resolution>, entry: Resolution, id: Id)
    ensures ResolutionCount(resolutions + [entry], id) == ResolutionCount(resolutions, id) + if entry.booking == id then 1 else 0
  {
    assert (resolutions + [entry])[..|resolutions|] == resolutions;
  }

  lemma DoneAppended(finished: seq<Finished>, entry: Finished, id: Id)
    ensures Done(finished + [entry], id) <==> Done(finished, id) || entry.booking == id
  {
    var longer := finished + [entry];
    if Done(finished, id) {
      var i :| 0 <= i < |finished| && finished[i].booking == id;
      assert longer[i].booking == id;
    }
    if entry.booking == id {
      assert longer[|finished|].booking == id;
    }
  }

  lemma BookKeepsOutcomes(setup: Setup, store: Store, finished: seq<Finished>, booking: Booking)
    requires OutcomesSafe(setup, store, finished)
    requires booking.state == Pending && !Done(finished, |store.bookings|)
    ensures OutcomesSafe(setup, store.(bookings := store.bookings + [booking]), finished)
  {
    var next := store.(bookings := store.bookings + [booking]);
    NoLate(store.late, |store.bookings|);
    NoResolution(store.resolutions, |store.bookings|);
    hide LateCount, ResolutionCount, Done, Verified;
    forall id | 0 <= id < |next.bookings| ensures OutcomeSound(setup, next, finished, id) {
      if id < |store.bookings| {
        assert OutcomeSound(setup, store, finished, id);
      }
    }
    forall i | 0 <= i < |finished| ensures AnswerStored(next, finished[i]) {
      assert AnswerStored(store, finished[i]);
    }
  }

  lemma FinishSettlesOutcome(setup: Setup, store: Store, finished: seq<Finished>, id: Id, answer: Option<Value>,
                             reason: string, now: int)
    requires id < |store.bookings| && OutcomeSound(setup, store, finished, id) && !Done(finished, id)
    ensures OutcomeSound(setup, Finish(store, setup, id, answer, reason, now), finished + [Finished(id, answer)], id)
  {
    FinishEffect(store, setup, id, answer, reason, now);
    LateAppended(store.late, Late(id, answer), id);
    DoneAppended(finished, Finished(id, answer), id);
    hide Finish, LateCount, ResolutionCount, Done, Verified, SameReservation;
    assert store.bookings[id].mode == Finish(store, setup, id, answer, reason, now).bookings[id].mode &&
           store.bookings[id].kept == Finish(store, setup, id, answer, reason, now).bookings[id].kept by {
      IdentityParts(store.bookings[id], Finish(store, setup, id, answer, reason, now).bookings[id]);
    }
    if answer.None? && store.bookings[id].state == Pending {
      NothingVerified(setup, store.bookings[id].mode, store.bookings[id].kept, id);
    }
  }

  lemma IdentityParts(a: Booking, b: Booking)
    requires SameReservation(a, b)
    ensures a.mode == b.mode && a.kept == b.kept
  {
  }

  lemma NothingVerified(setup: Setup, mode: Mode, kept: Kept, id: Id)
    ensures Verified(setup, mode, kept, id, None).None?
  {
  }

  lemma FinishKeepsOutcome(setup: Setup, store: Store, finished: seq<Finished>, id: Id, answer: Option<Value>,
                           reason: string, now: int, other: Id)
    requires id < |store.bookings| && other < |store.bookings| && other != id
    requires OutcomeSound(setup, store, finished, other)
    ensures OutcomeSound(setup, Finish(store, setup, id, answer, reason, now), finished + [Finished(id, answer)], other)
  {
    FinishEffect(store, setup, id, answer, reason, now);
    LateAppended(store.late, Late(id, answer), other);
    DoneAppended(finished, Finished(id, answer), other);
    hide Finish, LateCount, ResolutionCount, Done, Verified, SameReservation;
  }

  lemma FinishKeepsAnswer(setup: Setup, store: Store, id: Id, answer: Option<Value>, reason: string, now: int, entry: Finished)
    requires id < |store.bookings| && AnswerStored(store, entry) && entry.booking != id
    ensures AnswerStored(Finish(store, setup, id, answer, reason, now), entry)
  {
    FinishEffect(store, setup, id, answer, reason, now);
    LateAppended(store.late, Late(id, answer), entry.booking);
    hide Finish, LateCount, Verified;
  }

  lemma FinishStoresAnswer(setup: Setup, store: Store, finished: seq<Finished>, id: Id, answer: Option<Value>, reason: string, now: int)
    requires id < |store.bookings| && OutcomeSound(setup, store, finished, id) && !Done(finished, id)
    ensures AnswerStored(Finish(store, setup, id, answer, reason, now), Finished(id, answer))
  {
    FinishEffect(store, setup, id, answer, reason, now);
    LateAppended(store.late, Late(id, answer), id);
    hide Finish, LateCount, Verified, Done;
  }

  lemma FinishKeepsOutcomes(setup: Setup, store: Store, finished: seq<Finished>, id: Id, answer: Option<Value>, reason: string, now: int)
    requires OutcomesSafe(setup, store, finished) && id < |store.bookings| && !Done(finished, id)
    ensures OutcomesSafe(setup, Finish(store, setup, id, answer, reason, now), finished + [Finished(id, answer)])
  {
    var next, longer := Finish(store, setup, id, answer, reason, now), finished + [Finished(id, answer)];
    FinishEffect(store, setup, id, answer, reason, now);
    hide Finish, OutcomeSound, AnswerStored, Verified;
    forall other | 0 <= other < |next.bookings| ensures OutcomeSound(setup, next, longer, other) {
      if other == id {
        FinishSettlesOutcome(setup, store, finished, id, answer, reason, now);
      } else {
        FinishKeepsOutcome(setup, store, finished, id, answer, reason, now, other);
      }
    }
    forall i | 0 <= i < |longer| ensures AnswerStored(next, longer[i]) {
      if i < |finished| {
        assert finished[i].booking != id;
        FinishKeepsAnswer(setup, store, id, answer, reason, now, finished[i]);
      } else {
        FinishStoresAnswer(setup, store, finished, id, answer, reason, now);
      }
    }
  }

  lemma ResolveKeepsOutcomes(setup: Setup, store: Store, finished: seq<Finished>, id: Id, outcome: Outcome,
                             evidenceComplete: bool, expected: int, now: int)
    requires OutcomesSafe(setup, store, finished)
    ensures OutcomesSafe(setup, Resolve(store, id, outcome, evidenceComplete, expected, now).0, finished)
  {
    var done := Resolve(store, id, outcome, evidenceComplete, expected, now);
    if done.1.Ok? {
      var entry := Resolution(id, outcome, store.bookings[id].state);
      forall other | 0 <= other < |done.0.bookings| ensures OutcomeSound(setup, done.0, finished, other) {
        assert OutcomeSound(setup, store, finished, other);
        ResolutionAppended(store.resolutions, entry, other);
        hide LateCount, ResolutionCount, Done, Verified;
      }
      forall i | 0 <= i < |finished| ensures AnswerStored(done.0, finished[i]) {
        assert AnswerStored(store, finished[i]);
      }
    }
  }

  lemma ObserveKeepsOutcomes(setup: Setup, store: Store, finished: seq<Finished>, id: Id, now: int)
    requires OutcomesSafe(setup, store, finished) && id < |store.bookings|
    ensures OutcomesSafe(setup, store.(bookings := store.bookings[id := store.bookings[id].(updated := now)]), finished)
  {
    var next := store.(bookings := store.bookings[id := store.bookings[id].(updated := now)]);
    hide LateCount, ResolutionCount, Done, Verified;
    forall other | 0 <= other < |next.bookings| ensures OutcomeSound(setup, next, finished, other) {
      assert OutcomeSound(setup, store, finished, other);
    }
    forall i | 0 <= i < |finished| ensures AnswerStored(next, finished[i]) {
      assert AnswerStored(store, finished[i]);
    }
  }

  lemma OutcomesIgnoreQuotes(setup: Setup, store: Store, next: Store, finished: seq<Finished>)
    requires OutcomesSafe(setup, store, finished)
    requires next.bookings == store.bookings && next.late == store.late && next.resolutions == store.resolutions
    ensures OutcomesSafe(setup, next, finished)
  {
    hide LateCount, ResolutionCount, Done, Verified;
    forall id | 0 <= id < |next.bookings| ensures OutcomeSound(setup, next, finished, id) {
      assert OutcomeSound(setup, store, finished, id);
    }
    forall i | 0 <= i < |finished| ensures AnswerStored(next, finished[i]) {
      assert AnswerStored(store, finished[i]);
    }
  }

  lemma OutcomesKept(setup: Setup, s: System, event: Event, next: System)
    requires OutcomesSafe(setup, s.store, s.finished) && DispatchSafe(s) && Step(setup, s, event, next)
    ensures OutcomesSafe(setup, next.store, next.finished)
  {
    hide Step, OutcomesSafe;
    match event
    case BookOffer(machine, _, request, _) =>
      BookEffect(setup, s, event, next);
      hide Fresh, FindKey, DirectReserved, StillValid;
      if next.store.bookings != s.store.bookings {
        NotDoneYet(s);
        NewIsPending(s.store, machine, request, s.now);
        hide NewBooking, DispatchSafe;
        BookKeepsOutcomes(setup, s.store, s.finished, NewBooking(s.store, machine, request, s.now));
      } else {
        OutcomesIgnoreQuotes(setup, s.store, next.store, s.finished);
      }
    case Receive(id, answer, reason) =>
      ReceiveEffect(setup, s, event, next);
      WorkerNotDone(s, id);
      FinishKeepsOutcomes(setup, s.store, s.finished, id, answer, reason, s.now);
      hide Finish, DispatchSafe;
    case ResolveBooking(id, outcome, evidenceComplete, expected) =>
      ResolveEffect(setup, s, event, next);
      ResolveKeepsOutcomes(setup, s.store, s.finished, id, outcome, evidenceComplete, expected, s.now);
      hide Resolve, DispatchSafe;
    case ObservePnr(id) =>
      ObserveEffect(setup, s, event, next);
      ObserveKeepsOutcomes(setup, s.store, s.finished, id, s.now);
      hide DispatchSafe;
    case _ =>
      QuoteStepsKeepBookings(setup, s, event, next);
      OutcomesIgnoreQuotes(setup, s.store, next.store, s.finished);
      hide DispatchSafe;
  }

  lemma NewIsPending(store: Store, machine: Machine, request: BookRequest, now: int)
    requires PricesOwned(store) && request.price < |store.prices| && request.key.Some?
    ensures NewBooking(store, machine, request, now).state == Pending
  {
  }

  lemma NotDoneYet(s: System)
    requires DispatchSafe(s)
    ensures !Done(s.finished, |s.store.bookings|)
  {
  }

  lemma QuoteStepsKeepBookings(setup: Setup, s: System, event: Event, next: System)
    requires Step(setup, s, event, next)
    requires !event.BookOffer? && !event.Receive? && !event.ResolveBooking? && !event.ObservePnr?
    ensures next.store.bookings == s.store.bookings && next.store.late == s.store.late
    ensures next.store.resolutions == s.store.resolutions && next.finished == s.finished
  {
    hide Step, QuotesMove;
    StepMoves(setup, s, event, next);
  }

  lemma StepIsSafe(setup: Setup, s: System, event: Event, next: System)
    requires Safe(setup, s) && Step(setup, s, event, next)
    ensures Safe(setup, next)
  {
    QuotesKept(setup, s, event, next);
    ReservationsKept(setup, s, event, next);
    DispatchKept(setup, s, event, next);
    OutcomesKept(setup, s, event, next);
    hide Step, QuotesSafe, ReservationsSafe, DispatchSafe, OutcomesSafe;
  }

  lemma InitiallySafe(setup: Setup, s: System)
    requires Initial(s)
    ensures Safe(setup, s)
  {
  }

  lemma {:induction false} RunIsSafe(setup: Setup, states: seq<System>, events: seq<Event>, i: nat)
    requires Run(setup, states, events) && i < |states|
    ensures Safe(setup, states[i])
    decreases i
  {
    hide Safe, Step;
    if i > 0 {
      hide Run;
      RunIsSafe(setup, states, events, i - 1);
      StepAt(setup, states, events, i - 1);
      StepIsSafe(setup, states[i - 1], events[i - 1], states[i]);
    } else {
      InitiallySafe(setup, states[0]);
    }
  }

  // ---- Main results: dispatch ---------------------------------------------------------------------------

  // Over any run, crashes included: one booking per client and key, one direct booking per offer,
  // no booking sent twice, and nothing sent without its committed reservation.
  lemma AtMostOneDispatch(setup: Setup, states: seq<System>, events: seq<Event>, i: nat, a: Id, b: Id)
    requires Run(setup, states, events) && i < |states|
    requires a < |states[i].store.bookings| && b < |states[i].store.bookings|
    ensures var rows := states[i].store.bookings;
            && (rows[a].client == rows[b].client && rows[a].key == rows[b].key ==> a == b)
            && (rows[a].offer == rows[b].offer && rows[a].mode == Direct && rows[b].mode == Direct ==> a == b)
    ensures Distinct(states[i].sent)
    ensures forall k :: 0 <= k < |states[i].sent| ==> states[i].sent[k] < |states[i].store.bookings|
  {
    RunIsSafe(setup, states, events, i);
    hide Run, QuotesSafe, OutcomesSafe;
  }

  // Sending follows the commit by at least one step, so a replay or a crash can never resend.
  lemma SendFollowsReservation(setup: Setup, states: seq<System>, events: seq<Event>, i: nat)
    requires Run(setup, states, events) && i < |events| && events[i].Send?
    ensures events[i].booking < |states[i].store.bookings| && events[i].booking !in states[i].sent
    ensures events[i].booking in states[i + 1].sent
  {
    hide Run, QuotesSafe, OutcomesSafe, ReservationsSafe;
    RunShape(setup, states, events);
    RunIsSafe(setup, states, events, i);
    StepAt(setup, states, events, i);
  }

  lemma {:induction false} RowsEndureAlong(setup: Setup, states: seq<System>, events: seq<Event>, i: nat, j: nat)
    requires Run(setup, states, events) && i <= j < |states|
    ensures RowsEndure(states[i].store, states[j].store)
    decreases j
  {
    hide Run, Step, RowsEndure;
    if i < j {
      RowsEndureAlong(setup, states, events, i, j - 1);
      StepAt(setup, states, events, j - 1);
      StepKeepsRows(setup, states[j - 1], events[j - 1], states[j]);
      EnduresTogether(states[i].store, states[j - 1].store, states[j].store);
    } else {
      EnduresSelf(states[i].store);
    }
  }

  lemma EnduresSelf(store: Store)
    ensures RowsEndure(store, store)
  {
  }

  lemma EnduresTogether(a: Store, b: Store, c: Store)
    requires RowsEndure(a, b) && RowsEndure(b, c)
    ensures RowsEndure(a, c)
  {
  }

  lemma OnlyThisKey(bookings: seq<Booking>, id: Id, client: Id, key: string)
    requires id < |bookings| && bookings[id].client == client && bookings[id].key == key
    requires forall a, b :: 0 <= a < b < |bookings| ==> bookings[a].client != bookings[b].client || bookings[a].key != bookings[b].key
    ensures FindKey(bookings, client, key) == Some(id)
  {
  }

  // Once reserved, a request is answered by its booking for ever: under the same key nothing new is
  // reserved, whatever has become of the booking, its offer or its supplier.
  lemma ReplayNeverReserves(setup: Setup, states: seq<System>, events: seq<Event>, i: nat, j: nat, id: Id,
                            machine: Machine, request: BookRequest, seen: Seen)
    requires Run(setup, states, events) && i <= j < |states| && id < |states[i].store.bookings|
    requires request.key == Some(states[i].store.bookings[id].key) && machine.client == states[i].store.bookings[id].client
    requires machine.booking && (request.direct ==> machine.ticketing)
    ensures PricesOwned(states[j].store)
    ensures Book(states[j].store, states[j].rows, setup, machine, true, request, seen, states[j].now) ==
            (states[j].store,
             if states[i].store.bookings[id].hash == request.hash then Replayed(id) else Refused(IdempotencyKeyReused))
  {
    RowsEndureAlong(setup, states, events, i, j);
    RunIsSafe(setup, states, events, j);
    OnlyThisKey(states[j].store.bookings, id, machine.client, request.key.value);
    hide Run, FindKey, DispatchSafe, OutcomesSafe, OfferSound, SearchKeepsEpoch, PricesOwned;
  }

  // A received answer is never lost: it is the booking's stored answer, or its late outcome.
  lemma AnswersAreKept(setup: Setup, states: seq<System>, events: seq<Event>, i: nat, k: nat)
    requires Run(setup, states, events) && i < |states| && k < |states[i].finished|
    ensures AnswerStored(states[i].store, states[i].finished[k])
  {
    RunIsSafe(setup, states, events, i);
    hide Run, QuotesSafe, ReservationsSafe, DispatchSafe, OutcomeSound, AnswerStored;
  }

  // ---- Main results: outcomes -----------------------------------------------------------------------------

  // held and issued rest on a verified answer of the right mode, and no modelled step leaves them.
  lemma ConfirmedStands(setup: Setup, states: seq<System>, events: seq<Event>, i: nat, id: Id)
    requires Run(setup, states, events) && i < |events| && id < |states[i].store.bookings|
    requires states[i].store.bookings[id].state == Held || states[i].store.bookings[id].state == Issued
    ensures var row := states[i].store.bookings[id];
            && row.mode == (if row.state == Held then Hold else Direct)
            && row.original.Some?
            && Verified(setup, row.mode, row.kept, id, row.original).Some?
            && row.response == Shown(Verified(setup, row.mode, row.kept, id, row.original))
    ensures id < |states[i + 1].store.bookings|
    ensures var row, later := states[i].store.bookings[id], states[i + 1].store.bookings[id];
            later.state == row.state && later.original == row.original && later.response == row.response
  {
    hide Run, Step, QuotesSafe, ReservationsSafe, DispatchSafe, Verified;
    RunShape(setup, states, events);
    RunIsSafe(setup, states, events, i);
    StepAt(setup, states, events, i);
    var s, event, next := states[i], events[i], states[i + 1];
    assert OutcomeSound(setup, s.store, s.finished, id);
    ConfirmedStep(setup, s, event, next, id);
  }

  lemma ConfirmedStep(setup: Setup, s: System, event: Event, next: System, id: Id)
    requires DispatchSafe(s) && Step(setup, s, event, next) && id < |s.store.bookings|
    requires s.store.bookings[id].state == Held || s.store.bookings[id].state == Issued
    requires Done(s.finished, id)
    ensures id < |next.store.bookings|
    ensures var row, later := s.store.bookings[id], next.store.bookings[id];
            later.state == row.state && later.original == row.original && later.response == row.response
  {
    hide Step, DispatchSafe, QuotesMove, RestMoves, SameReservation, Done;
    StepMoves(setup, s, event, next);
    BookingsNeverGo(s, event, next);
    if event.Receive? {
      WorkerNotDone(s, event.booking);
    }
  }

  lemma WorkerNotDone(s: System, id: Id)
    requires DispatchSafe(s) && id in s.workers
    ensures !Done(s.finished, id)
  {
  }

  // A hold is confirmed only by a body that says success, Created, both references and no ticket.
  lemma HeldEvidence(setup: Setup, states: seq<System>, events: seq<Event>, i: nat, id: Id)
    requires Run(setup, states, events) && i < |states| && id < |states[i].store.bookings|
    requires states[i].store.bookings[id].state == Held
    ensures states[i].store.bookings[id].original.Some? && HoldEvidence(states[i].store.bookings[id].original.value)
    ensures Finished(id, states[i].store.bookings[id].original) in states[i].finished
  {
    RunIsSafe(setup, states, events, i);
    var s := states[i];
    assert OutcomeSound(setup, s.store, s.finished, id);
    var k :| 0 <= k < |s.finished| && s.finished[k].booking == id;
    assert AnswerStored(s.store, s.finished[k]);
    hide Run, Safe, QuotesSafe, ReservationsSafe, DispatchSafe, LateCount, ResolutionCount, HoldEvidence;
  }

  // ---- The references of an answer ---------------------------------------------------------------------

  // The row's references are the texts of its stored answer, and without an answer there is neither.
  predicate ReferencesStored(row: Booking) {
    row.pnr == StatedText(row.original, "pnr") && row.supplierRef == StatedText(row.original, "bookingCodeRef")
  }

  predicate Unanswered(row: Booking) {
    row.original.None? && row.pnr.None? && row.supplierRef.None?
  }

  ghost predicate ReferencesKept(s: System) {
    forall b :: 0 <= b < |s.store.bookings| ==>
      ReferencesStored(s.store.bookings[b]) && (!Done(s.finished, b) ==> Unanswered(s.store.bookings[b]))
  }

  lemma UnansweredStored(row: Booking)
    requires Unanswered(row)
    ensures ReferencesStored(row)
  {
  }

  lemma SettledReferences(store: Store, setup: Setup, id: Id, answer: Option<Value>, reason: string, now: int)
    requires id < |store.bookings| && Unanswered(store.bookings[id])
    ensures ReferencesStored(Finish(store, setup, id, answer, reason, now).bookings[id])
  {
    InfoTextIsStated(answer, "pnr");
    InfoTextIsStated(answer, "bookingCodeRef");
    UnansweredStored(store.bookings[id]);
    hide Verified, InfoText, StatedText;
    if answer.None? {
      NothingStated("pnr");
      NothingStated("bookingCodeRef");
    }
  }

  lemma NothingStated(key: string)
    ensures StatedText(None, key) == None
  {
  }

  lemma SameReferences(a: Booking, b: Booking)
    requires a.original == b.original && a.pnr == b.pnr && a.supplierRef == b.supplierRef
    ensures ReferencesStored(a) <==> ReferencesStored(b)
    ensures Unanswered(a) <==> Unanswered(b)
  {
  }

  lemma ReceiveKeepsReferences(setup: Setup, s: System, event: Event, next: System)
    requires ReferencesKept(s) && DispatchSafe(s) && event.Receive? && Step(setup, s, event, next)
    ensures ReferencesKept(next)
  {
    ReceiveEffect(setup, s, event, next);
    FinishEffect(s.store, setup, event.booking, event.reply, event.reason, s.now);
    assert !Done(s.finished, event.booking);
    hide Step, Finish, Verified, SameReservation, Done, ReferencesStored, Unanswered, DispatchSafe;
    SettledReferences(s.store, setup, event.booking, event.reply, event.reason, s.now);
    forall b | 0 <= b < |next.store.bookings|
      ensures ReferencesStored(next.store.bookings[b]) && (!Done(next.finished, b) ==> Unanswered(next.store.bookings[b]))
    {
      DoneAppended(s.finished, Finished(event.booking, event.reply), b);
    }
  }

  lemma BookKeepsReferences(setup: Setup, s: System, event: Event, next: System)
    requires ReferencesKept(s) && event.BookOffer? && Step(setup, s, event, next)
    ensures ReferencesKept(next)
  {
    BookEffect(setup, s, event, next);
    hide Step, ReferencesStored, Fresh, FindKey, DirectReserved, StillValid, PricesOwned, Done, KeptOf;
    if next.store.bookings != s.store.bookings {
      UnansweredStored(next.store.bookings[|s.store.bookings|]);
    }
  }

  lemma OthersKeepReferences(setup: Setup, s: System, event: Event, next: System)
    requires ReferencesKept(s) && !event.Receive? && !event.BookOffer? && Step(setup, s, event, next)
    ensures ReferencesKept(next)
  {
    StepMoves(setup, s, event, next);
    hide Step, ReferencesStored, Unanswered, Done, QuotesMove;
    forall b | 0 <= b < |next.store.bookings|
      ensures ReferencesStored(next.store.bookings[b]) && (!Done(next.finished, b) ==> Unanswered(next.store.bookings[b]))
    {
      SameReferences(s.store.bookings[b], next.store.bookings[b]);
    }
  }

  lemma {:induction false} RunKeepsReferences(setup: Setup, states: seq<System>, events: seq<Event>, i: nat)
    requires Run(setup, states, events) && i < |states|
    ensures ReferencesKept(states[i])
    decreases i
  {
    hide Run, Step, ReferencesKept, QuotesSafe, ReservationsSafe, DispatchSafe, OutcomesSafe;
    if i > 0 {
      RunShape(setup, states, events);
      var s, event, next := states[i - 1], events[i - 1], states[i];
      RunKeepsReferences(setup, states, events, i - 1);
      RunIsSafe(setup, states, events, i - 1);
      StepAt(setup, states, events, i - 1);
      if event.Receive? {
        ReceiveKeepsReferences(setup, s, event, next);
      } else if event.BookOffer? {
        BookKeepsReferences(setup, s, event, next);
      } else {
        OthersKeepReferences(setup, s, event, next);
      }
    } else {
      StartsEmpty(setup, states, events);
      NoReferences(states[0]);
    }
  }

  lemma NoReferences(s: System)
    requires Initial(s)
    ensures ReferencesKept(s)
  {
  }

  // Over every run, in whatever state, a booking's reservation number and supplier reference are the texts
  // its stored answer states at item1.pnr and item1.bookingCodeRef, and missing where it states none.
  lemma ReferencesAreTheAnswers(setup: Setup, states: seq<System>, events: seq<Event>, i: nat, id: Id)
    requires Run(setup, states, events) && i < |states| && id < |states[i].store.bookings|
    ensures var row := states[i].store.bookings[id];
            && (row.original.None? ==> row.pnr.None? && row.supplierRef.None?)
            && (row.original.Some? ==>
                  var info := Member(row.original.value, "item1");
                  && row.pnr == AsText(Member(info, "pnr")) && row.supplierRef == AsText(Member(info, "bookingCodeRef")))
  {
    RunKeepsReferences(setup, states, events, i);
    hide Run, Member;
  }

  // A person's decision stands unless a late answer arrived, and is taken at most twice.
  lemma DecisionsStand(setup: Setup, states: seq<System>, events: seq<Event>, i: nat, id: Id)
    requires Run(setup, states, events) && i < |states| && id < |states[i].store.bookings|
    ensures var s := states[i];
            && ResolutionCount(s.store.resolutions, id) <= 2
            && LateCount(s.store.late, id) <= 1
            && (ResolutionCount(s.store.resolutions, id) > 0 && s.store.bookings[id].state != ManuallyResolved ==>
                  LateCount(s.store.late, id) == 1)
            && (s.store.bookings[id].state == ManuallyResolved ==> ResolutionCount(s.store.resolutions, id) > 0)
  {
    RunIsSafe(setup, states, events, i);
    assert OutcomeSound(setup, states[i].store, states[i].finished, id);
    hide Run, Safe, Verified, Done, LateCount, ResolutionCount;
  }

  // A step that changes a booking row stamps it with the current time.
  lemma ChangeIsStamped(setup: Setup, s: System, event: Event, next: System, id: Id)
    requires Step(setup, s, event, next) && id < |s.store.bookings|
    ensures id < |next.store.bookings|
    ensures next.store.bookings[id] == s.store.bookings[id] || next.store.bookings[id].updated == s.now
    ensures s.now <= next.now
  {
    hide Step, QuotesMove, SameReservation;
    StepMoves(setup, s, event, next);
    BookingsNeverGo(s, event, next);
  }

  lemma {:induction false} SeenOrNewer(setup: Setup, states: seq<System>, events: seq<Event>, k: nat, i: nat, id: Id)
    requires Run(setup, states, events) && k <= i < |states| && id < |states[k].store.bookings|
    requires states[k].store.bookings[id].updated < states[k].now
    ensures id < |states[i].store.bookings| && states[k].now <= states[i].now
    ensures states[i].store.bookings[id] == states[k].store.bookings[id] ||
            states[i].store.bookings[id].updated > states[k].store.bookings[id].updated
    decreases i
  {
    hide Run, Step;
    if k < i {
      SeenOrNewer(setup, states, events, k, i - 1, id);
      StepAt(setup, states, events, i - 1);
      ChangeIsStamped(setup, states[i - 1], events[i - 1], states[i], id);
    }
  }

  // A decision is made on exactly the row the administrator saw: one that changed in between, even
  // back and forth, is refused.  (The view was read after the instant of the row's last change.)
  lemma ResolvedAsSeen(setup: Setup, states: seq<System>, events: seq<Event>, k: nat, i: nat)
    requires Run(setup, states, events) && k <= i < |events| && events[i].ResolveBooking?
    requires events[i].booking < |states[k].store.bookings|
    requires states[k].store.bookings[events[i].booking].updated == events[i].expected < states[k].now
    requires states[i + 1].store != states[i].store
    ensures events[i].booking < |states[i].store.bookings|
    ensures states[i].store.bookings[events[i].booking] == states[k].store.bookings[events[i].booking]
  {
    hide Run, Step;
    RunShape(setup, states, events);
    SeenOrNewer(setup, states, events, k, i, events[i].booking);
    StepAt(setup, states, events, i);
    ResolveEffect(setup, states[i], events[i], states[i + 1]);
  }

  // ---- Main results: late answers ---------------------------------------------------------------------------

  lemma {:induction false} RecordsAreKept(setup: Setup, states: seq<System>, events: seq<Event>, i: nat, j: nat)
    requires Run(setup, states, events) && i <= j < |states|
    ensures RecordsGrow(states[i], states[j])
    decreases j
  {
    hide Run, Step, BookingsMove, QuotesMove;
    if i < j {
      RecordsAreKept(setup, states, events, i, j - 1);
      StepAt(setup, states, events, j - 1);
      StepMoves(setup, states[j - 1], events[j - 1], states[j]);
    }
  }

  predicate Decides(states: seq<System>, events: seq<Event>, t: nat, id: Id)
    requires t + 1 < |states| && t < |events|
  {
    && events[t].ResolveBooking? && events[t].booking == id
    && states[t + 1].store.resolutions != states[t].store.resolutions
  }

  predicate UnderReview(store: Store, id: Id) {
    && id < |store.bookings| && store.bookings[id].state == OutcomeUnknown
    && store.bookings[id].error == Some(LateOutcome) && store.bookings[id].response.None?
  }

  lemma ReviewStep(setup: Setup, s: System, event: Event, next: System, id: Id)
    requires Step(setup, s, event, next) && DispatchSafe(s) && Done(s.finished, id) && UnderReview(s.store, id)
    requires event.ResolveBooking? && event.booking == id ==> next.store.resolutions == s.store.resolutions
    ensures UnderReview(next.store, id)
  {
    hide Step, DispatchSafe, QuotesMove, RestMoves, SameReservation, Done;
    StepMoves(setup, s, event, next);
    BookingsNeverGo(s, event, next);
    if event.Receive? {
      WorkerNotDone(s, event.booking);
    }
  }

  lemma {:induction false} StaysUnderReview(setup: Setup, states: seq<System>, events: seq<Event>, i: nat, j: nat, id: Id)
    requires Run(setup, states, events) && i <= j < |states| == |events| + 1
    requires UnderReview(states[i].store, id) && Done(states[i].finished, id)
    requires forall t :: i <= t < j ==> !Decides(states, events, t, id)
    ensures UnderReview(states[j].store, id) && Done(states[j].finished, id)
    decreases j
  {
    hide Run, Step, UnderReview, Done, DispatchSafe, QuotesSafe, ReservationsSafe, OutcomesSafe, BookingsMove, QuotesMove;
    if i < j {
      StaysUnderReview(setup, states, events, i, j - 1, id);
      RunIsSafe(setup, states, events, j - 1);
      StepAt(setup, states, events, j - 1);
      assert !Decides(states, events, j - 1, id);
      ReviewStep(setup, states[j - 1], events[j - 1], states[j], id);
      StepMoves(setup, states[j - 1], events[j - 1], states[j]);
      StillDone(states[j - 1].finished, states[j].finished, id);
    }
  }

  lemma StillDone(finished: seq<Finished>, longer: seq<Finished>, id: Id)
    requires Done(finished, id) && finished <= longer
    ensures Done(longer, id)
  {
    var i :| 0 <= i < |finished| && finished[i].booking == id;
    assert longer[i].booking == id;
  }

  lemma LateReceive(setup: Setup, s: System, event: Event, next: System)
    requires event.Receive? && Step(setup, s, event, next) && event.booking < |s.store.bookings|
    requires s.store.bookings[event.booking].state != Pending
    ensures UnderReview(next.store, event.booking) && Done(next.finished, event.booking)
    ensures Late(event.booking, event.reply) in next.store.late
  {
    hide Step, Done, Verified, InfoText;
    ReceiveEffect(setup, s, event, next);
    DoneAppended(s.finished, Finished(event.booking, event.reply), event.booking);
  }

  // Only a person's decision can be met by a late answer.  The answer is kept, the decision is kept,
  // and whatever else happens the booking then stays under review until the next decision on it.
  lemma LateAnswerReopens(setup: Setup, states: seq<System>, events: seq<Event>, k: nat, j: nat)
    requires Run(setup, states, events) && k < j < |states| == |events| + 1 && events[k].Receive?
    requires events[k].booking < |states[k].store.bookings|
    requires states[k].store.bookings[events[k].booking].state != Pending
    requires forall t :: k < t < j ==> !Decides(states, events, t, events[k].booking)
    ensures states[k].store.bookings[events[k].booking].state == ManuallyResolved
    ensures UnderReview(states[j].store, events[k].booking)
    ensures Late(events[k].booking, events[k].reply) in states[j].store.late
    ensures states[k].store.resolutions <= states[j].store.resolutions
    ensures ResolutionCount(states[j].store.resolutions, events[k].booking) > 0
  {
    var id := events[k].booking;
    RunIsSafe(setup, states, events, k);
    StepAt(setup, states, events, k);
    NotReceivedYet(setup, states[k], events[k], states[k + 1]);
    LateReceive(setup, states[k], events[k], states[k + 1]);
    StaysUnderReview(setup, states, events, k + 1, j, id);
    RecordsAreKept(setup, states, events, k, j);
    RecordsAreKept(setup, states, events, k + 1, j);
    assert OutcomeSound(setup, states[k].store, states[k].finished, id);
    MoreResolutions(states[k].store.resolutions, states[j].store.resolutions, id);
    hide Run, Step, UnderReview, Done, Verified, LateCount, ResolutionCount, QuotesSafe, ReservationsSafe, DispatchSafe;
  }

  lemma NotReceivedYet(setup: Setup, s: System, event: Event, next: System)
    requires event.Receive? && Step(setup, s, event, next) && DispatchSafe(s)
    ensures !Done(s.finished, event.booking)
  {
    hide Step, DispatchSafe, Done;
    ReceiveEffect(setup, s, event, next);
    WorkerNotDone(s, event.booking);
    hide Finish;
  }

  lemma {:induction false} MoreResolutions(resolutions: seq<Resolution>, longer: seq<Resolution>, id: Id)
    requires resolutions <= longer
    ensures ResolutionCount(resolutions, id) <= ResolutionCount(longer, id)
    decreases |longer|
  {
    if |resolutions| < |longer| {
      MoreResolutions(resolutions, longer[..|longer| - 1], id);
    } else {
      assert resolutions == longer;
    }
  }

  // ---- Main results: quotes ---------------------------------------------------------------------------------

  // The version numbers of an offer are exactly 1..n, in insertion order.
  lemma VersionsAreConsecutive(setup: Setup, states: seq<System>, events: seq<Event>, i: nat, offer: Id)
    requires Run(setup, states, events) && i < |states| && offer < |states[i].store.offers|
    ensures var versions := VersionsOf(states[i].store.prices, offer);
            && (forall k :: 0 <= k < |versions| ==> versions[k] == k + 1)
            && LatestVersion(states[i].store.prices, offer) == |versions|
  {
    RunIsSafe(setup, states, events, i);
    assert OfferSound(states[i], offer);
    LatestIsCount(states[i], offer);
    UpToAt(|VersionsOf(states[i].store.prices, offer)|);
    hide Run, Safe, VersionsOf, PricedVersions, UpTo, LatestVersion;
  }

  // Whatever snapshot the first SELECT saw, a reservation uses the highest version of its offer, that
  // version was accepted, and the offer's last supplier answer was the one that priced it.
  lemma ReservedQuoteIsCurrent(setup: Setup, states: seq<System>, events: seq<Event>, i: nat)
    requires Run(setup, states, events) && i < |events| && events[i].BookOffer?
    requires states[i + 1].store.bookings != states[i].store.bookings
    ensures var s := states[i];
            var price := events[i].request.price;
            && price < |s.store.prices|
            && s.store.prices[price].offer < |s.store.offers| == |s.history|
            && var quote := s.store.prices[price];
               var past := s.history[quote.offer];
               && quote.accepted
               && quote.version == LatestVersion(s.store.prices, quote.offer) == |VersionsOf(s.store.prices, quote.offer)|
               && past != [] && past[|past| - 1] == Priced(quote.version)
               && PriceLive(s.store, price, s.now)
               && states[i + 1].store.bookings == s.store.bookings + [NewBooking(s.store, events[i].machine, events[i].request, s.now)]
  {
    RunIsSafe(setup, states, events, i);
    hide Run, Step;
    var s := states[i];
    RunShape(setup, states, events);
    StepAt(setup, states, events, i);
    BookEffect(setup, s, events[i], states[i + 1]);
    var quote := s.store.prices[events[i].request.price];
    assert OfferSound(s, quote.offer);
    LatestIsCount(s, quote.offer);
    LastIsPriced(s, quote.offer, events[i].request.price);
    hide Safe, VersionsOf, LatestVersion, PriceLive, NewBooking, OfferSound, FindKey;
  }

  lemma {:induction false} PriceHasVersion(prices: seq<Price>, offer: Id, p: Id)
    requires p < |prices| && prices[p].offer == offer
    ensures prices[p].version in VersionsOf(prices, offer)
  {
    if p < |prices| - 1 {
      PriceHasVersion(prices[..|prices| - 1], offer, p);
    }
  }

  lemma {:induction false} UnrejectedEndsPriced(events: seq<QuoteEvent>)
    requires !LastRejected(events) && PricedVersions(events) != []
    ensures events[|events| - 1] == Priced(PricedVersions(events)[|PricedVersions(events)| - 1])
  {
    assert events != [];
    assert events[|events| - 1].Priced?;
  }

  lemma LastIsPriced(s: System, offer: Id, price: Id)
    requires offer < |s.store.offers| && offer < |s.history| && OfferSound(s, offer)
    requires price < |s.store.prices| && s.store.prices[price].offer == offer
    requires !s.store.offers[offer].repriceRequired
    ensures s.history[offer] != []
    ensures s.history[offer][|s.history[offer]| - 1] == Priced(LatestVersion(s.store.prices, offer))
  {
    PriceHasVersion(s.store.prices, offer, price);
    UnrejectedEndsPriced(s.history[offer]);
    LatestIsCount(s, offer);
    UpToAt(|VersionsOf(s.store.prices, offer)|);
    hide VersionsOf, PricedVersions, UpTo, LatestVersion;
  }

  lemma PricesStep(setup: Setup, s: System, event: Event, next: System, price: Id)
    requires Step(setup, s, event, next) && price < |next.store.prices|
    requires next.store.prices[price].accepted && (price < |s.store.prices| ==> !s.store.prices[price].accepted)
    ensures event.AcceptPrice? && event.price == price && price < |s.store.prices|
    ensures PricesOwned(s.store) && Accept(s.store, s.rows, event.machine, price, s.now).1.Ok?
  {
    hide LatestVersion, Live, StillValid, PriceLive, Verified, InfoText, FindKey, QuoteFailure, SupplierFailure,
         NewBooking, UpdateRow, EnabledEpochs, StoredOffers, BeginReprice, PricesOwned;
    match event
    case AcceptPrice(_, _) =>
    case EndReprice(_, _) =>
    case BookOffer(_, _, _, _) => hide Accept, FinishReprice;
    case Receive(_, _, _) => hide Accept, FinishReprice, Book;
    case ResolveBooking(_, _, _, _) => hide Accept, FinishReprice, Book, Finish;
    case _ => hide Accept, FinishReprice, Book, Finish, Resolve;
  }

  // An accepted price was accepted by a step of its own, and at that moment it was live, the latest
  // version of an unrejected offer, priced for that audience, and its supplier was enabled.
  lemma {:induction false} PriceWasAccepted(setup: Setup, states: seq<System>, events: seq<Event>, i: nat, price: Id) returns (t: nat)
    requires Run(setup, states, events) && i < |states| && price < |states[i].store.prices| && states[i].store.prices[price].accepted
    ensures t < i && events[t].AcceptPrice? && events[t].price == price
    ensures var s, machine := states[t], events[t].machine;
            && price < |s.store.prices| && s.store.prices[price].offer < |s.store.offers|
            && var quote := s.store.prices[price];
               var offer := s.store.offers[quote.offer];
               && quote.client == machine.client && quote.audience == machine.audience && quote.agent == machine.agent
               && quote.version == LatestVersion(s.store.prices, quote.offer) && PriceLive(s.store, price, s.now)
               && !offer.repriceRequired && StillValid(s.rows, offer.supplier, offer.epoch)
    decreases i
  {
    hide Run, Step, LatestVersion, PriceLive, StillValid;
    if i == 0 {
      StartsEmpty(setup, states, events);
    }
    var last := i - 1;
    StepAt(setup, states, events, last);
    if price < |states[last].store.prices| && states[last].store.prices[price].accepted {
      t := PriceWasAccepted(setup, states, events, last, price);
    } else {
      PricesStep(setup, states[last], events[last], states[i], price);
      t := last;
    }
  }

  // ---- Main results: availability ------------------------------------------------------------------------

  function Configurations(states: seq<System>): (r: seq<Rows>)
    ensures |r| == |states| && forall i :: 0 <= i < |r| ==> r[i] == states[i].rows
  {
    seq(|states|, i requires 0 <= i < |states| => states[i].rows)
  }

  lemma RowsHistory(setup: Setup, states: seq<System>, events: seq<Event>)
    requires Run(setup, states, events)
    ensures History(Configurations(states))
  {
    hide Run, Step;
    var trace := Configurations(states);
    forall i, j | 0 <= i && j == i + 1 && j < |trace| ensures Evolves(trace[i], trace[j]) {
      StepAt(setup, states, events, i);
      StepEvolves(setup, states[i], events[i], states[j]);
    }
  }

  lemma StepEvolves(setup: Setup, s: System, event: Event, next: System)
    requires Step(setup, s, event, next)
    ensures Evolves(s.rows, next.rows)
  {
    RowsMove(setup, s, event, next);
    if event.Configure? {
      UpdateEvolves(s.rows, event.supplier, event.input);
    }
    hide UpdateRow, Step;
  }

  // Only an administrator's update changes the connections.
  lemma RowsMove(setup: Setup, s: System, event: Event, next: System)
    requires Step(setup, s, event, next)
    ensures next.rows == if event.Configure? then UpdateRow(s.rows, event.supplier, event.input).0 else s.rows
  {
    hide UpdateRow, Finish, FinishReprice, Accept, Book, Resolve, BeginReprice, EnabledEpochs, Storable, StoredOffer, Live, StillValid;
  }

  // Every stored search carries the epochs of the instant its snapshot was taken.
  lemma {:induction false} SnapshotTaken(setup: Setup, states: seq<System>, events: seq<Event>, i: nat, search: Id) returns (t: nat)
    requires Run(setup, states, events) && i < |states| && search < |states[i].store.searches|
    ensures t < i && events[t].TakeSnapshot?
    ensures |states[t].store.searches| == search
    ensures states[i].store.searches[search].epochs == EnabledEpochs(states[t].rows)
    decreases i
  {
    hide Run, Step, EnabledEpochs;
    if i == 0 {
      StartsEmpty(setup, states, events);
    }
    var last := i - 1;
    StepAt(setup, states, events, last);
    SearchesGrow(setup, states[last], events[last], states[i]);
    if search < |states[last].store.searches| {
      t := SnapshotTaken(setup, states, events, last, search);
    } else {
      t := last;
    }
  }

  lemma SearchesGrow(setup: Setup, s: System, event: Event, next: System)
    requires Step(setup, s, event, next)
    ensures |s.store.searches| <= |next.store.searches|
    ensures forall k :: 0 <= k < |s.store.searches| ==> next.store.searches[k].epochs == s.store.searches[k].epochs
    ensures |next.store.searches| > |s.store.searches| ==>
              && event.TakeSnapshot? && |next.store.searches| == |s.store.searches| + 1
              && next.store.searches[|s.store.searches|].epochs == EnabledEpochs(s.rows)
  {
    hide Step, BookingsMove, RestMoves, QuotesEndure, EnabledEpochs;
    StepMoves(setup, s, event, next);
    if event.TakeSnapshot? {
      SnapshotEffect(setup, s, event, next);
    }
  }

  // A reservation proves that its supplier was search-enabled at every moment since the snapshot of
  // its Search: one disabling in between, even if undone, and the offer can never be booked.
  lemma ReservedOfferNeverDisabled(setup: Setup, states: seq<System>, events: seq<Event>, i: nat) returns (t: nat)
    requires Run(setup, states, events) && i < |events| && events[i].BookOffer?
    requires states[i + 1].store.bookings != states[i].store.bookings
    ensures var s, price := states[i], events[i].request.price;
            && price < |s.store.prices| && s.store.prices[price].offer < |s.store.offers|
            && var offer := s.store.offers[s.store.prices[price].offer];
               && t < i && events[t].TakeSnapshot? && |states[t].store.searches| == offer.search
               && forall k :: t <= k <= i ==> offer.supplier in states[k].rows && states[k].rows[offer.supplier].searchEnabled
  {
    RunIsSafe(setup, states, events, i);
    hide Run, Step;
    var s, price := states[i], events[i].request.price;
    RunShape(setup, states, events);
    StepAt(setup, states, events, i);
    BookEffect(setup, s, events[i], states[i + 1]);
    var id := s.store.prices[price].offer;
    var offer := s.store.offers[id];
    assert SearchKeepsEpoch(s, id) && offer.search < |s.store.searches|;
    t := SnapshotTaken(setup, states, events, i, offer.search);
    RowsHistory(setup, states, events);
    var trace := Configurations(states);
    hide Safe, History, SearchKeepsEpoch;
    ValidIffNeverDisabled(trace, offer.supplier, t, i);
    forall k | t <= k <= i ensures offer.supplier in states[k].rows && states[k].rows[offer.supplier].searchEnabled {
      assert trace[k] == states[k].rows;
    }
  }

  // Every booking row of a run comes from one Book step, so the results above hold for all of them.
  lemma {:induction false} EveryBookingWasReserved(setup: Setup, states: seq<System>, events: seq<Event>, i: nat, id: Id)
    returns (t: nat)
    requires Run(setup, states, events) && i < |states| && id < |states[i].store.bookings|
    ensures t < i && events[t].BookOffer? && |states[t].store.bookings| == id
    ensures states[t + 1].store.bookings != states[t].store.bookings
    ensures states[t + 1].store.bookings == states[t].store.bookings + [states[t + 1].store.bookings[id]]
    ensures SameReservation(states[t + 1].store.bookings[id], states[i].store.bookings[id])
    decreases i
  {
    hide Run, Step, FindKey, Fresh, NewBooking, DirectReserved, StillValid;
    if i == 0 {
      StartsEmpty(setup, states, events);
    }
    var last := i - 1;
    StepAt(setup, states, events, last);
    var s, event, next := states[last], events[last], states[i];
    StepKeepsRows(setup, s, event, next);
    if id < |s.store.bookings| {
      t := EveryBookingWasReserved(setup, states, events, last, id);
    } else {
      t := last;
      if event.BookOffer? {
        BookEffect(setup, s, event, next);
      } else {
        BookingsCount(setup, s, event, next);
      }
    }
  }
}
