// Imported bookings and their wallet charges (src/portal_imports.rs).  Commands run one at a time; a
// charge reserves and captures within the command that makes it.
module PortalImports {
  import opened Wrappers
  import opened Json
  import TicketAssignment

  type Id = nat

  datatype Source = ManualEntry | AirlineExport | SupplierApi
  datatype Status = OnHold | Confirmed | Cancelled | Expired

  // Missing, not a time, or a time.
  datatype IssueTime = NoTime | Unreadable | At(time: int)

  // What the fingerprint digests: the assignee, the prices and the whole evidence without fetch
  // times.  bookingReference is derived from the evidence; details is the rest of it.
  datatype Content = Content(
    assignee: Id, agency: string, source: Source, provider: string, currency: string,
    gross: int, payable: int, cost: int, reference: string, lifecycle: Status,
    travellers: nat, tickets: Value, issued: IssueTime, bookingReference: Option<string>, details: string)

  datatype Quote = Quote(actor: Id, content: Content, authorized: bool, expires: int)
  // tickets and issuedAt: the evidence as it stands, quoted or given with the status; issued: whether
  // a time of issue is set.
  datatype Imported = Imported(quote: Id, creator: Id, content: Content, bookingReference: string, tickets: Value,
                               issuedAt: IssueTime, status: Status, operation: Option<Id>, issued: bool, version: int)
  datatype Request = Request(actor: Id, request: Id, content: Content, booking: Id)

  datatype Account = Account(agency: string, currency: string)
  // deposited: everything ever paid in.
  datatype Wallet = Wallet(active: bool, available: int, deposited: int)
  // A captured wallet operation, one per charge.
  datatype Operation = Operation(account: Account, subject: Id, amount: int)

  datatype Store = Store(quotes: seq<Quote>, imports: seq<Imported>, requests: seq<Request>,
                         wallets: map<Account, Wallet>, operations: seq<Operation>)

  datatype Failure =
    | InvalidImportData | CompleteEvidenceRequired | PricingChanged | InvalidAssignee | AgencyRequired
    | ChargeDecisionNotApplicable | WalletAccountNotFound | WalletFrozen | InsufficientFunds
    | RequestIdentityMismatch | QuoteExpired | AssigneeMismatch | ConfirmedRequiresCharge
    | FreshAuthorizationRequired | AlreadyImported | ReferenceEvidenceRequired
    | VersionChanged | StatusNotAllowed

  const MAX_MINOR: int := 99_999_999_999_999

  // ---- The wallet charge -----------------------------------------------------------------------------

  function Charge(store: Store, account: Account, subject: Id, amount: int): Result<Store, Failure> {
    if account !in store.wallets then Err(WalletAccountNotFound)
    else
      var wallet := store.wallets[account];
      if !wallet.active then Err(WalletFrozen)
      else if wallet.available < amount then Err(InsufficientFunds)
      else Ok(store.(wallets := store.wallets[account := wallet.(available := wallet.available - amount)],
                     operations := store.operations + [Operation(account, subject, amount)]))
  }

  // ---- Ticket evidence ---------------------------------------------------------------------------------

  const CLOCK_TOLERANCE: int := 300

  predicate DistinctTickets(tickets: seq<Value>) {
    && (forall i :: 0 <= i < |tickets| ==> TicketAssignment.TicketNumber(tickets[i]))
    && (forall i, j :: 0 <= i < j < |tickets| ==> tickets[i] != tickets[j])
  }

  // One ticket number for every traveller, all different.
  predicate Ticketed(travellers: nat, tickets: Value) {
    tickets.Array? && |tickets.items| == travellers > 0 && DistinctTickets(tickets.items)
  }

  // No time, or one that is not in the future.
  predicate IssuedBy(issued: IssueTime, now: int) {
    issued.NoTime? || (issued.At? && issued.time <= now + CLOCK_TOLERANCE)
  }

  predicate NoTickets(tickets: Value) {
    !tickets.Array? || tickets.items == []
  }

  function EvidenceFailure(travellers: nat, tickets: Value, issued: IssueTime, now: int): Option<Failure> {
    if !tickets.Array? || |tickets.items| != travellers || travellers == 0 then Some(CompleteEvidenceRequired)
    else if !DistinctTickets(tickets.items) then Some(InvalidImportData)
    else if issued.Unreadable? || (issued.At? && issued.time > now + CLOCK_TOLERANCE) then Some(InvalidImportData)
    else None
  }

  method CheckEvidence(travellers: nat, tickets: Value, issued: IssueTime, now: int) returns (failure: Option<Failure>)
    ensures failure == EvidenceFailure(travellers, tickets, issued, now)
    ensures failure.None? <==> Ticketed(travellers, tickets) && IssuedBy(issued, now)
  {
    if !tickets.Array? || |tickets.items| != travellers || travellers == 0 {
      return Some(CompleteEvidenceRequired);
    }
    var seen: set<string> := {};
    for i := 0 to |tickets.items|
      invariant DistinctTickets(tickets.items[..i])
      invariant forall text :: text in seen <==> Text(text) in tickets.items[..i]
    {
      var ticket := tickets.items[i];
      if !TicketAssignment.TicketNumber(ticket) {
        return Some(InvalidImportData);
      }
      if ticket.text in seen {
        assert ticket in tickets.items[..i];
        return Some(InvalidImportData);
      }
      assert ticket !in tickets.items[..i];
      assert tickets.items[..i + 1] == tickets.items[..i] + [ticket];
      seen := seen + {ticket.text};
    }
    assert tickets.items[..|tickets.items|] == tickets.items;
    if issued.Unreadable? || (issued.At? && issued.time > now + CLOCK_TOLERANCE) {
      return Some(InvalidImportData);
    }
    failure := None;
  }

  // ---- Prepare and Authorize ----------------------------------------------------------------------------

  predicate ProviderAllowed(source: Source, provider: string) {
    match source
    case ManualEntry => provider == "MANUAL"
    case AirlineExport => provider in ["US_BANGLA", "AIR_ASTRA", "NOVOAIR"]
    case SupplierApi => provider in ["firsttrip", "takeoff", "triplover"]
  }

  predicate AmountsValid(content: Content) {
    0 < content.payable <= MAX_MINOR && 0 <= content.gross <= MAX_MINOR && 0 <= content.cost <= MAX_MINOR
  }

  // What Prepare learns about its data and assignee: the shape of the rest of the evidence, whether the
  // platform price agrees, and the assignee's role and agency.
  datatype Findings = Findings(dataValid: bool, priceAgrees: bool, assignable: bool, agency: Option<string>)

  const MOST_TRAVELLERS: nat := 20

  function PrepareFailure(content: Content, authorize: bool, found: Findings, now: int): Option<Failure> {
    var evidence := EvidenceFailure(content.travellers, content.tickets, content.issued, now);
    if !ProviderAllowed(content.source, content.provider) || !AmountsValid(content) || !found.dataValid ||
       content.travellers == 0 || content.travellers > MOST_TRAVELLERS
    then Some(InvalidImportData)
    else if content.lifecycle == Confirmed && evidence.Some? then evidence
    else if content.lifecycle != Confirmed && !NoTickets(content.tickets) then Some(InvalidImportData)
    else if content.source != AirlineExport && content.lifecycle == Confirmed && content.issued.NoTime?
    then Some(CompleteEvidenceRequired)
    else if content.source != ManualEntry && !found.priceAgrees then Some(PricingChanged)
    else if !found.assignable then Some(InvalidAssignee)
    else if found.agency.None? then Some(AgencyRequired)
    else if authorize && content.lifecycle != Confirmed then Some(ChargeDecisionNotApplicable)
    else None
  }

  const QUOTE_LIFE: int := 600

  function Prepare(store: Store, actor: Id, content: Content, authorize: bool, found: Findings, now: int):
    (Store, Result<Id, Failure>)
  {
    var failure := PrepareFailure(content, authorize, found, now);
    if failure.Some? then (store, Err(failure.value))
    else
      var quote := Quote(actor, content.(agency := found.agency.value), authorize, now + QUOTE_LIFE);
      (store.(quotes := store.quotes + [quote]), Ok(|store.quotes|))
  }

  predicate Captured(store: Store, actor: Id, content: Content) {
    exists i :: 0 <= i < |store.imports| && store.imports[i].operation.Some? &&
      store.imports[i].quote < |store.quotes| && store.quotes[store.imports[i].quote].content == content &&
      store.quotes[store.imports[i].quote].actor == actor
  }

  function AuthorizeFailure(store: Store, actor: Id, quote: Id, confirmation: Id, now: int): Option<Failure> {
    if quote >= |store.quotes| || confirmation >= |store.quotes| then Some(PricingChanged)
    else
      var a, b := store.quotes[quote], store.quotes[confirmation];
      if a.actor != actor || b.actor != a.actor || a.content != b.content || a.expires <= now || b.expires <= now
      then Some(PricingChanged)
      else if a.content.lifecycle == Confirmed && !Captured(store, a.actor, a.content) then
        var account := Account(a.content.agency, a.content.currency);
        if account !in store.wallets then Some(WalletAccountNotFound)
        else if !store.wallets[account].active then Some(WalletFrozen)
        else if store.wallets[account].available < a.content.payable then Some(InsufficientFunds)
        else None
      else None
  }

  function Authorize(store: Store, actor: Id, quote: Id, confirmation: Id, now: int): (Store, Result<Id, Failure>) {
    var failure := AuthorizeFailure(store, actor, quote, confirmation, now);
    if failure.Some? then (store, Err(failure.value))
    else (store.(quotes := store.quotes[quote := store.quotes[quote].(authorized := true)]), Ok(quote))
  }

  // ---- Import --------------------------------------------------------------------------------------------

  // currentAgency: the assignee's agency now.  nativeReference, nativeBooking: a native booking
  // already carries the supplier reference, or the public one.
  datatype Ask = Ask(actor: Id, quote: Id, request: Id, charge: bool, authorization: Option<Id>,
                     currentAgency: Option<string>, nativeReference: bool, nativeBooking: bool)

  function FindRequest(requests: seq<Request>, actor: Id, request: Id): (found: Option<Id>)
    ensures found.Some? ==>
              && found.value < |requests|
              && requests[found.value].actor == actor && requests[found.value].request == request
    ensures found.None? ==> forall r :: 0 <= r < |requests| ==> requests[r].actor != actor || requests[r].request != request
  {
    if requests == [] then None
    else
      var n := |requests| - 1;
      if requests[n].actor == actor && requests[n].request == request then Some(n)
      else FindRequest(requests[..n], actor, request)
  }

  predicate ReferenceTaken(imports: seq<Imported>, provider: string, reference: string) {
    exists i :: 0 <= i < |imports| && imports[i].content.provider == provider && imports[i].content.reference == reference
  }

  predicate BookingReferenceTaken(imports: seq<Imported>, reference: string) {
    exists i :: 0 <= i < |imports| && imports[i].bookingReference == reference
  }

  predicate FreshlyAuthorized(store: Store, ask: Ask, content: Content, now: int) {
    && ask.authorization.Some? && ask.authorization.value < |store.quotes|
    && var authority := store.quotes[ask.authorization.value];
       authority.actor == ask.actor && authority.authorized && authority.expires > now && authority.content == content
  }

  function ImportFailure(store: Store, ask: Ask, now: int): Option<Failure>
    requires ask.quote < |store.quotes|
  {
    var quote := store.quotes[ask.quote];
    var content := quote.content;
    if quote.expires < now then Some(QuoteExpired)
    else if ask.currentAgency != Some(content.agency) then Some(AssigneeMismatch)
    else if ask.charge != (content.lifecycle == Confirmed) then Some(ConfirmedRequiresCharge)
    else if ask.charge && content.source != ManualEntry && !FreshlyAuthorized(store, ask, content, now)
    then Some(FreshAuthorizationRequired)
    else if ReferenceTaken(store.imports, content.provider, content.reference) || ask.nativeReference then Some(AlreadyImported)
    else if content.bookingReference.None? then Some(ReferenceEvidenceRequired)
    else if ask.nativeBooking || BookingReferenceTaken(store.imports, content.bookingReference.value) then Some(AlreadyImported)
    else None
  }

  datatype Receipt = Created(booking: Id) | Replayed(booking: Id) | Refused(failure: Failure)

  function NewImport(store: Store, ask: Ask, operation: Option<Id>): Imported
    requires ask.quote < |store.quotes| && store.quotes[ask.quote].content.bookingReference.Some?
  {
    var content := store.quotes[ask.quote].content;
    Imported(ask.quote, ask.actor, content, content.bookingReference.value, content.tickets, content.issued,
             content.lifecycle, operation, ask.charge, 1)
  }

  function Recorded(store: Store, ask: Ask, row: Imported): Store {
    store.(imports := store.imports + [row],
           requests := store.requests + [Request(ask.actor, ask.request, row.content, |store.imports|)])
  }

  function Import(store: Store, ask: Ask, now: int): (Store, Receipt) {
    if ask.quote >= |store.quotes| || store.quotes[ask.quote].actor != ask.actor then (store, Refused(InvalidImportData))
    else
      var content := store.quotes[ask.quote].content;
      var previous := FindRequest(store.requests, ask.actor, ask.request);
      if previous.Some? then
        (store, if store.requests[previous.value].content != content then Refused(RequestIdentityMismatch)
                else Replayed(store.requests[previous.value].booking))
      else
        var failure := ImportFailure(store, ask, now);
        if failure.Some? then (store, Refused(failure.value))
        else if !ask.charge then (Recorded(store, ask, NewImport(store, ask, None)), Created(|store.imports|))
        else
          var charged := Charge(store, Account(content.agency, content.currency), |store.imports|, content.payable);
          if charged.Err? then (store, Refused(charged.error))
          else (Recorded(charged.value, ask, NewImport(store, ask, Some(|store.operations|))), Created(|store.imports|))
  }

  // ---- Status ---------------------------------------------------------------------------------------------

  function FindReference(imports: seq<Imported>, reference: string): (found: Option<Id>)
    ensures found.Some? ==> found.value < |imports| && imports[found.value].bookingReference == reference
    ensures found.None? ==> forall i :: 0 <= i < |imports| ==> imports[i].bookingReference != reference
  {
    if imports == [] then None
    else
      var n := |imports| - 1;
      if imports[n].bookingReference == reference then Some(n) else FindReference(imports[..n], reference)
  }

  // tickets and issued: the evidence given with a confirmation, at the time now.
  datatype Change = Change(reference: string, expected: int, status: Status, tickets: Value, issued: IssueTime, now: int)

  function Moved(row: Imported, change: Change, operation: Option<Id>): Imported {
    var confirmed := change.status == Confirmed;
    row.(status := change.status, operation := operation, issued := confirmed, version := row.version + 1,
         tickets := if confirmed then change.tickets else row.tickets,
         issuedAt := if confirmed then change.issued else row.issuedAt)
  }

  function ChangeStatus(store: Store, change: Change): (Store, Result<Id, Failure>) {
    var found := FindReference(store.imports, change.reference);
    if found.None? then (store, Err(InvalidImportData))
    else
      var id := found.value;
      var row := store.imports[id];
      if change.status == Confirmed && row.content.source != AirlineExport && change.issued.NoTime?
      then (store, Err(CompleteEvidenceRequired))
      else if row.version != change.expected then (store, Err(VersionChanged))
      else if row.status != OnHold || change.status == OnHold then (store, Err(StatusNotAllowed))
      else if change.status != Confirmed then
        (store.(imports := store.imports[id := Moved(row, change, None)]), Ok(id))
      else if EvidenceFailure(row.content.travellers, change.tickets, change.issued, change.now).Some? then
        (store, Err(EvidenceFailure(row.content.travellers, change.tickets, change.issued, change.now).value))
      else
        var charged := Charge(store, Account(row.content.agency, row.content.currency), id, row.content.payable);
        if charged.Err? then (store, Err(charged.error))
        else (charged.value.(imports := store.imports[id := Moved(row, change, Some(|store.operations|))]), Ok(id))
  }

  // ---- When a command succeeds, apart from the order of its checks -------------------------------------------

  predicate Quotable(content: Content, authorize: bool, found: Findings, now: int) {
    && ProviderAllowed(content.source, content.provider) && AmountsValid(content) && found.dataValid
    && 0 < content.travellers <= MOST_TRAVELLERS
    && found.assignable && found.agency.Some?
    && (content.source == ManualEntry || found.priceAgrees)
    && (if content.lifecycle == Confirmed
        then Ticketed(content.travellers, content.tickets) && IssuedBy(content.issued, now) &&
             (content.source != AirlineExport ==> content.issued.At?)
        else NoTickets(content.tickets))
    && (authorize ==> content.lifecycle == Confirmed)
  }

  lemma QuotedExactlyWhen(content: Content, authorize: bool, found: Findings, now: int)
    ensures PrepareFailure(content, authorize, found, now).None? <==> Quotable(content, authorize, found, now)
  {
    hide ProviderAllowed, AmountsValid, DistinctTickets;
  }

  predicate CanPay(store: Store, content: Content) {
    var account := Account(content.agency, content.currency);
    account in store.wallets && store.wallets[account].active && content.payable <= store.wallets[account].available
  }

  predicate LiveQuote(store: Store, actor: Id, quote: Id, now: int) {
    quote < |store.quotes| && store.quotes[quote].actor == actor && now < store.quotes[quote].expires
  }

  predicate Authorizable(store: Store, actor: Id, quote: Id, confirmation: Id, now: int) {
    && LiveQuote(store, actor, quote, now) && LiveQuote(store, actor, confirmation, now)
    && store.quotes[quote].content == store.quotes[confirmation].content
    && var content := store.quotes[quote].content;
       content.lifecycle == Confirmed ==> Captured(store, actor, content) || CanPay(store, content)
  }

  lemma AuthorizedExactlyWhen(store: Store, actor: Id, quote: Id, confirmation: Id, now: int)
    ensures AuthorizeFailure(store, actor, quote, confirmation, now).None? <==> Authorizable(store, actor, quote, confirmation, now)
  {
    hide Captured;
  }

  // The quote still stands for its assignee, is charged exactly if confirmed and then freshly authorised,
  // and takes no reference that is taken.
  predicate Admissible(store: Store, ask: Ask, now: int)
    requires ask.quote < |store.quotes|
  {
    var content := store.quotes[ask.quote].content;
    && now <= store.quotes[ask.quote].expires
    && ask.currentAgency == Some(content.agency)
    && (ask.charge <==> content.lifecycle == Confirmed)
    && (ask.charge && content.source != ManualEntry ==> FreshlyAuthorized(store, ask, content, now))
    && !ReferenceTaken(store.imports, content.provider, content.reference) && !ask.nativeReference
    && content.bookingReference.Some?
    && !BookingReferenceTaken(store.imports, content.bookingReference.value) && !ask.nativeBooking
  }

  lemma AdmittedExactlyWhen(store: Store, ask: Ask, now: int)
    requires ask.quote < |store.quotes|
    ensures ImportFailure(store, ask, now).None? <==> Admissible(store, ask, now)
  {
    hide FreshlyAuthorized, ReferenceTaken, BookingReferenceTaken;
  }

  predicate OwnQuote(store: Store, ask: Ask) {
    ask.quote < |store.quotes| && store.quotes[ask.quote].actor == ask.actor
  }

  predicate RequestKnown(requests: seq<Request>, actor: Id, request: Id) {
    exists r :: 0 <= r < |requests| && requests[r].actor == actor && requests[r].request == request
  }

  predicate ImportPossible(store: Store, ask: Ask, now: int) {
    && OwnQuote(store, ask) && !RequestKnown(store.requests, ask.actor, ask.request)
    && Admissible(store, ask, now) && (ask.charge ==> CanPay(store, store.quotes[ask.quote].content))
  }

  lemma RequestFound(requests: seq<Request>, actor: Id, request: Id)
    ensures FindRequest(requests, actor, request).Some? <==> RequestKnown(requests, actor, request)
  {
  }

  lemma NotMismatch(store: Store, ask: Ask, now: int)
    requires ask.quote < |store.quotes|
    ensures ImportFailure(store, ask, now) != Some(RequestIdentityMismatch)
  {
    hide FreshlyAuthorized, ReferenceTaken, BookingReferenceTaken;
  }

  // Why a quote cannot be imported: the first requirement that does not hold.
  function AdmissionRefusal(store: Store, ask: Ask, now: int): Option<Failure>
    requires ask.quote < |store.quotes|
  {
    var quote := store.quotes[ask.quote];
    var content := quote.content;
    Unless(now <= quote.expires, QuoteExpired,
    Unless(ask.currentAgency == Some(content.agency), AssigneeMismatch,
    Unless(ask.charge <==> content.lifecycle == Confirmed, ConfirmedRequiresCharge,
    Unless(ask.charge && content.source != ManualEntry ==> FreshlyAuthorized(store, ask, content, now), FreshAuthorizationRequired,
    Unless(!ReferenceTaken(store.imports, content.provider, content.reference) && !ask.nativeReference, AlreadyImported,
    Unless(content.bookingReference.Some?, ReferenceEvidenceRequired,
    Unless(content.bookingReference.Some? ==> !BookingReferenceTaken(store.imports, content.bookingReference.value) && !ask.nativeBooking,
           AlreadyImported, None)))))))
  }

  lemma RefusedForAdmission(store: Store, ask: Ask, now: int)
    requires ask.quote < |store.quotes|
    ensures ImportFailure(store, ask, now) == AdmissionRefusal(store, ask, now)
  {
    hide FreshlyAuthorized, ReferenceTaken, BookingReferenceTaken;
  }

  function PaymentRefusal(store: Store, content: Content): Option<Failure> {
    var account := Account(content.agency, content.currency);
    Unless(account in store.wallets, WalletAccountNotFound,
    Unless(account in store.wallets ==> store.wallets[account].active, WalletFrozen,
    Unless(CanPay(store, content), InsufficientFunds, None)))
  }

  // What a request that is not known is refused for.
  function ImportRefusal(store: Store, ask: Ask, now: int): Option<Failure> {
    if !OwnQuote(store, ask) then Some(InvalidImportData)
    else
      var refused := AdmissionRefusal(store, ask, now);
      if refused.Some? || !ask.charge then refused else PaymentRefusal(store, store.quotes[ask.quote].content)
  }

  // One row more in the imports and in the requests, and one operation if it is charged.
  ghost predicate ImportAdded(store: Store, ask: Ask, next: Store)
    requires ask.quote < |store.quotes|
  {
    var content, id := store.quotes[ask.quote].content, |store.imports|;
    var account := Account(content.agency, content.currency);
    && next.quotes == store.quotes
    && |next.imports| == id + 1 && next.imports[..id] == store.imports
    && next.requests == store.requests + [Request(ask.actor, ask.request, content, id)]
    && var row := next.imports[id];
       && row.quote == ask.quote && row.creator == ask.actor && row.content == content
       && Some(row.bookingReference) == content.bookingReference && row.tickets == content.tickets && row.issuedAt == content.issued
       && row.status == content.lifecycle && row.version == 1 && (row.issued <==> ask.charge)
       && if ask.charge
          then && row.operation == Some(|store.operations|)
               && next.operations == store.operations + [Operation(account, id, content.payable)]
               && account in store.wallets
               && next.wallets == store.wallets[account := store.wallets[account].(available := store.wallets[account].available - content.payable)]
          else row.operation.None? && next.operations == store.operations && next.wallets == store.wallets
  }

  // A known request is answered by its own booking, and only for the content it had.
  predicate AnsweredBy(store: Store, ask: Ask, receipt: Receipt)
    requires ask.quote < |store.quotes|
  {
    exists r :: 0 <= r < |store.requests| &&
      store.requests[r].actor == ask.actor && store.requests[r].request == ask.request &&
      if store.requests[r].content == store.quotes[ask.quote].content then receipt == Replayed(store.requests[r].booking)
      else receipt == Refused(RequestIdentityMismatch)
  }

  // An import is created exactly when every condition holds; a known request is replayed or refused as a
  // mismatch, any other is refused for the first requirement that fails, and whatever is not created
  // changes nothing.
  lemma ImportedExactlyWhen(store: Store, ask: Ask, now: int)
    ensures var done := Import(store, ask, now);
            && (done.1.Created? <==> ImportPossible(store, ask, now))
            && (done.1.Created? ==> done.1.booking == |store.imports| && ImportAdded(store, ask, done.0))
            && (!done.1.Created? ==> done.0 == store)
            && (done.1.Replayed? || done.1 == Refused(RequestIdentityMismatch) <==>
                  OwnQuote(store, ask) && RequestKnown(store.requests, ask.actor, ask.request))
            && (OwnQuote(store, ask) && RequestKnown(store.requests, ask.actor, ask.request) ==> AnsweredBy(store, ask, done.1))
            && (done.1.Refused? && done.1.failure != RequestIdentityMismatch ==> ImportRefusal(store, ask, now) == Some(done.1.failure))
  {
    RequestFound(store.requests, ask.actor, ask.request);
    if ask.quote < |store.quotes| {
      AdmittedExactlyWhen(store, ask, now);
      NotMismatch(store, ask, now);
      RefusedForAdmission(store, ask, now);
    }
    hide FindRequest, RequestKnown, ImportFailure, AdmissionRefusal, Admissible;
  }

  // The import a reference names; references are never shared, and the newest would be meant.
  predicate Names(imports: seq<Imported>, reference: string, id: Id) {
    && id < |imports| && imports[id].bookingReference == reference
    && forall other :: id < other < |imports| ==> imports[other].bookingReference != reference
  }

  lemma {:induction false} ReferenceFound(imports: seq<Imported>, reference: string)
    ensures forall id: Id :: FindReference(imports, reference) == Some(id) <==> Names(imports, reference, id)
  {
    if imports != [] {
      var n := |imports| - 1;
      ReferenceFound(imports[..n], reference);
      if imports[n].bookingReference != reference {
        forall id: Id ensures Names(imports[..n], reference, id) <==> Names(imports, reference, id) {
        }
      }
    }
  }

  // What the ticket evidence of a confirmation lacks.
  function EvidenceRefusal(travellers: nat, tickets: Value, issued: IssueTime, now: int): Option<Failure> {
    Unless(tickets.Array? && |tickets.items| == travellers > 0, CompleteEvidenceRequired,
    Unless(tickets.Array? && DistinctTickets(tickets.items) && IssuedBy(issued, now), InvalidImportData, None))
  }

  // Why an import's status cannot be changed: the first requirement that does not hold.
  function MoveRefusal(store: Store, id: Id, change: Change): Option<Failure>
    requires id < |store.imports|
  {
    var row, confirms := store.imports[id], change.status == Confirmed;
    var evidence := EvidenceRefusal(row.content.travellers, change.tickets, change.issued, change.now);
    Unless(confirms && change.issued.NoTime? ==> row.content.source == AirlineExport, CompleteEvidenceRequired,
    Unless(row.version == change.expected, VersionChanged,
    Unless(row.status == OnHold && change.status != OnHold, StatusNotAllowed,
    if !confirms then None else if evidence.Some? then evidence else PaymentRefusal(store, row.content))))
  }

  // The import after its one change of status, and its charge if that confirms it.
  ghost predicate StatusMovedTo(store: Store, id: Id, change: Change, next: Store)
    requires id < |store.imports|
  {
    && |next.imports| == |store.imports|
    && (forall other :: 0 <= other < |store.imports| && other != id ==> next.imports[other] == store.imports[other])
    && next.quotes == store.quotes && next.requests == store.requests
    && var was, row := store.imports[id], next.imports[id];
       var account := Account(was.content.agency, was.content.currency);
       && row.status == change.status && row.version == was.version + 1
       && (row.quote, row.creator, row.content, row.bookingReference) == (was.quote, was.creator, was.content, was.bookingReference)
       && if change.status != Confirmed
          then && row.tickets == was.tickets && row.issuedAt == was.issuedAt && row.operation.None? && !row.issued
               && next.wallets == store.wallets && next.operations == store.operations
          else && row.tickets == change.tickets && row.issuedAt == change.issued && row.issued
               && row.operation == Some(|store.operations|)
               && next.operations == store.operations + [Operation(account, id, was.content.payable)]
               && account in store.wallets
               && next.wallets == store.wallets[account := store.wallets[account].(available := store.wallets[account].available - was.content.payable)]
  }

  // The status of the import named changes exactly when no requirement fails; else nothing changes.
  lemma MovedExactlyWhen(store: Store, change: Change)
    ensures var done := ChangeStatus(store, change);
            && ((forall id: Id :: !Names(store.imports, change.reference, id)) ==> done == (store, Err(InvalidImportData)))
            && (forall id: Id :: Names(store.imports, change.reference, id) ==>
                  if MoveRefusal(store, id, change).Some? then done == (store, Err(MoveRefusal(store, id, change).value))
                  else done.1 == Ok(id) && StatusMovedTo(store, id, change, done.0))
  {
    ReferenceFound(store.imports, change.reference);
    var found := FindReference(store.imports, change.reference);
    if found.Some? {
      assert Names(store.imports, change.reference, found.value);
    }
    hide FindReference, Names, DistinctTickets, Ticketed;
  }

  // ---- The desk, changed in place -----------------------------------------------------------------------------

  class ImportDesk {
    var quotes: seq<Quote>
    var imports: seq<Imported>
    var requests: seq<Request>
    var wallets: map<Account, Wallet>
    var operations: seq<Operation>

    function Contents(): Store
      reads this
    {
      Store(quotes, imports, requests, wallets, operations)
    }

    constructor (wallets: map<Account, Wallet>)
      ensures Contents() == Store([], [], [], wallets, [])
    {
      quotes, imports, requests, operations := [], [], [], [];
      this.wallets := wallets;
    }

    method ChargeWallet(account: Account, subject: Id, amount: int) returns (operation: Result<Id, Failure>)
      modifies this`wallets, this`operations
      ensures var charged := Charge(old(Contents()), account, subject, amount);
              if charged.Err? then Contents() == old(Contents()) && operation == Err(charged.error)
              else Contents() == charged.value && operation == Ok(|old(operations)|)
      ensures operation == Err(WalletAccountNotFound) <==> account !in old(wallets)
      ensures operation == Err(WalletFrozen) <==> account in old(wallets) && !old(wallets)[account].active
      ensures operation == Err(InsufficientFunds) <==>
                account in old(wallets) && old(wallets)[account].active && old(wallets)[account].available < amount
      ensures operation.Err? ==> wallets == old(wallets) && operations == old(operations) &&
                                 operation.error in {WalletAccountNotFound, WalletFrozen, InsufficientFunds}
      ensures operation.Ok? ==>
                && wallets == old(wallets)[account := old(wallets)[account].(available := old(wallets)[account].available - amount)]
                && operations == old(operations) + [Operation(account, subject, amount)] && operation.value == |old(operations)|
    {
      if account !in wallets {
        return Err(WalletAccountNotFound);
      }
      var wallet := wallets[account];
      if !wallet.active {
        return Err(WalletFrozen);
      }
      if wallet.available < amount {
        return Err(InsufficientFunds);
      }
      wallets := wallets[account := wallet.(available := wallet.available - amount)];
      operations := operations + [Operation(account, subject, amount)];
      operation := Ok(|operations| - 1);
    }

    method PrepareQuote(actor: Id, content: Content, authorize: bool, found: Findings, now: int) returns (quote: Result<Id, Failure>)
      modifies this`quotes
      ensures (Contents(), quote) == Prepare(old(Contents()), actor, content, authorize, found, now)
      // A quote is kept exactly for complete, agreeing data; it may be authorised only for confirmed evidence.
      ensures quote.Ok? <==> Quotable(content, authorize, found, now)
      ensures quote.Ok? ==>
                && quote.value == old(|quotes|) && quotes == old(quotes) + [quotes[quote.value]]
                && var row := quotes[quote.value];
                   && row.actor == actor && found.agency == Some(row.content.agency) && row.content.(agency := content.agency) == content
                   && (row.authorized <==> authorize) && (row.authorized ==> row.content.lifecycle == Confirmed)
                   && row.expires == now + QUOTE_LIFE
      ensures quote.Err? ==> quotes == old(quotes)
    {
      QuotedExactlyWhen(content, authorize, found, now);
      hide Quotable, ProviderAllowed, AmountsValid, EvidenceFailure;
      if !ProviderAllowed(content.source, content.provider) || !AmountsValid(content) || !found.dataValid {
        return Err(InvalidImportData);
      }
      if content.travellers == 0 || content.travellers > MOST_TRAVELLERS {
        return Err(InvalidImportData);
      }
      if content.lifecycle == Confirmed {
        var evidence := CheckEvidence(content.travellers, content.tickets, content.issued, now);
        if evidence.Some? {
          return Err(evidence.value);
        }
        if content.source != AirlineExport && content.issued.NoTime? {
          return Err(CompleteEvidenceRequired);
        }
      } else if !NoTickets(content.tickets) {
        return Err(InvalidImportData);
      }
      if content.source != ManualEntry && !found.priceAgrees {
        return Err(PricingChanged);
      }
      if !found.assignable {
        return Err(InvalidAssignee);
      }
      if found.agency.None? {
        return Err(AgencyRequired);
      }
      if authorize && content.lifecycle != Confirmed {
        return Err(ChargeDecisionNotApplicable);
      }
      quotes := quotes + [Quote(actor, content.(agency := found.agency.value), authorize, now + QUOTE_LIFE)];
      quote := Ok(|quotes| - 1);
    }

    method AuthorizeQuote(actor: Id, quote: Id, confirmation: Id, now: int) returns (authorization: Result<Id, Failure>)
      modifies this`quotes
      ensures (Contents(), authorization) == Authorize(old(Contents()), actor, quote, confirmation, now)
      // One quote is marked, exactly when two live quotes of the actor say the same thing and a charge
      // that it would allow can be paid or was already taken.
      ensures authorization.Ok? <==> Authorizable(old(Contents()), actor, quote, confirmation, now)
      ensures authorization.Ok? ==> authorization.value == quote
      ensures |quotes| == old(|quotes|)
      ensures forall q :: 0 <= q < |quotes| ==>
                quotes[q] == old(quotes)[q].(authorized := old(quotes)[q].authorized || (authorization.Ok? && q == quote))
    {
      AuthorizedExactlyWhen(Contents(), actor, quote, confirmation, now);
      hide Authorizable, Captured;
      if quote >= |quotes| || confirmation >= |quotes| {
        return Err(PricingChanged);
      }
      var mine, other := quotes[quote], quotes[confirmation];
      if mine.actor != actor || other.actor != mine.actor {
        return Err(PricingChanged);
      }
      if mine.content != other.content || mine.expires <= now || other.expires <= now {
        return Err(PricingChanged);
      }
      if mine.content.lifecycle == Confirmed && !Captured(Contents(), actor, mine.content) {
        var account := Account(mine.content.agency, mine.content.currency);
        if account !in wallets {
          return Err(WalletAccountNotFound);
        }
        if !wallets[account].active {
          return Err(WalletFrozen);
        }
        if wallets[account].available < mine.content.payable {
          return Err(InsufficientFunds);
        }
      }
      quotes := quotes[quote := quotes[quote].(authorized := true)];
      authorization := Ok(quote);
    }

    // The checks on the quote, its authorisation and the references it would take.
    method CheckImport(ask: Ask, now: int) returns (failure: Option<Failure>)
      requires ask.quote < |quotes|
      ensures failure == ImportFailure(Contents(), ask, now)
      ensures failure.None? <==> Admissible(Contents(), ask, now)
      ensures failure == AdmissionRefusal(Contents(), ask, now)
    {
      AdmittedExactlyWhen(Contents(), ask, now);
      RefusedForAdmission(Contents(), ask, now);
      hide Admissible, AdmissionRefusal, FreshlyAuthorized, ReferenceTaken, BookingReferenceTaken;
      var quote := quotes[ask.quote];
      var content := quote.content;
      if quote.expires < now {
        return Some(QuoteExpired);
      }
      if ask.currentAgency != Some(content.agency) {
        return Some(AssigneeMismatch);
      }
      if ask.charge != (content.lifecycle == Confirmed) {
        return Some(ConfirmedRequiresCharge);
      }
      if ask.charge && content.source != ManualEntry && !FreshlyAuthorized(Contents(), ask, content, now) {
        return Some(FreshAuthorizationRequired);
      }
      if ReferenceTaken(imports, content.provider, content.reference) || ask.nativeReference {
        return Some(AlreadyImported);
      }
      if content.bookingReference.None? {
        return Some(ReferenceEvidenceRequired);
      }
      if ask.nativeBooking || BookingReferenceTaken(imports, content.bookingReference.value) {
        return Some(AlreadyImported);
      }
      failure := None;
    }

    method ImportBooking(ask: Ask, now: int) returns (receipt: Receipt)
      modifies this`imports, this`requests, this`wallets, this`operations
      ensures (Contents(), receipt) == Import(old(Contents()), ask, now)
      // One import and one request row are added exactly when every condition holds, and otherwise nothing
      // changes; a request seen before is answered by its import or refused, and by nothing else.
      ensures receipt.Created? <==> ImportPossible(old(Contents()), ask, now)
      ensures receipt.Created? ==> receipt.booking == |old(imports)| && ImportAdded(old(Contents()), ask, Contents())
      ensures receipt.Refused? && receipt.failure != RequestIdentityMismatch ==>
                ImportRefusal(old(Contents()), ask, now) == Some(receipt.failure)
      ensures !receipt.Created? ==> Contents() == old(Contents())
      ensures receipt.Replayed? || receipt == Refused(RequestIdentityMismatch) <==>
                OwnQuote(old(Contents()), ask) && RequestKnown(old(requests), ask.actor, ask.request)
      ensures receipt.Replayed? || receipt == Refused(RequestIdentityMismatch) ==> AnsweredBy(old(Contents()), ask, receipt)
    {
      ImportedExactlyWhen(Contents(), ask, now);
      hide ImportPossible, ImportAdded, ImportRefusal, AnsweredBy, RequestKnown, FindRequest, ImportFailure, Admissible;
      if ask.quote >= |quotes| || quotes[ask.quote].actor != ask.actor {
        return Refused(InvalidImportData);
      }
      var content := quotes[ask.quote].content;
      var previous := FindRequest(requests, ask.actor, ask.request);
      if previous.Some? {
        if requests[previous.value].content != content {
          return Refused(RequestIdentityMismatch);
        }
        return Replayed(requests[previous.value].booking);
      }
      var failure := CheckImport(ask, now);
      if failure.Some? {
        return Refused(failure.value);
      }
      ImportAdmits(Contents(), ask, now);
      var id := |imports|;
      var operation := None;
      if ask.charge {
        var charged := ChargeWallet(Account(content.agency, content.currency), id, content.payable);
        if charged.Err? {
          return Refused(charged.error);
        }
        operation := Some(charged.value);
      }
      imports := imports + [Imported(ask.quote, ask.actor, content, content.bookingReference.value, content.tickets, content.issued,
                                     content.lifecycle, operation, ask.charge, 1)];
      requests := requests + [Request(ask.actor, ask.request, content, id)];
      receipt := Created(id);
    }

    method MoveStatus(change: Change) returns (moved: Result<Id, Failure>)
      modifies this`imports, this`wallets, this`operations
      ensures (Contents(), moved) == ChangeStatus(old(Contents()), change)
      // The import named moves exactly when no requirement fails, the first failing one is told, and then nothing changes.
      ensures (forall id: Id :: !Names(old(imports), change.reference, id)) ==> moved == Err(InvalidImportData)
      ensures forall id: Id :: Names(old(imports), change.reference, id) ==>
                var refusal := MoveRefusal(old(Contents()), id, change);
                if refusal.Some? then moved == Err(refusal.value)
                else moved == Ok(id) && StatusMovedTo(old(Contents()), id, change, Contents())
      ensures moved.Err? ==> Contents() == old(Contents())
    {
      MovedExactlyWhen(Contents(), change);
      hide Names, MoveRefusal, StatusMovedTo, FindReference;
      var found := FindReference(imports, change.reference);
      if found.None? {
        return Err(InvalidImportData);
      }
      var id, row := found.value, imports[found.value];
      if change.status == Confirmed && row.content.source != AirlineExport && change.issued.NoTime? {
        return Err(CompleteEvidenceRequired);
      }
      if row.version != change.expected {
        return Err(VersionChanged);
      }
      if row.status != OnHold || change.status == OnHold {
        return Err(StatusNotAllowed);
      }
      var operation := None;
      if change.status == Confirmed {
        var evidence := CheckEvidence(row.content.travellers, change.tickets, change.issued, change.now);
        if evidence.Some? {
          return Err(evidence.value);
        }
        var charged := ChargeWallet(Account(row.content.agency, row.content.currency), id, row.content.payable);
        if charged.Err? {
          return Err(charged.error);
        }
        operation := Some(charged.value);
      }
      imports := imports[id := Moved(row, change, operation)];
      moved := Ok(id);
    }
  }

  // ---- Runs ------------------------------------------------------------------------------------------------

  datatype Event =
    | Preparing(actor: Id, content: Content, authorize: bool, found: Findings, now: int)
    | Authorizing(actor: Id, quote: Id, confirmation: Id, now: int)
    | Importing(ask: Ask, now: int)
    | Moving(change: Change)
    | Depositing(account: Account, amount: int)
    | Freezing(account: Account, active: bool)

  ghost predicate Step(store: Store, event: Event, next: Store) {
    match event
    case Preparing(actor, content, authorize, found, now) => next == Prepare(store, actor, content, authorize, found, now).0
    case Authorizing(actor, quote, confirmation, now) => next == Authorize(store, actor, quote, confirmation, now).0
    case Importing(ask, now) => next == Import(store, ask, now).0
    case Moving(change) => next == ChangeStatus(store, change).0
    case Depositing(account, amount) =>
      && account in store.wallets && amount > 0
      && var wallet := store.wallets[account];
         next == store.(wallets := store.wallets[account :=
           wallet.(available := wallet.available + amount, deposited := wallet.deposited + amount)])
    case Freezing(account, active) =>
      account in store.wallets && next == store.(wallets := store.wallets[account := store.wallets[account].(active := active)])
  }

  ghost predicate Initial(store: Store) {
    && store.quotes == [] && store.imports == [] && store.requests == [] && store.operations == []
    && forall account :: account in store.wallets ==> store.wallets[account].available == store.wallets[account].deposited == 0
  }

  ghost predicate Run(states: seq<Store>, events: seq<Event>) {
    && |states| == |events| + 1
    && Initial(states[0])
    && forall i, j {:trigger events[i], states[j]} :: 0 <= i < |events| && j == i + 1 ==> Step(states[i], events[i], states[j])
  }

  function CapturedFrom(operations: seq<Operation>, account: Account): int {
    if operations == [] then 0
    else
      var last := operations[|operations| - 1];
      CapturedFrom(operations[..|operations| - 1], account) + if last.account == account then last.amount else 0
  }

  function AccountOf(row: Imported): Account {
    Account(row.content.agency, row.content.currency)
  }

  // What the confirmed imports of one account are worth.
  function Owed(imports: seq<Imported>, account: Account): int {
    if imports == [] then 0
    else
      var last := imports[|imports| - 1];
      Owed(imports[..|imports| - 1], account) + if last.status == Confirmed && AccountOf(last) == account then last.content.payable else 0
  }

  // A confirmed import has its own operation, for its own account and price, and nothing else does.
  ghost predicate ChargesSound(store: Store) {
    && (forall i :: 0 <= i < |store.imports| ==>
          var row := store.imports[i];
          && (row.operation.Some? <==> row.status == Confirmed)
          && (row.issued <==> row.status == Confirmed)
          && (row.operation.Some? ==>
                && row.operation.value < |store.operations|
                && store.operations[row.operation.value] == Operation(AccountOf(row), i, row.content.payable)))
    && (forall o :: 0 <= o < |store.operations| ==>
          && store.operations[o].subject < |store.imports|
          && store.imports[store.operations[o].subject].operation == Some(o))
  }

  ghost predicate IdentitiesSound(store: Store) {
    && (forall i, j :: 0 <= i < j < |store.imports| ==>
          && store.imports[i].bookingReference != store.imports[j].bookingReference
          && (store.imports[i].content.provider != store.imports[j].content.provider ||
              store.imports[i].content.reference != store.imports[j].content.reference))
    && |store.requests| == |store.imports|
    && (forall r :: 0 <= r < |store.requests| ==>
          && store.requests[r].booking == r
          && store.requests[r].content == store.imports[r].content
          && store.requests[r].actor == store.imports[r].creator)
    && (forall q, r :: 0 <= q < r < |store.requests| ==>
          store.requests[q].actor != store.requests[r].actor || store.requests[q].request != store.requests[r].request)
    && (forall i :: 0 <= i < |store.imports| ==>
          && store.imports[i].quote < |store.quotes|
          && store.quotes[store.imports[i].quote].content == store.imports[i].content
          && store.quotes[store.imports[i].quote].actor == store.imports[i].creator)
  }

  ghost predicate MoneySound(store: Store) {
    && (forall account :: CapturedFrom(store.operations, account) == Owed(store.imports, account))
    && (forall account :: account in store.wallets ==>
          && store.wallets[account].available >= 0
          && store.wallets[account].available + CapturedFrom(store.operations, account) == store.wallets[account].deposited)
    && (forall account :: account !in store.wallets ==> CapturedFrom(store.operations, account) == 0)
  }

  ghost predicate Safe(store: Store) {
    ChargesSound(store) && IdentitiesSound(store) && MoneySound(store)
  }

  lemma CapturedMore(operations: seq<Operation>, operation: Operation, account: Account)
    ensures CapturedFrom(operations + [operation], account) ==
            CapturedFrom(operations, account) + if operation.account == account then operation.amount else 0
  {
    assert (operations + [operation])[..|operations|] == operations;
  }

  lemma OwedMore(imports: seq<Imported>, row: Imported, account: Account)
    ensures Owed(imports + [row], account) ==
            Owed(imports, account) + if row.status == Confirmed && AccountOf(row) == account then row.content.payable else 0
  {
    assert (imports + [row])[..|imports|] == imports;
  }

  lemma {:induction false} OwedMoved(imports: seq<Imported>, id: Id, row: Imported, account: Account)
    requires id < |imports| && imports[id].status != Confirmed && row.content == imports[id].content
    ensures Owed(imports[id := row], account) ==
            Owed(imports, account) + if row.status == Confirmed && AccountOf(row) == account then row.content.payable else 0
  {
    var n := |imports| - 1;
    if id < n {
      OwedMoved(imports[..n], id, row, account);
      assert imports[id := row][..n] == imports[..n][id := row];
    } else {
      assert imports[id := row][..n] == imports[..n];
    }
  }

  // ---- Importing ----------------------------------------------------------------------------------------------

  lemma ChargeEffect(store: Store, account: Account, subject: Id, amount: int)
    requires Charge(store, account, subject, amount).Ok?
    ensures var next := Charge(store, account, subject, amount).value;
            && account in store.wallets && store.wallets[account].available >= amount
            && next.quotes == store.quotes && next.imports == store.imports && next.requests == store.requests
            && next.operations == store.operations + [Operation(account, subject, amount)]
            && next.wallets == store.wallets[account := store.wallets[account].(available := store.wallets[account].available - amount)]
  {
  }

  lemma RecordKeepsIdentities(store: Store, ask: Ask, row: Imported, next: Store)
    requires IdentitiesSound(store)
    requires next.quotes == store.quotes && next.imports == store.imports + [row]
    requires next.requests == store.requests + [Request(ask.actor, ask.request, row.content, |store.imports|)]
    requires row.creator == ask.actor && row.quote < |store.quotes|
    requires store.quotes[row.quote].content == row.content && store.quotes[row.quote].actor == ask.actor
    requires FindRequest(store.requests, ask.actor, ask.request).None?
    requires !ReferenceTaken(store.imports, row.content.provider, row.content.reference)
    requires !BookingReferenceTaken(store.imports, row.bookingReference)
    ensures IdentitiesSound(next)
  {
    hide FindRequest;
    forall i | 0 <= i < |store.imports|
      ensures store.imports[i].bookingReference != row.bookingReference
      ensures store.imports[i].content.provider != row.content.provider || store.imports[i].content.reference != row.content.reference
    {
    }
  }

  lemma FreeImportKeeps(store: Store, row: Imported, next: Store)
    requires ChargesSound(store) && MoneySound(store)
    requires next.imports == store.imports + [row] && next.operations == store.operations && next.wallets == store.wallets
    requires row.operation.None? && row.status != Confirmed && !row.issued
    ensures ChargesSound(next) && MoneySound(next)
  {
    forall account ensures CapturedFrom(next.operations, account) == Owed(next.imports, account) {
      OwedMore(store.imports, row, account);
    }
    hide Owed, CapturedFrom;
  }

  lemma PaidImportKeeps(store: Store, row: Imported, next: Store)
    requires ChargesSound(store) && MoneySound(store)
    requires row.status == Confirmed && row.issued && row.operation == Some(|store.operations|)
    requires AccountOf(row) in store.wallets && store.wallets[AccountOf(row)].available >= row.content.payable
    requires next.imports == store.imports + [row]
    requires next.operations == store.operations + [Operation(AccountOf(row), |store.imports|, row.content.payable)]
    requires next.wallets == store.wallets[AccountOf(row) :=
               store.wallets[AccountOf(row)].(available := store.wallets[AccountOf(row)].available - row.content.payable)]
    ensures ChargesSound(next) && MoneySound(next)
  {
    forall account
      ensures CapturedFrom(next.operations, account) ==
              CapturedFrom(store.operations, account) + if AccountOf(row) == account then row.content.payable else 0
      ensures CapturedFrom(next.operations, account) == Owed(next.imports, account)
    {
      OwedMore(store.imports, row, account);
      CapturedMore(store.operations, Operation(AccountOf(row), |store.imports|, row.content.payable), account);
    }
    hide Owed, CapturedFrom;
  }

  // What a created import rests on, and what it adds.
  lemma ImportCreated(store: Store, ask: Ask, now: int)
    requires Import(store, ask, now).1.Created?
    ensures ask.quote < |store.quotes| && store.quotes[ask.quote].actor == ask.actor
    ensures FindRequest(store.requests, ask.actor, ask.request).None? && ImportFailure(store, ask, now).None?
    ensures store.quotes[ask.quote].content.bookingReference.Some?
    ensures var content := store.quotes[ask.quote].content;
            if ask.charge then
              && Charge(store, Account(content.agency, content.currency), |store.imports|, content.payable).Ok?
              && Import(store, ask, now).0 ==
                 Recorded(Charge(store, Account(content.agency, content.currency), |store.imports|, content.payable).value,
                          ask, NewImport(store, ask, Some(|store.operations|)))
            else Import(store, ask, now).0 == Recorded(store, ask, NewImport(store, ask, None))
  {
    ImportAdmits(store, ask, now);
    hide FindRequest, ImportFailure, Recorded, NewImport, Charge;
  }

  lemma ImportAdmits(store: Store, ask: Ask, now: int)
    ensures ask.quote < |store.quotes| && ImportFailure(store, ask, now).None? ==>
              var content := store.quotes[ask.quote].content;
              && content.bookingReference.Some? && ask.charge == (content.lifecycle == Confirmed)
              && !ReferenceTaken(store.imports, content.provider, content.reference)
              && !BookingReferenceTaken(store.imports, content.bookingReference.value)
  {
    hide ReferenceTaken, BookingReferenceTaken, FreshlyAuthorized;
  }

  lemma ImportIsSafe(store: Store, ask: Ask, now: int)
    requires Safe(store)
    ensures Safe(Import(store, ask, now).0)
  {
    var done := Import(store, ask, now);
    if done.1.Created? {
      ImportCreated(store, ask, now);
      ImportAdmits(store, ask, now);
      var content := store.quotes[ask.quote].content;
      var row := NewImport(store, ask, if ask.charge then Some(|store.operations|) else None);
      hide Import, ImportFailure, Safe, ChargesSound, IdentitiesSound, MoneySound, FindRequest, ReferenceTaken, BookingReferenceTaken;
      SafeParts(store);
      if ask.charge {
        ChargeEffect(store, Account(content.agency, content.currency), |store.imports|, content.payable);
        hide Charge;
        PaidImportKeeps(store, row, done.0);
      } else {
        FreeImportKeeps(store, row, done.0);
      }
      RecordKeepsIdentities(store, ask, row, done.0);
      PartsSafe(done.0);
    } else {
      hide Safe, FindRequest, ImportFailure, Charge;
    }
  }

  lemma SafeParts(store: Store)
    requires Safe(store)
    ensures ChargesSound(store) && IdentitiesSound(store) && MoneySound(store)
  {
  }

  lemma PartsSafe(store: Store)
    requires ChargesSound(store) && IdentitiesSound(store) && MoneySound(store)
    ensures Safe(store)
  {
  }

  // ---- Changing a status ----------------------------------------------------------------------------------------

  lemma MoveKeepsIdentities(store: Store, id: Id, row: Imported, next: Store)
    requires IdentitiesSound(store) && id < |store.imports|
    requires next.quotes == store.quotes && next.requests == store.requests && next.imports == store.imports[id := row]
    requires row.content == store.imports[id].content && row.bookingReference == store.imports[id].bookingReference
    requires row.creator == store.imports[id].creator && row.quote == store.imports[id].quote
    ensures IdentitiesSound(next)
  {
  }

  lemma CloseKeeps(store: Store, id: Id, row: Imported, next: Store)
    requires ChargesSound(store) && MoneySound(store) && id < |store.imports|
    requires store.imports[id].status == OnHold && row.status != Confirmed && row.operation.None? && !row.issued
    requires row.content == store.imports[id].content
    requires next.imports == store.imports[id := row] && next.operations == store.operations && next.wallets == store.wallets
    ensures ChargesSound(next) && MoneySound(next)
  {
    forall account ensures CapturedFrom(next.operations, account) == Owed(next.imports, account) {
      OwedMoved(store.imports, id, row, account);
    }
    hide Owed, CapturedFrom;
  }

  lemma ConfirmKeeps(store: Store, id: Id, row: Imported, next: Store)
    requires ChargesSound(store) && MoneySound(store) && id < |store.imports|
    requires store.imports[id].status == OnHold && row.status == Confirmed && row.issued
    requires row.operation == Some(|store.operations|) && row.content == store.imports[id].content
    requires AccountOf(row) in store.wallets && store.wallets[AccountOf(row)].available >= row.content.payable
    requires next.imports == store.imports[id := row]
    requires next.operations == store.operations + [Operation(AccountOf(row), id, row.content.payable)]
    requires next.wallets == store.wallets[AccountOf(row) :=
               store.wallets[AccountOf(row)].(available := store.wallets[AccountOf(row)].available - row.content.payable)]
    ensures ChargesSound(next) && MoneySound(next)
  {
    forall account
      ensures CapturedFrom(next.operations, account) ==
              CapturedFrom(store.operations, account) + if AccountOf(row) == account then row.content.payable else 0
      ensures CapturedFrom(next.operations, account) == Owed(next.imports, account)
    {
      OwedMoved(store.imports, id, row, account);
      CapturedMore(store.operations, Operation(AccountOf(row), id, row.content.payable), account);
    }
    hide Owed, CapturedFrom;
  }

  // What a moved import rests on, and what it becomes.
  lemma StatusMoved(store: Store, change: Change)
    requires ChangeStatus(store, change).1.Ok?
    ensures var id := ChangeStatus(store, change).1.value;
            && id < |store.imports| && store.imports[id].status == OnHold
            && var row := store.imports[id];
               if change.status == Confirmed then
                 && Charge(store, AccountOf(row), id, row.content.payable).Ok?
                 && var charged := Charge(store, AccountOf(row), id, row.content.payable).value;
                    ChangeStatus(store, change).0 ==
                    charged.(imports := store.imports[id := Moved(row, change, Some(|store.operations|))])
               else ChangeStatus(store, change).0 == store.(imports := store.imports[id := Moved(row, change, None)])
  {
    hide FindReference, Charge, Moved;
  }

  lemma StatusIsSafe(store: Store, change: Change)
    requires Safe(store)
    ensures Safe(ChangeStatus(store, change).0)
  {
    var done := ChangeStatus(store, change);
    hide Safe, ChargesSound, IdentitiesSound, MoneySound, FindReference;
    if done.1.Ok? {
      StatusMoved(store, change);
      hide ChangeStatus;
      var id := done.1.value;
      var row := store.imports[id];
      SafeParts(store);
      var moved := done.0.imports[id];
      if change.status == Confirmed {
        ChargeEffect(store, AccountOf(row), id, row.content.payable);
        hide Charge;
        ConfirmKeeps(store, id, moved, done.0);
      } else {
        CloseKeeps(store, id, moved, done.0);
      }
      MoveKeepsIdentities(store, id, moved, done.0);
      PartsSafe(done.0);
    } else {
      hide Charge;
    }
  }

  lemma QuotesAreSafe(store: Store, next: Store)
    requires Safe(store)
    requires next.imports == store.imports && next.requests == store.requests
    requires next.operations == store.operations && next.wallets == store.wallets
    requires |store.quotes| <= |next.quotes|
    requires forall q :: 0 <= q < |store.quotes| ==>
               next.quotes[q].content == store.quotes[q].content && next.quotes[q].actor == store.quotes[q].actor
    ensures Safe(next)
  {
  }

  lemma WalletsAreSafe(store: Store, account: Account, paid: int, active: bool, next: Store)
    requires Safe(store) && account in store.wallets && paid >= 0
    requires var wallet := store.wallets[account];
             next == store.(wallets := store.wallets[account := Wallet(active, wallet.available + paid, wallet.deposited + paid)])
    ensures Safe(next)
  {
    hide CapturedFrom, Owed;
  }

  lemma StepIsSafe(store: Store, event: Event, next: Store)
    requires Safe(store) && Step(store, event, next)
    ensures Safe(next)
  {
    hide Safe, Import, ChangeStatus, AuthorizeFailure, PrepareFailure;
    match event
    case Preparing(_, _, _, _, _) => QuotesAreSafe(store, next);
    case Authorizing(actor, quote, confirmation, now) => AuthorizeFound(store, actor, quote, confirmation, now); QuotesAreSafe(store, next);
    case Importing(ask, now) => ImportIsSafe(store, ask, now);
    case Moving(change) => StatusIsSafe(store, change);
    case Depositing(account, amount) => WalletsAreSafe(store, account, amount, store.wallets[account].active, next);
    case Freezing(account, active) => WalletsAreSafe(store, account, 0, active, next);
  }

  lemma AuthorizeFound(store: Store, actor: Id, quote: Id, confirmation: Id, now: int)
    ensures AuthorizeFailure(store, actor, quote, confirmation, now).None? ==> quote < |store.quotes|
  {
  }

  lemma {:induction false} RunIsSafe(states: seq<Store>, events: seq<Event>, i: nat)
    requires Run(states, events) && i < |states|
    ensures Safe(states[i])
    decreases i
  {
    if i > 0 {
      RunIsSafe(states, events, i - 1);
      assert Step(states[i - 1], events[i - 1], states[i]);
      StepIsSafe(states[i - 1], events[i - 1], states[i]);
    }
  }

  // ---- Main results -----------------------------------------------------------------------------------------

  // Over any run of imports, replays, duplicates and status changes an import is charged exactly when
  // it is confirmed, by one operation of its own price, and no wallet operation is without an import.
  lemma ChargedExactlyOnce(states: seq<Store>, events: seq<Event>, i: nat, id: Id)
    requires Run(states, events) && i < |states| && id < |states[i].imports|
    ensures var store := states[i];
            var row := store.imports[id];
            && (row.status == Confirmed <==> row.operation.Some?)
            && (row.status == Confirmed ==>
                  && row.operation.value < |store.operations|
                  && store.operations[row.operation.value] == Operation(AccountOf(row), id, row.content.payable))
            && (forall o :: 0 <= o < |store.operations| && store.operations[o].subject == id ==> row.operation == Some(o))
            && (forall o :: 0 <= o < |store.operations| ==> store.operations[o].subject < |store.imports|)
  {
    RunIsSafe(states, events, i);
    hide Run, IdentitiesSound, MoneySound;
  }

  // In every account the captured total is the price of its confirmed imports, and with the balance
  // it makes up everything ever deposited.
  lemma MoneyIsConserved(states: seq<Store>, events: seq<Event>, i: nat, account: Account)
    requires Run(states, events) && i < |states|
    ensures var store := states[i];
            && CapturedFrom(store.operations, account) == Owed(store.imports, account)
            && (account in store.wallets ==>
                  && 0 <= store.wallets[account].available
                  && store.wallets[account].available + Owed(store.imports, account) == store.wallets[account].deposited)
  {
    RunIsSafe(states, events, i);
    hide Run, IdentitiesSound, ChargesSound;
  }

  // One import per supplier reference, per booking reference and per request.
  lemma ImportedOnce(states: seq<Store>, events: seq<Event>, i: nat, a: Id, b: Id)
    requires Run(states, events) && i < |states| && a < |states[i].imports| && b < |states[i].imports|
    ensures var x, y := states[i].imports[a], states[i].imports[b];
            && (x.content.provider == y.content.provider && x.content.reference == y.content.reference ==> a == b)
            && (x.bookingReference == y.bookingReference ==> a == b)
    ensures |states[i].requests| == |states[i].imports|
    ensures var x, y := states[i].requests[a], states[i].requests[b];
            && x.booking == a
            && (x.actor == y.actor && x.request == y.request ==> a == b)
  {
    RunIsSafe(states, events, i);
    hide Run, MoneySound, ChargesSound;
  }

  // Repeating a request changes nothing and answers with the import it made, whatever has happened
  // since; the same request with other content is refused.
  lemma ReplayChangesNothing(store: Store, ask: Ask, now: int, id: Id)
    requires Safe(store) && id < |store.requests|
    requires store.requests[id].actor == ask.actor && store.requests[id].request == ask.request
    requires ask.quote < |store.quotes| && store.quotes[ask.quote].actor == ask.actor
    ensures Import(store, ask, now) ==
            (store, if store.quotes[ask.quote].content == store.imports[id].content then Replayed(id)
                    else Refused(RequestIdentityMismatch))
  {
    var previous := FindRequest(store.requests, ask.actor, ask.request);
    assert previous.Some?;
    hide FindRequest, MoneySound, ChargesSound, ImportFailure;
    if previous.value < id {
    } else if id < previous.value {
    }
  }

  // ---- Ticket evidence over runs -------------------------------------------------------------------------------

  // Confirmed evidence has its tickets and a time of issue, which an airline's export may leave out; any
  // other has no tickets.
  predicate Evidenced(content: Content, status: Status, tickets: Value, issued: IssueTime) {
    if status == Confirmed
    then Ticketed(content.travellers, tickets) && !issued.Unreadable? && (content.source != AirlineExport ==> issued.At?)
    else NoTickets(tickets)
  }

  ghost predicate EvidenceSound(store: Store) {
    && (forall q :: 0 <= q < |store.quotes| ==>
          var content := store.quotes[q].content;
          Evidenced(content, content.lifecycle, content.tickets, content.issued))
    && (forall i :: 0 <= i < |store.imports| ==>
          var row := store.imports[i];
          Evidenced(row.content, row.status, row.tickets, row.issuedAt))
  }

  lemma QuotableIsEvidenced(content: Content, authorize: bool, found: Findings, now: int)
    requires PrepareFailure(content, authorize, found, now).None?
    ensures Evidenced(content, content.lifecycle, content.tickets, content.issued)
  {
    QuotedExactlyWhen(content, authorize, found, now);
    hide PrepareFailure, ProviderAllowed, AmountsValid, Ticketed;
  }

  lemma PrepareEvidenced(store: Store, actor: Id, content: Content, authorize: bool, found: Findings, now: int)
    requires EvidenceSound(store)
    ensures EvidenceSound(Prepare(store, actor, content, authorize, found, now).0)
  {
    if PrepareFailure(content, authorize, found, now).None? {
      QuotableIsEvidenced(content, authorize, found, now);
    }
    hide PrepareFailure, Ticketed, NoTickets;
  }

  lemma ImportEvidenced(store: Store, ask: Ask, now: int)
    requires EvidenceSound(store)
    ensures EvidenceSound(Import(store, ask, now).0)
  {
    var done := Import(store, ask, now);
    if done.1.Created? {
      ImportCreated(store, ask, now);
      if ask.charge {
        var content := store.quotes[ask.quote].content;
        ChargeEffect(store, Account(content.agency, content.currency), |store.imports|, content.payable);
      }
      hide Import, ImportFailure, Charge, FindRequest, Evidenced;
    } else {
      hide EvidenceSound, FindRequest, ImportFailure, Charge;
    }
  }

  lemma GivenIsEvidenced(content: Content, tickets: Value, issued: IssueTime, now: int)
    requires EvidenceFailure(content.travellers, tickets, issued, now).None?
    requires content.source != AirlineExport ==> !issued.NoTime?
    ensures Evidenced(content, Confirmed, tickets, issued)
  {
    hide DistinctTickets;
  }

  lemma ConfirmedGiven(store: Store, change: Change)
    requires ChangeStatus(store, change).1.Ok? && change.status == Confirmed
    ensures var id := ChangeStatus(store, change).1.value;
            && id < |store.imports|
            && Evidenced(store.imports[id].content, Confirmed, change.tickets, change.issued)
  {
    var id := ChangeStatus(store, change).1.value;
    GivenIsEvidenced(store.imports[id].content, change.tickets, change.issued, change.now);
    hide FindReference, EvidenceFailure, Charge, Evidenced;
  }

  lemma StatusEvidenced(store: Store, change: Change)
    requires EvidenceSound(store)
    ensures EvidenceSound(ChangeStatus(store, change).0)
  {
    var done := ChangeStatus(store, change);
    if done.1.Ok? {
      StatusMoved(store, change);
      var id := done.1.value;
      if change.status == Confirmed {
        ConfirmedGiven(store, change);
        ChargeEffect(store, AccountOf(store.imports[id]), id, store.imports[id].content.payable);
      }
      hide ChangeStatus, Charge, Ticketed, NoTickets, FindReference;
    } else {
      hide EvidenceSound, FindReference, EvidenceFailure, Charge;
    }
  }

  lemma {:induction false} RunIsEvidenced(states: seq<Store>, events: seq<Event>, i: nat)
    requires Run(states, events) && i < |states|
    ensures EvidenceSound(states[i])
    decreases i
  {
    if i > 0 {
      var store, event := states[i - 1], events[i - 1];
      RunIsEvidenced(states, events, i - 1);
      assert Step(store, event, states[i]);
      match event
      case Preparing(actor, content, authorize, found, now) => PrepareEvidenced(store, actor, content, authorize, found, now);
      case Authorizing(actor, quote, confirmation, now) => AuthorizeFound(store, actor, quote, confirmation, now);
      case Importing(ask, now) => ImportEvidenced(store, ask, now);
      case Moving(change) => StatusEvidenced(store, change);
      case _ =>
      hide Run, Prepare, Import, ChangeStatus, AuthorizeFailure, Evidenced;
    }
  }

  // Over any run a confirmed import holds one ticket number for every traveller, all different, and any
  // other holds none; a confirmed one that is not from an airline's export has a time of issue.
  lemma ConfirmedIsTicketed(states: seq<Store>, events: seq<Event>, i: nat, id: Id)
    requires Run(states, events) && i < |states| && id < |states[i].imports|
    ensures var row := states[i].imports[id];
            && (if row.status == Confirmed then Ticketed(row.content.travellers, row.tickets) else NoTickets(row.tickets))
            && (row.status == Confirmed && row.content.source != AirlineExport ==> row.issuedAt.At?)
  {
    RunIsEvidenced(states, events, i);
    hide Run, Ticketed, NoTickets;
  }

  // A decided import never changes again, and its price and owner never do.
  lemma {:induction false} DecidedStands(states: seq<Store>, events: seq<Event>, i: nat, j: nat, id: Id)
    requires Run(states, events) && i <= j < |states| && id < |states[i].imports|
    ensures id < |states[j].imports|
    ensures var was, now := states[i].imports[id], states[j].imports[id];
            && now.content == was.content && now.bookingReference == was.bookingReference && now.creator == was.creator
            && was.version <= now.version
            && (was.status != OnHold ==> now == was)
    decreases j
  {
    if i < j {
      DecidedStands(states, events, i, j - 1, id);
      assert Step(states[j - 1], events[j - 1], states[j]);
      StepKeepsImport(states[j - 1], events[j - 1], states[j], id);
    }
    hide Step;
  }

  lemma StepKeepsImport(store: Store, event: Event, next: Store, id: Id)
    requires Step(store, event, next) && id < |store.imports|
    ensures id < |next.imports|
    ensures var was, now := store.imports[id], next.imports[id];
            && now.content == was.content && now.bookingReference == was.bookingReference && now.creator == was.creator
            && was.version <= now.version
            && (was.status != OnHold ==> now == was)
  {
    hide ImportFailure, AuthorizeFailure, PrepareFailure, FindRequest, FindReference;
  }

  lemma QuotesStep(store: Store, event: Event, next: Store, quote: Id)
    requires Step(store, event, next) && quote < |next.quotes|
    requires next.quotes[quote].authorized && (quote < |store.quotes| ==> !store.quotes[quote].authorized)
    ensures || (event.Preparing? && event.authorize && quote == |store.quotes|)
            || (event.Authorizing? && event.quote == quote && AuthorizeFailure(store, event.actor, quote, event.confirmation, event.now).None?)
  {
    if event.Authorizing? {
      AuthorizeFound(store, event.actor, event.quote, event.confirmation, event.now);
    }
    hide ImportFailure, AuthorizeFailure, PrepareFailure, FindRequest, FindReference;
  }

  // The step at u authorises a quote: preparing it so, or confirming it later against a quote with
  // the same content, which may be the quote itself.
  ghost predicate Authorizes(states: seq<Store>, events: seq<Event>, u: nat, quote: Id)
    requires u < |events| <= |states|
  {
    || (events[u].Preparing? && events[u].authorize && quote == |states[u].quotes|)
    || (events[u].Authorizing? && events[u].quote == quote &&
        AuthorizeFailure(states[u], events[u].actor, quote, events[u].confirmation, events[u].now).None?)
  }

  lemma {:induction false} QuoteWasAuthorized(states: seq<Store>, events: seq<Event>, i: nat, quote: Id) returns (u: nat)
    requires Run(states, events) && i < |states| && quote < |states[i].quotes| && states[i].quotes[quote].authorized
    ensures u < i && Authorizes(states, events, u, quote)
    decreases i
  {
    var last := i - 1;
    assert Step(states[last], events[last], states[i]);
    if quote < |states[last].quotes| && states[last].quotes[quote].authorized {
      u := QuoteWasAuthorized(states, events, last, quote);
    } else {
      QuotesStep(states[last], events[last], states[i], quote);
      u := last;
    }
    hide Step, AuthorizeFailure;
  }

  // ---- Which charges were authorised -------------------------------------------------------------------------

  // The step at t records operation o.
  ghost predicate ChargedAt(states: seq<Store>, t: nat, o: Id) {
    t + 1 < |states| && |states[t].operations| == o && |states[t + 1].operations| == o + 1
  }

  // Before t somebody authorised a quote of this administrator with this very content.
  ghost predicate AuthorizedBefore(states: seq<Store>, events: seq<Event>, t: nat, actor: Id, content: Content)
    requires t < |events| <= |states|
  {
    exists quote: Id, u: nat ::
      && u < t && quote < |states[t].quotes|
      && states[t].quotes[quote].actor == actor && states[t].quotes[quote].content == content
      && states[t].quotes[quote].authorized && Authorizes(states, events, u, quote)
  }

  lemma OperationsStep(store: Store, event: Event, next: Store)
    requires Step(store, event, next)
    ensures next.operations == store.operations ||
            (&& |next.operations| == |store.operations| + 1 && next.operations[..|store.operations|] == store.operations
             && var subject := next.operations[|store.operations|].subject;
                || (event.Importing? && event.ask.charge && subject == |store.imports| && subject < |next.imports|
                    && event.ask.quote < |store.quotes| && store.quotes[event.ask.quote].actor == event.ask.actor
                    && ImportFailure(store, event.ask, event.now).None?
                    && next.imports[subject].content == store.quotes[event.ask.quote].content
                    && next.imports[subject].creator == event.ask.actor)
                || (event.Moving? && subject < |store.imports| && store.imports[subject].status == OnHold))
  {
    hide ImportFailure, AuthorizeFailure, PrepareFailure, FindRequest, FindReference;
  }

  lemma {:induction false} OperationWasCharged(states: seq<Store>, events: seq<Event>, i: nat, o: Id) returns (t: nat)
    requires Run(states, events) && i < |states| && o < |states[i].operations|
    ensures t < i && ChargedAt(states, t, o) && states[t + 1].operations[o] == states[i].operations[o]
    decreases i
  {
    var last := i - 1;
    assert Step(states[last], events[last], states[i]);
    OperationsStep(states[last], events[last], states[i]);
    if o < |states[last].operations| {
      t := OperationWasCharged(states, events, last, o);
      assert states[i].operations[o] == states[last].operations[o];
    } else {
      t := last;
    }
    hide Step, ImportFailure;
  }

  lemma {:induction false} OperationsGrow(states: seq<Store>, events: seq<Event>, i: nat, j: nat)
    requires Run(states, events) && i <= j < |states|
    ensures |states[i].operations| <= |states[j].operations|
    decreases j
  {
    if i < j {
      OperationsGrow(states, events, i, j - 1);
      assert Step(states[j - 1], events[j - 1], states[j]);
      OperationsStep(states[j - 1], events[j - 1], states[j]);
    }
    hide Step, ImportFailure;
  }

  lemma ChargedOnce(states: seq<Store>, events: seq<Event>, o: Id, t: nat, u: nat)
    requires Run(states, events) && ChargedAt(states, t, o) && ChargedAt(states, u, o)
    ensures t == u
  {
    if t < u {
      OperationsGrow(states, events, t + 1, u);
    } else if u < t {
      OperationsGrow(states, events, u + 1, t);
    }
    hide Run;
  }

  lemma StatusStep(store: Store, event: Event, next: Store, id: Id)
    requires Step(store, event, next) && id < |next.imports| && next.imports[id].status == OnHold
    ensures if id < |store.imports| then store.imports[id].status == OnHold && next.imports[id].content == store.imports[id].content
            else next.imports[id].content.lifecycle == OnHold
  {
    hide ImportFailure, AuthorizeFailure, PrepareFailure, FindRequest, FindReference;
  }

  // Only what was imported on hold is ever on hold.
  lemma {:induction false} OnHoldWasQuotedSo(states: seq<Store>, events: seq<Event>, i: nat, id: Id)
    requires Run(states, events) && i < |states| && id < |states[i].imports| && states[i].imports[id].status == OnHold
    ensures states[i].imports[id].content.lifecycle == OnHold
    decreases i
  {
    var last := i - 1;
    assert Step(states[last], events[last], states[i]);
    StatusStep(states[last], events[last], states[i], id);
    if id < |states[last].imports| {
      OnHoldWasQuotedSo(states, events, last, id);
    }
    hide Step;
  }

  // Every operation of a run comes from one step: an import quoted as confirmed is charged by its
  // Import, one quoted on hold by the Status change that confirms it, and no other is ever charged.
  lemma ChargeFollowsLifecycle(states: seq<Store>, events: seq<Event>, i: nat, o: Id) returns (t: nat)
    requires Run(states, events) && i < |states| && o < |states[i].operations|
    ensures t < i && ChargedAt(states, t, o)
    ensures states[i].operations[o].subject < |states[i].imports|
    ensures var content := states[i].imports[states[i].operations[o].subject].content;
            && (content.lifecycle == Confirmed <==> events[t].Importing?)
            && (content.lifecycle == OnHold <==> events[t].Moving?)
            && (events[t].Importing? || events[t].Moving?)
  {
    t := OperationWasCharged(states, events, i, o);
    RunIsSafe(states, events, i);
    var subject := states[i].operations[o].subject;
    assert Step(states[t], events[t], states[t + 1]);
    OperationsStep(states[t], events[t], states[t + 1]);
    if events[t].Importing? {
      ImportQuotedConfirmed(states[t], events[t].ask, events[t].now);
      DecidedStands(states, events, t + 1, i, subject);
    } else {
      OnHoldWasQuotedSo(states, events, t, subject);
      DecidedStands(states, events, t, i, subject);
    }
    hide Run, Step, IdentitiesSound, MoneySound, ImportFailure;
  }

  lemma ImportQuotedConfirmed(store: Store, ask: Ask, now: int)
    requires ask.quote < |store.quotes| && ImportFailure(store, ask, now).None? && ask.charge
    ensures store.quotes[ask.quote].content.lifecycle == Confirmed
    ensures store.quotes[ask.quote].content.source != ManualEntry ==>
              FreshlyAuthorized(store, ask, store.quotes[ask.quote].content, now)
  {
    hide ReferenceTaken, BookingReferenceTaken, FreshlyAuthorized;
  }

  // The operations of supplier imports quoted as confirmed were authorised: their Import names a quote
  // of the same administrator with the same content, unexpired, that an earlier step authorised.
  lemma ConfirmedChargeAuthorized(states: seq<Store>, events: seq<Event>, i: nat, o: Id) returns (t: nat, quote: Id)
    requires Run(states, events) && i < |states| && o < |states[i].operations|
    requires states[i].operations[o].subject < |states[i].imports|
    requires var content := states[i].imports[states[i].operations[o].subject].content;
             content.source != ManualEntry && content.lifecycle == Confirmed
    ensures t < i && ChargedAt(states, t, o) && events[t].Importing?
    ensures var row := states[i].imports[states[i].operations[o].subject];
            && AuthorizedBefore(states, events, t, row.creator, row.content)
            && quote < |states[t].quotes| && states[t].quotes[quote].content == row.content
            && states[t].quotes[quote].authorized && states[t].quotes[quote].expires > events[t].now
  {
    t := ChargeFollowsLifecycle(states, events, i, o);
    var charged := OperationWasCharged(states, events, i, o);
    ChargedOnce(states, events, o, t, charged);
    var subject, ask := states[i].operations[o].subject, events[t].ask;
    assert Step(states[t], events[t], states[t + 1]);
    OperationsStep(states[t], events[t], states[t + 1]);
    ImportQuotedConfirmed(states[t], ask, events[t].now);
    DecidedStands(states, events, t + 1, i, subject);
    quote := ask.authorization.value;
    var u := QuoteWasAuthorized(states, events, t, quote);
    hide Run, Step, ImportFailure, Authorizes;
  }

  // Supplier evidence that Prepare accepts and that names a booking.
  predicate Importable(content: Content) {
    && content.source != ManualEntry && ProviderAllowed(content.source, content.provider) && AmountsValid(content)
    && content.bookingReference.Some?
    && 0 < content.travellers <= MOST_TRAVELLERS
    && (content.lifecycle != Confirmed ==> NoTickets(content.tickets))
  }

  // Some ticket numbers for this many travellers.
  function SomeTickets(travellers: nat): (r: Value)
    requires travellers <= MOST_TRAVELLERS
    ensures travellers > 0 ==> Ticketed(travellers, r)
  {
    var tickets := seq(travellers, i requires 0 <= i < travellers => Text(TicketAssignment.NumberText(i)));
    SomeTicketsApart(travellers, tickets);
    Array(tickets)
  }

  lemma SomeTicketsApart(travellers: nat, tickets: seq<Value>)
    requires travellers <= MOST_TRAVELLERS && |tickets| == travellers
    requires forall i :: 0 <= i < travellers ==> tickets[i] == Text(TicketAssignment.NumberText(i))
    ensures DistinctTickets(tickets)
  {
    forall i | 0 <= i < |tickets| ensures TicketAssignment.TicketNumber(tickets[i]) {
      TicketAssignment.NumberIsTicket(i);
    }
    forall i, j | 0 <= i < j < |tickets| ensures tickets[i] != tickets[j] {
      TicketAssignment.NumbersDiffer(i, j);
    }
    hide TicketAssignment.NumberText, TicketAssignment.TicketNumber;
  }

  function Confirming(content: Content): Change
    requires content.bookingReference.Some? && content.travellers <= MOST_TRAVELLERS
  {
    Change(content.bookingReference.value, 1, Confirmed, SomeTickets(content.travellers), At(0), 0)
  }

  // Deposit, prepare on hold without authorising, import uncharged, confirm: charged, and nobody
  // authorised anything.
  function UnauthorizedEvents(content: Content): seq<Event>
    requires content.bookingReference.Some? && content.travellers <= MOST_TRAVELLERS
  {
    [Depositing(Account(content.agency, content.currency), content.payable),
     Preparing(0, content, false, Findings(true, true, true, Some(content.agency)), 0),
     Importing(Ask(0, 0, 0, false, None, Some(content.agency), false, false), 0),
     Moving(Confirming(content))]
  }

  function UnauthorizedStates(content: Content): seq<Store>
    requires content.bookingReference.Some? && content.travellers <= MOST_TRAVELLERS
  {
    var account := Account(content.agency, content.currency);
    var quote := Quote(0, content, false, QUOTE_LIFE);
    var row := Imported(0, 0, content, content.bookingReference.value, content.tickets, content.issued, OnHold, None, false, 1);
    var paid := map[account := Wallet(true, content.payable, content.payable)];
    [Store([], [], [], map[account := Wallet(true, 0, 0)], []),
     Store([], [], [], paid, []),
     Store([quote], [], [], paid, []),
     Store([quote], [row], [Request(0, 0, content, 0)], paid, []),
     Store([quote], [Moved(row, Confirming(content), Some(0))], [Request(0, 0, content, 0)],
           map[account := Wallet(true, 0, content.payable)], [Operation(account, 0, content.payable)])]
  }

  lemma UnauthorizedPrepare(content: Content, store: Store, next: Store)
    requires Importable(content) && content.lifecycle == OnHold
    requires store == UnauthorizedStates(content)[1] && next == UnauthorizedStates(content)[2]
    ensures Step(store, UnauthorizedEvents(content)[1], next)
  {
    assert content.(agency := content.agency) == content;
    assert store.quotes + [Quote(0, content, false, QUOTE_LIFE)] == next.quotes;
  }

  lemma UnauthorizedImport(content: Content, store: Store, next: Store)
    requires Importable(content) && content.lifecycle == OnHold
    requires store == UnauthorizedStates(content)[2] && next == UnauthorizedStates(content)[3]
    ensures Step(store, UnauthorizedEvents(content)[2], next)
  {
    var ask := UnauthorizedEvents(content)[2].ask;
    assert FindRequest(store.requests, 0, 0).None?;
    assert ImportFailure(store, ask, 0).None?;
    assert store.imports == [] && store.requests == [];
  }

  lemma UnauthorizedMove(content: Content, store: Store, next: Store)
    requires Importable(content) && content.lifecycle == OnHold
    requires store == UnauthorizedStates(content)[3] && next == UnauthorizedStates(content)[4]
    ensures Step(store, UnauthorizedEvents(content)[3], next)
  {
    var account := Account(content.agency, content.currency);
    assert FindReference(store.imports, content.bookingReference.value) == Some(0);
    assert store.imports[0 := Moved(store.imports[0], Confirming(content), Some(0))] == next.imports;
    assert store.wallets[account := Wallet(true, 0, content.payable)] == next.wallets;
  }

  lemma UnauthorizedCharge(content: Content)
    requires Importable(content) && content.lifecycle == OnHold
    ensures var states, events := UnauthorizedStates(content), UnauthorizedEvents(content);
            && Run(states, events)
            && |states[4].operations| == 1 && states[4].operations[0].subject == 0
            && states[4].imports[0].content == content && states[4].imports[0].status == Confirmed
            && forall i, q :: 0 <= i < |states| && 0 <= q < |states[i].quotes| ==> !states[i].quotes[q].authorized
  {
    var states, events := UnauthorizedStates(content), UnauthorizedEvents(content);
    UnauthorizedPrepare(content, states[1], states[2]);
    UnauthorizedImport(content, states[2], states[3]);
    UnauthorizedMove(content, states[3], states[4]);
    var account := Account(content.agency, content.currency);
    assert states[0].wallets[account := Wallet(true, content.payable, content.payable)] == states[1].wallets;
    assert Step(states[0], events[0], states[1]);
    hide Import, ChangeStatus, Prepare;
    forall i, j | 0 <= i < |events| && j == i + 1 ensures Step(states[i], events[i], states[j]) {
      assert i == 0 || i == 1 || i == 2 || i == 3;
    }
  }

  // The step that recorded operation o came after an authorisation of exactly what it charged.
  ghost predicate OperationAuthorized(states: seq<Store>, events: seq<Event>, i: nat, o: Id)
    requires |states| == |events| + 1 && i < |states| && o < |states[i].operations|
    requires states[i].operations[o].subject < |states[i].imports|
  {
    var row := states[i].imports[states[i].operations[o].subject];
    exists t: nat :: t < i && ChargedAt(states, t, o) && AuthorizedBefore(states, events, t, row.creator, row.content)
  }

  ghost predicate Charges(store: Store, o: Id, content: Content) {
    && o < |store.operations| && store.operations[o].subject < |store.imports|
    && store.imports[store.operations[o].subject].content == content
  }

  // In this run every charge for this content was authorised beforehand.
  ghost predicate ContentAuthorized(states: seq<Store>, events: seq<Event>, content: Content)
    requires |states| == |events| + 1
  {
    forall i: nat, o: Id :: i < |states| && Charges(states[i], o, content) ==> OperationAuthorized(states, events, i, o)
  }

  ghost predicate AlwaysAuthorized(content: Content) {
    forall states: seq<Store>, events: seq<Event> :: Run(states, events) ==> ContentAuthorized(states, events, content)
  }

  lemma NotOnHoldAuthorized(content: Content, states: seq<Store>, events: seq<Event>)
    requires content.source != ManualEntry && content.lifecycle != OnHold && Run(states, events)
    ensures ContentAuthorized(states, events, content)
  {
    forall i: nat, o: Id | i < |states| && Charges(states[i], o, content)
      ensures OperationAuthorized(states, events, i, o)
    {
      var origin := ChargeFollowsLifecycle(states, events, i, o);
      var t, quote := ConfirmedChargeAuthorized(states, events, i, o);
    }
    hide Run, ChargedAt, AuthorizedBefore;
  }

  lemma NothingAuthorized(states: seq<Store>, events: seq<Event>, i: nat, o: Id)
    requires |states| == |events| + 1 && i < |states| && o < |states[i].operations|
    requires states[i].operations[o].subject < |states[i].imports|
    requires forall k, q :: 0 <= k < |states| && 0 <= q < |states[k].quotes| ==> !states[k].quotes[q].authorized
    ensures !OperationAuthorized(states, events, i, o)
  {
    hide Authorizes, ChargedAt;
  }

  // Which supplier charges are sure to have been authorised: exactly those whose evidence was not on
  // hold when it was quoted.  The Status change that confirms an import on hold asks for nothing.
  lemma ChargesAuthorizedIffNotOnHold(content: Content)
    requires Importable(content)
    ensures AlwaysAuthorized(content) <==> content.lifecycle != OnHold
  {
    if content.lifecycle != OnHold {
      forall states: seq<Store>, events: seq<Event> | Run(states, events) ensures ContentAuthorized(states, events, content) {
        NotOnHoldAuthorized(content, states, events);
      }
    } else {
      UnauthorizedCharge(content);
      var states, events := UnauthorizedStates(content), UnauthorizedEvents(content);
      NothingAuthorized(states, events, 4, 0);
      hide Run, UnauthorizedStates, UnauthorizedEvents, OperationAuthorized;
      assert Charges(states[4], 0, content);
    }
  }
}
