# A verified model of the flight-booking backend

The project models the parts of the backend whose correctness is not visible from one function body, and
proves what they are for:

- choosing one offer among equivalent ones of several suppliers (`SelectionKey`, `Selection`, `SelectionOrder`,
  `SearchResults`), on JSON trees and their printed text (`Json`, `JsonText`);
- the fare pipeline from supplier fare to the reconciled display (`Money`, `Pricing`, `JourneyContext`,
  `Projection`, `TierPricing`, `FareBreakdown`, `TierPolicy`);
- the life of an offer: Search snapshot, RePrice, acceptance, Book, the detached worker, human resolution and
  late outcomes (`Connections`, `RepriceAnswer`, `Bookings`, `BookingRuns`, `SelectionRuns`), the check of a supplier's
  answer and what clients see of it (`HeldFare`, `BookAnswer`, `TicketAssignment`, `PassengerNames`, `TicketReceipt`,
  `AnswerRuns`, with inputs in `HeldExamples` and `ReceiptExamples`) and the saved PNR lookups (`PnrObservations`);
- search budgets, search admission and the request limiter (`SearchControls`, `SearchAdmission`, `RateLimit`);
- supplier references: parsing them back (`RepriceSelection`) and hiding them (`References`);
- the reachable part of the API document (`ApiDocs`);
- imports and their wallet charges (`PortalImports`).

## How it is built

Code that changes rows or fields is a class whose methods are proved equal to a function of the same transaction
(`SearchBudgets.Claim` equals `AtomicClaim`, `BookingDesk.Reserve` equals `Book`, and so on). Beside that, and without
those functions, their contracts state exactly when they succeed, what every column is then, and which refusal comes
first. Protocols are state
machines over those functions: an event per committed transaction, or per SQL statement where statements of
different transactions interleave (`SearchControls`), and the results are about every reachable state or every
pair of states of a run. Loops of the source are loops here, with invariants.

Conventions: tables whose rows are never deleted are sequences and a row's number stands for its generated id, so
a fresh id is fresh by construction. Clocks are inputs. Digests (idempotency hash, import fingerprint) are equal
exactly when what they digest is equal. JSON objects list their members in key order, numbers keep their lexeme.
Money is exact (`real`), with rounding to two places written out. Text is a sequence of characters; the length and
case rules the source applies to bytes are applied to characters.

Results worth knowing before reading the proofs:

- The selection is independent of the order in which suppliers answer exactly when no cheapest tie mixes an
  unranked supplier with two different ranks (`SelectionOrder.OrderInvariantIffSettled`). The caller ranks all
  three suppliers, so it always is there.
- A fixed window of `limit` requests admits at most `2 * limit - 1` in any half-open minute, and that many can
  happen (`RateLimit.SlidingBound`, `RateLimit.SlidingBoundIsReached`).
- The ticketing-deadline column depends on the order in which lookups complete;
  `PnrObservations.DeadlineConfluentIffSettled` says exactly when it does not. The latest verified lookup, which
  the portal shows instead, never does.
- The API document is pruned by comparing unescaped names with escaped references. With well-formed references and
  none dangling, every needed component is published exactly when no needed component has a `/` or `~` in its category
  or name (`ApiDocs.PublishedCompleteIffPlain`); `ApiDocs.SlashedComponentLost` is a document that loses one. For any
  document at all, every component reference of the result resolves inside it exactly when each reference that is
  kept is settled (`ApiDocs.PublishedResolvesIff`); one into the inside of a component may not be
  (`ApiDocs.DeepReferenceLost`).
- A supplier import quoted on hold is charged by the status change that confirms it, and that change asks for no
  authorisation. A charge is sure to have been authorised exactly when the evidence was not on hold when quoted
  (`PortalImports.ChargesAuthorizedIffNotOnHold`, with the run in `PortalImports.UnauthorizedCharge`).
- A missing cabin label agrees with any label, so comparing itineraries is not transitive
  (`HeldExamples.MissingLabelBridges`); `HeldFare.ItineraryTransitiveIff` says exactly when agreement carries over.
- A fare listed under no counted passenger kind keeps the supplier's price in a held booking's response
  (`HeldFare.ShownPrice`, with an answer in `HeldExamples.UncountedKeepsSupplierPrice`).
- Passenger names and genders on issued tickets are copied from the supplier's answer without rewriting references: a
  receipt shows only platform ids exactly when no ticket of the answer states another reference in its passenger's
  name or gender (`TicketReceipt.ReceiptIsPlatformOnlyIff`). `ReceiptExamples.SupplierTextShown` is an answer that
  does: a name with a member called `prefix`, which reads as a reference.
- Rewriting replaces a text directly under an opaque key. The same text inside a list under such a key, or under any
  other key, stays (`References.SupplierTextStaysIff`).
- Two passengers with one normalised identity, or a CNN and a CHD passenger of one name where the supplier's labels are
  read leniently, can never be ticketed together, whatever the supplier answers; any others can
  (`PassengerNames.TicketableIffToldApart`, `TicketReceipt.ConfusedNeverReceipted`).
- What is booked is what was selected: through every run, the flight of a held or issued booking's stored answer is for
  the passengers and routes searched and flies the option its client chose (`SelectionRuns.ConfirmedFliesTheSelection`).
- The availability check compares an enabled flag and an epoch; the epoch alone already says that search was never
  switched off (`Connections.EpochStandsIffNeverDisabled`).

`dafny verify dfyconfig.toml` checks the whole project.

## Model

| member | source | states |
|---|---|---|
| JsonText.WriteInjective | src/selection.rs:72-98 | printing a well-formed tree before a delimiter can be read back in one way only: equal texts come from equal trees and equal remainders |
| JsonText.PrintInjective | src/selection.rs:103-188 | two well-formed trees print the same text exactly when they are the same tree |
| SelectionKey.ViewPrintsRemoved | src/selection.rs:35-98 | the context-directed view prints exactly the text of the tree with the listed fields removed at their listed paths and nowhere else |
| SelectionKey.KeysAreFaithful | src/selection.rs:35-98 | two offers have the same key text exactly when their trees agree after removing the listed fields |
| SelectionKey.RequiredBaggage | src/selection.rs:103-188 | the loop collects the traveller kinds with a positive count |
| SelectionKey.CollectCabins | src/selection.rs:103-188 | labels of a route exist exactly when each of its segments states every identifying attribute and allowance, and are then its cabins in order |
| SelectionKey.EquivalenceKey | src/selection.rs:103-188 | a key exists exactly for an offer that states every identifying attribute, and is the faithful key |
| SelectionKey.SameKeySameCabinCount | src/selection.rs:103-188 | offers with one key text have equally long cabin lists |
| Decimals.DecimalIsWorth | src/selection.rs:235-239 | a number spelled by sign, whole part, fraction and exponent is read as what those parts are worth, and is refused exactly when its scale is out of range |
| Decimals.TrailingZeros | src/selection.rs:235-239 | zeros appended after the point change no value, with any sign and exponent |
| Decimals.WorthOfParts | src/selection.rs:235-239 | a plain number is at least the whole number before its point and less than the next, and shifted by as many places as stand after the point it is the whole number all its digits spell |
| Selection.MergeRow | src/selection.rs:193-230 | merging a member keeps known labels, adds new ones, and reports a conflict exactly when two labels differ |
| Selection.ConflictingKeys | src/selection.rs:193-230 | the one-pass fold reports exactly the keys with two members whose cabin lists differ in length or name two cabins in one position |
| Selection.Retain | src/selection.rs:231-270 | the flags updated in place are the membership in the streamed groups |
| Selection.StreamedIsStays | src/selection.rs:231-270 | the group left by the streaming minimum is the declarative one: the cheapest, filtered by the first and the best ranked of the tie |
| Selection.Winners | src/selection.rs:193-270 | the result lists, in input order, exactly the offers that stay; by the prices as written, no kept offer has a cheaper one of its trip, every dropped one leaves one that is not dearer, and with every supplier listed exactly the unbeaten ones are kept |
| Selection.RankedKeepsMinima | src/selection.rs:231-270 | with every supplier ranked an offer stays exactly when no comparable one is cheaper, or as cheap and better ranked |
| Selection.RetainedIsCheapest | src/selection.rs:231-270 | ranked or not, no comparable offer is cheaper than one that stays |
| Selection.SomeRivalStays | src/selection.rs:231-270 | every offer that goes leaves a comparable one that stays and costs no more |
| Selection.StaysUnlessBeaten | src/selection.rs:193-270 | by the written prices and the list itself: with every supplier listed an offer stays exactly when none of its trip is cheaper, or as cheap and listed earlier |
| Selection.KeptAreCheapest | src/selection.rs:231-270 | by the written prices, ranked or not: no offer of its trip is cheaper than a kept one, and a dropped one leaves a kept one that is cheaper or as cheap |
| Selection.RankIsPosition | src/selection.rs:193-200 | a rank exists exactly for a supplier in the priority list and is the place where it first stands |
| Selection.OrderIndependent | src/selection.rs:193-270 | with every supplier ranked the outcome commutes with any permutation of the offers |
| Selection.UnrankedOrderMatters | src/selection.rs:231-270 | a concrete tie with an unranked supplier whose outcome depends on the order |
| Selection.SelectionIsIdempotent | src/selection.rs:193-270 | selecting again among what stayed keeps everything |
| SelectionOrder.SettledKeepsLeaders | src/selection.rs:231-270 | without a mixed tie an offer stays exactly when it is cheapest and no equally cheap one is better ranked |
| SelectionOrder.LeaderDecides | src/selection.rs:231-270 | in any mixed tie two orders disagree about the worse ranked offer |
| SelectionOrder.OrderInvariantIffSettled | src/selection.rs:193-270 | for all lists: every reordering gives the same outcome exactly when no cheapest tie mixes an unranked supplier with two different ranks |
| SearchResults.TakeSelected | src/search.rs:599-621 | one pass over the supplier batches hands out exactly the selected offers, each with its own connection |
| Money.RoundMonotone | src/tier.rs:51-53 | rounding to two places preserves order |
| Money.RoundNear | src/tier.rs:51-53 | rounding moves an amount by at most 0.005 and keeps its sign |
| Money.RoundKeepsCents | src/tier.rs:51-53 | two-decimal amounts are unchanged |
| Money.TiesAwayFromZero | src/tier.rs:51-53 | exact halves go away from zero, on both sides |
| Money.NearestIsRound | src/tier.rs:51-53 | rounding is the one nearest two-decimal amount with ties away from zero |
| Money.WeightedNear | src/pricing.rs:80-100 | rounding every passenger moves a count-weighted sum by at most 0.005 a head |
| Pricing.Resolve | src/pricing.rs:31-64 | the prioritised passes return the unique most specific applicable rule, a duplicate error exactly on a tie of the most specific, and a configuration error exactly when no rule applies |
| Pricing.PriceIsMarkedUp | src/pricing.rs:80-94 | a passenger sells at the supplier total plus the fixed amount, or times one hundred and the percentage over one hundred, to the nearest cent; with the discount that makes up base, taxes and AIT |
| Pricing.AggregateIsWeighted | src/pricing.rs:95-100 | the fold is the count-weighted sum of passenger totals |
| Pricing.AggregateRoundingBound | src/pricing.rs:80-100 | the aggregate is within 0.005 a head of the unrounded one |
| JourneyContext.Matching | src/search.rs:281-297 | an offer is refused exactly when its journey cannot be told and some rule is scoped |
| JourneyContext.FliesIffVisits | src/search.rs:218-279 | the checks on an option admit exactly a trip through named airports from the requested origin to the requested destination, each segment starting where the last one ended |
| JourneyContext.MatchedScopeIsFlown | src/search.rs:218-279 | an offer has a known journey only if every route has options and each is such a trip; a matched airline starts every trip of the first route |
| JourneyContext.JourneyKnownIff | src/search.rs:218-297 | a journey is known exactly when all options fly every route and either start the first one with one airline or no rule names an airline; the context is then the first route with that airline |
| JourneyContext.ScopeIsNeverGuessed | src/search.rs:218-297 | whatever airline and route the offer leaves open, the same markup rule is resolved |
| Projection.SumPassengers | src/projection.rs:125-212 | the loop's accumulators and changes are those of the passenger rows, with the first failing row's error |
| Projection.SumsAreWeighted | src/projection.rs:125-212 | every accumulator is the count-weighted sum of its column |
| Projection.Project | src/projection.rs:125-212 | the projection is the declarative one, error for error, and succeeds exactly for one component whose passengers are soundly priced and add up to the aggregates |
| Projection.ProjectedExactlyWhen | src/projection.rs:101-212 | an offer projects exactly when it has one component, no fare of an unlisted kind, a sound fare for every kind that travels, no extra charges, and totals, base, taxes and AIT that are the sums over the passengers |
| Projection.Apply | src/projection.rs:38-60 | the in-place writes give the offer with exactly the changes written |
| Projection.AcceptanceIgnoresMarkup | src/projection.rs:62-93 | whether an offer is accepted, and with which error, does not depend on the markup |
| Projection.ValidationPredictsProjection | src/projection.rs:62-84 | the early validation succeeds exactly when the later projection does, for every markup |
| Projection.DiscountsAddUp | src/projection.rs:125-212 | passenger discounts add up to the component's discount |
| Projection.ProjectionConservesMoney | src/projection.rs:125-212 | after every accepted projection the passenger totals and discounts add up to the written component and offer amounts |
| Projection.SellsMarkedUp | src/projection.rs:62-212 | a projected offer shows every passenger the supplier's price with the markup to the nearest cent, and the booking the supplier's total with the markup within half a cent a head |
| Projection.PublishesBaseAndTaxes | src/projection.rs:86-99 | published gross shows every passenger the base and taxes, each to the nearest cent, whatever the supplier charges |
| Projection.OnlyPricesChange | src/projection.rs:38-60 | a projection changes the listed price fields and nothing else |
| TierPricing.Snapshot | src/tier.rs:60-125 | the loop's rows and totals are those of the declarative snapshot, and the saved display is the one built from it |
| TierPricing.SnapshotExactlyWhen | src/tier.rs:60-125 | there is a snapshot exactly for a share within bounds, none without a tier, a markup that is not negative, known counts, kinds whose amounts and dues are not negative, and a gross total that is the sum over the passengers; it has one row for each kind that travels, with the gross shown, what is due of it and the rest as commission |
| TierPricing.PayableBetween | src/tier.rs:94-121 | a passenger's payable lies between the published gross and the rounded supplier fare plus markup, is a two-decimal amount, and with the commission makes up the gross |
| TierPricing.PayableIsShared | src/tier.rs:94-121 | the client keeps exactly the share, in per cent, of what separates gross from the marked-up fare, to the nearest cent |
| TierPricing.MarkedIsNearest | src/tier.rs:94-121 | the fare the share is measured against is the supplier's with the markup, to the nearest cent |
| TierPricing.PayableMonotone | src/tier.rs:94-121 | a larger share moves the payable monotonically towards the marked-up supplier fare |
| TierPricing.SnapshotPayableAddsUp | src/tier.rs:60-125 | gross is commission plus payable for each passenger and in total, and the total is the count-weighted sum |
| TierPricing.PipelineIsTotal | src/tier.rs:60-125 | whenever published gross succeeds, a set tier, a share from 0 to 100 and a markup that is not negative give a snapshot with the priced rows |
| TierPricing.DisplayExistsIff | src/fare_breakdown.rs:23-98 | after such a snapshot the display exists exactly when every counted rounded AIT is not negative |
| TierPricing.PipelinePayable | src/tier.rs:60-125 | the payable is the weighted sum of the passengers' and within half a cent a head lies the share, in per cent, of the way from the weighted published fares to the weighted marked-up ones |
| TierPricing.UntieredPaysGross | src/tier.rs:60-125 | without a tier the share is zero, and every passenger and the booking pay the gross |
| TierPricing.LargerShareCostsLess | src/tier.rs:60-125 | where every passenger keeps a discount a larger share never costs the booking more, and where none does never less |
| TierPricing.WholeShareCostsLessIff | src/tier.rs:60-125 | no share pays the weighted published fares and the whole share the weighted marked-up fares; the whole share costs no more exactly when the latter are no more |
| FareBreakdown.AddAmounts | src/fare_breakdown.rs:23-98 | one passenger kind adds its amounts times its count to the seven totals |
| FareBreakdown.Build | src/fare_breakdown.rs:23-98 | the nested loops build the declarative display, or none |
| FareBreakdown.BuiltExactlyWhen | src/fare_breakdown.rs:23-98 | a display exists exactly for a tiered snapshot whose passengers can all be displayed and add up to its payable; each row shows base, taxes and AIT from the fare's own field, and the totals are the weighted sums |
| FareBreakdown.BreakdownReconciles | src/fare_breakdown.rs:23-98 | base plus taxes plus AIT plus charge minus discount is the payable, and the gross is at least the payable, for each passenger and in total; a passenger shows a charge or a discount, not both |
| TierPolicy.PolicyRow.SetPolicy | src/tier.rs:204-231 | shares change together, ordered, only from the version the administrator saw; every refusal changes nothing |
| TierPolicy.TiersPayInOrder | src/tier.rs:173-216 | under every policy the row can hold, the three tiers' payables are ordered |
| RepriceSelection.Select | src/reprice_selection.rs:20-62 | a selection exists exactly when the trees share a shape and the request parses, and carries the parsed indices, the supplier's references and the chosen directions |
| RepriceSelection.SelectedExactlyWhen | src/reprice_selection.rs:20-62 | a selection exists exactly when some indices choose the request unambiguously in both trees, and describes them |
| RepriceSelection.SelectsExactlyTheUnambiguous | src/reprice_selection.rs:20-62 | parsing gives some indices exactly when they choose one option per route, flatten to the request, leave no second option possible at any route and are mirrored by the supplier's tree |
| RepriceSelection.SelectionIsTheOnlyOne | src/reprice_selection.rs:20-62 | a parsed request splits into options in no other way, and as many supplier references as public ones result |
| RepriceSelection.FlattenThenSelect | src/reprice_selection.rs:4-62 | with prefix-free options flattening any choice and selecting returns that choice |
| References.ReferenceMap.BindTree | src/search.rs:309-333 | the walk in member order is the function of the tree and the map it starts with |
| References.BindIsSubstitution | src/search.rs:309-333 | one pass with a growing map equals substitution by its final state; old entries keep their ids and exactly the tree's references are entered |
| References.NewIdsAreDistinct | src/search.rs:309-333 | a new reference gets an id no other reference has |
| References.BindHidesReferences | src/search.rs:309-333 | binding keeps shape and all other content, and every text directly under an opaque key becomes a platform id |
| References.OpaqueIsSpelled | src/search.rs:313-314 | a key is opaque exactly when it spells ref somewhere in any case, or is uniqueTransID or avlSrc |
| References.SupplierTextStaysIff | src/search.rs:309-333 | a supplier's text is still somewhere in the bound tree exactly when it stood somewhere else than directly under an opaque key |
| References.IdentitiesBound | src/booking.rs:861-888 | after binding, every text under the four names at any depth is the platform's id; a tree changes exactly when one was missing |
| References.ProjectionIsPlatformOnly | src/booking.rs:844-888 | bound by a map of platform ids, a projected response holds the booking's own identities and only platform ids in reference fields |
| References.BindingKeepsTickets | src/booking.rs:889-898 | binding neither hides a ticket number nor makes one up |
| Connections.ConnectionTable.Save | src/connections.rs:45-63 | saved exactly for a known supplier, a timeout from 1 to 120 and the version seen; switches and timeout are the request's, the version one more, the epoch one more exactly when search goes from on to off, and a refusal changes nothing |
| Connections.ConnectionTable.SearchSnapshot | src/connections.rs:67-75 | the snapshot holds exactly the suppliers whose search is on, with their present epochs, each of them valid; without any it is refused |
| Connections.EpochStandsIffNeverDisabled | src/connections.rs:57 | over any run of updates a supplier's epoch is unchanged exactly when search was never off in between |
| Connections.ValidIffNeverDisabled | src/connections.rs:76-83 | an epoch taken by a snapshot is valid later exactly when search was on at every moment since |
| Connections.SecondSaveRefused | src/connections.rs:45-63 | of two saves from one version the second is refused, whatever ran in between |
| RepriceAnswer.AcceptedExactlyWhen | src/reprice.rs:136-169 | the checks of an answer in order let a fare pass exactly when it confirms the offer's passengers, airline and currency, the search's passengers and routes and the selected flights, and states what a price needs |
| RepriceAnswer.MatchesExactlyWhen | src/reprice.rs:373-400 | the fare's counts are the search's with its children told apart in some way, every option of every route leads from stop to stop from origin to destination, and every route's one option has in order the selected flights' airports, airline, number and departure, written with a space or a T |
| RepriceAnswer.RefusedFor | src/reprice.rs:136-169 | an answer is refused for the first requirement it fails, in the order of the checks |
| RepriceAnswer.AcceptedFlies | src/reprice_selection.rs:64-99 | whatever booking answer is accepted against a confirming fare is for the same passengers and routes and flies the selected flights, segment by segment |
| Bookings.BookingDesk.StartReprice | src/reprice.rs:73-111 | a RePrice begins exactly for the client's own live offer with its own transaction, no branded fare, one reading of the segment references, no tax redemption, repeated commissions, a supplier never disabled and configured, and the offer's currency; any other is refused for the first requirement it fails |
| Bookings.RepricedExactlyWhen | src/reprice.rs:73-111 | the same of the transaction: when it begins, with which selection, and otherwise which refusal |
| Bookings.BookingDesk.ProcessReprice | src/reprice.rs:125-276 | exactly for a priceable answer of an offer still live and never disabled one whole price row is added; otherwise the failure is the first that applies; only a rejection flags the offer, only a price clears the flag, and nothing else changes |
| Bookings.FinishedExactlyWhen | src/reprice.rs:125-276 | the same of the transaction: the row's client, audience, agent, selection, trees, version and expiry, the refusals in order, and the flag |
| Bookings.AcceptedExactlyWhen | src/reprice.rs:292-347 | acceptance succeeds exactly for the client's own live quote of the highest version, of its audience, on an unflagged offer whose supplier was never disabled; otherwise it is refused for the first requirement that fails |
| Bookings.BookingDesk.AcceptPrice | src/reprice.rs:292-347 | exactly then that one price row is marked, and no other row or column changes |
| Bookings.ReservedExactlyWhen | src/booking.rs:498-632 | a booking is reserved exactly when the key is free and every condition on client, quote and supplier holds, and is then one new row with stated columns; a taken key is replayed with the same request or refused, any other refusal is the first requirement that fails, and nothing else changes the tables |
| Bookings.BookingDesk.CheckQuote | src/booking.rs:523-561 | the checks on the quote pass exactly for the client's own, accepted, latest, unflagged quote of the mode asked for |
| Bookings.BookingDesk.CheckSupplier | src/booking.rs:562-609 | the checks on the supplier pass exactly when it was never disabled and may be booked in this mode, the offer has no direct booking for Direct Issue, and the quote is still live, accepted and the highest version |
| Bookings.BookingDesk.Reserve | src/booking.rs:498-632 | one pending row with the request's key, price and mode is added exactly then; a replay is answered with the row of that client, key and hash, and every refusal changes nothing |
| Bookings.BookingDesk.HeldResponse | src/booking.rs:759-857 | a response exists exactly for a success with status Created, both references, no ticket number and the quoted flights, currency, passengers and money; it is made by projection, reference rewriting, identities and the quote's display |
| Bookings.BookingDesk.StoreHold | src/booking.rs:634-664 | a hold's answer decides a pending booking, held exactly with a verified response, with its pnr and bookingCodeRef as the row's references; a late one is added, reopens the booking and replaces only what it states |
| Bookings.BookingDesk.StoreDirect | src/booking/direct.rs:29-71 | a direct issue's answer decides a pending booking, issued exactly with a receipt, with its pnr and bookingCodeRef as the row's references and its ticket row; a late one is added and reopens the booking |
| Bookings.BookingDesk.RecordResolution | src/admin_bookings.rs:110-152 | a resolution is taken exactly on complete evidence about the version that was seen in a resolvable state; it is appended with the state it replaced, and keeps the supplier's answer on the row |
| BookingRuns.RunIsSafe | src/booking.rs:498-664 | every state of every run keeps quotes, reservations, dispatches and outcomes sound |
| BookingRuns.AtMostOneDispatch | src/booking.rs:498-515 | over any run, crashes included: one booking per client and idempotency key, one direct booking per offer, no booking sent twice and none sent without its reservation |
| BookingRuns.SendFollowsReservation | src/booking.rs:610-634 | a booking is sent only after the reservation committed and only if it was not sent before |
| BookingRuns.ReplayNeverReserves | src/booking.rs:498-515 | along any run, a reserved request is answered by its own booking for ever and another request under its key is refused; nothing new is reserved |
| BookingRuns.AnswersAreKept | src/booking.rs:634-664 | every received answer is the booking's stored answer or its late outcome, for the rest of the run |
| BookingRuns.ConfirmedStands | src/booking/direct.rs:40-70 | held and issued rest on a verified answer of the right mode, which is the quote check with its projection or receipt, and no modelled step leaves them |
| BookingRuns.HeldEvidence | src/booking.rs:759-770 | a held booking received a body with the success flag, status Created, both references and no ticket number |
| BookingRuns.ReferencesAreTheAnswers | src/booking.rs:645-656 | over any run a booking's pnr and supplier reference are the texts at item1.pnr and item1.bookingCodeRef of its stored answer, and missing where it states none |
| BookingRuns.DecisionsStand | src/admin_bookings.rs:129-151 | a booking with a resolution that is no longer manually resolved has a late outcome; no run records more than two resolutions or more than one late outcome for a booking |
| BookingRuns.ResolvedAsSeen | src/admin_bookings.rs:129-147 | along any run a decision is made on exactly the row the administrator saw |
| BookingRuns.RecordsAreKept | src/booking.rs:649-658 | along any run received answers, late outcomes and resolutions are only appended |
| BookingRuns.LateAnswerReopens | src/booking.rs:649-658 | in any run only a manually resolved booking is met by a late answer; answer and decision are kept, and whatever else happens the booking stays under review, without a response, until the next decision on it |
| BookingRuns.VersionsAreConsecutive | src/reprice.rs:256-268 | an offer's versions are exactly 1..n in insertion order, and the maximum is n |
| BookingRuns.ReservedQuoteIsCurrent | src/booking.rs:523-609 | whatever an older snapshot showed, a reservation uses the highest version, it was accepted and is live, and the offer's last supplier answer is the one that priced it |
| BookingRuns.PriceWasAccepted | src/reprice.rs:306-342 | an accepted price was accepted by a step at which it was live, the latest version of an unrejected offer, of that audience, with its supplier enabled |
| BookingRuns.ReservedOfferNeverDisabled | src/booking.rs:560-570 | every reservation's supplier was search-enabled at every moment since the snapshot of its Search |
| BookingRuns.EveryBookingWasReserved | src/booking.rs:610-632 | every booking row of a run comes from one Book step and keeps its owner, offer, price, key and mode |
| SelectionRuns.PriceIsForTheSelection | src/reprice.rs:85-158 | over any run every stored price is for its offer's passengers, airline and currency, its search's passengers and routes, and the flights that are the one reading of the references its client sent |
| SelectionRuns.PriceWasAskedFor | src/reprice.rs:73-265 | over any run every stored price answers one RePrice that its own client's machine began under all conditions, and carries that machine's audience and agent and the references it sent |
| SelectionRuns.ConfirmedFliesTheSelection | src/booking.rs:700-843 | over any run the flight a supplier reports for a held or issued booking is for the passengers and routes searched and flies, route by route, the option selected from the stored offer |
| HeldFare.CompareItineraries | src/booking.rs:703-738 | blanking labels in step and comparing at the end accepts exactly equal flights with agreeing or missing cabin labels |
| HeldFare.ItineraryTold | src/booking.rs:666-738 | two fares fly the same exactly when their trees have the same groups, options and segments, each with seven equal facts and cabin labels that are missing or equal |
| HeldFare.ItinerarySymmetric | src/booking.rs:703-738 | the comparison does not depend on which side is the quote |
| HeldFare.ItineraryTransitiveIff | src/booking.rs:703-738 | agreement carries over from a to c through b exactly when nowhere b leaves out a cabin label on which a and c differ |
| HeldExamples.MissingLabelBridges | src/booking.rs:703-738 | three itineraries: Economy agrees with a missing label and that with Business, but Economy does not agree with Business |
| HeldFare.Project | src/booking.rs:771-843 | an answer is accepted exactly when no price stands outside its flight and the flight is the quote's, and then carries the selling prices |
| HeldFare.AcceptedExactlyWhen | src/booking.rs:771-830 | a flight is the quote's exactly with the same segments, the quoted currency unless left out, the quoted counts, one component, and the quoted total, base, taxes and AIT for each counted kind and as a whole |
| HeldFare.SameMoneyIsWorth | src/booking.rs:697-702 | two amounts are the same exactly when both can be read and are worth the same, however they are written |
| HeldFare.OnlyPricesShown | src/booking.rs:806-843 | every projected price shows its selling value and every other place of the answer is unchanged |
| HeldFare.ShownPrice | src/booking.rs:806-843 | every stated price shows the selling value where the kind is counted, for the total and for the component, and the supplier's value everywhere else |
| HeldExamples.UncountedKeepsSupplierPrice | src/booking.rs:806-831 | an accepted answer with a fare for a kind of which nobody travels, which still shows the supplier's price |
| HeldFare.AcceptedAnswersAgree | src/booking.rs:806-837 | two answers accepted against one quote have the same money for every counted kind and the component |
| BookAnswer.AnsweredExactlyWhen | src/booking.rs:759-843 | an answer is shown exactly when it has the success flag, status Created, both references and no ticket, and is for the quoted flights, currency, passengers and money |
| BookAnswer.ReferenceShown | src/booking.rs:844-849 | at any depth a reference of the answer shows as the booking's own id under the four names, elsewhere as the quote's id for what the quote named and the booking's for its supplier reference |
| BookAnswer.AnsweredShowsSelling | src/booking.rs:806-857 | after the rewriting too, every stated number shows the selling value where prices are replaced and the supplier's elsewhere |
| BookAnswer.AnsweredIsPlatformOnly | src/booking.rs:844-888 | with a quote of platform ids the response is an answer with the booking's own identities at every depth, to which the quote's display is added, and it holds no other reference |
| BookAnswer.AnsweredShowsDisplay | src/booking.rs:850-855 | an answered hold shows the quote's fare display with the information and with its flight |
| TicketAssignment.Assign | src/booking/ticketing.rs:316-349 | the loop over the tickets gives each passenger the ticket placed there, or nothing at the first ticket that fits no single free passenger or repeats a number |
| TicketAssignment.AssignedExactlyWhen | src/booking/ticketing.rs:316-349 | tickets are accepted exactly when each names one passenger only, no two the same one, each has numbers and no number appears twice in the answer |
| TicketAssignment.EveryPassengerTicketed | src/booking/ticketing.rs:311-349 | with as many tickets as passengers every passenger's place shows the one ticket that is theirs and nobody else's |
| PassengerNames.NamesExactlyWhen | src/booking/ticketing.rs:240-282 | a ticket names a passenger exactly when given name, surname, middle name and kind agree after spacing and case, the surname is not empty, and one supplier with verified counts may call a CNN passenger CHD |
| PassengerNames.WordsAreRuns | src/booking/ticketing.rs:240-260 | the words a name is rejoined from are its runs between white space, all of them and in order |
| TicketAssignment.TicketOrderIgnored | src/booking/ticketing.rs:316-349 | what the passengers are shown does not depend on the order of the tickets in the answer |
| PassengerNames.TicketableIffToldApart | src/booking/ticketing.rs:240-283 | some answer tickets everyone exactly when all passengers have a name to match and no two of them are confused, under any Unicode tables |
| TicketReceipt.MakeReceipt | src/booking/direct.rs:6-27 | a receipt is made exactly when there can be one, by the quote check, the rewriting, the quote's fare display and the platform's ids |
| TicketReceipt.ReceiptedExactlyWhen | src/booking/direct.rs:6-27 | there is a receipt exactly for a success with the booking's and the ticket's own references that states no other than the quoted ones, with the quoted flight and money, and tickets that can be handed out to all passengers |
| TicketReceipt.ReceiptNamesRows | src/booking/ticketing.rs:352 | a receipt names the booking, offer, price, search and ticket rows each under its own key, with the answer's PNR and a success |
| TicketReceipt.ReceiptTicketsEveryone | src/booking/ticketing.rs:283-360 | a receipt rests on success for the quoted references and on the quote's flights, currency, passengers and money, and tickets every passenger sent |
| TicketReceipt.ReceiptShowsSelling | src/booking/ticketing.rs:350-355 | a receipt shows the quote's selling amounts exactly where a held response does |
| TicketReceipt.ReceiptShowsDisplay | src/booking/ticketing.rs:350-358 | a receipt shows the quote's fare display with the information and with its flight |
| TicketReceipt.ReceiptIsPlatformOnlyIff | src/booking/ticketing.rs:348-360 | a receipt shows only platform ids exactly when no ticket of the answer states another reference in its passenger's name or gender |
| TicketReceipt.ConfusedNeverReceipted | src/booking/ticketing.rs:240-325 | passengers that no ticket can tell apart are shown no receipt, whatever the supplier answers |
| ReceiptExamples.SupplierTextShown | src/booking/ticketing.rs:348 | an accepted answer whose receipt shows a supplier's text from a passenger's name |
| AnswerRuns.OnlyPlatformIdsStored | src/reprice.rs:208-237 | over any run every text directly under an opaque key of a stored selling offer or selling quote, and every id of a reference map, is a platform id |
| AnswerRuns.HeldIsAnswered | src/booking.rs:634-664 | over any run a held booking's response is made from the stored answer with the trees and map of its own accepted price row |
| AnswerRuns.OwnRows | src/booking.rs:610-634 | over any run what a booking kept when it was reserved are the search, offer, price, supplier and quote of its own rows |
| AnswerRuns.HeldMatchesQuote | src/booking.rs:759-843 | over any run a held booking's stored answer has the success flag, status Created, both references and no ticket, and its flights, currency, passengers and money are those of its own accepted price |
| AnswerRuns.HeldShowsSelling | src/booking.rs:806-857 | over any run a held booking's response shows its own price's selling amount at every stated number that is replaced, and the supplier's at the others |
| AnswerRuns.HeldIsPlatformOnly | src/booking.rs:844-888 | over any run a held booking's response is an answer that names its own search, offer, price and booking at every depth, with its price's display, and otherwise only platform ids |
| AnswerRuns.IssuedIsReceipted | src/booking/direct.rs:41-70 | over any run an issued booking's response is the receipt of the stored answer against its own accepted price row and the passengers sent |
| AnswerRuns.IssuedTicketsEveryone | src/booking/direct.rs:6-27 | over any run an issued booking's answer is about its own accepted price, and its response hands every passenger the one ticket that names nobody else |
| AnswerRuns.IssuedNamesRows | src/booking/ticketing.rs:352 | over any run an issued booking's response names its own search, offer, price, booking and ticket rows, and the answer's PNR |
| AnswerRuns.IssuedShowsSelling | src/booking/ticketing.rs:350-355 | over any run an issued booking's response shows its own price's selling amount at every stated number that is replaced |
| AnswerRuns.OwnDisplayShown | src/booking.rs:850-855 | over any run a held or issued booking's response shows its own accepted price's fare display |
| AnswerRuns.IssuedIsPlatformOnlyIff | src/booking/ticketing.rs:348-360 | over any run an issued booking's response shows only platform ids exactly when no ticket of its stored answer states another reference in its passenger's name or gender |
| AnswerRuns.IssuedToldApart | src/booking/ticketing.rs:240-325 | over any run no issued booking has two passengers its supplier's tickets could not tell apart |
| PnrObservations.PnrRecord.Record | src/booking.rs:1147-1165 | every lookup is logged; one not older than the last sets response, flag and time, and if verified the deadline; an older one changes no column |
| PnrObservations.LastAttemptConfluent | src/booking.rs:1118-1165 | the saved response, verified flag and check time depend on the set of completed lookups only |
| PnrObservations.LatestVerifiedConfluent | src/portal_holds.rs:336-345 | so does the latest verified lookup |
| PnrObservations.DeadlineConfluentIffSettled | src/booking.rs:1155-1157 | the deadline column is independent of the completion order exactly when the latest attempt is verified or no applicable verified one states another deadline |
| PnrObservations.DeadlineDependsOnOrder | src/booking.rs:1155-1157 | two lookups whose completion order changes the deadline column but not the latest verified lookup |
| SearchControls.SearchBudgets.Claim | src/search_controls.rs:78-134 | a new claim on a known supplier is dispatched and counted once for each exactly when no control row of the subject is switched off or exhausted and the supplier is below its limit; the refusals are, in order, switched off, subject at its limit, supplier at its limit |
| SearchControls.ClaimedExactlyWhen | src/search_controls.rs:78-134 | the same of the whole command: each of its six outcomes with its precedence, and the usage row and the two counters it changes |
| SearchControls.SearchBudgets.SaveUser | src/search_controls.rs:249-286 | a valid user control is saved exactly when none exists for version 0, or the one that exists has the version seen; it then has the next version, and nothing else changes |
| SearchControls.SearchBudgets.SaveSupplier | src/search_controls.rs:227-248 | a valid supplier limit is saved exactly from the version seen, gets the next one, and is never created |
| SearchControls.AdvanceRefinesAtomic | src/search_controls.rs:78-134 | under every interleaving the statement that ends a transaction does what the whole command would do at that instant, and every earlier one changes nothing |
| SearchControls.RunIsSafe | src/search_controls.rs:78-134 | every state of every run keeps the locks exclusive, the reads current and the counters equal to the logged dispatches |
| SearchControls.DispatchUnderLimitsInForce | src/search_controls.rs:95-112 | at its commit a dispatch is enabled and strictly below both limits then in force |
| SearchControls.ClaimDecidedByRows | src/search_controls.rs:78-134 | over any interleaving a claim is decided by the rows committed at its last statement: dispatched exactly when nothing in them refuses it, and refused for the first reason they give |
| SearchControls.DayReadUnderLocks | src/search_controls.rs:95-100 | over any run the day a claim counts on was read by an earlier statement of it, when it held both locks |
| SearchControls.RunKeepsBudgets | src/search_controls.rs:113-125 | on every day the actors' counters, the suppliers' counters and the dispatches have equal sums; each dispatch was within both limits, and each search dispatches to a supplier at most once |
| SearchControls.SteadyLimitHolds | src/search_controls.rs:78-134 | a counter never exceeds a limit that every dispatch it counts was subject to |
| SearchControls.NoDeadlock | src/search_controls.rs:56-94 | while transactions run, one of them can execute its next statement |
| SearchControls.EachStatementProgresses | src/search_controls.rs:78-134 | every statement brings its transaction closer to its end, which is at most seven statements away |
| SearchControls.VersionsOnlyGrow | src/search_controls.rs:227-286 | along a run a control or limit changes only together with a larger version |
| SearchControls.SecondUserSaveRefused | src/search_controls.rs:249-286 | of two saves of a user control from one version the second is refused, whatever ran in between |
| SearchControls.SecondSupplierSaveRefused | src/search_controls.rs:227-248 | of two saves of a supplier limit from one version the second is refused, whatever ran in between |
| SearchAdmission.Admission.Acquire | src/search_admission.rs:61-73 | an arrival is refused exactly without a total permit, admitted exactly with an active one too, and else queued last; only its own permits move |
| SearchAdmission.Admission.Abandon | src/search_admission.rs:61-73 | a timeout or cancellation returns what was held, handing a granted permit to the next waiter |
| SearchAdmission.Admission.Drop | src/search_admission.rs:75-84 | only the last clone returns the active permit, to the head of the queue if there is one |
| SearchAdmission.HeldBody.PollFrame | src/search_admission.rs:119-133 | on the end or an error the body empties and gives its permit back, and on any other poll nothing changes |
| SearchAdmission.ReleasedExactlyOnce | src/search_admission.rs:101-133 | over any polls and drops a body's permit is given back exactly once, and only if the stream ended, failed or was dropped |
| SearchAdmission.ArrivalDecided | src/search_admission.rs:61-73 | over any run an arrival works at once exactly while fewer than the limit do, waits exactly while that many do and there is room, and is turned away otherwise; nobody else moves |
| SearchAdmission.PlaceIsPassedOn | src/search_admission.rs:61-84 | over any run a place given up by the last handle or by an abandoned grant goes to whoever waited longest, and leaving the queue keeps the others in order |
| SearchAdmission.HandlesAreCounted | src/search_admission.rs:75-84 | over any run the handles left on a permit are one and those cloned less those dropped |
| SearchAdmission.AdmissionIsBounded | src/search_admission.rs:52-74 | in every reachable state active work is within its limit, requests wait only while all active permits are out, and the queue is within its limit |
| SearchAdmission.NothingLeaks | src/search_admission.rs:52-84 | idle means both semaphores are full, and every active permit ever given is held or was returned exactly once |
| SearchAdmission.ServedInArrivalOrder | src/search_admission.rs:61-73 | active permits are given in order of arrival |
| RateLimit.RateBuckets.Check | src/auth.rs:146-153 | one upsert: the verdict and the new row of its key, and no other row changes |
| RateLimit.WindowBound | src/auth.rs:146-153 | within one window exactly the first limit requests are accepted |
| RateLimit.SlidingBound | src/auth.rs:146-153 | for non-decreasing times any half-open minute holds at most 2 * limit - 1 accepted requests |
| RateLimit.SlidingBoundIsReached | src/auth.rs:146-153 | for every limit some trace reaches that bound |
| ApiDocs.Found.Collect | src/api_docs.rs:7-25 | the walk adds exactly the component references written in the tree |
| ApiDocs.Closure | src/api_docs.rs:42-53 | the loop ends with the least closed set, which is exactly the references reachable from the retained paths |
| ApiDocs.Publish | src/api_docs.rs:26-74 | the published paths, components and security scheme are those selected by that closure |
| ApiDocs.PublishedExactlyNeeded | src/api_docs.rs:54-67 | a component is published exactly when its plain reference is needed, with its full definition |
| ApiDocs.OnlyReachablePublished | src/api_docs.rs:54-67 | every published component outside the security schemes is reachable from a retained path |
| ApiDocs.ReferenceResolves | src/api_docs.rs:45-47 | for every name the escaped reference points at its component |
| ApiDocs.PublishedIsSelfContained | src/api_docs.rs:42-67 | what a retained path or a needed component references directly by a plain name is published unchanged |
| ApiDocs.PublishedIffSpelled | src/api_docs.rs:42-67 | in a document whose component references are all escaped names, a component is published exactly when its own category and name are the escaped spelling of one the kept paths need |
| ApiDocs.TildeFreePublishedIff | src/api_docs.rs:42-67 | there, a needed component with no tilde in its names is published exactly when they have no slash |
| ApiDocs.PublishedCompleteIffPlain | src/api_docs.rs:26-74 | if nothing dangles either, all needed components are published exactly when none of them has a name to escape |
| ApiDocs.SlashedComponentLost | src/api_docs.rs:61 | a whole document whose one component, called a/b, is needed, defined and missing from what is published |
| ApiDocs.PublishedResolvesIff | src/api_docs.rs:26-74 | for any document every component reference of the published one resolves inside it exactly when each of them is settled: it leads to a whole component that is reachable under its own spelling, or into one that is |
| ApiDocs.DeepReferenceLost | src/api_docs.rs:54-67 | a document whose reference into a component's properties resolves before pruning and not after |
| PortalImports.ImportDesk.ChargeWallet | src/portal_imports.rs:184-210 | a charge takes the amount from an active account that covers it and records one operation; each of the three refusals has its condition, and changes nothing |
| PortalImports.ImportDesk.PrepareQuote | src/portal_imports.rs:361-452 | a quote is stored exactly for complete, agreeing data and an assignable user with an agency; it is one new row, authorised only for confirmed evidence, and a refusal changes nothing |
| PortalImports.ImportDesk.AuthorizeQuote | src/portal_imports.rs:308-333 | one quote is marked exactly when it and the confirming quote are unexpired, the actor's own and identical, and for confirmed evidence the charge was captured already or can be paid; nothing else changes |
| PortalImports.ImportDesk.CheckImport | src/portal_imports.rs:469-485 | the checks in order pass exactly when every condition on quote, agency, authorisation and references holds, and else name the first that fails |
| PortalImports.ImportedExactlyWhen | src/portal_imports.rs:454-491 | an import is created exactly when every condition holds, as one whole new row with its request row and its charge; a known request is answered by its import or refused for its content, any other for the first requirement that fails, and nothing else changes |
| PortalImports.ImportDesk.ImportBooking | src/portal_imports.rs:454-491 | exactly then one import with its request row is added, charged exactly if asked, with every column stated; a known request is answered by its import or refused |
| PortalImports.ImportDesk.MoveStatus | src/portal_imports.rs:492-533 | the import named leaves on-hold exactly from the version seen, with ticket evidence and payment if it is confirmed, else for the first requirement that fails; tickets, issue time and charge are then set, and only then |
| PortalImports.MovedExactlyWhen | src/portal_imports.rs:492-533 | the same of the transaction, with its refusals in order and the whole new state |
| PortalImports.CheckEvidence | src/portal_imports.rs:149-175 | evidence is accepted exactly with one ticket number per traveller, all different, and an issue time that is not in the future |
| PortalImports.ConfirmedIsTicketed | src/portal_imports.rs:149-175 | over any run a confirmed import holds one ticket number for every traveller, all different, and unless it is from an airline's export states a time of issue; any other import holds no ticket |
| PortalImports.ChargedExactlyOnce | src/portal_imports.rs:184-210 | over any run an import has an operation exactly when it is confirmed: one, for its own account and price; every operation belongs to an existing import |
| PortalImports.ChargeFollowsLifecycle | src/portal_imports.rs:454-533 | over any run an import quoted as confirmed is charged by its Import, one quoted on hold by the status change that confirms it, and no other import is charged |
| PortalImports.ConfirmedChargeAuthorized | src/portal_imports.rs:474-477 | over any run the charge of a supplier import quoted as confirmed names an unexpired quote of the same administrator with the same content that an earlier step authorised |
| PortalImports.UnauthorizedCharge | src/portal_imports.rs:492-533 | for every importable content quoted on hold, a run that charges it with no quote ever authorised |
| PortalImports.ChargesAuthorizedIffNotOnHold | src/portal_imports.rs:454-533 | the charges of a supplier import are authorised in every run exactly when its evidence was not on hold when quoted |
| PortalImports.MoneyIsConserved | src/portal_imports.rs:454-533 | in every account the captured total is the price of its confirmed imports, and with the balance it makes up all deposits |
| PortalImports.ImportedOnce | src/portal_imports.rs:454-491 | one import per provider and reference, per booking reference and per request |
| PortalImports.ReplayChangesNothing | src/portal_imports.rs:467-468 | repeating a request is answered by the import it made and changes nothing; other content is refused |
| PortalImports.DecidedStands | src/portal_imports.rs:492-533 | a decided import never changes, and no import ever changes owner, evidence identity or price |

## Left out

- HTTP routing, permissions beyond the booking and ticketing flags, headers, audit rows and logging: no state worth proving.
- Supplier transport: an answer, a timeout or a failure is an input of the step that receives it.
- Database locking itself: row and advisory locks, and the atomicity of a commit, are given; statements are separate steps only in `SearchControls`, and a supplier call is a gap only in `BookingRuns`.
- JSON trees are not updated through references: methods that rewrite a tree return the new one, so aliasing of subtrees is not modelled.
- TicketReceipt.MakeReceipt: the Unicode tables for upper case and white space are parameters; the ticketing of a booking already held is left out.
- Bookings.BookingDesk.Reserve: passenger validation, the commission comparison and the current grant of the client are inputs; portal hold drafts are left out.
- Bookings.BookingDesk.ProcessReprice: the pricing of a confirmed fare, which is the pipeline modelled separately, enters as its outcome: a selling answer or none.
- Bookings.BookingDesk.StoreHold: the ticketing deadline that a hold's answer also sets is left to `PnrObservations`.
- BookingRuns.ConfirmedStands: ticketing and cancellation, which act on held bookings, are not modelled steps.
- AnswerRuns.HeldShowsSelling: like IssuedShowsSelling stated for amounts that are numbers, flags or null; an amount that is itself an object would have its references rewritten.
- AnswerRuns.OnlyPlatformIdsStored: no platform id is the empty text; the ids are otherwise any texts.
- PassengerNames.TicketableIffToldApart: stated up to a hundred passengers, where a booking takes at most nine (src/booking.rs:342); that confused passengers are never ticketed is proved for any number.
- PnrObservations.PnrRecord.Record: whether a lookup is verified, and the deadline its body states, are inputs.
- SearchControls.SearchBudgets.SaveUser: the list of portal users is fixed during a run; the usage report and the outcome columns of a search are left out.
- SearchAdmission.Admission.Acquire: the length of the wait is not modelled; a timeout may happen at any moment while queued.
- ApiDocs.Publish: title and description of the published document are left out.
- PortalImports.ImportDesk.ImportBooking: checks against native bookings and the assignee's current agency are inputs; other users of the same wallets are left out, so the conservation law is about imports and deposits only.
- PortalImports.ImportDesk.PrepareQuote: the data shape check, the price comparison and the assignee lookup are inputs; itinerary refreshes and cost corrections, which never charge, are left out.
- TierPricing.Snapshot: staff pricing and the formatting of amounts that are not two-decimal are left out; division by one hundred is exact.
- Offer cleanup, site content, identity, tokens, passwords, notification delivery, reports and the user interface.
