// Handing the tickets of an answer to the passengers sent (src/booking/ticketing.rs issued_response):
// each ticket belongs to exactly one passenger, no two to the same one, and no number is stated twice.
module TicketAssignment {
  import opened Wrappers
  import opened Json
  import Selection

  // Whether a passenger sent and a ticket's passenger are the same person.
  type Same = (Value, Value) -> bool

  predicate TicketNumber(v: Value) {
    v.Text? && 10 <= |v.text| <= 16 && AllDigits(v.text)
  }

  function Holder(ticket: Value): Value {
    Member(ticket, "passengerInfo")
  }

  function Numbers(ticket: Value): seq<Value> {
    var numbers := AsArray(Member(ticket, "ticketNumbers"));
    if numbers.Some? then numbers.value else []
  }

  // ---- Which passenger a ticket belongs to ----------------------------------------------------------

  function Hits(passengers: seq<Value>, ticket: Value, same: Same): (r: seq<nat>)
    ensures forall k :: 0 <= k < |r| ==> r[k] < |passengers| && same(passengers[r[k]], Holder(ticket))
    ensures forall j :: 0 <= j < |passengers| && same(passengers[j], Holder(ticket)) ==> j in r
    ensures |r| > 1 ==> r[0] < r[|r| - 1]
  {
    if passengers == [] then []
    else
      var n := |passengers| - 1;
      var earlier := Hits(passengers[..n], ticket, same);
      if same(passengers[n], Holder(ticket)) then earlier + [n] else earlier
  }

  ghost predicate OnlySeat(passengers: seq<Value>, ticket: Value, same: Same, j: nat) {
    && j < |passengers| && same(passengers[j], Holder(ticket))
    && forall k :: 0 <= k < |passengers| && same(passengers[k], Holder(ticket)) ==> k == j
  }

  lemma HitsOnly(passengers: seq<Value>, ticket: Value, same: Same, j: nat)
    ensures Hits(passengers, ticket, same) == [j] <==> OnlySeat(passengers, ticket, same, j)
  {
    var hits := Hits(passengers, ticket, same);
    if hits == [j] {
      assert hits[0] == j;
    }
    if OnlySeat(passengers, ticket, same, j) {
      assert j in hits;
      assert hits[0] == j && hits[|hits| - 1] == j;
    }
    hide Hits, Holder;
  }

  // ---- The numbers, all different ---------------------------------------------------------------------

  function WithNumbers(known: set<string>, items: seq<Value>): Option<set<string>> {
    if items == [] then Some(known)
    else
      var earlier := WithNumbers(known, items[..|items| - 1]);
      var last := items[|items| - 1];
      if earlier.None? || !TicketNumber(last) || last.text in earlier.value then None
      else Some(earlier.value + {last.text})
  }

  ghost predicate Apart(items: seq<Value>) {
    forall k, l :: 0 <= k < l < |items| ==> items[k] != items[l]
  }

  ghost predicate AllNumbers(items: seq<Value>) {
    forall k :: 0 <= k < |items| ==> TicketNumber(items[k])
  }

  ghost predicate NoneIn(known: set<string>, items: seq<Value>) {
    forall k :: 0 <= k < |items| && items[k].Text? ==> items[k].text !in known
  }

  lemma ApartMore(items: seq<Value>, last: Value)
    ensures Apart(items + [last]) <==> Apart(items) && last !in items
  {
    var longer := items + [last];
    if last in items {
      var k :| 0 <= k < |items| && items[k] == last;
      assert longer[k] == longer[|items|];
    }
    if !Apart(items) {
      var k, l :| 0 <= k < l < |items| && items[k] == items[l];
      assert longer[k] == longer[l];
    }
  }

  lemma {:induction false} WithNumbersExact(known: set<string>, items: seq<Value>)
    ensures WithNumbers(known, items).Some? <==> AllNumbers(items) && Apart(items) && NoneIn(known, items)
    ensures WithNumbers(known, items).Some? ==>
              forall text :: text in WithNumbers(known, items).value <==> text in known || Text(text) in items
  {
    if items != [] {
      var n := |items| - 1;
      var earlier, last := items[..n], items[n];
      WithNumbersExact(known, earlier);
      assert items == earlier + [last];
      ApartMore(earlier, last);
      NumberIsText(last);
      hide TicketNumber, Apart;
      assert AllNumbers(items) <==> AllNumbers(earlier) && TicketNumber(last);
      assert NoneIn(known, items) <==> NoneIn(known, earlier) && (last.Text? ==> last.text !in known);
      if last.Text? {
        assert last in earlier <==> Text(last.text) in earlier;
      }
    }
  }

  lemma NumberIsText(v: Value)
    ensures TicketNumber(v) ==> v.Text?
  {
  }

  // ---- The tickets of one answer -------------------------------------------------------------------------

  datatype Tally = Tally(seats: seq<nat>, numbers: set<string>)

  function WithTicket(tally: Tally, passengers: seq<Value>, ticket: Value, same: Same): Option<Tally> {
    var hits := Hits(passengers, ticket, same);
    if |hits| != 1 || hits[0] in tally.seats || Numbers(ticket) == [] then None
    else
      var numbers := WithNumbers(tally.numbers, Numbers(ticket));
      if numbers.None? then None else Some(Tally(tally.seats + [hits[0]], numbers.value))
  }

  function TallyOf(passengers: seq<Value>, tickets: seq<Value>, same: Same): Option<Tally> {
    if tickets == [] then Some(Tally([], {}))
    else
      var earlier := TallyOf(passengers, tickets[..|tickets| - 1], same);
      if earlier.None? then None else WithTicket(earlier.value, passengers, tickets[|tickets| - 1], same)
  }

  // What a client sees of a ticket.
  function PublicTicket(ticket: Value): Value {
    Object([Field("passengerInfo", Object([Field("gender", Member(Holder(ticket), "gender")),
                                           Field("nameElement", Member(Holder(ticket), "nameElement")),
                                           Field("passengerType", Member(Holder(ticket), "passengerType"))])),
            Field("ticketNumbers", Member(ticket, "ticketNumbers"))])
  }

  // The passenger's name, kind and gender and the ticket's numbers, each where the ticket states it.
  ghost predicate ShowsTicket(shown: Value, ticket: Value) {
    var person := Member(ticket, "passengerInfo");
    && Member(shown, "ticketNumbers") == Member(ticket, "ticketNumbers")
    && Member(Member(shown, "passengerInfo"), "nameElement") == Member(person, "nameElement")
    && Member(Member(shown, "passengerInfo"), "passengerType") == Member(person, "passengerType")
    && Member(Member(shown, "passengerInfo"), "gender") == Member(person, "gender")
  }

  lemma TicketKeysDiffer(info: string, numbers: string, gender: string, name: string, kind: string)
    requires info == "passengerInfo" && numbers == "ticketNumbers" && gender == "gender" && name == "nameElement" && kind == "passengerType"
    ensures info != numbers && gender != name && gender != kind && name != kind
  {
    assert info[0] == 'p' && numbers[0] == 't' && gender[0] == 'g' && name[0] == 'n' && kind[0] == 'p';
  }

  lemma PublicTicketShows(ticket: Value)
    ensures ShowsTicket(PublicTicket(ticket), ticket)
  {
    TicketKeysDiffer("passengerInfo", "ticketNumbers", "gender", "nameElement", "passengerType");
    var shown := PublicTicket(ticket);
    var inner := shown.fields[0].value;
    hide Lookup;
    LookupAt(shown.fields, "passengerInfo", 0);
    LookupAt(shown.fields, "ticketNumbers", 1);
    LookupAt(inner.fields, "gender", 0);
    LookupAt(inner.fields, "nameElement", 1);
    LookupAt(inner.fields, "passengerType", 2);
  }

  function Slot(tickets: seq<Value>, seats: seq<nat>, j: nat): Value
    requires |tickets| == |seats|
  {
    if tickets == [] then Null
    else
      var n := |tickets| - 1;
      if seats[n] == j then PublicTicket(tickets[n]) else Slot(tickets[..n], seats[..n], j)
  }

  // The tickets in the order of the passengers.
  function Slots(size: nat, tickets: seq<Value>, seats: seq<nat>): (r: seq<Value>)
    requires |tickets| == |seats|
    ensures |r| == size && forall j :: 0 <= j < size ==> r[j] == Slot(tickets, seats, j)
  {
    seq(size, j requires 0 <= j < size => Slot(tickets, seats, j))
  }

  lemma TallyStep(passengers: seq<Value>, tickets: seq<Value>, same: Same)
    requires tickets != []
    ensures var earlier := TallyOf(passengers, tickets[..|tickets| - 1], same);
            TallyOf(passengers, tickets, same) ==
            if earlier.None? then None else WithTicket(earlier.value, passengers, tickets[|tickets| - 1], same)
  {
    hide WithTicket;
  }

  lemma {:induction false} TallySize(passengers: seq<Value>, tickets: seq<Value>, same: Same)
    ensures TallyOf(passengers, tickets, same).Some? ==> |TallyOf(passengers, tickets, same).value.seats| == |tickets|
  {
    if tickets != [] {
      TallySize(passengers, tickets[..|tickets| - 1], same);
    }
    hide Hits, WithNumbers, Numbers;
  }

  function Assigned(passengers: seq<Value>, tickets: seq<Value>, same: Same): Option<seq<Value>> {
    var tally := TallyOf(passengers, tickets, same);
    TallySize(passengers, tickets, same);
    if tally.None? then None else Some(Slots(|passengers|, tickets, tally.value.seats))
  }

  // ---- What an assignment means, apart from the order of the tickets ----------------------------------------

  ghost predicate Seated(passengers: seq<Value>, tickets: seq<Value>, same: Same, seats: seq<nat>) {
    && |seats| == |tickets|
    && (forall i :: 0 <= i < |tickets| ==> OnlySeat(passengers, tickets[i], same, seats[i]))
    && (forall i, j :: 0 <= i < j < |seats| ==> seats[i] != seats[j])
  }

  ghost predicate OwnNumbers(ticket: Value) {
    Numbers(ticket) != [] && AllNumbers(Numbers(ticket)) && Apart(Numbers(ticket))
  }

  ghost predicate NoneShared(a: Value, b: Value) {
    forall number :: number in Numbers(a) ==> number !in Numbers(b)
  }

  ghost predicate Numbered(tickets: seq<Value>) {
    && (forall i :: 0 <= i < |tickets| ==> OwnNumbers(tickets[i]))
    && (forall i, j :: 0 <= i < |tickets| && 0 <= j < |tickets| && i != j ==> NoneShared(tickets[i], tickets[j]))
  }

  ghost predicate StatedIn(tickets: seq<Value>, number: Value) {
    exists i :: 0 <= i < |tickets| && number in Numbers(tickets[i])
  }

  ghost predicate TallySound(passengers: seq<Value>, tickets: seq<Value>, same: Same, tally: Tally) {
    && Seated(passengers, tickets, same, tally.seats) && Numbered(tickets)
    && forall text :: text in tally.numbers <==> StatedIn(tickets, Text(text))
  }

  lemma SeatedMore(passengers: seq<Value>, tickets: seq<Value>, ticket: Value, same: Same, seats: seq<nat>, seat: nat)
    requires Seated(passengers, tickets, same, seats) && OnlySeat(passengers, ticket, same, seat) && seat !in seats
    ensures Seated(passengers, tickets + [ticket], same, seats + [seat])
  {
    hide OnlySeat;
  }

  lemma NumberedMore(tickets: seq<Value>, ticket: Value)
    requires Numbered(tickets) && OwnNumbers(ticket)
    requires forall i :: 0 <= i < |tickets| ==> NoneShared(tickets[i], ticket) && NoneShared(ticket, tickets[i])
    ensures Numbered(tickets + [ticket])
  {
    hide OwnNumbers, NoneShared;
  }

  lemma TicketSound(passengers: seq<Value>, tickets: seq<Value>, ticket: Value, same: Same, tally: Tally)
    requires TallySound(passengers, tickets, same, tally) && WithTicket(tally, passengers, ticket, same).Some?
    ensures TallySound(passengers, tickets + [ticket], same, WithTicket(tally, passengers, ticket, same).value)
  {
    var hits, next := Hits(passengers, ticket, same), WithTicket(tally, passengers, ticket, same).value;
    HitsOnly(passengers, ticket, same, hits[0]);
    assert hits == [hits[0]];
    WithNumbersExact(tally.numbers, Numbers(ticket));
    NothingShared(tickets, ticket, tally.numbers);
    TicketOwn(ticket);
    hide Hits, OnlySeat, WithNumbers, Numbers, OwnNumbers, NoneShared, Seated, Numbered, StatedIn, AllNumbers, Apart, NoneIn;
    SeatedMore(passengers, tickets, ticket, same, tally.seats, hits[0]);
    NumberedMore(tickets, ticket);
    forall text ensures text in next.numbers <==> StatedIn(tickets + [ticket], Text(text)) {
      StatedMore(tickets, ticket, Text(text));
    }
  }

  lemma TicketOwn(ticket: Value)
    requires Numbers(ticket) != [] && AllNumbers(Numbers(ticket)) && Apart(Numbers(ticket))
    ensures OwnNumbers(ticket)
  {
  }

  lemma StatedMore(tickets: seq<Value>, ticket: Value, number: Value)
    ensures StatedIn(tickets + [ticket], number) <==> StatedIn(tickets, number) || number in Numbers(ticket)
  {
    hide Numbers;
    var longer := tickets + [ticket];
    assert forall i :: 0 <= i < |tickets| ==> longer[i] == tickets[i];
    assert longer[|tickets|] == ticket;
    if StatedIn(tickets, number) {
      var i :| 0 <= i < |tickets| && number in Numbers(tickets[i]);
      assert number in Numbers(longer[i]);
    }
  }

  lemma NothingShared(tickets: seq<Value>, ticket: Value, known: set<string>)
    requires forall text :: text in known <==> StatedIn(tickets, Text(text))
    requires NoneIn(known, Numbers(ticket)) && AllNumbers(Numbers(ticket))
    ensures forall i :: 0 <= i < |tickets| ==> NoneShared(tickets[i], ticket) && NoneShared(ticket, tickets[i])
  {
    forall i, number | 0 <= i < |tickets| && number in Numbers(ticket) ensures number !in Numbers(tickets[i]) {
      NumberIsText(number);
      assert !StatedIn(tickets, Text(number.text));
    }
    hide Numbers, TicketNumber;
  }

  lemma NothingTallied(passengers: seq<Value>, same: Same)
    ensures TallySound(passengers, [], same, Tally([], {}))
  {
  }

  lemma {:induction false} TallyIsSound(passengers: seq<Value>, tickets: seq<Value>, same: Same)
    ensures var tally := TallyOf(passengers, tickets, same);
            tally.Some? ==> TallySound(passengers, tickets, same, tally.value)
  {
    hide WithTicket, TallySound;
    if tickets != [] {
      hide TallyOf;
      var n := |tickets| - 1;
      TallyIsSound(passengers, tickets[..n], same);
      TallyStep(passengers, tickets, same);
      assert tickets == tickets[..n] + [tickets[n]];
      if TallyOf(passengers, tickets, same).Some? {
        TicketSound(passengers, tickets[..n], tickets[n], same, TallyOf(passengers, tickets[..n], same).value);
      }
    } else {
      NothingTallied(passengers, same);
    }
  }

  lemma SeatedFewer(passengers: seq<Value>, tickets: seq<Value>, same: Same, seats: seq<nat>, n: nat)
    requires Seated(passengers, tickets, same, seats) && n + 1 == |tickets|
    ensures Seated(passengers, tickets[..n], same, seats[..n]) && OnlySeat(passengers, tickets[n], same, seats[n])
    ensures seats[n] !in seats[..n]
  {
    hide OnlySeat;
  }

  lemma NumberedFewer(tickets: seq<Value>, n: nat)
    requires Numbered(tickets) && n <= |tickets|
    ensures Numbered(tickets[..n])
  {
    hide OwnNumbers, NoneShared;
  }

  lemma {:induction false} TallyIsComplete(passengers: seq<Value>, tickets: seq<Value>, same: Same, seats: seq<nat>)
    requires |seats| == |tickets| && Seated(passengers, tickets, same, seats) && Numbered(tickets)
    ensures var tally := TallyOf(passengers, tickets, same);
            tally.Some? && tally.value.seats == seats
    decreases |tickets|
  {
    hide Hits, WithNumbers, StatedIn, OnlySeat, Seated, Numbered, Numbers, AllNumbers, Apart, NoneIn;
    if tickets != [] {
      TallyStep(passengers, tickets, same);
      hide TallyOf;
      var n := |tickets| - 1;
      var earlier, ticket := tickets[..n], tickets[n];
      SeatedFewer(passengers, tickets, same, seats, n);
      NumberedFewer(tickets, n);
      TallyIsComplete(passengers, earlier, same, seats[..n]);
      TallyIsSound(passengers, earlier, same);
      HitsOnly(passengers, ticket, same, seats[n]);
      var known := TallyOf(passengers, earlier, same).value.numbers;
      NumbersFit(tickets, n, known);
      WithNumbersExact(known, Numbers(ticket));
      assert seats == seats[..n] + [seats[n]];
    }
  }

  lemma NumbersFit(tickets: seq<Value>, n: nat, known: set<string>)
    requires n < |tickets| && Numbered(tickets)
    requires forall text :: text in known <==> StatedIn(tickets[..n], Text(text))
    ensures Numbers(tickets[n]) != [] && AllNumbers(Numbers(tickets[n])) && Apart(Numbers(tickets[n]))
    ensures NoneIn(known, Numbers(tickets[n]))
  {
    var items := Numbers(tickets[n]);
    assert OwnNumbers(tickets[n]);
    forall k | 0 <= k < |items| && items[k].Text? ensures items[k].text !in known {
      assert items[k] in items;
      forall i | 0 <= i < n ensures Text(items[k].text) !in Numbers(tickets[..n][i]) {
        assert NoneShared(tickets[n], tickets[i]);
      }
      assert !StatedIn(tickets[..n], Text(items[k].text));
    }
    hide Numbers, AllNumbers, Apart;
  }

  // Tickets are accepted exactly when they can be handed out: each names one passenger only, no two the
  // same one, each has numbers, and no number appears twice in the answer.
  lemma AssignedExactlyWhen(passengers: seq<Value>, tickets: seq<Value>, same: Same)
    ensures Assigned(passengers, tickets, same).Some? <==>
            Numbered(tickets) && exists seats :: Seated(passengers, tickets, same, seats)
  {
    TallyIsSound(passengers, tickets, same);
    if Numbered(tickets) && exists seats :: Seated(passengers, tickets, same, seats) {
      var seats :| Seated(passengers, tickets, same, seats);
      TallyIsComplete(passengers, tickets, same, seats);
    }
    hide TallyOf, Seated, Numbered;
  }

  lemma {:induction false} SlotAt(tickets: seq<Value>, seats: seq<nat>, i: nat)
    requires |tickets| == |seats| && i < |tickets|
    requires forall a, b :: 0 <= a < b < |seats| ==> seats[a] != seats[b]
    ensures Slot(tickets, seats, seats[i]) == PublicTicket(tickets[i])
    decreases |tickets|
  {
    hide PublicTicket;
    var n := |tickets| - 1;
    if i < n {
      SlotAt(tickets[..n], seats[..n], i);
    }
  }

  lemma {:induction false} SlotEmpty(tickets: seq<Value>, seats: seq<nat>, j: nat)
    requires |tickets| == |seats| && j !in seats
    ensures Slot(tickets, seats, j) == Null
    decreases |tickets|
  {
    if tickets != [] {
      var n := |tickets| - 1;
      SlotEmpty(tickets[..n], seats[..n], j);
    }
    hide PublicTicket;
  }

  // n different places below n are all the places below n.
  function Places(n: nat): (r: set<nat>)
    ensures |r| == n && forall j: nat :: j in r <==> j < n
  {
    if n == 0 then {} else Places(n - 1) + {n - 1}
  }

  function Taken(seats: seq<nat>): (r: set<nat>)
    ensures forall j :: j in r <==> j in seats
  {
    if seats == [] then {} else Taken(seats[..|seats| - 1]) + {seats[|seats| - 1]}
  }

  lemma {:induction false} TakenSize(seats: seq<nat>)
    requires forall i, j :: 0 <= i < j < |seats| ==> seats[i] != seats[j]
    ensures |Taken(seats)| == |seats|
  {
    if seats != [] {
      TakenSize(seats[..|seats| - 1]);
    }
  }

  lemma AllTaken(seats: seq<nat>, n: nat)
    requires |seats| == n && (forall i :: 0 <= i < n ==> seats[i] < n)
    requires forall i, j :: 0 <= i < j < n ==> seats[i] != seats[j]
    ensures forall j: nat :: j < n ==> j in seats
  {
    TakenSize(seats);
    var taken, places := Taken(seats), Places(n);
    assert taken <= places;
    assert places == taken + (places - taken);
    assert |places| == |taken| + |places - taken|;
    forall j: nat | j < n ensures j in seats {
      assert j in places && places - taken == {};
    }
    hide Taken, Places;
  }

  ghost predicate TicketFor(passengers: seq<Value>, tickets: seq<Value>, same: Same, j: nat, shown: Value) {
    exists i :: 0 <= i < |tickets| && OnlySeat(passengers, tickets[i], same, j) && ShowsTicket(shown, tickets[i])
  }

  lemma SeatShown(passengers: seq<Value>, tickets: seq<Value>, same: Same, seats: seq<nat>, i: nat)
    requires Seated(passengers, tickets, same, seats) && i < |tickets|
    ensures |seats| == |tickets| && seats[i] < |passengers|
    ensures TicketFor(passengers, tickets, same, seats[i], Slot(tickets, seats, seats[i]))
  {
    hide Slot, PublicTicket, ShowsTicket, Holder, Hits;
    SeatsApart(passengers, tickets, same, seats);
    SlotAt(tickets, seats, i);
    PublicTicketShows(tickets[i]);
    assert OnlySeat(passengers, tickets[i], same, seats[i]);
  }

  lemma TakenAt(seats: seq<nat>, n: nat, j: nat) returns (i: nat)
    requires |seats| == n && (forall i :: 0 <= i < n ==> seats[i] < n)
    requires forall i, j :: 0 <= i < j < n ==> seats[i] != seats[j]
    requires j < n
    ensures i < n && seats[i] == j
  {
    AllTaken(seats, n);
    assert j in seats;
    i :| 0 <= i < n && seats[i] == j;
  }

  lemma SeatsApart(passengers: seq<Value>, tickets: seq<Value>, same: Same, seats: seq<nat>)
    requires Seated(passengers, tickets, same, seats)
    ensures |seats| == |tickets|
    ensures forall i, j :: 0 <= i < j < |seats| ==> seats[i] != seats[j]
    ensures forall i :: 0 <= i < |seats| ==> seats[i] < |passengers|
  {
    forall i | 0 <= i < |seats| ensures seats[i] < |passengers| {
      assert OnlySeat(passengers, tickets[i], same, seats[i]);
    }
    hide Holder;
  }

  lemma EverySeatShown(passengers: seq<Value>, tickets: seq<Value>, same: Same, seats: seq<nat>)
    requires Seated(passengers, tickets, same, seats) && |seats| == |tickets| == |passengers|
    ensures forall j :: 0 <= j < |passengers| ==> TicketFor(passengers, tickets, same, j, Slot(tickets, seats, j))
  {
    hide OnlySeat, TicketFor, Slot, Seated;
    SeatsApart(passengers, tickets, same, seats);
    forall j | 0 <= j < |passengers| ensures TicketFor(passengers, tickets, same, j, Slot(tickets, seats, j)) {
      var i := TakenAt(seats, |seats|, j);
      SeatShown(passengers, tickets, same, seats, i);
    }
  }

  // With as many tickets as passengers nobody is left without: every passenger's place shows the one
  // ticket that is that passenger's and nobody else's.
  lemma EveryPassengerTicketed(passengers: seq<Value>, tickets: seq<Value>, same: Same)
    requires Assigned(passengers, tickets, same).Some? && |tickets| == |passengers|
    ensures var shown := Assigned(passengers, tickets, same).value;
            && |shown| == |passengers|
            && forall j :: 0 <= j < |passengers| ==> TicketFor(passengers, tickets, same, j, shown[j])
  {
    TallyIsSound(passengers, tickets, same);
    TallySize(passengers, tickets, same);
    hide TallyOf, Numbered, Seated, StatedIn, TicketFor, Slot;
    EverySeatShown(passengers, tickets, same, TallyOf(passengers, tickets, same).value.seats);
  }

  // Listing the tickets in another order.
  ghost predicate Reordered(tickets: seq<Value>, others: seq<Value>, p: seq<nat>, q: seq<nat>) {
    && Selection.Permutation(p, q) && |tickets| == |others| == |p|
    && forall i :: 0 <= i < |others| ==> others[i] == tickets[p[i]]
  }

  lemma SeatedReordered(passengers: seq<Value>, tickets: seq<Value>, others: seq<Value>, same: Same, p: seq<nat>, q: seq<nat>, seats: seq<nat>)
    requires Reordered(tickets, others, p, q) && Seated(passengers, tickets, same, seats) && Numbered(tickets)
    ensures var moved := seq(|others|, i requires 0 <= i < |others| => seats[p[i]]);
            Seated(passengers, others, same, moved) && Numbered(others)
  {
    hide OnlySeat, OwnNumbers, NoneShared;
    var moved := seq(|others|, i requires 0 <= i < |others| => seats[p[i]]);
    forall i, j | 0 <= i < j < |moved| ensures moved[i] != moved[j] {
      assert q[p[i]] == i && q[p[j]] == j;
      assert p[i] < p[j] || p[j] < p[i];
    }
    forall i, j | 0 <= i < |others| && 0 <= j < |others| && i != j ensures NoneShared(others[i], others[j]) {
      assert q[p[i]] == i && q[p[j]] == j;
    }
  }

  lemma ReorderedSizes(tickets: seq<Value>, others: seq<Value>, p: seq<nat>, q: seq<nat>)
    requires Reordered(tickets, others, p, q)
    ensures |tickets| == |others| == |p| == |q|
    ensures forall i :: 0 <= i < |p| ==> p[i] < |tickets|
  {
  }

  lemma ReorderedBack(tickets: seq<Value>, others: seq<Value>, p: seq<nat>, q: seq<nat>)
    requires Reordered(tickets, others, p, q)
    ensures Reordered(others, tickets, q, p)
  {
  }

  // What the passengers are shown does not depend on the order of the tickets in the answer.
  lemma TicketOrderIgnored(passengers: seq<Value>, tickets: seq<Value>, others: seq<Value>, same: Same, p: seq<nat>, q: seq<nat>)
    requires Reordered(tickets, others, p, q)
    ensures Assigned(passengers, others, same) == Assigned(passengers, tickets, same)
  {
    ReorderedBack(tickets, others, p, q);
    if Assigned(passengers, tickets, same).Some? {
      SameSlots(passengers, tickets, others, same, p, q);
    } else if Assigned(passengers, others, same).Some? {
      SameSlots(passengers, others, tickets, same, q, p);
    }
    hide Assigned, Reordered;
  }

  lemma SameSlots(passengers: seq<Value>, tickets: seq<Value>, others: seq<Value>, same: Same, p: seq<nat>, q: seq<nat>)
    requires Reordered(tickets, others, p, q) && Assigned(passengers, tickets, same).Some?
    ensures Assigned(passengers, others, same) == Assigned(passengers, tickets, same)
  {
    hide TallyOf, Numbered, Seated, Slot, Reordered, StatedIn;
    TallyIsSound(passengers, tickets, same);
    TallySize(passengers, tickets, same);
    ReorderedSizes(tickets, others, p, q);
    var seats := TallyOf(passengers, tickets, same).value.seats;
    var moved := seq(|others|, i requires 0 <= i < |others| => seats[p[i]]);
    SeatedReordered(passengers, tickets, others, same, p, q, seats);
    TallyIsComplete(passengers, others, same, moved);
    SeatsApart(passengers, tickets, same, seats);
    SeatsApart(passengers, others, same, moved);
    forall j: nat ensures Slot(others, moved, j) == Slot(tickets, seats, j) {
      SlotMoved(tickets, others, p, q, seats, moved, j);
    }
    assert Slots(|passengers|, others, moved) == Slots(|passengers|, tickets, seats);
  }

  lemma SlotMoved(tickets: seq<Value>, others: seq<Value>, p: seq<nat>, q: seq<nat>, seats: seq<nat>, moved: seq<nat>, j: nat)
    requires Reordered(tickets, others, p, q) && |seats| == |moved| == |p|
    requires forall i :: 0 <= i < |moved| ==> moved[i] == seats[p[i]]
    requires forall a, b :: 0 <= a < b < |seats| ==> seats[a] != seats[b]
    requires forall a, b :: 0 <= a < b < |moved| ==> moved[a] != moved[b]
    ensures Slot(others, moved, j) == Slot(tickets, seats, j)
  {
    if j in seats {
      var k :| 0 <= k < |seats| && seats[k] == j;
      assert moved[q[k]] == j;
      SlotAt(tickets, seats, k);
      SlotAt(others, moved, q[k]);
    } else {
      SlotEmpty(tickets, seats, j);
      SlotEmpty(others, moved, j);
    }
    hide Slot, PublicTicket;
  }

  // ---- The loop over the tickets --------------------------------------------------------------------------

  lemma {:induction false} TallyStops(passengers: seq<Value>, tickets: seq<Value>, same: Same, i: nat)
    requires i <= |tickets| && TallyOf(passengers, tickets[..i], same).None?
    ensures TallyOf(passengers, tickets, same).None?
    decreases |tickets|
  {
    hide TallyOf, WithTicket;
    if i == |tickets| {
      assert tickets[..i] == tickets;
    } else {
      var n := |tickets| - 1;
      assert tickets[..n][..i] == tickets[..i];
      TallyStops(passengers, tickets[..n], same, i);
      TallyStep(passengers, tickets, same);
    }
  }

  lemma {:induction false} NumbersStop(known: set<string>, items: seq<Value>, k: nat)
    requires k <= |items| && WithNumbers(known, items[..k]).None?
    ensures WithNumbers(known, items).None?
    decreases |items|
  {
    if k == |items| {
      assert items[..k] == items;
    } else {
      var n := |items| - 1;
      assert items[..n][..k] == items[..k];
      NumbersStop(known, items[..n], k);
    }
  }

  // One ticket's numbers, added to those seen before.
  method AddNumbers(known: set<string>, items: seq<Value>) returns (numbers: Option<set<string>>)
    ensures numbers == WithNumbers(known, items)
  {
    var seen := known;
    for k := 0 to |items|
      invariant WithNumbers(known, items[..k]) == Some(seen)
    {
      assert items[..k + 1][..k] == items[..k];
      if !TicketNumber(items[k]) || items[k].text in seen {
        NumbersStop(known, items, k + 1);
        return None;
      }
      seen := seen + {items[k].text};
    }
    assert items[..|items|] == items;
    numbers := Some(seen);
  }

  lemma OneMoreTicket(passengers: seq<Value>, tickets: seq<Value>, same: Same, i: nat)
    requires i < |tickets| && TallyOf(passengers, tickets[..i], same).Some?
    ensures TallyOf(passengers, tickets[..i + 1], same) ==
            WithTicket(TallyOf(passengers, tickets[..i], same).value, passengers, tickets[i], same)
  {
    hide TallyOf, WithTicket;
    assert tickets[..i + 1][..i] == tickets[..i];
    TallyStep(passengers, tickets[..i + 1], same);
  }

  lemma SlotStep(tickets: seq<Value>, seats: seq<nat>, i: nat, seat: nat, j: nat)
    requires i < |tickets| && |seats| == i
    ensures Slot(tickets[..i + 1], seats + [seat], j) == if j == seat then PublicTicket(tickets[i]) else Slot(tickets[..i], seats, j)
  {
    hide PublicTicket;
    assert tickets[..i + 1][..i] == tickets[..i] && (seats + [seat])[..i] == seats;
  }

  lemma SlotsMore(size: nat, tickets: seq<Value>, seats: seq<nat>, i: nat, seat: nat)
    requires i < |tickets| && |seats| == i && seat < size
    ensures Slots(size, tickets[..i + 1], seats + [seat]) == Slots(size, tickets[..i], seats)[seat := PublicTicket(tickets[i])]
  {
    hide PublicTicket, Slot;
    var left, right := Slots(size, tickets[..i + 1], seats + [seat]), Slots(size, tickets[..i], seats)[seat := PublicTicket(tickets[i])];
    forall j | 0 <= j < size ensures left[j] == right[j] {
      SlotStep(tickets, seats, i, seat, j);
    }
    assert left == right;
  }

  lemma NoSlots(size: nat)
    ensures Slots(size, [], []) == seq(size, _ => Null)
  {
  }

  method Assign(passengers: seq<Value>, tickets: seq<Value>, same: Same) returns (shown: Option<seq<Value>>)
    ensures shown == Assigned(passengers, tickets, same)
  {
    var seen: set<nat>, numbers: set<string>, places := {}, {}, seq(|passengers|, _ => Null);
    ghost var seats: seq<nat> := [];
    NoSlots(|passengers|);
    hide WithNumbers, Numbers, PublicTicket, Slot;
    for i := 0 to |tickets|
      invariant TallyOf(passengers, tickets[..i], same) == Some(Tally(seats, numbers))
      invariant |seats| == i && forall j :: j in seen <==> j in seats
      invariant places == Slots(|passengers|, tickets[..i], seats)
    {
      OneMoreTicket(passengers, tickets, same, i);
      var hits := Hits(passengers, tickets[i], same);
      if |hits| != 1 || hits[0] in seen {
        TallyStops(passengers, tickets, same, i + 1);
        return None;
      }
      var items := Numbers(tickets[i]);
      if items == [] {
        TallyStops(passengers, tickets, same, i + 1);
        return None;
      }
      var added := AddNumbers(numbers, items);
      if added.None? {
        TallyStops(passengers, tickets, same, i + 1);
        return None;
      }
      SlotsMore(|passengers|, tickets, seats, i, hits[0]);
      numbers, seen, places := added.value, seen + {hits[0]}, places[hits[0] := PublicTicket(tickets[i])];
      seats := seats + [hits[0]];
    }
    assert tickets[..|tickets|] == tickets;
    shown := Some(places);
  }

  // ---- Some ticket numbers ------------------------------------------------------------------------------------

  function DigitChar(d: nat): char
    requires d < 10
  {
    (d + '0' as int) as char
  }

  function NumberText(n: nat): string
    requires n < 100
  {
    "00000000" + [DigitChar(n / 10), DigitChar(n % 10)]
  }

  lemma NumberIsTicket(n: nat)
    requires n < 100
    ensures TicketNumber(Text(NumberText(n)))
  {
    var zeros := "00000000";
    assert forall i :: 0 <= i < |zeros| ==> zeros[i] == '0';
  }

  lemma NumbersDiffer(m: nat, n: nat)
    requires m < 100 && n < 100 && m != n
    ensures NumberText(m) != NumberText(n)
  {
    var a, b := NumberText(m), NumberText(n);
    assert a[8] == DigitChar(m / 10) && b[8] == DigitChar(n / 10);
    assert a[9] == DigitChar(m % 10) && b[9] == DigitChar(n % 10);
  }
}
