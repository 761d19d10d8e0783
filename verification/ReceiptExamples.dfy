// An answer whose receipt shows a supplier's text (src/booking/ticketing.rs issued_response copies the
// passengers' names).
module ReceiptExamples {
  import opened Wrappers
  import opened Json
  import opened BookAnswer
  import opened TicketAssignment
  import opened PassengerNames
  import opened TicketReceipt
  import HeldFare
  import References

  // A passenger whose name has a member called prefix, which reads as a reference.
  function PrefixedPassenger(): Value {
    Object([Field("nameElement", Object([Field("firstName", Text("")), Field("lastName", Text("K")), Field("prefix", Text("S-1"))])),
            Field("passengerType", Text("ADT"))])
  }

  function PrefixedQuote(): Quote {
    Quote(Object([Field("item1", Object([Field("itemCodeRef", Text("I")), Field("priceCodeRef", Text("R")),
                                         Field("uniqueTransID", Text("U"))]))]), Null, map[])
  }

  function PrefixedInfo(): Value {
    Object([Field("bookingCodeRef", Text("B")), Field("pnr", Text("P")), Field("ticketCodeRef", Text("T")),
            Field("ticketInfoes", Array([OwnTicket(PrefixedPassenger(), 0)]))])
  }

  function PrefixedAnswer(): Value {
    Object([Field("item1", PrefixedInfo()), Field("item2", Object([Field("isSuccess", Bool(true))]))])
  }

  lemma FourMembers(info: Value, keys: seq<string>, values: seq<Value>, other: string)
    requires |keys| == |values| == 4
    requires info == Object([Field(keys[0], values[0]), Field(keys[1], values[1]), Field(keys[2], values[2]), Field(keys[3], values[3])])
    requires forall i, j :: 0 <= i < j < 4 ==> keys[i] != keys[j]
    ensures other !in keys ==> Get(info, other).None?
    ensures forall i :: 0 <= i < 4 ==> Get(info, keys[i]) == Some(values[i])
  {
    hide Lookup;
    if other !in keys {
      LookupNone(info.fields, other);
    }
    forall i | 0 <= i < 4 ensures Get(info, keys[i]) == Some(values[i]) {
      LookupAt(info.fields, keys[i], i);
    }
  }

  predicate Missing(key: string) {
    key in ["uniqueTransID", "itemCodeRef", "priceCodeRef", "flightInfo", "totalPrice", "passengerFares", "bookingComponents"]
  }

  // By length, and among keys of one length by a letter.
  lemma KeysApart(key: string, keys: seq<string>)
    requires keys == ["bookingCodeRef", "pnr", "ticketCodeRef", "ticketInfoes"]
    ensures |keys[0]| == 14 && |keys[1]| == 3 && |keys[2]| == 13 && |keys[3]| == 12
    ensures Missing(key) ==> (|key| >= 10 && key[0] !in ['b', 't']) || |key| in [10, 17]
  {
  }

  lemma NotAmong(key: string, keys: seq<string>)
    requires keys == ["bookingCodeRef", "pnr", "ticketCodeRef", "ticketInfoes"]
    ensures Missing(key) ==> key !in keys
    ensures forall i, j :: 0 <= i < j < 4 ==> keys[i] != keys[j]
  {
    KeysApart(key, keys);
    assert keys[0][0] == 'b' && keys[2][0] == 't' && keys[3][0] == 't';
    hide Missing;
  }

  lemma MissingKeys()
    ensures Missing("uniqueTransID") && Missing("itemCodeRef") && Missing("priceCodeRef") && Missing("flightInfo")
    ensures Missing("totalPrice") && Missing("passengerFares") && Missing("bookingComponents")
  {
  }

  lemma PrefixedKeys(other: string)
    ensures Missing(other) ==> Get(PrefixedInfo(), other).None?
    ensures Get(PrefixedInfo(), "bookingCodeRef") == Some(Text("B")) && Get(PrefixedInfo(), "pnr") == Some(Text("P"))
    ensures Get(PrefixedInfo(), "ticketCodeRef") == Some(Text("T"))
    ensures Get(PrefixedInfo(), "ticketInfoes") == Some(Array([OwnTicket(PrefixedPassenger(), 0)]))
  {
    var keys := ["bookingCodeRef", "pnr", "ticketCodeRef", "ticketInfoes"];
    var values := [Text("B"), Text("P"), Text("T"), Array([OwnTicket(PrefixedPassenger(), 0)])];
    hide Lookup, OwnTicket, PrefixedPassenger, Missing, Get;
    NotAmong(other, keys);
    FourMembers(PrefixedInfo(), keys, values, other);
    assert Get(PrefixedInfo(), keys[0]) == Some(values[0]) && Get(PrefixedInfo(), keys[1]) == Some(values[1]);
    assert Get(PrefixedInfo(), keys[2]) == Some(values[2]) && Get(PrefixedInfo(), keys[3]) == Some(values[3]);
  }

  // Everything else a receipt or a projection looks for is missing from the answer.
  lemma PrefixedLacks(other: string)
    requires Missing(other)
    ensures Get(PrefixedInfo(), other).None?
  {
    hide Missing, Get, PrefixedInfo;
    PrefixedKeys(other);
  }

  lemma PrefixedTop()
    ensures Info(PrefixedAnswer()) == PrefixedInfo()
    ensures Member(Member(PrefixedAnswer(), "item2"), "isSuccess") == Bool(true)
  {
    var first, second := "item1", "item2";
    var fields := PrefixedAnswer().fields;
    assert first[4] == '1' && second[4] == '2';
    hide Lookup, PrefixedInfo;
    LookupAt(fields, first, 0);
    LookupAt(fields, second, 1);
    LookupAt(Member(PrefixedAnswer(), second).fields, "isSuccess", 0);
  }

  lemma PrefixedQuoteMembers()
    ensures var fare := Info(PrefixedQuote().original);
            && Member(fare, "itemCodeRef") == Text("I") && Member(fare, "priceCodeRef") == Text("R")
            && Member(fare, "uniqueTransID") == Text("U")
  {
    var top := PrefixedQuote().original.fields;
    var item, price, search := "itemCodeRef", "priceCodeRef", "uniqueTransID";
    assert |item| == 11 && |price| == 12 && |search| == 13;
    hide Lookup;
    LookupAt(top, "item1", 0);
    var fields := top[0].value.fields;
    LookupAt(fields, item, 0);
    LookupAt(fields, price, 1);
    LookupAt(fields, search, 2);
  }

  // An answer that repeats none of the quoted references is read with the quote's own.
  lemma SilentEvidence(quote: Quote, body: Value, pnr: string, booking: string, ticket: string, search: string, item: string, price: string)
    requires var info := Info(body);
             && Get(info, "uniqueTransID").None? && Get(info, "itemCodeRef").None? && Get(info, "priceCodeRef").None?
             && Get(info, "pnr") == Some(Text(pnr)) && Get(info, "bookingCodeRef") == Some(Text(booking))
             && Get(info, "ticketCodeRef") == Some(Text(ticket))
    requires var fare := Info(quote.original);
             && Member(fare, "uniqueTransID") == Text(search) && Member(fare, "itemCodeRef") == Text(item)
             && Member(fare, "priceCodeRef") == Text(price)
    requires "" !in [pnr, booking, ticket, search, item, price]
    requires Member(Member(body, "item2"), "isSuccess") == Bool(true)
    ensures IssueEvidence(quote, body)
  {
    var filled := [pnr, booking, ticket, search, item, price];
    hide Get, Info;
    assert filled[0] != "" && filled[1] != "" && filled[2] != "" && filled[3] != "" && filled[4] != "" && filled[5] != "";
  }

  lemma PrefixedEvidence()
    ensures IssueEvidence(PrefixedQuote(), PrefixedAnswer())
  {
    hide Lookup, PrefixedAnswer, PrefixedInfo, PrefixedQuote, IssueEvidence, Get, Member, Missing;
    MissingKeys();
    PrefixedTop();
    PrefixedQuoteMembers();
    PrefixedKeys("uniqueTransID");
    PrefixedLacks("itemCodeRef");
    PrefixedLacks("priceCodeRef");
    SilentEvidence(PrefixedQuote(), PrefixedAnswer(), "P", "B", "T", "U", "I", "R");
  }

  // Without a flight and without prices an answer is shown as it is.
  lemma NothingToPrice(body: Value, original: Value, selling: Value, flight: string, total: string, fares: string, components: string)
    requires flight == "flightInfo" && total == "totalPrice" && fares == "passengerFares" && components == "bookingComponents"
    requires Get(Info(body), flight).None? && Get(Info(body), total).None?
    requires Get(Info(body), fares).None? && Get(Info(body), components).None?
    ensures HeldFare.Projected(body, original, selling) == Some(body)
  {
    hide Get, HeldFare.FlightAccepted, HeldFare.Written;
  }

  lemma PrefixedProjected()
    ensures HeldFare.Projected(PrefixedAnswer(), Info(PrefixedQuote().original), Info(PrefixedQuote().selling)) == Some(PrefixedAnswer())
  {
    hide Lookup, PrefixedAnswer, PrefixedInfo, PrefixedQuote, Get, Member, Missing, HeldFare.Projected;
    MissingKeys();
    PrefixedTop();
    PrefixedLacks("flightInfo");
    PrefixedLacks("totalPrice");
    PrefixedLacks("passengerFares");
    PrefixedLacks("bookingComponents");
    NothingToPrice(PrefixedAnswer(), Info(PrefixedQuote().original), Info(PrefixedQuote().selling),
                   "flightInfo", "totalPrice", "passengerFares", "bookingComponents");
  }

  // Any table in which K is a letter of its own gives the passenger a surname.
  predicate Latin(script: Script) {
    script.upper('K') == "K" && !script.white('K')
  }

  lemma PrefixedName(script: Script)
    requires Latin(script)
    ensures Identity(script, PrefixedPassenger()).Some?
    ensures Member(PrefixedPassenger(), "nameElement").Object?
    ensures Get(Member(PrefixedPassenger(), "nameElement"), "prefix") == Some(Text("S-1"))
    ensures Member(PrefixedPassenger(), "passengerType").Text?
  {
    var top := PrefixedPassenger().fields;
    var name, kind, first, last, prefix := "nameElement", "passengerType", "firstName", "lastName", "prefix";
    assert |name| == 11 && |kind| == 13 && |first| == 9 && |last| == 8 && |prefix| == 6;
    SurnameOnly(script);
    hide Lookup, Words, Joined, Upper;
    LookupAt(top, name, 0);
    LookupAt(top, kind, 1);
    var fields := top[0].value.fields;
    LookupAt(fields, first, 0);
    LookupAt(fields, last, 1);
    LookupAt(fields, prefix, 2);
  }

  lemma SurnameOnly(script: Script)
    requires Latin(script)
    ensures Upper(script, Joined(Words(script, "K"))) == "K"
  {
    var k := "K";
    assert k[..0] == "" && Words(script, "") == [];
    assert Words(script, k) == [['K']];
    assert k[1..] == "";
  }

  lemma OnePassenger(script: Script, supplier: string, verified: bool, passenger: Value)
    requires Identity(script, passenger).Some?
    ensures Assigned([passenger], [OwnTicket(passenger, 0)], Persons(script, supplier)(verified)).Some?
  {
    var passengers, same := [passenger], Persons(script, supplier)(verified);
    assert ToldApart(script, Lenient(supplier, verified), passengers);
    hide Identity, Persons, Lenient, OwnTicket, ToldApart;
    OwnSeat(script, supplier, verified, passengers, 0);
    OwnNumbersApart(passengers);
    assert OwnTickets(passengers) == [OwnTicket(passenger, 0)];
    assert Seated(passengers, [OwnTicket(passenger, 0)], same, [0]) by {
      hide OnlySeat;
    }
    AssignedExactlyWhen(passengers, [OwnTicket(passenger, 0)], same);
    hide *;
  }

  lemma PrefixedTickets()
    ensures TicketsOf(PrefixedAnswer()) == [OwnTicket(PrefixedPassenger(), 0)]
  {
    hide Lookup, PrefixedAnswer, PrefixedInfo, PrefixedPassenger, OwnTicket;
    PrefixedTop();
    PrefixedKeys("");
  }

  lemma PrefixedIsReceipted(own: References.Identities, ids: References.Supply, issue: string, script: Script, supplier: string)
    requires Latin(script)
    ensures Receipt(PrefixedQuote(), own, ids, issue, Array([PrefixedPassenger()]), script, supplier, PrefixedAnswer()).Some?
    ensures TicketsOf(PrefixedAnswer()) == [OwnTicket(PrefixedPassenger(), 0)]
  {
    hide IssueEvidence, HeldFare.Projected, PrefixedQuote, PrefixedAnswer, PrefixedInfo, PrefixedPassenger, OwnTicket, Assigned,
         CountsVerified, Completed, Public, Persons, Identity, Member, Get;
    PrefixedEvidence();
    PrefixedProjected();
    PrefixedTickets();
    PrefixedName(script);
    OnePassenger(script, supplier, CountsVerified(PrefixedQuote(), PrefixedAnswer()), PrefixedPassenger());
    hide TicketsOf;
  }

  lemma PrefixIsOpaque(key: string)
    requires key == "prefix"
    ensures References.Opaque(key)
  {
    var lower := References.LowerAll(key);
    assert lower[1] == 'r' && lower[2] == 'e' && lower[3] == 'f';
    assert lower[1..][..3] == "ref";
    assert "ref" <= lower[1..];
    assert References.Contains(lower[1..], "ref");
  }

  lemma PrefixedHolds(script: Script)
    requires Latin(script)
    ensures "S-1" in References.ReferencesOf(Member(PrefixedPassenger(), "nameElement"))
  {
    PrefixedName(script);
    PrefixIsOpaque("prefix");
    hide PrefixedPassenger, References.Opaque, References.ReferencesOf, Identity;
    References.MemberWithin(Member(PrefixedPassenger(), "nameElement"), "prefix");
    var text := Text("S-1");
    assert References.FieldReferences(Field("prefix", text)) == {text.text};
  }

  // Whatever a ticket's name holds is shown.
  lemma NameIsShown(quote: Quote, own: References.Identities, ids: References.Supply, issue: string, passengers: Value, script: Script,
                    supplier: string, body: Value, ticket: Value, text: string, platform: iset<string>)
    requires Receipt(quote, own, ids, issue, passengers, script, supplier, body).Some? && TicketsOf(body) == [ticket]
    requires References.AllPlatform(quote.references, platform) && References.SuppliesPlatform(ids, platform)
    requires References.OwnPlatform(own, platform) && issue in platform && "" !in platform && OnlyFrom(quote.selling, platform)
    requires text in References.ReferencesOf(Member(Holder(ticket), "nameElement")) && text !in platform
    ensures !OnlyFrom(Receipt(quote, own, ids, issue, passengers, script, supplier, body).value, platform)
  {
    hide Receipt, TicketsOf, References.ReferencesOf, References.SuppliesPlatform, References.AllPlatform, Member, Holder;
    ReceiptIsPlatformOnlyIff(quote, own, ids, issue, passengers, script, supplier, body, platform);
    assert !NamesOnlyFrom(TicketsOf(body)[0], platform);
  }

  lemma PrefixedQuoteIsPlatform(platform: iset<string>)
    ensures References.AllPlatform(PrefixedQuote().references, platform) && OnlyFrom(PrefixedQuote().selling, platform)
  {
  }

  // An answer all of whose other references are rewritten, whose receipt still shows the supplier's text
  // from a passenger's name, whatever ids the platform uses, unless it is one of them.
  lemma SupplierTextShown(own: References.Identities, ids: References.Supply, issue: string, script: Script, supplier: string,
                          platform: iset<string>)
    requires Latin(script)
    requires References.SuppliesPlatform(ids, platform) && References.OwnPlatform(own, platform)
    requires issue in platform && "" !in platform && "S-1" !in platform
    ensures var receipt := Receipt(PrefixedQuote(), own, ids, issue, Array([PrefixedPassenger()]), script, supplier, PrefixedAnswer());
            receipt.Some? && !OnlyFrom(receipt.value, platform)
  {
    hide Receipt, TicketsOf, PrefixedQuote, PrefixedAnswer, PrefixedPassenger, OwnTicket, OnlyFrom, References.ReferencesOf,
         References.SuppliesPlatform, References.AllPlatform, References.OwnPlatform, Latin, Member, Holder;
    PrefixedIsReceipted(own, ids, issue, script, supplier);
    PrefixedHolds(script);
    OwnTicketParts(PrefixedPassenger(), 0);
    PrefixedQuoteIsPlatform(platform);
    NameIsShown(PrefixedQuote(), own, ids, issue, Array([PrefixedPassenger()]), script, supplier, PrefixedAnswer(),
                OwnTicket(PrefixedPassenger(), 0), "S-1", platform);
  }
}
