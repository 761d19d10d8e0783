// A verified Book answer as the client sees it (src/booking.rs held_response and
// project_booking_response): checked against the accepted quote, priced for selling, and with every
// reference replaced by an id of the platform.
module BookAnswer {
  import opened Wrappers
  import opened Json
  import References
  import HeldFare

  // What the booking worker keeps of its quote: the RePrice answer, the selling answer made from it
  // and the map from supplier references to platform ids.
  datatype Quote = Quote(original: Value, selling: Value, references: References.Entries)

  function Info(body: Value): Value {
    Member(body, "item1")
  }

  function InfoText(body: Option<Value>, key: string): Option<string> {
    if body.Some? then AsText(Member(Info(body.value), key)) else None
  }

  predicate Filled(text: Option<string>) {
    text.Some? && text.value != ""
  }

  // A hold counts only with a success flag, status Created, both references and no ticket number.
  predicate HoldEvidence(body: Value) {
    && Member(Member(body, "item2"), "isSuccess") == Bool(true)
    && Member(Info(body), "bookingStatus") == Text("Created")
    && Filled(InfoText(Some(body), "pnr"))
    && Filled(InfoText(Some(body), "bookingCodeRef"))
    && !References.ContainsTicket(body)
  }

  // The quote's map with the supplier's booking reference standing for this booking.
  function AnswerMap(quote: Quote, own: References.Identities, body: Value): References.Entries {
    var code := InfoText(Some(body), "bookingCodeRef");
    if code.Some? then quote.references[code.value := Text(own.booking)] else quote.references
  }

  function Rewritten(quote: Quote, own: References.Identities, ids: References.Supply, body: Value, priced: Value): Value {
    References.BindIdentities(References.Bind(priced, References.Map(AnswerMap(quote, own, body), 0), ids).0, own)
  }

  // The fare display of the quote, shown with the answer and with its flight.
  function Breakdown(quote: Quote): Option<Value> {
    Get(Info(quote.selling), "fareBreakdown")
  }

  function WithDisplay(info: Value, breakdown: Value): Value {
    var shown := Put(info, "fareBreakdown", breakdown);
    var flight := Get(shown, "flightInfo");
    if flight.Some? && flight.value.Object? then Put(shown, "flightInfo", Put(flight.value, "fareBreakdown", breakdown)) else shown
  }

  // An accepted answer has its information as an object.
  function Displayed(v: Value, breakdown: Option<Value>): Value {
    if breakdown.None? || !Info(v).Object? then v else Put(v, "item1", WithDisplay(Info(v), breakdown.value))
  }

  function Completed(quote: Quote, own: References.Identities, ids: References.Supply, body: Value, priced: Value): Value {
    Displayed(Rewritten(quote, own, ids, body, priced), Breakdown(quote))
  }

  function Answered(quote: Quote, own: References.Identities, ids: References.Supply, body: Value): Option<Value> {
    if !HoldEvidence(body) then None
    else
      var priced := HeldFare.Projected(body, Info(quote.original), Info(quote.selling));
      if priced.None? then None else Some(Completed(quote, own, ids, body, priced.value))
  }

  // ---- What rewriting leaves at a path -----------------------------------------------------------------

  // Values that no reference rewriting touches.
  predicate Plain(v: Value) {
    v.Null? || v.Bool? || v.Number?
  }

  lemma {:induction false} SubstituteLookup(fields: seq<Field>, entries: References.Entries, key: string)
    ensures var found := Lookup(fields, key);
            Lookup(References.SubstituteFields(fields, entries), key) ==
            if found.None? then None else Some(References.SubstituteField(Field(key, found.value), entries).value)
  {
    if fields != [] {
      SubstituteLookup(fields[1..], entries, key);
      var bound := References.SubstituteFields(fields, entries);
      assert bound[1..] == References.SubstituteFields(fields[1..], entries);
    }
    hide References.Opaque, References.Substitute;
  }

  lemma {:induction false} SubstituteItem(items: seq<Value>, entries: References.Entries, i: nat)
    requires i < |items|
    ensures |References.SubstituteItems(items, entries)| == |items|
    ensures References.SubstituteItems(items, entries)[i] == References.Substitute(items[i], entries)
  {
    SubstituteSize(items, entries);
    if i > 0 {
      SubstituteItem(items[1..], entries, i - 1);
    }
    hide References.Substitute;
  }

  lemma {:induction false} SubstituteSize(items: seq<Value>, entries: References.Entries)
    ensures |References.SubstituteItems(items, entries)| == |items|
  {
    if items != [] {
      SubstituteSize(items[1..], entries);
    }
  }

  lemma SubstituteChild(v: Value, entries: References.Entries, step: HeldFare.Step)
    requires HeldFare.Child(v, step).Some? && !HeldFare.Child(v, step).value.Text?
    ensures HeldFare.Child(References.Substitute(v, entries), step) ==
            Some(References.Substitute(HeldFare.Child(v, step).value, entries))
  {
    match step
    case Name(key) => SubstituteLookup(v.fields, entries, key); hide References.Opaque;
    case At(index) => SubstituteItem(v.items, entries, index);
  }

  lemma ChildNotText(v: Value, path: HeldFare.Path)
    requires path != [] && HeldFare.GetIn(v, path).Some?
    ensures !v.Text?
  {
  }

  lemma {:induction false} SubstituteAt(v: Value, entries: References.Entries, path: HeldFare.Path)
    requires HeldFare.GetIn(v, path).Some? && Plain(HeldFare.GetIn(v, path).value)
    ensures HeldFare.GetIn(References.Substitute(v, entries), path) == HeldFare.GetIn(v, path)
    decreases |path|
  {
    if path != [] {
      var child := HeldFare.Child(v, path[0]).value;
      if path[1..] != [] {
        ChildNotText(child, path[1..]);
      }
      SubstituteChild(v, entries, path[0]);
      SubstituteAt(child, entries, path[1..]);
      hide HeldFare.Child, References.Substitute;
    }
  }

  lemma {:induction false} IdentityLookup(fields: seq<Field>, own: References.Identities, key: string)
    ensures var found := Lookup(fields, key);
            Lookup(References.BindFieldIdentities(fields, own), key) ==
            if found.None? then None else Some(References.BindIdentity(Field(key, found.value), own).value)
  {
    if fields != [] {
      IdentityLookup(fields[1..], own, key);
      var bound := References.BindFieldIdentities(fields, own);
      assert bound[1..] == References.BindFieldIdentities(fields[1..], own);
    }
    hide References.IdentityOf, References.BindIdentities;
  }

  lemma {:induction false} IdentityItem(items: seq<Value>, own: References.Identities, i: nat)
    requires i < |items|
    ensures |References.BindItemIdentities(items, own)| == |items|
    ensures References.BindItemIdentities(items, own)[i] == References.BindIdentities(items[i], own)
  {
    IdentitySize(items, own);
    if i > 0 {
      IdentityItem(items[1..], own, i - 1);
    }
    hide References.BindIdentities;
  }

  lemma {:induction false} IdentitySize(items: seq<Value>, own: References.Identities)
    ensures |References.BindItemIdentities(items, own)| == |items|
  {
    if items != [] {
      IdentitySize(items[1..], own);
    }
  }

  lemma IdentityChild(v: Value, own: References.Identities, step: HeldFare.Step)
    requires HeldFare.Child(v, step).Some? && !HeldFare.Child(v, step).value.Text?
    ensures HeldFare.Child(References.BindIdentities(v, own), step) ==
            Some(References.BindIdentities(HeldFare.Child(v, step).value, own))
  {
    match step
    case Name(key) => IdentityLookup(v.fields, own, key); hide References.IdentityOf;
    case At(index) => IdentityItem(v.items, own, index);
  }

  lemma {:induction false} IdentitiesAt(v: Value, own: References.Identities, path: HeldFare.Path)
    requires HeldFare.GetIn(v, path).Some? && Plain(HeldFare.GetIn(v, path).value)
    ensures HeldFare.GetIn(References.BindIdentities(v, own), path) == HeldFare.GetIn(v, path)
    decreases |path|
  {
    if path != [] {
      var child := HeldFare.Child(v, path[0]).value;
      if path[1..] != [] {
        ChildNotText(child, path[1..]);
      }
      IdentityChild(v, own, path[0]);
      IdentitiesAt(child, own, path[1..]);
      hide HeldFare.Child, References.BindIdentities;
    }
  }

  lemma RewrittenAt(quote: Quote, own: References.Identities, ids: References.Supply, body: Value, priced: Value, path: HeldFare.Path)
    requires HeldFare.GetIn(priced, path).Some? && Plain(HeldFare.GetIn(priced, path).value)
    ensures HeldFare.GetIn(Rewritten(quote, own, ids, body, priced), path) == HeldFare.GetIn(priced, path)
  {
    var m := References.Map(AnswerMap(quote, own, body), 0);
    var bound := References.Bind(priced, m, ids);
    References.BindIsSubstitution(priced, m, ids);
    SubstituteAt(priced, bound.1.entries, path);
    IdentitiesAt(bound.0, own, path);
    hide HeldFare.GetIn, References.Bind, References.Substitute, References.BindIdentities, AnswerMap;
  }

  // ---- Texts at a path ----------------------------------------------------------------------------------

  lemma PathEnds(v: Value, path: HeldFare.Path, key: string)
    requires HeldFare.GetIn(v, path + [HeldFare.Name(key)]).Some?
    ensures !v.Text?
    ensures path == [] ==> HeldFare.GetIn(v, path + [HeldFare.Name(key)]) == Get(v, key)
    ensures path != [] ==>
              && HeldFare.Child(v, path[0]).Some? && !HeldFare.Child(v, path[0]).value.Text?
              && HeldFare.GetIn(v, path + [HeldFare.Name(key)]) ==
                 HeldFare.GetIn(HeldFare.Child(v, path[0]).value, path[1..] + [HeldFare.Name(key)])
  {
    var whole := path + [HeldFare.Name(key)];
    if path != [] {
      assert whole[0] == path[0] && whole[1..] == path[1..] + [HeldFare.Name(key)];
      ChildNotText(HeldFare.Child(v, path[0]).value, whole[1..]);
    } else {
      assert whole[0] == HeldFare.Name(key) && whole[1..] == [];
    }
    hide Get;
  }

  lemma PathThrough(v: Value, path: HeldFare.Path, key: string, child: Value)
    requires path != [] && HeldFare.Child(v, path[0]) == Some(child)
    ensures HeldFare.GetIn(v, path + [HeldFare.Name(key)]) == HeldFare.GetIn(child, path[1..] + [HeldFare.Name(key)])
  {
    var whole := path + [HeldFare.Name(key)];
    assert whole[0] == path[0] && whole[1..] == path[1..] + [HeldFare.Name(key)];
    hide HeldFare.Child;
  }

  lemma PathAtEnd(v: Value, key: string)
    ensures HeldFare.GetIn(v, [] + [HeldFare.Name(key)]) == Get(v, key)
  {
    var whole := [] + [HeldFare.Name(key)];
    assert whole == [HeldFare.Name(key)] && whole[1..] == [];
    hide Get;
  }

  lemma {:induction false} SubstituteTextAt(v: Value, entries: References.Entries, path: HeldFare.Path, key: string, text: string)
    requires HeldFare.GetIn(v, path + [HeldFare.Name(key)]) == Some(Text(text))
    requires References.IsReference(Field(key, Text(text))) && text in entries
    ensures HeldFare.GetIn(References.Substitute(v, entries), path + [HeldFare.Name(key)]) == Some(entries[text])
    decreases |path|
  {
    hide HeldFare.GetIn, References.IsReference;
    PathEnds(v, path, key);
    if path == [] {
      SubstituteLookup(v.fields, entries, key);
      PathAtEnd(References.Substitute(v, entries), key);
    } else {
      var child := HeldFare.Child(v, path[0]).value;
      SubstituteChild(v, entries, path[0]);
      SubstituteTextAt(child, entries, path[1..], key, text);
      hide HeldFare.Child, References.Substitute;
      PathThrough(References.Substitute(v, entries), path, key, References.Substitute(child, entries));
    }
  }

  lemma {:induction false} IdentityTextAt(v: Value, own: References.Identities, path: HeldFare.Path, key: string, text: string)
    requires HeldFare.GetIn(v, path + [HeldFare.Name(key)]) == Some(Text(text))
    ensures HeldFare.GetIn(References.BindIdentities(v, own), path + [HeldFare.Name(key)]) ==
            Some(Text(if References.IdentityOf(key, own).Some? then References.IdentityOf(key, own).value else text))
    decreases |path|
  {
    hide HeldFare.GetIn, References.IdentityOf;
    PathEnds(v, path, key);
    if path == [] {
      IdentityLookup(v.fields, own, key);
      PathAtEnd(References.BindIdentities(v, own), key);
    } else {
      var child := HeldFare.Child(v, path[0]).value;
      IdentityChild(v, own, path[0]);
      IdentityTextAt(child, own, path[1..], key, text);
      hide HeldFare.Child, References.BindIdentities;
      PathThrough(References.BindIdentities(v, own), path, key, References.BindIdentities(child, own));
    }
  }

  lemma {:induction false} ItemWithin(items: seq<Value>, i: nat)
    requires i < |items|
    ensures References.ReferencesOf(items[i]) <= References.ItemsReferences(items)
  {
    hide References.ReferencesOf;
    if i > 0 {
      ItemWithin(items[1..], i - 1);
    }
  }

  lemma ChildWithin(v: Value, step: HeldFare.Step)
    requires HeldFare.Child(v, step).Some? && !HeldFare.Child(v, step).value.Text?
    ensures References.ReferencesOf(HeldFare.Child(v, step).value) <= References.ReferencesOf(v)
  {
    match step
    case Name(key) => References.MemberWithin(v, key); hide References.Opaque;
    case At(index) => ItemWithin(v.items, index);
  }

  lemma {:induction false} ReferenceWithin(v: Value, path: HeldFare.Path, key: string, text: string)
    requires HeldFare.GetIn(v, path + [HeldFare.Name(key)]) == Some(Text(text)) && References.IsReference(Field(key, Text(text)))
    ensures text in References.ReferencesOf(v)
    decreases |path|
  {
    hide HeldFare.GetIn, References.Opaque, References.ReferencesOf;
    PathEnds(v, path, key);
    if path == [] {
      References.MemberWithin(v, key);
    } else {
      ChildWithin(v, path[0]);
      ReferenceWithin(HeldFare.Child(v, path[0]).value, path[1..], key, text);
      hide HeldFare.Child;
    }
  }

  // What stands for one reference of the answer in the map that its walk ends with.
  lemma BoundTo(quote: Quote, own: References.Identities, ids: References.Supply, body: Value, priced: Value, text: string)
    requires text in References.ReferencesOf(priced)
    requires text in quote.references ==> quote.references[text].Text?
    ensures var entries := References.Bind(priced, References.Map(AnswerMap(quote, own, body), 0), ids).1.entries;
            && text in entries && entries[text].Text?
            && (if InfoText(Some(body), "bookingCodeRef") == Some(text) then entries[text] == Text(own.booking)
                else text in quote.references ==> entries[text] == quote.references[text])
  {
    var m := References.Map(AnswerMap(quote, own, body), 0);
    References.BindGrows(priced, m, ids);
    hide References.Bind, References.ReferencesOf, InfoText, References.Injective;
    var after := References.Bind(priced, m, ids).1;
    if text !in m.entries {
      assert References.Issued(after.entries[text], m.issued, after.issued, ids);
    }
  }

  // The text that stands for a reference of the answer at any depth: under the four names the booking's own
  // ids, elsewhere the quote's id for what the quote named, and the booking's for its supplier reference.
  lemma ReferenceShown(quote: Quote, own: References.Identities, ids: References.Supply, body: Value, priced: Value,
                       path: HeldFare.Path, key: string, text: string)
    requires HeldFare.GetIn(priced, path + [HeldFare.Name(key)]) == Some(Text(text)) && text != "" && References.Opaque(key)
    requires text in quote.references ==> quote.references[text].Text?
    ensures var shown := HeldFare.GetIn(Rewritten(quote, own, ids, body, priced), path + [HeldFare.Name(key)]);
            if key == "uniqueTransID" then shown == Some(Text(own.search))
            else if key == "itemCodeRef" then shown == Some(Text(own.offer))
            else if key == "priceCodeRef" then shown == Some(Text(own.price))
            else if key == "bookingCodeRef" then shown == Some(Text(own.booking))
            else if InfoText(Some(body), "bookingCodeRef") == Some(text) then shown == Some(Text(own.booking))
            else text in quote.references ==> shown == Some(quote.references[text])
  {
    var m := References.Map(AnswerMap(quote, own, body), 0);
    hide HeldFare.GetIn, References.Bind, References.Substitute, References.BindIdentities, References.ReferencesOf, References.Opaque,
         AnswerMap, InfoText;
    var bound := References.Bind(priced, m, ids);
    References.BindIsSubstitution(priced, m, ids);
    ReferenceWithin(priced, path, key, text);
    BoundTo(quote, own, ids, body, priced, text);
    SubstituteTextAt(priced, bound.1.entries, path, key, text);
    IdentityTextAt(bound.0, own, path, key, bound.1.entries[text].text);
  }

  // The four names stand for the booking's own ids wherever the tree has them.
  ghost predicate NamesOwn(v: Value, own: References.Identities) {
    forall path: HeldFare.Path, key: string, text: string ::
      HeldFare.GetIn(v, path + [HeldFare.Name(key)]) == Some(Text(text)) ==>
        && (key == "uniqueTransID" ==> text == own.search)
        && (key == "itemCodeRef" ==> text == own.offer)
        && (key == "priceCodeRef" ==> text == own.price)
        && (key == "bookingCodeRef" ==> text == own.booking)
  }

  lemma {:induction false} IdentifiedLookup(fields: seq<Field>, own: References.Identities, key: string)
    requires References.FieldsIdentified(fields, own) && Lookup(fields, key).Some?
    ensures References.FieldIdentified(Field(key, Lookup(fields, key).value), own)
  {
    hide References.FieldIdentified;
    if fields[0].key == key {
      assert fields[0] == Field(key, Lookup(fields, key).value);
    } else {
      IdentifiedLookup(fields[1..], own, key);
    }
  }

  lemma {:induction false} IdentifiedItem(items: seq<Value>, own: References.Identities, i: nat)
    requires References.ItemsIdentified(items, own) && i < |items|
    ensures References.Identified(items[i], own)
  {
    hide References.Identified;
    if i > 0 {
      IdentifiedItem(items[1..], own, i - 1);
    }
  }

  lemma IdentifiedChild(v: Value, own: References.Identities, step: HeldFare.Step)
    requires References.Identified(v, own) && HeldFare.Child(v, step).Some? && !HeldFare.Child(v, step).value.Text?
    ensures References.Identified(HeldFare.Child(v, step).value, own)
  {
    match step
    case Name(key) => IdentifiedLookup(v.fields, own, key); hide References.IdentityOf;
    case At(index) => IdentifiedItem(v.items, own, index);
  }

  lemma {:induction false} IdentifiedAt(v: Value, own: References.Identities, path: HeldFare.Path, key: string, text: string)
    requires References.Identified(v, own) && HeldFare.GetIn(v, path + [HeldFare.Name(key)]) == Some(Text(text))
    ensures References.IdentityOf(key, own).Some? ==> text == References.IdentityOf(key, own).value
    decreases |path|
  {
    hide HeldFare.GetIn, References.IdentityOf;
    PathEnds(v, path, key);
    if path == [] {
      IdentifiedLookup(v.fields, own, key);
    } else {
      IdentifiedChild(v, own, path[0]);
      hide References.Identified, HeldFare.Child;
      IdentifiedAt(HeldFare.Child(v, path[0]).value, own, path[1..], key, text);
    }
  }

  lemma IdentifiedNamesOwn(v: Value, own: References.Identities)
    requires References.Identified(v, own)
    ensures NamesOwn(v, own)
  {
    hide HeldFare.GetIn, References.Identified;
    forall path: HeldFare.Path, key: string, text: string | HeldFare.GetIn(v, path + [HeldFare.Name(key)]) == Some(Text(text))
      ensures (key == "uniqueTransID" ==> text == own.search)
      ensures (key == "itemCodeRef" ==> text == own.offer)
      ensures (key == "priceCodeRef" ==> text == own.price)
      ensures (key == "bookingCodeRef" ==> text == own.booking)
    {
      IdentifiedAt(v, own, path, key, text);
    }
  }

  // ---- What the display leaves alone -------------------------------------------------------------------

  // A path under the flight information depends on that alone.
  lemma FlightAt(v: Value, place: HeldFare.Place)
    ensures HeldFare.GetIn(v, HeldFare.PathOf(place)) ==
            var flight := Get(Info(v), "flightInfo");
            if flight.None? then None else HeldFare.GetIn(flight.value, HeldFare.PathOf(place)[2..])
  {
    var path := HeldFare.PathOf(place);
    assert path[0] == HeldFare.Name("item1") && path[1..][0] == HeldFare.Name("flightInfo");
    assert path[1..][1..] == path[2..];
    var first := HeldFare.Child(v, path[0]);
    assert first == Get(v, "item1");
    if first.Some? {
      assert HeldFare.GetIn(v, path) == HeldFare.GetIn(first.value, path[1..]);
    }
    hide HeldFare.PathOf;
  }

  lemma DisplayKeys(display: string, flight: string)
    requires display == "fareBreakdown" && flight == "flightInfo"
    ensures display != flight
    ensures forall place :: HeldFare.PathOf(place)[2..][0] != HeldFare.Name(display)
  {
    assert |display| == 13 && |flight| == 10;
  }

  lemma DisplayedInfo(v: Value, breakdown: Option<Value>)
    ensures Info(Displayed(v, breakdown)) ==
            if breakdown.None? || !Info(v).Object? then Info(v) else WithDisplay(Info(v), breakdown.value)
  {
    if breakdown.Some? && Info(v).Object? {
      PutGet(v, "item1", WithDisplay(Info(v), breakdown.value), "item1");
    }
    hide WithDisplay, Put;
  }

  // The flight as it was, or with the display added.
  lemma DisplayedFlight(v: Value, breakdown: Option<Value>)
    ensures var was, now := Get(Info(v), "flightInfo"), Get(Info(Displayed(v, breakdown)), "flightInfo");
            now == if breakdown.None? || was.None? || !was.value.Object? then was
                   else Some(Put(was.value, "fareBreakdown", breakdown.value))
  {
    DisplayedInfo(v, breakdown);
    if breakdown.Some? && Info(v).Object? {
      var info, display, flight := Info(v), "fareBreakdown", "flightInfo";
      DisplayKeys(display, flight);
      PutGet(info, display, breakdown.value, flight);
      var shown := Put(info, display, breakdown.value);
      var was := Get(info, flight);
      if was.Some? && was.value.Object? {
        PutGet(shown, flight, Put(was.value, display, breakdown.value), flight);
      }
    }
    hide Put, Displayed;
  }

  lemma PutPath(v: Value, key: string, value: Value, path: HeldFare.Path)
    requires v.Object? && path != [] && path[0] != HeldFare.Name(key)
    ensures HeldFare.GetIn(Put(v, key, value), path) == HeldFare.GetIn(v, path)
  {
    if path[0].Name? {
      PutGet(v, key, value, path[0].key);
    }
    hide Put;
  }

  // No price is shown under the display, so every price stays where it was.
  lemma DisplayedAt(v: Value, breakdown: Option<Value>, place: HeldFare.Place)
    ensures HeldFare.GetIn(Displayed(v, breakdown), HeldFare.PathOf(place)) == HeldFare.GetIn(v, HeldFare.PathOf(place))
  {
    FlightAt(v, place);
    FlightAt(Displayed(v, breakdown), place);
    DisplayedFlight(v, breakdown);
    DisplayKeys("fareBreakdown", "flightInfo");
    var was := Get(Info(v), "flightInfo");
    if breakdown.Some? && was.Some? && was.value.Object? {
      PutPath(was.value, "fareBreakdown", breakdown.value, HeldFare.PathOf(place)[2..]);
    }
    hide Put, Displayed, HeldFare.GetIn, HeldFare.PathOf, Get, Info;
  }

  lemma {:induction false} InsertedReferences(fields: seq<Field>, key: string, value: Value)
    ensures References.FieldsReferences(Inserted(fields, key, value)) <=
            References.FieldsReferences(fields) + References.FieldReferences(Field(key, value))
  {
    hide References.FieldReferences, Before;
    var field := Field(key, value);
    if fields == [] {
      References.OneReference(field);
    } else if fields[0].key == key {
      References.ReferencesTogether([field], fields[1..]);
      References.OneReference(field);
    } else if Before(key, fields[0].key) {
      References.ReferencesTogether([field], fields);
      References.OneReference(field);
    } else {
      InsertedReferences(fields[1..], key, value);
      References.ReferencesTogether([fields[0]], Inserted(fields[1..], key, value));
      References.OneReference(fields[0]);
    }
  }

  lemma PutReferences(v: Value, key: string, value: Value)
    ensures References.ReferencesOf(Put(v, key, value)) <= References.ReferencesOf(v) + References.FieldReferences(Field(key, value))
  {
    if v.Object? {
      InsertedReferences(v.fields, key, value);
    }
    hide Inserted, References.FieldReferences, References.FieldsReferences;
  }

  // The display adds its own references and no others.
  lemma DisplayedReferences(v: Value, breakdown: Option<Value>)
    ensures References.ReferencesOf(Displayed(v, breakdown)) <= References.ReferencesOf(v) +
            if breakdown.Some? then References.FieldReferences(Field("fareBreakdown", breakdown.value)) else {}
  {
    hide References.ReferencesOf, References.FieldReferences, Put;
    if breakdown.Some? && Info(v).Object? {
      var info, display := Info(v), "fareBreakdown";
      var shown := Put(info, display, breakdown.value);
      var flight := Get(shown, "flightInfo");
      References.MemberWithin(v, "item1");
      PutReferences(info, display, breakdown.value);
      if flight.Some? && flight.value.Object? {
        References.MemberWithin(shown, "flightInfo");
        PutReferences(flight.value, display, breakdown.value);
        var inner := Put(flight.value, display, breakdown.value);
        PutIsObject(flight.value, display, breakdown.value);
        PutReferences(shown, "flightInfo", inner);
        References.HeldByObject(Field("flightInfo", inner));
        PutIsObject(shown, "flightInfo", inner);
      }
      PutIsObject(info, display, breakdown.value);
      PutReferences(v, "item1", WithDisplay(info, breakdown.value));
      References.HeldByObject(Field("item1", WithDisplay(info, breakdown.value)));
    }
  }

  lemma PutIsObject(v: Value, key: string, value: Value)
    ensures Put(v, key, value).Object? <==> v.Object?
  {
  }

  // Writing below the information leaves it an object.
  lemma SetInKeepsInfo(v: Value, path: HeldFare.Path, value: Value)
    requires Info(v).Object? && BelowInfo(path)
    ensures Info(HeldFare.SetIn(v, path, value)).Object?
  {
    var info, item := Info(v), path[0];
    assert HeldFare.Child(v, item) == Some(info);
    var written := HeldFare.SetIn(info, path[1..], value);
    assert path[1..] != [] && written.Object?;
    HeldFare.WithChildAt(v, item, written, item);
    assert HeldFare.Child(HeldFare.WithChild(v, item, written), item) == Get(HeldFare.WithChild(v, item, written), "item1");
    hide HeldFare.WithChild, HeldFare.Child, Get;
  }

  predicate BelowInfo(path: HeldFare.Path) {
    |path| >= 2 && path[0] == HeldFare.Name("item1")
  }

  lemma {:induction false} WrittenKeepsInfo(v: Value, writes: seq<(HeldFare.Path, Value)>)
    requires Info(v).Object? && forall w :: w in writes ==> BelowInfo(w.0)
    ensures Info(HeldFare.Written(v, writes)).Object?
  {
    hide HeldFare.SetIn, Info;
    if writes != [] {
      var n := |writes| - 1;
      WrittenKeepsInfo(v, writes[..n]);
      SetInKeepsInfo(HeldFare.Written(v, writes[..n]), writes[n].0, writes[n].1);
    }
  }

  lemma KindWrittenBelow(flight: Value, selling: Value, kind: string)
    ensures forall w :: w in HeldFare.KindWrites(flight, selling, kind) ==> BelowInfo(w.0)
  {
    hide HeldFare.States, HeldFare.PriceIn, HeldFare.FareOf, HeldFare.KeyOf;
    assert forall place :: BelowInfo(HeldFare.PathOf(place));
  }

  lemma FlightWrittenBelow(flight: Value, selling: Value)
    ensures forall w :: w in HeldFare.FlightWrites(flight, selling) ==> BelowInfo(w.0)
  {
    hide HeldFare.States, HeldFare.PriceIn, HeldFare.ComponentOf, HeldFare.KeyOf;
    assert forall place :: BelowInfo(HeldFare.PathOf(place));
  }

  lemma {:induction false} KindsWrittenBelow(flight: Value, selling: Value, counts: seq<Field>)
    ensures forall w :: w in HeldFare.PassengerWrites(flight, selling, counts) ==> BelowInfo(w.0)
  {
    hide HeldFare.KindWrites, BelowInfo;
    if counts != [] {
      KindsWrittenBelow(flight, selling, counts[..|counts| - 1]);
      KindWrittenBelow(flight, selling, counts[|counts| - 1].key);
    }
  }

  lemma PricedInfo(body: Value, original: Value, selling: Value)
    requires HeldFare.Projected(body, original, selling).Some? && Info(body).Object?
    ensures Info(HeldFare.Projected(body, original, selling).value).Object?
  {
    hide HeldFare.PassengerWrites, HeldFare.FlightWrites, HeldFare.Written, HeldFare.FlightAccepted, HeldFare.NoLoosePrices, BelowInfo, Get;
    var flight := Get(Info(body), "flightInfo");
    if flight.Some? {
      KindsWrittenBelow(flight.value, selling, Members(Member(original, "passengerCounts")));
      FlightWrittenBelow(flight.value, selling);
      WrittenKeepsInfo(body, HeldFare.Writes(flight.value, original, selling));
    }
  }

  lemma RewrittenInfo(quote: Quote, own: References.Identities, ids: References.Supply, body: Value, priced: Value)
    requires Info(priced).Object?
    ensures Info(Rewritten(quote, own, ids, body, priced)).Object?
  {
    var m := References.Map(AnswerMap(quote, own, body), 0);
    var bound, item := References.Bind(priced, m, ids), HeldFare.Name("item1");
    References.BindIsSubstitution(priced, m, ids);
    assert HeldFare.Child(priced, item) == Some(Info(priced));
    SubstituteChild(priced, bound.1.entries, item);
    IdentityChild(bound.0, own, item);
    assert HeldFare.Child(References.BindIdentities(bound.0, own), item) == Get(References.BindIdentities(bound.0, own), "item1");
    hide References.Bind, HeldFare.Child, AnswerMap, Get;
  }

  // ---- Main results --------------------------------------------------------------------------------------

  // The display is shown with the information and with its flight.
  ghost predicate ShowsDisplay(shown: Value, breakdown: Value) {
    && Get(Info(shown), "fareBreakdown") == Some(breakdown)
    && var flight := Get(Info(shown), "flightInfo");
       flight.Some? && flight.value.Object? ==> Get(flight.value, "fareBreakdown") == Some(breakdown)
  }

  lemma CompletedShowsDisplay(quote: Quote, own: References.Identities, ids: References.Supply, body: Value)
    requires Breakdown(quote).Some? && Info(body).Object?
    requires HeldFare.Projected(body, Info(quote.original), Info(quote.selling)).Some?
    ensures var priced := HeldFare.Projected(body, Info(quote.original), Info(quote.selling)).value;
            ShowsDisplay(Completed(quote, own, ids, body, priced), Breakdown(quote).value)
  {
    var priced := HeldFare.Projected(body, Info(quote.original), Info(quote.selling)).value;
    PricedInfo(body, Info(quote.original), Info(quote.selling));
    RewrittenInfo(quote, own, ids, body, priced);
    hide HeldFare.Projected, Rewritten, Put, Displayed, Get;
    var v, display, flight := Rewritten(quote, own, ids, body, priced), "fareBreakdown", "flightInfo";
    DisplayKeys(display, flight);
    DisplayedInfo(v, Breakdown(quote));
    DisplayedFlight(v, Breakdown(quote));
    var breakdown := Breakdown(quote).value;
    var shown, was := Put(Info(v), display, breakdown), Get(Info(v), flight);
    PutGet(Info(v), display, breakdown, display);
    PutGet(Info(v), display, breakdown, flight);
    PutIsObject(Info(v), display, breakdown);
    if was.Some? && was.value.Object? {
      PutGet(was.value, display, breakdown, display);
      PutGet(shown, flight, Put(was.value, display, breakdown), display);
    }
  }

  // A text that is stated and not empty.
  predicate StatesText(v: Value) {
    v.Text? && v.text != ""
  }

  // An answer is shown exactly when it confirms a hold, issues no ticket and is for the quoted booking:
  // the same flights, currency, passengers and money.
  lemma AnsweredExactlyWhen(quote: Quote, own: References.Identities, ids: References.Supply, body: Value)
    ensures Answered(quote, own, ids, body).Some? <==>
            && Member(Member(body, "item2"), "isSuccess") == Bool(true)
            && Member(Member(body, "item1"), "bookingStatus") == Text("Created")
            && StatesText(Member(Member(body, "item1"), "pnr")) && StatesText(Member(Member(body, "item1"), "bookingCodeRef"))
            && !References.ContainsTicket(body)
            && HeldFare.AnswersQuote(body, Info(quote.original))
  {
    HeldFare.ProjectedExactlyWhen(body, Info(quote.original), Info(quote.selling));
    hide HeldFare.AnswersQuote, HeldFare.Projected, References.ContainsTicket, Member;
  }

  // What a client is shown at a place the answer states: the quote's selling amount where prices are
  // replaced, and the supplier's elsewhere.
  function QuotedAt(quote: Quote, flight: Value, place: HeldFare.Place): Value {
    var counts := Members(Member(Info(quote.original), "passengerCounts"));
    HeldFare.PriceAt(if HeldFare.Replaces(place, counts) then Info(quote.selling) else flight, place)
  }

  lemma CompletedAt(quote: Quote, own: References.Identities, ids: References.Supply, body: Value, priced: Value, place: HeldFare.Place)
    requires HeldFare.GetIn(priced, HeldFare.PathOf(place)).Some? && Plain(HeldFare.GetIn(priced, HeldFare.PathOf(place)).value)
    ensures HeldFare.GetIn(Completed(quote, own, ids, body, priced), HeldFare.PathOf(place)) ==
            HeldFare.GetIn(priced, HeldFare.PathOf(place))
  {
    RewrittenAt(quote, own, ids, body, priced, HeldFare.PathOf(place));
    DisplayedAt(Rewritten(quote, own, ids, body, priced), Breakdown(quote), place);
    hide Rewritten, Displayed, HeldFare.GetIn, HeldFare.PathOf, Plain;
  }

  // The client sees the quote's selling amount at every replaced price the answer states, and the
  // supplier's amount at exactly the others.
  lemma AnsweredShowsSelling(quote: Quote, own: References.Identities, ids: References.Supply, body: Value, place: HeldFare.Place)
    requires Answered(quote, own, ids, body).Some? && Get(Info(body), "flightInfo").Some?
    requires DistinctKeys(Members(Member(Info(quote.original), "passengerCounts")))
    requires HeldFare.StatedAt(Get(Info(body), "flightInfo").value, place)
    requires Plain(QuotedAt(quote, Get(Info(body), "flightInfo").value, place))
    ensures HeldFare.GetIn(Answered(quote, own, ids, body).value, HeldFare.PathOf(place)) ==
            Some(QuotedAt(quote, Get(Info(body), "flightInfo").value, place))
  {
    var priced := HeldFare.Projected(body, Info(quote.original), Info(quote.selling)).value;
    HeldFare.ShownPrice(body, Info(quote.original), Info(quote.selling), place);
    hide HeldFare.Projected, HeldFare.GetIn, HeldFare.PathOf, HeldFare.PriceAt, HeldFare.StatedAt, HeldFare.Replaces,
         HoldEvidence, Completed, Get, Member;
    CompletedAt(quote, own, ids, body, priced, place);
  }

  lemma AnsweredShowsDisplay(quote: Quote, own: References.Identities, ids: References.Supply, body: Value)
    requires Answered(quote, own, ids, body).Some? && Breakdown(quote).Some?
    ensures ShowsDisplay(Answered(quote, own, ids, body).value, Breakdown(quote).value)
  {
    assert Info(body).Object? by {
      hide References.ContainsTicket, Info;
    }
    hide HeldFare.Projected, Completed, Breakdown, HoldEvidence, ShowsDisplay, Info;
    CompletedShowsDisplay(quote, own, ids, body);
  }

  lemma RewrittenIsPlatformOnly(quote: Quote, own: References.Identities, ids: References.Supply, body: Value, priced: Value,
                                platform: iset<string>)
    requires References.AllPlatform(quote.references, platform) && References.SuppliesPlatform(ids, platform)
    requires References.OwnPlatform(own, platform) && "" !in platform
    ensures var shown := Rewritten(quote, own, ids, body, priced);
            && References.Identified(shown, own)
            && forall text :: text in References.ReferencesOf(shown) ==> text in platform
  {
    References.ProjectionIsPlatformOnly(priced, References.Map(AnswerMap(quote, own, body), 0), ids, own, platform);
    hide References.Bind, References.BindIdentities, References.ReferencesOf, References.Identified;
  }

  // The display comes from the quote's selling answer, so it adds platform ids only.
  lemma CompletedIsPlatformOnly(quote: Quote, own: References.Identities, ids: References.Supply, body: Value, priced: Value,
                                platform: iset<string>)
    requires References.AllPlatform(quote.references, platform) && References.SuppliesPlatform(ids, platform)
    requires References.OwnPlatform(own, platform) && "" !in platform
    requires forall text :: text in References.ReferencesOf(quote.selling) ==> text in platform
    ensures References.Identified(Rewritten(quote, own, ids, body, priced), own)
    ensures forall text :: text in References.ReferencesOf(Completed(quote, own, ids, body, priced)) ==> text in platform
  {
    RewrittenIsPlatformOnly(quote, own, ids, body, priced, platform);
    DisplayedReferences(Rewritten(quote, own, ids, body, priced), Breakdown(quote));
    References.MemberWithin(quote.selling, "item1");
    References.MemberWithin(Info(quote.selling), "fareBreakdown");
    hide Rewritten, Displayed, References.ReferencesOf, References.FieldReferences, References.Identified, References.AllPlatform;
  }

  // With a quote of platform ids the client sees no other reference; and the response is an answer with
  // the booking's own identities at every depth, to which the quote's display is added.
  lemma AnsweredIsPlatformOnly(quote: Quote, own: References.Identities, ids: References.Supply, body: Value, platform: iset<string>)
    returns (answer: Value)
    requires Answered(quote, own, ids, body).Some?
    requires References.AllPlatform(quote.references, platform) && References.SuppliesPlatform(ids, platform)
    requires References.OwnPlatform(own, platform) && "" !in platform
    requires forall text :: text in References.ReferencesOf(quote.selling) ==> text in platform
    ensures var shown := Answered(quote, own, ids, body).value;
            && NamesOwn(answer, own) && shown == Displayed(answer, Breakdown(quote))
            && forall text :: text in References.ReferencesOf(shown) ==> text in platform
  {
    var priced := HeldFare.Projected(body, Info(quote.original), Info(quote.selling)).value;
    answer := Rewritten(quote, own, ids, body, priced);
    CompletedIsPlatformOnly(quote, own, ids, body, priced, platform);
    IdentifiedNamesOwn(answer, own);
    hide HeldFare.Projected, HoldEvidence, Rewritten, Displayed, NamesOwn, References.ReferencesOf, References.Identified;
  }
}
