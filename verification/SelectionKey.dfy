/**
 The private equivalence key of a fare offer (src/selection.rs): a serializer that
 knows where in the offer it stands and leaves out source references, prices and
 cabin labels only where they are known to mean that.
 */
module SelectionKey {
  import opened Wrappers
  import opened Json
  import JsonText

  datatype Context =
    | Offer | Components | Component | Fares | Fare | Directions
    | Route | Direction | Segments | Segment | Other

  predicate Excludes(context: Context, field: string) {
    match context
    case Offer => field in ["avlSrc", "uniqueTransID", "itemCodeRef", "totalPrice", "previousTotalFare"]
    case Component => field in ["fareReference", "totalPrice", "discountPrice"]
    case Fare => field in ["totalPrice", "discountPrice"]
    case Segment => field in ["cabinClass", "segmentCodeRef"]
    case _ => false
  }

  function FieldContext(context: Context, key: string): Context {
    if context.Offer? && key == "bookingComponents" then Components
    else if context.Offer? && key == "passengerFares" then Fares
    else if context.Offer? && key == "directions" then Directions
    else if context.Fares? then Fare
    else if context.Direction? && key == "segments" then Segments
    else Other
  }

  function ElementContext(context: Context): Context {
    match context
    case Components => Component
    case Directions => Route
    case Route => Direction
    case Segments => Segment
    case _ => Other
  }

  /** The serializer over a tree seen in a context, in the writer style of JsonText.Write. */
  function WriteView(v: Value, context: Context, rest: string): string
    decreases v, 1
  {
    if context.Other? then JsonText.Write(v, rest)
    else
      match v
      case Object(fields) => ['{'] + WriteViewFields(fields, context, true, ['}'] + rest)
      case Array(items) => ['['] + WriteViewItems(items, context, true, [']'] + rest)
      case _ => JsonText.Write(v, rest)
  }

  function WriteViewItems(items: seq<Value>, context: Context, first: bool, rest: string): string
    decreases items, 0
  {
    if items == [] then rest
    else
      var text := WriteView(items[0], ElementContext(context), WriteViewItems(items[1..], context, false, rest));
      if first then text else [','] + text
  }

  function WriteViewFields(fields: seq<Field>, context: Context, first: bool, rest: string): string
    decreases fields, 0
  {
    if fields == [] then rest
    else if Excludes(context, fields[0].key) then WriteViewFields(fields[1..], context, first, rest)
    else
      var value := WriteView(fields[0].value, FieldContext(context, fields[0].key),
                             WriteViewFields(fields[1..], context, false, rest));
      var text := ['\"'] + JsonText.WriteChars(fields[0].key, [':'] + value);
      if first then text else [','] + text
  }

  // ---------------------------------------------------------------------------
  // The reference reading: which fields are ignored, by their full path.

  datatype Step = Key(name: string) | At

  /** The only ignored fields, each at the one place of an offer where it is known. */
  predicate Listed(path: seq<Step>, field: string) {
    || (path == [] && field in ["avlSrc", "uniqueTransID", "itemCodeRef", "totalPrice", "previousTotalFare"])
    || (path == [Key("bookingComponents"), At] && field in ["fareReference", "totalPrice", "discountPrice"])
    || (|path| == 2 && path[0] == Key("passengerFares") && path[1].Key? && field in ["totalPrice", "discountPrice"])
    || (path == [Key("directions"), At, At, Key("segments"), At] && field in ["cabinClass", "segmentCodeRef"])
  }

  /** The tree without its listed fields, everything else untouched. */
  function RemoveListed(v: Value, path: seq<Step>): Value
    decreases v, 1
  {
    match v
    case Object(fields) => Object(RemoveFields(fields, path))
    case Array(items) => Array(RemoveItems(items, path))
    case _ => v
  }

  function RemoveItems(items: seq<Value>, path: seq<Step>): (r: seq<Value>)
    ensures |r| == |items|
    decreases items, 0
  {
    if items == [] then [] else [RemoveListed(items[0], path + [At])] + RemoveItems(items[1..], path)
  }

  function RemoveFields(fields: seq<Field>, path: seq<Step>): seq<Field>
    decreases fields, 0
  {
    if fields == [] then []
    else if Listed(path, fields[0].key) then RemoveFields(fields[1..], path)
    else [Field(fields[0].key, RemoveListed(fields[0].value, path + [Key(fields[0].key)]))] + RemoveFields(fields[1..], path)
  }

  function ContextOf(path: seq<Step>): Context {
    if path == [] then Offer
    else
      var outer, last := ContextOf(path[..|path| - 1]), path[|path| - 1];
      if last.Key? then FieldContext(outer, last.name) else ElementContext(outer)
  }

  /** A context is exactly a family of paths. */
  lemma {:induction false} ContextShape(path: seq<Step>)
    ensures ContextOf(path).Offer? <==> path == []
    ensures ContextOf(path).Components? <==> path == [Key("bookingComponents")]
    ensures ContextOf(path).Component? <==> path == [Key("bookingComponents"), At]
    ensures ContextOf(path).Fares? <==> path == [Key("passengerFares")]
    ensures ContextOf(path).Fare? <==> |path| == 2 && path[0] == Key("passengerFares") && path[1].Key?
    ensures ContextOf(path).Directions? <==> path == [Key("directions")]
    ensures ContextOf(path).Route? <==> path == [Key("directions"), At]
    ensures ContextOf(path).Direction? <==> path == [Key("directions"), At, At]
    ensures ContextOf(path).Segments? <==> path == [Key("directions"), At, At, Key("segments")]
    ensures ContextOf(path).Segment? <==> path == [Key("directions"), At, At, Key("segments"), At]
  {
    if path != [] {
      var outer := path[..|path| - 1];
      ContextShape(outer);
      if |path| == 2 {
        assert path == [path[0], path[1]] && outer == [path[0]];
      } else if |path| == 3 {
        assert path == [path[0], path[1], path[2]] && outer == [path[0], path[1]];
      } else if |path| == 4 {
        assert path == [path[0], path[1], path[2], path[3]] && outer == [path[0], path[1], path[2]];
      } else if |path| == 5 {
        assert path == [path[0], path[1], path[2], path[3], path[4]] && outer == [path[0], path[1], path[2], path[3]];
      }
    }
  }

  lemma ExcludedIsListed(path: seq<Step>, field: string)
    ensures Excludes(ContextOf(path), field) <==> Listed(path, field)
  {
    ContextShape(path);
  }

  lemma Deeper(path: seq<Step>, step: Step)
    ensures ContextOf(path + [step]) == if step.Key? then FieldContext(ContextOf(path), step.name) else ElementContext(ContextOf(path))
  {
    assert (path + [step])[..|path|] == path;
  }

  /** The view of a tree prints as the tree without its listed fields. */
  lemma {:induction false} ViewPrintsRemoved(v: Value, path: seq<Step>, rest: string)
    ensures WriteView(v, ContextOf(path), rest) == JsonText.Write(RemoveListed(v, path), rest)
    decreases v, 1
  {
    if ContextOf(path).Other? {
      NothingListedBelowOther(v, path);
    } else {
      match v {
        case Object(fields) => FieldsPrintRemoved(fields, path, true, ['}'] + rest);
        case Array(items) => ItemsPrintRemoved(items, path, true, [']'] + rest);
        case _ =>
      }
    }
  }

  lemma {:induction false} ItemsPrintRemoved(items: seq<Value>, path: seq<Step>, first: bool, rest: string)
    ensures WriteViewItems(items, ContextOf(path), first, rest) == JsonText.WriteItems(RemoveItems(items, path), first, rest)
    decreases items, 0
  {
    if items != [] {
      var tail := WriteViewItems(items[1..], ContextOf(path), false, rest);
      Deeper(path, At);
      ViewPrintsRemoved(items[0], path + [At], tail);
      ItemsPrintRemoved(items[1..], path, false, rest);
      assert RemoveItems(items, path)[1..] == RemoveItems(items[1..], path);
    }
  }

  lemma {:induction false} FieldsPrintRemoved(fields: seq<Field>, path: seq<Step>, first: bool, rest: string)
    ensures WriteViewFields(fields, ContextOf(path), first, rest) == JsonText.WriteFields(RemoveFields(fields, path), first, rest)
    decreases fields, 0
  {
    if fields != [] {
      ExcludedIsListed(path, fields[0].key);
      if Listed(path, fields[0].key) {
        FieldsPrintRemoved(fields[1..], path, first, rest);
      } else {
        var tail := WriteViewFields(fields[1..], ContextOf(path), false, rest);
        Deeper(path, Key(fields[0].key));
        ViewPrintsRemoved(fields[0].value, path + [Key(fields[0].key)], tail);
        FieldsPrintRemoved(fields[1..], path, false, rest);
        assert RemoveFields(fields, path)[1..] == RemoveFields(fields[1..], path);
      }
    }
  }

  /** Below a place with no known meaning every field counts. */
  lemma {:induction false} NothingListedBelowOther(v: Value, path: seq<Step>)
    requires ContextOf(path).Other?
    ensures RemoveListed(v, path) == v
    decreases v, 1
  {
    match v {
      case Object(fields) => NoFieldListedBelowOther(fields, path);
      case Array(items) => NoItemListedBelowOther(items, path);
      case _ =>
    }
  }

  lemma {:induction false} NoItemListedBelowOther(items: seq<Value>, path: seq<Step>)
    requires ContextOf(path).Other?
    ensures RemoveItems(items, path) == items
    decreases items, 0
  {
    if items != [] {
      Deeper(path, At);
      NothingListedBelowOther(items[0], path + [At]);
      NoItemListedBelowOther(items[1..], path);
    }
  }

  lemma {:induction false} NoFieldListedBelowOther(fields: seq<Field>, path: seq<Step>)
    requires ContextOf(path).Other?
    ensures RemoveFields(fields, path) == fields
    decreases fields, 0
  {
    if fields != [] {
      ExcludedIsListed(path, fields[0].key);
      Deeper(path, Key(fields[0].key));
      NothingListedBelowOther(fields[0].value, path + [Key(fields[0].key)]);
      NoFieldListedBelowOther(fields[1..], path);
    }
  }

  lemma {:induction false} RemovedWellFormed(v: Value, path: seq<Step>)
    requires WellFormed(v)
    ensures WellFormed(RemoveListed(v, path))
    decreases v, 1
  {
    match v {
      case Object(fields) => RemovedFieldsWellFormed(fields, path);
      case Array(items) => RemovedItemsWellFormed(items, path);
      case _ =>
    }
  }

  lemma {:induction false} RemovedItemsWellFormed(items: seq<Value>, path: seq<Step>)
    requires WellFormedItems(items)
    ensures WellFormedItems(RemoveItems(items, path))
    decreases items, 0
  {
    if items != [] {
      RemovedWellFormed(items[0], path + [At]);
      RemovedItemsWellFormed(items[1..], path);
      assert RemoveItems(items, path)[1..] == RemoveItems(items[1..], path);
    }
  }

  lemma {:induction false} RemovedFieldsWellFormed(fields: seq<Field>, path: seq<Step>)
    requires WellFormedFields(fields)
    ensures WellFormedFields(RemoveFields(fields, path))
    decreases fields, 0
  {
    if fields != [] {
      RemovedFieldsWellFormed(fields[1..], path);
      if !Listed(path, fields[0].key) {
        RemovedWellFormed(fields[0].value, path + [Key(fields[0].key)]);
        assert RemoveFields(fields, path)[1..] == RemoveFields(fields[1..], path);
      }
    }
  }

  /** The text half of a key. */
  function KeyText(original: Value): string {
    WriteView(original, Offer, "")
  }

  /** Equal key texts mean equal trees up to the listed fields, and conversely. */
  lemma KeysAreFaithful(a: Value, b: Value)
    requires WellFormed(a) && WellFormed(b)
    ensures KeyText(a) == KeyText(b) <==> RemoveListed(a, []) == RemoveListed(b, [])
  {
    ViewPrintsRemoved(a, [], "");
    ViewPrintsRemoved(b, [], "");
    RemovedWellFormed(a, []);
    RemovedWellFormed(b, []);
    JsonText.PrintInjective(RemoveListed(a, []), RemoveListed(b, []));
  }

  // ---------------------------------------------------------------------------
  // Which offers have a key at all.

  /** Unicode White_Space, as trimming uses it. */
  predicate IsSpace(c: char) {
    var n := c as int;
    || 9 <= n <= 13 || n == 0x20 || n == 0x85 || n == 0xA0 || n == 0x1680
    || 0x2000 <= n <= 0x200A || n == 0x2028 || n == 0x2029 || n == 0x202F || n == 0x205F || n == 0x3000
  }

  predicate IsBlank(s: string) {
    forall i | 0 <= i < |s| :: IsSpace(s[i])
  }

  predicate HasText(v: Value, field: string) {
    var found := Get(v, field);
    found.Some? && found.value.Text? && !IsBlank(found.value.text)
  }

  predicate HasBool(v: Value, field: string) {
    var found := Get(v, field);
    found.Some? && found.value.Bool?
  }

  function UpperAscii(s: string): string {
    seq(|s|, i requires 0 <= i < |s| => if 'a' <= s[i] <= 'z' then (s[i] as int - 32) as char else s[i])
  }

  const SEGMENT_TEXTS := ["from", "to", "departure", "arrival", "airlineCode", "flightNumber",
                          "bookingClass", "serviceClass", "fareBasisCode", "handBaggage"]

  predicate AllowanceComplete(allowance: Value) {
    && HasText(allowance, "passengerTypeCode")
    && HasText(allowance, "units")
    && Get(allowance, "amount").Some?
    && Get(allowance, "amount").value.Number?
  }

  /** An absent, null or blank label is unknown; any other non-text label refuses the offer. */
  function Cabin(segment: Value): Option<Option<string>> {
    var found := Get(segment, "cabinClass");
    if found.None? || found.value.Null? then Some(None)
    else if !found.value.Text? then None
    else if IsBlank(found.value.text) then Some(None)
    else Some(Some(found.value.text))
  }

  predicate SegmentComplete(segment: Value, required: seq<string>) {
    && (forall i | 0 <= i < |SEGMENT_TEXTS| :: HasText(segment, SEGMENT_TEXTS[i]))
    && Get(segment, "baggage").Some?
    && Get(segment, "baggage").value.Array?
    && var baggage := Get(segment, "baggage").value.items;
    && baggage != []
    && (forall i | 0 <= i < |baggage| :: AllowanceComplete(baggage[i]))
    && (forall k | 0 <= k < |required| ::
          exists i | 0 <= i < |baggage| :: Member(baggage[i], "passengerTypeCode") == Text(required[k]))
    && Cabin(segment).Some?
  }

  /** The segments of the single direction a route offers. */
  function RouteSegments(route: Value): Option<seq<Value>> {
    var alternatives :- AsArray(route);
    if |alternatives| != 1 then None
    else
      var segments :- Get(alternatives[0], "segments");
      var items :- AsArray(segments);
      if items == [] then None else Some(items)
  }

  predicate RouteComplete(route: Value, required: seq<string>) {
    && RouteSegments(route).Some?
    && var segments := RouteSegments(route).value;
    && forall i | 0 <= i < |segments| :: SegmentComplete(segments[i], required)
  }

  function Travellers(counts: seq<Field>): seq<string> {
    if counts == [] then []
    else
      var last := counts[|counts| - 1];
      Travellers(counts[..|counts| - 1]) +
      (if AsU64(last.value).Some? && AsU64(last.value).value > 0 then [UpperAscii(last.key)] else [])
  }

  predicate FlagsKnown(original: Value) {
    && Get(original, "isCodeShared") == Some(Bool(false))
    && Member(original, "hasExtraService") == Bool(false)
    && HasBool(original, "refundable")
    && HasBool(original, "rbdChangeAllowed")
    && HasBool(original, "bookable")
    && HasText(original, "platingCarrier")
  }

  predicate CountsKnown(original: Value) {
    && Get(original, "passengerCounts").Some?
    && Get(original, "passengerCounts").value.Object?
    && var counts := Get(original, "passengerCounts").value.fields;
    && forall i | 0 <= i < |counts| :: AsU64(counts[i].value).Some?
  }

  predicate PricesShaped(original: Value) {
    && Get(original, "bookingComponents").Some?
    && Get(original, "bookingComponents").value.Array?
    && |Get(original, "bookingComponents").value.items| == 1
    && Get(original, "bookingComponents").value.items[0].Object?
    && Get(original, "passengerFares").Some?
    && Get(original, "passengerFares").value.Object?
    && var fares := Get(original, "passengerFares").value.fields;
    && forall i | 0 <= i < |fares| :: fares[i].value.Null? || fares[i].value.Object?
  }

  predicate RoutesShaped(original: Value) {
    && Get(original, "directions").Some?
    && Get(original, "directions").value.Array?
    && Get(original, "directions").value.items != []
  }

  function Routes(original: Value): seq<Value>
    requires RoutesShaped(original)
  {
    Get(original, "directions").value.items
  }

  /** An offer can be compared only when every identifying attribute is present. */
  predicate Comparable(original: Value) {
    && FlagsKnown(original)
    && CountsKnown(original)
    && PricesShaped(original)
    && RoutesShaped(original)
    && var required := Travellers(Get(original, "passengerCounts").value.fields);
    && forall r | 0 <= r < |Routes(original)| :: RouteComplete(Routes(original)[r], required)
  }

  function SegmentCabins(segments: seq<Value>): seq<Option<string>> {
    if segments == [] then []
    else
      var last := Cabin(segments[|segments| - 1]);
      SegmentCabins(segments[..|segments| - 1]) + [if last.Some? then last.value else None]
  }

  function RouteCabins(routes: seq<Value>): seq<Option<string>> {
    if routes == [] then []
    else
      var segments := RouteSegments(routes[|routes| - 1]);
      RouteCabins(routes[..|routes| - 1]) + (if segments.Some? then SegmentCabins(segments.value) else [])
  }

  datatype OfferKey = OfferKey(text: string, cabins: seq<Option<string>>)

  function KeyOf(original: Value): OfferKey
    requires RoutesShaped(original)
  {
    OfferKey(KeyText(original), RouteCabins(Routes(original)))
  }

  /** The traveller kinds that are present and so need a baggage allowance. */
  method RequiredBaggage(counts: seq<Field>) returns (required: seq<string>)
    requires forall i | 0 <= i < |counts| :: AsU64(counts[i].value).Some?
    ensures required == Travellers(counts)
  {
    required := [];
    for i := 0 to |counts|
      invariant required == Travellers(counts[..i])
    {
      assert counts[..i + 1][..i] == counts[..i];
      if AsU64(counts[i].value).value > 0 {
        required := required + [UpperAscii(counts[i].key)];
      }
    }
    assert counts[..|counts|] == counts;
  }

  /** The cabin labels of one route, or nothing when a segment is incomplete. */
  method CollectCabins(segments: seq<Value>, required: seq<string>) returns (cabins: Option<seq<Option<string>>>)
    ensures cabins.Some? <==> forall i | 0 <= i < |segments| :: SegmentComplete(segments[i], required)
    ensures cabins.Some? ==> cabins.value == SegmentCabins(segments)
  {
    var found := [];
    for s := 0 to |segments|
      invariant forall q | 0 <= q < s :: SegmentComplete(segments[q], required)
      invariant found == SegmentCabins(segments[..s])
    {
      if !SegmentComplete(segments[s], required) {
        return None;
      }
      assert segments[..s + 1][..s] == segments[..s];
      found := found + [Cabin(segments[s]).value];
    }
    assert segments[..|segments|] == segments;
    cabins := Some(found);
  }

  /** The key, or nothing when an identifying attribute is missing. */
  method EquivalenceKey(original: Value) returns (key: Option<OfferKey>)
    ensures key.Some? <==> Comparable(original)
    ensures key.Some? ==> key.value == KeyOf(original)
  {
    hide FlagsKnown, PricesShaped, WriteView, Travellers, SegmentComplete, SegmentCabins;
    if !FlagsKnown(original) || !CountsKnown(original) || !PricesShaped(original) || !RoutesShaped(original) {
      return None;
    }
    var required := RequiredBaggage(Get(original, "passengerCounts").value.fields);
    var routes := Routes(original);
    var cabins := [];
    for r := 0 to |routes|
      invariant forall q | 0 <= q < r :: RouteComplete(routes[q], required)
      invariant cabins == RouteCabins(routes[..r])
    {
      var segments := RouteSegments(routes[r]);
      if segments.None? {
        return None;
      }
      var labels := CollectCabins(segments.value, required);
      if labels.None? {
        return None;
      }
      assert routes[..r + 1][..r] == routes[..r];
      cabins := cabins + labels.value;
    }
    assert routes[..|routes|] == routes;
    key := Some(OfferKey(WriteView(original, Offer, ""), cabins));
  }

  // ---------------------------------------------------------------------------
  // Offers with one key have as many segments, so their cabin lists align.

  lemma {:induction false} UnlistedSurvives(fields: seq<Field>, path: seq<Step>, key: string)
    requires !Listed(path, key)
    ensures Lookup(RemoveFields(fields, path), key) ==
            if Lookup(fields, key).Some? then Some(RemoveListed(Lookup(fields, key).value, path + [Key(key)])) else None
  {
    if fields != [] {
      UnlistedSurvives(fields[1..], path, key);
      if !Listed(path, fields[0].key) {
        assert RemoveFields(fields, path)[1..] == RemoveFields(fields[1..], path);
      }
    }
  }

  lemma {:induction false} RemovedItemAt(items: seq<Value>, path: seq<Step>, i: nat)
    requires i < |items|
    ensures RemoveItems(items, path)[i] == RemoveListed(items[i], path + [At])
  {
    if i > 0 {
      RemovedItemAt(items[1..], path, i - 1);
    }
  }

  lemma {:induction false} CabinCount(segments: seq<Value>)
    ensures |SegmentCabins(segments)| == |segments|
  {
    if segments != [] {
      CabinCount(segments[..|segments| - 1]);
    }
  }

  /** A route keeps its number of segments when listed fields go. */
  lemma RouteSegmentsSurvive(route: Value)
    requires RouteSegments(route).Some?
    ensures var removed := RouteSegments(RemoveListed(route, [Key("directions"), At]));
            removed.Some? && |removed.value| == |RouteSegments(route).value|
  {
    var path := [Key("directions"), At];
    RemovedItemAt(route.items, path, 0);
    assert path + [At] == [Key("directions"), At, At];
    var direction := route.items[0];
    UnlistedSurvives(direction.fields, [Key("directions"), At, At], "segments");
  }

  lemma {:induction false} CabinCountsFollowTree(a: seq<Value>, b: seq<Value>)
    requires RemoveItems(a, [Key("directions")]) == RemoveItems(b, [Key("directions")])
    requires forall i | 0 <= i < |a| :: RouteSegments(a[i]).Some?
    requires forall i | 0 <= i < |b| :: RouteSegments(b[i]).Some?
    ensures |RouteCabins(a)| == |RouteCabins(b)|
  {
    assert |a| == |b|;
    if a != [] {
      var n := |a| - 1;
      forall i | 0 <= i < |a|
        ensures RemoveListed(a[i], [Key("directions"), At]) == RemoveListed(b[i], [Key("directions"), At])
      {
        RemovedItemAt(a, [Key("directions")], i);
        RemovedItemAt(b, [Key("directions")], i);
        assert [Key("directions")] + [At] == [Key("directions"), At];
      }
      SameItemsSameRemoval(a[..n], b[..n]);
      CabinCountsFollowTree(a[..n], b[..n]);
      RouteSegmentsSurvive(a[n]);
      RouteSegmentsSurvive(b[n]);
      CabinCount(RouteSegments(a[n]).value);
      CabinCount(RouteSegments(b[n]).value);
    }
  }

  lemma {:induction false} SameItemsSameRemoval(a: seq<Value>, b: seq<Value>)
    requires |a| == |b|
    requires forall i | 0 <= i < |a| :: RemoveListed(a[i], [Key("directions"), At]) == RemoveListed(b[i], [Key("directions"), At])
    ensures RemoveItems(a, [Key("directions")]) == RemoveItems(b, [Key("directions")])
  {
    forall i | 0 <= i < |a|
      ensures RemoveItems(a, [Key("directions")])[i] == RemoveItems(b, [Key("directions")])[i]
    {
      RemovedItemAt(a, [Key("directions")], i);
      RemovedItemAt(b, [Key("directions")], i);
      assert [Key("directions")] + [At] == [Key("directions"), At];
    }
  }

  /** Two comparable offers with one key text have cabin lists of one length. */
  lemma SameKeySameCabinCount(a: Value, b: Value)
    requires WellFormed(a) && WellFormed(b)
    requires Comparable(a) && Comparable(b)
    requires KeyOf(a).text == KeyOf(b).text
    ensures |KeyOf(a).cabins| == |KeyOf(b).cabins|
  {
    hide FlagsKnown, CountsKnown, PricesShaped, Travellers, WellFormed;
    KeysAreFaithful(a, b);
    UnlistedSurvives(a.fields, [], "directions");
    UnlistedSurvives(b.fields, [], "directions");
    assert [] + [Key("directions")] == [Key("directions")];
    CabinCountsFollowTree(Routes(a), Routes(b));
  }
}
