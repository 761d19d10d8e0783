// Supplier references in response trees (src/search.rs bind_references, src/booking.rs
// bind_pnr_identities and contains_ticket): every opaque reference is replaced by a platform id from a
// map that grows on the way, and booking identities are then set by field name.
module References {
  import opened Wrappers
  import opened Json

  function Lower(c: char): char {
    if 'A' <= c <= 'Z' then (c as int + 32) as char else c
  }

  function LowerAll(s: string): (r: string)
    ensures |r| == |s| && forall i :: 0 <= i < |s| ==> r[i] == Lower(s[i])
  {
    if s == [] then [] else [Lower(s[0])] + LowerAll(s[1..])
  }

  predicate Contains(s: string, part: string) {
    part <= s || (s != [] && Contains(s[1..], part))
  }

  predicate Opaque(key: string) {
    Contains(LowerAll(key), "ref") || key == "uniqueTransID" || key == "avlSrc"
  }

  // A member whose value is a supplier reference.
  predicate IsReference(field: Field) {
    field.value.Text? && field.value.text != "" && Opaque(field.key)
  }

  type Entries = map<string, Value>

  // ids supplies new platform ids; issued counts how many were taken.
  datatype Map = Map(entries: Entries, issued: nat)
  type Supply = nat -> string

  function Entered(m: Map, ids: Supply, text: string): (r: Map)
    ensures text in r.entries
  {
    if text in m.entries then m else Map(m.entries[text := Text(ids(m.issued))], m.issued + 1)
  }

  function Bind(v: Value, m: Map, ids: Supply): (Value, Map)
    decreases v, 0
  {
    match v
    case Object(fields) => var bound := BindFields(fields, m, ids); (Object(bound.0), bound.1)
    case Array(items) => var bound := BindItems(items, m, ids); (Array(bound.0), bound.1)
    case _ => (v, m)
  }

  function BindField(field: Field, m: Map, ids: Supply): (Field, Map)
    decreases field, 1
  {
    if IsReference(field) then
      var after := Entered(m, ids, field.value.text);
      (Field(field.key, after.entries[field.value.text]), after)
    else
      var bound := Bind(field.value, m, ids);
      (Field(field.key, bound.0), bound.1)
  }

  function BindFields(fields: seq<Field>, m: Map, ids: Supply): (seq<Field>, Map)
    decreases fields
  {
    if fields == [] then ([], m)
    else
      var first := BindField(fields[0], m, ids);
      var rest := BindFields(fields[1..], first.1, ids);
      ([first.0] + rest.0, rest.1)
  }

  function BindItems(items: seq<Value>, m: Map, ids: Supply): (seq<Value>, Map)
    decreases items
  {
    if items == [] then ([], m)
    else
      var first := Bind(items[0], m, ids);
      var rest := BindItems(items[1..], first.1, ids);
      ([first.0] + rest.0, rest.1)
  }

  // The map is threaded through the walk, in the order of the members.
  class ReferenceMap {
    var entries: Entries
    var issued: nat
    const ids: Supply

    function Contents(): Map
      reads this
    {
      Map(entries, issued)
    }

    constructor (entries: Entries, ids: Supply)
      ensures Contents() == Map(entries, 0) && this.ids == ids
    {
      this.entries, this.issued, this.ids := entries, 0, ids;
    }

    method BindTree(v: Value) returns (bound: Value)
      modifies this
      ensures (bound, Contents()) == Bind(v, old(Contents()), ids)
      decreases v, 0
    {
      match v
      case Object(fields) =>
        var done := BindMembers(fields);
        bound := Object(done);
      case Array(items) =>
        var done := BindElements(items);
        bound := Array(done);
      case _ =>
        bound := v;
    }

    method BindMember(field: Field) returns (bound: Field)
      modifies this
      ensures (bound, Contents()) == BindField(field, old(Contents()), ids)
      decreases field, 1
    {
      hide Opaque;
      var value := field.value;
      if IsReference(field) {
        if value.text !in entries {
          entries, issued := entries[value.text := Text(ids(issued))], issued + 1;
        }
        value := entries[value.text];
      } else {
        value := BindTree(value);
      }
      bound := Field(field.key, value);
    }

    method BindMembers(fields: seq<Field>) returns (done: seq<Field>)
      modifies this
      ensures (done, Contents()) == BindFields(fields, old(Contents()), ids)
      decreases fields, 0
    {
      hide BindField, Bind;
      done := [];
      NoneDone(fields, Contents(), ids);
      for i := 0 to |fields|
        invariant Resumed(done, fields[i..], Contents(), ids) == BindFields(fields, old(Contents()), ids)
      {
        OneMoreField(done, fields, i, Contents(), ids);
        var bound := BindMember(fields[i]);
        done := done + [bound];
      }
      AllFieldsDone(done, fields, Contents(), ids);
    }

    method BindElements(items: seq<Value>) returns (done: seq<Value>)
      modifies this
      ensures (done, Contents()) == BindItems(items, old(Contents()), ids)
      decreases items, 0
    {
      hide Bind;
      done := [];
      NoItemDone(items, Contents(), ids);
      for i := 0 to |items|
        invariant ResumedItems(done, items[i..], Contents(), ids) == BindItems(items, old(Contents()), ids)
      {
        OneMoreItem(done, items, i, Contents(), ids);
        var bound := BindTree(items[i]);
        done := done + [bound];
      }
      AllItemsDone(done, items, Contents(), ids);
    }
  }

  // A walk that has bound some members and has the rest before it.
  function Resumed(done: seq<Field>, rest: seq<Field>, m: Map, ids: Supply): (seq<Field>, Map) {
    var later := BindFields(rest, m, ids);
    (done + later.0, later.1)
  }

  function ResumedItems(done: seq<Value>, rest: seq<Value>, m: Map, ids: Supply): (seq<Value>, Map) {
    var later := BindItems(rest, m, ids);
    (done + later.0, later.1)
  }

  lemma NoneDone(fields: seq<Field>, m: Map, ids: Supply)
    ensures Resumed([], fields[0..], m, ids) == BindFields(fields, m, ids)
  {
    assert fields[0..] == fields;
    assert [] + BindFields(fields, m, ids).0 == BindFields(fields, m, ids).0;
  }

  lemma OneMoreField(done: seq<Field>, fields: seq<Field>, i: nat, m: Map, ids: Supply)
    requires i < |fields|
    ensures var bound := BindField(fields[i], m, ids);
            Resumed(done, fields[i..], m, ids) == Resumed(done + [bound.0], fields[i + 1..], bound.1, ids)
  {
    assert fields[i..][0] == fields[i] && fields[i..][1..] == fields[i + 1..];
    var bound := BindField(fields[i], m, ids);
    var later := BindFields(fields[i + 1..], bound.1, ids).0;
    assert done + ([bound.0] + later) == done + [bound.0] + later;
    hide BindField;
  }

  lemma AllFieldsDone(done: seq<Field>, fields: seq<Field>, m: Map, ids: Supply)
    ensures Resumed(done, fields[|fields|..], m, ids) == (done, m)
  {
    assert fields[|fields|..] == [] && done + [] == done;
  }

  lemma NoItemDone(items: seq<Value>, m: Map, ids: Supply)
    ensures ResumedItems([], items[0..], m, ids) == BindItems(items, m, ids)
  {
    assert items[0..] == items;
    assert [] + BindItems(items, m, ids).0 == BindItems(items, m, ids).0;
  }

  lemma OneMoreItem(done: seq<Value>, items: seq<Value>, i: nat, m: Map, ids: Supply)
    requires i < |items|
    ensures var bound := Bind(items[i], m, ids);
            ResumedItems(done, items[i..], m, ids) == ResumedItems(done + [bound.0], items[i + 1..], bound.1, ids)
  {
    assert items[i..][0] == items[i] && items[i..][1..] == items[i + 1..];
    var bound := Bind(items[i], m, ids);
    var later := BindItems(items[i + 1..], bound.1, ids).0;
    assert done + ([bound.0] + later) == done + [bound.0] + later;
    hide Bind;
  }

  lemma AllItemsDone(done: seq<Value>, items: seq<Value>, m: Map, ids: Supply)
    ensures ResumedItems(done, items[|items|..], m, ids) == (done, m)
  {
    assert items[|items|..] == [] && done + [] == done;
  }

  // ---- What binding means: substitution by one final map ----------------------------------------------

  function Substitute(v: Value, entries: Entries): Value
    decreases v, 0
  {
    match v
    case Object(fields) => Object(SubstituteFields(fields, entries))
    case Array(items) => Array(SubstituteItems(items, entries))
    case _ => v
  }

  function SubstituteField(field: Field, entries: Entries): Field
    decreases field, 1
  {
    if IsReference(field) then Field(field.key, if field.value.text in entries then entries[field.value.text] else field.value)
    else Field(field.key, Substitute(field.value, entries))
  }

  function SubstituteFields(fields: seq<Field>, entries: Entries): seq<Field>
    decreases fields
  {
    if fields == [] then [] else [SubstituteField(fields[0], entries)] + SubstituteFields(fields[1..], entries)
  }

  function SubstituteItems(items: seq<Value>, entries: Entries): seq<Value>
    decreases items
  {
    if items == [] then [] else [Substitute(items[0], entries)] + SubstituteItems(items[1..], entries)
  }

  // The references of a tree, at any depth.
  function ReferencesOf(v: Value): set<string>
    decreases v, 0
  {
    match v
    case Object(fields) => FieldsReferences(fields)
    case Array(items) => ItemsReferences(items)
    case _ => {}
  }

  function FieldReferences(field: Field): set<string>
    decreases field, 1
  {
    if IsReference(field) then {field.value.text} else ReferencesOf(field.value)
  }

  function FieldsReferences(fields: seq<Field>): set<string>
    decreases fields
  {
    if fields == [] then {} else FieldReferences(fields[0]) + FieldsReferences(fields[1..])
  }

  function ItemsReferences(items: seq<Value>): set<string>
    decreases items
  {
    if items == [] then {} else ReferencesOf(items[0]) + ItemsReferences(items[1..])
  }

  ghost predicate Extends(small: Entries, large: Entries) {
    forall text :: text in small ==> text in large && large[text] == small[text]
  }

  // What one walk does to the map.
  ghost predicate Grows(was: Map, now: Map, texts: set<string>, ids: Supply) {
    && Extends(was.entries, now.entries)
    && now.entries.Keys == was.entries.Keys + texts
    && was.issued <= now.issued
    && (forall text :: text in now.entries && text !in was.entries ==> Issued(now.entries[text], was.issued, now.issued, ids))
    && (Injective(ids) ==> forall a, b :: a in now.entries && b in now.entries && a !in was.entries && b !in was.entries && a != b ==>
          now.entries[a] != now.entries[b])
  }

  ghost predicate Issued(v: Value, from: nat, to: nat, ids: Supply) {
    exists n: nat :: from <= n < to && v == Text(ids(n))
  }

  ghost predicate Injective(ids: Supply) {
    forall i: nat, j: nat :: i != j ==> ids(i) != ids(j)
  }

  lemma IssuedApart(a: Value, b: Value, from: nat, between: nat, to: nat, ids: Supply)
    requires Injective(ids) && Issued(a, from, between, ids) && Issued(b, between, to, ids)
    ensures a != b
  {
    var i: nat :| from <= i < between && a == Text(ids(i));
    var j: nat :| between <= j < to && b == Text(ids(j));
    assert i != j;
  }

  lemma IssuedWider(v: Value, from: nat, to: nat, ids: Supply, lower: nat, upper: nat)
    requires lower <= from && to <= upper && Issued(v, from, to, ids)
    ensures Issued(v, lower, upper, ids)
  {
    var n: nat :| from <= n < to && v == Text(ids(n));
    assert lower <= n < upper;
  }

  lemma GrowsTogether(a: Map, b: Map, c: Map, first: set<string>, second: set<string>, ids: Supply)
    requires Grows(a, b, first, ids) && Grows(b, c, second, ids)
    ensures Grows(a, c, first + second, ids)
  {
    hide Issued, Injective;
    forall text | text in c.entries && text !in a.entries
      ensures Issued(c.entries[text], a.issued, c.issued, ids)
    {
      if text in b.entries {
        IssuedWider(c.entries[text], a.issued, b.issued, ids, a.issued, c.issued);
      } else {
        IssuedWider(c.entries[text], b.issued, c.issued, ids, a.issued, c.issued);
      }
    }
    if Injective(ids) {
      forall s, t | s in c.entries && t in c.entries && s !in a.entries && t !in a.entries && s != t
        ensures c.entries[s] != c.entries[t]
      {
        NewApartTogether(a, b, c, first, second, ids, s, t);
      }
    }
  }

  lemma NewApartTogether(a: Map, b: Map, c: Map, first: set<string>, second: set<string>, ids: Supply, s: string, t: string)
    requires Grows(a, b, first, ids) && Grows(b, c, second, ids) && Injective(ids)
    requires s in c.entries && t in c.entries && s !in a.entries && t !in a.entries && s != t
    ensures c.entries[s] != c.entries[t]
  {
    hide Issued, Injective;
    if s in b.entries && t !in b.entries {
      IssuedApart(c.entries[s], c.entries[t], a.issued, b.issued, c.issued, ids);
    } else if s !in b.entries && t in b.entries {
      IssuedApart(c.entries[t], c.entries[s], a.issued, b.issued, c.issued, ids);
    }
  }

  lemma {:induction false} BindGrows(v: Value, m: Map, ids: Supply)
    ensures Grows(m, Bind(v, m, ids).1, ReferencesOf(v), ids)
    decreases v, 0
  {
    match v
    case Object(fields) => FieldsGrow(fields, m, ids);
    case Array(items) => ItemsGrow(items, m, ids);
    case _ =>
  }

  lemma {:induction false} FieldGrows(field: Field, m: Map, ids: Supply)
    ensures Grows(m, BindField(field, m, ids).1, FieldReferences(field), ids)
    decreases field, 1
  {
    if IsReference(field) {
      var text, after := field.value.text, Entered(m, ids, field.value.text);
      if text !in m.entries {
        assert m.issued <= m.issued < after.issued && after.entries[text] == Text(ids(m.issued));
      }
    } else {
      BindGrows(field.value, m, ids);
    }
    hide Opaque;
  }

  lemma {:induction false} FieldsGrow(fields: seq<Field>, m: Map, ids: Supply)
    ensures Grows(m, BindFields(fields, m, ids).1, FieldsReferences(fields), ids)
    decreases fields
  {
    if fields != [] {
      var first := BindField(fields[0], m, ids);
      var rest := BindFields(fields[1..], first.1, ids);
      FieldGrows(fields[0], m, ids);
      FieldsGrow(fields[1..], first.1, ids);
      GrowsTogether(m, first.1, rest.1, FieldReferences(fields[0]), FieldsReferences(fields[1..]), ids);
      hide Grows, BindField, FieldReferences;
    }
  }

  lemma {:induction false} ItemsGrow(items: seq<Value>, m: Map, ids: Supply)
    ensures Grows(m, BindItems(items, m, ids).1, ItemsReferences(items), ids)
    decreases items
  {
    if items != [] {
      var first := Bind(items[0], m, ids);
      var rest := BindItems(items[1..], first.1, ids);
      BindGrows(items[0], m, ids);
      ItemsGrow(items[1..], first.1, ids);
      GrowsTogether(m, first.1, rest.1, ReferencesOf(items[0]), ItemsReferences(items[1..]), ids);
      hide Grows, Bind, ReferencesOf;
    }
  }

  lemma {:induction false} BindSubstitutes(v: Value, m: Map, ids: Supply, entries: Entries)
    requires Extends(Bind(v, m, ids).1.entries, entries)
    ensures Bind(v, m, ids).0 == Substitute(v, entries)
    decreases v, 0
  {
    match v
    case Object(fields) => FieldsSubstitute(fields, m, ids, entries);
    case Array(items) => ItemsSubstitute(items, m, ids, entries);
    case _ =>
  }

  lemma {:induction false} FieldSubstitutes(field: Field, m: Map, ids: Supply, entries: Entries)
    requires Extends(BindField(field, m, ids).1.entries, entries)
    ensures BindField(field, m, ids).0 == SubstituteField(field, entries)
    decreases field, 1
  {
    if !IsReference(field) {
      BindSubstitutes(field.value, m, ids, entries);
    }
    hide Opaque;
  }

  lemma {:induction false} FieldsSubstitute(fields: seq<Field>, m: Map, ids: Supply, entries: Entries)
    requires Extends(BindFields(fields, m, ids).1.entries, entries)
    ensures BindFields(fields, m, ids).0 == SubstituteFields(fields, entries)
    decreases fields
  {
    if fields != [] {
      var first := BindField(fields[0], m, ids);
      FieldsGrow(fields[1..], first.1, ids);
      FieldSubstitutes(fields[0], m, ids, entries);
      FieldsSubstitute(fields[1..], first.1, ids, entries);
      hide BindField, SubstituteField, FieldsReferences;
    }
  }

  lemma {:induction false} ItemsSubstitute(items: seq<Value>, m: Map, ids: Supply, entries: Entries)
    requires Extends(BindItems(items, m, ids).1.entries, entries)
    ensures BindItems(items, m, ids).0 == SubstituteItems(items, entries)
    decreases items
  {
    if items != [] {
      var first := Bind(items[0], m, ids);
      ItemsGrow(items[1..], first.1, ids);
      BindSubstitutes(items[0], m, ids, entries);
      ItemsSubstitute(items[1..], first.1, ids, entries);
      hide Bind, Substitute, ItemsReferences;
    }
  }

  // One pass with a growing map is substitution by its final state: equal references get equal ids
  // wherever they stand, old entries keep theirs, and exactly the tree's references are entered.
  lemma BindIsSubstitution(v: Value, m: Map, ids: Supply)
    ensures var bound := Bind(v, m, ids);
            && bound.0 == Substitute(v, bound.1.entries)
            && Extends(m.entries, bound.1.entries)
            && bound.1.entries.Keys == m.entries.Keys + ReferencesOf(v)
  {
    BindGrows(v, m, ids);
    BindSubstitutes(v, m, ids, Bind(v, m, ids).1.entries);
    hide Bind, Substitute, ReferencesOf;
  }

  // With a supply that never repeats an id and never issues one already in use, a new reference gets
  // an id no other reference has.
  lemma NewIdsAreDistinct(v: Value, m: Map, ids: Supply, a: string, b: string)
    requires Injective(ids)
    requires forall text, n: nat :: text in m.entries ==> m.entries[text] != Text(ids(n))
    requires a in Bind(v, m, ids).1.entries && b in Bind(v, m, ids).1.entries
    requires a != b && a !in m.entries
    ensures Bind(v, m, ids).1.entries[a] != Bind(v, m, ids).1.entries[b]
  {
    BindGrows(v, m, ids);
    var after := Bind(v, m, ids).1;
    hide Bind, ReferencesOf;
    if b in m.entries {
      var n: nat :| m.issued <= n < after.issued && after.entries[a] == Text(ids(n));
      assert m.entries[b] != Text(ids(n));
    }
  }

  // ---- What binding keeps ------------------------------------------------------------------------------

  ghost predicate PlatformTexts(entries: Entries) {
    forall text :: text in entries ==> entries[text].Text? && entries[text].text != ""
  }

  // The tree with every reference blanked: its shape, its keys and all its other content.
  function Skeleton(v: Value): Value
    decreases v, 0
  {
    match v
    case Object(fields) => Object(FieldsSkeleton(fields))
    case Array(items) => Array(ItemsSkeleton(items))
    case _ => v
  }

  function FieldSkeleton(field: Field): Field
    decreases field, 1
  {
    if IsReference(field) then Field(field.key, Null) else Field(field.key, Skeleton(field.value))
  }

  function FieldsSkeleton(fields: seq<Field>): seq<Field>
    decreases fields
  {
    if fields == [] then [] else [FieldSkeleton(fields[0])] + FieldsSkeleton(fields[1..])
  }

  function ItemsSkeleton(items: seq<Value>): seq<Value>
    decreases items
  {
    if items == [] then [] else [Skeleton(items[0])] + ItemsSkeleton(items[1..])
  }

  lemma {:induction false} SubstituteKeepsSkeleton(v: Value, entries: Entries)
    requires PlatformTexts(entries)
    ensures Skeleton(Substitute(v, entries)) == Skeleton(v)
    decreases v, 0
  {
    match v
    case Object(fields) => FieldsKeepSkeleton(fields, entries);
    case Array(items) => ItemsKeepSkeleton(items, entries);
    case _ =>
  }

  lemma NotMadeReference(v: Value, entries: Entries)
    ensures Substitute(v, entries).Text? <==> v.Text?
    ensures v.Text? ==> Substitute(v, entries) == v
  {
  }

  lemma {:induction false} FieldsKeepSkeleton(fields: seq<Field>, entries: Entries)
    requires PlatformTexts(entries)
    ensures FieldsSkeleton(SubstituteFields(fields, entries)) == FieldsSkeleton(fields)
    decreases fields
  {
    if fields != [] {
      FieldsKeepSkeleton(fields[1..], entries);
      assert SubstituteFields(fields, entries)[1..] == SubstituteFields(fields[1..], entries);
      NotMadeReference(fields[0].value, entries);
      if !IsReference(fields[0]) {
        SubstituteKeepsSkeleton(fields[0].value, entries);
      }
      hide Opaque, Substitute, Skeleton;
    }
  }

  lemma {:induction false} ItemsKeepSkeleton(items: seq<Value>, entries: Entries)
    requires PlatformTexts(entries)
    ensures ItemsSkeleton(SubstituteItems(items, entries)) == ItemsSkeleton(items)
    decreases items
  {
    if items != [] {
      ItemsKeepSkeleton(items[1..], entries);
      assert SubstituteItems(items, entries)[1..] == SubstituteItems(items[1..], entries);
      SubstituteKeepsSkeleton(items[0], entries);
      hide Substitute, Skeleton;
    }
  }

  ghost predicate Known(text: string, entries: Entries) {
    exists source :: source in entries && entries[source] == Text(text)
  }

  lemma {:induction false} OnlyPlatformIdsRemain(v: Value, entries: Entries)
    requires PlatformTexts(entries) && ReferencesOf(v) <= entries.Keys
    ensures forall text :: text in ReferencesOf(Substitute(v, entries)) ==> Known(text, entries)
    decreases v, 0
  {
    match v
    case Object(fields) => FieldsOnlyPlatform(fields, entries);
    case Array(items) => ItemsOnlyPlatform(items, entries);
    case _ =>
  }

  lemma {:induction false} FieldsOnlyPlatform(fields: seq<Field>, entries: Entries)
    requires PlatformTexts(entries) && FieldsReferences(fields) <= entries.Keys
    ensures forall text :: text in FieldsReferences(SubstituteFields(fields, entries)) ==> Known(text, entries)
    decreases fields
  {
    if fields != [] {
      FieldsOnlyPlatform(fields[1..], entries);
      assert SubstituteFields(fields, entries)[1..] == SubstituteFields(fields[1..], entries);
      NotMadeReference(fields[0].value, entries);
      if IsReference(fields[0]) {
        assert fields[0].value.text in entries;
      } else {
        OnlyPlatformIdsRemain(fields[0].value, entries);
      }
      hide Opaque, Substitute, ReferencesOf;
    }
  }

  lemma {:induction false} ItemsOnlyPlatform(items: seq<Value>, entries: Entries)
    requires PlatformTexts(entries) && ItemsReferences(items) <= entries.Keys
    ensures forall text :: text in ItemsReferences(SubstituteItems(items, entries)) ==> Known(text, entries)
    decreases items
  {
    if items != [] {
      ItemsOnlyPlatform(items[1..], entries);
      assert SubstituteItems(items, entries)[1..] == SubstituteItems(items[1..], entries);
      OnlyPlatformIdsRemain(items[0], entries);
      hide Substitute, ReferencesOf;
    }
  }

  // Every entry is one of the platform's own ids.
  ghost predicate AllPlatform(entries: Entries, platform: iset<string>) {
    forall text :: text in entries ==> entries[text].Text? && entries[text].text in platform
  }

  ghost predicate SuppliesPlatform(ids: Supply, platform: iset<string>) {
    forall n: nat :: ids(n) in platform
  }

  lemma GrownPlatform(was: Map, now: Map, texts: set<string>, ids: Supply, platform: iset<string>)
    requires Grows(was, now, texts, ids) && AllPlatform(was.entries, platform) && SuppliesPlatform(ids, platform)
    ensures AllPlatform(now.entries, platform)
  {
    forall text | text in now.entries
      ensures now.entries[text].Text? && now.entries[text].text in platform
    {
      if text in was.entries {
        assert now.entries[text] == was.entries[text];
      } else {
        var n: nat :| was.issued <= n < now.issued && now.entries[text] == Text(ids(n));
      }
    }
  }

  // Binding changes references and nothing else; a map of platform ids stays one, and every reference
  // left in the tree, a text directly under an opaque key, is such an id.
  lemma BindHidesReferences(v: Value, m: Map, ids: Supply, platform: iset<string>)
    requires AllPlatform(m.entries, platform) && SuppliesPlatform(ids, platform) && "" !in platform
    ensures var bound := Bind(v, m, ids);
            && Skeleton(bound.0) == Skeleton(v)
            && AllPlatform(bound.1.entries, platform)
            && forall text :: text in ReferencesOf(bound.0) ==> text in platform
  {
    var bound := Bind(v, m, ids);
    BindIsSubstitution(v, m, ids);
    BindGrows(v, m, ids);
    GrownPlatform(m, bound.1, ReferencesOf(v), ids, platform);
    hide Bind, Substitute, ReferencesOf, Skeleton, Grows;
    assert PlatformTexts(bound.1.entries);
    SubstituteKeepsSkeleton(v, bound.1.entries);
    OnlyPlatformIdsRemain(v, bound.1.entries);
    forall text | text in ReferencesOf(bound.0) ensures text in platform {
      var source :| source in bound.1.entries && bound.1.entries[source] == Text(text);
    }
  }

  // ---- Which texts survive ------------------------------------------------------------------------------

  function TextsOf(v: Value): set<string>
    decreases v, 0
  {
    match v
    case Text(text) => {text}
    case Object(fields) => FieldsTexts(fields)
    case Array(items) => ItemsTexts(items)
    case _ => {}
  }

  function FieldsTexts(fields: seq<Field>): set<string>
    decreases fields
  {
    if fields == [] then {} else TextsOf(fields[0].value) + FieldsTexts(fields[1..])
  }

  function ItemsTexts(items: seq<Value>): set<string>
    decreases items
  {
    if items == [] then {} else TextsOf(items[0]) + ItemsTexts(items[1..])
  }

  // The texts that stand anywhere but directly under an opaque key, arrays under one included.
  function LooseTexts(v: Value): set<string>
    decreases v, 0
  {
    match v
    case Text(text) => {text}
    case Object(fields) => FieldsLoose(fields)
    case Array(items) => ItemsLoose(items)
    case _ => {}
  }

  function FieldLoose(field: Field): set<string>
    decreases field, 1
  {
    if IsReference(field) then {} else LooseTexts(field.value)
  }

  function FieldsLoose(fields: seq<Field>): set<string>
    decreases fields
  {
    if fields == [] then {} else FieldLoose(fields[0]) + FieldsLoose(fields[1..])
  }

  function ItemsLoose(items: seq<Value>): set<string>
    decreases items
  {
    if items == [] then {} else LooseTexts(items[0]) + ItemsLoose(items[1..])
  }

  // The ids that stand for these references.
  ghost predicate StandsFor(text: string, references: set<string>, entries: Entries) {
    exists reference :: reference in references && reference in entries && entries[reference] == Text(text)
  }

  lemma StandsForEither(text: string, a: set<string>, b: set<string>, entries: Entries)
    ensures StandsFor(text, a + b, entries) <==> StandsFor(text, a, entries) || StandsFor(text, b, entries)
  {
  }

  lemma {:induction false} TextsAfter(v: Value, entries: Entries, text: string)
    requires PlatformTexts(entries) && ReferencesOf(v) <= entries.Keys
    ensures text in TextsOf(Substitute(v, entries)) <==> text in LooseTexts(v) || StandsFor(text, ReferencesOf(v), entries)
    decreases v, 0
  {
    match v
    case Object(fields) => FieldsTextsAfter(fields, entries, text);
    case Array(items) => ItemsTextsAfter(items, entries, text);
    case _ =>
  }

  lemma {:induction false} FieldTextsAfter(field: Field, entries: Entries, text: string)
    requires PlatformTexts(entries) && FieldReferences(field) <= entries.Keys
    ensures text in TextsOf(SubstituteField(field, entries).value) <==>
            text in FieldLoose(field) || StandsFor(text, FieldReferences(field), entries)
    decreases field, 1
  {
    if IsReference(field) {
      assert field.value.text in entries && entries[field.value.text].Text?;
    } else {
      TextsAfter(field.value, entries, text);
    }
    hide Opaque, Substitute, ReferencesOf, LooseTexts;
  }

  lemma {:induction false} FieldsTextsAfter(fields: seq<Field>, entries: Entries, text: string)
    requires PlatformTexts(entries) && FieldsReferences(fields) <= entries.Keys
    ensures text in FieldsTexts(SubstituteFields(fields, entries)) <==>
            text in FieldsLoose(fields) || StandsFor(text, FieldsReferences(fields), entries)
    decreases fields
  {
    if fields != [] {
      FieldTextsAfter(fields[0], entries, text);
      FieldsTextsAfter(fields[1..], entries, text);
      StandsForEither(text, FieldReferences(fields[0]), FieldsReferences(fields[1..]), entries);
      assert SubstituteFields(fields, entries)[1..] == SubstituteFields(fields[1..], entries);
      hide SubstituteField, TextsOf, FieldLoose, FieldReferences, StandsFor;
    }
  }

  lemma {:induction false} ItemsTextsAfter(items: seq<Value>, entries: Entries, text: string)
    requires PlatformTexts(entries) && ItemsReferences(items) <= entries.Keys
    ensures text in ItemsTexts(SubstituteItems(items, entries)) <==>
            text in ItemsLoose(items) || StandsFor(text, ItemsReferences(items), entries)
    decreases items
  {
    if items != [] {
      TextsAfter(items[0], entries, text);
      ItemsTextsAfter(items[1..], entries, text);
      StandsForEither(text, ReferencesOf(items[0]), ItemsReferences(items[1..]), entries);
      assert SubstituteItems(items, entries)[1..] == SubstituteItems(items[1..], entries);
      hide Substitute, TextsOf, LooseTexts, ReferencesOf, StandsFor;
    }
  }

  // A supplier's text is gone from the bound tree exactly when it stood under opaque keys only: inside a
  // list under such a key, or under any other key as well, it stays.
  lemma SupplierTextStaysIff(v: Value, m: Map, ids: Supply, platform: iset<string>, text: string)
    requires AllPlatform(m.entries, platform) && SuppliesPlatform(ids, platform) && "" !in platform && text !in platform
    ensures text in TextsOf(Bind(v, m, ids).0) <==> text in LooseTexts(v)
  {
    var bound := Bind(v, m, ids);
    BindIsSubstitution(v, m, ids);
    BindGrows(v, m, ids);
    GrownPlatform(m, bound.1, ReferencesOf(v), ids, platform);
    hide Bind, Substitute, ReferencesOf, TextsOf, LooseTexts;
    assert PlatformTexts(bound.1.entries);
    TextsAfter(v, bound.1.entries, text);
  }

  // ---- References of members --------------------------------------------------------------------------------

  lemma {:induction false} ReferencesTogether(a: seq<Field>, b: seq<Field>)
    ensures FieldsReferences(a + b) == FieldsReferences(a) + FieldsReferences(b)
  {
    hide FieldReferences;
    if a == [] {
      assert a + b == b;
    } else {
      ReferencesTogether(a[1..], b);
      assert (a + b)[0] == a[0] && (a + b)[1..] == a[1..] + b;
    }
  }

  lemma OneReference(field: Field)
    ensures FieldsReferences([field]) == FieldReferences(field)
  {
    assert [field][1..] == [];
    hide FieldReferences;
  }

  lemma {:induction false} FieldWithin(fields: seq<Field>, key: string)
    requires Lookup(fields, key).Some?
    ensures FieldReferences(Field(key, Lookup(fields, key).value)) <= FieldsReferences(fields)
  {
    hide FieldReferences;
    if fields[0].key == key {
      assert fields[0] == Field(key, Lookup(fields, key).value);
    } else {
      FieldWithin(fields[1..], key);
    }
  }

  // The references of a member lie within those of its object.
  lemma MemberWithin(v: Value, key: string)
    ensures Get(v, key).Some? ==> FieldReferences(Field(key, Get(v, key).value)) <= ReferencesOf(v)
    ensures ReferencesOf(Member(v, key)) <= ReferencesOf(v)
  {
    if Get(v, key).Some? {
      FieldWithin(v.fields, key);
      TextReferences(Get(v, key).value);
    }
    hide FieldsReferences, Opaque;
  }

  lemma TextReferences(v: Value)
    ensures v.Text? ==> ReferencesOf(v) == {}
    ensures v.Null? || v.Bool? || v.Number? ==> ReferencesOf(v) == {}
  {
  }

  lemma TwoFields(a: Field, b: Field)
    ensures ReferencesOf(Object([a, b])) == FieldReferences(a) + FieldReferences(b)
  {
    ReferencesTogether([a], [b]);
    OneReference(a);
    OneReference(b);
    assert [a, b] == [a] + [b];
    hide FieldReferences;
  }

  lemma HeldByObject(field: Field)
    requires !field.value.Text?
    ensures FieldReferences(field) == ReferencesOf(field.value)
  {
    hide Opaque;
  }

  lemma PlainField(key: string, v: Value)
    requires !Opaque(key)
    ensures FieldReferences(Field(key, v)) == ReferencesOf(v)
  {
    hide Opaque;
  }

  // ---- Booking identities --------------------------------------------------------------------------------

  datatype Identities = Identities(search: string, offer: string, price: string, booking: string)

  function IdentityOf(key: string, own: Identities): Option<string> {
    if key == "uniqueTransID" then Some(own.search)
    else if key == "itemCodeRef" then Some(own.offer)
    else if key == "priceCodeRef" then Some(own.price)
    else if key == "bookingCodeRef" then Some(own.booking)
    else None
  }

  predicate IsIdentity(field: Field, own: Identities) {
    field.value.Text? && IdentityOf(field.key, own).Some?
  }

  function BindIdentities(v: Value, own: Identities): Value
    decreases v, 0
  {
    match v
    case Object(fields) => Object(BindFieldIdentities(fields, own))
    case Array(items) => Array(BindItemIdentities(items, own))
    case _ => v
  }

  function BindIdentity(field: Field, own: Identities): Field
    decreases field, 1
  {
    if IsIdentity(field, own) then Field(field.key, Text(IdentityOf(field.key, own).value))
    else Field(field.key, BindIdentities(field.value, own))
  }

  function BindFieldIdentities(fields: seq<Field>, own: Identities): seq<Field>
    decreases fields
  {
    if fields == [] then [] else [BindIdentity(fields[0], own)] + BindFieldIdentities(fields[1..], own)
  }

  function BindItemIdentities(items: seq<Value>, own: Identities): seq<Value>
    decreases items
  {
    if items == [] then [] else [BindIdentities(items[0], own)] + BindItemIdentities(items[1..], own)
  }

  // Every text under one of the four names, at any depth, is the platform's own id.
  predicate Identified(v: Value, own: Identities)
    decreases v, 0
  {
    match v
    case Object(fields) => FieldsIdentified(fields, own)
    case Array(items) => ItemsIdentified(items, own)
    case _ => true
  }

  predicate FieldIdentified(field: Field, own: Identities)
    decreases field, 1
  {
    if IsIdentity(field, own) then field.value.text == IdentityOf(field.key, own).value
    else Identified(field.value, own)
  }

  predicate FieldsIdentified(fields: seq<Field>, own: Identities)
    decreases fields
  {
    fields == [] || (FieldIdentified(fields[0], own) && FieldsIdentified(fields[1..], own))
  }

  predicate ItemsIdentified(items: seq<Value>, own: Identities)
    decreases items
  {
    items == [] || (Identified(items[0], own) && ItemsIdentified(items[1..], own))
  }

  // The identities are what binding establishes, and it changes a tree exactly when one is missing.
  lemma {:induction false} IdentitiesBound(v: Value, own: Identities)
    ensures Identified(BindIdentities(v, own), own)
    ensures BindIdentities(v, own) == v <==> Identified(v, own)
    ensures BindIdentities(v, own).Text? <==> v.Text?
    decreases v, 0
  {
    match v
    case Object(fields) => FieldIdentitiesBound(fields, own);
    case Array(items) => ItemIdentitiesBound(items, own);
    case _ =>
  }

  lemma {:induction false} FieldIdentitiesBound(fields: seq<Field>, own: Identities)
    ensures FieldsIdentified(BindFieldIdentities(fields, own), own)
    ensures BindFieldIdentities(fields, own) == fields <==> FieldsIdentified(fields, own)
    decreases fields
  {
    if fields != [] {
      var bound := BindFieldIdentities(fields, own);
      FieldIdentitiesBound(fields[1..], own);
      IdentitiesBound(fields[0].value, own);
      assert bound[1..] == BindFieldIdentities(fields[1..], own);
      assert bound == fields <==> bound[0] == fields[0] && bound[1..] == fields[1..] by {
        assert bound == [bound[0]] + bound[1..] && fields == [fields[0]] + fields[1..];
      }
      hide IdentityOf, BindIdentities, Identified;
    }
  }

  lemma {:induction false} ItemIdentitiesBound(items: seq<Value>, own: Identities)
    ensures ItemsIdentified(BindItemIdentities(items, own), own)
    ensures BindItemIdentities(items, own) == items <==> ItemsIdentified(items, own)
    decreases items
  {
    if items != [] {
      var bound := BindItemIdentities(items, own);
      ItemIdentitiesBound(items[1..], own);
      IdentitiesBound(items[0], own);
      assert bound[1..] == BindItemIdentities(items[1..], own);
      assert bound == items <==> bound[0] == items[0] && bound[1..] == items[1..] by {
        assert bound == [bound[0]] + bound[1..] && items == [items[0]] + items[1..];
      }
      hide BindIdentities, Identified;
    }
  }

  predicate OwnId(text: string, own: Identities) {
    text == own.search || text == own.offer || text == own.price || text == own.booking
  }

  lemma {:induction false} IdentitiesAddOnlyOwn(v: Value, own: Identities)
    ensures forall text :: text in ReferencesOf(BindIdentities(v, own)) ==> text in ReferencesOf(v) || OwnId(text, own)
    decreases v, 0
  {
    match v
    case Object(fields) => FieldIdentitiesAdd(fields, own);
    case Array(items) => ItemIdentitiesAdd(items, own);
    case _ =>
  }

  lemma {:induction false} FieldIdentitiesAdd(fields: seq<Field>, own: Identities)
    ensures forall text :: text in FieldsReferences(BindFieldIdentities(fields, own)) ==> text in FieldsReferences(fields) || OwnId(text, own)
    decreases fields
  {
    if fields != [] {
      FieldIdentitiesAdd(fields[1..], own);
      IdentitiesAddOnlyOwn(fields[0].value, own);
      IdentitiesBound(fields[0].value, own);
      assert BindFieldIdentities(fields, own)[1..] == BindFieldIdentities(fields[1..], own);
      TextUnbound(fields[0].value, own);
      TextHasNoReferences(fields[0].value);
      TextHasNoReferences(BindIdentity(fields[0], own).value);
      hide Opaque, BindIdentities, ReferencesOf;
    }
  }

  lemma TextHasNoReferences(v: Value)
    ensures v.Text? ==> ReferencesOf(v) == {}
  {
  }

  lemma TextUnbound(v: Value, own: Identities)
    ensures v.Text? ==> BindIdentities(v, own) == v
  {
  }

  lemma {:induction false} ItemIdentitiesAdd(items: seq<Value>, own: Identities)
    ensures forall text :: text in ItemsReferences(BindItemIdentities(items, own)) ==> text in ItemsReferences(items) || OwnId(text, own)
    decreases items
  {
    if items != [] {
      ItemIdentitiesAdd(items[1..], own);
      IdentitiesAddOnlyOwn(items[0], own);
      assert BindItemIdentities(items, own)[1..] == BindItemIdentities(items[1..], own);
      hide BindIdentities, ReferencesOf;
    }
  }

  ghost predicate OwnPlatform(own: Identities, platform: iset<string>) {
    own.search in platform && own.offer in platform && own.price in platform && own.booking in platform
  }

  // A projected booking response: the four identities at every depth are the booking's own, and every
  // reference that remains is one of the platform's ids.
  lemma ProjectionIsPlatformOnly(v: Value, m: Map, ids: Supply, own: Identities, platform: iset<string>)
    requires AllPlatform(m.entries, platform) && SuppliesPlatform(ids, platform) && "" !in platform
    requires OwnPlatform(own, platform)
    ensures var shown := BindIdentities(Bind(v, m, ids).0, own);
            && Identified(shown, own)
            && forall text :: text in ReferencesOf(shown) ==> text in platform
  {
    BindHidesReferences(v, m, ids, platform);
    IdentitiesBound(Bind(v, m, ids).0, own);
    IdentitiesAddOnlyOwn(Bind(v, m, ids).0, own);
    hide Bind, BindIdentities, ReferencesOf, Identified;
  }

  // ---- Tickets -----------------------------------------------------------------------------------------

  predicate TicketField(field: Field) {
    && field.key == "ticketNumbers"
    && field.value != Null
    && field.value != Array([])
    && field.value != Text("")
  }

  // src/booking.rs contains_ticket: a filled ticketNumbers member at any depth.
  predicate ContainsTicket(v: Value)
    decreases v, 0
  {
    match v
    case Object(fields) => AnyTicketField(fields)
    case Array(items) => AnyTicketItem(items)
    case _ => false
  }

  predicate AnyTicketField(fields: seq<Field>)
    decreases fields
  {
    fields != [] && (TicketField(fields[0]) || ContainsTicket(fields[0].value) || AnyTicketField(fields[1..]))
  }

  predicate AnyTicketItem(items: seq<Value>)
    decreases items
  {
    items != [] && (ContainsTicket(items[0]) || AnyTicketItem(items[1..]))
  }

  // The key itself is not an opaque one.
  ghost predicate TicketKeyPlain() {
    forall field: Field :: TicketField(field) ==> !Opaque(field.key)
  }

  // Binding neither hides a ticket number nor makes one up.
  lemma BindingKeepsTickets(v: Value, entries: Entries)
    requires PlatformTexts(entries)
    ensures ContainsTicket(Substitute(v, entries)) <==> ContainsTicket(v)
  {
    TicketKeyIsPlain();
    hide *;
    TicketsKept(v, entries);
  }

  lemma {:induction false} TicketsKept(v: Value, entries: Entries)
    requires PlatformTexts(entries) && TicketKeyPlain()
    ensures ContainsTicket(Substitute(v, entries)) <==> ContainsTicket(v)
    decreases v, 0
  {
    hide TicketKeyPlain, PlatformTexts;
    match v
    case Object(fields) => FieldsKeepTickets(fields, entries);
    case Array(items) => ItemsKeepTickets(items, entries);
    case _ =>
  }

  lemma SubstituteEmpty(v: Value, entries: Entries)
    ensures Substitute(v, entries) == Array([]) <==> v == Array([])
    ensures Substitute(v, entries) == Null <==> v == Null
  {
    if v.Array? && v.items != [] {
      assert |SubstituteItems(v.items, entries)| >= 1;
    }
  }

  lemma FieldKeepsTicket(field: Field, entries: Entries)
    requires PlatformTexts(entries) && TicketKeyPlain()
    requires ContainsTicket(Substitute(field.value, entries)) <==> ContainsTicket(field.value)
    ensures var shown := SubstituteField(field, entries);
            TicketField(shown) || ContainsTicket(shown.value) <==> TicketField(field) || ContainsTicket(field.value)
  {
    var shown := SubstituteField(field, entries);
    NotMadeReference(field.value, entries);
    SubstituteEmpty(field.value, entries);
    TextHasNoTicket(field.value);
    TextHasNoTicket(shown.value);
    if IsReference(field) {
      assert !TicketField(field) by { hide ContainsTicket, Substitute, Opaque, TicketField; }
      assert !TicketField(shown) by { hide ContainsTicket, Substitute, Opaque, TicketField; }
    } else {
      hide Opaque, Substitute, ContainsTicket, TicketKeyPlain;
    }
  }

  lemma {:induction false} FieldsKeepTickets(fields: seq<Field>, entries: Entries)
    requires PlatformTexts(entries) && TicketKeyPlain()
    ensures AnyTicketField(SubstituteFields(fields, entries)) <==> AnyTicketField(fields)
    decreases fields
  {
    if fields != [] {
      FieldsKeepTickets(fields[1..], entries);
      assert SubstituteFields(fields, entries)[1..] == SubstituteFields(fields[1..], entries);
      TicketsKept(fields[0].value, entries);
      FieldKeepsTicket(fields[0], entries);
      hide Opaque, Substitute, SubstituteField, ContainsTicket, TicketField, TicketKeyPlain;
    }
  }

  lemma TextHasNoTicket(v: Value)
    ensures v.Text? ==> !ContainsTicket(v)
  {
  }

  lemma {:induction false} ItemsKeepTickets(items: seq<Value>, entries: Entries)
    requires PlatformTexts(entries) && TicketKeyPlain()
    ensures AnyTicketItem(SubstituteItems(items, entries)) <==> AnyTicketItem(items)
    decreases items
  {
    if items != [] {
      ItemsKeepTickets(items[1..], entries);
      assert SubstituteItems(items, entries)[1..] == SubstituteItems(items[1..], entries);
      TicketsKept(items[0], entries);
      hide Substitute, ContainsTicket, TicketKeyPlain;
    }
  }

  lemma {:induction false} ContainsRefSpells(s: string)
    requires Contains(s, "ref")
    ensures exists i :: 0 <= i < |s| - 2 && s[i] == 'r' && s[i + 1] == 'e'
  {
    if "ref" <= s {
      assert s[0] == 'r' && s[1] == 'e';
    } else {
      ContainsRefSpells(s[1..]);
      var i :| 0 <= i < |s[1..]| - 2 && s[1..][i] == 'r' && s[1..][i + 1] == 'e';
      assert s[i + 1] == 'r' && s[i + 2] == 'e';
    }
  }

  lemma NoRefSpelled(key: string)
    requires forall i :: 0 <= i < |key| - 1 && Lower(key[i]) == 'r' ==> Lower(key[i + 1]) != 'e'
    ensures !Contains(LowerAll(key), "ref")
  {
    if Contains(LowerAll(key), "ref") {
      ContainsRefSpells(LowerAll(key));
    }
    hide Contains, LowerAll;
  }

  // The letters r, e and f in a row, in either case.
  ghost predicate SpellsRef(key: string, i: nat) {
    i + 3 <= |key| && key[i] in ['r', 'R'] && key[i + 1] in ['e', 'E'] && key[i + 2] in ['f', 'F']
  }

  ghost predicate RefAt(s: string, i: nat) {
    i + 3 <= |s| && s[i] == 'r' && s[i + 1] == 'e' && s[i + 2] == 'f'
  }

  lemma {:induction false} RefContained(s: string)
    ensures Contains(s, "ref") <==> exists i: nat :: RefAt(s, i)
  {
    if "ref" <= s {
      assert RefAt(s, 0);
    } else if s != [] {
      RefContained(s[1..]);
      if i: nat :| RefAt(s, i) {
        assert i > 0 by {
          assert |s| >= 3 && s[..3] == "ref" ==> "ref" <= s;
        }
        assert RefAt(s[1..], i - 1);
      }
      if i: nat :| RefAt(s[1..], i) {
        assert RefAt(s, i + 1);
      }
    }
  }

  // A key is opaque exactly when it spells ref somewhere, in any case, or is one of two more names.
  lemma OpaqueIsSpelled(key: string)
    ensures Opaque(key) <==> (exists i: nat :: SpellsRef(key, i)) || key == "uniqueTransID" || key == "avlSrc"
  {
    var lower := LowerAll(key);
    RefContained(lower);
    hide Contains, LowerAll;
    if i: nat :| RefAt(lower, i) {
      assert SpellsRef(key, i);
    }
    if i: nat :| SpellsRef(key, i) {
      assert RefAt(lower, i);
    }
  }

  lemma TicketKeyIsPlain()
    ensures TicketKeyPlain()
  {
    hide Contains, LowerAll;
    forall field: Field | TicketField(field) ensures !Opaque(field.key) {
      NoRefSpelled(field.key);
    }
  }
}
