/**
 JSON trees as the backend's parser builds them: numbers keep their lexeme
 (arbitrary precision), objects list their members in key order.
 */
module Json {
  import opened Wrappers

  datatype Value =
    | Null
    | Bool(flag: bool)
    | Number(lexeme: string)
    | Text(text: string)
    | Array(items: seq<Value>)
    | Object(fields: seq<Field>)

  datatype Field = Field(key: string, value: Value)

  /** Reading: absent members, wrong shapes and out-of-range indices all read as absent. */
  function Lookup(fields: seq<Field>, key: string): Option<Value> {
    if fields == [] then None
    else if fields[0].key == key then Some(fields[0].value)
    else Lookup(fields[1..], key)
  }

  lemma {:induction false} LookupAt(fields: seq<Field>, key: string, i: nat)
    requires i < |fields| && fields[i].key == key
    requires forall j :: 0 <= j < i ==> fields[j].key != key
    ensures Lookup(fields, key) == Some(fields[i].value)
  {
    if i > 0 {
      LookupAt(fields[1..], key, i - 1);
    }
  }

  lemma {:induction false} LookupNone(fields: seq<Field>, key: string)
    requires forall i :: 0 <= i < |fields| ==> fields[i].key != key
    ensures Lookup(fields, key) == None
  {
    if fields != [] {
      LookupNone(fields[1..], key);
    }
  }

  function Get(v: Value, key: string): Option<Value> {
    if v.Object? then Lookup(v.fields, key) else None
  }

  /** `v[key]`: an absent member reads as null. */
  function Member(v: Value, key: string): Value {
    var found := Get(v, key);
    if found.Some? then found.value else Null
  }

  /** The order of the members of an object. */
  predicate Before(a: string, b: string) {
    b != [] && (a == [] || a[0] < b[0] || (a[0] == b[0] && Before(a[1..], b[1..])))
  }

  function Inserted(fields: seq<Field>, key: string, value: Value): seq<Field> {
    if fields == [] then [Field(key, value)]
    else if fields[0].key == key then [Field(key, value)] + fields[1..]
    else if Before(key, fields[0].key) then [Field(key, value)] + fields
    else [fields[0]] + Inserted(fields[1..], key, value)
  }

  /** `v[key] = value` on an object. */
  function Put(v: Value, key: string, value: Value): Value {
    if v.Object? then Object(Inserted(v.fields, key, value)) else v
  }

  lemma {:induction false} InsertedLookup(fields: seq<Field>, key: string, value: Value, other: string)
    ensures Lookup(Inserted(fields, key, value), other) == if other == key then Some(value) else Lookup(fields, other)
  {
    if fields != [] && fields[0].key != key && !Before(key, fields[0].key) {
      InsertedLookup(fields[1..], key, value, other);
    }
    hide Before;
  }

  lemma PutGet(v: Value, key: string, value: Value, other: string)
    requires v.Object?
    ensures Get(Put(v, key, value), other) == if other == key then Some(value) else Get(v, other)
  {
    InsertedLookup(v.fields, key, value, other);
    hide Inserted, Lookup;
  }

  function AsText(v: Value): Option<string> {
    if v.Text? then Some(v.text) else None
  }

  function AsArray(v: Value): Option<seq<Value>> {
    if v.Array? then Some(v.items) else None
  }

  /** The members of an object; anything else has none. */
  function Members(v: Value): seq<Field> {
    if v.Object? then v.fields else []
  }

  /** What a parsed object guarantees. */
  ghost predicate DistinctKeys(fields: seq<Field>) {
    forall i, j :: 0 <= i < j < |fields| ==> fields[i].key != fields[j].key
  }

  predicate IsDigit(c: char) {
    '0' <= c <= '9'
  }

  predicate AllDigits(s: string) {
    forall i | 0 <= i < |s| :: IsDigit(s[i])
  }

  function DigitsValue(s: string): nat
    requires AllDigits(s)
  {
    if s == [] then 0
    else DigitsValue(s[..|s| - 1]) * 10 + (s[|s| - 1] as int - '0' as int)
  }

  const MAX_U64: nat := 0xFFFF_FFFF_FFFF_FFFF

  /** An unsigned 64-bit reading of a number: any sign, point or exponent is refused. */
  function AsU64(v: Value): Option<nat> {
    if v.Number? && v.lexeme != [] && AllDigits(v.lexeme) && DigitsValue(v.lexeme) <= MAX_U64
    then Some(DigitsValue(v.lexeme))
    else None
  }

  /** Tree size; bounds searches that walk every node. */
  function Size(v: Value): nat
    decreases v, 0
  {
    match v
    case Array(items) => 1 + ItemsSize(items)
    case Object(fields) => 1 + FieldsSize(fields)
    case _ => 1
  }

  function ItemsSize(items: seq<Value>): nat
    decreases items
  {
    if items == [] then 0 else Size(items[0]) + ItemsSize(items[1..])
  }

  function FieldsSize(fields: seq<Field>): nat
    decreases fields
  {
    if fields == [] then 0 else Size(fields[0].value) + FieldsSize(fields[1..])
  }

  /** Number lexemes of section 6 of RFC 8259 use only these characters. */
  predicate IsNumberChar(c: char) {
    IsDigit(c) || c == '-' || c == '+' || c == '.' || c == 'e' || c == 'E'
  }

  predicate NumberLexeme(s: string) {
    && s != []
    && (IsDigit(s[0]) || s[0] == '-')
    && forall i | 0 <= i < |s| :: IsNumberChar(s[i])
  }

  /** Every number in the tree has a lexeme a JSON parser could have produced. */
  predicate WellFormed(v: Value)
    decreases v, 0
  {
    match v
    case Number(lexeme) => NumberLexeme(lexeme)
    case Array(items) => WellFormedItems(items)
    case Object(fields) => WellFormedFields(fields)
    case _ => true
  }

  predicate WellFormedItems(items: seq<Value>)
    decreases items
  {
    items == [] || (WellFormed(items[0]) && WellFormedItems(items[1..]))
  }

  predicate WellFormedFields(fields: seq<Field>)
    decreases fields
  {
    fields == [] || (WellFormed(fields[0].value) && WellFormedFields(fields[1..]))
  }
}
