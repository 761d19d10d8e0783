/**
 The compact JSON printer and its injectivity: two trees print alike only when
 they are the same tree. Sections 2 and 7 of RFC 8259.

 A writer is modelled by what it leaves behind: Write(v, rest) is the text of v
 followed by whatever is written after it.
 */
module JsonText {
  import opened Json

  function Hex(n: nat): char
    requires n < 16
  {
    "0123456789abcdef"[n]
  }

  /** One character of a string literal, escaped as the serializer escapes it. */
  function WriteChar(c: char, rest: string): string {
    if c == '\"' then ['\\', '\"'] + rest
    else if c == '\\' then ['\\', '\\'] + rest
    else if c as int == 8 then ['\\', 'b'] + rest
    else if c as int == 9 then ['\\', 't'] + rest
    else if c as int == 10 then ['\\', 'n'] + rest
    else if c as int == 12 then ['\\', 'f'] + rest
    else if c as int == 13 then ['\\', 'r'] + rest
    else if c as int < 32 then ['\\', 'u', '0', '0', Hex(c as int / 16), Hex(c as int % 16)] + rest
    else [c] + rest
  }

  /** The characters of a literal and its closing quote. */
  function WriteChars(s: string, rest: string): string {
    if s == [] then ['\"'] + rest else WriteChar(s[0], WriteChars(s[1..], rest))
  }

  function Write(v: Value, rest: string): string
    decreases v, 1
  {
    match v
    case Null => "null" + rest
    case Bool(flag) => (if flag then "true" else "false") + rest
    case Number(lexeme) => lexeme + rest
    case Text(text) => ['\"'] + WriteChars(text, rest)
    case Array(items) => ['['] + WriteItems(items, true, [']'] + rest)
    case Object(fields) => ['{'] + WriteFields(fields, true, ['}'] + rest)
  }

  function WriteItems(items: seq<Value>, first: bool, rest: string): string
    decreases items, 0
  {
    if items == [] then rest
    else
      var text := Write(items[0], WriteItems(items[1..], false, rest));
      if first then text else [','] + text
  }

  function WriteFields(fields: seq<Field>, first: bool, rest: string): string
    decreases fields, 0
  {
    if fields == [] then rest
    else
      var text := ['\"'] + WriteChars(fields[0].key, [':'] + Write(fields[0].value, WriteFields(fields[1..], false, rest)));
      if first then text else [','] + text
  }

  function Print(v: Value): string {
    Write(v, "")
  }

  /** What can follow a complete value. */
  predicate Delimited(s: string) {
    s == [] || s[0] == ',' || s[0] == ']' || s[0] == '}'
  }

  lemma WriteCharInjective(c: char, d: char, s: string, t: string)
    requires WriteChar(c, s) == WriteChar(d, t)
    ensures c == d && s == t
  {
    var p, q := WriteChar(c, s), WriteChar(d, t);
    assert p[0] == q[0];
    if c == '\"' || c == '\\' || c as int < 32 {
      assert p[0] == '\\';
      assert d == '\"' || d == '\\' || d as int < 32;
      assert p[1] == q[1];
      if p[1] == 'u' {
        assert p[4] == q[4] && p[5] == q[5];
        assert p[6..] == s && q[6..] == t;
      } else {
        assert p[2..] == s && q[2..] == t;
      }
    } else {
      assert p[1..] == s && q[1..] == t;
    }
  }

  /** The first character of an escaped character is never a closing quote. */
  lemma EscapedNotQuote(c: char, rest: string)
    ensures WriteChar(c, rest) != [] && WriteChar(c, rest)[0] != '\"'
  {
  }

  lemma {:induction false} WriteCharsInjective(a: string, b: string, s: string, t: string)
    requires WriteChars(a, s) == WriteChars(b, t)
    ensures a == b && s == t
  {
    if a == [] && b == [] {
      assert WriteChars(a, s)[1..] == s && WriteChars(b, t)[1..] == t;
    } else if a == [] {
      EscapedNotQuote(b[0], WriteChars(b[1..], t));
    } else if b == [] {
      EscapedNotQuote(a[0], WriteChars(a[1..], s));
    } else {
      WriteCharInjective(a[0], b[0], WriteChars(a[1..], s), WriteChars(b[1..], t));
      WriteCharsInjective(a[1..], b[1..], s, t);
      assert a == [a[0]] + a[1..] && b == [b[0]] + b[1..];
    }
  }

  /** A number ends where its characters end: the delimiter fixes its length. */
  lemma {:induction false} LexemesSplit(a: string, b: string, s: string, t: string)
    requires forall i | 0 <= i < |a| :: IsNumberChar(a[i])
    requires forall i | 0 <= i < |b| :: IsNumberChar(b[i])
    requires Delimited(s) && Delimited(t)
    requires a + s == b + t
    ensures a == b && s == t
  {
    var text := a + s;
    assert text[..|a|] == a && text[|a|..] == s;
    assert text[..|b|] == b && text[|b|..] == t;
    if |a| < |b| {
      assert false;
    } else if |b| < |a| {
      assert false;
    }
  }

  /** The first character tells the kind of a value. */
  function Lead(v: Value): char
    requires WellFormed(v)
  {
    match v
    case Null => 'n'
    case Bool(flag) => if flag then 't' else 'f'
    case Number(lexeme) => lexeme[0]
    case Text(_) => '\"'
    case Array(_) => '['
    case Object(_) => '{'
  }

  lemma WriteLead(v: Value, rest: string)
    requires WellFormed(v)
    ensures Write(v, rest) != [] && Write(v, rest)[0] == Lead(v)
    ensures Lead(v) != ']' && Lead(v) != '}' && Lead(v) != ','
  {
  }

  lemma {:induction false} WriteInjective(v: Value, w: Value, s: string, t: string)
    requires WellFormed(v) && WellFormed(w)
    requires Delimited(s) && Delimited(t)
    requires Write(v, s) == Write(w, t)
    ensures v == w && s == t
    decreases v, 1
  {
    WriteLead(v, s);
    WriteLead(w, t);
    match v {
      case Null =>
        assert w.Null?;
        assert Write(v, s)[4..] == s && Write(w, t)[4..] == t;
      case Bool(flag) =>
        assert w == v;
        var n := if flag then 4 else 5;
        assert Write(v, s)[n..] == s && Write(w, t)[n..] == t;
      case Number(lexeme) =>
        assert w.Number?;
        LexemesSplit(lexeme, w.lexeme, s, t);
      case Text(text) =>
        assert w.Text?;
        assert Write(v, s)[1..] == WriteChars(text, s) && Write(w, t)[1..] == WriteChars(w.text, t);
        WriteCharsInjective(text, w.text, s, t);
      case Array(items) =>
        assert w.Array?;
        var p, q := [']'] + s, [']'] + t;
        assert Write(v, s)[1..] == WriteItems(items, true, p) && Write(w, t)[1..] == WriteItems(w.items, true, q);
        WriteItemsInjective(items, w.items, true, p, q);
        assert p[1..] == s && q[1..] == t;
      case Object(fields) =>
        assert w.Object?;
        var p, q := ['}'] + s, ['}'] + t;
        assert Write(v, s)[1..] == WriteFields(fields, true, p) && Write(w, t)[1..] == WriteFields(w.fields, true, q);
        WriteFieldsInjective(fields, w.fields, true, p, q);
        assert p[1..] == s && q[1..] == t;
    }
  }

  /** What follows an item is delimited again. */
  lemma ItemsDelimited(items: seq<Value>, rest: string)
    requires Delimited(rest)
    ensures Delimited(WriteItems(items, false, rest))
  {
  }

  lemma FieldsDelimited(fields: seq<Field>, rest: string)
    requires Delimited(rest)
    ensures Delimited(WriteFields(fields, false, rest))
  {
  }

  lemma {:induction false} WriteItemsInjective(a: seq<Value>, b: seq<Value>, first: bool, s: string, t: string)
    requires WellFormedItems(a) && WellFormedItems(b)
    requires s != [] && s[0] == ']' && t != [] && t[0] == ']'
    requires WriteItems(a, first, s) == WriteItems(b, first, t)
    ensures a == b && s == t
    decreases a, 0
  {
    if a != [] {
      WriteLead(a[0], WriteItems(a[1..], false, s));
    }
    if b != [] {
      WriteLead(b[0], WriteItems(b[1..], false, t));
    }
    if a != [] && b != [] {
      var s', t' := WriteItems(a[1..], false, s), WriteItems(b[1..], false, t);
      ItemsDelimited(a[1..], s);
      ItemsDelimited(b[1..], t);
      if !first {
        assert WriteItems(a, first, s)[1..] == Write(a[0], s') && WriteItems(b, first, t)[1..] == Write(b[0], t');
      }
      WriteInjective(a[0], b[0], s', t');
      WriteItemsInjective(a[1..], b[1..], false, s, t);
      assert a == [a[0]] + a[1..] && b == [b[0]] + b[1..];
    }
  }

  lemma {:induction false} WriteFieldsInjective(a: seq<Field>, b: seq<Field>, first: bool, s: string, t: string)
    requires WellFormedFields(a) && WellFormedFields(b)
    requires s != [] && s[0] == '}' && t != [] && t[0] == '}'
    requires WriteFields(a, first, s) == WriteFields(b, first, t)
    ensures a == b && s == t
    decreases a, 0
  {
    if a != [] && b != [] {
      var s', t' := WriteFields(a[1..], false, s), WriteFields(b[1..], false, t);
      var p, q := [':'] + Write(a[0].value, s'), [':'] + Write(b[0].value, t');
      FieldsDelimited(a[1..], s);
      FieldsDelimited(b[1..], t);
      var skip := if first then 1 else 2;
      assert WriteFields(a, first, s)[skip..] == WriteChars(a[0].key, p);
      assert WriteFields(b, first, t)[skip..] == WriteChars(b[0].key, q);
      WriteCharsInjective(a[0].key, b[0].key, p, q);
      assert p[1..] == Write(a[0].value, s') && q[1..] == Write(b[0].value, t');
      WriteInjective(a[0].value, b[0].value, s', t');
      WriteFieldsInjective(a[1..], b[1..], false, s, t);
      assert a == [a[0]] + a[1..] && b == [b[0]] + b[1..];
    }
  }

  /** Equal text, equal tree. */
  lemma PrintInjective(v: Value, w: Value)
    requires WellFormed(v) && WellFormed(w)
    ensures Print(v) == Print(w) <==> v == w
  {
    if Print(v) == Print(w) {
      WriteInjective(v, w, "", "");
    }
  }
}
