/** The exact decimal value of a number lexeme, as the decimal library parses it. */
module Decimals {
  import opened Wrappers
  import opened Json

  function Power10(n: nat): (r: nat)
    ensures r > 0
  {
    if n == 0 then 1 else 10 * Power10(n - 1)
  }

  function FindAny(s: string, chars: string): Option<nat> {
    if s == [] then None
    else if s[0] in chars then Some(0)
    else
      var i :- FindAny(s[1..], chars);
      Some(i + 1)
  }

  function Integer(s: string): Option<int> {
    if s != [] && s[0] == '-' then
      if s[1..] != [] && AllDigits(s[1..]) then Some(0 - DigitsValue(s[1..]) as int) else None
    else
      var digits := if s != [] && s[0] == '+' then s[1..] else s;
      if digits != [] && AllDigits(digits) then Some(DigitsValue(digits) as int) else None
  }

  const SCALE_LIMIT: int := 0x8000_0000_0000_0000

  function Scaled(digits: int, scale: int): Option<real> {
    if !(-SCALE_LIMIT <= scale < SCALE_LIMIT) then None
    else if scale >= 0 then Some(digits as real / Power10(scale) as real)
    else Some(digits as real * Power10(-scale) as real)
  }

  /** What stands before the first of the characters, and what after it. */
  function Cut(s: string, chars: string): (string, Option<string>) {
    var at := FindAny(s, chars);
    if at.Some? && at.value < |s| then (s[..at.value], Some(s[at.value + 1..])) else (s, None)
  }

  /** Mantissa digits with an implied point, shifted by the exponent; scales beyond 64 bits are refused. */
  function Decimal(lexeme: string): Option<real> {
    var (base, power) := Cut(lexeme, "eE");
    var exponent :- if power.Some? then Integer(power.value) else Some(0);
    var (whole, places) := Cut(base, ".");
    var fraction := if places.Some? then places.value else "";
    var digits :- Integer(whole + fraction);
    Scaled(digits, |fraction| - exponent)
  }

  // ---- What a lexeme is worth, told from its parts ---------------------------------------------------------

  datatype Exponent = Exponent(mark: char, sign: string, digits: string)

  /** A number as section 6 of RFC 8259 spells it. */
  datatype Numeral = Numeral(negative: bool, whole: string, fraction: Option<string>, exponent: Option<Exponent>)

  predicate Grammatical(n: Numeral) {
    && n.whole != "" && AllDigits(n.whole)
    && (n.fraction.Some? ==> n.fraction.value != "" && AllDigits(n.fraction.value))
    && match n.exponent
       case None => true
       case Some(e) => (e.mark == 'e' || e.mark == 'E') && (e.sign == "" || e.sign == "+" || e.sign == "-") &&
                       e.digits != "" && AllDigits(e.digits)
  }

  function Mantissa(n: Numeral): string {
    (if n.negative then "-" else "") + n.whole + if n.fraction.Some? then "." + n.fraction.value else ""
  }

  function Spelled(n: Numeral): string {
    Mantissa(n) + match n.exponent case None => "" case Some(e) => [e.mark] + e.sign + e.digits
  }

  function Fraction(n: Numeral): string {
    if n.fraction.Some? then n.fraction.value else ""
  }

  function Shift(n: Numeral): int
    requires Grammatical(n)
  {
    match n.exponent
    case None => 0
    case Some(e) => if e.sign == "-" then -(DigitsValue(e.digits) as int) else DigitsValue(e.digits)
  }

  /** The digits before the point, the digits after it as so many tenth parts, and the power of ten. */
  function Worth(n: Numeral): real
    requires Grammatical(n)
  {
    var size := DigitsValue(n.whole) as real + DigitsValue(Fraction(n)) as real / Tens(|Fraction(n)|);
    var moved := Moved(size, Shift(n));
    if n.negative then -moved else moved
  }

  predicate Readable(n: Numeral) {
    Grammatical(n) && -SCALE_LIMIT <= |Fraction(n)| - Shift(n) < SCALE_LIMIT
  }

  lemma {:induction false} PowersAdd(a: nat, b: nat)
    ensures Power10(a + b) == Power10(a) * Power10(b)
  {
    if a > 0 {
      PowersAdd(a - 1, b);
    }
  }

  lemma OneMoreDigit(x: nat, p: nat, y: nat, digit: int)
    ensures (x * p + y) * 10 + digit == x * (10 * p) + (y * 10 + digit)
  {
  }

  lemma {:induction false} DigitsTogether(a: string, b: string)
    requires AllDigits(a) && AllDigits(b)
    ensures AllDigits(a + b) && DigitsValue(a + b) == DigitsValue(a) * Power10(|b|) + DigitsValue(b)
  {
    if b == "" {
      assert a + b == a && Power10(0) == 1;
    } else {
      var n := |b| - 1;
      DigitsTogether(a, b[..n]);
      LastDigit(a + b);
      LastDigit(b);
      assert (a + b)[..|a + b| - 1] == a + b[..n] && (a + b)[|a + b| - 1] == b[n];
      assert Power10(|b|) == 10 * Power10(n);
      hide DigitsValue, Power10;
      OneMoreDigit(DigitsValue(a), Power10(n), DigitsValue(b[..n]), b[n] as int - '0' as int);
    }
  }

  lemma LastDigit(s: string)
    requires s != "" && AllDigits(s)
    ensures AllDigits(s[..|s| - 1])
    ensures DigitsValue(s) == DigitsValue(s[..|s| - 1]) * 10 + (s[|s| - 1] as int - '0' as int)
  {
  }

  /** The digits after the point are worth less than one. */
  lemma {:induction false} DigitsBelow(s: string)
    requires AllDigits(s)
    ensures DigitsValue(s) < Power10(|s|)
  {
    if s != "" {
      DigitsBelow(s[..|s| - 1]);
    }
  }

  lemma {:induction false} FindFirst(before: string, c: char, rest: string, chars: string)
    requires c in chars && forall i :: 0 <= i < |before| ==> before[i] !in chars
    ensures FindAny(before + [c] + rest, chars) == Some(|before|)
  {
    var s := before + [c] + rest;
    if before != "" {
      assert s[1..] == before[1..] + [c] + rest;
      FindFirst(before[1..], c, rest, chars);
    }
  }

  lemma {:induction false} FindNothing(s: string, chars: string)
    requires forall i :: 0 <= i < |s| ==> s[i] !in chars
    ensures FindAny(s, chars) == None
  {
    if s != "" {
      FindNothing(s[1..], chars);
    }
  }

  lemma IntegerReads(sign: string, digits: string)
    requires digits != "" && AllDigits(digits) && (sign == "" || sign == "+" || sign == "-")
    ensures Integer(sign + digits) == Some(if sign == "-" then -(DigitsValue(digits) as int) else DigitsValue(digits))
  {
    hide DigitsValue;
    var s := sign + digits;
    if sign == "" {
      assert s == digits && IsDigit(digits[0]);
    } else {
      assert s[0] == sign[0] && s[1..] == digits;
    }
  }

  lemma CutAt(before: string, c: char, after: string, chars: string)
    requires c in chars && forall i :: 0 <= i < |before| ==> before[i] !in chars
    ensures Cut(before + [c] + after, chars) == (before, Some(after))
  {
    FindFirst(before, c, after, chars);
    var s := before + [c] + after;
    assert s[..|before|] == before && s[|before| + 1..] == after;
    hide FindAny;
  }

  lemma NotCut(s: string, chars: string)
    requires forall i :: 0 <= i < |s| ==> s[i] !in chars
    ensures Cut(s, chars) == (s, None)
  {
    FindNothing(s, chars);
    hide FindAny;
  }

  /** Where the parser cuts a lexeme. */
  lemma LexemeCut(n: Numeral)
    requires Grammatical(n)
    ensures Cut(Spelled(n), "eE") ==
            (Mantissa(n), if n.exponent.Some? then Some(n.exponent.value.sign + n.exponent.value.digits) else None)
  {
    hide Cut;
    var m := Mantissa(n);
    assert forall i :: 0 <= i < |m| ==> m[i] !in "eE";
    match n.exponent
    case None =>
      assert Spelled(n) == m;
      NotCut(m, "eE");
    case Some(e) =>
      CutAt(m, e.mark, e.sign + e.digits, "eE");
      assert Spelled(n) == m + [e.mark] + (e.sign + e.digits);
  }

  lemma MantissaCut(n: Numeral)
    requires Grammatical(n)
    ensures Cut(Mantissa(n), ".") == ((if n.negative then "-" else "") + n.whole, n.fraction)
  {
    hide Cut;
    var head := (if n.negative then "-" else "") + n.whole;
    assert forall i :: 0 <= i < |head| ==> head[i] !in ".";
    match n.fraction
    case None =>
      assert Mantissa(n) == head;
      NotCut(head, ".");
    case Some(fraction) =>
      CutAt(head, '.', fraction, ".");
      assert Mantissa(n) == head + ['.'] + fraction;
  }

  lemma ExponentReads(n: Numeral)
    requires Grammatical(n) && n.exponent.Some?
    ensures Integer(n.exponent.value.sign + n.exponent.value.digits) == Some(Shift(n))
  {
    var e := n.exponent.value;
    IntegerReads(e.sign, e.digits);
  }

  lemma TimesAsReal(a: nat, b: nat)
    ensures (a * b) as real == a as real * b as real
  {
  }

  /** Ten to the n, as a real. */
  function Tens(n: nat): (r: real)
    ensures r > 0.0
  {
    Power10(n) as real
  }

  lemma TensAdd(a: nat, b: nat)
    ensures Tens(a + b) == Tens(a) * Tens(b)
  {
    PowersAdd(a, b);
    TimesAsReal(Power10(a), Power10(b));
  }

  function Moved(x: real, steps: int): real {
    if steps >= 0 then x * Tens(steps) else x / Tens(-steps)
  }

  /** Moving the point by the fraction's length and by the exponent is moving it once. */
  lemma MovedOnce(x: real, places: nat, shift: int)
    ensures Moved(x / Tens(places), shift) == Moved(x, shift - places)
  {
    hide Tens;
    if shift < 0 {
      TensAdd(places, -shift);
      DividedTwice(x, Tens(places), Tens(-shift));
    } else if shift < places {
      TensAdd(places - shift, shift);
      Cancelled(x, Tens(places - shift), Tens(shift));
    } else {
      TensAdd(shift - places, places);
      Multiplied(x, Tens(shift - places), Tens(places));
    }
  }

  lemma DividedTwice(x: real, a: real, b: real)
    requires a > 0.0 && b > 0.0
    ensures a * b > 0.0 && x / a / b == x / (a * b)
  {
    var q := x / a / b;
    assert q * b == x / a;
    assert q * (a * b) == q * b * a == x;
  }

  lemma Cancelled(x: real, a: real, b: real)
    requires a > 0.0 && b > 0.0
    ensures a * b > 0.0 && x / (a * b) * b == x / a
  {
    var q := x / (a * b);
    assert q * (a * b) == x;
    assert q * b * a == x;
  }

  lemma Multiplied(x: real, a: real, b: real)
    requires a > 0.0 && b > 0.0
    ensures x / b * (a * b) == x * a
  {
    var q := x / b;
    assert q * b == x;
    assert q * (a * b) == q * b * a;
  }

  lemma PartsTogether(n: Numeral)
    requires Grammatical(n)
    ensures AllDigits(n.whole + Fraction(n))
    ensures DigitsValue(n.whole) as real + DigitsValue(Fraction(n)) as real / Tens(|Fraction(n)|) ==
            DigitsValue(n.whole + Fraction(n)) as real / Tens(|Fraction(n)|)
  {
    DigitsTogether(n.whole, Fraction(n));
    JoinedQuotient(DigitsValue(n.whole), DigitsValue(Fraction(n)), Power10(|Fraction(n)|), DigitsValue(n.whole + Fraction(n)));
    hide DigitsValue, Power10, Fraction;
  }

  lemma JoinedQuotient(w: nat, f: nat, p: nat, joined: nat)
    requires p > 0 && joined == w * p + f
    ensures w as real + f as real / p as real == joined as real / p as real
  {
    TimesAsReal(w, p);
    SplitQuotient(w as real, f as real, p as real, joined as real);
  }

  lemma SplitQuotient(w: real, f: real, p: real, joined: real)
    requires p > 0.0 && joined == w * p + f
    ensures w + f / p == joined / p
  {
    var q := f / p;
    assert q * p == f;
    assert (w + q) * p == joined;
  }

  /** The worth, from all digits together. */
  lemma WorthOfDigits(n: Numeral)
    requires Grammatical(n)
    ensures AllDigits(n.whole + Fraction(n))
    ensures var moved := Moved(DigitsValue(n.whole + Fraction(n)) as real, Shift(n) - |Fraction(n)|);
            Worth(n) == if n.negative then -moved else moved
  {
    PartsTogether(n);
    MovedOnce(DigitsValue(n.whole + Fraction(n)) as real, |Fraction(n)|, Shift(n));
    hide Tens, DigitsValue, Moved;
  }

  lemma MovedSign(x: real, steps: int)
    ensures Moved(-x, steps) == -Moved(x, steps)
  {
    hide Tens;
    if steps < 0 {
      assert -x / Tens(-steps) == -(x / Tens(-steps));
    }
  }

  lemma ShiftOfNone(n: Numeral)
    requires Grammatical(n) && n.exponent.None?
    ensures Shift(n) == 0
  {
  }

  /** All the digits with their sign. */
  function SignedDigits(n: Numeral): int
    requires Grammatical(n) && AllDigits(n.whole + Fraction(n))
  {
    if n.negative then -(DigitsValue(n.whole + Fraction(n)) as int) else DigitsValue(n.whole + Fraction(n))
  }

  lemma SignedDigitsRead(n: Numeral)
    requires Grammatical(n)
    ensures AllDigits(n.whole + Fraction(n))
    ensures Integer((if n.negative then "-" else "") + n.whole + Fraction(n)) == Some(SignedDigits(n))
  {
    hide DigitsValue;
    var sign := if n.negative then "-" else "";
    DigitsJoin(n.whole, Fraction(n));
    IntegerReads(sign, n.whole + Fraction(n));
    assert sign + n.whole + Fraction(n) == sign + (n.whole + Fraction(n));
    hide Integer;
  }

  lemma DigitsJoin(a: string, b: string)
    requires AllDigits(a) && AllDigits(b)
    ensures AllDigits(a + b)
  {
  }

  /** How the parser takes a lexeme apart. */
  lemma ParsedAs(n: Numeral)
    requires Grammatical(n)
    ensures AllDigits(n.whole + Fraction(n))
    ensures Decimal(Spelled(n)) == Scaled(SignedDigits(n), |Fraction(n)| - Shift(n))
  {
    hide DigitsValue, Power10, Cut, Integer, Scaled;
    LexemeCut(n);
    MantissaCut(n);
    SignedDigitsRead(n);
    if n.exponent.Some? {
      ExponentReads(n);
    } else {
      ShiftOfNone(n);
    }
    hide Spelled, Mantissa, AllDigits, SignedDigits, Shift;
  }

  /** A spelled number is read as what its parts are worth. */
  lemma DecimalIsWorth(n: Numeral)
    requires Grammatical(n)
    ensures Decimal(Spelled(n)) == if Readable(n) then Some(Worth(n)) else None
  {
    hide Decimal, Spelled, Power10, Worth, DigitsValue, Shift, Fraction, Moved;
    ParsedAs(n);
    WorthOfDigits(n);
    var digits, steps := DigitsValue(n.whole + Fraction(n)), Shift(n) - |Fraction(n)|;
    MovedSign(digits as real, steps);
    assert SignedDigits(n) as real == if n.negative then -(digits as real) else digits as real;
    if Readable(n) {
      ScaledMoves(SignedDigits(n), -steps);
    }
  }

  lemma ScaledMoves(digits: int, scale: int)
    requires -SCALE_LIMIT <= scale < SCALE_LIMIT
    ensures Scaled(digits, scale) == Some(Moved(digits as real, -scale))
  {
    if scale == 0 {
      assert Power10(0) == 1;
    } else if scale < 0 {
      ScaledUp(digits, scale, -scale);
    }
    hide Power10;
  }

  lemma ScaledUp(digits: int, scale: int, steps: nat)
    requires -SCALE_LIMIT <= scale < 0 && steps == -scale
    ensures Scaled(digits, scale) == Some(Moved(digits as real, steps))
  {
    hide Power10;
    var x := digits as real;
    assert Scaled(digits, scale).value == x * Power10(-scale) as real;
    assert Moved(x, steps) == x * Tens(steps);
    SameProduct(x, Power10(-scale) as real, Tens(steps));
    assert Scaled(digits, scale).value == Moved(x, steps);
  }

  lemma SameProduct(x: real, a: real, b: real)
    requires a == b
    ensures x * a == x * b
  {
  }

  lemma DigitsAppended(f: string, z: string)
    requires AllDigits(f) && AllDigits(z) && DigitsValue(z) == 0
    ensures AllDigits(f + z) && DigitsValue(f + z) as real / Tens(|f + z|) == DigitsValue(f) as real / Tens(|f|)
  {
    hide DigitsValue, Power10;
    DigitsTogether(f, z);
    PowersAdd(|f|, |z|);
    var n := |f + z|;
    assert n == |f| + |z|;
    hide AllDigits;
    ZerosQuotient(DigitsValue(f), Power10(|f|), Power10(|z|), DigitsValue(f + z), Power10(|f| + |z|));
  }

  lemma ZerosAppended(f: string, zeros: nat)
    requires AllDigits(f)
    ensures var z := seq(zeros, _ => '0');
            && AllDigits(f + z) && DigitsValue(f + z) as real / Tens(|f + z|) == DigitsValue(f) as real / Tens(|f|)
  {
    ZerosAreNothing(zeros);
    hide DigitsValue, Tens;
    DigitsAppended(f, seq(zeros, _ => '0'));
  }

  lemma ZerosQuotient(d: nat, p: nat, q: nat, e: nat, pq: nat)
    requires p > 0 && q > 0 && e == d * q && pq == p * q
    ensures pq > 0 && e as real / pq as real == d as real / p as real
  {
    TimesAsReal(d, q);
    TimesAsReal(p, q);
    SameQuotient(d as real, p as real, q as real);
  }

  /** Zeros after the point change nothing, with or without an exponent. */
  lemma TrailingZeros(n: Numeral, zeros: nat)
    requires Grammatical(n) && n.fraction.Some?
    ensures var longer := n.(fraction := Some(n.fraction.value + seq(zeros, _ => '0')));
            Grammatical(longer) && Worth(longer) == Worth(n)
  {
    ZerosAppended(n.fraction.value, zeros);
    hide DigitsValue, Tens, Moved;
  }

  lemma SameQuotient(d: real, p: real, q: real)
    requires p > 0.0 && q > 0.0
    ensures p * q > 0.0 && d * q / (p * q) == d / p
  {
    var r := d / p;
    assert r * p == d;
    assert r * (p * q) == d * q;
  }

  lemma {:induction false} ZerosAreNothing(zeros: nat)
    ensures AllDigits(seq(zeros, _ => '0')) && DigitsValue(seq(zeros, _ => '0')) == 0
  {
    if zeros > 0 {
      ZerosAreNothing(zeros - 1);
      assert seq(zeros, _ => '0')[..zeros - 1] == seq(zeros - 1, _ => '0');
    }
  }

  lemma ProperPart(f: real, p: real)
    requires 0.0 <= f < p
    ensures 0.0 <= f / p < 1.0
  {
    var q := f / p;
    assert q * p == f;
  }

  lemma Undivided(x: real, joined: real, p: real)
    requires p > 0.0 && x == joined / p
    ensures x * p == joined
  {
  }

  lemma FractionBelow(s: string)
    requires AllDigits(s)
    ensures 0.0 <= DigitsValue(s) as real < Tens(|s|)
  {
    DigitsBelow(s);
    hide DigitsValue, Power10;
  }

  /** What stands before the point is the whole part, and what stands after it is less than one. */
  lemma WorthOfParts(n: Numeral)
    requires Grammatical(n) && n.exponent.None? && !n.negative
    ensures AllDigits(n.whole + Fraction(n))
    ensures DigitsValue(n.whole) as real <= Worth(n) < DigitsValue(n.whole) as real + 1.0
    ensures Worth(n) * Tens(|Fraction(n)|) == DigitsValue(n.whole + Fraction(n)) as real
  {
    hide DigitsValue, Moved, Tens, Worth;
    FractionBelow(Fraction(n));
    PartsTogether(n);
    UnmovedWorth(n);
    ProperPart(DigitsValue(Fraction(n)) as real, Tens(|Fraction(n)|));
    hide AllDigits, Fraction, Grammatical;
    Undivided(Worth(n), DigitsValue(n.whole + Fraction(n)) as real, Tens(|Fraction(n)|));
  }

  lemma UnmovedWorth(n: Numeral)
    requires Grammatical(n) && n.exponent.None? && !n.negative
    ensures Worth(n) == DigitsValue(n.whole) as real + DigitsValue(Fraction(n)) as real / Tens(|Fraction(n)|)
  {
    assert Tens(0) == 1.0;
    hide DigitsValue, Tens, AllDigits;
  }
}
