// Who a ticket names (src/booking/ticketing.rs identity and passenger_matches): names compared after
// spacing and case are normalised, with one supplier's child label read leniently.
module PassengerNames {
  import opened Wrappers
  import opened Json
  import opened TicketAssignment

  // The Unicode tables: what a character is in upper case, and whether it is white space.
  datatype Script = Script(upper: char -> string, white: char -> bool)

  function Upper(script: Script, s: string): string {
    if s == [] then [] else script.upper(s[0]) + Upper(script, s[1..])
  }

  // The runs of characters between white space.
  function Words(script: Script, s: string): (words: seq<string>)
    ensures s != [] && !script.white(s[|s| - 1]) ==> words != []
  {
    if s == [] then []
    else
      var n := |s| - 1;
      var earlier := Words(script, s[..n]);
      if script.white(s[n]) then earlier
      else if n == 0 || script.white(s[n - 1]) then earlier + [[s[n]]]
      else earlier[|earlier| - 1 := earlier[|earlier| - 1] + [s[n]]]
  }

  function Joined(words: seq<string>): string {
    if words == [] then []
    else if |words| == 1 then words[0]
    else Joined(words[..|words| - 1]) + " " + words[|words| - 1]
  }

  function TrimStart(script: Script, s: string): string {
    if s == [] || !script.white(s[0]) then s else TrimStart(script, s[1..])
  }

  function Trim(script: Script, s: string): string {
    if s == [] then []
    else if script.white(s[|s| - 1]) then Trim(script, s[..|s| - 1])
    else TrimStart(script, s)
  }

  datatype Person = Person(first: string, last: string, middle: string, kind: string)

  function NamePart(script: Script, v: Value, key: string): Option<string> {
    var text := AsText(Member(Member(v, "nameElement"), key));
    if text.None? then None else Some(Upper(script, Joined(Words(script, text.value))))
  }

  // A surname is needed; a given name must be stated but may be empty, a middle name may be missing.
  function Identity(script: Script, v: Value): Option<Person> {
    var first, last := NamePart(script, v, "firstName"), NamePart(script, v, "lastName");
    var middle, kind := AsText(Member(Member(v, "nameElement"), "middleName")), AsText(Member(v, "passengerType"));
    if first.None? || last.None? || kind.None? || last.value == "" then None
    else Some(Person(first.value, last.value, Upper(script, Trim(script, if middle.Some? then middle.value else "")),
                     Upper(script, kind.value)))
  }

  const CHILD: string := "CHD"
  const YOUNG_CHILD: string := "CNN"

  // One supplier labels a young child as a child; its verified counts tell them apart.
  predicate Lenient(supplier: string, verified: bool) {
    supplier == "triplover" && verified
  }

  predicate SamePerson(lenient: bool, sent: Person, named: Person) {
    named == if lenient && sent.kind == YOUNG_CHILD && named.kind == CHILD then sent.(kind := CHILD) else sent
  }

  predicate Matches(script: Script, lenient: bool, sent: Value, named: Value) {
    && Identity(script, sent).Some? && Identity(script, named).Some?
    && SamePerson(lenient, Identity(script, sent).value, Identity(script, named).value)
  }

  function Persons(script: Script, supplier: string): bool -> Same {
    (verified: bool) => (sent: Value, named: Value) => Matches(script, Lenient(supplier, verified), sent, named)
  }

  // ---- Normalised names ----------------------------------------------------------------------------------

  // No white space within, and on either side white space or an end of the text.
  ghost predicate WordAt(script: Script, s: string, i: nat, j: nat) {
    && i < j <= |s| && (forall p :: i <= p < j ==> !script.white(s[p]))
    && (i == 0 || script.white(s[i - 1])) && (j == |s| || script.white(s[j]))
  }

  ghost predicate IsWord(script: Script, s: string, word: string, i: nat) {
    WordAt(script, s, i, i + |word|) && word == s[i..i + |word|]
  }

  ghost predicate Within(words: seq<string>, from: seq<nat>, p: nat) {
    |from| == |words| && exists k :: 0 <= k < |words| && from[k] <= p < from[k] + |words[k]|
  }

  ghost predicate AreWords(script: Script, s: string, words: seq<string>, from: seq<nat>) {
    && |from| == |words|
    && (forall k :: 0 <= k < |words| ==> IsWord(script, s, words[k], from[k]))
    && (forall i, j :: 0 <= i < j < |words| ==> from[i] + |words[i]| < from[j])
    && (forall p: nat :: p < |s| && !script.white(s[p]) ==> Within(words, from, p))
  }

  lemma WordKept(script: Script, s: string, word: string, i: nat)
    requires s != [] && IsWord(script, s[..|s| - 1], word, i)
    requires i + |word| < |s| - 1 || script.white(s[|s| - 1])
    ensures IsWord(script, s, word, i)
  {
    assert s[..|s| - 1][i..i + |word|] == s[i..i + |word|];
  }

  lemma WordsStay(script: Script, s: string, words: seq<string>, from: seq<nat>)
    requires s != [] && AreWords(script, s[..|s| - 1], words, from) && script.white(s[|s| - 1])
    ensures AreWords(script, s, words, from)
  {
    forall k | 0 <= k < |words| ensures IsWord(script, s, words[k], from[k]) {
      WordKept(script, s, words[k], from[k]);
    }
    forall p: nat | p < |s| && !script.white(s[p]) ensures Within(words, from, p) {
      assert s[..|s| - 1][p] == s[p];
    }
    hide IsWord, Within;
  }

  lemma WordStarts(script: Script, s: string, words: seq<string>, from: seq<nat>)
    requires s != [] && AreWords(script, s[..|s| - 1], words, from)
    requires !script.white(s[|s| - 1]) && (|s| == 1 || script.white(s[|s| - 2]))
    ensures AreWords(script, s, words + [[s[|s| - 1]]], from + [|s| - 1])
  {
    var n := |s| - 1;
    var more, starts := words + [[s[n]]], from + [n];
    forall k | 0 <= k < |words| ensures from[k] + |words[k]| < n && IsWord(script, s, words[k], from[k]) {
      assert IsWord(script, s[..n], words[k], from[k]);
      assert !script.white(s[..n][from[k] + |words[k]| - 1]);
      WordKept(script, s, words[k], from[k]);
    }
    assert IsWord(script, s, [s[n]], n);
    forall p: nat | p < |s| && !script.white(s[p]) ensures Within(more, starts, p) {
      if p < n {
        assert s[..n][p] == s[p];
        WithinMore(words, from, [s[n]], n, p);
      } else {
        assert starts[|words|] <= p < starts[|words|] + |more[|words|]|;
      }
    }
    hide IsWord, Within;
  }

  lemma WithinMore(words: seq<string>, from: seq<nat>, word: string, at: nat, p: nat)
    requires Within(words, from, p)
    ensures Within(words + [word], from + [at], p)
  {
    var k :| 0 <= k < |words| && from[k] <= p < from[k] + |words[k]|;
    var more, starts := words + [word], from + [at];
    assert starts[k] <= p < starts[k] + |more[k]|;
  }

  lemma LastWordEnds(script: Script, s: string, words: seq<string>, from: seq<nat>)
    requires s != [] && AreWords(script, s, words, from) && !script.white(s[|s| - 1])
    ensures words != [] && from[|words| - 1] + |words[|words| - 1]| == |s|
    ensures forall k :: 0 <= k < |words| - 1 ==> from[k] + |words[k]| < |s|
  {
    var n, last := |s| - 1, |words| - 1;
    assert Within(words, from, n);
    var k :| 0 <= k < |words| && from[k] <= n < from[k] + |words[k]|;
    assert IsWord(script, s, words[k], from[k]) && IsWord(script, s, words[last], from[last]);
    assert from[k] + |words[k]| == |s|;
    assert k == last;
    hide IsWord, Within;
  }

  lemma GrownWord(script: Script, s: string, word: string, i: nat)
    requires |s| > 0 && IsWord(script, s[..|s| - 1], word, i) && i + |word| == |s| - 1 && !script.white(s[|s| - 1])
    ensures IsWord(script, s, word + [s[|s| - 1]], i)
  {
    assert s[i..|s|] == s[..|s| - 1][i..|s| - 1] + [s[|s| - 1]];
  }

  lemma WordGrows(script: Script, s: string, words: seq<string>, from: seq<nat>)
    requires |s| > 1 && AreWords(script, s[..|s| - 1], words, from)
    requires !script.white(s[|s| - 1]) && !script.white(s[|s| - 2])
    ensures words != [] && AreWords(script, s, words[|words| - 1 := words[|words| - 1] + [s[|s| - 1]]], from)
  {
    var n := |s| - 1;
    LastWordEnds(script, s[..n], words, from);
    var last := |words| - 1;
    var grown := words[last := words[last] + [s[n]]];
    GrownWord(script, s, words[last], from[last]);
    forall k | 0 <= k < |words| ensures IsWord(script, s, grown[k], from[k]) {
      if k < last {
        WordKept(script, s, words[k], from[k]);
      }
    }
    forall p: nat | p < |s| && !script.white(s[p]) ensures Within(grown, from, p) {
      if p < n {
        assert s[..n][p] == s[p];
      }
      GrownCovers(words, from, s[n], p);
    }
    hide IsWord, Within;
  }

  // The last word and one more character after it.
  lemma GrownCovers(words: seq<string>, from: seq<nat>, c: char, p: nat)
    requires words != [] && |from| == |words|
    requires Within(words, from, p) || p == from[|words| - 1] + |words[|words| - 1]|
    ensures Within(words[|words| - 1 := words[|words| - 1] + [c]], from, p)
  {
    var last := |words| - 1;
    var grown := words[last := words[last] + [c]];
    if Within(words, from, p) {
      var k :| 0 <= k < |words| && from[k] <= p < from[k] + |words[k]|;
      assert from[k] <= p < from[k] + |grown[k]|;
    } else {
      assert from[last] <= p < from[last] + |grown[last]|;
    }
  }

  lemma NoWords(script: Script)
    ensures AreWords(script, [], [], [])
  {
  }

  // The words of a text are its runs between white space, all of them and in order.
  lemma {:induction false} WordsAreRuns(script: Script, s: string) returns (from: seq<nat>)
    ensures AreWords(script, s, Words(script, s), from)
  {
    hide AreWords;
    if s == [] {
      from := [];
      NoWords(script);
    } else {
      var n := |s| - 1;
      from := WordsAreRuns(script, s[..n]);
      var words := Words(script, s[..n]);
      from := OneMoreChar(script, s, words, from);
    }
  }

  lemma OneMoreChar(script: Script, s: string, words: seq<string>, before: seq<nat>) returns (from: seq<nat>)
    requires s != [] && words == Words(script, s[..|s| - 1]) && AreWords(script, s[..|s| - 1], words, before)
    ensures AreWords(script, s, Words(script, s), from)
  {
    hide AreWords;
    var n := |s| - 1;
    if script.white(s[n]) {
      from := before;
      WordsStay(script, s, words, before);
    } else if n == 0 || script.white(s[n - 1]) {
      from := before + [n];
      WordStarts(script, s, words, before);
    } else {
      from := before;
      WordGrows(script, s, words, before);
    }
  }

  lemma {:induction false} StartTrimmed(script: Script, s: string) returns (i: nat)
    ensures i <= |s| && TrimStart(script, s) == s[i..]
    ensures (forall p :: 0 <= p < i ==> script.white(s[p])) && (i == |s| || !script.white(s[i]))
  {
    if s == [] || !script.white(s[0]) {
      i := 0;
    } else {
      var k := StartTrimmed(script, s[1..]);
      i := k + 1;
    }
  }

  // Trimming leaves what lies between the white space at both ends.
  lemma {:induction false} TrimmedAtEnds(script: Script, s: string) returns (i: nat, j: nat)
    ensures i <= j <= |s| && Trim(script, s) == s[i..j]
    ensures forall p :: 0 <= p < i || j <= p < |s| ==> script.white(s[p])
    ensures i == j || (!script.white(s[i]) && !script.white(s[j - 1]))
  {
    if s == [] {
      i, j := 0, 0;
    } else if script.white(s[|s| - 1]) {
      i, j := TrimmedAtEnds(script, s[..|s| - 1]);
      assert s[..|s| - 1][i..j] == s[i..j];
    } else {
      i := StartTrimmed(script, s);
      j := |s|;
    }
  }

  function Spaced(script: Script, text: string): string {
    Upper(script, Joined(Words(script, text)))
  }

  // A name stated as text, and the same in both after spacing and case.
  ghost predicate SameName(script: Script, sent: Value, named: Value, key: string) {
    var a, b := Member(Member(sent, "nameElement"), key), Member(Member(named, "nameElement"), key);
    a.Text? && b.Text? && Spaced(script, a.text) == Spaced(script, b.text)
  }

  // A middle name may be left out.
  function MiddleName(v: Value): string {
    var text := Member(Member(v, "nameElement"), "middleName");
    if text.Text? then text.text else ""
  }

  // A ticket names a passenger exactly when both state the same given name and the same surname, which is
  // not empty, the same middle name or none, and the same kind; one supplier may call a young child a child.
  lemma NamesExactlyWhen(script: Script, supplier: string, verified: bool, sent: Value, named: Value)
    ensures Persons(script, supplier)(verified)(sent, named) <==>
            && SameName(script, sent, named, "firstName") && SameName(script, sent, named, "lastName")
            && Spaced(script, Member(Member(sent, "nameElement"), "lastName").text) != ""
            && Upper(script, Trim(script, MiddleName(sent))) == Upper(script, Trim(script, MiddleName(named)))
            && Member(sent, "passengerType").Text? && Member(named, "passengerType").Text?
            && var a, b := Upper(script, Member(sent, "passengerType").text), Upper(script, Member(named, "passengerType").text);
               a == b || (supplier == "triplover" && verified && a == "CNN" && b == "CHD")
  {
    KindsDiffer();
    hide Upper, Words, Joined, Trim, Member;
  }

  lemma KindsDiffer()
    ensures CHILD != YOUNG_CHILD
  {
    assert CHILD[1] == 'H' && YOUNG_CHILD[1] == 'N';
  }

  // ---- Which passengers can be ticketed -----------------------------------------------------------------

  // Two passengers no ticket can tell apart in both directions: the same person, or read leniently a
  // child and a young child of one name.
  predicate Confused(lenient: bool, a: Person, b: Person) {
    a == b || (lenient && a.(kind := CHILD) == b.(kind := CHILD) && {a.kind, b.kind} == {CHILD, YOUNG_CHILD})
  }

  ghost predicate ConfusedPair(script: Script, lenient: bool, passengers: seq<Value>, i: nat, j: nat) {
    && i < |passengers| && j < |passengers| && i != j
    && Identity(script, passengers[i]).Some? && Identity(script, passengers[j]).Some?
    && Confused(lenient, Identity(script, passengers[i]).value, Identity(script, passengers[j]).value)
  }

  // Everyone has a name to match, and no two are confused.
  ghost predicate ToldApart(script: Script, lenient: bool, passengers: seq<Value>) {
    && (forall i :: 0 <= i < |passengers| ==> Identity(script, passengers[i]).Some?)
    && forall i: nat, j: nat :: !ConfusedPair(script, lenient, passengers, i, j)
  }

  // A ticket that names only a names nothing like b, and the other way round.
  lemma ConfusedHits(lenient: bool, a: Person, b: Person, named: Person, other: Person)
    requires SamePerson(lenient, a, named) && !SamePerson(lenient, b, named)
    requires SamePerson(lenient, b, other) && !SamePerson(lenient, a, other)
    ensures !Confused(lenient, a, b)
  {
  }

  lemma SentHasTicket(passengers: seq<Value>, tickets: seq<Value>, same: Same, j: nat) returns (i: nat)
    requires Assigned(passengers, tickets, same).Some? && |tickets| == |passengers| && j < |passengers|
    ensures i < |tickets| && OnlySeat(passengers, tickets[i], same, j)
  {
    EveryPassengerTicketed(passengers, tickets, same);
    var shown := Assigned(passengers, tickets, same).value;
    assert TicketFor(passengers, tickets, same, j, shown[j]);
    i :| 0 <= i < |tickets| && OnlySeat(passengers, tickets[i], same, j) && ShowsTicket(shown[j], tickets[i]);
    hide Assigned, OnlySeat, ShowsTicket;
  }

  lemma TicketNames(script: Script, supplier: string, verified: bool, sent: Value, ticket: Value)
    ensures Persons(script, supplier)(verified)(sent, Holder(ticket)) <==> Matches(script, Lenient(supplier, verified), sent, Holder(ticket))
  {
  }

  lemma AssignedToldApart(script: Script, supplier: string, verified: bool, passengers: seq<Value>, tickets: seq<Value>)
    requires Assigned(passengers, tickets, Persons(script, supplier)(verified)).Some? && |tickets| == |passengers|
    ensures ToldApart(script, Lenient(supplier, verified), passengers)
  {
    var same, lenient := Persons(script, supplier)(verified), Lenient(supplier, verified);
    hide Assigned, Identity, Persons, Confused, SamePerson, Lenient;
    forall i | 0 <= i < |passengers| ensures Identity(script, passengers[i]).Some? {
      var t := SentHasTicket(passengers, tickets, same, i);
      TicketNames(script, supplier, verified, passengers[i], tickets[t]);
    }
    forall i: nat, j: nat ensures !ConfusedPair(script, lenient, passengers, i, j) {
      if i < |passengers| && j < |passengers| && i != j {
        var t := SentHasTicket(passengers, tickets, same, i);
        var u := SentHasTicket(passengers, tickets, same, j);
        NotConfused(script, supplier, verified, passengers, tickets[t], tickets[u], i, j);
      }
    }
  }

  lemma NotConfused(script: Script, supplier: string, verified: bool, passengers: seq<Value>, t: Value, u: Value, i: nat, j: nat)
    requires i < |passengers| && j < |passengers| && i != j
    requires OnlySeat(passengers, t, Persons(script, supplier)(verified), i)
    requires OnlySeat(passengers, u, Persons(script, supplier)(verified), j)
    ensures !ConfusedPair(script, Lenient(supplier, verified), passengers, i, j)
  {
    var lenient := Lenient(supplier, verified);
    TicketNames(script, supplier, verified, passengers[i], t);
    TicketNames(script, supplier, verified, passengers[j], t);
    TicketNames(script, supplier, verified, passengers[i], u);
    TicketNames(script, supplier, verified, passengers[j], u);
    hide Identity, Persons, Confused, SamePerson, Lenient, Holder;
    ConfusedHits(lenient, Identity(script, passengers[i]).value, Identity(script, passengers[j]).value,
                 Identity(script, Holder(t)).value, Identity(script, Holder(u)).value);
  }

  // One ticket for each passenger, in the passenger's own words.
  function OwnTicket(passenger: Value, number: nat): Value
    requires number < 100
  {
    Object([Field("passengerInfo", passenger), Field("ticketNumbers", Array([Text(NumberText(number))]))])
  }

  function OwnTickets(passengers: seq<Value>): (r: seq<Value>)
    requires |passengers| <= 100
    ensures |r| == |passengers| && forall i :: 0 <= i < |r| ==> r[i] == OwnTicket(passengers[i], i)
  {
    seq(|passengers|, i requires 0 <= i < |passengers| => OwnTicket(passengers[i], i))
  }

  lemma OwnTicketParts(passenger: Value, number: nat)
    requires number < 100
    ensures Holder(OwnTicket(passenger, number)) == passenger
    ensures Numbers(OwnTicket(passenger, number)) == [Text(NumberText(number))]
  {
    var fields := OwnTicket(passenger, number).fields;
    var first, second := "passengerInfo", "ticketNumbers";
    assert first[0] == 'p' && second[0] == 't';
    assert fields[1..][0] == fields[1];
    assert Lookup(fields, second) == Lookup(fields[1..], second);
    hide NumberText;
  }

  lemma OwnSeat(script: Script, supplier: string, verified: bool, passengers: seq<Value>, i: nat)
    requires ToldApart(script, Lenient(supplier, verified), passengers) && i < |passengers| <= 100
    ensures OnlySeat(passengers, OwnTicket(passengers[i], i), Persons(script, supplier)(verified), i)
  {
    var lenient, ticket := Lenient(supplier, verified), OwnTicket(passengers[i], i);
    OwnTicketParts(passengers[i], i);
    hide Persons, Lenient, Identity, OwnTicket, Confused, SamePerson, Holder;
    forall k | 0 <= k < |passengers| ensures Persons(script, supplier)(verified)(passengers[k], Holder(ticket)) <==> k == i {
      TicketNames(script, supplier, verified, passengers[k], ticket);
      assert !ConfusedPair(script, lenient, passengers, k, i);
      NamedByOwn(lenient, Identity(script, passengers[k]).value, Identity(script, passengers[i]).value);
    }
  }

  lemma NamedByOwn(lenient: bool, a: Person, b: Person)
    ensures SamePerson(lenient, a, b) ==> Confused(lenient, a, b)
    ensures SamePerson(lenient, b, b)
  {
  }

  lemma OwnNumbersApart(passengers: seq<Value>)
    requires |passengers| <= 100
    ensures Numbered(OwnTickets(passengers))
  {
    var tickets := OwnTickets(passengers);
    forall i: nat | i < |tickets| ensures Numbers(tickets[i]) == [Text(NumberText(i))] && TicketNumber(Text(NumberText(i))) {
      OwnTicketParts(passengers[i], i);
      NumberIsTicket(i);
    }
    hide OwnTickets, Numbers, NumberText, TicketNumber;
    forall i, j | 0 <= i < |tickets| && 0 <= j < |tickets| && i != j ensures NoneShared(tickets[i], tickets[j]) {
      NumbersDiffer(i, j);
    }
  }

  // Up to the nine passengers a booking may have (and well beyond), an answer that tickets everyone
  // exists exactly when they can all be told apart.
  lemma TicketableIffToldApart(script: Script, supplier: string, verified: bool, passengers: seq<Value>)
    requires |passengers| <= 100
    ensures (exists tickets :: |tickets| == |passengers| && Assigned(passengers, tickets, Persons(script, supplier)(verified)).Some?) <==>
            ToldApart(script, Lenient(supplier, verified), passengers)
  {
    var same := Persons(script, supplier)(verified);
    if ToldApart(script, Lenient(supplier, verified), passengers) {
      var tickets, seats := OwnTickets(passengers), seq(|passengers|, i => i);
      forall i | 0 <= i < |tickets| ensures OnlySeat(passengers, tickets[i], same, seats[i]) {
        OwnSeat(script, supplier, verified, passengers, i);
      }
      OwnNumbersApart(passengers);
      assert Seated(passengers, tickets, same, seats) by {
        hide OnlySeat, OwnTickets;
      }
      AssignedExactlyWhen(passengers, tickets, same);
    }
    hide Persons, Lenient, ToldApart, Assigned, OwnTickets, OnlySeat, Numbered;
    forall tickets | |tickets| == |passengers| && Assigned(passengers, tickets, same).Some?
      ensures ToldApart(script, Lenient(supplier, verified), passengers)
    {
      AssignedToldApart(script, supplier, verified, passengers, tickets);
    }
  }
}
