/** The reconciled display of a saved price (src/fare_breakdown.rs): derived from accepted pricing, never repriced. */
module FareBreakdown {
  import opened Wrappers
  import opened Money
  import opened Projection

  datatype Tier = Basic | Professional | Enterprise

  datatype PassengerPricing = PassengerPricing(kind: string, count: nat, gross: real, commission: real, payable: real)

  /** A price snapshot; all amounts are two-decimal strings in storage. */
  datatype SavedPricing = SavedPricing(
    tier: Option<Tier>, share: int, currency: string,
    gross: real, commission: real, payable: real, passengers: seq<PassengerPricing>)

  /** Positions of the displayed amounts. */
  const BASE: nat := 0
  const TAXES: nat := 1
  const AIT: nat := 2
  const CHARGE: nat := 3
  const DISCOUNT: nat := 4
  const GROSS: nat := 5
  const PAYABLE: nat := 6
  const KINDS_OF_AMOUNT: nat := 7

  datatype Display = Display(kind: string, count: nat, amounts: seq<real>)
  datatype Breakdown = Breakdown(currency: string, passengers: seq<Display>, totals: seq<real>)

  function PaxCounts(rows: seq<PassengerPricing>): (r: seq<nat>)
    ensures |r| == |rows|
  {
    seq(|rows|, i requires 0 <= i < |rows| => rows[i].count)
  }

  function Payables(rows: seq<PassengerPricing>): (r: seq<real>)
    ensures |r| == |rows|
  {
    seq(|rows|, i requires 0 <= i < |rows| => rows[i].payable)
  }

  /** Amounts are read from numbers and from decimal strings alike. */
  function AmountOf(record: Record, key: FieldName): Option<real> {
    if key in record && !record[key].Opaque? then Some(record[key].value) else None
  }

  function AmountsFor(row: PassengerPricing, base: real, taxes: real, ait: real): seq<real> {
    var adjustment := row.payable - (base + taxes + ait);
    var charge := if adjustment < 0.0 then 0.0 else adjustment;
    var discount := if adjustment < 0.0 then -adjustment else 0.0;
    [base, taxes, ait, charge, discount, if row.commission < 0.0 then row.payable else row.gross, row.payable]
  }

  function DisplayRow(row: PassengerPricing, fare: Option<Record>): (r: Option<Display>)
    ensures r.Some? ==> |r.value.amounts| == KINDS_OF_AMOUNT
  {
    if row.count == 0 then None
    else
      var record := if fare.Some? then fare.value else map[];
      var rawBase :- AmountOf(record, BasePrice);
      var rawTaxes :- AmountOf(record, TaxTotal);
      var rawAit :- AmountOf(record, Ait);
      var base, taxes, ait := Round2(rawBase), Round2(rawTaxes), Round2(rawAit);
      if row.gross != row.commission + row.payable || base < 0.0 || taxes < 0.0 || ait < 0.0 || row.payable < 0.0 then None
      else Some(Display(row.kind, row.count, AmountsFor(row, base, taxes, ait)))
  }

  function DisplayRows(rows: seq<PassengerPricing>, fares: map<string, Option<Record>>): Option<seq<Display>> {
    if rows == [] then Some([])
    else
      var last := rows[|rows| - 1];
      var before :- DisplayRows(rows[..|rows| - 1], fares);
      var display :- DisplayRow(last, FareOf(fares, last.kind));
      Some(before + [display])
  }

  function Column(displays: seq<Display>, k: nat): seq<real> {
    seq(|displays|, i requires 0 <= i < |displays| => if k < |displays[i].amounts| then displays[i].amounts[k] else 0.0)
  }

  function DisplayCounts(displays: seq<Display>): seq<nat> {
    seq(|displays|, i requires 0 <= i < |displays| => displays[i].count)
  }

  /** Root amounts include the passenger counts. */
  function TotalsOf(displays: seq<Display>): (r: seq<real>)
    ensures |r| == KINDS_OF_AMOUNT
  {
    seq(KINDS_OF_AMOUNT, k requires 0 <= k < KINDS_OF_AMOUNT => Weighted(Column(displays, k), DisplayCounts(displays)))
  }

  function BreakdownOf(pricing: SavedPricing, fares: map<string, Option<Record>>): Option<Breakdown> {
    if pricing.tier.None? then None
    else
      var displays :- DisplayRows(pricing.passengers, fares);
      if TotalsOf(displays)[PAYABLE] != pricing.payable then None
      else Some(Breakdown(pricing.currency, displays, TotalsOf(displays)))
  }

  lemma {:induction false} DisplayFails(rows: seq<PassengerPricing>, fares: map<string, Option<Record>>, i: nat)
    requires i <= |rows| && DisplayRows(rows[..i], fares).None?
    ensures DisplayRows(rows, fares).None?
    decreases |rows| - i
  {
    if i < |rows| {
      assert rows[..i + 1][..i] == rows[..i];
      DisplayFails(rows, fares, i + 1);
    } else {
      assert rows[..i] == rows;
    }
  }

  function Plus(totals: seq<real>, amounts: seq<real>, count: nat): (r: seq<real>)
    requires |totals| == |amounts| == KINDS_OF_AMOUNT
    ensures |r| == KINDS_OF_AMOUNT
  {
    seq(KINDS_OF_AMOUNT, k requires 0 <= k < KINDS_OF_AMOUNT => totals[k] + amounts[k] * count as real)
  }

  lemma TotalsExtend(displays: seq<Display>, display: Display)
    requires |display.amounts| == KINDS_OF_AMOUNT
    ensures TotalsOf(displays + [display]) == Plus(TotalsOf(displays), display.amounts, display.count)
  {
    var more, n := displays + [display], |displays|;
    assert DisplayCounts(more)[..n] == DisplayCounts(displays);
    forall k | 0 <= k < KINDS_OF_AMOUNT
      ensures TotalsOf(more)[k] == Plus(TotalsOf(displays), display.amounts, display.count)[k]
    {
      assert Column(more, k)[..n] == Column(displays, k);
    }
    assert TotalsOf(more) == Plus(TotalsOf(displays), display.amounts, display.count);
  }

  method AddAmounts(totals: seq<real>, amounts: seq<real>, count: nat) returns (next: seq<real>)
    requires |totals| == |amounts| == KINDS_OF_AMOUNT
    ensures next == Plus(totals, amounts, count)
  {
    next := totals;
    for k := 0 to KINDS_OF_AMOUNT
      invariant |next| == KINDS_OF_AMOUNT
      invariant forall j | 0 <= j < k :: next[j] == totals[j] + amounts[j] * count as real
      invariant forall j | k <= j < KINDS_OF_AMOUNT :: next[j] == totals[j]
    {
      next := next[k := totals[k] + amounts[k] * count as real];
    }
    assert forall k | 0 <= k < KINDS_OF_AMOUNT :: next[k] == Plus(totals, amounts, count)[k];
    assert next == Plus(totals, amounts, count);
  }

  /** The display, or nothing for untiered or irreconcilable snapshots. */
  method Build(pricing: SavedPricing, fares: map<string, Option<Record>>) returns (r: Option<Breakdown>)
    ensures r == BreakdownOf(pricing, fares)
  {
    hide DisplayRow, Plus;
    if pricing.tier.None? {
      return None;
    }
    var rows := pricing.passengers;
    var totals := seq(KINDS_OF_AMOUNT, _ => 0.0);
    var displays: seq<Display> := [];
    assert totals == TotalsOf(displays);
    for i := 0 to |rows|
      invariant DisplayRows(rows[..i], fares) == Some(displays)
      invariant totals == TotalsOf(displays)
    {
      assert rows[..i + 1][..i] == rows[..i];
      var display := DisplayRow(rows[i], FareOf(fares, rows[i].kind));
      if display.None? {
        DisplayFails(rows, fares, i + 1);
        return None;
      }
      TotalsExtend(displays, display.value);
      totals := AddAmounts(totals, display.value.amounts, display.value.count);
      displays := displays + [display.value];
    }
    assert rows[..|rows|] == rows;
    if totals[PAYABLE] != pricing.payable {
      return None;
    }
    r := Some(Breakdown(pricing.currency, displays, totals));
  }

  // ---------------------------------------------------------------------------
  // The display reconciles.

  predicate Reconciled(a: seq<real>) {
    && |a| == KINDS_OF_AMOUNT
    && a[BASE] + a[TAXES] + a[AIT] + a[CHARGE] - a[DISCOUNT] == a[PAYABLE]
    && a[GROSS] >= a[PAYABLE] >= 0.0
    && a[CHARGE] >= 0.0 && a[DISCOUNT] >= 0.0
  }

  /** A passenger shows a service charge or a discount, never both. */
  predicate OneSided(a: seq<real>) {
    |a| == KINDS_OF_AMOUNT && (a[CHARGE] == 0.0 || a[DISCOUNT] == 0.0)
  }

  lemma RowReconciles(row: PassengerPricing, fare: Option<Record>)
    requires DisplayRow(row, fare).Some?
    ensures var display := DisplayRow(row, fare).value;
            Reconciled(display.amounts) && OneSided(display.amounts) && display.count > 0
  {
  }

  lemma {:induction false} RowsReconcile(rows: seq<PassengerPricing>, fares: map<string, Option<Record>>, displays: seq<Display>)
    requires DisplayRows(rows, fares) == Some(displays)
    ensures forall i | 0 <= i < |displays| :: Reconciled(displays[i].amounts) && displays[i].count > 0
    ensures forall i | 0 <= i < |displays| :: OneSided(displays[i].amounts)
  {
    if rows != [] {
      var last := rows[|rows| - 1];
      RowsReconcile(rows[..|rows| - 1], fares, displays[..|displays| - 1]);
      RowReconciles(last, FareOf(fares, last.kind));
    }
  }

  lemma ColumnsBalance(displays: seq<Display>)
    requires forall i | 0 <= i < |displays| :: Reconciled(displays[i].amounts)
    ensures var t := TotalsOf(displays); t[BASE] + t[TAXES] + t[AIT] + t[CHARGE] - t[DISCOUNT] == t[PAYABLE]
  {
    var n, counts := |displays|, DisplayCounts(displays);
    var fare := seq(n, i requires 0 <= i < n => Column(displays, BASE)[i] + Column(displays, TAXES)[i]);
    var withAit := seq(n, i requires 0 <= i < n => fare[i] + Column(displays, AIT)[i]);
    var charged := seq(n, i requires 0 <= i < n => withAit[i] + Column(displays, CHARGE)[i]);
    WeightedSum(Column(displays, BASE), Column(displays, TAXES), fare, counts);
    WeightedSum(fare, Column(displays, AIT), withAit, counts);
    WeightedSum(withAit, Column(displays, CHARGE), charged, counts);
    WeightedSum(Column(displays, PAYABLE), Column(displays, DISCOUNT), charged, counts);
  }

  lemma ColumnNotNegative(displays: seq<Display>, k: nat)
    requires k < KINDS_OF_AMOUNT
    requires forall i | 0 <= i < |displays| :: Column(displays, k)[i] >= 0.0
    ensures TotalsOf(displays)[k] >= 0.0
  {
    var zeros := seq(|displays|, _ => 0.0);
    WeightedConstant(0.0, zeros, DisplayCounts(displays));
    WeightedMonotone(zeros, Column(displays, k), DisplayCounts(displays));
  }

  /** Every display built reconciles, for each passenger and in total. */
  lemma BreakdownReconciles(pricing: SavedPricing, fares: map<string, Option<Record>>)
    requires BreakdownOf(pricing, fares).Some?
    ensures var b := BreakdownOf(pricing, fares).value;
            && (forall i | 0 <= i < |b.passengers| :: Reconciled(b.passengers[i].amounts) && OneSided(b.passengers[i].amounts))
            && Reconciled(b.totals) && b.totals[PAYABLE] == pricing.payable
  {
    var b := BreakdownOf(pricing, fares).value;
    RowsReconcile(pricing.passengers, fares, b.passengers);
    ColumnsBalance(b.passengers);
    ColumnNotNegative(b.passengers, PAYABLE);
    ColumnNotNegative(b.passengers, CHARGE);
    ColumnNotNegative(b.passengers, DISCOUNT);
    WeightedMonotone(Column(b.passengers, PAYABLE), Column(b.passengers, GROSS), DisplayCounts(b.passengers));
  }

  // ---------------------------------------------------------------------------
  // What is displayed, and when there is a display.

  lemma DisplayRowKeeps(row: PassengerPricing, fare: Option<Record>)
    requires DisplayRow(row, fare).Some?
    ensures DisplayRow(row, fare).value.count == row.count && DisplayRow(row, fare).value.amounts[PAYABLE] == row.payable
  {
  }

  /** The displayed payables are the snapshot's, so the two totals agree. */
  lemma {:induction false} DisplayKeepsPayable(rows: seq<PassengerPricing>, fares: map<string, Option<Record>>, displays: seq<Display>)
    requires DisplayRows(rows, fares) == Some(displays)
    ensures |displays| == |rows|
    ensures Column(displays, PAYABLE) == Payables(rows) && DisplayCounts(displays) == PaxCounts(rows)
  {
    hide DisplayRow;
    if rows != [] {
      var n := |rows| - 1;
      var before := DisplayRows(rows[..n], fares).value;
      DisplayKeepsPayable(rows[..n], fares, before);
      var display := DisplayRow(rows[n], FareOf(fares, rows[n].kind)).value;
      DisplayRowKeeps(rows[n], FareOf(fares, rows[n].kind));
      assert displays == before + [display];
      assert Payables(rows) == Payables(rows[..n]) + [rows[n].payable];
      assert Column(displays, PAYABLE) == Column(before, PAYABLE) + [display.amounts[PAYABLE]];
      assert PaxCounts(rows) == PaxCounts(rows[..n]) + [rows[n].count];
      assert DisplayCounts(displays) == DisplayCounts(before) + [display.count];
    }
  }

  /** Base, taxes and AIT are the fare's own, each to the nearest cent, and gross and payable the snapshot's; a
   passenger with a negative commission shows the payable as gross. */
  ghost predicate ShowsFare(row: PassengerPricing, fare: Option<Record>, display: Display) {
    && fare.Some? && |display.amounts| == KINDS_OF_AMOUNT && display.kind == row.kind && display.count == row.count
    && AmountOf(fare.value, BasePrice).Some? && Nearest(AmountOf(fare.value, BasePrice).value, display.amounts[BASE])
    && AmountOf(fare.value, TaxTotal).Some? && Nearest(AmountOf(fare.value, TaxTotal).value, display.amounts[TAXES])
    && AmountOf(fare.value, Ait).Some? && Nearest(AmountOf(fare.value, Ait).value, display.amounts[AIT])
    && display.amounts[GROSS] == (if row.commission < 0.0 then row.payable else row.gross)
    && display.amounts[PAYABLE] == row.payable
  }

  lemma RowShowsFare(row: PassengerPricing, fare: Option<Record>)
    requires DisplayRow(row, fare).Some?
    ensures ShowsFare(row, fare, DisplayRow(row, fare).value)
  {
    var record := if fare.Some? then fare.value else map[];
    RoundIsNearest(AmountOf(record, BasePrice).value);
    RoundIsNearest(AmountOf(record, TaxTotal).value);
    RoundIsNearest(AmountOf(record, Ait).value);
    hide Round2, Nearest;
  }

  lemma {:induction false} RowsShowFares(rows: seq<PassengerPricing>, fares: map<string, Option<Record>>, displays: seq<Display>)
    requires DisplayRows(rows, fares) == Some(displays)
    ensures |displays| == |rows|
    ensures forall i | 0 <= i < |rows| :: ShowsFare(rows[i], FareOf(fares, rows[i].kind), displays[i])
  {
    hide DisplayRow, ShowsFare, FareOf;
    if rows != [] {
      var n := |rows| - 1;
      RowsShowFares(rows[..n], fares, DisplayRows(rows[..n], fares).value);
      RowShowsFare(rows[n], FareOf(fares, rows[n].kind));
    }
  }

  /** A passenger can be displayed: the snapshot's amounts agree, and no amount shown is negative. */
  predicate Displayable(row: PassengerPricing, fare: Option<Record>) {
    && row.count > 0 && row.gross == row.commission + row.payable && row.payable >= 0.0 && fare.Some?
    && NotBelowZero(AmountOf(fare.value, BasePrice)) && NotBelowZero(AmountOf(fare.value, TaxTotal)) && NotBelowZero(AmountOf(fare.value, Ait))
  }

  /** Not negative once rounded to cents. */
  predicate NotBelowZero(amount: Option<real>) {
    amount.Some? && amount.value > -0.005
  }

  lemma WholeCents(a: real)
    requires Cents(a) && a > -0.01
    ensures a >= 0.0
  {
  }

  lemma RoundsBelowZero(x: real)
    ensures Round2(x) >= 0.0 <==> x > -0.005
  {
    RoundIsNearest(x);
    if x <= -0.005 {
      RoundMonotone(x, -0.005);
      TiesAwayFromZero(0);
    } else {
      WholeCents(Round2(x));
    }
    hide Round2, Cents;
  }

  lemma DisplayedExactlyWhen(row: PassengerPricing, fare: Option<Record>)
    ensures DisplayRow(row, fare).Some? <==> Displayable(row, fare)
  {
    if fare.Some? {
      ShownIfNotNegative(AmountOf(fare.value, BasePrice));
      ShownIfNotNegative(AmountOf(fare.value, TaxTotal));
      ShownIfNotNegative(AmountOf(fare.value, Ait));
    }
    hide Round2, NotBelowZero, AmountsFor;
  }

  lemma ShownIfNotNegative(amount: Option<real>)
    ensures NotBelowZero(amount) <==> amount.Some? && Round2(amount.value) >= 0.0
  {
    if amount.Some? {
      RoundsBelowZero(amount.value);
    }
    hide Round2;
  }

  lemma {:induction false} AllDisplayedExactlyWhen(rows: seq<PassengerPricing>, fares: map<string, Option<Record>>)
    ensures DisplayRows(rows, fares).Some? <==> forall i | 0 <= i < |rows| :: Displayable(rows[i], FareOf(fares, rows[i].kind))
  {
    hide DisplayRow, Displayable, FareOf;
    if rows != [] {
      var n := |rows| - 1;
      AllDisplayedExactlyWhen(rows[..n], fares);
      DisplayedExactlyWhen(rows[n], FareOf(fares, rows[n].kind));
      assert forall i | 0 <= i < n :: rows[..n][i] == rows[i];
    }
  }

  /** A display is built exactly for a tiered snapshot all of whose passengers can be displayed and add up to its
   payable; it then shows every passenger's own fare, and their weighted sums as totals. */
  lemma BuiltExactlyWhen(pricing: SavedPricing, fares: map<string, Option<Record>>)
    ensures BreakdownOf(pricing, fares).Some? <==>
            && pricing.tier.Some?
            && (forall i | 0 <= i < |pricing.passengers| :: Displayable(pricing.passengers[i], FareOf(fares, pricing.passengers[i].kind)))
            && Weighted(Payables(pricing.passengers), PaxCounts(pricing.passengers)) == pricing.payable
    ensures BreakdownOf(pricing, fares).Some? ==>
              var b, rows := BreakdownOf(pricing, fares).value, pricing.passengers;
              && b.currency == pricing.currency && |b.passengers| == |rows| && |b.totals| == KINDS_OF_AMOUNT
              && (forall i | 0 <= i < |rows| :: ShowsFare(rows[i], FareOf(fares, rows[i].kind), b.passengers[i]))
              && forall k | 0 <= k < KINDS_OF_AMOUNT :: b.totals[k] == Weighted(Column(b.passengers, k), PaxCounts(rows))
  {
    hide DisplayRows, Displayable, ShowsFare, FareOf, Weighted, Column;
    AllDisplayedExactlyWhen(pricing.passengers, fares);
    var displays := DisplayRows(pricing.passengers, fares);
    if displays.Some? {
      DisplayKeepsPayable(pricing.passengers, fares, displays.value);
      RowsShowFares(pricing.passengers, fares, displays.value);
    }
  }
}
