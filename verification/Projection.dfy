/**
 Selling projection of a supplier fare (src/projection.rs): coverage checks, exact
 passenger totals and the rewritten price fields.

 A JSON object holding prices is read by field, so it is modelled as a map of its
 scalar fields; a value that is not an object reads like an empty one.
 */
module Projection {
  import opened Wrappers
  import opened Money
  import opened Pricing

  datatype Scalar = Number(value: real) | Quoted(value: real) | Opaque

  /** The field names this code reads or writes, and every other one. */
  datatype FieldName =
    | TotalPrice | DiscountPrice | BasePrice | TaxTotal | Ait | ServiceCharge
    | TotalExtraServicePrice | AgentAdditionalPrice | Other(name: string)

  type Record = map<FieldName, Scalar>

  /** A passenger count; none when the JSON value is not an unsigned 64-bit number. */
  datatype PassengerCount = PassengerCount(kind: string, count: Option<nat>)

  /** `fares` maps a passenger kind to its fare object, or to none for JSON null. */
  datatype Offer = Offer(
    fields: Record,
    components: Option<seq<Record>>,
    counts: Option<seq<PassengerCount>>,
    fares: Option<map<string, Option<Record>>>)

  datatype Error = MissingOrInvalidPrice | UnverifiedCoverage

  function NumberOf(record: Record, key: FieldName): Result<real, Error> {
    if key in record && record[key].Number? then Ok(record[key].value) else Err(MissingOrInvalidPrice)
  }

  /** A price is rewritten only where the supplier had one. */
  function Rewritten(record: Record, key: FieldName, amount: real): Result<Option<real>, Error> {
    if key !in record then Ok(None)
    else if record[key].Number? then Ok(Some(amount))
    else Err(MissingOrInvalidPrice)
  }

  function FareOf(fares: map<string, Option<Record>>, kind: string): Option<Record> {
    if kind in fares then fares[kind] else None
  }

  const MAX_U32: nat := 0xFFFF_FFFF

  datatype Row = Row(kind: string, fare: PassengerFare, total: real, discount: real, shownTotal: Option<real>, shownDiscount: Option<real>)

  /** Published gross of one passenger: rounded base plus rounded taxes. */
  function PublishedTotal(base: real, taxes: real): real {
    Round2(base) + Round2(taxes)
  }

  function SellingOf(fare: PassengerFare, markup: Option<Markup>): SellingFare {
    if markup.Some? then Price(fare, markup.value)
    else
      var total := PublishedTotal(fare.base, fare.taxes);
      SellingFare(total, fare.base + fare.taxes - (total - fare.ait), fare.count)
  }

  predicate IsNumber(record: Record, key: FieldName) {
    key in record && record[key].Number?
  }

  predicate FullyPriced(record: Record) {
    IsNumber(record, TotalPrice) && IsNumber(record, BasePrice) && IsNumber(record, TaxTotal) && IsNumber(record, Ait)
  }

  function FareIn(record: Record, count: nat): PassengerFare
    requires FullyPriced(record)
  {
    PassengerFare(record[TotalPrice].value, record[BasePrice].value, record[TaxTotal].value, record[Ait].value, count)
  }

  function RowIn(kind: string, record: Record, count: nat, markup: Option<Markup>): Row
    requires FullyPriced(record)
  {
    var fare := FareIn(record, count);
    var selling := SellingOf(fare, markup);
    Row(kind, fare, selling.total, selling.discount, Some(selling.total), if DiscountPrice in record then Some(selling.discount) else None)
  }

  /** Why a fare object cannot be priced; published gross also refuses negative amounts. */
  function Fault(record: Record, published: bool): Option<Error> {
    if !FullyPriced(record) then Some(MissingOrInvalidPrice)
    else if ServiceCharge in record && !record[ServiceCharge].Number? then Some(MissingOrInvalidPrice)
    else if ServiceCharge in record && record[ServiceCharge].value != 0.0 then Some(UnverifiedCoverage)
    else if published && (record[BasePrice].value < 0.0 || record[TaxTotal].value < 0.0 || record[TotalPrice].value < 0.0) then Some(MissingOrInvalidPrice)
    else if DiscountPrice in record && !record[DiscountPrice].Number? then Some(MissingOrInvalidPrice)
    else None
  }

  /** What one passenger kind contributes; nothing when it is absent and unpriced. */
  function PriceRow(entry: PassengerCount, fare: Option<Record>, markup: Option<Markup>): Result<Option<Row>, Error> {
    if entry.count.None? || entry.count.value > MAX_U32 then Err(MissingOrInvalidPrice)
    else if entry.count.value == 0 && fare.None? then Ok(None)
    else
      var record := if fare.Some? then fare.value else map[];
      var fault := Fault(record, markup.None?);
      if fault.Some? then Err(fault.value) else Ok(Some(RowIn(entry.kind, record, entry.count.value, markup)))
  }

  function Rows(counts: seq<PassengerCount>, fares: map<string, Option<Record>>, markup: Option<Markup>): Result<seq<Row>, Error> {
    if counts == [] then Ok([])
    else
      var last := counts[|counts| - 1];
      var before :- Rows(counts[..|counts| - 1], fares, markup);
      var row :- PriceRow(last, FareOf(fares, last.kind), markup);
      Ok(if row.Some? then before + [row.value] else before)
  }

  function RowCounts(rows: seq<Row>): seq<nat> { seq(|rows|, i requires 0 <= i < |rows| => rows[i].fare.count) }
  function SupplierTotals(rows: seq<Row>): seq<real> { seq(|rows|, i requires 0 <= i < |rows| => rows[i].fare.supplierTotal) }
  function SellingTotals(rows: seq<Row>): seq<real> { seq(|rows|, i requires 0 <= i < |rows| => rows[i].total) }
  function Discounts(rows: seq<Row>): seq<real> { seq(|rows|, i requires 0 <= i < |rows| => rows[i].discount) }
  function Bases(rows: seq<Row>): seq<real> { seq(|rows|, i requires 0 <= i < |rows| => rows[i].fare.base) }
  function Taxes(rows: seq<Row>): seq<real> { seq(|rows|, i requires 0 <= i < |rows| => rows[i].fare.taxes) }
  function Aits(rows: seq<Row>): seq<real> { seq(|rows|, i requires 0 <= i < |rows| => rows[i].fare.ait) }

  /** The sums the offer and its component are checked against. */
  datatype Sums = Sums(supplier: real, selling: real, base: real, taxes: real, ait: real)

  const NO_SUMS := Sums(0.0, 0.0, 0.0, 0.0, 0.0)

  function Extended(sums: Sums, row: Row): Sums {
    var count := row.fare.count as real;
    Sums(sums.supplier + row.fare.supplierTotal * count, sums.selling + row.total * count, sums.base + row.fare.base * count,
         sums.taxes + row.fare.taxes * count, sums.ait + row.fare.ait * count)
  }

  /** The accumulators after these rows. */
  function SumsOf(rows: seq<Row>): Sums {
    if rows == [] then NO_SUMS else Extended(SumsOf(rows[..|rows| - 1]), rows[|rows| - 1])
  }

  datatype PassengerChange = PassengerChange(kind: string, total: Option<real>, discount: Option<real>)
  datatype Changes = Changes(passengers: seq<PassengerChange>, total: Option<real>, componentTotal: Option<real>, discount: Option<real>)

  function PassengerChanges(rows: seq<Row>): seq<PassengerChange> {
    seq(|rows|, i requires 0 <= i < |rows| => PassengerChange(rows[i].kind, rows[i].shownTotal, rows[i].shownDiscount))
  }

  predicate HasKind(counts: seq<PassengerCount>, kind: string) {
    exists i | 0 <= i < |counts| :: counts[i].kind == kind
  }

  datatype Coverage = Coverage(component: Record, counts: seq<PassengerCount>, fares: map<string, Option<Record>>)

  function CoverageOf(offer: Offer): Result<Coverage, Error> {
    if offer.components.None? || |offer.components.value| != 1 then Err(UnverifiedCoverage)
    else if offer.counts.None? || offer.fares.None? then Err(MissingOrInvalidPrice)
    else if exists kind | kind in offer.fares.value :: !HasKind(offer.counts.value, kind) then Err(MissingOrInvalidPrice)
    else Ok(Coverage(offer.components.value[0], offer.counts.value, offer.fares.value))
  }

  /** The supplier's own aggregates, in the order they are read. */
  function AggregatesMatch(fields: Record, component: Record, sums: Sums): Result<bool, Error> {
    var total :- NumberOf(fields, TotalPrice);
    if total != sums.supplier then Ok(false)
    else
      var componentTotal :- NumberOf(component, TotalPrice);
      if componentTotal != sums.supplier then Ok(false)
      else
        var base :- NumberOf(component, BasePrice);
        if base != sums.base then Ok(false)
        else
          var taxes :- NumberOf(component, TaxTotal);
          if taxes != sums.taxes then Ok(false)
          else
            var ait :- NumberOf(component, Ait);
            Ok(ait == sums.ait)
  }

  function ExtraIsZero(record: Record, key: FieldName): Result<bool, Error> {
    if key !in record then Ok(true)
    else
      var extra :- NumberOf(record, key);
      Ok(extra == 0.0)
  }

  /** Everything after the rows: aggregates, unsupported extras and the rewritten totals. */
  function Conclude(fields: Record, component: Record, passengers: seq<PassengerChange>, sums: Sums): Result<Changes, Error> {
    var matching :- AggregatesMatch(fields, component, sums);
    if !matching then Err(UnverifiedCoverage)
    else
      var extra :- ExtraIsZero(fields, TotalExtraServicePrice);
      if !extra then Err(UnverifiedCoverage)
      else
        var componentExtra :- ExtraIsZero(component, TotalExtraServicePrice);
        if !componentExtra then Err(UnverifiedCoverage)
        else
          var agent :- ExtraIsZero(component, AgentAdditionalPrice);
          if !agent then Err(UnverifiedCoverage)
          else
            var total :- Rewritten(fields, TotalPrice, sums.selling);
            var componentTotal :- Rewritten(component, TotalPrice, sums.selling);
            var discount :- Rewritten(component, DiscountPrice, sums.base + sums.taxes - (sums.selling - sums.ait));
            Ok(Changes(passengers, total, componentTotal, discount))
  }

  function Projected(offer: Offer, markup: Option<Markup>): Result<Changes, Error> {
    var coverage :- CoverageOf(offer);
    var rows :- Rows(coverage.counts, coverage.fares, markup);
    Conclude(offer.fields, coverage.component, PassengerChanges(rows), SumsOf(rows))
  }

  lemma WeightedLast(amounts: seq<real>, counts: seq<nat>, init: seq<real>, initCounts: seq<nat>)
    requires |amounts| == |counts| == |init| + 1 == |initCounts| + 1
    requires amounts[..|init|] == init && counts[..|init|] == initCounts
    ensures Weighted(amounts, counts) == Weighted(init, initCounts) + amounts[|init|] * counts[|init|] as real
  {
  }

  lemma {:induction false} SupplierSum(rows: seq<Row>)
    ensures SumsOf(rows).supplier == Weighted(SupplierTotals(rows), RowCounts(rows))
  {
    if rows != [] {
      var init := rows[..|rows| - 1];
      SupplierSum(init);
      WeightedLast(SupplierTotals(rows), RowCounts(rows), SupplierTotals(init), RowCounts(init));
      hide Weighted;
    }
  }

  lemma {:induction false} SellingSum(rows: seq<Row>)
    ensures SumsOf(rows).selling == Weighted(SellingTotals(rows), RowCounts(rows))
  {
    if rows != [] {
      var init := rows[..|rows| - 1];
      SellingSum(init);
      WeightedLast(SellingTotals(rows), RowCounts(rows), SellingTotals(init), RowCounts(init));
      hide Weighted;
    }
  }

  lemma {:induction false} BaseSum(rows: seq<Row>)
    ensures SumsOf(rows).base == Weighted(Bases(rows), RowCounts(rows))
  {
    if rows != [] {
      var init := rows[..|rows| - 1];
      BaseSum(init);
      WeightedLast(Bases(rows), RowCounts(rows), Bases(init), RowCounts(init));
      hide Weighted;
    }
  }

  lemma {:induction false} TaxSum(rows: seq<Row>)
    ensures SumsOf(rows).taxes == Weighted(Taxes(rows), RowCounts(rows))
  {
    if rows != [] {
      var init := rows[..|rows| - 1];
      TaxSum(init);
      WeightedLast(Taxes(rows), RowCounts(rows), Taxes(init), RowCounts(init));
      hide Weighted;
    }
  }

  lemma {:induction false} AitSum(rows: seq<Row>)
    ensures SumsOf(rows).ait == Weighted(Aits(rows), RowCounts(rows))
  {
    if rows != [] {
      var init := rows[..|rows| - 1];
      AitSum(init);
      WeightedLast(Aits(rows), RowCounts(rows), Aits(init), RowCounts(init));
      hide Weighted;
    }
  }

  /** The accumulators are the count-weighted sums. */
  lemma SumsAreWeighted(rows: seq<Row>)
    ensures SumsOf(rows).supplier == Weighted(SupplierTotals(rows), RowCounts(rows))
    ensures SumsOf(rows).selling == Weighted(SellingTotals(rows), RowCounts(rows))
    ensures SumsOf(rows).base == Weighted(Bases(rows), RowCounts(rows))
    ensures SumsOf(rows).taxes == Weighted(Taxes(rows), RowCounts(rows))
    ensures SumsOf(rows).ait == Weighted(Aits(rows), RowCounts(rows))
  {
    hide SumsOf, Weighted;
    SupplierSum(rows);
    SellingSum(rows);
    BaseSum(rows);
    TaxSum(rows);
    AitSum(rows);
  }

  lemma {:induction false} RowsFailEarly(counts: seq<PassengerCount>, fares: map<string, Option<Record>>, markup: Option<Markup>, i: nat, error: Error)
    requires i <= |counts| && Rows(counts[..i], fares, markup) == Err(error)
    ensures Rows(counts, fares, markup) == Err(error)
    decreases |counts| - i
  {
    if i < |counts| {
      assert counts[..i + 1][..i] == counts[..i];
      RowsFailEarly(counts, fares, markup, i + 1, error);
    } else {
      assert counts[..i] == counts;
    }
  }

  /** One pass over the passenger kinds with running sums. */
  method SumPassengers(counts: seq<PassengerCount>, fares: map<string, Option<Record>>, markup: Option<Markup>)
    returns (r: Result<(seq<PassengerChange>, Sums), Error>)
    ensures var rows := Rows(counts, fares, markup);
            r == if rows.Ok? then Ok((PassengerChanges(rows.value), SumsOf(rows.value))) else Err(rows.error)
  {
    hide PriceRow;
    var passengers: seq<PassengerChange> := [];
    var supplierTotal, sellingTotal, base, taxes, ait := 0.0, 0.0, 0.0, 0.0, 0.0;
    ghost var rows: seq<Row> := [];
    for i := 0 to |counts|
      invariant Rows(counts[..i], fares, markup) == Ok(rows)
      invariant passengers == PassengerChanges(rows)
      invariant SumsOf(rows) == Sums(supplierTotal, sellingTotal, base, taxes, ait)
    {
      assert counts[..i + 1][..i] == counts[..i];
      var priced := PriceRow(counts[i], FareOf(fares, counts[i].kind), markup);
      if priced.Err? {
        RowsFailEarly(counts, fares, markup, i + 1, priced.error);
        return Err(priced.error);
      }
      if priced.value.Some? {
        var row := priced.value.value;
        assert (rows + [row])[..|rows|] == rows;
        var sums := Extended(Sums(supplierTotal, sellingTotal, base, taxes, ait), row);
        supplierTotal, sellingTotal, base, taxes, ait := sums.supplier, sums.selling, sums.base, sums.taxes, sums.ait;
        passengers := passengers + [PassengerChange(row.kind, row.shownTotal, row.shownDiscount)];
        rows := rows + [row];
      }
    }
    assert counts[..|counts|] == counts;
    r := Ok((passengers, Sums(supplierTotal, sellingTotal, base, taxes, ait)));
  }

  method Project(offer: Offer, markup: Option<Markup>) returns (r: Result<Changes, Error>)
    ensures r == Projected(offer, markup)
    ensures r.Ok? <==> Projectable(offer, markup.None?)
  {
    ProjectedExactlyWhen(offer, markup);
    hide Projectable;
    var coverage := CoverageOf(offer);
    if coverage.Err? {
      return Err(coverage.error);
    }
    var summed := SumPassengers(coverage.value.counts, coverage.value.fares, markup);
    if summed.Err? {
      return Err(summed.error);
    }
    r := Conclude(offer.fields, coverage.value.component, summed.value.0, summed.value.1);
  }

  // ---------------------------------------------------------------------------
  // Writing the changes.

  function Put(record: Record, key: FieldName, amount: Option<real>): Record {
    if amount.Some? then record[key := Number(amount.value)] else record
  }

  function PutFare(fares: map<string, Option<Record>>, change: PassengerChange): map<string, Option<Record>> {
    if change.kind in fares && fares[change.kind].Some?
    then fares[change.kind := Some(Put(Put(fares[change.kind].value, TotalPrice, change.total), DiscountPrice, change.discount))]
    else fares
  }

  function PutFares(fares: map<string, Option<Record>>, changes: seq<PassengerChange>): map<string, Option<Record>> {
    if changes == [] then fares
    else PutFare(PutFares(fares, changes[..|changes| - 1]), changes[|changes| - 1])
  }

  function Applied(changes: Changes, offer: Offer): Offer
    requires offer.components.Some? && offer.components.value != [] && offer.fares.Some?
  {
    var component := offer.components.value[0];
    offer.(fares := Some(PutFares(offer.fares.value, changes.passengers)),
           fields := Put(offer.fields, TotalPrice, changes.total),
           components := Some(offer.components.value[0 := Put(Put(component, TotalPrice, changes.componentTotal), DiscountPrice, changes.discount)]))
  }

  method Apply(changes: Changes, offer: Offer) returns (output: Offer)
    requires offer.components.Some? && offer.components.value != [] && offer.fares.Some?
    ensures output == Applied(changes, offer)
  {
    var fares := offer.fares.value;
    for i := 0 to |changes.passengers|
      invariant fares == PutFares(offer.fares.value, changes.passengers[..i])
    {
      assert changes.passengers[..i + 1][..i] == changes.passengers[..i];
      fares := PutFare(fares, changes.passengers[i]);
    }
    assert changes.passengers[..|changes.passengers|] == changes.passengers;
    var component := Put(Put(offer.components.value[0], TotalPrice, changes.componentTotal), DiscountPrice, changes.discount);
    output := offer.(fares := Some(fares), fields := Put(offer.fields, TotalPrice, changes.total), components := Some(offer.components.value[0 := component]));
  }

  /** The selling tree, or why the fare cannot be priced. */
  function Selling(offer: Offer, markup: Option<Markup>): Result<Offer, Error> {
    var changes :- Projected(offer, markup);
    Ok(Applied(changes, offer))
  }

  function SingleComponent(offer: Offer, markup: Markup): Result<Offer, Error> {
    Selling(offer, Some(markup))
  }

  function ValidateSingleComponent(offer: Offer): Result<(), Error> {
    var changes :- Projected(offer, Some(Fixed(0.0)));
    Ok(())
  }

  function PublishedGross(offer: Offer): Result<Offer, Error> {
    Selling(offer, None)
  }

  // ---------------------------------------------------------------------------
  // Acceptance does not depend on the markup.

  ghost predicate SameSource(a: Result<seq<Row>, Error>, b: Result<seq<Row>, Error>) {
    match (a, b)
    case (Ok(x), Ok(y)) => |x| == |y| && forall i | 0 <= i < |x| :: x[i].fare == y[i].fare && x[i].kind == y[i].kind
    case (Err(e), Err(f)) => e == f
    case _ => false
  }

  lemma {:induction false} RowsIgnoreMarkup(counts: seq<PassengerCount>, fares: map<string, Option<Record>>, m: Markup, n: Markup)
    ensures SameSource(Rows(counts, fares, Some(m)), Rows(counts, fares, Some(n)))
  {
    if counts != [] {
      RowsIgnoreMarkup(counts[..|counts| - 1], fares, m, n);
    }
  }

  lemma ConcludeIgnoresSelling(fields: Record, component: Record, p: seq<PassengerChange>, q: seq<PassengerChange>, sums: Sums, selling: real)
    ensures var a, b := Conclude(fields, component, p, sums), Conclude(fields, component, q, sums.(selling := selling));
            (a.Ok? <==> b.Ok?) && (a.Err? ==> a == b)
  {
  }

  lemma AcceptanceIgnoresMarkup(offer: Offer, m: Markup, n: Markup)
    ensures var a, b := Projected(offer, Some(m)), Projected(offer, Some(n));
            (a.Ok? <==> b.Ok?) && (a.Err? ==> a == b)
  {
    var coverage := CoverageOf(offer);
    if coverage.Ok? {
      var Coverage(_, counts, fares) := coverage.value;
      RowsIgnoreMarkup(counts, fares, m, n);
      var a, b := Rows(counts, fares, Some(m)), Rows(counts, fares, Some(n));
      if a.Ok? {
        assert RowCounts(a.value) == RowCounts(b.value) && SupplierTotals(a.value) == SupplierTotals(b.value);
        assert Bases(a.value) == Bases(b.value) && Taxes(a.value) == Taxes(b.value) && Aits(a.value) == Aits(b.value);
        SumsAreWeighted(a.value);
        SumsAreWeighted(b.value);
        ConcludeIgnoresSelling(offer.fields, coverage.value.component, PassengerChanges(a.value), PassengerChanges(b.value),
                               SumsOf(a.value), SumsOf(b.value).selling);
      }
    }
  }

  /** So the check made before selection predicts the projection made after it. */
  lemma ValidationPredictsProjection(offer: Offer, markup: Markup)
    ensures ValidateSingleComponent(offer).Ok? <==> SingleComponent(offer, markup).Ok?
  {
    AcceptanceIgnoresMarkup(offer, Fixed(0.0), markup);
  }

  // ---------------------------------------------------------------------------
  // Money is conserved, and nothing else is touched.

  /** Passenger discounts add up to the component discount, whatever the markup. */
  lemma DiscountsAddUp(rows: seq<Row>)
    requires forall i | 0 <= i < |rows| :: rows[i].discount == rows[i].fare.base + rows[i].fare.taxes - (rows[i].total - rows[i].fare.ait)
    ensures var sums := SumsOf(rows);
            Weighted(Discounts(rows), RowCounts(rows)) == sums.base + sums.taxes - (sums.selling - sums.ait)
  {
    SumsAreWeighted(rows);
    var n, counts := |rows|, RowCounts(rows);
    var gross := seq(n, i requires 0 <= i < n => rows[i].fare.base + rows[i].fare.taxes);
    var withAit := seq(n, i requires 0 <= i < n => gross[i] + rows[i].fare.ait);
    WeightedSum(Bases(rows), Taxes(rows), gross, counts);
    WeightedSum(gross, Aits(rows), withAit, counts);
    WeightedSum(Discounts(rows), SellingTotals(rows), withAit, counts);
  }

  predicate DistinctKinds(counts: seq<PassengerCount>) {
    forall i, j | 0 <= i < j < |counts| :: counts[i].kind != counts[j].kind
  }

  /** What a row says about the fare it came from. */
  predicate RowFits(row: Row, fares: map<string, Option<Record>>) {
    && row.kind in fares && fares[row.kind].Some?
    && var record := fares[row.kind].value;
    && TotalPrice in record && record[TotalPrice] == Number(row.fare.supplierTotal)
    && BasePrice in record && record[BasePrice] == Number(row.fare.base)
    && TaxTotal in record && record[TaxTotal] == Number(row.fare.taxes)
    && Ait in record && record[Ait] == Number(row.fare.ait)
    && row.shownTotal == Some(row.total)
    && row.shownDiscount == (if DiscountPrice in record then Some(row.discount) else None)
    && row.discount == row.fare.base + row.fare.taxes - (row.total - row.fare.ait)
  }

  lemma PriceRowFits(entry: PassengerCount, fares: map<string, Option<Record>>, markup: Option<Markup>)
    ensures var priced := PriceRow(entry, FareOf(fares, entry.kind), markup);
            priced.Ok? && priced.value.Some? ==> RowFits(priced.value.value, fares) && priced.value.value.kind == entry.kind
  {
  }

  /** Rows of distinct kinds, each fitting its fare. */
  ghost predicate Fitting(rows: seq<Row>, fares: map<string, Option<Record>>) {
    && (forall i | 0 <= i < |rows| :: RowFits(rows[i], fares))
    && (forall i, j | 0 <= i < j < |rows| :: rows[i].kind != rows[j].kind)
  }

  ghost predicate KindsFrom(rows: seq<Row>, counts: seq<PassengerCount>) {
    forall i | 0 <= i < |rows| :: HasKind(counts, rows[i].kind)
  }

  lemma {:induction false} RowsFit(counts: seq<PassengerCount>, fares: map<string, Option<Record>>, markup: Option<Markup>, rows: seq<Row>)
    requires DistinctKinds(counts) && Rows(counts, fares, markup) == Ok(rows)
    ensures Fitting(rows, fares) && KindsFrom(rows, counts)
  {
    if counts != [] {
      var n := |counts| - 1;
      var before := Rows(counts[..n], fares, markup).value;
      RowsFit(counts[..n], fares, markup, before);
      PriceRowFits(counts[n], fares, markup);
      var priced := PriceRow(counts[n], FareOf(fares, counts[n].kind), markup).value;
      FitOneMore(before, priced, fares, counts);
    }
  }

  lemma FitOneMore(before: seq<Row>, row: Option<Row>, fares: map<string, Option<Record>>, counts: seq<PassengerCount>)
    requires DistinctKinds(counts) && counts != []
    requires Fitting(before, fares) && KindsFrom(before, counts[..|counts| - 1])
    requires row.Some? ==> RowFits(row.value, fares) && row.value.kind == counts[|counts| - 1].kind
    ensures var rows := if row.Some? then before + [row.value] else before;
            Fitting(rows, fares) && KindsFrom(rows, counts)
  {
    var n := |counts| - 1;
    assert HasKind(counts, counts[n].kind);
    forall i | 0 <= i < |before|
      ensures HasKind(counts, before[i].kind) && before[i].kind != counts[n].kind
    {
      assert HasKind(counts[..n], before[i].kind);
      KindOfPrefix(counts, n, before[i].kind);
    }
  }

  lemma KindOfPrefix(counts: seq<PassengerCount>, n: nat, kind: string)
    requires n < |counts| && DistinctKinds(counts) && HasKind(counts[..n], kind)
    ensures HasKind(counts, kind) && kind != counts[n].kind
  {
    var j :| 0 <= j < |counts[..n]| && counts[..n][j].kind == kind;
    assert counts[j].kind == kind;
  }

  function Shown(row: Row, record: Record): Record {
    Put(Put(record, TotalPrice, row.shownTotal), DiscountPrice, row.shownDiscount)
  }

  /** Rows of distinct kinds, each with a fare object to write into. */
  ghost predicate Placed(rows: seq<Row>, fares: map<string, Option<Record>>) {
    && (forall i | 0 <= i < |rows| :: rows[i].kind in fares && fares[rows[i].kind].Some?)
    && (forall i, j | 0 <= i < j < |rows| :: rows[i].kind != rows[j].kind)
  }

  lemma FittingIsPlaced(rows: seq<Row>, fares: map<string, Option<Record>>)
    requires Fitting(rows, fares)
    ensures Placed(rows, fares)
  {
    assert forall i | 0 <= i < |rows| :: RowFits(rows[i], fares);
  }

  /** After writing, each changed kind shows its own amounts and all other kinds are as before. */
  ghost predicate Written(fares: map<string, Option<Record>>, rows: seq<Row>, out: map<string, Option<Record>>)
    requires Placed(rows, fares)
  {
    && out.Keys == fares.Keys
    && (forall i | 0 <= i < |rows| :: rows[i].kind in out && out[rows[i].kind] == Some(Shown(rows[i], fares[rows[i].kind].value)))
    && (forall kind | kind in fares && (forall i | 0 <= i < |rows| :: rows[i].kind != kind) :: out[kind] == fares[kind])
  }

  lemma PlacedSooner(rows: seq<Row>, fares: map<string, Option<Record>>)
    requires Placed(rows, fares) && rows != []
    ensures Placed(rows[..|rows| - 1], fares) && rows[..|rows| - 1] + [rows[|rows| - 1]] == rows
  {
    assert forall i | 0 <= i < |rows| - 1 :: rows[..|rows| - 1][i] == rows[i];
  }

  lemma {:induction false} FaresWritten(fares: map<string, Option<Record>>, rows: seq<Row>)
    requires Placed(rows, fares)
    ensures Written(fares, rows, PutFares(fares, PassengerChanges(rows)))
  {
    if rows != [] {
      var init, last := rows[..|rows| - 1], rows[|rows| - 1];
      PlacedSooner(rows, fares);
      hide Placed, Written, PutFare;
      FaresWritten(fares, init);
      assert PassengerChanges(rows)[..|init|] == PassengerChanges(init);
      WriteOne(fares, init, last, PutFares(fares, PassengerChanges(init)));
    }
  }

  lemma WriteOne(fares: map<string, Option<Record>>, init: seq<Row>, row: Row, mid: map<string, Option<Record>>)
    requires Placed(init, fares) && Placed(init + [row], fares) && Written(fares, init, mid)
    ensures Written(fares, init + [row], PutFare(mid, PassengerChange(row.kind, row.shownTotal, row.shownDiscount)))
  {
    var rows := init + [row];
    assert rows[|init|] == row && forall i | 0 <= i < |init| :: rows[i] == init[i];
    assert mid[row.kind] == fares[row.kind];
  }

  /** Two records that differ at most in the listed price fields. */
  predicate OnlyPrices(before: Record, after: Record) {
    && after.Keys == before.Keys
    && forall key | key in before && key != TotalPrice && key != DiscountPrice :: after[key] == before[key]
  }

  predicate OnlyPricesIn(before: Option<Record>, after: Option<Record>) {
    (before.Some? <==> after.Some?) && (before.Some? ==> OnlyPrices(before.value, after.value))
  }

  ghost predicate RowsOf(offer: Offer, component: Record, rows: seq<Row>) {
    offer.fares.Some? && offer.components == Some([component]) && Fitting(rows, offer.fares.value)
  }

  /** The selling tree in terms of its rows. */
  ghost function Outcome(offer: Offer, component: Record, rows: seq<Row>): Offer
    requires RowsOf(offer, component, rows)
  {
    var sums := SumsOf(rows);
    var discount := sums.base + sums.taxes - (sums.selling - sums.ait);
    var priced := component[TotalPrice := Number(sums.selling)];
    offer.(fields := offer.fields[TotalPrice := Number(sums.selling)],
           components := Some([if DiscountPrice in component then priced[DiscountPrice := Number(discount)] else priced]),
           fares := Some(PutFares(offer.fares.value, PassengerChanges(rows))))
  }

  lemma ConcludeParts(fields: Record, component: Record, passengers: seq<PassengerChange>, sums: Sums)
    requires Conclude(fields, component, passengers, sums).Ok?
    ensures TotalPrice in fields && TotalPrice in component
    ensures var discount := sums.base + sums.taxes - (sums.selling - sums.ait);
            Conclude(fields, component, passengers, sums).value ==
            Changes(passengers, Some(sums.selling), Some(sums.selling), if DiscountPrice in component then Some(discount) else None)
  {
  }

  lemma AppliedIsOutcome(offer: Offer, component: Record, rows: seq<Row>)
    requires RowsOf(offer, component, rows)
    ensures var sums := SumsOf(rows);
            var discount := sums.base + sums.taxes - (sums.selling - sums.ait);
            Applied(Changes(PassengerChanges(rows), Some(sums.selling), Some(sums.selling), if DiscountPrice in component then Some(discount) else None), offer)
            == Outcome(offer, component, rows)
  {
    var written := Outcome(offer, component, rows).components.value;
    assert offer.components.value[0 := written[0]] == written;
  }

  /** Reading a successful projection back into its parts. */
  lemma SellingParts(offer: Offer, markup: Option<Markup>) returns (component: Record, rows: seq<Row>)
    requires offer.counts.Some? ==> DistinctKinds(offer.counts.value)
    requires Selling(offer, markup).Ok?
    ensures offer.counts.Some? && RowsOf(offer, component, rows)
    ensures Rows(offer.counts.value, offer.fares.value, markup) == Ok(rows)
    ensures TotalPrice in offer.fields && TotalPrice in component
    ensures Selling(offer, markup) == Ok(Outcome(offer, component, rows))
  {
    hide Rows, Conclude, Outcome, RowFits;
    component := CoverageOf(offer).value.component;
    assert offer.components.value == [component];
    var counts, fares := offer.counts.value, offer.fares.value;
    var result := Rows(counts, fares, markup);
    rows := result.value;
    RowsFit(counts, fares, markup, rows);
    assert Projected(offer, markup) == Conclude(offer.fields, component, PassengerChanges(rows), SumsOf(rows));
    ConcludeParts(offer.fields, component, PassengerChanges(rows), SumsOf(rows));
    AppliedIsOutcome(offer, component, rows);
  }

  /** Everything but the price fields is as the supplier sent it. */
  ghost predicate OnlyPricesDiffer(before: Offer, after: Offer) {
    && after.counts == before.counts
    && OnlyPrices(before.fields, after.fields)
    && before.components.Some? && after.components.Some? && |before.components.value| == |after.components.value| == 1
    && OnlyPrices(before.components.value[0], after.components.value[0])
    && before.fares.Some? && after.fares.Some? && before.fares.value.Keys == after.fares.value.Keys
    && forall kind | kind in before.fares.value :: OnlyPricesIn(before.fares.value[kind], after.fares.value[kind])
  }

  lemma ShownOnlyPrices(row: Row, record: Record)
    requires TotalPrice in record && (row.shownDiscount.Some? ==> DiscountPrice in record)
    ensures OnlyPrices(record, Shown(row, record))
  {
  }

  lemma FaresOnlyPrices(fares: map<string, Option<Record>>, rows: seq<Row>, kind: string)
    requires Fitting(rows, fares) && Placed(rows, fares) && kind in fares
    ensures var out := PutFares(fares, PassengerChanges(rows));
            kind in out && OnlyPricesIn(fares[kind], out[kind])
  {
    FaresWritten(fares, rows);
    if i :| 0 <= i < |rows| && rows[i].kind == kind {
      assert TotalPrice in fares[kind].value && (rows[i].shownDiscount.Some? ==> DiscountPrice in fares[kind].value) by {
        assert RowFits(rows[i], fares);
      }
      ShownOnlyPrices(rows[i], fares[kind].value);
    }
  }

  lemma OutcomeOnlyPrices(offer: Offer, component: Record, rows: seq<Row>)
    requires RowsOf(offer, component, rows)
    requires TotalPrice in offer.fields && TotalPrice in component
    ensures OnlyPricesDiffer(offer, Outcome(offer, component, rows))
  {
    var out := Outcome(offer, component, rows);
    FittingIsPlaced(rows, offer.fares.value);
    FaresWritten(offer.fares.value, rows);
    forall kind | kind in offer.fares.value
      ensures OnlyPricesIn(offer.fares.value[kind], out.fares.value[kind])
    {
      FaresOnlyPrices(offer.fares.value, rows, kind);
    }
  }

  /** A successful projection changes price fields only. */
  lemma OnlyPricesChange(offer: Offer, markup: Option<Markup>)
    requires offer.counts.Some? ==> DistinctKinds(offer.counts.value)
    requires Selling(offer, markup).Ok?
    ensures OnlyPricesDiffer(offer, Selling(offer, markup).value)
  {
    var component, rows := SellingParts(offer, markup);
    OutcomeOnlyPrices(offer, component, rows);
  }

  /** What a passenger shows after projection. */
  predicate ShowsRow(row: Row, fares: map<string, Option<Record>>) {
    && row.kind in fares && fares[row.kind].Some?
    && var shown := fares[row.kind].value;
    && TotalPrice in shown && shown[TotalPrice] == Number(row.total)
    && (DiscountPrice in shown ==> shown[DiscountPrice] == Number(row.discount))
  }

  /** The offer total, the component total and discount are the count-weighted sums of what each passenger shows. */
  ghost predicate Conserves(out: Offer, rows: seq<Row>) {
    && out.fares.Some? && (forall i | 0 <= i < |rows| :: ShowsRow(rows[i], out.fares.value))
    && TotalPrice in out.fields && out.fields[TotalPrice] == Number(Weighted(SellingTotals(rows), RowCounts(rows)))
    && out.components.Some? && |out.components.value| == 1
    && var component := out.components.value[0];
    && TotalPrice in component && component[TotalPrice] == out.fields[TotalPrice]
    && (DiscountPrice in component ==> component[DiscountPrice] == Number(Weighted(Discounts(rows), RowCounts(rows))))
  }

  lemma ShownAfterWriting(fares: map<string, Option<Record>>, rows: seq<Row>)
    requires Fitting(rows, fares)
    ensures forall i | 0 <= i < |rows| :: ShowsRow(rows[i], PutFares(fares, PassengerChanges(rows)))
  {
    FittingIsPlaced(rows, fares);
    FaresWritten(fares, rows);
    forall i | 0 <= i < |rows|
      ensures ShowsRow(rows[i], PutFares(fares, PassengerChanges(rows)))
    {
      assert RowFits(rows[i], fares);
    }
  }

  lemma FittingDiscounts(rows: seq<Row>, fares: map<string, Option<Record>>)
    requires Fitting(rows, fares)
    ensures forall i | 0 <= i < |rows| :: rows[i].discount == rows[i].fare.base + rows[i].fare.taxes - (rows[i].total - rows[i].fare.ait)
  {
    assert forall i | 0 <= i < |rows| :: RowFits(rows[i], fares);
  }

  lemma OutcomeConserves(offer: Offer, component: Record, rows: seq<Row>)
    requires RowsOf(offer, component, rows)
    ensures Conserves(Outcome(offer, component, rows), rows)
  {
    ShownAfterWriting(offer.fares.value, rows);
    FittingDiscounts(rows, offer.fares.value);
    DiscountsAddUp(rows);
    SumsAreWeighted(rows);
  }

  /** Money is conserved by every successful projection, whatever the markup. */
  lemma ProjectionConservesMoney(offer: Offer, markup: Option<Markup>) returns (rows: seq<Row>)
    requires offer.counts.Some? ==> DistinctKinds(offer.counts.value)
    requires Selling(offer, markup).Ok?
    ensures offer.counts.Some? && offer.fares.Some? && Rows(offer.counts.value, offer.fares.value, markup) == Ok(rows)
    ensures Conserves(Selling(offer, markup).value, rows)
  {
    var component;
    component, rows := SellingParts(offer, markup);
    OutcomeConserves(offer, component, rows);
  }

  // ---------------------------------------------------------------------------
  // When a fare can be projected, told from its fields.

  predicate Zero(record: Record, key: FieldName) {
    key in record ==> record[key] == Number(0.0)
  }

  predicate SoundFare(record: Record, published: bool) {
    && FullyPriced(record) && Zero(record, ServiceCharge) && (DiscountPrice in record ==> record[DiscountPrice].Number?)
    && (published ==> record[BasePrice].value >= 0.0 && record[TaxTotal].value >= 0.0 && record[TotalPrice].value >= 0.0)
  }

  /** A count in range, and a sound fare unless nobody of the kind travels and none is given. */
  predicate SoundEntry(entry: PassengerCount, fare: Option<Record>, published: bool) {
    && entry.count.Some? && entry.count.value <= MAX_U32
    && if fare.Some? then SoundFare(fare.value, published) else entry.count.value == 0
  }

  function AmountIn(fare: Option<Record>, key: FieldName): real {
    if fare.Some? && IsNumber(fare.value, key) then fare.value[key].value else 0.0
  }

  function CountIn(entry: PassengerCount): nat {
    if entry.count.Some? then entry.count.value else 0
  }

  function Times(amount: real, count: nat): real {
    amount * count as real
  }

  /** One price field over all passengers. */
  function OverPassengers(counts: seq<PassengerCount>, fares: map<string, Option<Record>>, key: FieldName): real {
    if counts == [] then 0.0
    else
      var last := counts[|counts| - 1];
      OverPassengers(counts[..|counts| - 1], fares, key) + Times(AmountIn(FareOf(fares, last.kind), key), CountIn(last))
  }

  function Passengers(counts: seq<PassengerCount>): nat {
    if counts == [] then 0 else Passengers(counts[..|counts| - 1]) + CountIn(counts[|counts| - 1])
  }

  /** The one component and the offer state the sums over the passengers, and there are no extras. */
  predicate Adds(offer: Offer, component: Record, counts: seq<PassengerCount>, fares: map<string, Option<Record>>) {
    && TotalPrice in offer.fields && offer.fields[TotalPrice] == Number(OverPassengers(counts, fares, TotalPrice))
    && TotalPrice in component && component[TotalPrice] == Number(OverPassengers(counts, fares, TotalPrice))
    && BasePrice in component && component[BasePrice] == Number(OverPassengers(counts, fares, BasePrice))
    && TaxTotal in component && component[TaxTotal] == Number(OverPassengers(counts, fares, TaxTotal))
    && Ait in component && component[Ait] == Number(OverPassengers(counts, fares, Ait))
    && Zero(offer.fields, TotalExtraServicePrice) && Zero(component, TotalExtraServicePrice) && Zero(component, AgentAdditionalPrice)
    && (DiscountPrice in component ==> component[DiscountPrice].Number?)
  }

  ghost predicate Projectable(offer: Offer, published: bool) {
    && offer.components.Some? && |offer.components.value| == 1 && offer.counts.Some? && offer.fares.Some?
    && var counts, fares := offer.counts.value, offer.fares.value;
       && (forall kind | kind in fares :: HasKind(counts, kind))
       && (forall i | 0 <= i < |counts| :: SoundEntry(counts[i], FareOf(fares, counts[i].kind), published))
       && Adds(offer, offer.components.value[0], counts, fares)
  }

  lemma EntryPrices(entry: PassengerCount, fare: Option<Record>, markup: Option<Markup>)
    ensures PriceRow(entry, fare, markup).Ok? <==> SoundEntry(entry, fare, markup.None?)
    ensures var priced := PriceRow(entry, fare, markup);
            priced.Ok? ==>
              if priced.value.None? then CountIn(entry) == 0
              else
                var row := priced.value.value;
                && row.fare.supplierTotal == AmountIn(fare, TotalPrice) && row.fare.base == AmountIn(fare, BasePrice)
                && row.fare.taxes == AmountIn(fare, TaxTotal) && row.fare.ait == AmountIn(fare, Ait) && row.fare.count == CountIn(entry)
  {
    hide SellingOf;
  }

  ghost predicate SumsOver(sums: Sums, counts: seq<PassengerCount>, fares: map<string, Option<Record>>) {
    && sums.supplier == OverPassengers(counts, fares, TotalPrice) && sums.base == OverPassengers(counts, fares, BasePrice)
    && sums.taxes == OverPassengers(counts, fares, TaxTotal) && sums.ait == OverPassengers(counts, fares, Ait)
  }

  lemma {:induction false} RowsOver(counts: seq<PassengerCount>, fares: map<string, Option<Record>>, markup: Option<Markup>)
    ensures var rows := Rows(counts, fares, markup);
            && (rows.Ok? <==> forall i | 0 <= i < |counts| :: SoundEntry(counts[i], FareOf(fares, counts[i].kind), markup.None?))
            && (rows.Ok? ==> SumsOver(SumsOf(rows.value), counts, fares) && Heads(RowCounts(rows.value)) == Passengers(counts))
  {
    hide PriceRow, SoundEntry, AmountIn, CountIn, FareOf;
    if counts == [] {
      assert RowCounts([]) == [];
    } else {
      var n := |counts| - 1;
      RowsOver(counts[..n], fares, markup);
      EntryPrices(counts[n], FareOf(fares, counts[n].kind), markup);
      var before, priced := Rows(counts[..n], fares, markup), PriceRow(counts[n], FareOf(fares, counts[n].kind), markup);
      assert forall i | 0 <= i < n :: counts[..n][i] == counts[i];
      if before.Ok? && priced.Ok? {
        OverOneMore(counts, fares, before.value, priced.value);
      }
    }
  }

  lemma OverOneMore(counts: seq<PassengerCount>, fares: map<string, Option<Record>>, before: seq<Row>, row: Option<Row>)
    requires counts != []
    requires var n := |counts| - 1; SumsOver(SumsOf(before), counts[..n], fares) && Heads(RowCounts(before)) == Passengers(counts[..n])
    requires var entry, fare := counts[|counts| - 1], FareOf(fares, counts[|counts| - 1].kind);
             if row.None? then CountIn(entry) == 0
             else
               && row.value.fare.supplierTotal == AmountIn(fare, TotalPrice) && row.value.fare.base == AmountIn(fare, BasePrice)
               && row.value.fare.taxes == AmountIn(fare, TaxTotal) && row.value.fare.ait == AmountIn(fare, Ait)
               && row.value.fare.count == CountIn(entry)
    ensures var rows := if row.Some? then before + [row.value] else before;
            SumsOver(SumsOf(rows), counts, fares) && Heads(RowCounts(rows)) == Passengers(counts)
  {
    hide AmountIn, CountIn, FareOf, OverPassengers, SumsOf, Heads;
    var init, entry, fare := counts[..|counts| - 1], counts[|counts| - 1], FareOf(fares, counts[|counts| - 1].kind);
    if row.Some? {
      var paid, was := row.value.fare, SumsOf(before);
      OneMoreRow(before, row.value);
      LastOver(counts, fares, TotalPrice, was.supplier, paid.supplierTotal, paid.count);
      LastOver(counts, fares, BasePrice, was.base, paid.base, paid.count);
      LastOver(counts, fares, TaxTotal, was.taxes, paid.taxes, paid.count);
      LastOver(counts, fares, Ait, was.ait, paid.ait, paid.count);
    } else {
      NobodyOver(counts, fares, TotalPrice);
      NobodyOver(counts, fares, BasePrice);
      NobodyOver(counts, fares, TaxTotal);
      NobodyOver(counts, fares, Ait);
    }
  }

  lemma OneMoreRow(before: seq<Row>, row: Row)
    ensures SumsOf(before + [row]) == Extended(SumsOf(before), row)
    ensures Heads(RowCounts(before + [row])) == Heads(RowCounts(before)) + row.fare.count
  {
    var rows := before + [row];
    assert rows[..|rows| - 1] == before && RowCounts(rows) == RowCounts(before) + [row.fare.count];
    assert RowCounts(rows)[..|before|] == RowCounts(before);
    hide Extended;
  }

  lemma LastTimes(counts: seq<PassengerCount>, fares: map<string, Option<Record>>, key: FieldName, x: real, m: nat)
    requires counts != []
    requires x == AmountIn(FareOf(fares, counts[|counts| - 1].kind), key) && m == CountIn(counts[|counts| - 1])
    ensures OverPassengers(counts, fares, key) == OverPassengers(counts[..|counts| - 1], fares, key) + Times(x, m)
  {
    hide AmountIn, CountIn, FareOf, Times;
  }

  lemma TimesIs(x: real, m: nat)
    ensures Times(x, m) == x * m as real
  {
  }

  lemma LastOver(counts: seq<PassengerCount>, fares: map<string, Option<Record>>, key: FieldName, before: real, x: real, m: nat)
    requires counts != [] && before == OverPassengers(counts[..|counts| - 1], fares, key)
    requires x == AmountIn(FareOf(fares, counts[|counts| - 1].kind), key) && m == CountIn(counts[|counts| - 1])
    ensures before + x * m as real == OverPassengers(counts, fares, key)
  {
    hide AmountIn, CountIn, FareOf, Times, OverPassengers;
    LastTimes(counts, fares, key, x, m);
    TimesIs(x, m);
  }

  lemma NobodyOver(counts: seq<PassengerCount>, fares: map<string, Option<Record>>, key: FieldName)
    requires counts != [] && CountIn(counts[|counts| - 1]) == 0
    ensures OverPassengers(counts, fares, key) == OverPassengers(counts[..|counts| - 1], fares, key)
  {
    Nobody(AmountIn(FareOf(fares, counts[|counts| - 1].kind), key), CountIn(counts[|counts| - 1]));
    hide AmountIn, CountIn;
  }

  lemma SameTimes(x: real, y: real, m: nat, n: nat)
    requires x == y && m == n
    ensures x * m as real == y * n as real
  {
  }

  lemma Nobody(x: real, n: nat)
    requires n == 0
    ensures x * n as real == 0.0
  {
  }

  lemma ConcludesExactlyWhen(offer: Offer, component: Record, counts: seq<PassengerCount>, fares: map<string, Option<Record>>,
                             passengers: seq<PassengerChange>, sums: Sums)
    requires SumsOver(sums, counts, fares)
    ensures Conclude(offer.fields, component, passengers, sums).Ok? <==> Adds(offer, component, counts, fares)
  {
    hide OverPassengers;
  }

  /** A projection succeeds exactly for a fare whose passengers are soundly priced and add up to its aggregates. */
  lemma ProjectedExactlyWhen(offer: Offer, markup: Option<Markup>)
    ensures Projected(offer, markup).Ok? <==> Projectable(offer, markup.None?)
    ensures Selling(offer, markup).Ok? <==> Projectable(offer, markup.None?)
  {
    hide Rows, SumsOf, SoundEntry, Adds, Conclude, SumsOver, HasKind;
    if offer.components.Some? && |offer.components.value| == 1 && offer.counts.Some? && offer.fares.Some? {
      var component, counts, fares := offer.components.value[0], offer.counts.value, offer.fares.value;
      RowsOver(counts, fares, markup);
      var rows := Rows(counts, fares, markup);
      if rows.Ok? {
        ConcludesExactlyWhen(offer, component, counts, fares, PassengerChanges(rows.value), SumsOf(rows.value));
      }
    }
  }

  // ---------------------------------------------------------------------------
  // What a projection sells at.

  /** The marked-up price of all passengers, before any rounding. */
  predicate AllMarkedUp(supplierTotal: real, passengers: nat, markup: Markup, exact: real) {
    match markup
    case Fixed(amount) => exact == supplierTotal + amount * passengers as real
    case Percentage(percent) => exact * 100.0 == supplierTotal * (100.0 + percent)
  }

  function Exact(supplierTotal: real, markup: Markup): real {
    match markup
    case Fixed(amount) => supplierTotal + amount
    case Percentage(percent) => supplierTotal * (100.0 + percent) / 100.0
  }

  function Exacts(rows: seq<Row>, markup: Markup): (r: seq<real>)
    ensures |r| == |rows|
  {
    seq(|rows|, i requires 0 <= i < |rows| => Exact(rows[i].fare.supplierTotal, markup))
  }

  lemma ExactIsMarkedUp(supplierTotal: real, markup: Markup)
    ensures MarkedUp(supplierTotal, markup, Exact(supplierTotal, markup))
  {
  }

  lemma LastExact(rows: seq<Row>, markup: Markup)
    requires rows != []
    ensures var init, last := rows[..|rows| - 1], rows[|rows| - 1];
            && Weighted(Exacts(rows, markup), RowCounts(rows)) ==
               Weighted(Exacts(init, markup), RowCounts(init)) + Exact(last.fare.supplierTotal, markup) * last.fare.count as real
            && Weighted(SupplierTotals(rows), RowCounts(rows)) ==
               Weighted(SupplierTotals(init), RowCounts(init)) + last.fare.supplierTotal * last.fare.count as real
            && Heads(RowCounts(rows)) == Heads(RowCounts(init)) + last.fare.count
  {
    var n := |rows| - 1;
    var init := rows[..n];
    hide Weighted, Exact;
    WeightedLast(Exacts(rows, markup), RowCounts(rows), Exacts(init, markup), RowCounts(init));
    WeightedLast(SupplierTotals(rows), RowCounts(rows), SupplierTotals(init), RowCounts(init));
    SameTimes(Exacts(rows, markup)[n], Exact(rows[n].fare.supplierTotal, markup), RowCounts(rows)[n], rows[n].fare.count);
    SameTimes(SupplierTotals(rows)[n], rows[n].fare.supplierTotal, RowCounts(rows)[n], rows[n].fare.count);
    assert RowCounts(rows)[..n] == RowCounts(init);
  }

  lemma {:induction false} ExactsAddUp(rows: seq<Row>, markup: Markup)
    ensures AllMarkedUp(Weighted(SupplierTotals(rows), RowCounts(rows)), Heads(RowCounts(rows)), markup, Weighted(Exacts(rows, markup), RowCounts(rows)))
  {
    if rows == [] {
      assert Exacts([], markup) == [] && SupplierTotals([]) == [] && RowCounts([]) == [];
    } else {
      var init, last := rows[..|rows| - 1], rows[|rows| - 1];
      hide Weighted, Exact, Heads, MarkedUp, AllMarkedUp;
      ExactsAddUp(init, markup);
      LastExact(rows, markup);
      ExactIsMarkedUp(last.fare.supplierTotal, markup);
      MarkedUpTogether(Weighted(SupplierTotals(init), RowCounts(init)), Heads(RowCounts(init)), Weighted(Exacts(init, markup), RowCounts(init)),
                       last.fare.supplierTotal, last.fare.count, Exact(last.fare.supplierTotal, markup), markup);
    }
  }

  lemma MarkedUpTogether(total: real, passengers: nat, exact: real, one: real, count: nat, oneExact: real, markup: Markup)
    requires AllMarkedUp(total, passengers, markup, exact) && MarkedUp(one, markup, oneExact)
    ensures AllMarkedUp(total + one * count as real, passengers + count, markup, exact + oneExact * count as real)
  {
    match markup
    case Fixed(amount) =>
      assert (passengers + count) as real == passengers as real + count as real;
      assert oneExact * count as real == one * count as real + amount * count as real;
    case Percentage(percent) =>
      assert oneExact * count as real * 100.0 == oneExact * 100.0 * count as real;
  }

  lemma RowsNearExact(counts: seq<PassengerCount>, fares: map<string, Option<Record>>, markup: Markup, rows: seq<Row>)
    requires Rows(counts, fares, Some(markup)) == Ok(rows)
    ensures forall i | 0 <= i < |rows| :: Nearest(Exact(rows[i].fare.supplierTotal, markup), rows[i].total)
    decreases |counts|
  {
    hide Nearest, Exact;
    if counts != [] {
      var n := |counts| - 1;
      var before := Rows(counts[..n], fares, Some(markup)).value;
      RowsNearExact(counts[..n], fares, markup, before);
      EntryNearExact(counts[n], FareOf(fares, counts[n].kind), markup);
    }
    hide PriceRow;
  }

  lemma EntryNearExact(entry: PassengerCount, fare: Option<Record>, markup: Markup)
    ensures var priced := PriceRow(entry, fare, Some(markup));
            priced.Ok? && priced.value.Some? ==>
              Nearest(Exact(priced.value.value.fare.supplierTotal, markup), priced.value.value.total)
  {
    var priced := PriceRow(entry, fare, Some(markup));
    if priced.Ok? && priced.value.Some? {
      ExactIsMarkedUp(priced.value.value.fare.supplierTotal, markup);
      PriceIsMarkedUp(priced.value.value.fare, markup, Exact(priced.value.value.fare.supplierTotal, markup));
    }
    hide Nearest, Exact, Price;
  }

  /** Each kind with a fare shows its own marked-up price to the nearest cent. */
  ghost predicate SellsEach(before: map<string, Option<Record>>, after: map<string, Option<Record>>, markup: Markup) {
    forall kind | kind in before && before[kind].Some? :: kind in after && SellsOne(before[kind].value, after[kind], markup)
  }

  ghost predicate SellsOne(before: Record, after: Option<Record>, markup: Markup) {
    && IsNumber(before, TotalPrice) && after.Some? && IsNumber(after.value, TotalPrice)
    && forall exact: real :: MarkedUp(before[TotalPrice].value, markup, exact) ==> Nearest(exact, after.value[TotalPrice].value)
  }

  lemma {:induction false} EveryKindHasRow(counts: seq<PassengerCount>, fares: map<string, Option<Record>>, markup: Option<Markup>, rows: seq<Row>, kind: string)
    requires Rows(counts, fares, markup) == Ok(rows) && HasKind(counts, kind) && kind in fares && fares[kind].Some?
    ensures exists i | 0 <= i < |rows| :: rows[i].kind == kind
  {
    var n := |counts| - 1;
    var before := Rows(counts[..n], fares, markup).value;
    var priced := PriceRow(counts[n], FareOf(fares, counts[n].kind), markup).value;
    if counts[n].kind == kind {
      assert rows[|before|].kind == kind;
    } else {
      var i :| 0 <= i < |counts| && counts[i].kind == kind;
      assert counts[..n][i].kind == kind;
      EveryKindHasRow(counts[..n], fares, markup, before, kind);
      var j :| 0 <= j < |before| && before[j].kind == kind;
      assert rows[j] == before[j];
    }
  }

  lemma OneMarkup(supplierTotal: real, markup: Markup, exact: real)
    requires MarkedUp(supplierTotal, markup, exact)
    ensures exact == Exact(supplierTotal, markup)
  {
  }

  lemma RowSells(row: Row, before: map<string, Option<Record>>, after: map<string, Option<Record>>, markup: Markup)
    requires RowFits(row, before) && ShowsRow(row, after) && Nearest(Exact(row.fare.supplierTotal, markup), row.total)
    ensures SellsOne(before[row.kind].value, after[row.kind], markup)
  {
    hide Nearest, Exact, MarkedUp;
    forall exact: real | MarkedUp(row.fare.supplierTotal, markup, exact) ensures exact == Exact(row.fare.supplierTotal, markup) {
      OneMarkup(row.fare.supplierTotal, markup, exact);
    }
  }

  lemma EachIsSold(counts: seq<PassengerCount>, before: map<string, Option<Record>>, after: map<string, Option<Record>>, markup: Markup,
                   rows: seq<Row>)
    requires Rows(counts, before, Some(markup)) == Ok(rows) && (forall kind | kind in before :: HasKind(counts, kind))
    requires Fitting(rows, before) && forall i | 0 <= i < |rows| :: ShowsRow(rows[i], after)
    ensures SellsEach(before, after, markup)
  {
    hide Rows, RowFits, ShowsRow, SellsOne, Nearest, Exact, HasKind;
    RowsNearExact(counts, before, markup, rows);
    forall kind | kind in before && before[kind].Some? ensures kind in after && SellsOne(before[kind].value, after[kind], markup) {
      EveryKindHasRow(counts, before, Some(markup), rows, kind);
      var i :| 0 <= i < |rows| && rows[i].kind == kind;
      RowPlaces(rows[i], before, after);
      RowSells(rows[i], before, after, markup);
    }
  }

  lemma RowPlaces(row: Row, before: map<string, Option<Record>>, after: map<string, Option<Record>>)
    requires RowFits(row, before) && ShowsRow(row, after)
    ensures row.kind in before && before[row.kind].Some? && row.kind in after
  {
  }

  lemma NearestIsClose(exact: real, amount: real)
    requires Nearest(exact, amount)
    ensures -0.005 <= amount - exact <= 0.005
  {
  }

  lemma TotalNearExact(rows: seq<Row>, markup: Markup)
    requires forall i | 0 <= i < |rows| :: Nearest(Exact(rows[i].fare.supplierTotal, markup), rows[i].total)
    ensures var heads := Heads(RowCounts(rows)) as real;
            -0.005 * heads <= Weighted(SellingTotals(rows), RowCounts(rows)) - Weighted(Exacts(rows, markup), RowCounts(rows)) <= 0.005 * heads
  {
    hide Nearest, Exact, Weighted, Heads;
    forall i | 0 <= i < |rows| ensures -0.005 <= SellingTotals(rows)[i] - Exacts(rows, markup)[i] <= 0.005 {
      NearestIsClose(Exact(rows[i].fare.supplierTotal, markup), rows[i].total);
    }
    WeightedNear(SellingTotals(rows), Exacts(rows, markup), RowCounts(rows));
  }

  /** The offer and its component show one total, this close to the exact one. */
  ghost predicate SellsAllAt(out: Offer, exact: real, slack: real) {
    && IsNumber(out.fields, TotalPrice)
    && out.components.Some? && |out.components.value| == 1 && IsNumber(out.components.value[0], TotalPrice)
    && out.components.value[0][TotalPrice] == out.fields[TotalPrice]
    && -slack <= out.fields[TotalPrice].value - exact <= slack
  }

  lemma SupplierIsWritten(offer: Offer, markup: Option<Markup>, component: Record, rows: seq<Row>)
    requires Projected(offer, markup).Ok? && offer.counts.Some? && offer.fares.Some?
    requires Rows(offer.counts.value, offer.fares.value, markup) == Ok(rows)
    ensures IsNumber(offer.fields, TotalPrice) && offer.fields[TotalPrice].value == SumsOf(rows).supplier
    ensures Heads(RowCounts(rows)) == Passengers(offer.counts.value)
  {
    hide Rows, SumsOf, SoundEntry, OverPassengers;
    ProjectedExactlyWhen(offer, markup);
    RowsOver(offer.counts.value, offer.fares.value, markup);
  }

  lemma OneTotal(supplierTotal: real, passengers: nat, markup: Markup, a: real, b: real)
    requires AllMarkedUp(supplierTotal, passengers, markup, a) && AllMarkedUp(supplierTotal, passengers, markup, b)
    ensures a == b
  {
  }

  /** A projected fare sells every passenger at the supplier's price with the markup, to the nearest cent, and the whole
   booking at the supplier's total with the markup, within half a cent a head. */
  lemma SellsMarkedUp(offer: Offer, markup: Markup, exact: real)
    requires offer.counts.Some? ==> DistinctKinds(offer.counts.value)
    requires SingleComponent(offer, markup).Ok?
    ensures offer.counts.Some? && offer.fares.Some? && IsNumber(offer.fields, TotalPrice)
    ensures var out := SingleComponent(offer, markup).value;
            && out.fares.Some? && SellsEach(offer.fares.value, out.fares.value, markup)
            && (AllMarkedUp(offer.fields[TotalPrice].value, Passengers(offer.counts.value), markup, exact) ==>
                  SellsAllAt(out, exact, 0.005 * Passengers(offer.counts.value) as real))
  {
    hide Rows, Outcome, Conclude, RowFits, ShowsRow, Nearest, Exact, MarkedUp, AllMarkedUp, SellsOne, Weighted, Heads, SumsOf, HasKind, Passengers;
    var rows := ProjectionConservesMoney(offer, Some(markup));
    var component, same := SellingParts(offer, Some(markup));
    var counts, fares := offer.counts.value, offer.fares.value;
    SupplierIsWritten(offer, Some(markup), component, rows);
    EachIsSold(counts, fares, Selling(offer, Some(markup)).value.fares.value, markup, rows);
    RowsNearExact(counts, fares, markup, rows);
    TotalNearExact(rows, markup);
    ExactsAddUp(rows, markup);
    SumsAreWeighted(rows);
    if AllMarkedUp(offer.fields[TotalPrice].value, Passengers(counts), markup, exact) {
      OneTotal(offer.fields[TotalPrice].value, Passengers(counts), markup, exact, Weighted(Exacts(rows, markup), RowCounts(rows)));
    }
  }

  // ---------------------------------------------------------------------------
  // Published gross.

  /** Base and taxes, each to the nearest cent. */
  ghost predicate PublishesOne(before: Record, after: Option<Record>) {
    && IsNumber(before, BasePrice) && IsNumber(before, TaxTotal) && after.Some? && IsNumber(after.value, TotalPrice)
    && exists base, taxes :: Nearest(before[BasePrice].value, base) && Nearest(before[TaxTotal].value, taxes) &&
                             after.value[TotalPrice].value == base + taxes
  }

  ghost predicate PublishesEach(before: map<string, Option<Record>>, after: map<string, Option<Record>>) {
    forall kind | kind in before && before[kind].Some? :: kind in after && PublishesOne(before[kind].value, after[kind])
  }

  lemma RowPublishes(row: Row, before: map<string, Option<Record>>, after: map<string, Option<Record>>)
    requires RowFits(row, before) && ShowsRow(row, after) && row.total == PublishedTotal(row.fare.base, row.fare.taxes)
    ensures PublishesOne(before[row.kind].value, after[row.kind])
  {
    hide Nearest, Round2;
    RoundIsNearest(row.fare.base);
    RoundIsNearest(row.fare.taxes);
    assert row.total == Round2(row.fare.base) + Round2(row.fare.taxes);
  }

  lemma {:induction false} RowsPublished(counts: seq<PassengerCount>, fares: map<string, Option<Record>>, rows: seq<Row>)
    requires Rows(counts, fares, None) == Ok(rows)
    ensures forall i | 0 <= i < |rows| :: rows[i].total == PublishedTotal(rows[i].fare.base, rows[i].fare.taxes)
  {
    hide PublishedTotal;
    if counts != [] {
      RowsPublished(counts[..|counts| - 1], fares, Rows(counts[..|counts| - 1], fares, None).value);
    }
  }

  /** Published gross shows every passenger base and taxes only, whatever the supplier's total. */
  lemma PublishesBaseAndTaxes(offer: Offer)
    requires offer.counts.Some? ==> DistinctKinds(offer.counts.value)
    requires PublishedGross(offer).Ok?
    ensures offer.fares.Some? && PublishedGross(offer).value.fares.Some?
    ensures PublishesEach(offer.fares.value, PublishedGross(offer).value.fares.value)
  {
    hide Rows, Outcome, Conclude, RowFits, ShowsRow, PublishesOne, Weighted, SumsOf, HasKind, PublishedTotal;
    var rows := ProjectionConservesMoney(offer, None);
    var component, same := SellingParts(offer, None);
    var fares, shown := offer.fares.value, PublishedGross(offer).value.fares.value;
    RowsPublished(offer.counts.value, fares, rows);
    forall kind | kind in fares && fares[kind].Some? ensures kind in shown && PublishesOne(fares[kind].value, shown[kind]) {
      EveryKindHasRow(offer.counts.value, fares, None, rows, kind);
      var i :| 0 <= i < |rows| && rows[i].kind == kind;
      RowPlaces(rows[i], fares, shown);
      RowPublishes(rows[i], fares, shown);
    }
  }
}
