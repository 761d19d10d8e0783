/**
 Tier shares of the discount left after supplier fare plus markup (src/tier.rs), and
 the whole B2B pipeline: published gross, snapshot, display.
 */
module TierPricing {
  import opened Wrappers
  import opened Money
  import opened Pricing
  import opened Projection
  import opened FareBreakdown

  function MarkupValue(markup: Markup): real {
    match markup
    case Fixed(amount) => amount
    case Percentage(percent) => percent
  }

  function Part(pool: real, share: int): real {
    pool * share as real / 100.0
  }

  /** The client's part of what separates published gross from the marked-up supplier fare. */
  function Commission(gross: real, marked: real, share: int): real {
    Round2(Part(gross - marked, share))
  }

  function Payable(gross: real, marked: real, share: int): real {
    gross - Commission(gross, marked, share)
  }

  function Marked(record: Record, markup: Markup): real
    requires FullyPriced(record)
  {
    Price(FareIn(record, 1), markup).total
  }

  /** One passenger kind of a snapshot; the inner none skips an absent kind. */
  function SnapshotRow(entry: PassengerCount, fare: Option<Record>, shown: Option<Record>, tiered: bool, share: int, markup: Markup)
    : Option<Option<PassengerPricing>>
  {
    if entry.count.None? then None
    else if entry.count.value == 0 then Some(None)
    else
      var record := if fare.Some? then fare.value else map[];
      var selling := if shown.Some? then shown.value else map[];
      if !IsNumber(record, TotalPrice) || !IsNumber(selling, TotalPrice) || (tiered && !FullyPriced(record)) then None
      else
        var gross := selling[TotalPrice].value;
        var commission := Commission(gross, if tiered then Marked(record, markup) else gross, share);
        if record[TotalPrice].value < 0.0 || gross < 0.0 || gross - commission < 0.0 then None
        else Some(Some(PassengerPricing(entry.kind, entry.count.value, gross, commission, gross - commission)))
  }

  function SnapshotRows(counts: seq<PassengerCount>, fares: map<string, Option<Record>>, shown: map<string, Option<Record>>, tiered: bool, share: int, markup: Markup)
    : Option<seq<PassengerPricing>>
  {
    if counts == [] then Some([])
    else
      var last := counts[|counts| - 1];
      var before :- SnapshotRows(counts[..|counts| - 1], fares, shown, tiered, share, markup);
      var row :- SnapshotRow(last, FareOf(fares, last.kind), FareOf(shown, last.kind), tiered, share, markup);
      Some(if row.Some? then before + [row.value] else before)
  }

  function Grosses(rows: seq<PassengerPricing>): (r: seq<real>) ensures |r| == |rows| { seq(|rows|, i requires 0 <= i < |rows| => rows[i].gross) }
  function Commissions(rows: seq<PassengerPricing>): (r: seq<real>) ensures |r| == |rows| { seq(|rows|, i requires 0 <= i < |rows| => rows[i].commission) }

  function FaresIn(offer: Offer): map<string, Option<Record>> {
    if offer.fares.Some? then offer.fares.value else map[]
  }

  /** Refused shares, markups and snapshots whose passengers do not add up to the gross shown. */
  function SnapshotOf(original: Offer, gross: Offer, tier: Option<Tier>, share: int, currency: string, markup: Markup): Option<SavedPricing> {
    if !(0 <= share <= 100) || (tier.None? && share != 0) || MarkupValue(markup) < 0.0 || original.counts.None? then None
    else
      var rows :- SnapshotRows(original.counts.value, FaresIn(original), FaresIn(gross), tier.Some?, share, markup);
      var total := Weighted(Grosses(rows), PaxCounts(rows));
      var commission := Weighted(Commissions(rows), PaxCounts(rows));
      if !IsNumber(gross.fields, TotalPrice) || gross.fields[TotalPrice].value != total then None
      else Some(SavedPricing(tier, share, currency, total, commission, total - commission, rows))
  }

  lemma {:induction false} SnapshotRowsFail(counts: seq<PassengerCount>, fares: map<string, Option<Record>>, shown: map<string, Option<Record>>, tiered: bool, share: int, markup: Markup, i: nat)
    requires i <= |counts| && SnapshotRows(counts[..i], fares, shown, tiered, share, markup).None?
    ensures SnapshotRows(counts, fares, shown, tiered, share, markup).None?
    decreases |counts| - i
  {
    if i < |counts| {
      assert counts[..i + 1][..i] == counts[..i];
      SnapshotRowsFail(counts, fares, shown, tiered, share, markup, i + 1);
    } else {
      assert counts[..i] == counts;
    }
  }

  lemma EmptySums()
    ensures Grosses([]) == [] && Commissions([]) == [] && PaxCounts([]) == [] && Weighted([], []) == 0.0
  {
  }

  lemma SnapshotSums(rows: seq<PassengerPricing>, pax: PassengerPricing)
    ensures var more := rows + [pax];
            && Weighted(Grosses(more), PaxCounts(more)) == Weighted(Grosses(rows), PaxCounts(rows)) + pax.gross * pax.count as real
            && Weighted(Commissions(more), PaxCounts(more)) == Weighted(Commissions(rows), PaxCounts(rows)) + pax.commission * pax.count as real
  {
    var more := rows + [pax];
    WeightedLast(Grosses(more), PaxCounts(more), Grosses(rows), PaxCounts(rows));
    WeightedLast(Commissions(more), PaxCounts(more), Commissions(rows), PaxCounts(rows));
  }

  /** Round per passenger, then multiply by the counts; enriched with its display when one exists. */
  method Snapshot(original: Offer, gross: Offer, tier: Option<Tier>, share: int, currency: string, markup: Markup)
    returns (r: Option<SavedPricing>, display: Option<Breakdown>)
    ensures r == SnapshotOf(original, gross, tier, share, currency, markup)
    ensures display == if r.Some? then BreakdownOf(r.value, FaresIn(original)) else None
  {
    hide SnapshotRow, BreakdownOf, Grosses, Commissions, PaxCounts, Weighted, MarkupValue;
    assert Weighted([], []) == 0.0 && Grosses([]) == [] && Commissions([]) == [] && PaxCounts([]) == [] by { EmptySums(); }
    if !(0 <= share <= 100) || (tier.None? && share != 0) || MarkupValue(markup) < 0.0 || original.counts.None? {
      return None, None;
    }
    var counts, fares, shown := original.counts.value, FaresIn(original), FaresIn(gross);
    var rows: seq<PassengerPricing> := [];
    var totalGross, totalCommission := 0.0, 0.0;
    for i := 0 to |counts|
      invariant SnapshotRows(counts[..i], fares, shown, tier.Some?, share, markup) == Some(rows)
      invariant totalGross == Weighted(Grosses(rows), PaxCounts(rows))
      invariant totalCommission == Weighted(Commissions(rows), PaxCounts(rows))
    {
      assert counts[..i + 1][..i] == counts[..i];
      var row := SnapshotRow(counts[i], FareOf(fares, counts[i].kind), FareOf(shown, counts[i].kind), tier.Some?, share, markup);
      if row.None? {
        SnapshotRowsFail(counts, fares, shown, tier.Some?, share, markup, i + 1);
        return None, None;
      }
      if row.value.Some? {
        var pax := row.value.value;
        SnapshotSums(rows, pax);
        totalGross := totalGross + pax.gross * pax.count as real;
        totalCommission := totalCommission + pax.commission * pax.count as real;
        rows := rows + [pax];
      }
    }
    assert counts[..|counts|] == counts;
    if !IsNumber(gross.fields, TotalPrice) || gross.fields[TotalPrice].value != totalGross {
      return None, None;
    }
    var pricing := SavedPricing(tier, share, currency, totalGross, totalCommission, totalGross - totalCommission, rows);
    display := Build(pricing, fares);
    r := Some(pricing);
  }

  // ---------------------------------------------------------------------------
  // When there is a snapshot, and what it holds.

  /** What a passenger of this kind pays. */
  function Due(fare: Record, gross: real, tiered: bool, share: int, markup: Markup): real
    requires tiered ==> FullyPriced(fare)
  {
    if tiered then Payable(gross, Marked(fare, markup), share) else gross
  }

  /** A known count and, if anyone travels, amounts that are not negative, nor is what is due. */
  predicate Pays(entry: PassengerCount, fare: Option<Record>, shown: Option<Record>, tiered: bool, share: int, markup: Markup) {
    && entry.count.Some?
    && (entry.count.value > 0 ==>
          && fare.Some? && shown.Some? && IsNumber(fare.value, TotalPrice) && IsNumber(shown.value, TotalPrice)
          && (tiered ==> FullyPriced(fare.value))
          && fare.value[TotalPrice].value >= 0.0 && shown.value[TotalPrice].value >= 0.0
          && Due(fare.value, shown.value[TotalPrice].value, tiered, share, markup) >= 0.0)
  }

  /** The row of a kind that travels: the gross shown, what is due of it, and the rest as commission. */
  predicate IsRowOf(pax: PassengerPricing, entry: PassengerCount, fare: Option<Record>, shown: Option<Record>, tiered: bool, share: int, markup: Markup) {
    && entry.count.Some? && fare.Some? && shown.Some? && IsNumber(shown.value, TotalPrice) && (tiered ==> FullyPriced(fare.value))
    && pax.kind == entry.kind && pax.count == entry.count.value && pax.gross == shown.value[TotalPrice].value
    && pax.payable == Due(fare.value, pax.gross, tiered, share, markup) && pax.commission == pax.gross - pax.payable
  }

  /** The kinds somebody of which travels. */
  function Travelling(counts: seq<PassengerCount>): seq<PassengerCount> {
    if counts == [] then []
    else
      var before, last := Travelling(counts[..|counts| - 1]), counts[|counts| - 1];
      if CountIn(last) > 0 then before + [last] else before
  }

  lemma PaysExactlyWhen(entry: PassengerCount, fare: Option<Record>, shown: Option<Record>, tiered: bool, share: int, markup: Markup)
    ensures var row := SnapshotRow(entry, fare, shown, tiered, share, markup);
            && (row.Some? <==> Pays(entry, fare, shown, tiered, share, markup))
            && (row.Some? ==> if CountIn(entry) > 0 then row.value.Some? && IsRowOf(row.value.value, entry, fare, shown, tiered, share, markup)
                              else row.value.None?)
  {
    if shown.Some? && IsNumber(shown.value, TotalPrice) {
      NothingToShare(shown.value[TotalPrice].value, share);
    }
    hide Marked, Round2;
  }

  ghost predicate RowsOf(rows: seq<PassengerPricing>, kinds: seq<PassengerCount>, fares: map<string, Option<Record>>,
                         shown: map<string, Option<Record>>, tiered: bool, share: int, markup: Markup)
  {
    |rows| == |kinds| &&
    forall i | 0 <= i < |kinds| :: IsRowOf(rows[i], kinds[i], FareOf(fares, kinds[i].kind), FareOf(shown, kinds[i].kind), tiered, share, markup)
  }

  lemma {:induction false} RowsExactlyWhen(counts: seq<PassengerCount>, fares: map<string, Option<Record>>, shown: map<string, Option<Record>>, tiered: bool, share: int, markup: Markup)
    ensures var rows := SnapshotRows(counts, fares, shown, tiered, share, markup);
            && (rows.Some? <==>
                  forall i | 0 <= i < |counts| ::
                    Pays(counts[i], FareOf(fares, counts[i].kind), FareOf(shown, counts[i].kind), tiered, share, markup))
            && (rows.Some? ==>
                  && RowsOf(rows.value, Travelling(counts), fares, shown, tiered, share, markup)
                  && Weighted(Grosses(rows.value), PaxCounts(rows.value)) == OverPassengers(counts, shown, TotalPrice))
  {
    hide SnapshotRow, Pays, IsRowOf, FareOf, Weighted, AmountIn;
    if counts == [] {
      EmptySums();
    } else {
      var n := |counts| - 1;
      var last := counts[n];
      RowsExactlyWhen(counts[..n], fares, shown, tiered, share, markup);
      PaysExactlyWhen(last, FareOf(fares, last.kind), FareOf(shown, last.kind), tiered, share, markup);
      assert forall i | 0 <= i < n :: counts[..n][i] == counts[i];
      var before := SnapshotRows(counts[..n], fares, shown, tiered, share, markup);
      var row := SnapshotRow(last, FareOf(fares, last.kind), FareOf(shown, last.kind), tiered, share, markup);
      if before.Some? && row.Some? {
        if row.value.Some? {
          OneMoreGross(counts, fares, shown, tiered, share, markup, before.value, row.value.value);
        } else {
          NobodyOver(counts, shown, TotalPrice);
        }
      }
    }
  }

  lemma OneMoreGross(counts: seq<PassengerCount>, fares: map<string, Option<Record>>, shown: map<string, Option<Record>>, tiered: bool, share: int,
                     markup: Markup, before: seq<PassengerPricing>, pax: PassengerPricing)
    requires counts != []
    requires var last := counts[|counts| - 1];
             IsRowOf(pax, last, FareOf(fares, last.kind), FareOf(shown, last.kind), tiered, share, markup)
    requires Weighted(Grosses(before), PaxCounts(before)) == OverPassengers(counts[..|counts| - 1], shown, TotalPrice)
    ensures Weighted(Grosses(before + [pax]), PaxCounts(before + [pax])) == OverPassengers(counts, shown, TotalPrice)
  {
    SnapshotSums(before, pax);
    LastOver(counts, shown, TotalPrice, OverPassengers(counts[..|counts| - 1], shown, TotalPrice), pax.gross, pax.count);
    hide Weighted, OverPassengers;
  }

  /** There is a snapshot exactly for a share within bounds, none without a tier, a markup that is not negative, known
   counts, passengers who can all be priced, and a gross total that is theirs; it has one row for every kind that travels. */
  lemma SnapshotExactlyWhen(original: Offer, gross: Offer, tier: Option<Tier>, share: int, currency: string, markup: Markup)
    ensures var r := SnapshotOf(original, gross, tier, share, currency, markup);
            && (r.Some? <==>
                  && 0 <= share <= 100 && (tier.None? ==> share == 0) && MarkupValue(markup) >= 0.0 && original.counts.Some?
                  && (forall i | 0 <= i < |original.counts.value| ::
                        var entry := original.counts.value[i];
                        Pays(entry, FareOf(FaresIn(original), entry.kind), FareOf(FaresIn(gross), entry.kind), tier.Some?, share, markup))
                  && TotalPrice in gross.fields
                  && gross.fields[TotalPrice] == Number(OverPassengers(original.counts.value, FaresIn(gross), TotalPrice)))
            && (r.Some? ==>
                  && r.value.tier == tier && r.value.share == share && r.value.currency == currency
                  && gross.fields[TotalPrice] == Number(r.value.gross)
                  && RowsOf(r.value.passengers, Travelling(original.counts.value), FaresIn(original), FaresIn(gross), tier.Some?, share, markup))
  {
    hide SnapshotRows, Pays, RowsOf, Travelling, OverPassengers, Weighted, MarkupValue, FaresIn;
    if original.counts.Some? {
      RowsExactlyWhen(original.counts.value, FaresIn(original), FaresIn(gross), tier.Some?, share, markup);
    }
  }

  // ---------------------------------------------------------------------------
  // Bounds and monotonicity of one payable.

  lemma PartOrdered(pool: real, share: int, more: int)
    requires 0 <= share <= more <= 100
    ensures pool >= 0.0 ==> 0.0 <= Part(pool, share) <= Part(pool, more) <= pool
    ensures pool <= 0.0 ==> pool <= Part(pool, more) <= Part(pool, share) <= 0.0
  {
    PartIsShare(pool, share);
    PartIsShare(pool, more);
    SharesOrdered(pool, share as real, more as real, Part(pool, share), Part(pool, more));
    hide Part;
  }

  lemma SharesOrdered(pool: real, s: real, m: real, part: real, larger: real)
    requires 0.0 <= s <= m <= 100.0 && part * 100.0 == pool * s && larger * 100.0 == pool * m
    ensures pool >= 0.0 ==> 0.0 <= part <= larger <= pool
    ensures pool <= 0.0 ==> pool <= larger <= part <= 0.0
  {
    ScaleOrdered(pool, s, m);
  }

  lemma ScaleOrdered(pool: real, s: real, m: real)
    requires 0.0 <= s <= m <= 100.0
    ensures pool >= 0.0 ==> 0.0 <= pool * s <= pool * m <= pool * 100.0
    ensures pool <= 0.0 ==> 0.0 >= pool * s >= pool * m >= pool * 100.0
  {
    SignOfProduct(pool, s);
    SignOfProduct(pool, m - s);
    SignOfProduct(pool, 100.0 - m);
    assert pool * m == pool * s + pool * (m - s);
    assert pool * 100.0 == pool * m + pool * (100.0 - m);
  }

  lemma SignOfProduct(x: real, y: real)
    requires y >= 0.0
    ensures x >= 0.0 ==> x * y >= 0.0
    ensures x <= 0.0 ==> x * y <= 0.0
  {
  }

  /** The payable lies between published gross and the rounded supplier fare plus markup. */
  lemma PayableBetween(gross: real, marked: real, share: int)
    requires Cents(gross) && Cents(marked) && 0 <= share <= 100
    ensures if marked <= gross then marked <= Payable(gross, marked, share) <= gross
            else gross <= Payable(gross, marked, share) <= marked
    ensures Cents(Payable(gross, marked, share))
    ensures gross == Commission(gross, marked, share) + Payable(gross, marked, share)
  {
    hide Part, Round2, Cents;
    var pool := gross - marked;
    var exact := Part(pool, share);
    PartOrdered(pool, share, 100);
    CentsAdd(gross, marked);
    RoundKeepsCents(pool);
    CentsOf(0.0, 0);
    RoundKeepsCents(0.0);
    if pool >= 0.0 {
      RoundMonotone(0.0, exact);
      RoundMonotone(exact, pool);
    } else {
      RoundMonotone(pool, exact);
      RoundMonotone(exact, 0.0);
    }
    RoundedIsCents(exact);
    CentsAdd(gross, Commission(gross, marked, share));
  }

  /** So many per cent of a pool. */
  predicate ShareOf(pool: real, share: int, part: real) {
    part * 100.0 == pool * share as real
  }

  /** The client keeps the share of what separates gross from the marked-up fare, to the nearest cent. */
  lemma PayableIsShared(gross: real, marked: real, share: int, part: real)
    requires ShareOf(gross - marked, share, part)
    ensures Nearest(part, gross - Payable(gross, marked, share))
  {
    assert part == Part(gross - marked, share);
    RoundIsNearest(part);
    hide Round2, Nearest;
  }

  /** A larger share moves the payable towards the marked-up supplier fare. */
  lemma PayableMonotone(gross: real, marked: real, share: int, more: int)
    requires 0 <= share <= more <= 100
    ensures if marked <= gross then Payable(gross, marked, more) <= Payable(gross, marked, share)
            else Payable(gross, marked, share) <= Payable(gross, marked, more)
  {
    hide Part, Round2;
    var pool := gross - marked;
    PartOrdered(pool, share, more);
    if pool >= 0.0 {
      RoundMonotone(Part(pool, share), Part(pool, more));
    } else {
      RoundMonotone(Part(pool, more), Part(pool, share));
    }
  }

  // ---------------------------------------------------------------------------
  // The pipeline is total.

  function PricingRow(row: Row, share: int, markup: Markup): PassengerPricing {
    var marked := Price(row.fare.(count := 1), markup).total;
    PassengerPricing(row.kind, row.fare.count, row.total, Commission(row.total, marked, share), Payable(row.total, marked, share))
  }

  /** The travelling passengers among the projected rows. */
  function PricingRows(rows: seq<Row>, share: int, markup: Markup): seq<PassengerPricing> {
    if rows == [] then []
    else
      var last := rows[|rows| - 1];
      var before := PricingRows(rows[..|rows| - 1], share, markup);
      if last.fare.count > 0 then before + [PricingRow(last, share, markup)] else before
  }

  /** Rows as published gross leaves them. */
  ghost predicate Published(row: Row) {
    && row.fare.base >= 0.0 && row.fare.taxes >= 0.0 && row.fare.supplierTotal >= 0.0
    && row.total == PublishedTotal(row.fare.base, row.fare.taxes)
  }

  lemma PublishedCents(row: Row, markup: Markup)
    requires Published(row) && MarkupValue(markup) >= 0.0
    ensures Cents(row.total) && row.total >= 0.0
    ensures var marked := Price(row.fare.(count := 1), markup).total; Cents(marked) && marked >= 0.0
  {
    RoundedIsCents(row.fare.base);
    RoundedIsCents(row.fare.taxes);
    CentsAdd(Round2(row.fare.base), Round2(row.fare.taxes));
    RoundNear(row.fare.base);
    RoundNear(row.fare.taxes);
    var exact := row.fare.supplierTotal + MarkupAmount(row.fare.supplierTotal, markup);
    RoundedIsCents(exact);
    assert exact >= 0.0;
    RoundNear(exact);
  }

  /** A published passenger always has a price snapshot. */
  lemma PublishedRowSnapshot(entry: PassengerCount, fares: map<string, Option<Record>>, shown: map<string, Option<Record>>, share: int, markup: Markup)
    requires 0 <= share <= 100 && MarkupValue(markup) >= 0.0
    requires PriceRow(entry, FareOf(fares, entry.kind), None).Ok?
    requires var row := PriceRow(entry, FareOf(fares, entry.kind), None).value; row.Some? ==> ShowsRow(row.value, shown)
    ensures var row := PriceRow(entry, FareOf(fares, entry.kind), None).value;
            SnapshotRow(entry, FareOf(fares, entry.kind), FareOf(shown, entry.kind), true, share, markup) ==
            Some(if row.Some? && row.value.fare.count > 0 then Some(PricingRow(row.value, share, markup)) else None)
    ensures var row := PriceRow(entry, FareOf(fares, entry.kind), None).value; row.Some? ==> Published(row.value)
  {
    var row := PriceRow(entry, FareOf(fares, entry.kind), None).value;
    if row.Some? {
      PublishedCents(row.value, markup);
      PayableBetween(row.value.total, Price(row.value.fare.(count := 1), markup).total, share);
    }
  }

  lemma {:induction false} PublishedRowsSnapshot(counts: seq<PassengerCount>, fares: map<string, Option<Record>>, shown: map<string, Option<Record>>, rows: seq<Row>, share: int, markup: Markup)
    requires 0 <= share <= 100 && MarkupValue(markup) >= 0.0
    requires Rows(counts, fares, None) == Ok(rows)
    requires forall i | 0 <= i < |rows| :: ShowsRow(rows[i], shown)
    ensures SnapshotRows(counts, fares, shown, true, share, markup) == Some(PricingRows(rows, share, markup))
    ensures forall i | 0 <= i < |rows| :: Published(rows[i])
  {
    hide PriceRow, SnapshotRow, PricingRow, Published, ShowsRow, FareOf;
    if counts != [] {
      var n := |counts| - 1;
      var before := Rows(counts[..n], fares, None).value;
      var priced := PriceRow(counts[n], FareOf(fares, counts[n].kind), None).value;
      assert rows == if priced.Some? then before + [priced.value] else before;
      assert forall i | 0 <= i < |before| :: rows[i] == before[i];
      PublishedRowsSnapshot(counts[..n], fares, shown, before, share, markup);
      if priced.Some? {
        assert rows[|before|] == priced.value && rows[..|before|] == before;
        OneMorePricingRow(before, priced.value, share, markup);
      }
      PublishedRowSnapshot(counts[n], fares, shown, share, markup);
      hide Rows, PricingRows;
    }
  }

  lemma OneMorePricingRow(before: seq<Row>, row: Row, share: int, markup: Markup)
    ensures PricingRows(before + [row], share, markup) ==
            PricingRows(before, share, markup) + if row.fare.count > 0 then [PricingRow(row, share, markup)] else []
  {
    hide PricingRow;
    var rows := before + [row];
    assert rows[..|rows| - 1] == before;
  }

  lemma {:induction false} PricingRowsTotal(rows: seq<Row>, share: int, markup: Markup)
    ensures var ps := PricingRows(rows, share, markup);
            Weighted(Grosses(ps), PaxCounts(ps)) == SumsOf(rows).selling
  {
    hide PricingRow;
    if rows != [] {
      var init, last := rows[..|rows| - 1], rows[|rows| - 1];
      PricingRowsTotal(init, share, markup);
      var before, after := PricingRows(init, share, markup), PricingRows(rows, share, markup);
      if last.fare.count > 0 {
        PricingRowFields(last, share, markup);
        assert after == before + [PricingRow(last, share, markup)];
        SnapshotSums(before, PricingRow(last, share, markup));
      } else {
        TimesNobody(last.total, last.fare.count);
      }
    }
  }

  lemma PricingRowFields(row: Row, share: int, markup: Markup)
    ensures var p := PricingRow(row, share, markup);
            p.kind == row.kind && p.count == row.fare.count && p.gross == row.total && p.gross == p.commission + p.payable
  {
  }

  /** Whenever published gross succeeds, every tier, share and markup has a snapshot. */
  lemma PipelineIsTotal(offer: Offer, tier: Tier, share: int, currency: string, markup: Markup) returns (rows: seq<Row>)
    requires offer.counts.Some? ==> DistinctKinds(offer.counts.value)
    requires PublishedGross(offer).Ok? && 0 <= share <= 100 && MarkupValue(markup) >= 0.0
    ensures offer.counts.Some? && offer.fares.Some? && Rows(offer.counts.value, offer.fares.value, None) == Ok(rows)
    ensures forall i | 0 <= i < |rows| :: Published(rows[i])
    ensures var r := SnapshotOf(offer, PublishedGross(offer).value, Some(tier), share, currency, markup);
            r.Some? && r.value.tier == Some(tier) && r.value.passengers == PricingRows(rows, share, markup)
  {
    hide Selling, Rows, SnapshotRows, ShowsRow;
    rows := ProjectionConservesMoney(offer, None);
    var gross := Selling(offer, None).value;
    PublishedRowsSnapshot(offer.counts.value, offer.fares.value, gross.fares.value, rows, share, markup);
    PricingRowsTotal(rows, share, markup);
    SumsAreWeighted(rows);
  }

  /** Passengers of a snapshot add up to its payable. */
  lemma SnapshotPayableAddsUp(original: Offer, gross: Offer, tier: Option<Tier>, share: int, currency: string, markup: Markup)
    requires SnapshotOf(original, gross, tier, share, currency, markup).Some?
    ensures var r := SnapshotOf(original, gross, tier, share, currency, markup).value;
            && r.payable == Weighted(Payables(r.passengers), PaxCounts(r.passengers))
            && r.gross == r.commission + r.payable
            && forall i | 0 <= i < |r.passengers| :: r.passengers[i].gross == r.passengers[i].commission + r.passengers[i].payable
  {
    var r := SnapshotOf(original, gross, tier, share, currency, markup).value;
    SnapshotRowsSplit(original.counts.value, FaresIn(original), FaresIn(gross), tier.Some?, share, markup);
    WeightedSum(Commissions(r.passengers), Payables(r.passengers), Grosses(r.passengers), PaxCounts(r.passengers));
  }

  lemma {:induction false} SnapshotRowsSplit(counts: seq<PassengerCount>, fares: map<string, Option<Record>>, shown: map<string, Option<Record>>, tiered: bool, share: int, markup: Markup)
    requires SnapshotRows(counts, fares, shown, tiered, share, markup).Some?
    ensures var rows := SnapshotRows(counts, fares, shown, tiered, share, markup).value;
            forall i | 0 <= i < |rows| :: rows[i].gross == rows[i].commission + rows[i].payable
  {
    if counts != [] {
      SnapshotRowsSplit(counts[..|counts| - 1], fares, shown, tiered, share, markup);
    }
  }

  /** A published passenger can be displayed exactly when its rounded AIT is not negative. */
  lemma PublishedRowDisplays(row: Row, fares: map<string, Option<Record>>, share: int, markup: Markup)
    requires Published(row) && RowFits(row, fares) && row.fare.count > 0
    requires 0 <= share <= 100 && MarkupValue(markup) >= 0.0
    ensures DisplayRow(PricingRow(row, share, markup), FareOf(fares, row.kind)).Some? <==> Round2(row.fare.ait) >= 0.0
  {
    PublishedCents(row, markup);
    PayableBetween(row.total, Price(row.fare.(count := 1), markup).total, share);
    RoundNear(row.fare.base);
    RoundNear(row.fare.taxes);
  }

  ghost predicate AitsShowable(rows: seq<Row>) {
    forall i | 0 <= i < |rows| && rows[i].fare.count > 0 :: Round2(rows[i].fare.ait) >= 0.0
  }

  lemma {:induction false} PublishedRowsDisplay(rows: seq<Row>, fares: map<string, Option<Record>>, share: int, markup: Markup)
    requires forall i | 0 <= i < |rows| :: Published(rows[i]) && RowFits(rows[i], fares)
    requires 0 <= share <= 100 && MarkupValue(markup) >= 0.0
    ensures DisplayRows(PricingRows(rows, share, markup), fares).Some? <==> AitsShowable(rows)
  {
    hide DisplayRow, Published, RowFits, PricingRow, Round2;
    if rows != [] {
      var init, last := rows[..|rows| - 1], rows[|rows| - 1];
      PublishedRowsDisplay(init, fares, share, markup);
      assert AitsShowable(rows) <==> AitsShowable(init) && (last.fare.count > 0 ==> Round2(last.fare.ait) >= 0.0);
      var before, after := PricingRows(init, share, markup), PricingRows(rows, share, markup);
      if last.fare.count > 0 {
        PublishedRowDisplays(last, fares, share, markup);
        PricingRowFields(last, share, markup);
        assert after == before + [PricingRow(last, share, markup)];
        assert after[..|after| - 1] == before;
      }
    }
  }

  /** After a successful snapshot of published gross the display exists iff every counted rounded AIT is not negative. */
  lemma DisplayExistsIff(offer: Offer, tier: Tier, share: int, currency: string, markup: Markup)
    requires offer.counts.Some? ==> DistinctKinds(offer.counts.value)
    requires PublishedGross(offer).Ok? && 0 <= share <= 100 && MarkupValue(markup) >= 0.0
    ensures var r := SnapshotOf(offer, PublishedGross(offer).value, Some(tier), share, currency, markup);
            && r.Some? && offer.counts.Some? && offer.fares.Some?
            && Rows(offer.counts.value, offer.fares.value, None).Ok?
            && (BreakdownOf(r.value, offer.fares.value).Some? <==> AitsShowable(Rows(offer.counts.value, offer.fares.value, None).value))
  {
    hide Selling, Rows, SnapshotRows, AitsShowable, PricingRows, Published, DisplayRows;
    var rows := PipelineIsTotal(offer, tier, share, currency, markup);
    var gross := PublishedGross(offer).value;
    var r := SnapshotOf(offer, gross, Some(tier), share, currency, markup).value;
    SnapshotPayableAddsUp(offer, gross, Some(tier), share, currency, markup);
    RowsFit(offer.counts.value, offer.fares.value, None, rows);
    PublishedRowsDisplay(rows, offer.fares.value, share, markup);
    var displays := DisplayRows(r.passengers, offer.fares.value);
    if displays.Some? {
      DisplayKeepsPayable(r.passengers, offer.fares.value, displays.value);
    }
  }

  // ---------------------------------------------------------------------------
  // Totals of the pipeline.

  function MarkedTotal(row: Row, markup: Markup): real {
    Price(row.fare.(count := 1), markup).total
  }

  function RowPayables(rows: seq<Row>, share: int, markup: Markup): (r: seq<real>) ensures |r| == |rows| {
    seq(|rows|, i requires 0 <= i < |rows| => Payable(rows[i].total, MarkedTotal(rows[i], markup), share))
  }

  /** The payables before the client's part is rounded. */
  function ExactPayables(rows: seq<Row>, share: int, markup: Markup): (r: seq<real>) ensures |r| == |rows| {
    seq(|rows|, i requires 0 <= i < |rows| => ExactPayable(rows[i], share, markup))
  }

  lemma {:induction false} PricingRowsPayable(rows: seq<Row>, share: int, markup: Markup)
    ensures var ps := PricingRows(rows, share, markup);
            Weighted(Payables(ps), PaxCounts(ps)) == Weighted(RowPayables(rows, share, markup), RowCounts(rows))
  {
    hide Payable, MarkedTotal, Commission, Weighted, PricingRow;
    assert Weighted([], []) == 0.0 by { EmptySums(); }
    if rows == [] {
      assert Payables([]) == [] && PaxCounts([]) == [] && RowPayables([], share, markup) == [] && RowCounts([]) == [];
    } else {
      var init, last := rows[..|rows| - 1], rows[|rows| - 1];
      PricingRowsPayable(init, share, markup);
      var before, after := PricingRows(init, share, markup), PricingRows(rows, share, markup);
      var payable := Payable(last.total, MarkedTotal(last, markup), share);
      assert RowPayables(rows, share, markup) == RowPayables(init, share, markup) + [payable];
      assert RowCounts(rows) == RowCounts(init) + [last.fare.count];
      WeightedLast(RowPayables(rows, share, markup), RowCounts(rows), RowPayables(init, share, markup), RowCounts(init));
      if last.fare.count > 0 {
        PricingRowIsPayable(last, share, markup);
        assert Payables(after) == Payables(before) + [payable];
        assert PaxCounts(after) == PaxCounts(before) + [last.fare.count];
        WeightedLast(Payables(after), PaxCounts(after), Payables(before), PaxCounts(before));
      } else {
        TimesNobody(payable, last.fare.count);
      }
    }
  }

  lemma TimesNobody(x: real, n: nat)
    requires n == 0
    ensures x * n as real == 0.0
  {
  }

  lemma PricingRowIsPayable(row: Row, share: int, markup: Markup)
    ensures var p := PricingRow(row, share, markup);
            p.payable == Payable(row.total, MarkedTotal(row, markup), share) && p.count == row.fare.count
  {
  }

  lemma InterpolatedOne(row: Row, share: int, markup: Markup)
    ensures Interpolated(ExactPayable(row, share, markup) * row.fare.count as real, row.total * row.fare.count as real,
                         MarkedTotal(row, markup) * row.fare.count as real, share)
  {
    hide MarkedTotal;
    var marked := MarkedTotal(row, markup);
    var part := Part(row.total - marked, share);
    PartIsShare(row.total - marked, share);
    hide Part;
    Distributed(row.total, marked, part, ExactPayable(row, share, markup), share as real, row.fare.count as real, (100 - share) as real);
  }

  lemma PartIsShare(pool: real, share: int)
    ensures ShareOf(pool, share, Part(pool, share))
  {
  }

  lemma Distributed(total: real, marked: real, part: real, exact: real, s: real, n: real, rest: real)
    requires part * 100.0 == (total - marked) * s && exact == total - part && rest == 100.0 - s
    ensures 100.0 * (exact * n) == rest * (total * n) + s * (marked * n)
  {
    assert 100.0 * exact == rest * total + s * marked;
    assert 100.0 * (exact * n) == (100.0 * exact) * n;
    assert (rest * total + s * marked) * n == rest * (total * n) + s * (marked * n);
  }

  function ExactPayable(row: Row, share: int, markup: Markup): real {
    row.total - Part(row.total - MarkedTotal(row, markup), share)
  }

  lemma LastWeighted(amounts: seq<real>, counts: seq<nat>, init: seq<real>, initCounts: seq<nat>, x: real, m: nat)
    requires |amounts| == |counts| == |init| + 1 == |initCounts| + 1
    requires amounts[..|init|] == init && counts[..|init|] == initCounts && amounts[|init|] == x && counts[|init|] == m
    ensures Weighted(amounts, counts) == Weighted(init, initCounts) + x * m as real
  {
    WeightedLast(amounts, counts, init, initCounts);
    SameTimes(amounts[|init|], x, counts[|init|], m);
    hide Weighted;
  }

  lemma LastExactPayable(rows: seq<Row>, share: int, markup: Markup)
    requires rows != []
    ensures var init, last := rows[..|rows| - 1], rows[|rows| - 1];
            Weighted(ExactPayables(rows, share, markup), RowCounts(rows)) ==
            Weighted(ExactPayables(init, share, markup), RowCounts(init)) + ExactPayable(last, share, markup) * last.fare.count as real
  {
    hide Weighted, ExactPayable;
    var n := |rows| - 1;
    LastWeighted(ExactPayables(rows, share, markup), RowCounts(rows), ExactPayables(rows[..n], share, markup), RowCounts(rows[..n]),
                 ExactPayable(rows[n], share, markup), rows[n].fare.count);
  }

  lemma LastSelling(rows: seq<Row>)
    requires rows != []
    ensures var init, last := rows[..|rows| - 1], rows[|rows| - 1];
            Weighted(SellingTotals(rows), RowCounts(rows)) ==
            Weighted(SellingTotals(init), RowCounts(init)) + last.total * last.fare.count as real
  {
    hide Weighted;
    var n := |rows| - 1;
    LastWeighted(SellingTotals(rows), RowCounts(rows), SellingTotals(rows[..n]), RowCounts(rows[..n]), rows[n].total, rows[n].fare.count);
  }

  lemma LastMarked(rows: seq<Row>, markup: Markup)
    requires rows != []
    ensures var init, last := rows[..|rows| - 1], rows[|rows| - 1];
            Weighted(MarkedTotals(rows, markup), RowCounts(rows)) ==
            Weighted(MarkedTotals(init, markup), RowCounts(init)) + MarkedTotal(last, markup) * last.fare.count as real
  {
    hide Weighted, MarkedTotal;
    var n := |rows| - 1;
    LastWeighted(MarkedTotals(rows, markup), RowCounts(rows), MarkedTotals(rows[..n], markup), RowCounts(rows[..n]),
                 MarkedTotal(rows[n], markup), rows[n].fare.count);
  }

  /** An amount the share, in per cent, of the way from gross to marked. */
  predicate Interpolated(amount: real, gross: real, marked: real, share: int) {
    100.0 * amount == (100 - share) as real * gross + share as real * marked
  }

  /** The exact payable lies share per cent of the way from gross to the marked-up fares. */
  lemma {:induction false} InterpolationAddsUp(rows: seq<Row>, share: int, markup: Markup)
    ensures Interpolated(Weighted(ExactPayables(rows, share, markup), RowCounts(rows)), Weighted(SellingTotals(rows), RowCounts(rows)),
                         Weighted(MarkedTotals(rows, markup), RowCounts(rows)), share)
  {
    if rows == [] {
      NobodyInterpolated(rows, share, markup);
    } else {
      InterpolationAddsUp(rows[..|rows| - 1], share, markup);
      InterpolationStep(rows, share, markup);
    }
    hide *;
  }

  lemma NobodyInterpolated(rows: seq<Row>, share: int, markup: Markup)
    requires rows == []
    ensures Interpolated(Weighted(ExactPayables(rows, share, markup), RowCounts(rows)), Weighted(SellingTotals(rows), RowCounts(rows)),
                         Weighted(MarkedTotals(rows, markup), RowCounts(rows)), share)
  {
    assert ExactPayables(rows, share, markup) == [] && SellingTotals(rows) == [] && MarkedTotals(rows, markup) == [] && RowCounts(rows) == [];
  }

  lemma InterpolationStep(rows: seq<Row>, share: int, markup: Markup)
    requires rows != []
    requires var init := rows[..|rows| - 1];
             Interpolated(Weighted(ExactPayables(init, share, markup), RowCounts(init)), Weighted(SellingTotals(init), RowCounts(init)),
                          Weighted(MarkedTotals(init, markup), RowCounts(init)), share)
    ensures Interpolated(Weighted(ExactPayables(rows, share, markup), RowCounts(rows)), Weighted(SellingTotals(rows), RowCounts(rows)),
                         Weighted(MarkedTotals(rows, markup), RowCounts(rows)), share)
  {
    hide Weighted, MarkedTotal, Part, ExactPayable, Interpolated;
    var init, last := rows[..|rows| - 1], rows[|rows| - 1];
    LastExactPayable(rows, share, markup);
    LastSelling(rows);
    LastMarked(rows, markup);
    InterpolatedOne(last, share, markup);
    AddInterpolated(Weighted(ExactPayables(init, share, markup), RowCounts(init)), Weighted(SellingTotals(init), RowCounts(init)),
                    Weighted(MarkedTotals(init, markup), RowCounts(init)), ExactPayable(last, share, markup) * last.fare.count as real,
                    last.total * last.fare.count as real, MarkedTotal(last, markup) * last.fare.count as real,
                    Weighted(ExactPayables(rows, share, markup), RowCounts(rows)), Weighted(SellingTotals(rows), RowCounts(rows)),
                    Weighted(MarkedTotals(rows, markup), RowCounts(rows)), share);
  }

  lemma AddInterpolated(a: real, b: real, c: real, x: real, y: real, z: real, amount: real, gross: real, marked: real, share: int)
    requires Interpolated(a, b, c, share) && Interpolated(x, y, z, share)
    requires amount == a + x && gross == b + y && marked == c + z
    ensures Interpolated(amount, gross, marked, share)
  {
    var t, s := (100 - share) as real, share as real;
    assert t * gross == t * b + t * y && s * marked == s * c + s * z;
  }

  /** A marked-up fare is the supplier's with the markup, to the nearest cent. */
  lemma MarkedIsNearest(row: Row, markup: Markup, exact: real)
    requires MarkedUp(row.fare.supplierTotal, markup, exact)
    ensures Nearest(exact, MarkedTotal(row, markup))
  {
    PriceIsMarkedUp(row.fare.(count := 1), markup, exact);
    hide Nearest, Price;
  }

  /** The snapshot's payable is the weighted sum of the passengers' payables, and within half a cent a head it lies share
   per cent of the way from the published gross to the marked-up supplier fares. */
  lemma PipelinePayable(offer: Offer, tier: Tier, share: int, currency: string, markup: Markup) returns (rows: seq<Row>)
    requires offer.counts.Some? ==> DistinctKinds(offer.counts.value)
    requires PublishedGross(offer).Ok? && 0 <= share <= 100 && MarkupValue(markup) >= 0.0
    ensures offer.counts.Some? && offer.fares.Some? && Rows(offer.counts.value, offer.fares.value, None) == Ok(rows)
    ensures forall i | 0 <= i < |rows| :: Published(rows[i])
    ensures var r := SnapshotOf(offer, PublishedGross(offer).value, Some(tier), share, currency, markup);
            && r.Some? && r.value.payable == Weighted(RowPayables(rows, share, markup), RowCounts(rows))
            && var target := (100 - share) as real * Weighted(SellingTotals(rows), RowCounts(rows)) +
                             share as real * Weighted(MarkedTotals(rows, markup), RowCounts(rows));
               -0.5 * Heads(RowCounts(rows)) as real <= 100.0 * r.value.payable - target <= 0.5 * Heads(RowCounts(rows)) as real
  {
    hide Selling, Rows, SnapshotRows, PricingRows, Published, Round2, Part, MarkedTotal, Weighted, Heads;
    rows := PipelineIsTotal(offer, tier, share, currency, markup);
    InterpolationAddsUp(rows, share, markup);
    var gross := PublishedGross(offer).value;
    SnapshotPayableAddsUp(offer, gross, Some(tier), share, currency, markup);
    PricingRowsPayable(rows, share, markup);
    var payables, exact := RowPayables(rows, share, markup), ExactPayables(rows, share, markup);
    forall i | 0 <= i < |rows|
      ensures -0.005 <= payables[i] - exact[i] <= 0.005
    {
      RoundNear(Part(rows[i].total - MarkedTotal(rows[i], markup), share));
    }
    WeightedNear(payables, exact, RowCounts(rows));
  }

  /** One booking priced for two shares. */
  ghost predicate PricedTwice(offer: Offer, rows: seq<Row>, a: Option<SavedPricing>, b: Option<SavedPricing>,
                              share: int, more: int, markup: Markup)
  {
    && a.Some? && b.Some? && a.value.gross == b.value.gross
    && offer.counts.Some? && offer.fares.Some? && Rows(offer.counts.value, offer.fares.value, None) == Ok(rows)
    && a.value.payable == Weighted(RowPayables(rows, share, markup), RowCounts(rows))
    && b.value.payable == Weighted(RowPayables(rows, more, markup), RowCounts(rows))
    && forall i | 0 <= i < |rows| :: Published(rows[i])
  }

  lemma TwoShares(offer: Offer, tier: Tier, moreTier: Tier, share: int, more: int, currency: string, markup: Markup)
    returns (rows: seq<Row>)
    requires offer.counts.Some? ==> DistinctKinds(offer.counts.value)
    requires PublishedGross(offer).Ok? && 0 <= share <= 100 && 0 <= more <= 100 && MarkupValue(markup) >= 0.0
    ensures var gross := PublishedGross(offer).value;
            PricedTwice(offer, rows, SnapshotOf(offer, gross, Some(tier), share, currency, markup),
                        SnapshotOf(offer, gross, Some(moreTier), more, currency, markup), share, more, markup)
  {
    hide Selling, Rows, SnapshotRows, Published, Payable, MarkedTotal, Heads, RowPayables;
    rows := PipelinePayable(offer, tier, share, currency, markup);
    var same := PipelinePayable(offer, moreTier, more, currency, markup);
    SnapshotGross(offer, tier, share, currency, markup);
    SnapshotGross(offer, moreTier, more, currency, markup);
  }

  lemma PayablesOrdered(rows: seq<Row>, share: int, more: int, markup: Markup)
    requires 0 <= share <= more <= 100
    ensures var a, b := Weighted(RowPayables(rows, share, markup), RowCounts(rows)), Weighted(RowPayables(rows, more, markup), RowCounts(rows));
            && ((forall i | 0 <= i < |rows| :: MarkedTotal(rows[i], markup) <= rows[i].total) ==> b <= a)
            && ((forall i | 0 <= i < |rows| :: rows[i].total <= MarkedTotal(rows[i], markup)) ==> a <= b)
  {
    hide Payable, MarkedTotal, Weighted;
    var a, b := RowPayables(rows, share, markup), RowPayables(rows, more, markup);
    forall i | 0 <= i < |rows|
      ensures if MarkedTotal(rows[i], markup) <= rows[i].total then b[i] <= a[i] else a[i] <= b[i]
      ensures rows[i].total <= MarkedTotal(rows[i], markup) ==> a[i] <= b[i]
    {
      PayableMonotone(rows[i].total, MarkedTotal(rows[i], markup), share, more);
      if rows[i].total == MarkedTotal(rows[i], markup) {
        NothingToShare(rows[i].total, share);
        NothingToShare(rows[i].total, more);
      }
    }
    if forall i | 0 <= i < |rows| :: MarkedTotal(rows[i], markup) <= rows[i].total {
      WeightedMonotone(b, a, RowCounts(rows));
    }
    if forall i | 0 <= i < |rows| :: rows[i].total <= MarkedTotal(rows[i], markup) {
      WeightedMonotone(a, b, RowCounts(rows));
    }
  }

  lemma NothingToShare(gross: real, share: int)
    ensures Payable(gross, gross, share) == gross
  {
    assert Part(0.0, share) == 0.0;
    CentsOf(0.0, 0);
    RoundKeepsCents(0.0);
    hide Round2, Part;
  }

  lemma {:induction false} UntieredRows(counts: seq<PassengerCount>, fares: map<string, Option<Record>>, shown: map<string, Option<Record>>, share: int, markup: Markup)
    requires SnapshotRows(counts, fares, shown, false, share, markup).Some?
    ensures var rows := SnapshotRows(counts, fares, shown, false, share, markup).value;
            forall i | 0 <= i < |rows| :: rows[i].commission == 0.0 && rows[i].payable == rows[i].gross
  {
    if counts != [] {
      var last := counts[|counts| - 1];
      UntieredRows(counts[..|counts| - 1], fares, shown, share, markup);
      var selling := FareOf(shown, last.kind);
      if selling.Some? && IsNumber(selling.value, TotalPrice) {
        NothingToShare(selling.value[TotalPrice].value, share);
      }
    }
    hide Payable, Round2;
  }

  /** Without a tier nothing is shared: every passenger and the whole booking pay the gross. */
  lemma UntieredPaysGross(original: Offer, gross: Offer, share: int, currency: string, markup: Markup)
    requires SnapshotOf(original, gross, None, share, currency, markup).Some?
    ensures share == 0
    ensures var r := SnapshotOf(original, gross, None, share, currency, markup).value;
            && r.commission == 0.0 && r.payable == r.gross
            && forall i | 0 <= i < |r.passengers| :: r.passengers[i].payable == r.passengers[i].gross
  {
    var rows := SnapshotRows(original.counts.value, FaresIn(original), FaresIn(gross), false, share, markup).value;
    UntieredRows(original.counts.value, FaresIn(original), FaresIn(gross), share, markup);
    WeightedConstant(0.0, Commissions(rows), PaxCounts(rows));
    hide SnapshotRows, Weighted;
  }

  /** Where every passenger keeps a discount a larger share never costs more, and where none does never less. */
  lemma LargerShareCostsLess(offer: Offer, tier: Tier, moreTier: Tier, share: int, more: int, currency: string, markup: Markup)
    returns (rows: seq<Row>)
    requires offer.counts.Some? ==> DistinctKinds(offer.counts.value)
    requires PublishedGross(offer).Ok? && 0 <= share <= more <= 100 && MarkupValue(markup) >= 0.0
    ensures var gross := PublishedGross(offer).value;
            var a, b := SnapshotOf(offer, gross, Some(tier), share, currency, markup), SnapshotOf(offer, gross, Some(moreTier), more, currency, markup);
            && PricedTwice(offer, rows, a, b, share, more, markup)
            && ((forall i | 0 <= i < |rows| :: MarkedTotal(rows[i], markup) <= rows[i].total) ==> b.value.payable <= a.value.payable)
            && ((forall i | 0 <= i < |rows| :: rows[i].total <= MarkedTotal(rows[i], markup)) ==> a.value.payable <= b.value.payable)
  {
    rows := TwoShares(offer, tier, moreTier, share, more, currency, markup);
    PayablesOrdered(rows, share, more, markup);
    hide SnapshotOf, PublishedGross, MarkedTotal, RowPayables, Published;
  }

  function MarkedTotals(rows: seq<Row>, markup: Markup): (r: seq<real>)
    ensures |r| == |rows|
  {
    seq(|rows|, i requires 0 <= i < |rows| => MarkedTotal(rows[i], markup))
  }

  lemma ExtremePayables(rows: seq<Row>, markup: Markup)
    requires MarkupValue(markup) >= 0.0 && forall i | 0 <= i < |rows| :: Published(rows[i])
    ensures RowPayables(rows, 0, markup) == SellingTotals(rows)
    ensures RowPayables(rows, 100, markup) == MarkedTotals(rows, markup)
  {
    forall i | 0 <= i < |rows|
      ensures Payable(rows[i].total, MarkedTotal(rows[i], markup), 0) == rows[i].total
      ensures Payable(rows[i].total, MarkedTotal(rows[i], markup), 100) == MarkedTotal(rows[i], markup)
    {
      PublishedCents(rows[i], markup);
      ExtremePayable(rows[i].total, MarkedTotal(rows[i], markup));
    }
    hide Payable, Published;
  }

  lemma ExtremePayable(gross: real, marked: real)
    requires Cents(gross) && Cents(marked)
    ensures Payable(gross, marked, 0) == gross && Payable(gross, marked, 100) == marked
  {
    assert Part(gross - marked, 0) == 0.0 && Part(gross - marked, 100) == gross - marked;
    CentsOf(0.0, 0);
    RoundKeepsCents(0.0);
    CentsAdd(gross, marked);
    RoundKeepsCents(gross - marked);
    hide Round2, Part, Cents;
  }

  /** No share pays the gross, the whole share the marked-up fares; the whole share costs no more exactly when those add up to no more. */
  lemma WholeShareCostsLessIff(offer: Offer, tier: Tier, moreTier: Tier, currency: string, markup: Markup) returns (rows: seq<Row>)
    requires offer.counts.Some? ==> DistinctKinds(offer.counts.value)
    requires PublishedGross(offer).Ok? && MarkupValue(markup) >= 0.0
    ensures var gross := PublishedGross(offer).value;
            var none, whole := SnapshotOf(offer, gross, Some(tier), 0, currency, markup), SnapshotOf(offer, gross, Some(moreTier), 100, currency, markup);
            && PricedTwice(offer, rows, none, whole, 0, 100, markup)
            && none.value.payable == Weighted(SellingTotals(rows), RowCounts(rows))
            && whole.value.payable == Weighted(MarkedTotals(rows, markup), RowCounts(rows))
            && (whole.value.payable <= none.value.payable <==>
                  Weighted(MarkedTotals(rows, markup), RowCounts(rows)) <= Weighted(SellingTotals(rows), RowCounts(rows)))
  {
    rows := TwoShares(offer, tier, moreTier, 0, 100, currency, markup);
    ExtremePayables(rows, markup);
    hide SnapshotOf, PublishedGross, MarkedTotal, RowPayables, Published;
  }

  lemma SnapshotGross(offer: Offer, tier: Tier, share: int, currency: string, markup: Markup)
    requires PublishedGross(offer).Ok?
    ensures var gross := PublishedGross(offer).value;
            var r := SnapshotOf(offer, gross, Some(tier), share, currency, markup);
            r.Some? ==> IsNumber(gross.fields, TotalPrice) && r.value.gross == gross.fields[TotalPrice].value
  {
    hide Selling;
  }
}
