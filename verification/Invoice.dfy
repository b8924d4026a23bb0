/** `invoice`: GST per line and the totals, in exact arithmetic. Amounts are in paise. */
module Invoice {

  /** The part of a line the computation reads and fills. */
  datatype LineItem = LineItem(
    taxable: real, cgstPct: real, sgstPct: real, igstPct: real,
    cgst: real, sgst: real, igst: real, total: real)

  // ----- Rounding -----

  /** Go's conversion to `int`: towards zero. */
  function Truncated(x: real): int {
    if x >= 0.0 then x.Floor else -((-x).Floor)
  }

  /** `round2` */
  function Round(x: real): real {
    Truncated(x + 0.5) as real
  }

  predicate Whole(x: real) {
    x == x.Floor as real
  }

  function Abs(x: real): real {
    if x < 0.0 then -x else x
  }

  lemma FloorOfWhole(n: int)
    ensures (n as real).Floor == n && ((n as real) + 0.5).Floor == n
  {
  }

  /** Rounding leaves whole paise alone, unless they are negative: then it adds one. */
  lemma RoundOfWhole(x: real)
    requires Whole(x)
    ensures Round(x) == if x < 0.0 then x + 1.0 else x
  {
    var n := x.Floor;
    FloorOfWhole(n);
    FloorOfWhole(-n - 1);
    assert -(x + 0.5) == ((-n - 1) as real) + 0.5;
  }

  lemma RoundIsWhole(x: real)
    ensures Whole(Round(x))
  {
    FloorOfWhole(Truncated(x + 0.5));
  }

  /** Rounding is off by no more than half a paisa, exactly for what is not below minus a half, or lies
      halfway between two paise. */
  lemma RoundErrorExactly(x: real)
    ensures Abs(Round(x) - x) <= 0.5 <==> x >= -0.5 || Whole(x + 0.5)
  {
    NegatedWhole(x + 0.5);
  }

  function Times(x: real, y: real): real {
    x * y
  }

  /** `r` is `pct` hundredths of `x`, rounded: whole, no further off than half, unless they are below minus a half,
      when it is between a half and one and a half too high. */
  ghost predicate Rounds(r: real, x: real, pct: real) {
    var y := Times(x, pct);
    Whole(r) && if y >= -50.0 then -50.0 < 100.0 * r - y <= 50.0 else 50.0 <= 100.0 * r - y < 150.0
  }

  lemma RoundRounds(x: real)
    ensures Rounds(Round(x), x, 100.0)
  {
    RoundIsWhole(x);
  }

  /** There is only one such number. */
  lemma RoundsToOne(r: real, q: real, x: real, pct: real)
    requires Rounds(r, x, pct) && Rounds(q, x, pct)
    ensures r == q
  {
    assert r.Floor == q.Floor;
  }

  lemma NegatedWhole(x: real)
    ensures Whole(-x) <==> Whole(x)
  {
    FloorOfWhole(-x.Floor);
    FloorOfWhole(-(-x).Floor);
    assert Whole(x) ==> -x == (-x.Floor) as real;
    assert Whole(-x) ==> x == (-(-x).Floor) as real;
  }

  // ----- Columns -----

  function Taxable(it: LineItem): real { it.taxable }
  function Cgst(it: LineItem): real { it.cgst }
  function Sgst(it: LineItem): real { it.sgst }
  function Igst(it: LineItem): real { it.igst }
  function Total(it: LineItem): real { it.total }

  function Sum(items: seq<LineItem>, f: LineItem -> real): real {
    if items == [] then 0.0 else Sum(items[..|items| - 1], f) + f(items[|items| - 1])
  }

  lemma SumSnoc(items: seq<LineItem>, i: nat, f: LineItem -> real)
    requires i < |items|
    ensures Sum(items[..i + 1], f) == Sum(items[..i], f) + f(items[i])
  {
    assert items[..i + 1][..i] == items[..i];
  }

  lemma SumsSnoc(items: seq<LineItem>, i: nat)
    requires i < |items|
    ensures Sum(items[..i + 1], Taxable) == Sum(items[..i], Taxable) + items[i].taxable
    ensures Sum(items[..i + 1], Cgst) == Sum(items[..i], Cgst) + items[i].cgst
    ensures Sum(items[..i + 1], Sgst) == Sum(items[..i], Sgst) + items[i].sgst
    ensures Sum(items[..i + 1], Igst) == Sum(items[..i], Igst) + items[i].igst
  {
    SumSnoc(items, i, Taxable);
    SumSnoc(items, i, Cgst);
    SumSnoc(items, i, Sgst);
    SumSnoc(items, i, Igst);
  }

  function Percent(x: real, pct: real): real {
    x * pct / 100.0
  }

  /** The line as tax law fills it: one tax between states, two within one. */
  function Taxed(interstate: bool, it: LineItem): LineItem {
    if interstate then
      var tax := Round(Percent(it.taxable, it.igstPct));
      it.(cgst := 0.0, sgst := 0.0, igst := tax, total := Round(it.taxable + tax))
    else
      var c, s := Round(Percent(it.taxable, it.cgstPct)), Round(Percent(it.taxable, it.sgstPct));
      it.(igst := 0.0, cgst := c, sgst := s, total := Round(it.taxable + c + s))
  }

  lemma TaxedTwice(interstate: bool, it: LineItem)
    ensures Taxed(interstate, Taxed(interstate, it)) == Taxed(interstate, it)
  {
    hide Round, Percent;
  }

  /** The same said without formulas: the rates, which tax falls due, and how everything is rounded. */
  ghost predicate Charged(interstate: bool, before: LineItem, it: LineItem) {
    && it.taxable == before.taxable && it.cgstPct == before.cgstPct && it.sgstPct == before.sgstPct
    && it.igstPct == before.igstPct
    && (if interstate then it.cgst == it.sgst == 0.0 && Rounds(it.igst, before.taxable, before.igstPct)
        else it.igst == 0.0 && Rounds(it.cgst, before.taxable, before.cgstPct)
             && Rounds(it.sgst, before.taxable, before.sgstPct))
    && Rounds(it.total, it.taxable + it.cgst + it.sgst + it.igst, 100.0)
  }

  lemma TaxedIsCharged(interstate: bool, it: LineItem)
    ensures Charged(interstate, it, Taxed(interstate, it))
  {
    PercentRounds(it.taxable, it.cgstPct);
    PercentRounds(it.taxable, it.sgstPct);
    PercentRounds(it.taxable, it.igstPct);
    hide Round, Percent, Rounds;
    var t := Taxed(interstate, it);
    var sum := t.taxable + t.cgst + t.sgst + t.igst;
    RoundRounds(sum);
    assert sum == it.taxable + (if interstate then t.igst else t.cgst + t.sgst);
    assert t.total == Round(sum);
  }

  lemma PercentRounds(x: real, pct: real)
    ensures Rounds(Round(Percent(x, pct)), x, pct)
  {
    RoundIsWhole(Percent(x, pct));
  }

  class Invoice {
    const items: array<LineItem>
    const sellerState: string
    const shipToState: string
    const shipping: real
    const coupon: real
    var interstate: bool
    var subtotal: real
    var totalCgst: real
    var totalSgst: real
    var totalIgst: real
    var grandTotal: real

    constructor (items: array<LineItem>, sellerState: string, shipToState: string, shipping: real, coupon: real)
      ensures this.items == items && this.shipping == shipping && this.coupon == coupon
      ensures this.sellerState == sellerState && this.shipToState == shipToState
    {
      this.items, this.sellerState, this.shipToState := items, sellerState, shipToState;
      this.shipping, this.coupon := shipping, coupon;
    }

    /** Every line has its tax, and the three taxes are summed up. */
    ghost predicate GstApplied()
      reads this, items
    {
      && interstate == (sellerState != shipToState)
      && (forall i :: 0 <= i < items.Length ==> items[i] == Taxed(interstate, items[i]))
      && totalCgst == Round(Sum(items[..], Cgst))
      && totalSgst == Round(Sum(items[..], Sgst))
      && totalIgst == Round(Sum(items[..], Igst))
    }

    ghost predicate TotalsComputed()
      reads this, items
    {
      && subtotal == Round(Sum(items[..], Taxable))
      && grandTotal == Round(subtotal + shipping + totalCgst + totalSgst + totalIgst - coupon)
    }

    method ApplyGST()
      modifies this`interstate, this`totalCgst, this`totalSgst, this`totalIgst, items
      ensures GstApplied()
      ensures forall i :: 0 <= i < items.Length ==> items[i] == Taxed(interstate, old(items[i]))
      ensures forall i :: 0 <= i < items.Length ==> Charged(sellerState != shipToState, old(items[i]), items[i])
      ensures Rounds(totalCgst, Sum(items[..], Cgst), 100.0) && Rounds(totalSgst, Sum(items[..], Sgst), 100.0)
      ensures Rounds(totalIgst, Sum(items[..], Igst), 100.0)
    {
      hide Round, Sum, Percent, Rounds, Charged;
      interstate := sellerState != shipToState;
      totalCgst, totalSgst, totalIgst := 0.0, 0.0, 0.0;
      SumsOfNone(items[..]);
      for i := 0 to items.Length
        invariant interstate == (sellerState != shipToState)
        invariant forall k :: 0 <= k < i ==> items[k] == Taxed(interstate, old(items[k]))
        invariant forall k :: i <= k < items.Length ==> items[k] == old(items[k])
        invariant totalCgst == Sum(items[..i], Cgst) && totalSgst == Sum(items[..i], Sgst)
          && totalIgst == Sum(items[..i], Igst)
      {
        ghost var before := items[..i];
        if interstate {
          items[i] := items[i].(cgst := 0.0, sgst := 0.0);
          items[i] := items[i].(igst := Round(Percent(items[i].taxable, items[i].igstPct)));
          items[i] := items[i].(total := Round(items[i].taxable + items[i].igst));
          totalIgst := totalIgst + items[i].igst;
        } else {
          items[i] := items[i].(igst := 0.0);
          items[i] := items[i].(cgst := Round(Percent(items[i].taxable, items[i].cgstPct)));
          items[i] := items[i].(sgst := Round(Percent(items[i].taxable, items[i].sgstPct)));
          items[i] := items[i].(total := Round(items[i].taxable + items[i].cgst + items[i].sgst));
          totalCgst := totalCgst + items[i].cgst;
          totalSgst := totalSgst + items[i].sgst;
        }
        assert items[..i] == before && items[..][..i] == items[..i] && items[..][..i + 1] == items[..i + 1];
        SumsSnoc(items[..], i);
      }
      assert items[..items.Length] == items[..];
      forall k | 0 <= k < items.Length
        ensures items[k] == Taxed(interstate, items[k]) && Charged(interstate, old(items[k]), items[k])
      {
        TaxedTwice(interstate, old(items[k]));
        TaxedIsCharged(interstate, old(items[k]));
      }
      RoundRounds(totalCgst);
      RoundRounds(totalSgst);
      RoundRounds(totalIgst);
      totalCgst := Round(totalCgst);
      totalSgst := Round(totalSgst);
      totalIgst := Round(totalIgst);
    }

    method ComputeTotals()
      modifies this`subtotal, this`grandTotal
      ensures TotalsComputed() && (old(GstApplied()) ==> GstApplied())
      ensures Rounds(subtotal, Sum(items[..], Taxable), 100.0)
      ensures Rounds(grandTotal, subtotal + shipping + totalCgst + totalSgst + totalIgst - coupon, 100.0)
    {
      hide Round, Sum, Percent, Rounds;
      subtotal := 0.0;
      SumsOfNone(items[..]);
      for i := 0 to items.Length
        invariant subtotal == Sum(items[..i], Taxable)
      {
        subtotal := subtotal + items[i].taxable;
        assert items[..][..i] == items[..i] && items[..][..i + 1] == items[..i + 1];
        SumsSnoc(items[..], i);
      }
      assert items[..items.Length] == items[..];
      RoundRounds(subtotal);
      subtotal := Round(subtotal);
      RoundRounds(subtotal + shipping + totalCgst + totalSgst + totalIgst - coupon);
      grandTotal := Round(subtotal + shipping + totalCgst + totalSgst + totalIgst - coupon);
    }
  }

  lemma SumsOfNone(items: seq<LineItem>)
    ensures forall f: LineItem -> real :: Sum(items[..0], f) == 0.0
  {
  }

  // ----- Conservation -----

  /** One paisa for an amount below zero. */
  function Slip(x: real): int {
    if x < 0.0 then 1 else 0
  }

  /** What a line comes to before rounding. */
  function LineAmount(it: LineItem): real {
    it.taxable + it.cgst + it.sgst + it.igst
  }

  function NegativeLines(items: seq<LineItem>): nat {
    if items == [] then 0 else NegativeLines(items[..|items| - 1]) + Slip(LineAmount(items[|items| - 1]))
  }

  /** Every line carries the taxes computed for it. */
  ghost predicate AllTaxed(interstate: bool, items: seq<LineItem>) {
    forall i :: 0 <= i < |items| ==> items[i] == Taxed(interstate, items[i])
  }

  ghost predicate Filled(interstate: bool, items: seq<LineItem>) {
    AllTaxed(interstate, items) && forall i :: 0 <= i < |items| ==> Whole(items[i].taxable)
  }

  lemma WholeSum(x: real, y: real)
    requires Whole(x) && Whole(y)
    ensures Whole(x + y) && Whole(x - y)
  {
    FloorOfWhole(x.Floor + y.Floor);
    FloorOfWhole(x.Floor - y.Floor);
    assert x + y == (x.Floor + y.Floor) as real && x - y == (x.Floor - y.Floor) as real;
  }

  lemma TaxesAreWhole(interstate: bool, it: LineItem)
    requires it == Taxed(interstate, it)
    ensures Whole(it.cgst) && Whole(it.sgst) && Whole(it.igst)
  {
    RoundIsWhole(Percent(it.taxable, it.igstPct));
    RoundIsWhole(Percent(it.taxable, it.cgstPct));
    RoundIsWhole(Percent(it.taxable, it.sgstPct));
    hide Round;
    FloorOfWhole(0);
  }

  lemma TaxedIsWhole(interstate: bool, it: LineItem)
    requires it == Taxed(interstate, it) && Whole(it.taxable)
    ensures Whole(it.cgst) && Whole(it.sgst) && Whole(it.igst)
    ensures it.total == LineAmount(it) + Slip(LineAmount(it)) as real
  {
    hide Round;
    TaxesAreWhole(interstate, it);
    WholeSum(it.taxable, it.cgst);
    WholeSum(it.taxable + it.cgst, it.sgst);
    WholeSum(it.taxable + it.cgst + it.sgst, it.igst);
    RoundOfWhole(LineAmount(it));
  }

  lemma {:induction false} ColumnsAreWhole(interstate: bool, items: seq<LineItem>)
    requires AllTaxed(interstate, items)
    ensures Whole(Sum(items, Cgst)) && Whole(Sum(items, Sgst)) && Whole(Sum(items, Igst))
  {
    hide Taxed, Whole;
    if items == [] {
      ZeroIsWhole();
    } else {
      var init, last := items[..|items| - 1], items[|items| - 1];
      ColumnsAreWhole(interstate, init);
      TaxesAreWhole(interstate, last);
      WholeSum(Sum(init, Cgst), last.cgst);
      WholeSum(Sum(init, Sgst), last.sgst);
      WholeSum(Sum(init, Igst), last.igst);
    }
  }

  lemma {:induction false} LinesAddUp(interstate: bool, items: seq<LineItem>)
    requires Filled(interstate, items)
    ensures Whole(Sum(items, Taxable))
    ensures Sum(items, Total) == Sum(items, Taxable) + Sum(items, Cgst) + Sum(items, Sgst) + Sum(items, Igst)
      + NegativeLines(items) as real
  {
    hide Taxed, Whole, LineAmount, Slip;
    if items == [] {
      ZeroIsWhole();
    } else {
      var init, last := items[..|items| - 1], items[|items| - 1];
      LinesAddUp(interstate, init);
      TaxedIsWhole(interstate, last);
      WholeSum(Sum(init, Taxable), last.taxable);
      AmountOf(last);
    }
  }

  lemma ZeroIsWhole()
    ensures Whole(0.0)
  {
    FloorOfWhole(0);
  }

  lemma AmountOf(it: LineItem)
    ensures LineAmount(it) == Taxable(it) + Cgst(it) + Sgst(it) + Igst(it)
  {
  }

  /** The sum the grand total is rounded from. */
  function BeforeRounding(items: seq<LineItem>, shipping: real, coupon: real): real {
    Round(Sum(items, Taxable)) + shipping + Round(Sum(items, Cgst)) + Round(Sum(items, Sgst))
      + Round(Sum(items, Igst)) - coupon
  }

  /** How many of the five aggregates are below zero. */
  function NegativeAggregates(items: seq<LineItem>, shipping: real, coupon: real): int {
    Slip(Sum(items, Taxable)) + Slip(Sum(items, Cgst)) + Slip(Sum(items, Sgst)) + Slip(Sum(items, Igst))
    + Slip(BeforeRounding(items, shipping, coupon))
  }

  /** With whole paise in, the grand total is what the lines come to, with shipping and without the
      coupon, exactly when as many lines as aggregates are below zero; in particular when none is. */
  lemma ConservedExactly(interstate: bool, items: seq<LineItem>, shipping: real, coupon: real)
    requires Filled(interstate, items) && Whole(shipping) && Whole(coupon)
    ensures Round(BeforeRounding(items, shipping, coupon)) == Sum(items, Total) + shipping - coupon
       <==> NegativeLines(items) == NegativeAggregates(items, shipping, coupon)
  {
    hide Taxed, Whole, Sum, NegativeLines, Round;
    ColumnsAreWhole(interstate, items);
    LinesAddUp(interstate, items);
    var t, c, s, i := Sum(items, Taxable), Sum(items, Cgst), Sum(items, Sgst), Sum(items, Igst);
    RoundOfWhole(t);
    RoundOfWhole(c);
    RoundOfWhole(s);
    RoundOfWhole(i);
    RoundIsWhole(t);
    RoundIsWhole(c);
    RoundIsWhole(s);
    RoundIsWhole(i);
    WholeSum(Round(t), shipping);
    WholeSum(Round(t) + shipping, Round(c));
    WholeSum(Round(t) + shipping + Round(c), Round(s));
    WholeSum(Round(t) + shipping + Round(c) + Round(s), Round(i));
    WholeSum(Round(t) + shipping + Round(c) + Round(s) + Round(i), coupon);
    RoundOfWhole(BeforeRounding(items, shipping, coupon));
  }

  // ----- How far rounding takes the tax -----

  /** A hundred times the tax of a line before rounding. */
  function TimesRate(interstate: bool, it: LineItem): real {
    if interstate then Times(it.taxable, it.igstPct) else Times(it.taxable, it.cgstPct) + Times(it.taxable, it.sgstPct)
  }

  function AllTimesRate(interstate: bool, items: seq<LineItem>): real {
    if items == [] then 0.0
    else AllTimesRate(interstate, items[..|items| - 1]) + TimesRate(interstate, items[|items| - 1])
  }

  /** How many of a line's taxes are rounded from below zero. */
  function NegativeTaxes(interstate: bool, it: LineItem): int {
    if interstate then Slip(Times(it.taxable, it.igstPct))
    else Slip(Times(it.taxable, it.cgstPct)) + Slip(Times(it.taxable, it.sgstPct))
  }

  function AllNegativeTaxes(interstate: bool, items: seq<LineItem>): int {
    if items == [] then 0
    else AllNegativeTaxes(interstate, items[..|items| - 1]) + NegativeTaxes(interstate, items[|items| - 1])
  }

  /** Half a paisa for every rounded tax of every line, in hundredths. */
  function Bound(interstate: bool, lines: nat): real {
    (if interstate then 50.0 else 100.0) * lines as real
  }

  /** Half a paisa either way, and one more for an amount below zero. */
  lemma RoundsClose(r: real, x: real, pct: real)
    requires Rounds(r, x, pct)
    ensures Abs(100.0 * r - Times(x, pct)) <= 50.0 + 100.0 * Slip(Times(x, pct)) as real
  {
  }

  lemma LineTaxErrorBound(interstate: bool, it: LineItem)
    requires it == Taxed(interstate, it)
    ensures Abs(100.0 * (it.cgst + it.sgst + it.igst) - TimesRate(interstate, it))
         <= Bound(interstate, 1) + 100.0 * NegativeTaxes(interstate, it) as real
  {
    TaxedIsCharged(interstate, it);
    ChargedClose(interstate, it, it);
  }

  lemma ChargedClose(interstate: bool, before: LineItem, it: LineItem)
    requires Charged(interstate, before, it)
    ensures Abs(100.0 * (it.cgst + it.sgst + it.igst) - TimesRate(interstate, before))
         <= Bound(interstate, 1) + 100.0 * NegativeTaxes(interstate, before) as real
  {
    hide Rounds, Times, Slip;
    if interstate {
      RoundsClose(it.igst, before.taxable, before.igstPct);
    } else {
      RoundsClose(it.cgst, before.taxable, before.cgstPct);
      RoundsClose(it.sgst, before.taxable, before.sgstPct);
    }
  }

  lemma {:induction false} TaxErrorBound(interstate: bool, items: seq<LineItem>)
    requires AllTaxed(interstate, items)
    ensures Abs(100.0 * (Sum(items, Cgst) + Sum(items, Sgst) + Sum(items, Igst)) - AllTimesRate(interstate, items))
         <= Bound(interstate, |items|) + 100.0 * AllNegativeTaxes(interstate, items) as real
  {
    hide Taxed, Whole, TimesRate, NegativeTaxes;
    if items == [] {
      assert Sum(items, Cgst) == 0.0;
    } else {
      var n := |items| - 1;
      TaxErrorBound(interstate, items[..n]);
      LineTaxErrorBound(interstate, items[n]);
      assert items[..n + 1] == items;
      SumsSnoc(items, n);
      assert Bound(interstate, n + 1) == Bound(interstate, n) + Bound(interstate, 1);
    }
  }

  /** How many of the three tax columns add up to less than zero. */
  function NegativeColumns(items: seq<LineItem>): int {
    Slip(Sum(items, Cgst)) + Slip(Sum(items, Sgst)) + Slip(Sum(items, Igst))
  }

  /** The three totals together differ from the unrounded tax, a hundredth of amount times rate over the
      lines, by half a paisa at most for every rounded tax of every line, and one paisa for every such tax
      and every column below zero. Rounding the column sums again adds nothing else. */
  lemma TotalTaxErrorBound(interstate: bool, items: seq<LineItem>)
    requires AllTaxed(interstate, items)
    ensures var rounded := Round(Sum(items, Cgst)) + Round(Sum(items, Sgst)) + Round(Sum(items, Igst));
            Abs(100.0 * rounded - AllTimesRate(interstate, items))
            <= (if interstate then 50.0 else 100.0) * |items| as real
               + 100.0 * (AllNegativeTaxes(interstate, items) + NegativeColumns(items)) as real
  {
    hide Round, Whole, Sum, AllTimesRate, AllNegativeTaxes;
    TaxErrorBound(interstate, items);
    ColumnsAreWhole(interstate, items);
    RoundOfWhole(Sum(items, Cgst));
    RoundOfWhole(Sum(items, Sgst));
    RoundOfWhole(Sum(items, Igst));
  }

  /** The same for an invoice as the two methods leave it. */
  lemma InvoiceConservedExactly(inv: Invoice)
    requires inv.GstApplied() && inv.TotalsComputed() && Whole(inv.shipping) && Whole(inv.coupon)
    requires forall i :: 0 <= i < inv.items.Length ==> Whole(inv.items[i].taxable)
    ensures inv.grandTotal == Sum(inv.items[..], Total) + inv.shipping - inv.coupon
       <==> NegativeLines(inv.items[..]) == NegativeAggregates(inv.items[..], inv.shipping, inv.coupon)
  {
    hide Taxed, Whole, Sum, Round, NegativeLines, NegativeAggregates;
    ConservedExactly(inv.interstate, inv.items[..], inv.shipping, inv.coupon);
  }
}
