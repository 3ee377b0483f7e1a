// What an accepted invoice guarantees: how far its grand total can be from its line items, when
// validating it again changes nothing, and when its tax rate is determined.

module InvoiceLaws {
  import opened Arithmetic
  import opened Options
  import opened Texts
  import opened Invoices
  import Npwp

  // ---- The tolerance accumulates by a known amount ----

  lemma {:induction false} TimesMeans(n: nat)
    ensures Times(n, 0.0) == 0.0
    ensures Times(n, TOLERANCE) + 4.0 == TOLERANCE * (n + 2) as real
  {
    if n > 0 {
      TimesMeans(n - 1);
    }
  }

  lemma TotalFollowsPrice(item: Item, index: nat)
    requires ValidateItem(item, index).1.None?
    ensures Price(item) - 2.0 <= ValidateItem(item, index).0.totalPrice <= Price(item) + 2.0
  {
  }

  lemma {:induction false} TotalsFollowPrices(items: seq<Item>, n: nat)
    requires n <= |items| && ValidateItems(items, n).1.None?
    ensures
      var total, price, slack := SumOfTotals(ValidateItems(items, n).0, n), SumOfPrices(items, n), Times(n, TOLERANCE);
      price - slack <= total <= price + slack
  {
    if n > 0 {
      TotalsFollowPrices(items, n - 1);
      TotalFollowsPrice(items[n - 1], n - 1);
      var before, done := ValidateItems(items, n - 1).0, ValidateItems(items, n).0;
      assert done == before[n - 1 := ValidateItem(items[n - 1], n - 1).0];
      SumOfTotalsOfPrefix(before, done, n - 1);
    }
  }

  /** On the amounts alone, the grand total is off by at most two tolerances. */
  lemma AmountsFollowSum(a: Amounts, sum: real)
    requires ValidateAmounts(a, true, sum).1.None? && a.dpp == 0.0 && Subtotalled(a, true, sum).subtotal > 0.0
    ensures
      var a' := ValidateAmounts(a, true, sum).0;
      var due := sum - a'.discount + a'.ppn;
      due - 4.0 <= a'.grandTotal <= due + 4.0
  {
    var based := ResolveBase(a, true, sum).0;
    assert based.discount == a.discount && based.ppn == a.ppn && based.dpp == based.subtotal - a.discount;
    assert sum - 2.0 <= based.subtotal <= sum + 2.0;
  }

  /** The subtotal after an omitted one has been filled in from the line items. */
  function SubtotalUsed(d: Invoice): real {
    var items := ValidateItems(d.items, |d.items|).0;
    Subtotalled(d.amounts, |items| > 0, SumOfTotals(items, |items|)).subtotal
  }

  lemma SlackAdds(grandTotal: real, sum: real, price: real, rest: real, n: nat)
    requires price - Times(n, TOLERANCE) <= sum <= price + Times(n, TOLERANCE)
    requires sum + rest - 4.0 <= grandTotal <= sum + rest + 4.0
    ensures Abs(grandTotal - (price + rest)) <= TOLERANCE * (n + 2) as real
  {
    TimesMeans(n);
  }

  /** The sum of the line totals, once omitted ones have been filled in. */
  function SumUsed(d: Invoice): real {
    var items := ValidateItems(d.items, |d.items|).0;
    SumOfTotals(items, |items|)
  }

  lemma AcceptedParts(env: Env, d: Invoice)
    requires Accepted(env, d) && |d.items| > 0
    ensures ValidateItems(d.items, |d.items|).1.None?
    ensures ValidateAmounts(d.amounts, true, SumUsed(d)) == (Validate(env, d).0.amounts, None)
    ensures SubtotalUsed(d) == Subtotalled(d.amounts, true, SumUsed(d)).subtotal
  {
  }

  /** The grand total is within two tolerances, and one more for each line item, of what the prices come to. */
  predicate FollowsPrices(env: Env, d: Invoice) {
    var n, a := |d.items|, Validate(env, d).0.amounts;
    Abs(a.grandTotal - (SumOfPrices(d.items, n) + (a.ppn - a.discount))) <= TOLERANCE * (n + 2) as real
  }

  /**
   * An accepted invoice with `n` line items, a positive subtotal and no taxable base of its own has a
   * grand total within `2 * (n + 2)` of the sum of its prices less the discount plus the tax.
   */
  lemma GrandTotalFollowsPrices(env: Env, d: Invoice)
    requires Accepted(env, d) && |d.items| > 0 && d.amounts.dpp == 0.0 && SubtotalUsed(d) > 0.0
    ensures FollowsPrices(env, d)
  {
    AcceptedParts(env, d);
    TotalsFollowPrices(d.items, |d.items|);
    AmountsFollowSum(d.amounts, SumUsed(d));
    var a := Validate(env, d).0.amounts;
    SlackAdds(a.grandTotal, SumUsed(d), SumOfPrices(d.items, |d.items|), a.ppn - a.discount, |d.items|);
  }

  /** Items that are all alike and pass. */
  ghost predicate Alike(items: seq<Item>, item: Item) {
    && (forall i | 0 <= i < |items| :: items[i] == item)
    && (forall index: nat :: ValidateItem(item, index) == (item, None))
  }

  lemma {:induction false} AlikePass(items: seq<Item>, item: Item, n: nat)
    requires n <= |items| && Alike(items, item)
    ensures ValidateItems(items, n) == (items, None)
    ensures SumOfTotals(items, n) == Times(n, item.totalPrice)
    ensures SumOfPrices(items, n) == Times(n, Price(item))
  {
    if n > 0 {
      AlikePass(items, item, n - 1);
      assert items[n - 1] == item && items[n - 1 := item] == items;
      assert ValidateItem(item, n - 1) == (item, None);
    }
  }

  /** An item at a price whose total is off by the slack passes. */
  lemma UnitPasses(price: real, slack: real) returns (item: Item)
    requires price >= 0.0 && -2.0 <= slack <= 2.0 && (price + slack == 0.0 ==> slack == 0.0)
    ensures Price(item) == price && item.totalPrice == price + slack
    ensures forall index: nat :: ValidateItem(item, index) == (item, None)
  {
    item := Item("x", 1.0, price, price + slack);
    assert Trim("x") == "x";
  }

  /** Passing items whose totals exceed their prices by `n` times the given slack. */
  lemma ItemsWithSlack(n: nat, slack: real) returns (items: seq<Item>, sum: real)
    requires n > 0 && -2.0 <= slack <= 2.0
    ensures |items| == n && ValidateItems(items, |items|) == (items, None)
    ensures sum == SumOfTotals(items, |items|) && sum > 0.0 && sum == SumOfPrices(items, n) + Times(n, slack)
  {
    var item := UnitPasses(100.0, slack);
    items := seq(n, i => item);
    AlikePass(items, item, n);
    sum := Times(n, 100.0 + slack);
    TimesAdds(n, 100.0, slack);
    TimesIsProduct(n, 100.0 + slack);
    PositiveScale(100.0 + slack, 98.0, n as real);
  }

  lemma AcceptedWhen(env: Env, d: Invoice, sum: real, a: Amounts)
    requires ValidateHeader(env, d.header).1.None? && ValidateItems(d.items, |d.items|) == (d.items, None)
    requires SumOfTotals(d.items, |d.items|) == sum && ValidateAmounts(d.amounts, |d.items| > 0, sum) == (a, None)
    ensures Accepted(env, d) && Validate(env, d).0.amounts == a && Validate(env, d).0.items == d.items
    ensures d.items != [] && d.amounts.subtotal != 0.0 ==> SubtotalUsed(d) == d.amounts.subtotal
  {
  }

  function UntaxedAmounts(subtotal: real, dpp: real, grandTotal: real): Amounts {
    Amounts(subtotal, 0.0, dpp, 0.0, 0.0, grandTotal)
  }

  lemma UntaxedAmountsPass(hasItems: bool, subtotal: real, dpp: real, grandTotal: real, sum: real)
    requires hasItems && sum > 0.0 && sum - 2.0 <= subtotal <= sum + 2.0 && subtotal > 0.0 && dpp >= 0.0
    requires grandTotal > 0.0 && -2.0 <= grandTotal - (if dpp == 0.0 then subtotal else dpp) <= 2.0
    ensures
      ValidateAmounts(UntaxedAmounts(subtotal, dpp, grandTotal), hasItems, sum)
      == (UntaxedAmounts(subtotal, if dpp == 0.0 then subtotal else dpp, grandTotal), None)
  {
    var a := UntaxedAmounts(subtotal, dpp, grandTotal);
    var based := a.(dpp := if dpp == 0.0 then subtotal else dpp);
    assert Based(a) == based;
    assert ResolveBase(a, hasItems, sum) == (based, None);
    assert ResolveTotal(based) == (based, None);
  }

  /** An untaxed invoice over items that pass, with its three amounts within the tolerance of each other. */
  lemma UntaxedIsAccepted(env: Env, d: Invoice, subtotal: real, dpp: real, grandTotal: real, sum: real)
    requires ValidateHeader(env, d.header).1.None? && d.items != [] && d.amounts == UntaxedAmounts(subtotal, dpp, grandTotal)
    requires ValidateItems(d.items, |d.items|) == (d.items, None) && SumOfTotals(d.items, |d.items|) == sum
    requires sum > 0.0 && sum - 2.0 <= subtotal <= sum + 2.0 && subtotal > 0.0 && dpp >= 0.0
    requires grandTotal > 0.0 && -2.0 <= grandTotal - (if dpp == 0.0 then subtotal else dpp) <= 2.0
    ensures Accepted(env, d) && SubtotalUsed(d) == subtotal
    ensures Validate(env, d).0.amounts == UntaxedAmounts(subtotal, if dpp == 0.0 then subtotal else dpp, grandTotal)
  {
    UntaxedAmountsPass(|d.items| > 0, subtotal, dpp, grandTotal, sum);
    AcceptedWhen(env, d, sum, UntaxedAmounts(subtotal, if dpp == 0.0 then subtotal else dpp, grandTotal));
  }

  /** The bound is reached for every number of line items, whatever header is accepted. */
  lemma GrandTotalBoundIsReached(env: Env, header: Header, n: nat) returns (d: Invoice)
    requires ValidateHeader(env, header).1.None? && n > 0
    ensures Accepted(env, d) && |d.items| == n && d.amounts.dpp == 0.0 && SubtotalUsed(d) > 0.0
    ensures
      var a := Validate(env, d).0.amounts;
      a.grandTotal - (SumOfPrices(d.items, n) + (a.ppn - a.discount)) == TOLERANCE * (n + 2) as real
  {
    var items, sum := ItemsWithSlack(n, TOLERANCE);
    TimesMeans(n);
    d := Invoice(header, UntaxedAmounts(sum + 2.0, 0.0, sum + 4.0), items);
    UntaxedIsAccepted(env, d, sum + 2.0, 0.0, sum + 4.0, sum);
  }

  /** A taxable base the invoice brings along is never compared with its subtotal: any excess is accepted. */
  lemma SuppliedBaseIsNotCompared(env: Env, header: Header, n: nat, excess: real) returns (d: Invoice)
    requires ValidateHeader(env, header).1.None? && n > 0 && excess > 0.0
    ensures d.header == header && |d.items| == n && Accepted(env, d) && d.amounts.dpp != 0.0 && SubtotalUsed(d) > 0.0
    ensures
      var a := Validate(env, d).0.amounts;
      a.grandTotal - (SumOfPrices(d.items, n) + (a.ppn - a.discount)) == excess
  {
    var items, sum := ItemsWithSlack(n, 0.0);
    TimesMeans(n);
    d := Invoice(header, UntaxedAmounts(sum, sum + excess, sum + excess), items);
    UntaxedIsAccepted(env, d, sum, sum + excess, sum + excess, sum);
  }

  lemma GiftAmountsPass(hasItems: bool, dpp: real, excess: real)
    requires hasItems && excess > 0.0 && (dpp == 0.0 || dpp == excess)
    ensures
      ValidateAmounts(UntaxedAmounts(0.0, dpp, excess), hasItems, 0.0)
      == (UntaxedAmounts(if dpp == 0.0 then excess else 0.0, excess, excess), None)
  {
    var a := UntaxedAmounts(0.0, dpp, excess);
    var based := UntaxedAmounts(if dpp == 0.0 then excess else 0.0, excess, excess);
    assert ResolveBase(a, hasItems, 0.0) == (based, None);
    assert ResolveTotal(based) == (based, None);
  }

  /**
   * Nor is a base compared with prices that come to nothing, whether the invoice brings it along or it is
   * worked back from the grand total: again any excess is accepted.
   */
  lemma GiftsAreNotCompared(env: Env, header: Header, n: nat, supplied: bool, excess: real) returns (d: Invoice)
    requires ValidateHeader(env, header).1.None? && n > 0 && excess > 0.0
    ensures d.header == header && |d.items| == n && Accepted(env, d)
    ensures (d.amounts.dpp != 0.0 <==> supplied) && SubtotalUsed(d) == 0.0
    ensures
      var a := Validate(env, d).0.amounts;
      a.grandTotal - (SumOfPrices(d.items, n) + (a.ppn - a.discount)) == excess
  {
    var gift := UnitPasses(0.0, 0.0);
    var items, dpp := seq(n, i => gift), if supplied then excess else 0.0;
    d := Invoice(header, UntaxedAmounts(0.0, dpp, excess), items);
    AlikePass(items, gift, n);
    TimesMeans(n);
    GiftAmountsPass(|d.items| > 0, dpp, excess);
    AcceptedWhen(env, d, 0.0, UntaxedAmounts(if dpp == 0.0 then excess else 0.0, excess, excess));
  }

  /** Every accepted invoice of a shape, whether it brings a base along and whether its subtotal is positive, keeps the bound. */
  ghost predicate BoundHolds(env: Env, header: Header, n: nat, supplied: bool, positive: bool) {
    forall d: Invoice |
      && d.header == header && |d.items| == n && Accepted(env, d)
      && (d.amounts.dpp != 0.0 <==> supplied) && (SubtotalUsed(d) > 0.0 <==> positive)
      :: FollowsPrices(env, d)
  }

  /** Under every acceptable header and for every number of items, the bound is that of exactly one of the four shapes. */
  lemma BoundHoldsExactly(env: Env, header: Header, n: nat, supplied: bool, positive: bool)
    requires ValidateHeader(env, header).1.None? && n > 0
    ensures BoundHolds(env, header, n, supplied, positive) <==> !supplied && positive
  {
    var excess := TOLERANCE * (n + 2) as real + 1.0;
    if !supplied && positive {
      forall d: Invoice |
        && d.header == header && |d.items| == n && Accepted(env, d)
        && (d.amounts.dpp != 0.0 <==> supplied) && (SubtotalUsed(d) > 0.0 <==> positive)
        ensures FollowsPrices(env, d)
      {
        GrandTotalFollowsPrices(env, d);
      }
    } else if positive {
      var d := SuppliedBaseIsNotCompared(env, header, n, excess);
      assert !FollowsPrices(env, d);
    } else {
      var d := GiftsAreNotCompared(env, header, n, supplied, excess);
      assert !FollowsPrices(env, d);
    }
  }

  // ---- Validating again ----

  lemma NormalNpwpIsStable(env: Env, npwp: string)
    requires Trimmed(npwp) && NpwpAccepted(env, npwp)
    ensures
      var n := NormalNpwp(npwp);
      Trim(n) == n && NpwpAccepted(env, n) && NormalNpwp(n) == n
  {
    var n := NormalNpwp(npwp);
    Npwp.CleanedFaresAlike(npwp, env.validNIK);
    Npwp.CleanGivesDigits(npwp);
    assert n != "" ==> !IsSpace(n[0]) && !IsSpace(n[|n| - 1]);
    assert Trim(n) == n;
  }

  lemma NormalCurrencyIsStable(currency: string)
    ensures NormalCurrency(NormalCurrency(currency)) == NormalCurrency(currency)
  {
    UpperTrimIsIdempotent(currency);
    if NormalCurrency(currency) == "IDR" {
      assert Trim("IDR") == "IDR";
      assert Upper("IDR") == "IDR";
    }
  }

  lemma DocumentIsStable(env: Env, h: Header)
    requires ValidateDocument(env, h).1.None?
    ensures var h' := ValidateDocument(env, h).0; ValidateDocument(env, h') == (h', None)
  {
    TrimIsIdempotent(h.number);
    TrimIsIdempotent(h.date);
    TrimIsIdempotent(h.dueDate);
  }

  lemma PartiesAreStable(env: Env, h: Header)
    requires ValidateParties(env, h).1.None?
    ensures var h' := ValidateParties(env, h).0; ValidateParties(env, h') == (h', None)
  {
    TrimIsIdempotent(h.sellerName);
    TrimIsIdempotent(h.buyerName);
    TrimIsIdempotent(h.sellerNPWP);
    TrimIsIdempotent(h.buyerNPWP);
    NormalNpwpIsStable(env, Trim(h.sellerNPWP));
    NormalNpwpIsStable(env, Trim(h.buyerNPWP));
  }

  /** A document that passes does so whatever the parties and the currency. */
  lemma DocumentIsSeparate(env: Env, h: Header, other: Header)
    requires ValidateDocument(env, h) == (h, None)
    requires other.number == h.number && other.date == h.date && other.dueDate == h.dueDate
    ensures ValidateDocument(env, other) == (other, None)
  {
  }

  lemma PartiesAreSeparate(env: Env, h: Header, other: Header)
    requires ValidateParties(env, h) == (h, None) && other == h.(currency := other.currency)
    ensures ValidateParties(env, other) == (other, None)
  {
  }

  lemma HeaderIsStable(env: Env, h: Header)
    requires ValidateHeader(env, h).1.None?
    ensures var h' := ValidateHeader(env, h).0; ValidateHeader(env, h') == (h', None)
  {
    var h1 := ValidateDocument(env, h).0;
    var h2 := ValidateParties(env, h1).0;
    var h3 := h2.(currency := NormalCurrency(h2.currency));
    DocumentIsStable(env, h);
    DocumentIsSeparate(env, h1, h3);
    PartiesAreStable(env, h1);
    PartiesAreSeparate(env, h2, h3);
    NormalCurrencyIsStable(h2.currency);
  }

  lemma ItemIsStable(item: Item, index: nat)
    requires ValidateItem(item, index).1.None?
    ensures var item' := ValidateItem(item, index).0; ValidateItem(item', index) == (item', None)
  {
    TrimIsIdempotent(item.description);
  }

  /** After a successful pass every item up to the `n`-th is one that a second pass leaves alone. */
  lemma {:induction false} ItemsBecomeStable(items: seq<Item>, n: nat, i: nat)
    requires i < n <= |items| && ValidateItems(items, n).1.None?
    ensures var done := ValidateItems(items, n).0; ValidateItem(done[i], i) == (done[i], None)
    decreases n
  {
    if i == n - 1 {
      ItemIsStable(items[i], i);
    } else {
      ItemsBecomeStable(items, n - 1, i);
    }
  }

  lemma {:induction false} StableItemsPass(items: seq<Item>, n: nat)
    requires n <= |items| && forall i | 0 <= i < n :: ValidateItem(items[i], i) == (items[i], None)
    ensures ValidateItems(items, n) == (items, None)
  {
    if n > 0 {
      StableItemsPass(items, n - 1);
      assert items[n - 1 := items[n - 1]] == items;
    }
  }

  lemma ItemsAreStable(items: seq<Item>)
    requires ValidateItems(items, |items|).1.None?
    ensures var done := ValidateItems(items, |items|).0; ValidateItems(done, |done|) == (done, None)
  {
    var done := ValidateItems(items, |items|).0;
    forall i | 0 <= i < |done| ensures ValidateItem(done[i], i) == (done[i], None) {
      ItemsBecomeStable(items, |items|, i);
    }
    StableItemsPass(done, |done|);
  }

  /** The subtotal and the taxable base are both worked back from the grand total. */
  predicate BackFilled(a: Amounts, hasItems: bool, sum: real) {
    a.dpp == 0.0 && Subtotalled(a, hasItems, sum).subtotal <= 0.0 && a.grandTotal > 0.0
  }

  /** The worked-back subtotal would itself have passed the checks that come before. */
  predicate BackFillFits(a: Amounts, hasItems: bool, sum: real) {
    var base := a.grandTotal - a.ppn;
    (hasItems ==> Abs(base - sum) <= TOLERANCE) && a.discount <= base + TOLERANCE
  }

  lemma AcceptedTotals(a: Amounts)
    requires ResolveTotal(a).1.None?
    ensures var a' := ResolveTotal(a).0; ResolveTotal(a') == (a', None)
    ensures
      var a' := ResolveTotal(a).0;
      && a'.subtotal == a.subtotal && a'.discount == a.discount && a'.dpp == a.dpp && a'.ppn == a.ppn
      && a'.grandTotal > 0.0 && a.grandTotal >= 0.0 && a.ppn >= 0.0
      && (a.dpp <= 0.0 ==> a.ppn == 0.0)
  {
  }

  lemma AmountsAreStable(a: Amounts, hasItems: bool, sum: real)
    requires ValidateAmounts(a, hasItems, sum).1.None?
    ensures
      var a' := ValidateAmounts(a, hasItems, sum).0;
      ValidateAmounts(a', hasItems, sum) == (a', None)
      <==> (BackFilled(a, hasItems, sum) ==> BackFillFits(a, hasItems, sum))
  {
    var based := ResolveBase(a, hasItems, sum).0;
    AcceptedTotals(based);
    var a' := ResolveTotal(based).0;
    if BackFilled(a, hasItems, sum) {
      assert based.dpp == a.grandTotal - a.ppn == based.subtotal;
      assert based.dpp > 0.0;
      assert ResolveBase(a', hasItems, sum) == (a', None) <==> BackFillFits(a, hasItems, sum);
    } else {
      assert ResolveBase(a', hasItems, sum) == (a', None);
    }
  }

  predicate Repeatable(env: Env, d: Invoice) {
    var d' := Validate(env, d).0;
    Validate(env, d') == (d', None)
  }

  /**
   * Validating an accepted invoice again accepts it and changes nothing, exactly when the subtotal was
   * not worked back from the grand total or the result agrees with the line items and the discount.
   */
  lemma RepeatableExactly(env: Env, d: Invoice)
    requires Accepted(env, d)
    ensures
      var items := ValidateItems(d.items, |d.items|).0;
      var sum := SumOfTotals(items, |items|);
      Repeatable(env, d)
      <==> (BackFilled(d.amounts, |items| > 0, sum) ==> BackFillFits(d.amounts, |items| > 0, sum))
  {
    HeaderIsStable(env, d.header);
    ItemsAreStable(d.items);
    var items := ValidateItems(d.items, |d.items|).0;
    AmountsAreStable(d.amounts, |items| > 0, SumOfTotals(items, |items|));
  }

  /** In particular an invoice with neither line items nor a discount can always be validated again. */
  lemma PlainInvoicesAreRepeatable(env: Env, d: Invoice)
    requires Accepted(env, d) && d.items == [] && d.amounts.discount == 0.0
    ensures Repeatable(env, d)
  {
    RepeatableExactly(env, d);
    assert ValidateItems(d.items, 0).0 == [];
    var a := d.amounts;
    if BackFilled(a, false, 0.0) {
      var based := ResolveBase(a, false, 0.0).0;
      AcceptedTotals(based);
      assert based.dpp == a.grandTotal - a.ppn;
    }
  }

  // ---- The tax rate ----

  /**
   * A tax is accepted exactly when it is within the tolerance of a statutory rate on a positive base, and
   * the rate recorded is then the highest of those it fits.
   */
  lemma RateIsStatutory(dpp: real, ppn: real)
    requires ppn != 0.0
    ensures MatchRate(dpp, ppn).Some? <==> dpp > 0.0 && exists i | 0 <= i < |RATES| :: RateFits(dpp, ppn, RATES[i])
    ensures MatchRate(dpp, ppn).Some? ==>
      var rate := MatchRate(dpp, ppn).value;
      && rate in RATES && RateFits(dpp, ppn, rate)
      && forall i | 0 <= i < |RATES| :: RateFits(dpp, ppn, RATES[i]) ==> RATES[i] <= rate
  {
  }

  ghost predicate Ambiguous(dpp: real) {
    exists ppn, i, j | 0 <= i < j < |RATES| && ppn != 0.0 :: RateFits(dpp, ppn, RATES[i]) && RateFits(dpp, ppn, RATES[j])
  }

  /** Some tax amount fits two rates, and the higher one is then recorded, exactly on bases of at most 400. */
  lemma AmbiguousExactly(dpp: real)
    requires dpp > 0.0
    ensures Ambiguous(dpp) <==> dpp <= 400.0
  {
    if dpp <= 400.0 {
      var ppn := dpp * 0.115;
      assert RateFits(dpp, ppn, RATES[0]) && RateFits(dpp, ppn, RATES[1]);
    }
  }
}
