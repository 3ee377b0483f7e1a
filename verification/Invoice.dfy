// The invoice validator. Amounts are exact reals. Validation also normalises: it trims text, fills in
// omitted amounts and cleans tax numbers, and what it has changed stays changed when it then fails.

module Invoices {
  import opened Options
  import opened Texts
  import Npwp

  datatype InvoiceError =
    | NumberMissing | NumberInvalid | DateMissing | DateInvalid | DueDateInvalid | SellerNameMissing | BuyerNameMissing
    | SellerNpwpInvalid | BuyerNpwpInvalid | InvalidCurrency | InvalidLineItem(index: nat) | SubtotalMismatch
    | InvalidDiscount | NegativeDPP | NegativePPN | PPNRateInvalid | GrandTotalMismatch | GrandTotalNonPositive

  datatype Date = Date(year: int, dayOfEpoch: int)

  /** Date parsing and the identity-number check are library code: any will do. */
  datatype Env = Env(parseDate: string -> Option<Date>, validNIK: string -> bool)

  datatype Item = Item(description: string, quantity: real, unitPrice: real, totalPrice: real)

  datatype Header = Header(
    number: string, date: string, dueDate: string,
    sellerName: string, sellerNPWP: string, buyerName: string, buyerNPWP: string,
    currency: string)

  datatype Amounts = Amounts(subtotal: real, discount: real, dpp: real, ppn: real, ppnRate: real, grandTotal: real)

  datatype Invoice = Invoice(header: Header, amounts: Amounts, items: seq<Item>)

  const TOLERANCE := 2.0

  function Abs(x: real): real {
    if x < 0.0 then -x else x
  }

  function Max(x: real, y: real): real {
    if x >= y then x else y
  }

  // ---- Text ----

  function CheckNumber(number: string): Option<InvoiceError> {
    if number == "" then Some(NumberMissing)
    else if |number| < 3 || |number| > 50 then Some(NumberInvalid)
    else if exists i | 0 <= i < |number| :: number[i] < ' ' || number[i] > '~' then Some(NumberInvalid)
    else None
  }

  function CheckDate(env: Env, date: string): Option<InvoiceError> {
    if date == "" then Some(DateMissing)
    else if env.parseDate(date).None? then Some(DateInvalid)
    else if env.parseDate(date).value.year < 1990 || env.parseDate(date).value.year > 2100 then Some(DateInvalid)
    else None
  }

  function CheckDueDate(env: Env, dueDate: string, date: string): Option<InvoiceError>
    requires env.parseDate(date).Some?
  {
    if dueDate == "" then None
    else if env.parseDate(dueDate).None? then Some(DueDateInvalid)
    else if env.parseDate(dueDate).value.dayOfEpoch < env.parseDate(date).value.dayOfEpoch then Some(DueDateInvalid)
    else None
  }

  /** An empty number and the all-zero placeholders are let through as they are. */
  predicate NpwpOptional(npwp: string) {
    npwp == "" || Npwp.Clean(npwp) == "000000000000000" || Npwp.Clean(npwp) == "0000000000000000"
  }

  predicate NpwpAccepted(env: Env, npwp: string) {
    NpwpOptional(npwp) || Npwp.Validate(npwp, env.validNIK) == None
  }

  function NormalNpwp(npwp: string): string {
    if NpwpOptional(npwp) then npwp else Npwp.Clean(npwp)
  }

  /** The currency after normalisation, or None when it is not a three-letter code. */
  function NormalCurrency(currency: string): string {
    var c := Upper(Trim(currency));
    if c == "" then "IDR" else c
  }

  predicate CurrencyAccepted(currency: string) {
    |currency| == 3 && forall i | 0 <= i < 3 :: 'A' <= currency[i] <= 'Z'
  }

  /** Number and dates. */
  function ValidateDocument(env: Env, h: Header): (Header, Option<InvoiceError>) {
    var h := h.(number := Trim(h.number));
    if CheckNumber(h.number).Some? then (h, CheckNumber(h.number)) else
    var h := h.(date := Trim(h.date));
    if CheckDate(env, h.date).Some? then (h, CheckDate(env, h.date)) else
    var h := h.(dueDate := Trim(h.dueDate));
    (h, CheckDueDate(env, h.dueDate, h.date))
  }

  /** Names and tax numbers. */
  function ValidateParties(env: Env, h: Header): (Header, Option<InvoiceError>) {
    var h := h.(sellerName := Trim(h.sellerName));
    if h.sellerName == "" then (h, Some(SellerNameMissing)) else
    var h := h.(buyerName := Trim(h.buyerName));
    if h.buyerName == "" then (h, Some(BuyerNameMissing)) else
    var h := h.(sellerNPWP := Trim(h.sellerNPWP));
    if !NpwpAccepted(env, h.sellerNPWP) then (h, Some(SellerNpwpInvalid)) else
    var h := h.(sellerNPWP := NormalNpwp(h.sellerNPWP), buyerNPWP := Trim(h.buyerNPWP));
    if !NpwpAccepted(env, h.buyerNPWP) then (h, Some(BuyerNpwpInvalid)) else
    (h.(buyerNPWP := NormalNpwp(h.buyerNPWP)), None)
  }

  function ValidateHeader(env: Env, h: Header): (Header, Option<InvoiceError>) {
    var (h, error) := ValidateDocument(env, h);
    if error.Some? then (h, error) else
    var (h, error) := ValidateParties(env, h);
    if error.Some? then (h, error) else
    var h := h.(currency := NormalCurrency(h.currency));
    (h, if CurrencyAccepted(h.currency) then None else Some(InvalidCurrency))
  }

  // ---- Line items ----

  function Price(item: Item): real {
    item.quantity * item.unitPrice
  }

  /** A missing total is filled in; a present one may be off by the tolerance. */
  function ValidateItem(item: Item, index: nat): (Item, Option<InvoiceError>) {
    var item := item.(description := Trim(item.description));
    if item.quantity <= 0.0 || item.unitPrice < 0.0 then (item, Some(InvalidLineItem(index)))
    else if item.totalPrice == 0.0 then (item.(totalPrice := Price(item)), None)
    else if Abs(item.totalPrice - Price(item)) > TOLERANCE then (item, Some(InvalidLineItem(index)))
    else (item, None)
  }

  /** The items from the first to the `n`-th have been looked at; a failure stops the loop. */
  function ValidateItems(items: seq<Item>, n: nat): (r: (seq<Item>, Option<InvoiceError>))
    requires n <= |items|
    ensures |r.0| == |items|
  {
    if n == 0 then (items, None)
    else
      var (done, error) := ValidateItems(items, n - 1);
      if error.Some? then (done, error)
      else
        var (item, failed) := ValidateItem(items[n - 1], n - 1);
        (done[n - 1 := item], failed)
  }

  function SumOfTotals(items: seq<Item>, n: nat): real
    requires n <= |items|
  {
    if n == 0 then 0.0 else SumOfTotals(items, n - 1) + items[n - 1].totalPrice
  }

  function SumOfPrices(items: seq<Item>, n: nat): real
    requires n <= |items|
  {
    if n == 0 then 0.0 else SumOfPrices(items, n - 1) + Price(items[n - 1])
  }

  // ---- Amounts ----

  const RATES: seq<real> := [0.12, 0.11, 0.10]

  function RateTolerance(dpp: real): real {
    Max(TOLERANCE, dpp * 0.0005)
  }

  predicate RateFits(dpp: real, ppn: real, rate: real) {
    Abs(ppn - dpp * rate) <= RateTolerance(dpp)
  }

  function MatchRate(dpp: real, ppn: real): Option<real> {
    if ppn == 0.0 then Some(0.0)
    else if dpp <= 0.0 then None
    else if RateFits(dpp, ppn, RATES[0]) then Some(RATES[0])
    else if RateFits(dpp, ppn, RATES[1]) then Some(RATES[1])
    else if RateFits(dpp, ppn, RATES[2]) then Some(RATES[2])
    else None
  }

  method MatchPPNRate(dpp: real, ppn: real) returns (rate: Option<real>)
    ensures rate == MatchRate(dpp, ppn)
  {
    if ppn == 0.0 {
      return Some(0.0);
    }
    if dpp <= 0.0 {
      return None;
    }
    var tolerance := Max(TOLERANCE, dpp * 0.0005);
    for i := 0 to |RATES|
      invariant forall k | 0 <= k < i :: !RateFits(dpp, ppn, RATES[k])
    {
      if Abs(ppn - dpp * RATES[i]) <= tolerance {
        return Some(RATES[i]);
      }
    }
    return None;
  }

  function Subtotalled(a: Amounts, hasItems: bool, sum: real): Amounts {
    if hasItems && a.subtotal == 0.0 then a.(subtotal := sum) else a
  }

  predicate DiscountAccepted(a: Amounts) {
    !(a.discount < 0.0 || (a.subtotal > 0.0 && a.discount > a.subtotal + TOLERANCE))
  }

  /** An omitted taxable base is the discounted subtotal, or else worked back from the grand total. */
  function Based(a: Amounts): Amounts {
    if a.dpp != 0.0 then a
    else if a.subtotal > 0.0 then a.(dpp := a.subtotal - a.discount)
    else if a.grandTotal > 0.0 then a.(dpp := a.grandTotal - a.ppn, subtotal := a.grandTotal - a.ppn)
    else a
  }

  /** Subtotal, discount and taxable base. */
  function ResolveBase(a: Amounts, hasItems: bool, sum: real): (Amounts, Option<InvoiceError>) {
    if hasItems && a.subtotal != 0.0 && Abs(a.subtotal - sum) > TOLERANCE then (a, Some(SubtotalMismatch)) else
    var a := Subtotalled(a, hasItems, sum);
    if !DiscountAccepted(a) then (a, Some(InvalidDiscount)) else
    (Based(a), if Based(a).dpp < -TOLERANCE then Some(NegativeDPP) else None)
  }

  /** Tax and grand total. */
  function ResolveTotal(a: Amounts): (Amounts, Option<InvoiceError>) {
    if a.ppn < 0.0 then (a, Some(NegativePPN)) else
    if MatchRate(a.dpp, a.ppn).None? then (a, Some(PPNRateInvalid)) else
    var a := a.(ppnRate := MatchRate(a.dpp, a.ppn).value);
    if a.grandTotal != 0.0 && Abs(a.grandTotal - (a.dpp + a.ppn)) > TOLERANCE then (a, Some(GrandTotalMismatch)) else
    var a := if a.grandTotal == 0.0 then a.(grandTotal := a.dpp + a.ppn) else a;
    (a, if a.grandTotal <= 0.0 then Some(GrandTotalNonPositive) else None)
  }

  function ValidateAmounts(a: Amounts, hasItems: bool, sum: real): (Amounts, Option<InvoiceError>) {
    var (a, error) := ResolveBase(a, hasItems, sum);
    if error.Some? then (a, error) else ResolveTotal(a)
  }

  function Validate(env: Env, d: Invoice): (Invoice, Option<InvoiceError>) {
    var (header, headerError) := ValidateHeader(env, d.header);
    var d := d.(header := header);
    if headerError.Some? then (d, headerError) else
    var (items, itemError) := ValidateItems(d.items, |d.items|);
    var d := d.(items := items);
    if itemError.Some? then (d, itemError) else
    var (amounts, amountError) := ValidateAmounts(d.amounts, |items| > 0, SumOfTotals(items, |items|));
    (d.(amounts := amounts), amountError)
  }

  predicate Accepted(env: Env, d: Invoice) {
    Validate(env, d).1.None?
  }

  // ---- The object ----

  class InvoiceData {
    var invoiceNumber: string
    var invoiceDate: string
    var dueDate: string
    var sellerName: string
    var sellerNPWP: string
    var buyerName: string
    var buyerNPWP: string
    var currency: string
    var subtotal: real
    var discount: real
    var dpp: real
    var ppn: real
    var ppnRate: real
    var grandTotal: real
    const lineItems: array<Item>

    ghost function ViewHeader(): Header
      reads this
    {
      Header(invoiceNumber, invoiceDate, dueDate, sellerName, sellerNPWP, buyerName, buyerNPWP, currency)
    }

    ghost function ViewAmounts(): Amounts
      reads this
    {
      Amounts(subtotal, discount, dpp, ppn, ppnRate, grandTotal)
    }

    ghost function View(): Invoice
      reads this, lineItems
    {
      Invoice(ViewHeader(), ViewAmounts(), lineItems[..])
    }

    constructor (h: Header, a: Amounts, items: array<Item>)
      ensures lineItems == items && ViewHeader() == h && ViewAmounts() == a
    {
      lineItems := items;
      invoiceNumber, invoiceDate, dueDate := h.number, h.date, h.dueDate;
      sellerName, sellerNPWP, buyerName, buyerNPWP := h.sellerName, h.sellerNPWP, h.buyerName, h.buyerNPWP;
      currency := h.currency;
      subtotal, discount, dpp, ppn, ppnRate, grandTotal := a.subtotal, a.discount, a.dpp, a.ppn, a.ppnRate, a.grandTotal;
    }

    /** Parts 1 to 3 of the source. */
    method CheckDocument(env: Env) returns (error: Option<InvoiceError>)
      modifies this
      ensures (ViewHeader(), error) == ValidateDocument(env, old(ViewHeader()))
      ensures ViewAmounts() == old(ViewAmounts())
    {
      invoiceNumber := Trim(invoiceNumber);
      error := CheckNumber(invoiceNumber);
      if error.Some? {
        return;
      }
      invoiceDate := Trim(invoiceDate);
      error := CheckDate(env, invoiceDate);
      if error.Some? {
        return;
      }
      dueDate := Trim(dueDate);
      error := CheckDueDate(env, dueDate, invoiceDate);
    }

    /** Parts 4 and 5. */
    method CheckParties(env: Env) returns (error: Option<InvoiceError>)
      modifies this
      ensures (ViewHeader(), error) == ValidateParties(env, old(ViewHeader()))
      ensures ViewAmounts() == old(ViewAmounts())
    {
      sellerName := Trim(sellerName);
      if sellerName == "" {
        return Some(SellerNameMissing);
      }
      buyerName := Trim(buyerName);
      if buyerName == "" {
        return Some(BuyerNameMissing);
      }
      sellerNPWP := Trim(sellerNPWP);
      if !NpwpOptional(sellerNPWP) {
        if Npwp.Validate(sellerNPWP, env.validNIK) != None {
          return Some(SellerNpwpInvalid);
        }
        sellerNPWP := Npwp.Clean(sellerNPWP);
      }
      buyerNPWP := Trim(buyerNPWP);
      if !NpwpOptional(buyerNPWP) {
        if Npwp.Validate(buyerNPWP, env.validNIK) != None {
          return Some(BuyerNpwpInvalid);
        }
        buyerNPWP := Npwp.Clean(buyerNPWP);
      }
      return None;
    }

    /** Part 6. */
    method CheckCurrency() returns (error: Option<InvoiceError>)
      modifies this
      ensures ViewHeader() == old(ViewHeader()).(currency := NormalCurrency(old(currency)))
      ensures error == if CurrencyAccepted(currency) then None else Some(InvalidCurrency)
      ensures ViewAmounts() == old(ViewAmounts())
    {
      currency := Upper(Trim(currency));
      if currency == "" {
        currency := "IDR";
      } else if |currency| != 3 {
        return Some(InvalidCurrency);
      } else {
        for i := 0 to 3
          invariant forall k | 0 <= k < i :: 'A' <= currency[k] <= 'Z'
        {
          if currency[i] < 'A' || currency[i] > 'Z' {
            return Some(InvalidCurrency);
          }
        }
      }
      return None;
    }

    /** Part 7: the summing loop, which fills in missing totals as it goes. */
    method ValidateLineItems() returns (sum: real, error: Option<InvoiceError>)
      modifies lineItems
      ensures (lineItems[..], error) == ValidateItems(old(lineItems[..]), lineItems.Length)
      ensures error.None? ==> sum == SumOfTotals(lineItems[..], lineItems.Length)
    {
      sum := 0.0;
      ghost var before := lineItems[..];
      for i := 0 to lineItems.Length
        invariant (lineItems[..], None) == ValidateItems(before, i)
        invariant lineItems[i..] == before[i..]
        invariant sum == SumOfTotals(lineItems[..], i)
      {
        ghost var halfway := lineItems[..];
        var item := lineItems[i];
        assert item == before[i];
        item := item.(description := Trim(item.description));
        if item.quantity <= 0.0 || item.unitPrice < 0.0 {
          lineItems[i] := item;
          FailureStops(before, i, lineItems.Length);
          return sum, Some(InvalidLineItem(i));
        }
        var expectedTotal := Price(item);
        if item.totalPrice == 0.0 {
          item := item.(totalPrice := expectedTotal);
        } else if Abs(item.totalPrice - expectedTotal) > TOLERANCE {
          lineItems[i] := item;
          FailureStops(before, i, lineItems.Length);
          return sum, Some(InvalidLineItem(i));
        }
        lineItems[i] := item;
        assert (item, None) == ValidateItem(before[i], i);
        assert lineItems[..] == halfway[i := item];
        SumOfTotalsOfPrefix(halfway, lineItems[..], i);
        sum := sum + item.totalPrice;
      }
      return sum, None;
    }

    /** Part 8, up to the taxable base. */
    method CheckBase(sum: real) returns (error: Option<InvoiceError>)
      modifies this
      ensures (ViewAmounts(), error) == ResolveBase(old(ViewAmounts()), lineItems.Length > 0, sum)
      ensures ViewHeader() == old(ViewHeader())
    {
      if lineItems.Length > 0 {
        if subtotal == 0.0 {
          subtotal := sum;
        } else if Abs(subtotal - sum) > TOLERANCE {
          return Some(SubtotalMismatch);
        }
      }
      if discount < 0.0 || (subtotal > 0.0 && discount > subtotal + TOLERANCE) {
        return Some(InvalidDiscount);
      }
      if dpp == 0.0 {
        if subtotal > 0.0 {
          dpp := subtotal - discount;
        } else if grandTotal > 0.0 {
          dpp := grandTotal - ppn;
          subtotal := dpp;
        }
      }
      if dpp < -TOLERANCE {
        return Some(NegativeDPP);
      }
      return None;
    }

    /** The rest of part 8. */
    method CheckTotal() returns (error: Option<InvoiceError>)
      modifies this
      ensures (ViewAmounts(), error) == ResolveTotal(old(ViewAmounts()))
      ensures ViewHeader() == old(ViewHeader())
    {
      if ppn < 0.0 {
        return Some(NegativePPN);
      }
      var rate := MatchPPNRate(dpp, ppn);
      if rate.None? {
        return Some(PPNRateInvalid);
      }
      ppnRate := rate.value;
      var expectedGrandTotal := dpp + ppn;
      if grandTotal == 0.0 {
        grandTotal := expectedGrandTotal;
      } else if Abs(grandTotal - expectedGrandTotal) > TOLERANCE {
        return Some(GrandTotalMismatch);
      }
      if grandTotal <= 0.0 {
        return Some(GrandTotalNonPositive);
      }
      return None;
    }

    method ValidateInvoice(env: Env) returns (error: Option<InvoiceError>)
      modifies this, lineItems
      ensures (View(), error) == Validate(env, old(View()))
    {
      error := CheckDocument(env);
      if error.Some? {
        return;
      }
      error := CheckParties(env);
      if error.Some? {
        return;
      }
      error := CheckCurrency();
      if error.Some? {
        return;
      }
      var sum;
      sum, error := ValidateLineItems();
      if error.Some? {
        return;
      }
      error := CheckBase(sum);
      if error.Some? {
        return;
      }
      error := CheckTotal();
    }
  }

  lemma {:induction false} FailureStops(items: seq<Item>, i: nat, n: nat)
    requires i < n <= |items| && ValidateItems(items, i).1.None? && ValidateItems(items, i + 1).1.Some?
    ensures ValidateItems(items, n) == ValidateItems(items, i + 1)
    decreases n
  {
    if n > i + 1 {
      FailureStops(items, i, n - 1);
    }
  }

  lemma {:induction false} SumOfTotalsOfPrefix(xs: seq<Item>, ys: seq<Item>, n: nat)
    requires n <= |xs| && n <= |ys| && xs[..n] == ys[..n]
    ensures SumOfTotals(xs, n) == SumOfTotals(ys, n)
  {
    if n > 0 {
      assert xs[..n - 1] == xs[..n][..n - 1] && ys[..n - 1] == ys[..n][..n - 1];
      assert xs[n - 1] == xs[..n][n - 1] && ys[n - 1] == ys[..n][n - 1];
      SumOfTotalsOfPrefix(xs, ys, n - 1);
    }
  }
}
