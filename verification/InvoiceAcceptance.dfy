// Which invoices are accepted, what is said of the others, and what an accepted one looks like afterwards:
// all told from the invoice as it came in, although validation changes it as it goes.

module InvoiceAcceptance {
  import opened Options
  import opened Texts
  import opened Invoices
  import Npwp

  type Complaint = Option<InvoiceError>

  function Unless(holds: bool, error: InvoiceError): Complaint {
    if holds then None else Some(error)
  }

  function FirstOf(complaints: seq<Complaint>): Complaint {
    if complaints == [] then None else if complaints[0].Some? then complaints[0] else FirstOf(complaints[1..])
  }

  lemma {:induction false} FirstOfConcat(xs: seq<Complaint>, ys: seq<Complaint>)
    ensures FirstOf(xs + ys) == if FirstOf(xs).Some? then FirstOf(xs) else FirstOf(ys)
    decreases |xs|
  {
    if xs == [] {
      assert xs + ys == ys;
    } else {
      assert (xs + ys)[1..] == xs[1..] + ys;
      FirstOfConcat(xs[1..], ys);
    }
  }

  /** The first `k` are no complaints. */
  ghost predicate Passed(complaints: seq<Complaint>, k: nat)
    requires k <= |complaints|
  {
    forall i | 0 <= i < k :: complaints[i].None?
  }

  lemma {:induction false} FirstOfAt(complaints: seq<Complaint>, k: nat)
    requires k <= |complaints| && Passed(complaints, k) && (k < |complaints| ==> complaints[k].Some?)
    ensures FirstOf(complaints) == if k < |complaints| then complaints[k] else None
    decreases k
  {
    if k > 0 {
      assert Passed(complaints[1..], k - 1);
      FirstOfAt(complaints[1..], k - 1);
    }
  }

  lemma FirstComplaint(complaints: seq<Complaint>) returns (k: nat)
    ensures k <= |complaints| && Passed(complaints, k) && (k < |complaints| ==> complaints[k].Some?)
    ensures FirstOf(complaints) == if k < |complaints| then complaints[k] else None
  {
    k := 0;
    while k < |complaints| && complaints[k].None?
      invariant k <= |complaints| && Passed(complaints, k)
    {
      k := k + 1;
    }
    FirstOfAt(complaints, k);
  }

  // ---- The header ----

  predicate Printable(s: string) {
    forall i | 0 <= i < |s| :: 32 <= s[i] as int <= 126
  }

  predicate InRange(date: Option<Date>) {
    date.Some? && 1990 <= date.value.year <= 2100
  }

  /** Without a number, with a placeholder of 15 or 16 zeros, or with a valid number. */
  predicate TaxNumberSound(env: Env, npwp: string) {
    npwp == "" || Npwp.Clean(npwp) in {"000000000000000", "0000000000000000"} || Npwp.Validate(npwp, env.validNIK) == None
  }

  predicate CurrencySound(currency: string) {
    currency == "" || (|currency| == 3 && 'A' <= currency[0] <= 'Z' && 'A' <= currency[1] <= 'Z' && 'A' <= currency[2] <= 'Z')
  }

  /** An omitted due date is fine; another one must be a date that is not before the invoice's. */
  predicate DueDateSound(env: Env, dueDate: string, date: string) {
    dueDate == "" ||
    (&& env.parseDate(dueDate).Some? && env.parseDate(date).Some?
     && env.parseDate(date).value.dayOfEpoch <= env.parseDate(dueDate).value.dayOfEpoch)
  }

  /** What can be wrong with the header, in order. */
  function HeaderComplaints(env: Env, h: Header): (complaints: seq<Complaint>)
    ensures |complaints| == 10
  {
    var number, date := Trim(h.number), Trim(h.date);
    [Unless(number != "", NumberMissing),
     Unless(3 <= |number| <= 50 && Printable(number), NumberInvalid),
     Unless(date != "", DateMissing),
     Unless(InRange(env.parseDate(date)), DateInvalid),
     Unless(DueDateSound(env, Trim(h.dueDate), date), DueDateInvalid),
     Unless(Trim(h.sellerName) != "", SellerNameMissing),
     Unless(Trim(h.buyerName) != "", BuyerNameMissing),
     Unless(TaxNumberSound(env, Trim(h.sellerNPWP)), SellerNpwpInvalid),
     Unless(TaxNumberSound(env, Trim(h.buyerNPWP)), BuyerNpwpInvalid),
     Unless(CurrencySound(Upper(Trim(h.currency))), InvalidCurrency)]
  }

  /** A tax number is left as it is when it is a placeholder, and reduced to its digits otherwise. */
  function Digits(npwp: string): string {
    if npwp == "" || Npwp.Clean(npwp) in {"000000000000000", "0000000000000000"} then npwp else Npwp.Clean(npwp)
  }

  /** Which fields have been put in order when the first `k` checks have passed and the next one has looked at its own. */
  function HeaderAfter(h: Header, k: nat): Header {
    Header(
      Trim(h.number),
      if k < 2 then h.date else Trim(h.date),
      if k < 4 then h.dueDate else Trim(h.dueDate),
      if k < 5 then h.sellerName else Trim(h.sellerName),
      if k < 7 then h.sellerNPWP else if k < 8 then Trim(h.sellerNPWP) else Digits(Trim(h.sellerNPWP)),
      if k < 6 then h.buyerName else Trim(h.buyerName),
      if k < 8 then h.buyerNPWP else if k < 9 then Trim(h.buyerNPWP) else Digits(Trim(h.buyerNPWP)),
      if k < 9 then h.currency else if Trim(h.currency) == "" then "IDR" else Upper(Trim(h.currency)))
  }

  lemma DocumentStops(env: Env, h: Header, k: nat)
    requires k <= 4 && Passed(HeaderComplaints(env, h), k) && HeaderComplaints(env, h)[k].Some?
    ensures ValidateDocument(env, h) == (HeaderAfter(h, k), HeaderComplaints(env, h)[k])
  {
    var c := HeaderComplaints(env, h);
    assert (k > 0 ==> c[0].None?) && (k > 1 ==> c[1].None?) && (k > 2 ==> c[2].None?) && (k > 3 ==> c[3].None?);
  }

  lemma DocumentPasses(env: Env, h: Header)
    requires Passed(HeaderComplaints(env, h), 5)
    ensures ValidateDocument(env, h) == (HeaderAfter(h, 4), None)
  {
    var c := HeaderComplaints(env, h);
    assert c[0].None? && c[1].None? && c[2].None? && c[3].None? && c[4].None?;
  }

  lemma PartiesStop(env: Env, h: Header, k: nat)
    requires 5 <= k < 9 && Passed(HeaderComplaints(env, h), k) && HeaderComplaints(env, h)[k].Some?
    ensures ValidateParties(env, HeaderAfter(h, 4)) == (HeaderAfter(h, k), HeaderComplaints(env, h)[k])
  {
    var c := HeaderComplaints(env, h);
    assert (k > 5 ==> c[5].None?) && (k > 6 ==> c[6].None?) && (k > 7 ==> c[7].None?);
  }

  lemma PartiesPass(env: Env, h: Header)
    requires Passed(HeaderComplaints(env, h), 9)
    ensures ValidateParties(env, HeaderAfter(h, 4)) == (HeaderAfter(h, 9).(currency := h.currency), None)
  {
    var c := HeaderComplaints(env, h);
    assert c[5].None? && c[6].None? && c[7].None? && c[8].None?;
  }

  lemma CurrencyJudged(currency: string)
    ensures NormalCurrency(currency) == if Trim(currency) == "" then "IDR" else Upper(Trim(currency))
    ensures CurrencyAccepted(NormalCurrency(currency)) <==> CurrencySound(Upper(Trim(currency)))
  {
  }

  lemma CurrencyDecides(env: Env, h: Header, k: nat)
    requires 9 <= k <= 10 && Passed(HeaderComplaints(env, h), k) && (k == 9 ==> HeaderComplaints(env, h)[9].Some?)
    requires ValidateDocument(env, h) == (HeaderAfter(h, 4), None)
    ensures ValidateHeader(env, h) == (HeaderAfter(h, k), if k == 9 then HeaderComplaints(env, h)[9] else None)
  {
    PartiesPass(env, h);
    CurrencyJudged(h.currency);
    assert k == 10 ==> HeaderComplaints(env, h)[9].None?;
    var parties := HeaderAfter(h, 9).(currency := h.currency);
    assert parties.(currency := NormalCurrency(h.currency)) == HeaderAfter(h, k);
  }

  lemma HeaderAt(env: Env, h: Header, k: nat)
    requires k <= 10 && Passed(HeaderComplaints(env, h), k) && (k < 10 ==> HeaderComplaints(env, h)[k].Some?)
    ensures ValidateHeader(env, h) == (HeaderAfter(h, k), if k < 10 then HeaderComplaints(env, h)[k] else None)
  {
    if k <= 4 {
      DocumentStops(env, h, k);
    } else {
      DocumentPasses(env, h);
      if k < 9 {
        PartiesStop(env, h, k);
      } else {
        CurrencyDecides(env, h, k);
      }
    }
  }

  /** The first complaint is the answer, and the fields up to it have been put in order. */
  lemma HeaderJudged(env: Env, h: Header) returns (k: nat)
    ensures
      var complaints := HeaderComplaints(env, h);
      && k <= 10 && Passed(complaints, k) && (k < 10 ==> complaints[k].Some?)
      && ValidateHeader(env, h) == (HeaderAfter(h, k), FirstOf(complaints))
  {
    k := FirstComplaint(HeaderComplaints(env, h));
    HeaderAt(env, h, k);
  }

  // ---- The line items ----

  /** A total that is given is within two of the price. */
  predicate ItemSound(item: Item) {
    item.quantity > 0.0 && item.unitPrice >= 0.0
    && (item.totalPrice == 0.0 || -2.0 <= item.totalPrice - item.quantity * item.unitPrice <= 2.0)
  }

  function Total(item: Item): real {
    if item.totalPrice == 0.0 then item.quantity * item.unitPrice else item.totalPrice
  }

  /** The items when the first `k` have passed and the next one, if any, has been looked at. */
  function ItemsAfter(items: seq<Item>, k: nat): seq<Item> {
    seq(|items|, i requires 0 <= i < |items| =>
      if i < k then Item(Trim(items[i].description), items[i].quantity, items[i].unitPrice, Total(items[i]))
      else if i == k then items[i].(description := Trim(items[i].description))
      else items[i])
  }

  function ItemComplaints(items: seq<Item>): seq<Complaint> {
    seq(|items|, i requires 0 <= i < |items| => Unless(ItemSound(items[i]), InvalidLineItem(i)))
  }

  lemma ItemJudged(item: Item, index: nat)
    ensures ValidateItem(item, index) ==
      if ItemSound(item) then (Item(Trim(item.description), item.quantity, item.unitPrice, Total(item)), None)
      else (item.(description := Trim(item.description)), Some(InvalidLineItem(index)))
  {
    var price, trimmed := item.quantity * item.unitPrice, item.(description := Trim(item.description));
    assert Price(trimmed) == price;
    assert Abs(item.totalPrice - price) > 2.0 <==> !(-2.0 <= item.totalPrice - price <= 2.0);
    if item.quantity <= 0.0 || item.unitPrice < 0.0 {
      assert !ItemSound(item);
    } else if item.totalPrice == 0.0 {
      assert trimmed.(totalPrice := price) == Item(Trim(item.description), item.quantity, item.unitPrice, Total(item));
    } else {
      assert ItemSound(item) <==> -2.0 <= item.totalPrice - price <= 2.0;
      assert trimmed == Item(Trim(item.description), item.quantity, item.unitPrice, Total(item));
    }
  }

  /** The first `n` items have passed, and nothing has been done to the others. */
  function ItemsDone(items: seq<Item>, n: nat): seq<Item> {
    seq(|items|, i requires 0 <= i < |items| =>
      if i < n then Item(Trim(items[i].description), items[i].quantity, items[i].unitPrice, Total(items[i])) else items[i])
  }

  lemma {:induction false} ItemsPass(items: seq<Item>, n: nat)
    requires n <= |items| && forall i | 0 <= i < n :: ItemSound(items[i])
    ensures ValidateItems(items, n) == (ItemsDone(items, n), None)
    decreases n
  {
    if n > 0 {
      ItemsPass(items, n - 1);
      ItemJudged(items[n - 1], n - 1);
      assert ItemsDone(items, n - 1)[n - 1 := ValidateItem(items[n - 1], n - 1).0] == ItemsDone(items, n);
    } else {
      assert ItemsDone(items, 0) == items;
    }
  }

  /** The loop stops at the first item that is not sound, and fills in the totals that are missing up to there. */
  lemma ItemsJudged(items: seq<Item>) returns (k: nat)
    ensures
      var complaints := ItemComplaints(items);
      && k <= |items| && Passed(complaints, k) && (k < |items| ==> complaints[k].Some?)
      && ValidateItems(items, |items|) == (ItemsAfter(items, k), FirstOf(complaints))
  {
    k := FirstComplaint(ItemComplaints(items));
    forall i | 0 <= i < k ensures ItemSound(items[i]) {
      assert ItemComplaints(items)[i].None?;
    }
    ItemsPass(items, k);
    if k < |items| {
      ItemJudged(items[k], k);
      assert ItemsDone(items, k)[k := ValidateItem(items[k], k).0] == ItemsAfter(items, k);
      FailureStops(items, k, |items|);
    } else {
      assert ItemsDone(items, k) == ItemsAfter(items, k);
    }
  }

  function SumOf(items: seq<Item>, n: nat): real
    requires n <= |items|
  {
    if n == 0 then 0.0 else SumOf(items, n - 1) + Total(items[n - 1])
  }

  lemma {:induction false} TotalsAddUp(items: seq<Item>, n: nat)
    requires n <= |items|
    ensures SumOfTotals(ItemsAfter(items, |items|), n) == SumOf(items, n)
    decreases n
  {
    if n > 0 {
      TotalsAddUp(items, n - 1);
    }
  }

  // ---- The amounts ----

  function SubtotalOf(a: Amounts, hasItems: bool, sum: real): real {
    if hasItems && a.subtotal == 0.0 then sum else a.subtotal
  }

  /** The taxable base, worked back from the grand total when there is nothing else to go by. */
  function BaseOf(a: Amounts, subtotal: real): real {
    if a.dpp != 0.0 then a.dpp
    else if subtotal > 0.0 then subtotal - a.discount
    else if a.grandTotal > 0.0 then a.grandTotal - a.ppn
    else 0.0
  }

  /** The tax is a statutory share of the base, give or take two or a twentieth of a percent of the base. */
  predicate Fits(base: real, ppn: real, rate: real) {
    var error := ppn - base * rate;
    (-2.0 <= error <= 2.0) || (-(base * 0.0005) <= error <= base * 0.0005)
  }

  function RateOf(base: real, ppn: real): Option<real> {
    if ppn == 0.0 then Some(0.0)
    else if base <= 0.0 then None
    else if Fits(base, ppn, 0.12) then Some(0.12)
    else if Fits(base, ppn, 0.11) then Some(0.11)
    else if Fits(base, ppn, 0.10) then Some(0.10)
    else None
  }

  function TotalDue(a: Amounts, base: real): real {
    if a.grandTotal == 0.0 then base + a.ppn else a.grandTotal
  }

  predicate Near(x: real, y: real) {
    -2.0 <= x - y <= 2.0
  }

  function AmountComplaints(a: Amounts, hasItems: bool, sum: real): (complaints: seq<Complaint>)
    ensures |complaints| == 7
  {
    var subtotal := SubtotalOf(a, hasItems, sum);
    var base := BaseOf(a, subtotal);
    [Unless(hasItems ==> Near(subtotal, sum), SubtotalMismatch),
     Unless(a.discount >= 0.0 && (subtotal > 0.0 ==> a.discount <= subtotal + 2.0), InvalidDiscount),
     Unless(base >= -2.0, NegativeDPP),
     Unless(a.ppn >= 0.0, NegativePPN),
     Unless(RateOf(base, a.ppn).Some?, PPNRateInvalid),
     Unless(Near(TotalDue(a, base), base + a.ppn), GrandTotalMismatch),
     Unless(TotalDue(a, base) > 0.0, GrandTotalNonPositive)]
  }

  /** The amounts when the first `k` checks have passed and the next one, if any, has looked at its own. */
  function AmountsAfter(a: Amounts, hasItems: bool, sum: real, k: nat): Amounts {
    var subtotal := SubtotalOf(a, hasItems, sum);
    var base := BaseOf(a, subtotal);
    Amounts(
      if k < 1 then a.subtotal
      else if k < 2 || a.dpp != 0.0 || subtotal > 0.0 || a.grandTotal <= 0.0 then subtotal
      else base,
      a.discount,
      if k < 2 then a.dpp else base,
      a.ppn,
      if k < 5 || RateOf(base, a.ppn).None? then a.ppnRate else RateOf(base, a.ppn).value,
      if k < 6 then a.grandTotal else TotalDue(a, base))
  }

  lemma RateJudged(base: real, ppn: real)
    ensures MatchRate(base, ppn) == RateOf(base, ppn)
  {
    if base > 0.0 {
      assert RateTolerance(base) == if base * 0.0005 >= 2.0 then base * 0.0005 else 2.0;
    }
  }

  lemma BaseJudged(a: Amounts, hasItems: bool, sum: real, k: nat)
    requires k <= 7 && Passed(AmountComplaints(a, hasItems, sum), k)
    requires k < 7 ==> AmountComplaints(a, hasItems, sum)[k].Some?
    ensures k < 3 ==>
      ResolveBase(a, hasItems, sum) == (AmountsAfter(a, hasItems, sum, k), AmountComplaints(a, hasItems, sum)[k])
    ensures k >= 3 ==> ResolveBase(a, hasItems, sum) == (AmountsAfter(a, hasItems, sum, 3), None)
  {
    var c := AmountComplaints(a, hasItems, sum);
    assert (k > 0 ==> c[0].None?) && (k > 1 ==> c[1].None?) && (k > 2 ==> c[2].None?);
  }

  lemma TotalJudged(a: Amounts, hasItems: bool, sum: real, k: nat)
    requires 3 <= k <= 7 && Passed(AmountComplaints(a, hasItems, sum), k)
    requires k < 7 ==> AmountComplaints(a, hasItems, sum)[k].Some?
    ensures ResolveTotal(AmountsAfter(a, hasItems, sum, 3))
         == (AmountsAfter(a, hasItems, sum, k), if k < 7 then AmountComplaints(a, hasItems, sum)[k] else None)
  {
    var c := AmountComplaints(a, hasItems, sum);
    assert (k > 3 ==> c[3].None?) && (k > 4 ==> c[4].None?) && (k > 5 ==> c[5].None?) && (k > 6 ==> c[6].None?);
    RateJudged(BaseOf(a, SubtotalOf(a, hasItems, sum)), a.ppn);
  }

  lemma AmountsJudged(a: Amounts, hasItems: bool, sum: real) returns (k: nat)
    ensures
      var complaints := AmountComplaints(a, hasItems, sum);
      && k <= 7 && Passed(complaints, k) && (k < 7 ==> complaints[k].Some?)
      && ValidateAmounts(a, hasItems, sum) == (AmountsAfter(a, hasItems, sum, k), FirstOf(complaints))
  {
    k := FirstComplaint(AmountComplaints(a, hasItems, sum));
    BaseJudged(a, hasItems, sum, k);
    if k >= 3 {
      TotalJudged(a, hasItems, sum, k);
    }
  }

  // ---- The invoice ----

  /** Everything that can be wrong with an invoice, in order, told from the invoice as it came in. */
  function Complaints(env: Env, d: Invoice): seq<Complaint> {
    HeaderComplaints(env, d.header)
    + (ItemComplaints(d.items) + AmountComplaints(d.amounts, |d.items| > 0, SumOf(d.items, |d.items|)))
  }

  /**
   * The answer is the first thing wrong with the invoice as it came in, although it is changed on the way. A
   * refused invoice has been put in order as far as the check that failed and no further; an accepted one has its
   * texts trimmed, its tax numbers reduced to digits, and every amount that was missing filled in.
   */
  lemma InvoiceJudged(env: Env, d: Invoice) returns (k: nat, l: nat, m: nat)
    ensures k <= 10 && l <= |d.items| && m <= 7
    ensures Passed(HeaderComplaints(env, d.header), k) && (k < 10 ==> HeaderComplaints(env, d.header)[k].Some?)
    ensures k == 10 ==> Passed(ItemComplaints(d.items), l) && (l < |d.items| ==> ItemComplaints(d.items)[l].Some?)
    ensures
      var sum := SumOf(d.items, |d.items|);
      k == 10 && l == |d.items| ==>
        && Passed(AmountComplaints(d.amounts, |d.items| > 0, sum), m)
        && (m < 7 ==> AmountComplaints(d.amounts, |d.items| > 0, sum)[m].Some?)
    ensures
      var sum := SumOf(d.items, |d.items|);
      Validate(env, d) ==
        (Invoice(HeaderAfter(d.header, k),
                 if k == 10 && l == |d.items| then AmountsAfter(d.amounts, |d.items| > 0, sum, m) else d.amounts,
                 if k == 10 then ItemsAfter(d.items, l) else d.items),
         FirstOf(Complaints(env, d)))
  {
    var sum := SumOf(d.items, |d.items|);
    var items, amounts := ItemComplaints(d.items), AmountComplaints(d.amounts, |d.items| > 0, sum);
    k := HeaderJudged(env, d.header);
    l := ItemsJudged(d.items);
    m := AmountsJudged(d.amounts, |d.items| > 0, sum);
    TotalsAddUp(d.items, |d.items|);
    FirstOfConcat(items, amounts);
    FirstOfConcat(HeaderComplaints(env, d.header), items + amounts);
    FirstOfAt(HeaderComplaints(env, d.header), k);
    FirstOfAt(items, l);
    FirstOfAt(amounts, m);
  }

  /** An invoice is accepted exactly when nothing is wrong with it as it came in. */
  lemma AcceptedExactly(env: Env, d: Invoice)
    ensures Accepted(env, d) <==> Passed(Complaints(env, d), |Complaints(env, d)|)
  {
    var k, l, m := InvoiceJudged(env, d);
    var first := FirstComplaint(Complaints(env, d));
  }
}
