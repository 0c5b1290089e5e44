/**
 Cash-basis recognition of invoices from their reconciliations: every payment
 recognises its proportion of each category total, and the payment that settles
 the invoice recognises what is left.
 */
module Reconciliation {
  import opened Common
  import opened Rounding
  import opened Sorting
  import opened Events

  /** A partial reconciliation; `date` is its `max_date`. */
  datatype Partial = Partial(id: int, date: int, amount: int, methodKnown: bool)

  datatype Invoice = Invoice(
    id: int, totals: Totals, cashBasis: set<Category>, termsBalance: int, partials: seq<Partial>)

  function PartialKey(p: Partial): Key {
    (p.date, p.id, 0)
  }

  function Paid(partials: seq<Partial>): int {
    if partials == [] then 0 else partials[0].amount + Paid(partials[1..])
  }

  /** The invoice's payments up to `dateTo`, in date order. */
  function Through(partials: seq<Partial>, dateTo: int): seq<Partial> {
    SortBy(Filter(partials, DatedThrough(dateTo)), PartialKey)
  }

  /** By date, then by id. */
  ghost predicate InDateOrder(s: seq<Partial>) {
    forall i, j | 0 <= i < j < |s| :: s[i].date < s[j].date || (s[i].date == s[j].date && s[i].id <= s[j].id)
  }

  /** The payments of a window's end are those dated by then, each once, in that order. */
  lemma ThroughIs(partials: seq<Partial>, dateTo: int)
    ensures InDateOrder(Through(partials, dateTo))
    ensures multiset(Through(partials, dateTo)) == multiset(Filter(partials, (p: Partial) => p.date <= dateTo))
  {
    var due := Filter(partials, DatedThrough(dateTo));
    SortBySorted(due, PartialKey);
    assert multiset(SortBy(due, PartialKey)) == multiset(due);
    SameFilter(partials, DatedThrough(dateTo), (p: Partial) => p.date <= dateTo);
    hide SortBy;
    forall i, j | 0 <= i < j < |Through(partials, dateTo)|
      ensures var s := Through(partials, dateTo);
        s[i].date < s[j].date || (s[i].date == s[j].date && s[i].id <= s[j].id)
    {
      var s := SortBy(due, PartialKey);
      assert !KeyLess(PartialKey(s[j]), PartialKey(s[i]));
    }
  }

  lemma {:induction false} SameFilter(s: seq<Partial>, f: Partial -> bool, g: Partial -> bool)
    requires forall p | p in s :: f(p) == g(p)
    ensures Filter(s, f) == Filter(s, g)
  {
    if s != [] {
      assert s[0] in s;
      SameFilter(s[1..], f, g);
    }
  }

  function NotCashBasis(invoice: Invoice): ((Category, int)) -> bool {
    (t: (Category, int)) => t.0 !in invoice.cashBasis
  }

  function DatedThrough(dateTo: int): Partial -> bool {
    (p: Partial) => p.date <= dateTo
  }

  /** Categories this engine recognises: those without a cash-basis tax. */
  function Recognised(invoice: Invoice): Totals {
    Filter(invoice.totals, NotCashBasis(invoice))
  }

  function Proportion(categoryTotal: int, p: Partial, total: int): int
    requires total > 0
  {
    RoundDiv(categoryTotal * p.amount, total)
  }

  function Proportions(categoryTotal: int, partials: seq<Partial>, total: int): int
    requires total > 0
  {
    if partials == [] then 0
    else Proportion(categoryTotal, partials[0], total) + Proportions(categoryTotal, partials[1..], total)
  }

  predicate Settles(partials: seq<Partial>, k: nat, total: int) {
    k == |partials| - 1 && Paid(partials) == total
  }

  /** What payment `k` recognises of one category. */
  function Recognition(categoryTotal: int, partials: seq<Partial>, k: nat, total: int): int
    requires k < |partials| && total > 0
  {
    if Settles(partials, k, total) then categoryTotal - Proportions(categoryTotal, partials[..k], total)
    else Proportion(categoryTotal, partials[k], total)
  }

  function EventOf(invoice: Invoice, t: (Category, int), partials: seq<Partial>, k: nat): Event
    requires k < |partials| && invoice.termsBalance != 0
  {
    Event(ReconciliationKey(partials[k].id, invoice.id, t.0), partials[k].date, t.0,
          Recognition(t.1, partials, k, Abs(invoice.termsBalance)), partials[k].methodKnown)
  }

  /** Events of payment `k`, one per listed category. */
  function EventsAt(invoice: Invoice, totals: Totals, partials: seq<Partial>, k: nat): seq<Event>
    requires k < |partials| && invoice.termsBalance != 0
    decreases |totals|
  {
    if totals == [] then []
    else [EventOf(invoice, totals[0], partials, k)] + EventsAt(invoice, totals[1..], partials, k)
  }

  /** Events of payments `k..n` dated `dateFrom` or later. */
  function EventsBetween(invoice: Invoice, partials: seq<Partial>, k: nat, n: nat, dateFrom: int): seq<Event>
    requires k <= n <= |partials| && invoice.termsBalance != 0
    decreases n - k
  {
    if k == n then []
    else (if dateFrom <= partials[k].date then EventsAt(invoice, Recognised(invoice), partials, k) else [])
         + EventsBetween(invoice, partials, k + 1, n, dateFrom)
  }

  function InvoiceEvents(invoice: Invoice, dateFrom: int, dateTo: int): seq<Event> {
    if invoice.termsBalance == 0 then []
    else
      var partials := Through(invoice.partials, dateTo);
      EventsBetween(invoice, partials, 0, |partials|, dateFrom)
  }

  function ReconciliationEvents(invoices: seq<Invoice>, dateFrom: int, dateTo: int): seq<Event> {
    if invoices == [] then []
    else InvoiceEvents(invoices[0], dateFrom, dateTo) + ReconciliationEvents(invoices[1..], dateFrom, dateTo)
  }

  // ------------------------------------------------------------ the loops

  /** The running sum of a category; a missing entry counts zero. */
  function SumOf(valued: map<Category, int>, category: Category): int {
    if category in valued then valued[category] else 0
  }

  /** What one payment recognises of a category, given the running sums before it. */
  function StepAmount(t: (Category, int), partial: Partial, total: int, isLast: bool, claimed: map<Category, int>): int
    requires total > 0
  {
    if isLast then t.1 - SumOf(claimed, t.0) else Proportion(t.1, partial, total)
  }

  function StepEvents(invoice: Invoice, totals: Totals, partial: Partial, isLast: bool,
                      claimed: map<Category, int>): seq<Event>
    requires invoice.termsBalance != 0
    decreases |totals|
  {
    if totals == [] then []
    else [Event(ReconciliationKey(partial.id, invoice.id, totals[0].0), partial.date, totals[0].0,
                StepAmount(totals[0], partial, Abs(invoice.termsBalance), isLast, claimed), partial.methodKnown)]
         + StepEvents(invoice, totals[1..], partial, isLast, claimed)
  }

  /** The inner loop: one payment over the category totals, with the running sums per category. */
  method RecognisePayment(invoice: Invoice, partial: Partial, isLast: bool, claimed: map<Category, int>)
    returns (events: seq<Event>, valued: map<Category, int>)
    requires invoice.termsBalance != 0 && DistinctCategories(invoice.totals)
    ensures events == StepEvents(invoice, Recognised(invoice), partial, isLast, claimed)
    ensures Advanced(invoice, |invoice.totals|, partial, isLast, claimed, valued)
  {
    hide Proportion, Filter, StepEvents;
    var total := Abs(invoice.termsBalance);
    var p := NotCashBasis(invoice);
    events := [];
    valued := claimed;
    ghost var all := StepEvents(invoice, Recognised(invoice), partial, isLast, claimed);
    for i := 0 to |invoice.totals|
      invariant events + StepEvents(invoice, Filter(invoice.totals[i..], p), partial, isLast, claimed) == all
      invariant Advanced(invoice, i, partial, isLast, claimed, valued)
    {
      var category, categoryTotal := invoice.totals[i].0, invoice.totals[i].1;
      StepEventsAt(invoice, i, partial, isLast, claimed);
      AdvancedStep(invoice, i, partial, isLast, claimed, valued);
      ghost var rest := StepEvents(invoice, Filter(invoice.totals[i + 1..], p), partial, isLast, claimed);
      if category !in invoice.cashBasis {
        var before := SumOf(valued, category);
        var amount := if isLast then categoryTotal - before else Proportion(categoryTotal, partial, total);
        valued := valued[category := before + amount];
        var event := Event(ReconciliationKey(partial.id, invoice.id, category), partial.date, category,
                           amount, partial.methodKnown);
        AppendOne(events, event, rest);
        events := events + [event];
      }
    }
    NoStepEvents(invoice, partial, isLast, claimed);
    assert invoice.totals[|invoice.totals|..] == [];
  }

  lemma NoStepEvents(invoice: Invoice, partial: Partial, isLast: bool, claimed: map<Category, int>)
    requires invoice.termsBalance != 0
    ensures StepEvents(invoice, Filter([], NotCashBasis(invoice)), partial, isLast, claimed) == []
  {
  }

  /** The running sums after one payment has passed over the first `n` categories. */
  ghost predicate Advanced(invoice: Invoice, n: nat, partial: Partial, isLast: bool,
                           claimed: map<Category, int>, valued: map<Category, int>)
    requires invoice.termsBalance != 0
  {
    forall j | 0 <= j < |invoice.totals| :: var t := invoice.totals[j];
      SumOf(valued, t.0) == SumOf(claimed, t.0)
        + if j >= n || t.0 in invoice.cashBasis then 0
          else StepAmount(t, partial, Abs(invoice.termsBalance), isLast, claimed)
  }

  lemma AdvancedStep(invoice: Invoice, i: nat, partial: Partial, isLast: bool,
                     claimed: map<Category, int>, valued: map<Category, int>)
    requires invoice.termsBalance != 0 && DistinctCategories(invoice.totals) && i < |invoice.totals|
    requires Advanced(invoice, i, partial, isLast, claimed, valued)
    ensures var t := invoice.totals[i];
      && SumOf(valued, t.0) == SumOf(claimed, t.0)
      && Advanced(invoice, i + 1, partial, isLast, claimed,
                  if t.0 in invoice.cashBasis then valued
                  else valued[t.0 := SumOf(valued, t.0)
                      + StepAmount(t, partial, Abs(invoice.termsBalance), isLast, claimed)])
  {
  }

  lemma StepEventsAt(invoice: Invoice, i: nat, partial: Partial, isLast: bool, claimed: map<Category, int>)
    requires invoice.termsBalance != 0 && i < |invoice.totals|
    ensures var p := NotCashBasis(invoice);
      var t := invoice.totals[i];
      var rest := StepEvents(invoice, Filter(invoice.totals[i + 1..], p), partial, isLast, claimed);
      StepEvents(invoice, Filter(invoice.totals[i..], p), partial, isLast, claimed)
      == if p(t) then
           [Event(ReconciliationKey(partial.id, invoice.id, t.0), partial.date, t.0,
                  StepAmount(t, partial, Abs(invoice.termsBalance), isLast, claimed), partial.methodKnown)] + rest
         else rest
  {
    var p := NotCashBasis(invoice);
    var t := invoice.totals[i];
    assert invoice.totals[i..] == [t] + invoice.totals[i + 1..];
    FilterCons(t, invoice.totals[i + 1..], p);
    var f := Filter(invoice.totals[i + 1..], p);
    if p(t) {
      assert ([t] + f)[1..] == f;
    } else {
      assert [] + f == f;
    }
  }

  /** Before payment `k` the running sums hold the rounded proportions of the payments before it. */
  ghost predicate Running(invoice: Invoice, partials: seq<Partial>, k: nat, valued: map<Category, int>)
    requires k <= |partials| && invoice.termsBalance != 0
  {
    forall t | t in Recognised(invoice) ::
      SumOf(valued, t.0) == Proportions(t.1, partials[..k], Abs(invoice.termsBalance))
  }

  lemma {:induction false} StepEventsAreEventsAt(invoice: Invoice, totals: Totals, partials: seq<Partial>, k: nat,
                                                 claimed: map<Category, int>)
    requires invoice.termsBalance != 0 && k < |partials| && Running(invoice, partials, k, claimed)
    requires forall t | t in totals :: t in Recognised(invoice)
    ensures StepEvents(invoice, totals, partials[k], Settles(partials, k, Abs(invoice.termsBalance)), claimed)
         == EventsAt(invoice, totals, partials, k)
  {
    if totals != [] {
      assert totals[0] in totals;
      StepEventsAreEventsAt(invoice, totals[1..], partials, k, claimed);
    }
  }

  lemma RunningStart(invoice: Invoice, partials: seq<Partial>)
    requires invoice.termsBalance != 0
    ensures Running(invoice, partials, 0, map[])
  {
  }

  lemma RunningStep(invoice: Invoice, partials: seq<Partial>, k: nat, claimed: map<Category, int>,
                    valued: map<Category, int>)
    requires invoice.termsBalance != 0 && k < |partials| && Running(invoice, partials, k, claimed)
    requires Advanced(invoice, |invoice.totals|, partials[k], false, claimed, valued)
    ensures Running(invoice, partials, k + 1, valued)
  {
    var total := Abs(invoice.termsBalance);
    forall t | t in Recognised(invoice) ensures SumOf(valued, t.0) == Proportions(t.1, partials[..k + 1], total) {
      ProportionsStep(t.1, partials, k, total);
    }
  }

  lemma {:induction false} ProportionsStep(categoryTotal: int, partials: seq<Partial>, k: nat, total: int)
    requires k < |partials| && total > 0
    ensures Proportions(categoryTotal, partials[..k + 1], total)
         == Proportions(categoryTotal, partials[..k], total) + Proportion(categoryTotal, partials[k], total)
    decreases k
  {
    if k > 0 {
      assert partials[..k + 1][1..] == partials[1..][..k];
      assert partials[..k][1..] == partials[1..][..k - 1];
      ProportionsStep(categoryTotal, partials[1..], k - 1, total);
    } else {
      assert partials[..1][1..] == [] && partials[..0] == [];
    }
  }

  method InvoiceEventsLoop(invoice: Invoice, dateFrom: int, dateTo: int) returns (events: seq<Event>)
    requires DistinctCategories(invoice.totals)
    ensures events == InvoiceEvents(invoice, dateFrom, dateTo)
  {
    hide StepEvents, EventsAt, Recognised, Through, Proportions, Advanced, Running;
    var total := Abs(invoice.termsBalance);
    events := [];
    if total == 0 {
      return;
    }
    var allPartials := Through(invoice.partials, dateTo);
    var paid := Paid(allPartials);
    var valued: map<Category, int> := map[];
    RunningStart(invoice, allPartials);
    for k := 0 to |allPartials|
      invariant k < |allPartials| ==> Running(invoice, allPartials, k, valued)
      invariant events + EventsBetween(invoice, allPartials, k, |allPartials|, dateFrom)
             == InvoiceEvents(invoice, dateFrom, dateTo)
    {
      var isLast := k == |allPartials| - 1 && total - paid == 0;
      StepEventsAreEventsAt(invoice, Recognised(invoice), allPartials, k, valued);
      ghost var claimed := valued;
      var step;
      step, valued := RecognisePayment(invoice, allPartials[k], isLast, valued);
      if !isLast {
        RunningStep(invoice, allPartials, k, claimed, valued);
      }
      if dateFrom <= allPartials[k].date {
        events := events + step;
      }
    }
  }

  method ReconciliationLoop(invoices: seq<Invoice>, dateFrom: int, dateTo: int) returns (events: seq<Event>)
    requires forall i | i in invoices :: DistinctCategories(i.totals)
    ensures events == ReconciliationEvents(invoices, dateFrom, dateTo)
  {
    hide InvoiceEvents;
    events := [];
    for i := 0 to |invoices|
      invariant events + ReconciliationEvents(invoices[i..], dateFrom, dateTo)
             == ReconciliationEvents(invoices, dateFrom, dateTo)
    {
      var own := InvoiceEventsLoop(invoices[i], dateFrom, dateTo);
      assert invoices[i..][1..] == invoices[i + 1..];
      events := events + own;
    }
  }

  // ------------------------------------------------------------ independence of time cuts

  /** Reconciliations are positive and never exceed what the invoice asks for. */
  ghost predicate Payable(invoice: Invoice) {
    && (forall p | p in invoice.partials :: p.amount > 0)
    && Paid(invoice.partials) <= Abs(invoice.termsBalance)
  }

  lemma {:induction false} PaidAppend(a: seq<Partial>, b: seq<Partial>)
    ensures Paid(a + b) == Paid(a) + Paid(b)
  {
    if a == [] {
      assert a + b == b;
    } else {
      PaidAppend(a[1..], b);
      assert (a + b)[1..] == a[1..] + b;
    }
  }

  lemma {:induction false} PaidPositive(a: seq<Partial>)
    requires forall p | p in a :: p.amount > 0
    ensures Paid(a) >= 0 && (a != [] ==> Paid(a) > 0)
  {
    if a != [] {
      assert a[0] in a;
      PaidPositive(a[1..]);
    }
  }

  lemma {:induction false} PaidOfInsert(x: Partial, s: seq<Partial>)
    ensures Paid(Insert(x, s, PartialKey)) == x.amount + Paid(s)
  {
    if s != [] && KeyLess(PartialKey(s[0]), PartialKey(x)) {
      PaidOfInsert(x, s[1..]);
    } else {
      assert ([x] + s)[1..] == s;
    }
  }

  lemma {:induction false} PaidOfSort(s: seq<Partial>)
    ensures Paid(SortBy(s, PartialKey)) == Paid(s)
  {
    if s != [] {
      PaidOfSort(s[1..]);
      PaidOfInsert(s[0], SortBy(s[1..], PartialKey));
    }
  }

  /** Payments recorded after the listed ones never change what the listed ones recognise. */
  lemma RecognitionIsStable(categoryTotal: int, early: seq<Partial>, later: seq<Partial>, k: nat, total: int)
    requires total > 0 && k < |early| && Paid(early + later) <= total
    requires forall p | p in early + later :: p.amount > 0
    ensures Recognition(categoryTotal, early + later, k, total) == Recognition(categoryTotal, early, k, total)
  {
    PaidAppend(early, later);
    assert forall p | p in later :: p in early + later;
    PaidPositive(later);
    assert (early + later)[..k] == early[..k];
    assert later == [] ==> early + later == early;
  }

  /** How many leading payments are dated `date` or earlier. */
  function Cut(s: seq<Partial>, date: int): (n: nat)
    ensures n <= |s|
  {
    if s == [] || s[0].date > date then 0 else 1 + Cut(s[1..], date)
  }

  lemma {:induction false} CutFacts(s: seq<Partial>, date: int)
    requires SortedBy(s, PartialKey)
    ensures Filter(s, DatedThrough(date)) == s[..Cut(s, date)]
    ensures forall i | 0 <= i < |s| :: (i < Cut(s, date) <==> s[i].date <= date)
  {
    if s != [] {
      CutFacts(s[1..], date);
      var m := Cut(s[1..], date);
      if s[0].date <= date {
        assert [s[0]] + s[1..][..m] == s[..m + 1];
        assert forall i | 1 <= i < |s| :: s[i] == s[1..][i - 1];
      } else {
        forall i | 0 <= i < |s| ensures s[i].date > date {
          assert i > 0 ==> !KeyLess(PartialKey(s[i]), PartialKey(s[0]));
        }
        assert |s| > 1 ==> s[1..][0] == s[1] && s[1].date > date;
      }
    }
  }

  lemma {:induction false} CutMonotone(s: seq<Partial>, d: int, e: int)
    requires d <= e
    ensures Cut(s, d) <= Cut(s, e)
  {
    if s != [] && s[0].date <= d {
      CutMonotone(s[1..], d, e);
    }
  }

  function History(invoice: Invoice): seq<Partial> {
    SortBy(invoice.partials, PartialKey)
  }

  /** The payments through `dateTo` are a prefix of all payments in date order. */
  lemma ThroughIsPrefix(invoice: Invoice, dateTo: int)
    ensures Through(invoice.partials, dateTo) == History(invoice)[..Cut(History(invoice), dateTo)]
    ensures forall i | 0 <= i < |History(invoice)| ::
      (i < Cut(History(invoice), dateTo) <==> History(invoice)[i].date <= dateTo)
  {
    SortFilter(invoice.partials, DatedThrough(dateTo), PartialKey);
    SortBySorted(invoice.partials, PartialKey);
    CutFacts(History(invoice), dateTo);
  }

  lemma {:induction false} EventsOfPrefix(invoice: Invoice, s: seq<Partial>, n: nat, k: nat, m: nat, dateFrom: int)
    requires k <= m <= n <= |s| && invoice.termsBalance != 0
    requires (forall p | p in s :: p.amount > 0) && Paid(s) <= Abs(invoice.termsBalance)
    ensures EventsBetween(invoice, s[..n], k, m, dateFrom) == EventsBetween(invoice, s, k, m, dateFrom)
    decreases m - k
  {
    if k < m {
      EventsOfPrefix(invoice, s, n, k + 1, m, dateFrom);
      assert s == s[..n] + s[n..];
      EventsAtStable(invoice, Recognised(invoice), s[..n], s[n..], k);
    }
  }

  lemma {:induction false} EventsAtStable(invoice: Invoice, totals: Totals, early: seq<Partial>, later: seq<Partial>,
                                          k: nat)
    requires k < |early| && invoice.termsBalance != 0
    requires (forall p | p in early + later :: p.amount > 0) && Paid(early + later) <= Abs(invoice.termsBalance)
    ensures EventsAt(invoice, totals, early + later, k) == EventsAt(invoice, totals, early, k)
  {
    if totals != [] {
      RecognitionIsStable(totals[0].1, early, later, k, Abs(invoice.termsBalance));
      EventsAtStable(invoice, totals[1..], early, later, k);
    }
  }

  /** A window's events, told over the whole payment history. */
  lemma InvoiceEventsOverHistory(invoice: Invoice, dateFrom: int, dateTo: int)
    requires Payable(invoice) && invoice.termsBalance != 0
    ensures InvoiceEvents(invoice, dateFrom, dateTo)
         == EventsBetween(invoice, History(invoice), 0, Cut(History(invoice), dateTo), dateFrom)
  {
    var s := History(invoice);
    var n := Cut(s, dateTo);
    ThroughIsPrefix(invoice, dateTo);
    SortByMembers(invoice.partials, PartialKey);
    PaidOfSort(invoice.partials);
    EventsOfPrefix(invoice, s, n, 0, n, dateFrom);
  }

  lemma {:induction false} SameTail(invoice: Invoice, s: seq<Partial>, k: nat, m: nat, dateFrom: int, from': int)
    requires k <= m <= |s| && invoice.termsBalance != 0
    requires forall i | k <= i < m :: dateFrom <= s[i].date && from' <= s[i].date
    ensures EventsBetween(invoice, s, k, m, dateFrom) == EventsBetween(invoice, s, k, m, from')
    decreases m - k
  {
    if k < m {
      SameTail(invoice, s, k + 1, m, dateFrom, from');
    }
  }

  lemma {:induction false} SplitAtDate(invoice: Invoice, s: seq<Partial>, k: nat, n: nat, m: nat, dateFrom: int,
                                       mid: int)
    requires k <= n <= m <= |s| && invoice.termsBalance != 0 && dateFrom <= mid + 1
    requires forall i | 0 <= i < |s| :: (i < n <==> s[i].date <= mid)
    ensures EventsBetween(invoice, s, k, m, dateFrom)
         == EventsBetween(invoice, s, k, n, dateFrom) + EventsBetween(invoice, s, k, m, mid + 1)
    decreases n - k
  {
    if k == n {
      SameTail(invoice, s, k, m, dateFrom, mid + 1);
      assert EventsBetween(invoice, s, k, n, dateFrom) == [];
    } else {
      SplitAtDate(invoice, s, k + 1, n, m, dateFrom, mid);
      assert s[k].date <= mid;
      assert EventsBetween(invoice, s, k, m, mid + 1) == EventsBetween(invoice, s, k + 1, m, mid + 1);
      var here := if dateFrom <= s[k].date then EventsAt(invoice, Recognised(invoice), s, k) else [];
      var near, far := EventsBetween(invoice, s, k + 1, n, dateFrom), EventsBetween(invoice, s, k + 1, m, mid + 1);
      assert here + (near + far) == (here + near) + far;
    }
  }

  /** Two consecutive declaration windows recognise exactly what one covering window would. */
  lemma ConsecutiveWindows(invoice: Invoice, dateFrom: int, mid: int, dateTo: int)
    requires Payable(invoice) && dateFrom <= mid + 1 <= dateTo + 1
    ensures InvoiceEvents(invoice, dateFrom, dateTo)
         == InvoiceEvents(invoice, dateFrom, mid) + InvoiceEvents(invoice, mid + 1, dateTo)
  {
    if invoice.termsBalance != 0 {
      var s := History(invoice);
      InvoiceEventsOverHistory(invoice, dateFrom, mid);
      InvoiceEventsOverHistory(invoice, dateFrom, dateTo);
      InvoiceEventsOverHistory(invoice, mid + 1, dateTo);
      CutMonotone(s, mid, dateTo);
      ThroughIsPrefix(invoice, mid);
      SplitAtDate(invoice, s, 0, Cut(s, mid), Cut(s, dateTo), dateFrom, mid);
    }
  }

  /** However time is cut into consecutive windows, the same events come out, in the same order. */
  lemma AnyCutGivesTheSameEvents(invoice: Invoice, dateFrom: int, ends: seq<int>)
    requires Payable(invoice) && ends != [] && Chain(dateFrom, ends)
    ensures ChainEvents((a, b) => InvoiceEvents(invoice, a, b), dateFrom, ends)
         == InvoiceEvents(invoice, dateFrom, ends[|ends| - 1])
  {
    var w := (a, b) => InvoiceEvents(invoice, a, b);
    forall a, m, b | a <= m + 1 <= b + 1 ensures w(a, b) == w(a, m) + w(m + 1, b) {
      ConsecutiveWindows(invoice, a, m, b);
    }
    WindowsConcatenate(w, dateFrom, ends);
  }

  // ------------------------------------------------------------ a settled invoice adds up

  lemma {:induction false} AmountOfTotals(invoice: Invoice, totals: Totals, s: seq<Partial>, k: nat, i: nat)
    requires k < |s| && invoice.termsBalance != 0 && i < |totals| && DistinctCategories(totals)
    ensures AmountIn(EventsAt(invoice, totals, s, k), totals[i].0)
         == Recognition(totals[i].1, s, k, Abs(invoice.termsBalance))
  {
    var r := EventsAt(invoice, totals, s, k);
    assert r[1..] == EventsAt(invoice, totals[1..], s, k);
    if i > 0 {
      AmountOfTotals(invoice, totals[1..], s, k, i - 1);
    } else {
      NoAmount(invoice, totals[1..], s, k, totals[0].0);
    }
  }

  lemma {:induction false} NoAmount(invoice: Invoice, totals: Totals, s: seq<Partial>, k: nat, category: Category)
    requires k < |s| && invoice.termsBalance != 0 && forall t | t in totals :: t.0 != category
    ensures AmountIn(EventsAt(invoice, totals, s, k), category) == 0
  {
    if totals != [] {
      assert totals[0] in totals;
      assert EventsAt(invoice, totals, s, k)[1..] == EventsAt(invoice, totals[1..], s, k);
      NoAmount(invoice, totals[1..], s, k, category);
    }
  }

  lemma {:induction false} FilterKeepsDistinct(totals: Totals, p: ((Category, int)) -> bool)
    requires DistinctCategories(totals)
    ensures DistinctCategories(Filter(totals, p))
  {
    if totals != [] {
      FilterKeepsDistinct(totals[1..], p);
      var f := Filter(totals[1..], p);
      forall j | 0 <= j < |f| ensures f[j].0 != totals[0].0 {
        assert f[j] in totals[1..];
      }
    }
  }

  lemma {:induction false} AmountBetween(invoice: Invoice, s: seq<Partial>, k: nat, dateFrom: int, i: nat)
    requires k <= |s| && invoice.termsBalance != 0 && DistinctCategories(Recognised(invoice))
    requires i < |Recognised(invoice)| && (forall p | p in s :: dateFrom <= p.date)
    requires k == |s| ==> Paid(s) != Abs(invoice.termsBalance)
    ensures var t := Recognised(invoice)[i];
      AmountIn(EventsBetween(invoice, s, k, |s|, dateFrom), t.0)
      == if Paid(s) == Abs(invoice.termsBalance)
         then t.1 - Proportions(t.1, s[..k], Abs(invoice.termsBalance))
         else Proportions(t.1, s[k..], Abs(invoice.termsBalance))
    decreases |s| - k
  {
    if k < |s| {
      var t, total := Recognised(invoice)[i], Abs(invoice.termsBalance);
      assert s[k] in s;
      var here := EventsAt(invoice, Recognised(invoice), s, k);
      AmountInAppend(here, EventsBetween(invoice, s, k + 1, |s|, dateFrom), t.0);
      AmountOfTotals(invoice, Recognised(invoice), s, k, i);
      assert s[k..][1..] == s[k + 1..];
      if k + 1 < |s| || Paid(s) != total {
        AmountBetween(invoice, s, k + 1, dateFrom, i);
        ProportionsStep(t.1, s, k, total);
      }
    }
  }

  /**
   Once an invoice is settled, the events of each recognised category sum to
   exactly the category total; until then to the rounded proportions.
   */
  lemma SettledInvoiceAddsUp(invoice: Invoice, dateFrom: int, dateTo: int, i: nat)
    requires DistinctCategories(invoice.totals) && invoice.termsBalance != 0
    requires i < |Recognised(invoice)| && forall p | p in invoice.partials :: dateFrom <= p.date
    ensures var s, t, total := Through(invoice.partials, dateTo), Recognised(invoice)[i], Abs(invoice.termsBalance);
      AmountIn(InvoiceEvents(invoice, dateFrom, dateTo), t.0)
      == if Paid(s) == total then t.1 else Proportions(t.1, s, total)
  {
    var s := Through(invoice.partials, dateTo);
    SortByMembers(Filter(invoice.partials, DatedThrough(dateTo)), PartialKey);
    FilterKeepsDistinct(invoice.totals, NotCashBasis(invoice));
    AmountBetween(invoice, s, 0, dateFrom, i);
    assert s[..0] == [] && s[0..] == s;
  }

  // ------------------------------------------------------------ payments recorded out of date order

  /** Payments of `before` from `from` on recognise the same after one payment was put in front of them. */
  ghost predicate KeepAmounts(categoryTotal: int, before: seq<Partial>, after: seq<Partial>, from: nat, total: int)
    requires |after| == |before| + 1 && total > 0
  {
    forall k | from <= k < |before| ::
      Recognition(categoryTotal, before, k, total) == Recognition(categoryTotal, after, k + 1, total)
  }

  /**
   A payment recorded late but dated before the last known one. The known
   payments keep what they recognised exactly when the newcomer does not settle
   the invoice, or when the rounded proportions happen to leave no remainder.
   */
  lemma BackdatedPaymentExactly(categoryTotal: int, early: seq<Partial>, x: Partial, late: seq<Partial>, total: int)
    requires total > 0 && late != [] && Paid(early + late) < total
    ensures KeepAmounts(categoryTotal, early + late, early + [x] + late, |early|, total)
      <==> (Paid(early + late) + x.amount != total
            || Proportions(categoryTotal, early + [x] + late, total) == categoryTotal)
  {
    var before, after := early + late, early + [x] + late;
    PaidAppend(early, late);
    PaidAppend(early + [x], late);
    PaidAppend(early, [x]);
    assert Paid([x]) == x.amount;
    var last := |before| - 1;
    ProportionsStep(categoryTotal, after, last + 1, total);
    assert after[..last + 2] == after;
    forall k | |early| <= k < last
      ensures Recognition(categoryTotal, before, k, total) == Recognition(categoryTotal, after, k + 1, total)
    {
      assert after[k + 1] == before[k];
    }
    assert after[last + 1] == before[last];
    assert Recognition(categoryTotal, before, last, total) == Proportion(categoryTotal, after[last + 1], total);
  }

  /**
   What was recognised when each payment was first listed: the known ones before the
   newcomer, the newcomer after it.
   */
  function FirstRecognised(categoryTotal: int, before: seq<Partial>, after: seq<Partial>, k: nat, total: int): int
    requires k < |after| && total > 0
  {
    SumRecognised(categoryTotal, before, |before|, total) + Recognition(categoryTotal, after, k, total)
  }

  /** What the first `n` payments recognise together. */
  function SumRecognised(categoryTotal: int, partials: seq<Partial>, n: nat, total: int): int
    requires n <= |partials| && total > 0
  {
    if n == 0 then 0
    else SumRecognised(categoryTotal, partials, n - 1, total) + Recognition(categoryTotal, partials, n - 1, total)
  }

  lemma {:induction false} OpenAmounts(categoryTotal: int, partials: seq<Partial>, n: nat, total: int)
    requires n <= |partials| && total > 0 && Paid(partials) != total
    ensures SumRecognised(categoryTotal, partials, n, total) == Proportions(categoryTotal, partials[..n], total)
  {
    if n > 0 {
      OpenAmounts(categoryTotal, partials, n - 1, total);
      ProportionsOfAppend(categoryTotal, partials[..n - 1], [partials[n - 1]], total);
      assert partials[..n] == partials[..n - 1] + [partials[n - 1]] && [partials[n - 1]][1..] == [];
    } else {
      assert partials[..0] == [];
    }
  }

  lemma {:induction false} ProportionsOfAppend(categoryTotal: int, a: seq<Partial>, b: seq<Partial>, total: int)
    requires total > 0
    ensures Proportions(categoryTotal, a + b, total)
      == Proportions(categoryTotal, a, total) + Proportions(categoryTotal, b, total)
  {
    if a == [] {
      assert a + b == b;
    } else {
      assert (a + b)[1..] == a[1..] + b;
      ProportionsOfAppend(categoryTotal, a[1..], b, total);
    }
  }

  /**
   With amounts kept as first recognised, a backdated payment leaves the invoice
   at its rounded proportions; settling it reaches the category total exactly
   when they leave no remainder.
   */
  lemma BackdatedPaymentTotal(categoryTotal: int, early: seq<Partial>, x: Partial, late: seq<Partial>, total: int)
    requires total > 0 && late != [] && Paid(early + late) < total
    ensures FirstRecognised(categoryTotal, early + late, early + [x] + late, |early|, total)
         == Proportions(categoryTotal, early + [x] + late, total)
    ensures Paid(early + late) + x.amount == total ==>
      (FirstRecognised(categoryTotal, early + late, early + [x] + late, |early|, total) == categoryTotal
       <==> KeepAmounts(categoryTotal, early + late, early + [x] + late, |early|, total))
  {
    var before, after := early + late, early + [x] + late;
    OpenAmounts(categoryTotal, before, |before|, total);
    assert before[..|before|] == before && after[|early|] == x;
    ProportionsOfAppend(categoryTotal, early, late, total);
    ProportionsOfAppend(categoryTotal, early + [x], late, total);
    ProportionsOfAppend(categoryTotal, early, [x], total);
    assert [x][1..] == [];
    BackdatedPaymentExactly(categoryTotal, early, x, late, total);
  }

  /**
   A category that is the whole balance, in sign too for a refund, is recognised
   at the face value of its payments, so no order of recording ever shifts it.
   */
  lemma WholeBalanceAtFaceValue(categoryTotal: int, partials: seq<Partial>, k: nat, total: int)
    requires total > 0 && (categoryTotal == total || categoryTotal == -total) && k < |partials|
    ensures Recognition(categoryTotal, partials, k, total) == if categoryTotal > 0 then partials[k].amount
      else -partials[k].amount
  {
    FaceValues(categoryTotal, partials[..k], total);
    FaceValue(categoryTotal, partials[k], total);
    PaidAppend(partials[..k], [partials[k]]);
    assert k == |partials| - 1 ==> partials == partials[..k] + [partials[k]];
    assert [partials[k]][1..] == [];
  }

  lemma FaceValue(categoryTotal: int, p: Partial, total: int)
    requires total > 0 && (categoryTotal == total || categoryTotal == -total)
    ensures Proportion(categoryTotal, p, total) == if categoryTotal > 0 then p.amount else -p.amount
  {
    var value := if categoryTotal > 0 then p.amount else -p.amount;
    RoundDivExact(value, total);
    assert categoryTotal * p.amount == value * total;
  }

  lemma {:induction false} FaceValues(categoryTotal: int, partials: seq<Partial>, total: int)
    requires total > 0 && (categoryTotal == total || categoryTotal == -total)
    ensures Proportions(categoryTotal, partials, total) == if categoryTotal > 0 then Paid(partials) else -Paid(partials)
  {
    if partials != [] {
      FaceValue(categoryTotal, partials[0], total);
      FaceValues(categoryTotal, partials[1..], total);
    }
  }

  /** Concretely: one cent over two equal payments, the second recorded with an earlier date. */
  lemma BackdatedPaymentShiftsAmount()
    ensures var known, late := Partial(1, 10, 1, true), Partial(2, 9, 1, true);
      Recognition(1, [known], 0, 2) == 1 && Recognition(1, [late, known], 1, 2) == 0
  {
    var known, late := Partial(1, 10, 1, true), Partial(2, 9, 1, true);
    var both := [late, known];
    assert both[..1] == [late] && both[1..] == [known] && [late][1..] == [] && [known][1..] == [];
    assert Paid(both) == 2 && Paid([known]) == 1;
    assert Proportions(1, [late], 2) == 1;
  }
}
